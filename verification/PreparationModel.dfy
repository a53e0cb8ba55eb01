/** Draft selections: the steps of each purpose, how a step narrows the next, and the table of single-use drafts. */
module PreparationModel {
  import opened Wrappers

  datatype Field =
    | Chassis | Weapon | Armor | Reactor | Ability1 | Ability2
    | Politics | Economics | Values | Future
    | Economy | Psych | Labs
    | Source | Target

  datatype Offer = Offer(name: string, value: int)

  datatype Step = Step(field: Field, offers: seq<Offer>)

  datatype Kind = UnitDesign | SocialEngineering | EnergyAllocation | UnitUpgrade | OtherKind(name: string)

  datatype Prototype = Prototype(id: int, name: string, custom: bool, inUse: bool)

  /** The option list an energy choice advertises: none, a malformed one, or whole numbers. */
  datatype Amounts = NotGiven | Malformed | Listed(values: seq<int>)

  datatype EnergyChoice = EnergyChoice(gift: bool, minimum: Option<int>, maximum: Option<int>, amounts: Amounts)

  /** A catalog with its rows already decoded to offers. */
  datatype Catalog = Catalog(mutations: bool, slots: int, enabled: bool, chassis: seq<Offer>, weapons: seq<Offer>,
                             armor: seq<Offer>, reactors: seq<Offer>, abilities: seq<Offer>,
                             categories: map<Field, seq<Offer>>, prototypes: seq<Prototype>,
                             choices: seq<EnergyChoice>)

  const NO_ABILITY := Offer("No special ability", -1)
  const TENTHS := 10
  const MOST_OPTIONS := 128

  // ----- Steps -------------------------------------------------------------------------------

  function Tenths(n: nat): (r: seq<Offer>)
    ensures |r| == n && forall i | 0 <= i < n :: r[i].value == i
  {
    seq(n, i => Offer("", i))
  }

  function Targets(prototypes: seq<Prototype>): seq<Offer> {
    if prototypes == [] then []
    else (if prototypes[0].custom then [Offer(prototypes[0].name, prototypes[0].id)] else []) + Targets(prototypes[1..])
  }

  predicate Another(offers: seq<Offer>, value: int) {
    exists i | 0 <= i < |offers| :: offers[i].value != value
  }

  /** Prototypes in use that some target differs from. */
  function Sources(prototypes: seq<Prototype>, targets: seq<Offer>): seq<Offer> {
    if prototypes == [] then []
    else (if prototypes[0].inUse && Another(targets, prototypes[0].id)
          then [Offer(prototypes[0].name, prototypes[0].id)]
          else []) + Sources(prototypes[1..], targets)
  }

  function Category(c: Catalog, field: Field): seq<Offer> {
    if field in c.categories then c.categories[field] else []
  }

  function Steps(kind: Kind, c: Catalog): seq<Step> {
    match kind
    case UnitDesign =>
      if !c.mutations || c.slots < 1 then []
      else [Step(Chassis, c.chassis), Step(Weapon, c.weapons), Step(Armor, c.armor), Step(Reactor, c.reactors),
            Step(Ability1, [NO_ABILITY] + c.abilities), Step(Ability2, [NO_ABILITY] + c.abilities)]
    case SocialEngineering =>
      if !c.enabled then []
      else [Step(Politics, Category(c, Politics)), Step(Economics, Category(c, Economics)),
            Step(Values, Category(c, Values)), Step(Future, Category(c, Future))]
    case EnergyAllocation => [Step(Economy, Tenths(TENTHS + 1)), Step(Psych, Tenths(TENTHS + 1))]
    case UnitUpgrade =>
      if !c.mutations then []
      else [Step(Source, Sources(c.prototypes, Targets(c.prototypes))), Step(Target, Targets(c.prototypes))]
    case OtherKind(_) => []
  }

  predicate Filled(steps: seq<Step>) {
    forall i | 0 <= i < |steps| :: steps[i].offers != []
  }

  // ----- Narrowing ---------------------------------------------------------------------------

  /** Whether an offer of `field` is still open after what was selected. */
  predicate Open(field: Field, selected: map<Field, int>, value: int) {
    && (field == Psych ==> Economy in selected && value <= TENTHS - selected[Economy])
    && (field == Ability2 ==> value < 0 || (Ability1 in selected && value != selected[Ability1]))
    && (field == Target ==> Source in selected && value != selected[Source])
  }

  function Narrowed(field: Field, selected: map<Field, int>, offers: seq<Offer>): (r: seq<Offer>)
    ensures |r| <= |offers|
    ensures forall i | 0 <= i < |r| :: r[i] in offers && Open(field, selected, r[i].value)
    ensures forall i | 0 <= i < |offers| && Open(field, selected, offers[i].value) :: offers[i] in r
  {
    if offers == [] then []
    else (if Open(field, selected, offers[0].value) then [offers[0]] else []) + Narrowed(field, selected, offers[1..])
  }

  ghost predicate Offers(step: Step, value: int) {
    exists i | 0 <= i < |step.offers| :: step.offers[i].value == value
  }

  ghost predicate Supported(steps: seq<Step>, i: nat)
    requires i < |steps|
  {
    match steps[i].field
    case Psych =>
      i == 1 && steps[0].field == Economy && Offers(steps[1], 0)
      && (forall v | Offers(steps[0], v) :: 0 <= v <= TENTHS) && (forall v | Offers(steps[1], v) :: 0 <= v)
    case Ability2 => i > 0 && steps[i - 1].field == Ability1 && Offers(steps[i], -1)
    case Target => i == 1 && steps[0].field == Source && forall v | Offers(steps[0], v) :: Another(steps[1].offers, v)
    case Labs => false
    case _ => true
  }

  /** Any choice of the earlier fields leaves an option of the later one, and what is open satisfies the
      constraint between them. */
  ghost predicate Coherent(steps: seq<Step>) {
    && steps != []
    && (forall i, j | 0 <= i < j < |steps| :: steps[i].field != steps[j].field)
    && (forall i | 0 <= i < |steps| :: steps[i].offers != [] && Supported(steps, i))
  }

  lemma {:induction false} SourcesHaveTargets(prototypes: seq<Prototype>, targets: seq<Offer>)
    ensures forall i | 0 <= i < |Sources(prototypes, targets)| ::
      Another(targets, Sources(prototypes, targets)[i].value)
  {
    if prototypes == [] {
    } else {
      SourcesHaveTargets(prototypes[1..], targets);
    }
  }

  lemma DesignIsCoherent(c: Catalog)
    requires c.mutations && c.slots >= 1 && Filled(Steps(UnitDesign, c))
    ensures Coherent(Steps(UnitDesign, c))
  {
    var steps := Steps(UnitDesign, c);
    assert steps[5].offers[0].value == -1;
    assert Supported(steps, 5);
    forall i | 0 <= i < |steps| ensures steps[i].offers != [] && Supported(steps, i) {}
  }

  lemma EnergyIsCoherent(c: Catalog)
    ensures Coherent(Steps(EnergyAllocation, c))
  {
    var steps := Steps(EnergyAllocation, c);
    assert steps[1].offers[0].value == 0;
    assert Supported(steps, 1);
  }

  lemma UpgradeIsCoherent(c: Catalog)
    requires c.mutations && Filled(Steps(UnitUpgrade, c))
    ensures Coherent(Steps(UnitUpgrade, c))
  {
    var steps := Steps(UnitUpgrade, c);
    SourcesHaveTargets(c.prototypes, Targets(c.prototypes));
    assert Supported(steps, 1);
  }

  /** The steps of every purpose are coherent once none of them is empty. */
  lemma StepsAreCoherent(kind: Kind, c: Catalog)
    requires Steps(kind, c) != [] && Filled(Steps(kind, c))
    ensures Coherent(Steps(kind, c))
  {
    match kind
    case UnitDesign => DesignIsCoherent(c);
    case EnergyAllocation => EnergyIsCoherent(c);
    case UnitUpgrade => UpgradeIsCoherent(c);
    case _ =>
  }

  // ----- Drafts ------------------------------------------------------------------------------

  datatype Body =
    | Choosing(purpose: Kind, steps: seq<Step>, selected: map<Field, int>, index: nat)
    | Amount(gift: bool, minimum: int, maximum: int, offered: Option<seq<int>>)

  datatype Draft = Draft(body: Body, scope: string, kind: Kind, selectors: string)

  type Ref = nat

  /** A stored draft: its reference, its expiry, and the options issued for its current step, numbered
      from `first`. */
  datatype Entry = Entry(ref: Ref, draft: Draft, expires: int, first: Ref, options: seq<Offer>)

  /** The drafts in order of insertion, and how many references were ever issued. */
  datatype Table = Table(rows: seq<Entry>, issued: nat)

  ghost function FieldsOf(steps: seq<Step>, n: nat): set<Field>
    requires n <= |steps|
  {
    set i | 0 <= i < n :: steps[i].field
  }

  ghost predicate Held(body: Body, i: nat)
    requires body.Choosing? && i < |body.steps|
  {
    body.steps[i].field in body.selected && Offers(body.steps[i], body.selected[body.steps[i].field])
  }

  /** The fields selected are exactly the first `index` ones, with values that were offered. */
  ghost predicate SelectedOffered(body: Body)
    requires body.Choosing? && body.index <= |body.steps|
  {
    body.selected.Keys == FieldsOf(body.steps, body.index) && forall i | 0 <= i < body.index :: Held(body, i)
  }

  /** What the finished fields owe each other. */
  ghost predicate Consistent(selected: map<Field, int>) {
    && (Psych in selected ==>
          && Economy in selected && selected[Economy] >= 0 && selected[Psych] >= 0
          && selected[Economy] + selected[Psych] <= TENTHS)
    && (Ability2 in selected ==>
          Ability1 in selected && (selected[Ability2] < 0 || selected[Ability1] != selected[Ability2]))
    && (Target in selected ==> Source in selected && selected[Target] != selected[Source])
  }

  /** The fields that the purpose ends with. */
  ghost predicate Fits(purpose: Kind, steps: seq<Step>) {
    && (purpose == EnergyAllocation ==> |steps| == 2 && steps[1].field == Psych)
    && (purpose == UnitDesign ==> |steps| == 6 && steps[5].field == Ability2)
    && (purpose == UnitUpgrade ==> |steps| == 2 && steps[1].field == Target)
  }

  /** A draft the table may hold. */
  ghost predicate Proper(d: Draft) {
    match d.body
    case Choosing(purpose, steps, selected, index) =>
      && index < |steps| && Coherent(steps) && SelectedOffered(d.body) && Consistent(selected)
      && (d.kind == EnergyAllocation <==> purpose == EnergyAllocation) && Fits(purpose, steps)
    case Amount(_, minimum, maximum, offered) =>
      && 0 < minimum <= maximum
      && (offered.Some? ==>
            offered.value != [] && forall i | 0 <= i < |offered.value| :: minimum <= offered.value[i] <= maximum)
  }

  function Current(d: Draft): (r: seq<Offer>)
    requires d.body.Choosing? ==> d.body.index < |d.body.steps|
  {
    match d.body
    case Choosing(_, steps, selected, index) => Narrowed(steps[index].field, selected, steps[index].offers)
    case Amount(_, _, _, _) => []
  }

  lemma EarlierSelected(body: Body, j: nat)
    requires body.Choosing? && body.index <= |body.steps| && SelectedOffered(body) && j < body.index
    ensures body.steps[j].field in body.selected && Offers(body.steps[j], body.selected[body.steps[j].field])
  {
    assert Held(body, j);
  }

  lemma OpenOfferRemains(field: Field, selected: map<Field, int>, offers: seq<Offer>, i: nat)
    requires i < |offers| && Open(field, selected, offers[i].value)
    ensures Narrowed(field, selected, offers) != []
  {
    assert offers[i] in Narrowed(field, selected, offers);
  }

  lemma FirstOfferOpen(step: Step, selected: map<Field, int>)
    requires step.offers != [] && step.field != Psych && step.field != Ability2 && step.field != Target
    ensures Narrowed(step.field, selected, step.offers) != []
  {
    OpenOfferRemains(step.field, selected, step.offers, 0);
  }

  /** A proper draft always has an option to offer. */
  lemma OptionRemains(d: Draft)
    requires Proper(d) && d.body.Choosing?
    ensures Current(d) != []
  {
    var steps, selected, index := d.body.steps, d.body.selected, d.body.index;
    var step := steps[index];
    assert Supported(steps, index);
    if index > 0 { EarlierSelected(d.body, index - 1); }
    hide Consistent, Held, FieldsOf, Coherent, SelectedOffered, Fits;
    if step.field == Psych {
      var i: nat :| i < |step.offers| && step.offers[i].value == 0;
      OpenOfferRemains(step.field, selected, step.offers, i);
    } else if step.field == Ability2 {
      var i: nat :| i < |step.offers| && step.offers[i].value == -1;
      OpenOfferRemains(step.field, selected, step.offers, i);
    } else if step.field == Target {
      var i: nat :| i < |step.offers| && step.offers[i].value != selected[Source];
      OpenOfferRemains(step.field, selected, step.offers, i);
    } else {
      FirstOfferOpen(step, selected);
    }
  }

  function Chosen(d: Draft, value: int): Draft
    requires d.body.Choosing? && d.body.index < |d.body.steps|
  {
    d.(body := d.body.(selected := d.body.selected[d.body.steps[d.body.index].field := value],
                       index := d.body.index + 1))
  }

  lemma CurrentOffered(d: Draft, k: nat)
    requires d.body.Choosing? && d.body.index < |d.body.steps| && k < |Current(d)|
    ensures Open(d.body.steps[d.body.index].field, d.body.selected, Current(d)[k].value)
    ensures Offers(d.body.steps[d.body.index], Current(d)[k].value)
  {
    assert Current(d)[k] in d.body.steps[d.body.index].offers;
  }

  lemma NotYetSelected(body: Body)
    requires body.Choosing? && body.index < |body.steps| && Coherent(body.steps) && SelectedOffered(body)
    ensures body.steps[body.index].field !in body.selected
  {}

  lemma FieldsGrow(steps: seq<Step>, n: nat)
    requires n < |steps|
    ensures FieldsOf(steps, n + 1) == FieldsOf(steps, n) + {steps[n].field}
  {}

  lemma ChosenSelected(d: Draft, value: int)
    requires d.body.Choosing? && d.body.index < |d.body.steps|
    requires Coherent(d.body.steps) && SelectedOffered(d.body) && Offers(d.body.steps[d.body.index], value)
    ensures SelectedOffered(Chosen(d, value).body)
  {
    hide Supported, FieldsOf, Offers;
    var body, next := d.body, Chosen(d, value).body;
    FieldsGrow(body.steps, body.index);
    forall i | 0 <= i < next.index ensures Held(next, i) {
      assert i < body.index ==> Held(body, i) && body.steps[i].field != body.steps[body.index].field;
    }
  }

  lemma StaysConsistent(selected: map<Field, int>, field: Field, value: int)
    requires Consistent(selected) && field !in selected && Open(field, selected, value)
    requires field == Psych ==> value >= 0 && selected[Economy] >= 0
    requires field == Ability2 ==> Ability1 in selected
    ensures Consistent(selected[field := value])
  {}

  lemma ChosenConsistent(d: Draft, value: int)
    requires d.body.Choosing? && d.body.index < |d.body.steps| && Coherent(d.body.steps) && SelectedOffered(d.body)
    requires Consistent(d.body.selected) && Offers(d.body.steps[d.body.index], value)
    requires Open(d.body.steps[d.body.index].field, d.body.selected, value)
    ensures Consistent(Chosen(d, value).body.selected)
  {
    var body := d.body;
    var field := body.steps[body.index].field;
    NotYetSelected(body);
    assert Supported(body.steps, body.index);
    if body.index > 0 { EarlierSelected(body, body.index - 1); }
    hide FieldsOf, Held, Supported, Coherent;
    StaysConsistent(body.selected, field, value);
  }

  /** One more choice keeps a draft proper, until no step is left. */
  lemma ChosenIsProper(d: Draft, k: nat)
    requires Proper(d) && d.body.Choosing? && k < |Current(d)| && d.body.index + 1 < |d.body.steps|
    ensures Proper(Chosen(d, Current(d)[k].value))
  {
    CurrentOffered(d, k);
    ChosenSelected(d, Current(d)[k].value);
    ChosenConsistent(d, Current(d)[k].value);
  }

  // ----- Completion --------------------------------------------------------------------------

  /** What an accepted preparation binds. */
  datatype Completion = Completion(purpose: Option<Kind>, kind: Kind, gift: bool, amount: Option<int>,
                                   selected: map<Field, int>)

  /** Every field of the steps has a value that was offered for it. */
  ghost predicate AllOffered(steps: seq<Step>, selected: map<Field, int>) {
    forall i | 0 <= i < |steps| :: steps[i].field in selected && Offers(steps[i], selected[steps[i].field])
  }

  /** Ten tenths in all and none negative, two different abilities, a target other than the source. */
  ghost predicate Agreeing(purpose: Kind, selected: map<Field, int>) {
    && (purpose == EnergyAllocation ==>
          && {Economy, Psych, Labs} <= selected.Keys
          && selected[Economy] >= 0 && selected[Psych] >= 0 && selected[Labs] >= 0
          && selected[Economy] + selected[Psych] + selected[Labs] == TENTHS)
    && (purpose == UnitDesign ==>
          && {Ability1, Ability2} <= selected.Keys
          && (selected[Ability1] >= 0 && selected[Ability2] >= 0 ==> selected[Ability1] != selected[Ability2]))
    && (purpose == UnitUpgrade ==>
          {Source, Target} <= selected.Keys && selected[Source] != selected[Target])
  }

  /** The whole of what a completed selection promises its executor. */
  ghost predicate Sound(c: Completion, body: Body) {
    match body
    case Amount(gift, minimum, maximum, offered) =>
      && c.purpose == None && c.gift == gift && c.amount.Some? && minimum <= c.amount.value <= maximum
      && 0 < c.amount.value && (offered.Some? ==> c.amount.value in offered.value)
    case Choosing(purpose, steps, _, _) =>
      && c.purpose == Some(purpose) && c.amount == None
      && AllOffered(steps, c.selected) && Agreeing(purpose, c.selected)
      && c.selected.Keys == FieldsOf(steps, |steps|) + (if purpose == EnergyAllocation then {Labs} else {})
  }

  /** The completion of a draft whose last field was just chosen. */
  function Completed(d: Draft): Completion
    requires d.body.Choosing? && (d.kind == EnergyAllocation ==> {Economy, Psych} <= d.body.selected.Keys)
  {
    var selected := d.body.selected;
    Completion(Some(d.body.purpose), d.kind, false, None,
               if d.kind == EnergyAllocation then selected[Labs := TENTHS - selected[Economy] - selected[Psych]]
               else selected)
  }

  lemma NoLabs(steps: seq<Step>, n: nat)
    requires n <= |steps| && Coherent(steps)
    ensures Labs !in FieldsOf(steps, n)
  {
    forall i | 0 <= i < n ensures steps[i].field != Labs { assert Supported(steps, i); }
  }

  lemma LastFieldSelected(body: Body)
    requires body.Choosing? && body.steps != [] && body.index == |body.steps| && SelectedOffered(body)
    ensures body.steps[|body.steps| - 1].field in body.selected
  {
    EarlierSelected(body, |body.steps| - 1);
  }

  /** The last field of a purpose that has constraints brings the field it depends on. */
  lemma LastBringsEarlier(body: Body)
    requires body.Choosing? && body.steps != [] && body.index == |body.steps| && SelectedOffered(body)
    requires Consistent(body.selected) && Fits(body.purpose, body.steps)
    ensures body.purpose == EnergyAllocation ==> {Economy, Psych} <= body.selected.Keys
    ensures body.purpose == UnitDesign ==> {Ability1, Ability2} <= body.selected.Keys
    ensures body.purpose == UnitUpgrade ==> {Source, Target} <= body.selected.Keys
  {
    LastFieldSelected(body);
    hide SelectedOffered;
  }

  lemma NotLabs(steps: seq<Step>, i: nat)
    requires i < |steps| && Labs !in FieldsOf(steps, |steps|)
    ensures steps[i].field != Labs
  {}

  lemma AllFieldsOffered(body: Body, labs: int)
    requires body.Choosing? && body.index == |body.steps| && Coherent(body.steps) && SelectedOffered(body)
    ensures AllOffered(body.steps, body.selected) && AllOffered(body.steps, body.selected[Labs := labs])
  {
    NoLabs(body.steps, |body.steps|);
    forall i | 0 <= i < |body.steps|
      ensures body.steps[i].field in body.selected && Offers(body.steps[i], body.selected[body.steps[i].field])
      ensures body.steps[i].field != Labs
    {
      EarlierSelected(body, i);
      NotLabs(body.steps, i);
    }
  }

  lemma ConsistentAgrees(body: Body)
    requires body.Choosing? && body.steps != [] && body.index == |body.steps| && SelectedOffered(body)
    requires Consistent(body.selected) && Fits(body.purpose, body.steps)
    ensures body.purpose == EnergyAllocation ==>
      {Economy, Psych} <= body.selected.Keys
      && Agreeing(body.purpose, body.selected[Labs := TENTHS - body.selected[Economy] - body.selected[Psych]])
    ensures body.purpose != EnergyAllocation ==> Agreeing(body.purpose, body.selected)
  {
    LastBringsEarlier(body);
    hide SelectedOffered, Fits;
  }

  lemma CompletedFields(done: Draft)
    requires done.body.Choosing? && (done.kind == EnergyAllocation ==> {Economy, Psych} <= done.body.selected.Keys)
    ensures var c, selected := Completed(done), done.body.selected;
      && c.purpose == Some(done.body.purpose) && c.amount == None
      && (done.kind == EnergyAllocation ==>
            c.selected == selected[Labs := TENTHS - selected[Economy] - selected[Psych]]
            && c.selected.Keys == selected.Keys + {Labs})
      && (done.kind != EnergyAllocation ==> c.selected == selected)
  {}

  lemma SelectedFields(body: Body)
    requires body.Choosing? && body.index == |body.steps| && SelectedOffered(body)
    ensures body.selected.Keys == FieldsOf(body.steps, |body.steps|)
  {}

  lemma SoundMade(c: Completion, body: Body)
    requires body.Choosing? && c.purpose == Some(body.purpose) && c.amount == None
    requires AllOffered(body.steps, c.selected) && Agreeing(body.purpose, c.selected)
    requires c.selected.Keys ==
      FieldsOf(body.steps, |body.steps|) + (if body.purpose == EnergyAllocation then {Labs} else {})
    ensures Sound(c, body)
  {}

  lemma FullSelectionIsSound(done: Draft)
    requires done.body.Choosing? && done.body.steps != [] && done.body.index == |done.body.steps|
    requires Coherent(done.body.steps) && SelectedOffered(done.body) && Consistent(done.body.selected)
    requires (done.kind == EnergyAllocation <==> done.body.purpose == EnergyAllocation)
    requires Fits(done.body.purpose, done.body.steps)
    ensures (done.kind == EnergyAllocation ==> {Economy, Psych} <= done.body.selected.Keys)
    ensures Sound(Completed(done), done.body)
  {
    hide *;
    var body := done.body;
    LastBringsEarlier(body);
    ConsistentAgrees(body);
    CompletedFields(done);
    SelectedFields(body);
    AllFieldsOffered(
      body, if done.kind == EnergyAllocation then TENTHS - body.selected[Economy] - body.selected[Psych] else 0);
    SoundMade(Completed(done), body);
  }

  /** Choosing the last field completes a sound selection: ten tenths in all, two different abilities, a
      target other than the source. */
  lemma CompletedIsSound(d: Draft, k: nat)
    requires Proper(d) && d.body.Choosing? && k < |Current(d)| && d.body.index + 1 == |d.body.steps|
    ensures var done := Chosen(d, Current(d)[k].value);
      (done.kind == EnergyAllocation ==> {Economy, Psych} <= done.body.selected.Keys)
      && Sound(Completed(done), done.body)
  {
    var value := Current(d)[k].value;
    var done := Chosen(d, value);
    CurrentOffered(d, k);
    ChosenSelected(d, value);
    ChosenConsistent(d, value);
    FullSelectionIsSound(done);
  }
}
