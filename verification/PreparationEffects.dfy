/** What a preparation offers, binds and leaves in the table, said in terms of the catalog and the rows. */
module PreparationEffects {
  import opened Listings
  import opened Wrappers
  import opened PreparationModel
  import opened ChoicePreparation

  // ----- Where offers come from --------------------------------------------------------------

  ghost predicate Lists(offers: seq<Offer>, value: int) {
    exists i | 0 <= i < |offers| :: offers[i].value == value
  }

  ghost predicate CustomPrototype(c: Catalog, value: int) {
    exists i | 0 <= i < |c.prototypes| :: c.prototypes[i].custom && c.prototypes[i].id == value
  }

  ghost predicate PrototypeInUse(c: Catalog, value: int) {
    exists i | 0 <= i < |c.prototypes| :: c.prototypes[i].inUse && c.prototypes[i].id == value
  }

  /** The catalog has this value for the field: each part of a design comes from its own group, each social
      field from its own category, and an upgrade leads from a prototype in use to another custom one. */
  ghost predicate InCatalog(c: Catalog, field: Field, value: int) {
    match field
    case Chassis => Lists(c.chassis, value)
    case Weapon => Lists(c.weapons, value)
    case Armor => Lists(c.armor, value)
    case Reactor => Lists(c.reactors, value)
    case Ability1 => value == -1 || Lists(c.abilities, value)
    case Ability2 => value == -1 || Lists(c.abilities, value)
    case Politics => Politics in c.categories && Lists(c.categories[Politics], value)
    case Economics => Economics in c.categories && Lists(c.categories[Economics], value)
    case Values => Values in c.categories && Lists(c.categories[Values], value)
    case Future => Future in c.categories && Lists(c.categories[Future], value)
    case Economy => 0 <= value <= 10
    case Psych => 0 <= value <= 10
    case Source => PrototypeInUse(c, value) && exists other :: other != value && CustomPrototype(c, other)
    case Target => CustomPrototype(c, value)
    case Labs => false
  }

  /** The fields of a purpose in the order they are asked for. */
  ghost function FieldsInOrder(purpose: Kind): seq<Field> {
    match purpose
    case UnitDesign => [Chassis, Weapon, Armor, Reactor, Ability1, Ability2]
    case SocialEngineering => [Politics, Economics, Values, Future]
    case EnergyAllocation => [Economy, Psych]
    case UnitUpgrade => [Source, Target]
    case OtherKind(_) => []
  }

  /** Whether the catalog admits the purpose at all. */
  ghost predicate Admits(c: Catalog, purpose: Kind) {
    match purpose
    case UnitDesign => c.mutations && c.slots >= 1
    case SocialEngineering => c.enabled
    case EnergyAllocation => true
    case UnitUpgrade => c.mutations
    case OtherKind(_) => false
  }

  lemma ListsEither(a: seq<Offer>, b: seq<Offer>, value: int)
    ensures Lists(a + b, value) <==> Lists(a, value) || Lists(b, value)
  {
    if Lists(a, value) {
      var i :| 0 <= i < |a| && a[i].value == value;
      assert (a + b)[i].value == value;
    }
    if Lists(b, value) {
      var i :| 0 <= i < |b| && b[i].value == value;
      assert (a + b)[|a| + i].value == value;
    }
  }

  lemma {:induction false} TargetsAreCustom(prototypes: seq<Prototype>, value: int)
    ensures Lists(Targets(prototypes), value)
       <==> exists i | 0 <= i < |prototypes| :: prototypes[i].custom && prototypes[i].id == value
  {
    if prototypes == [] {
    } else {
      TargetsAreCustom(prototypes[1..], value);
      var head, rest := if prototypes[0].custom then [Offer(prototypes[0].name, prototypes[0].id)] else [],
        Targets(prototypes[1..]);
      ListsEither(head, rest, value);
      if i: nat :| i < |prototypes| && prototypes[i].custom && prototypes[i].id == value {
        assert i > 0 ==> prototypes[1..][i - 1] == prototypes[i];
        assert i == 0 ==> head[0].value == value;
      }
    }
  }

  lemma {:induction false} SourcesAreInUse(prototypes: seq<Prototype>, targets: seq<Offer>, value: int)
    ensures Lists(Sources(prototypes, targets), value)
       <==> (exists i | 0 <= i < |prototypes| :: prototypes[i].inUse && prototypes[i].id == value)
            && Another(targets, value)
  {
    if prototypes == [] {
    } else {
      SourcesAreInUse(prototypes[1..], targets, value);
      var head := if prototypes[0].inUse && Another(targets, prototypes[0].id)
                  then [Offer(prototypes[0].name, prototypes[0].id)] else [];
      ListsEither(head, Sources(prototypes[1..], targets), value);
      if i: nat :| i < |prototypes| && prototypes[i].inUse && prototypes[i].id == value {
        assert i > 0 ==> prototypes[1..][i - 1] == prototypes[i];
        assert i == 0 && Another(targets, value) ==> head[0].value == value;
      }
    }
  }

  lemma AnotherIsCustom(c: Catalog, value: int)
    ensures Another(Targets(c.prototypes), value) <==> exists other :: other != value && CustomPrototype(c, other)
  {
    var targets := Targets(c.prototypes);
    if Another(targets, value) {
      var i :| 0 <= i < |targets| && targets[i].value != value;
      assert Lists(targets, targets[i].value);
      TargetsAreCustom(c.prototypes, targets[i].value);
      assert CustomPrototype(c, targets[i].value);
    }
    if other :| other != value && CustomPrototype(c, other) {
      TargetsAreCustom(c.prototypes, other);
      var i :| 0 <= i < |targets| && targets[i].value == other;
    }
  }

  lemma AbilityOrNone(abilities: seq<Offer>, value: int)
    ensures Lists([NO_ABILITY] + abilities, value) <==> value == -1 || Lists(abilities, value)
  {
    assert [NO_ABILITY][0].value == -1;
    ListsEither([NO_ABILITY], abilities, value);
  }

  lemma TenthsAre(value: int)
    ensures Lists(Tenths(11), value) <==> 0 <= value <= 10
  {
    if 0 <= value <= 10 { assert Tenths(11)[value].value == value; }
  }

  /** Step `i` of the purpose asks for its field, and offers exactly what the catalog has for it. */
  ghost predicate OffersCatalog(purpose: Kind, c: Catalog, i: nat, value: int) {
    var steps, fields := Steps(purpose, c), FieldsInOrder(purpose);
    && |steps| == |fields|
    && (i < |steps| ==>
          steps[i].field == fields[i] && (Lists(steps[i].offers, value) <==> InCatalog(c, fields[i], value)))
  }

  lemma DesignOffers(c: Catalog, i: nat, value: int)
    requires Admits(c, UnitDesign)
    ensures OffersCatalog(UnitDesign, c, i, value)
  {
    AbilityOrNone(c.abilities, value);
    hide Lists;
    var steps := Steps(UnitDesign, c);
    assert |steps| == 6 && (i < 6 ==> i == 0 || i == 1 || i == 2 || i == 3 || i == 4 || i == 5);
  }

  lemma SocialOffers(c: Catalog, i: nat, value: int)
    requires Admits(c, SocialEngineering)
    ensures OffersCatalog(SocialEngineering, c, i, value)
  {
    var none: seq<Offer> := [];
    assert !Lists(none, value);
    hide Lists;
    var steps := Steps(SocialEngineering, c);
    assert |steps| == 4 && (i < 4 ==> i == 0 || i == 1 || i == 2 || i == 3);
  }

  lemma EnergyOffers(c: Catalog, i: nat, value: int)
    ensures OffersCatalog(EnergyAllocation, c, i, value)
  {
    TenthsAre(value);
    hide Lists, Tenths;
  }

  lemma UpgradeOffers(c: Catalog, i: nat, value: int)
    requires Admits(c, UnitUpgrade)
    ensures OffersCatalog(UnitUpgrade, c, i, value)
  {
    TargetsAreCustom(c.prototypes, value);
    SourcesAreInUse(c.prototypes, Targets(c.prototypes), value);
    AnotherIsCustom(c, value);
    hide Lists, Targets, Sources, Another;
  }

  /** The steps of a purpose ask for its fields in order, and each step offers exactly what the catalog has for its
      field; there are none when the catalog does not admit the purpose. */
  lemma StepsOfferTheCatalog(purpose: Kind, c: Catalog, i: nat, value: int)
    ensures Steps(purpose, c) == [] <==> !Admits(c, purpose)
    ensures Admits(c, purpose) ==> OffersCatalog(purpose, c, i, value)
  {
    if Admits(c, purpose) {
      match purpose
      case UnitDesign => DesignOffers(c, i, value);
      case SocialEngineering => SocialOffers(c, i, value);
      case EnergyAllocation => EnergyOffers(c, i, value);
      case UnitUpgrade => UpgradeOffers(c, i, value);
      case OtherKind(_) =>
    }
    hide OffersCatalog, Tenths, Targets, Sources;
  }

  // ----- What is still open ------------------------------------------------------------------

  /** Psych takes no more than economy leaves of ten, the second ability is none or differs from the first, and the
      target of an upgrade differs from its source. */
  ghost predicate Allowed(field: Field, selected: map<Field, int>, value: int) {
    match field
    case Psych => Economy in selected && selected[Economy] + value <= 10
    case Ability2 => value < 0 || (Ability1 in selected && value != selected[Ability1])
    case Target => Source in selected && value != selected[Source]
    case _ => true
  }

  /** The options of a draft are exactly the offers of its step that what was selected still allows. */
  lemma OptionsAreAllowed(d: Draft, value: int)
    requires d.body.Choosing? && d.body.index < |d.body.steps|
    ensures var step := d.body.steps[d.body.index];
      Lists(Current(d), value) <==> Lists(step.offers, value) && Allowed(step.field, d.body.selected, value)
  {
    var step := d.body.steps[d.body.index];
    assert Open(step.field, d.body.selected, value) <==> Allowed(step.field, d.body.selected, value);
    if Lists(Current(d), value) {
      var i :| 0 <= i < |Current(d)| && Current(d)[i].value == value;
      var j :| 0 <= j < |step.offers| && step.offers[j] == Current(d)[i];
    }
    if Lists(step.offers, value) && Allowed(step.field, d.body.selected, value) {
      var i :| 0 <= i < |step.offers| && step.offers[i].value == value;
      assert step.offers[i] in Current(d);
      var j :| 0 <= j < |Current(d)| && Current(d)[j] == step.offers[i];
    }
  }

  // ----- What a request opens ----------------------------------------------------------------

  /** One of the energy choices asks for an amount within these bounds, of these values if it lists any: a gift
      must list them, and a list must not be empty, malformed or out of bounds. */
  ghost predicate AsksAmount(c: EnergyChoice, gift: bool, minimum: int, maximum: int, offered: Option<seq<int>>) {
    && c.gift == gift && c.minimum == Some(minimum) && c.maximum == Some(maximum) && 0 < minimum <= maximum
    && (offered.None? ==> c.amounts == NotGiven && !gift)
    && (offered.Some? ==>
          && c.amounts == Listed(offered.value) && offered.value != []
          && forall i | 0 <= i < |offered.value| :: minimum <= offered.value[i] <= maximum)
  }

  ghost predicate Stocks(c: Catalog, field: Field) {
    exists value :: InCatalog(c, field, value)
  }

  /** The catalog has something for every field of the purpose. */
  ghost predicate Stocked(c: Catalog, purpose: Kind) {
    forall i | 0 <= i < |FieldsInOrder(purpose)| :: Stocks(c, FieldsInOrder(purpose)[i])
  }

  /** The draft body that a request of this kind opens on the catalog. */
  ghost predicate Opens(kind: Kind, c: Catalog, body: Body) {
    match body
    case Choosing(purpose, steps, selected, index) =>
      && (purpose == kind || (kind == UnitDesign && purpose == UnitUpgrade))
      && Admits(c, purpose) && steps == Steps(purpose, c) && selected == map[] && index == 0
      && Stocked(c, purpose)
    case Amount(gift, minimum, maximum, offered) =>
      exists i | 0 <= i < |c.choices| :: AsksAmount(c.choices[i], gift, minimum, maximum, offered)
  }

  lemma {:induction false} AmountsAreAsked(choices: seq<EnergyChoice>, body: Body)
    ensures body in AmountBodies(choices)
       <==> body.Amount? && exists i | 0 <= i < |choices| ::
              AsksAmount(choices[i], body.gift, body.minimum, body.maximum, body.offered)
  {
    if choices == [] {
    } else {
      AmountsAreAsked(choices[1..], body);
      var head := if Preparable(choices[0]) then [AmountBody(choices[0])] else [];
      assert body in AmountBodies(choices) <==> body in head || body in AmountBodies(choices[1..]);
      assert body.Amount? ==>
        (body in head <==> AsksAmount(choices[0], body.gift, body.minimum, body.maximum, body.offered));
      hide Preparable, AmountBody, AsksAmount;
      if body.Amount? {
        if i: nat :| i < |choices| && AsksAmount(choices[i], body.gift, body.minimum, body.maximum, body.offered) {
          assert i > 0 ==> choices[1..][i - 1] == choices[i];
        }
      }
    }
  }

  lemma StepFilled(purpose: Kind, c: Catalog, i: nat)
    requires Admits(c, purpose) && i < |Steps(purpose, c)|
    ensures |FieldsInOrder(purpose)| == |Steps(purpose, c)|
    ensures Steps(purpose, c)[i].offers != [] <==> Stocks(c, FieldsInOrder(purpose)[i])
  {
    hide InCatalog, Steps, Admits, FieldsInOrder;
    StepsOfferTheCatalog(purpose, c, i, 0);
    var step, field := Steps(purpose, c)[i], FieldsInOrder(purpose)[i];
    if step.offers != [] {
      StepsOfferTheCatalog(purpose, c, i, step.offers[0].value);
      assert Lists(step.offers, step.offers[0].value);
    }
    if Stocks(c, field) {
      var value :| InCatalog(c, field, value);
      StepsOfferTheCatalog(purpose, c, i, value);
    }
  }

  lemma FilledIfStocked(purpose: Kind, c: Catalog)
    requires Admits(c, purpose)
    ensures Filled(Steps(purpose, c)) <==> Stocked(c, purpose)
  {
    hide Stocks, Steps, Admits, FieldsInOrder;
    StepsOfferTheCatalog(purpose, c, 0, 0);
    forall i | 0 <= i < |Steps(purpose, c)|
      ensures Steps(purpose, c)[i].offers != [] <==> Stocks(c, FieldsInOrder(purpose)[i])
    {
      StepFilled(purpose, c, i);
    }
  }

  lemma StepBodyOpens(purpose: Kind, c: Catalog, body: Body)
    ensures body in StepBodies(purpose, c) <==>
      body == Choosing(purpose, Steps(purpose, c), map[], 0) && Admits(c, purpose) && Stocked(c, purpose)
  {
    StepsOfferTheCatalog(purpose, c, 0, 0);
    if Admits(c, purpose) { FilledIfStocked(purpose, c); }
    hide InCatalog, Steps, Admits, FieldsInOrder, Filled, Stocked, OffersCatalog;
  }

  /** A request opens exactly these drafts: its own purpose, an upgrade beside a design, if the catalog admits
      them and has something for every field, and one for every energy choice that can be asked. */
  lemma BodiesAreOpened(kind: Kind, c: Catalog, body: Body)
    ensures body in Bodies(kind, c) <==> Opens(kind, c, body)
  {
    StepBodyOpens(kind, c, body);
    StepBodyOpens(UnitUpgrade, c, body);
    AmountsAreAsked(c.choices, body);
    hide InCatalog, Steps, Admits, FieldsInOrder, StepBodies, AmountBodies, AsksAmount, Stocked;
  }

  // ----- What storing leaves -----------------------------------------------------------------

  /** The rows behind row `i` that are not expired. */
  ghost function LiveBehind(rows: seq<Entry>, i: nat, now: int): set<nat> {
    set j | i < j < |rows| && rows[j].expires > now
  }

  /** Row `i` outlives the storing of one more draft: it is not expired, and with the live ones behind it and the
      new one it is within the limit. */
  ghost predicate Outlives(rows: seq<Entry>, i: nat, now: int, limit: int) {
    i < |rows| && rows[i].expires > now && |LiveBehind(rows, i, now)| + 2 <= limit
  }

  /** The rows in `part` are those of `rows` at these places, in order. */
  ghost predicate PartAt(part: seq<Entry>, rows: seq<Entry>, places: seq<nat>) {
    && |places| == |part|
    && (forall k | 0 <= k < |places| :: places[k] < |rows| && rows[places[k]] == part[k])
    && (forall k, l | 0 <= k < l < |places| :: places[k] < places[l])
  }

  /** Exactly the rows that outlive it are left, in order. */
  ghost predicate Leaves(part: seq<Entry>, rows: seq<Entry>, places: seq<nat>, now: int, limit: int) {
    PartAt(part, rows, places) && forall i: nat :: i in places <==> Outlives(rows, i, now, limit)
  }

  /** The live ones of the first `n` rows, with their places. */
  ghost predicate LiveAt(rows: seq<Entry>, n: nat, live: seq<Entry>, places: seq<nat>, now: int) {
    && n <= |rows| && PartAt(live, rows, places)
    && forall i: nat :: i in places <==> i < n && rows[i].expires > now
  }

  lemma LiveAtNext(rows: seq<Entry>, n: nat, live: seq<Entry>, places: seq<nat>, now: int)
    requires n < |rows| && LiveAt(rows, n, live, places, now)
    ensures if rows[n].expires <= now then LiveAt(rows, n + 1, live, places, now)
            else LiveAt(rows, n + 1, live + [rows[n]], places + [n], now)
  {
    forall k | 0 <= k < |places| ensures places[k] < n { assert places[k] in places; }
  }

  lemma LiveStep(rows: seq<Entry>, n: nat, now: int)
    requires n < |rows|
    ensures Live(rows[..n + 1], now)
      == if rows[n].expires <= now then Live(rows[..n], now) else Live(rows[..n], now) + [rows[n]]
  {
    assert rows[..n + 1][..n] == rows[..n];
  }

  lemma {:induction false} LivePlaces(rows: seq<Entry>, n: nat, now: int) returns (places: seq<nat>)
    requires n <= |rows|
    ensures LiveAt(rows, n, Live(rows[..n], now), places, now)
  {
    if n == 0 {
      places := [];
    } else {
      hide Live, LiveAt;
      places := LivePlaces(rows, n - 1, now);
      LiveAtNext(rows, n - 1, Live(rows[..n - 1], now), places, now);
      LiveStep(rows, n - 1, now);
      if rows[n - 1].expires > now { places := places + [n - 1]; }
    }
  }

  lemma LiveBehindPlace(rows: seq<Entry>, now: int, places: seq<nat>, k: nat)
    requires k < |places| && forall i, j | 0 <= i < j < |places| :: places[i] < places[j]
    requires forall i: nat :: i in places <==> i < |rows| && rows[i].expires > now
    ensures |LiveBehind(rows, places[k], now)| == |places| - 1 - k
  {
    AboveCount(places, k);
    assert Above(places, places[k]) == LiveBehind(rows, places[k], now);
  }

  lemma LastPart(part: seq<Entry>, rows: seq<Entry>, places: seq<nat>, skip: nat)
    requires PartAt(part, rows, places) && skip <= |part|
    ensures PartAt(part[skip..], rows, places[skip..])
  {}

  lemma OutlivesFrom(rows: seq<Entry>, now: int, limit: nat, all: seq<nat>, skip: nat, i: nat)
    requires limit >= 1 && skip == if |all| >= limit then |all| - limit + 1 else 0
    requires forall i, j | 0 <= i < j < |all| :: all[i] < all[j]
    requires forall i: nat :: i in all <==> i < |rows| && rows[i].expires > now
    ensures i in all[skip..] <==> Outlives(rows, i, now, limit)
  {
    hide LiveBehind;
    if i in all {
      var k :| 0 <= k < |all| && all[k] == i;
      LiveBehindPlace(rows, now, all, k);
      assert k >= skip ==> all[skip..][k - skip] == i;
    }
  }

  lemma PartLength(part: seq<Entry>, rows: seq<Entry>, places: seq<nat>)
    requires PartAt(part, rows, places)
    ensures |places| == |part| && forall k, l | 0 <= k < l < |places| :: places[k] < places[l]
  {}

  /** Expired drafts go, and of the others the oldest until one more fits. */
  lemma RoomLeaves(rows: seq<Entry>, now: int, limit: nat) returns (places: seq<nat>)
    requires limit >= 1
    ensures Leaves(Evicted(Live(rows, now), limit), rows, places, now, limit)
  {
    hide Live, LiveBehind, PartAt, Outlives;
    var live := Live(rows, now);
    assert rows[..|rows|] == rows;
    var all := LivePlaces(rows, |rows|, now);
    PartLength(live, rows, all);
    var skip := if |live| >= limit then |live| - limit + 1 else 0;
    places := all[skip..];
    assert Evicted(live, limit) == live[skip..];
    LastPart(live, rows, all, skip);
    forall i: nat ensures i in places <==> Outlives(rows, i, now, limit) {
      OutlivesFrom(rows, now, limit, all, skip, i);
    }
  }

  /** Storing a draft: the rows that outlive it, then the draft with the next reference, its time to live and the
      options behind its reference, unless it has more than 128 of them. */
  lemma StoreEffect(t: Table, d: Draft, now: int, ttl: int, limit: int) returns (places: seq<nat>)
    requires Storable(d) && limit >= 1
    ensures var (after, r) := StoreTx(t, d, now, ttl, limit);
      && (r.Ok? <==> |Current(d)| <= 128) && (r.Err? ==> r.error == CatalogLimit)
      && |after.rows| >= (if r.Ok? then 1 else 0)
      && var left := if r.Ok? then after.rows[..|after.rows| - 1] else after.rows;
         && Leaves(left, t.rows, places, now, limit)
         && (r.Ok? ==>
               && after.rows == left + [r.value]
               && r.value.ref == t.issued && r.value.draft == d && r.value.expires == now + ttl
               && r.value.first == t.issued + 1 && r.value.options == Current(d)
               && after.issued == t.issued + 1 + |Current(d)|)
  {
    places := RoomLeaves(t.rows, now, limit);
    hide Leaves, Live, Evicted, Current;
    var (after, r) := StoreTx(t, d, now, ttl, limit);
    if r.Ok? { assert after.rows[..|after.rows| - 1] == Evicted(Live(t.rows, now), limit); }
  }

  // ----- What an attempt answers -------------------------------------------------------------

  /** The answer for an energy amount: it is bound as given when no option is given with it, it is within the bounds
      and, where values are listed, one of them. */
  ghost predicate AmountAnswer(d: Draft, option: Option<Ref>, amount: Option<int>,
                               r: Result<Outcome, PreparationError>)
    requires d.body.Amount?
  {
    var within := option.None? && amount.Some? && d.body.minimum <= amount.value <= d.body.maximum;
    && (r == Err(InvalidEnergyAmount) <==> !within)
    && (r == Err(EnergyAmountNotOffered) <==>
          within && d.body.offered.Some? && amount.value !in d.body.offered.value)
    && (r.Err? ==> r.error == InvalidEnergyAmount || r.error == EnergyAmountNotOffered)
    && (r.Ok? ==> r.value == Done(Completion(None, d.kind, d.body.gift, amount, map[]), d.selectors))
  }

  /** The selection with the chosen value, and with labs when energy is allocated. */
  ghost predicate Binds(c: Completion, d: Draft, field: Field, value: int)
    requires d.body.Choosing?
  {
    var selected := d.body.selected[field := value];
    && c.purpose == Some(d.body.purpose) && c.kind == d.kind && c.amount == None
    && (d.kind != EnergyAllocation ==> c.selected == selected)
    && (d.kind == EnergyAllocation ==>
          && Economy in selected && Psych in selected
          && c.selected == selected[Labs := 10 - selected[Economy] - selected[Psych]])
  }

  /** The answer for an option: an issued one, given alone, selects its value for the field of the step. While steps are
      left the draft goes on with it, unless the next step has more than 128 options; after the last it is bound. */
  ghost predicate OptionAnswer(e: Entry, option: Option<Ref>, amount: Option<int>,
                               r: Result<Outcome, PreparationError>)
    requires e.draft.body.Choosing? && e.draft.body.index < |e.draft.body.steps|
  {
    var d, body := e.draft, e.draft.body;
    var issued := amount.None? && option.Some? && e.first <= option.value < e.first + |e.options|;
    && (r == Err(InvalidOption) <==> !issued)
    && (r.Err? ==> r.error == InvalidOption || r.error == CatalogLimit)
    && (issued ==>
          var field, value := body.steps[body.index].field, e.options[option.value - e.first].value;
          if body.index + 1 < |body.steps| then
            var next := d.(body := body.(selected := body.selected[field := value], index := body.index + 1));
            && (r == Err(CatalogLimit) <==> |Current(next)| > 128)
            && (r.Ok? ==> r.value.Next? && r.value.entry.draft == next && r.value.entry.options == Current(next))
          else
            r.Ok? && r.value.Done? && r.value.selectors == d.selectors && Binds(r.value.completion, d, field, value))
  }

  lemma AcceptAmount(t: Table, k: nat, option: Option<Ref>, amount: Option<int>, now: int, ttl: int, limit: int)
    requires k < |t.rows| && Kept(t.rows[k]) && t.rows[k].draft.body.Amount?
    ensures AmountAnswer(t.rows[k].draft, option, amount, Accept(t, k, option, amount, now, ttl, limit).1)
  {}

  lemma CompletedBinds(d: Draft, field: Field, value: int, next: Draft)
    requires d.body.Choosing? && next == d.(body := d.body.(selected := d.body.selected[field := value],
                                                            index := d.body.index + 1))
    requires d.kind == EnergyAllocation ==> {Economy, Psych} <= next.body.selected.Keys
    ensures Binds(Completed(next), d, field, value)
  {}

  lemma StoreAnswers(t: Table, d: Draft, now: int, ttl: int, limit: int)
    requires Storable(d) && limit >= 1
    ensures var r := StoreTx(t, d, now, ttl, limit).1;
      && (r.Err? ==> r.error == CatalogLimit) && (r.Err? <==> |Current(d)| > 128)
      && (r.Ok? ==> r.value.draft == d && r.value.options == Current(d))
  {
    hide Current, Live, Evicted;
  }

  lemma ChosenIs(d: Draft, value: int)
    requires d.body.Choosing? && d.body.index < |d.body.steps|
    ensures Chosen(d, value)
      == d.(body := d.body.(selected := d.body.selected[d.body.steps[d.body.index].field := value],
                            index := d.body.index + 1))
  {}

  lemma KeptChoosing(e: Entry)
    requires Kept(e) && e.draft.body.Choosing?
    ensures e.draft.body.index < |e.draft.body.steps| && Proper(e.draft) && e.options == Current(e.draft)
  {}

  /** The option was issued with the entry and is given alone. */
  ghost predicate Issued(e: Entry, option: Option<Ref>, amount: Option<int>) {
    amount.None? && option.Some? && e.first <= option.value < e.first + |e.options|
  }

  lemma AcceptRefuses(t: Table, k: nat, option: Option<Ref>, amount: Option<int>, now: int, ttl: int, limit: int)
    requires k < |t.rows| && Kept(t.rows[k]) && t.rows[k].draft.body.Choosing? && !Issued(t.rows[k], option, amount)
    ensures Accept(t, k, option, amount, now, ttl, limit) == (t, Err(InvalidOption))
  {
    hide Kept, StoreTx, Chosen, Completed, Without;
  }

  lemma AcceptGoesOn(t: Table, k: nat, option: Option<Ref>, amount: Option<int>, now: int, ttl: int, limit: int,
                     next: Draft)
    requires k < |t.rows| && Kept(t.rows[k]) && t.rows[k].draft.body.Choosing? && Issued(t.rows[k], option, amount)
    requires var body := t.rows[k].draft.body; body.index + 1 < |body.steps|
    requires next == Chosen(t.rows[k].draft, t.rows[k].options[option.value - t.rows[k].first].value) && Storable(next)
    ensures var (after, r), (stored, answer) := Accept(t, k, option, amount, now, ttl, limit),
              StoreTx(t.(rows := Without(t.rows, k)), next, now, ttl, limit);
      after == stored && r == match answer case Err(e) => Err(e) case Ok(e) => Ok(Next(e))
  {
    hide Kept, StoreTx, Chosen, Completed, Without;
  }

  lemma AcceptEnds(t: Table, k: nat, option: Option<Ref>, amount: Option<int>, now: int, ttl: int, limit: int,
                   next: Draft)
    requires k < |t.rows| && Kept(t.rows[k]) && t.rows[k].draft.body.Choosing? && Issued(t.rows[k], option, amount)
    requires var body := t.rows[k].draft.body; body.index + 1 == |body.steps|
    requires next == Chosen(t.rows[k].draft, t.rows[k].options[option.value - t.rows[k].first].value)
    requires next.body.Choosing? && (next.kind == EnergyAllocation ==> {Economy, Psych} <= next.body.selected.Keys)
    ensures Accept(t, k, option, amount, now, ttl, limit)
      == (t.(rows := Without(t.rows, k)), Ok(Done(Completed(next), t.rows[k].draft.selectors)))
  {
    hide Kept, StoreTx, Chosen, Completed, Without;
  }

  lemma RefusalAnswers(e: Entry, option: Option<Ref>, amount: Option<int>)
    requires e.draft.body.Choosing? && e.draft.body.index < |e.draft.body.steps| && !Issued(e, option, amount)
    ensures OptionAnswer(e, option, amount, Err(InvalidOption))
  {
    hide Current;
  }

  lemma GoesOnAnswers(e: Entry, option: Option<Ref>, amount: Option<int>, next: Draft,
                      stored: Result<Entry, PreparationError>, r: Result<Outcome, PreparationError>)
    requires e.draft.body.Choosing? && e.draft.body.index + 1 < |e.draft.body.steps| && Issued(e, option, amount)
    requires var d := e.draft;
      next == d.(body := d.body.(selected := d.body.selected[d.body.steps[d.body.index].field
                                                             := e.options[option.value - e.first].value],
                                 index := d.body.index + 1))
    requires (stored.Err? ==> stored.error == CatalogLimit) && (stored.Err? <==> |Current(next)| > 128)
    requires stored.Ok? ==> stored.value.draft == next && stored.value.options == Current(next)
    requires r == match stored case Err(error) => Err(error) case Ok(entry) => Ok(Next(entry))
    ensures OptionAnswer(e, option, amount, r)
  {
    hide Current;
  }

  lemma EndsAnswers(e: Entry, option: Option<Ref>, amount: Option<int>, c: Completion,
                    r: Result<Outcome, PreparationError>)
    requires e.draft.body.Choosing? && e.draft.body.index + 1 == |e.draft.body.steps| && Issued(e, option, amount)
    requires Binds(c, e.draft, e.draft.body.steps[e.draft.body.index].field, e.options[option.value - e.first].value)
    requires r == Ok(Done(c, e.draft.selectors))
    ensures OptionAnswer(e, option, amount, r)
  {
    hide Binds;
  }

  lemma AcceptOneMore(t: Table, k: nat, option: Option<Ref>, amount: Option<int>, now: int, ttl: int, limit: int)
    requires limit >= 1 && k < |t.rows| && Kept(t.rows[k]) && t.rows[k].draft.body.Choosing?
    requires Issued(t.rows[k], option, amount)
    requires t.rows[k].draft.body.index + 1 < |t.rows[k].draft.body.steps|
    ensures OptionAnswer(t.rows[k], option, amount, Accept(t, k, option, amount, now, ttl, limit).1)
  {
    hide Kept, Proper, Current, StoreTx, Chosen, Completed, Binds, Without, Sound, Accept, OptionAnswer, Consistent;
    var e := t.rows[k];
    KeptChoosing(e);
    var next := Chosen(e.draft, e.options[option.value - e.first].value);
    ChosenIs(e.draft, e.options[option.value - e.first].value);
    AcceptGoesOn(t, k, option, amount, now, ttl, limit, next);
    StoreAnswers(t.(rows := Without(t.rows, k)), next, now, ttl, limit);
    GoesOnAnswers(e, option, amount, next, StoreTx(t.(rows := Without(t.rows, k)), next, now, ttl, limit).1,
                  Accept(t, k, option, amount, now, ttl, limit).1);
  }

  lemma AcceptLast(t: Table, k: nat, option: Option<Ref>, amount: Option<int>, now: int, ttl: int, limit: int)
    requires limit >= 1 && k < |t.rows| && Kept(t.rows[k]) && t.rows[k].draft.body.Choosing?
    requires Issued(t.rows[k], option, amount)
    requires t.rows[k].draft.body.index + 1 == |t.rows[k].draft.body.steps|
    ensures OptionAnswer(t.rows[k], option, amount, Accept(t, k, option, amount, now, ttl, limit).1)
  {
    hide Kept, Proper, Current, StoreTx, Chosen, Completed, Binds, Without, Sound, Accept, OptionAnswer, Consistent;
    var e := t.rows[k];
    KeptChoosing(e);
    var i := option.value - e.first;
    var value, field := e.options[i].value, e.draft.body.steps[e.draft.body.index].field;
    var next := Chosen(e.draft, value);
    ChosenIs(e.draft, value);
    CompletedIsSound(e.draft, i);
    AcceptEnds(t, k, option, amount, now, ttl, limit, next);
    CompletedBinds(e.draft, field, value, next);
    EndsAnswers(e, option, amount, Completed(next), Accept(t, k, option, amount, now, ttl, limit).1);
  }

  lemma AcceptOption(t: Table, k: nat, option: Option<Ref>, amount: Option<int>, now: int, ttl: int, limit: int)
    requires limit >= 1 && k < |t.rows| && Kept(t.rows[k]) && t.rows[k].draft.body.Choosing?
    ensures t.rows[k].draft.body.index < |t.rows[k].draft.body.steps|
    ensures OptionAnswer(t.rows[k], option, amount, Accept(t, k, option, amount, now, ttl, limit).1)
  {
    hide Kept, Accept, OptionAnswer, Issued, Proper, Current;
    KeptChoosing(t.rows[k]);
    if !Issued(t.rows[k], option, amount) {
      AcceptRefuses(t, k, option, amount, now, ttl, limit);
      RefusalAnswers(t.rows[k], option, amount);
    } else if t.rows[k].draft.body.index + 1 < |t.rows[k].draft.body.steps| {
      AcceptOneMore(t, k, option, amount, now, ttl, limit);
    } else {
      AcceptLast(t, k, option, amount, now, ttl, limit);
    }
  }

  /** The row `k` is the live draft with this reference. */
  ghost predicate LiveDraft(t: Table, ref: Ref, now: int, k: nat) {
    k < |t.rows| && t.rows[k].ref == ref && t.rows[k].expires > now
  }

  lemma AmountErrors(d: Draft, option: Option<Ref>, amount: Option<int>, r: Result<Outcome, PreparationError>)
    requires d.body.Amount? && AmountAnswer(d, option, amount, r)
    ensures r != Err(UnknownOrExpired) && r != Err(ScopeOrRevisionChanged)
  {}

  lemma OptionErrors(e: Entry, option: Option<Ref>, amount: Option<int>, r: Result<Outcome, PreparationError>)
    requires e.draft.body.Choosing? && e.draft.body.index < |e.draft.body.steps| && OptionAnswer(e, option, amount, r)
    ensures r != Err(UnknownOrExpired) && r != Err(ScopeOrRevisionChanged)
  {}

  /** An attempt is answered as unknown without a live draft of its reference, as out of scope when the frame or the
      kind differ, and otherwise by the draft itself. */
  lemma AdvanceAnswers(t: Table, ref: Ref, option: Option<Ref>, amount: Option<int>, scope: string, kind: Kind,
                       now: int, ttl: int, limit: int, k: nat)
    requires limit >= 1 && Good(t, limit)
    ensures var r := AdvanceTx(t, ref, option, amount, scope, kind, now, ttl, limit).1;
      && (r == Err(UnknownOrExpired) <==> forall j: nat :: !LiveDraft(t, ref, now, j))
      && (LiveDraft(t, ref, now, k) ==>
            var e := t.rows[k];
            && (r == Err(ScopeOrRevisionChanged) <==> e.draft.scope != scope || e.draft.kind != kind)
            && (e.draft.scope == scope && e.draft.kind == kind ==>
                  && (e.draft.body.Amount? ==> AmountAnswer(e.draft, option, amount, r))
                  && (e.draft.body.Choosing? ==>
                        e.draft.body.index < |e.draft.body.steps| && OptionAnswer(e, option, amount, r))))
  {
    hide Kept, Accept, AmountAnswer, OptionAnswer, Proper;
    var at := IndexOf(t.rows, ref);
    forall j: nat | j < |t.rows| && t.rows[j].ref == ref ensures j == at { assert Newer(t.rows, j); }
    if at < |t.rows| {
      KeptRow(t, at, limit);
      if t.rows[at].draft.body.Amount? {
        AcceptAmount(t, at, option, amount, now, ttl, limit);
        AmountErrors(t.rows[at].draft, option, amount, Accept(t, at, option, amount, now, ttl, limit).1);
      } else {
        AcceptOption(t, at, option, amount, now, ttl, limit);
        OptionErrors(t.rows[at], option, amount, Accept(t, at, option, amount, now, ttl, limit).1);
      }
      assert LiveDraft(t, ref, now, at) <==> t.rows[at].expires > now;
    }
  }

  // ----- Every draft comes from a request ----------------------------------------------------

  /** The request opened the draft: with its frame, its kind, its selectors and from its catalog. */
  ghost predicate OpenedBy(r: Request, d: Draft) {
    && r.call.Begin? && d.scope == r.scope && d.kind == r.kind && d.selectors == r.call.selectors
    && match d.body
       case Choosing(purpose, steps, _, _) => Opens(r.kind, r.call.catalog, Choosing(purpose, steps, map[], 0))
       case Amount(_, _, _, _) => Opens(r.kind, r.call.catalog, d.body)
  }

  ghost predicate Opened(requests: seq<Request>, n: nat, d: Draft) {
    n <= |requests| && exists b | 0 <= b < n :: OpenedBy(requests[b], d)
  }

  ghost predicate AllOpened(requests: seq<Request>, n: nat, rows: seq<Entry>) {
    forall i | 0 <= i < |rows| :: Opened(requests, n, rows[i].draft)
  }

  lemma PartIsOpened(requests: seq<Request>, n: nat, part: seq<Entry>, rows: seq<Entry>)
    requires AllOpened(requests, n, rows) && forall i | 0 <= i < |part| :: part[i] in rows
    ensures AllOpened(requests, n, part)
  {
    hide Opened;
  }

  lemma StoreIsOpened(requests: seq<Request>, n: nat, t: Table, d: Draft, now: int, ttl: int, limit: int)
    requires Storable(d) && AllOpened(requests, n, t.rows) && Opened(requests, n, d)
    ensures AllOpened(requests, n, StoreTx(t, d, now, ttl, limit).0.rows)
  {
    hide Opened, Current;
    if limit >= 1 {
      RoomIsMade(t.rows, now, limit);
      PartIsOpened(requests, n, Evicted(Live(t.rows, now), limit), t.rows);
    }
  }

  lemma {:induction false} BeginIsOpened(requests: seq<Request>, m: nat, t: Table, bodies: seq<Body>, n: nat,
                                         scope: string, kind: Kind, selectors: string, now: int, ttl: int, limit: int)
    requires n <= |bodies| && AllProper(bodies, scope, kind, selectors) && AllOpened(requests, m, t.rows)
    requires forall i | 0 <= i < |bodies| :: Opened(requests, m, Draft(bodies[i], scope, kind, selectors))
    ensures AllOpened(requests, m, BeginTx(t, bodies, n, scope, kind, selectors, now, ttl, limit).0.rows)
  {
    hide Proper, StoreTx, Opened, AllOpened;
    if n == 0 {
    } else {
      BeginIsOpened(requests, m, t, bodies, n - 1, scope, kind, selectors, now, ttl, limit);
      var before := BeginTx(t, bodies, n - 1, scope, kind, selectors, now, ttl, limit);
      var d := Draft(bodies[n - 1], scope, kind, selectors);
      assert Proper(d);
      ProperIsStorable(d);
      StoreIsOpened(requests, m, before.0, d, now, ttl, limit);
    }
  }

  lemma ChosenIsOpened(requests: seq<Request>, n: nat, d: Draft, value: int)
    requires d.body.Choosing? && d.body.index < |d.body.steps| && Opened(requests, n, d)
    ensures Opened(requests, n, Chosen(d, value))
  {
    hide Opens;
    var b :| 0 <= b < n && OpenedBy(requests[b], d);
    assert OpenedBy(requests[b], Chosen(d, value));
  }

  lemma RowIsOpened(requests: seq<Request>, n: nat, rows: seq<Entry>, k: nat)
    requires k < |rows| && AllOpened(requests, n, rows)
    ensures Opened(requests, n, rows[k].draft)
  {}

  lemma AcceptIsOpened(requests: seq<Request>, n: nat, t: Table, k: nat, option: Option<Ref>, amount: Option<int>,
                       now: int, ttl: int, limit: int)
    requires k < |t.rows| && Kept(t.rows[k]) && AllOpened(requests, n, t.rows)
    requires AllOpened(requests, n, Without(t.rows, k))
    ensures AllOpened(requests, n, Accept(t, k, option, amount, now, ttl, limit).0.rows)
  {
    var e, rest := t.rows[k], t.(rows := Without(t.rows, k));
    if e.draft.body.Amount? {
      hide AllOpened, Without, StoreTx, Kept;
    } else {
      KeptChoosing(e);
      RowIsOpened(requests, n, t.rows, k);
      hide Kept, Proper, Current, StoreTx, Chosen, Completed, Without, Sound, Accept, Opened, AllOpened, Storable;
      if !Issued(e, option, amount) {
        AcceptRefuses(t, k, option, amount, now, ttl, limit);
      } else {
        var i := option.value - e.first;
        var next := Chosen(e.draft, e.options[i].value);
        if e.draft.body.index + 1 < |e.draft.body.steps| {
          ChosenIsOpened(requests, n, e.draft, e.options[i].value);
          ChosenIsProper(e.draft, i);
          ProperIsStorable(next);
          AcceptGoesOn(t, k, option, amount, now, ttl, limit, next);
          StoreIsOpened(requests, n, rest, next, now, ttl, limit);
        } else {
          CompletedIsSound(e.draft, i);
          ChosenIs(e.draft, e.options[i].value);
          AcceptEnds(t, k, option, amount, now, ttl, limit, next);
        }
      }
    }
  }

  lemma AdvanceIsOpened(requests: seq<Request>, n: nat, t: Table, ref: Ref, option: Option<Ref>, amount: Option<int>,
                        scope: string, kind: Kind, now: int, ttl: int, limit: int)
    requires Good(t, limit) && AllOpened(requests, n, t.rows)
    ensures AllOpened(requests, n, AdvanceTx(t, ref, option, amount, scope, kind, now, ttl, limit).0.rows)
  {
    hide Good, Kept, Opened, AllOpened, Accept;
    var k := IndexOf(t.rows, ref);
    if k < |t.rows| {
      KeptRow(t, k, limit);
      WithoutIsSubsequence(t.rows, k);
      PartIsOpened(requests, n, Without(t.rows, k), t.rows);
      hide Without, Subsequence, Rising;
      AcceptIsOpened(requests, n, t, k, option, amount, now, ttl, limit);
    }
  }

  lemma OpenedLater(requests: seq<Request>, n: nat, rows: seq<Entry>)
    requires n < |requests| && AllOpened(requests, n, rows)
    ensures AllOpened(requests, n + 1, rows)
  {
    hide OpenedBy;
    forall i | 0 <= i < |rows| ensures Opened(requests, n + 1, rows[i].draft) {
      assert Opened(requests, n, rows[i].draft);
    }
  }

  lemma JustOpened(requests: seq<Request>, n: nat, i: nat)
    requires n < |requests| && requests[n].call.Begin?
    requires i < |Bodies(requests[n].kind, requests[n].call.catalog)|
    ensures var r := requests[n];
      Opened(requests, n + 1, Draft(Bodies(r.kind, r.call.catalog)[i], r.scope, r.kind, r.call.selectors))
  {
    var r := requests[n];
    var body := Bodies(r.kind, r.call.catalog)[i];
    BodiesAreOpened(r.kind, r.call.catalog, body);
    hide Bodies, Admits, Steps, Stocked, AsksAmount;
    assert OpenedBy(r, Draft(body, r.scope, r.kind, r.call.selectors));
  }

  lemma {:induction false} RunOpens(requests: seq<Request>, n: nat, ttl: int, limit: int)
    requires n <= |requests|
    ensures AllOpened(requests, n, After(requests, n, ttl, limit).rows)
  {
    hide Good, BeginTx, AdvanceTx, Bodies, AllProper, Opened;
    if n == 0 {
    } else {
      RunOpens(requests, n - 1, ttl, limit);
      var t, r := After(requests, n - 1, ttl, limit), requests[n - 1];
      OpenedLater(requests, n - 1, t.rows);
      match r.call {
        case Begin(c, selectors) =>
          BodiesAreProper(r.kind, c, r.scope, selectors);
          forall i | 0 <= i < |Bodies(r.kind, c)|
            ensures Opened(requests, n, Draft(Bodies(r.kind, c)[i], r.scope, r.kind, selectors))
          {
            JustOpened(requests, n - 1, i);
          }
          BeginIsOpened(requests, n, t, Bodies(r.kind, c), |Bodies(r.kind, c)|, r.scope, r.kind, selectors, r.now, ttl,
                        limit);
        case Advance(ref, option, amount) =>
          AdvanceIsOpened(requests, n, t, ref, option, amount, r.scope, r.kind, r.now, ttl, limit);
      }
    }
  }

  lemma OpenedSteps(r: Request, d: Draft, i: nat, value: int)
    requires OpenedBy(r, d) && d.body.Choosing? && i < |d.body.steps|
    ensures |FieldsInOrder(d.body.purpose)| == |d.body.steps|
    ensures d.body.steps[i].field == FieldsInOrder(d.body.purpose)[i]
    ensures Lists(d.body.steps[i].offers, value) <==> InCatalog(r.call.catalog, d.body.steps[i].field, value)
  {
    StepsOfferTheCatalog(d.body.purpose, r.call.catalog, i, value);
    hide InCatalog, FieldsInOrder, Steps, Admits, Stocked, Lists;
  }

  /** Whatever was asked before, the options of a stored draft are exactly the values that the catalog of the
      request it was opened by has for the field of its step, and that its selections still allow. */
  lemma OptionsComeFromTheCatalog(requests: seq<Request>, n: nat, ttl: int, limit: int, k: nat) returns (b: nat)
    requires n <= |requests| && limit >= 1 && k < |After(requests, n, ttl, limit).rows|
    ensures b < n && OpenedBy(requests[b], After(requests, n, ttl, limit).rows[k].draft)
    ensures var e := After(requests, n, ttl, limit).rows[k];
      e.draft.body.Choosing? ==>
        && e.draft.body.index < |FieldsInOrder(e.draft.body.purpose)|
        && var field := FieldsInOrder(e.draft.body.purpose)[e.draft.body.index];
           forall value :: Lists(e.options, value) <==>
             InCatalog(requests[b].call.catalog, field, value) && Allowed(field, e.draft.body.selected, value)
  {
    hide Good, Opens, InCatalog, Allowed, FieldsInOrder, Lists, Proper, Current;
    RunOpens(requests, n, ttl, limit);
    var t := After(requests, n, ttl, limit);
    RowIsOpened(requests, n, t.rows, k);
    var e := t.rows[k];
    b :| 0 <= b < n && OpenedBy(requests[b], e.draft);
    KeptRow(t, k, limit);
    hide After;
    if e.draft.body.Choosing? {
      KeptChoosing(e);
      var index := e.draft.body.index;
      OpenedSteps(requests[b], e.draft, index, 0);
      forall value
        ensures Lists(e.options, value) <==>
          InCatalog(requests[b].call.catalog, e.draft.body.steps[index].field, value)
          && Allowed(e.draft.body.steps[index].field, e.draft.body.selected, value)
      {
        OpenedSteps(requests[b], e.draft, index, value);
        OptionsAreAllowed(e.draft, value);
      }
    }
  }
}
