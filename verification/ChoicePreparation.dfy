/** The bounded table of preparation drafts and its operations. */
module ChoicePreparation {
  import opened Wrappers
  import opened PreparationModel

  datatype PreparationError =
    | CatalogLimit | UnknownOrExpired | ScopeOrRevisionChanged
    | InvalidEnergyAmount | EnergyAmountNotOffered | InvalidOption | NoRoom

  datatype Outcome = Next(entry: Entry) | Done(completion: Completion, selectors: string)

  // ----- Storing -----------------------------------------------------------------------------

  ghost function Live(rows: seq<Entry>, now: int): (r: seq<Entry>)
  {
    if rows == [] then []
    else Live(rows[..|rows| - 1], now) + if rows[|rows| - 1].expires <= now then [] else [rows[|rows| - 1]]
  }

  /** Oldest drafts make room for one more. */
  ghost function Evicted(rows: seq<Entry>, limit: nat): seq<Entry>
    requires limit >= 1
  {
    if |rows| >= limit then rows[|rows| - limit + 1..] else rows
  }

  ghost predicate Storable(d: Draft) {
    d.body.Choosing? ==> d.body.index < |d.body.steps|
  }

  ghost function StoreTx(t: Table, d: Draft, now: int, ttl: int, limit: int): (Table, Result<Entry, PreparationError>)
    requires Storable(d)
  {
    if limit <= 0 then (t.(rows := []), Err(NoRoom))
    else
      var rows := Evicted(Live(t.rows, now), limit);
      var entry := Entry(t.issued, d, now + ttl, t.issued + 1, Current(d));
      if |entry.options| > MOST_OPTIONS then (Table(rows, t.issued + 1), Err(CatalogLimit))
      else (Table(rows + [entry], t.issued + 1 + |entry.options|), Ok(entry))
  }

  // ----- Beginning ---------------------------------------------------------------------------

  predicate InRange(values: seq<int>, minimum: int, maximum: int) {
    forall i | 0 <= i < |values| :: minimum <= values[i] <= maximum
  }

  /** Whether an energy choice can be prepared. */
  predicate Preparable(c: EnergyChoice) {
    && c.minimum.Some? && c.maximum.Some? && 0 < c.minimum.value <= c.maximum.value
    && match c.amounts
       case NotGiven => !c.gift
       case Malformed => false
       case Listed(values) => values != [] && InRange(values, c.minimum.value, c.maximum.value)
  }

  function AmountBody(c: EnergyChoice): Body
    requires Preparable(c)
  {
    Amount(c.gift, c.minimum.value, c.maximum.value, if c.amounts.Listed? then Some(c.amounts.values) else None)
  }

  function AmountBodies(choices: seq<EnergyChoice>): (r: seq<Body>)
    ensures forall i | 0 <= i < |r| :: r[i].Amount?
  {
    if choices == [] then []
    else (if Preparable(choices[0]) then [AmountBody(choices[0])] else []) + AmountBodies(choices[1..])
  }

  function StepBodies(purpose: Kind, c: Catalog): seq<Body> {
    var steps := Steps(purpose, c);
    if steps != [] && Filled(steps) then [Choosing(purpose, steps, map[], 0)] else []
  }

  /** The drafts a request opens: its own purpose, an upgrade beside a design, and energy amounts. */
  function Bodies(kind: Kind, c: Catalog): seq<Body> {
    StepBodies(kind, c) + (if kind == UnitDesign then StepBodies(UnitUpgrade, c) else []) + AmountBodies(c.choices)
  }

  /** A draft that was just opened. */
  lemma OpeningIsProper(purpose: Kind, kind: Kind, c: Catalog, scope: string, selectors: string)
    requires Steps(purpose, c) != [] && Filled(Steps(purpose, c))
    requires purpose == kind || (kind == UnitDesign && purpose == UnitUpgrade)
    ensures Proper(Draft(Choosing(purpose, Steps(purpose, c), map[], 0), scope, kind, selectors))
  {
    StepsAreCoherent(purpose, c);
    var steps := Steps(purpose, c);
    var none: map<Field, int> := map[];
    assert none.Keys == FieldsOf(steps, 0);
  }

  ghost predicate AllProper(bodies: seq<Body>, scope: string, kind: Kind, selectors: string) {
    forall i | 0 <= i < |bodies| :: Proper(Draft(bodies[i], scope, kind, selectors))
  }

  lemma {:induction false} AmountsAreProper(choices: seq<EnergyChoice>, scope: string, kind: Kind, selectors: string)
    ensures AllProper(AmountBodies(choices), scope, kind, selectors)
  {
    if choices == [] {
    } else {
      AmountsAreProper(choices[1..], scope, kind, selectors);
    }
  }

  /** Every draft a request opens is proper. */
  lemma BodiesAreProper(kind: Kind, c: Catalog, scope: string, selectors: string)
    ensures AllProper(Bodies(kind, c), scope, kind, selectors)
  {
    hide Proper, Steps;
    if StepBodies(kind, c) != [] { OpeningIsProper(kind, kind, c, scope, selectors); }
    if kind == UnitDesign && StepBodies(UnitUpgrade, c) != [] {
      OpeningIsProper(UnitUpgrade, kind, c, scope, selectors);
    }
    AmountsAreProper(c.choices, scope, kind, selectors);
  }

  /** Store the first `n` drafts in turn; a refused one ends the request. */
  ghost function BeginTx(t: Table, bodies: seq<Body>, n: nat, scope: string, kind: Kind, selectors: string, now: int,
                         ttl: int, limit: int): (Table, Result<seq<Entry>, PreparationError>)
    requires n <= |bodies| && AllProper(bodies, scope, kind, selectors)
  {
    if n == 0 then (t, Ok([]))
    else
      var before := BeginTx(t, bodies, n - 1, scope, kind, selectors, now, ttl, limit);
      match before.1
      case Err(e) => before
      case Ok(entries) =>
        assert Proper(Draft(bodies[n - 1], scope, kind, selectors));
        var (after, stored) := StoreTx(before.0, Draft(bodies[n - 1], scope, kind, selectors), now, ttl, limit);
        match stored
        case Err(e) => (after, Err(e))
        case Ok(entry) => (after, Ok(entries + [entry]))
  }

  // ----- Advancing ---------------------------------------------------------------------------

  /** Where a reference is in the table, its length if nowhere. */
  function IndexOf(rows: seq<Entry>, ref: Ref): (k: nat)
    ensures k <= |rows| && (k < |rows| ==> rows[k].ref == ref)
    ensures forall j | 0 <= j < k :: rows[j].ref != ref
  {
    if rows == [] || rows[0].ref == ref then 0
    else
      assert forall j | 0 < j < |rows| :: rows[j] == rows[1..][j - 1];
      1 + IndexOf(rows[1..], ref)
  }

  function Without(rows: seq<Entry>, k: nat): seq<Entry>
    requires k < |rows|
  {
    rows[..k] + rows[k + 1..]
  }

  /** Rows as the operations leave them. */
  ghost predicate Kept(e: Entry) {
    && Proper(e.draft) && e.ref < e.first && |e.options| <= MOST_OPTIONS
    && e.options == Current(e.draft) && (e.draft.body.Choosing? ==> e.options != [])
  }

  /** Row `j` has a greater reference than every row before it. */
  ghost predicate Newer(rows: seq<Entry>, j: nat)
    requires j < |rows|
  {
    forall i | 0 <= i < j :: rows[i].ref < rows[j].ref
  }

  ghost predicate Rising(rows: seq<Entry>) {
    forall j | 0 <= j < |rows| :: Newer(rows, j)
  }

  ghost predicate Good(t: Table, limit: int) {
    && Rising(t.rows)
    && (forall i | 0 <= i < |t.rows| :: t.rows[i].ref < t.issued && Kept(t.rows[i]))
    && (limit >= 1 ==> |t.rows| <= limit)
  }

  ghost function Accept(t: Table, k: nat, option: Option<Ref>, amount: Option<int>, now: int, ttl: int, limit: int)
    : (Table, Result<Outcome, PreparationError>)
    requires k < |t.rows| && Kept(t.rows[k])
  {
    var entry := t.rows[k];
    var d := entry.draft;
    match d.body
    case Amount(gift, minimum, maximum, offered) =>
      if option.Some? || amount.None? || !(minimum <= amount.value <= maximum) then (t, Err(InvalidEnergyAmount))
      else if offered.Some? && amount.value !in offered.value then (t, Err(EnergyAmountNotOffered))
      else (t.(rows := Without(t.rows, k)),
            Ok(Done(Completion(None, d.kind, gift, amount, map[]), d.selectors)))
    case Choosing(_, steps, _, index) =>
      if amount.Some? || option.None? || !(entry.first <= option.value < entry.first + |entry.options|)
      then (t, Err(InvalidOption))
      else
        var next := Chosen(d, entry.options[option.value - entry.first].value);
        var rest := t.(rows := Without(t.rows, k));
        if index + 1 < |steps| then
          var (after, stored) := StoreTx(rest, next, now, ttl, limit);
          match stored
          case Err(e) => (after, Err(e))
          case Ok(e) => (after, Ok(Next(e)))
        else
          CompletedIsSound(d, option.value - entry.first);
          (rest, Ok(Done(Completed(next), d.selectors)))
  }

  ghost function AdvanceTx(t: Table, ref: Ref, option: Option<Ref>, amount: Option<int>, scope: string, kind: Kind,
                           now: int, ttl: int, limit: int): (Table, Result<Outcome, PreparationError>)
    requires Good(t, limit)
  {
    var k := IndexOf(t.rows, ref);
    if k == |t.rows| then (t, Err(UnknownOrExpired))
    else if t.rows[k].expires <= now then (t.(rows := Without(t.rows, k)), Err(UnknownOrExpired))
    else if t.rows[k].draft.scope != scope || t.rows[k].draft.kind != kind then (t, Err(ScopeOrRevisionChanged))
    else Accept(t, k, option, amount, now, ttl, limit)
  }

  // ----- What every operation keeps ----------------------------------------------------------

  ghost predicate Subsequence(part: seq<Entry>, all: seq<Entry>) {
    && (forall i | 0 <= i < |part| :: part[i] in all)
    && (Rising(all) ==> Rising(part)) && |part| <= |all|
  }

  lemma RisingFront(front: seq<Entry>, last: Entry)
    ensures Rising(front + [last]) ==> Rising(front)
  {
    if Rising(front + [last]) {
      forall j | 0 <= j < |front| ensures Newer(front, j) {
        assert Newer(front + [last], j);
        assert forall i | 0 <= i <= j :: (front + [last])[i] == front[i];
      }
    }
  }

  lemma RisingMore(front: seq<Entry>, last: Entry)
    requires Rising(front) && forall i | 0 <= i < |front| :: front[i].ref < last.ref
    ensures Rising(front + [last])
  {
    forall j | 0 <= j < |front| + 1 ensures Newer(front + [last], j) {
      assert j < |front| ==> Newer(front, j);
    }
  }

  lemma LastJoins(part: seq<Entry>, front: seq<Entry>, last: Entry)
    requires Subsequence(part, front)
    ensures Subsequence(part + [last], front + [last]) && Subsequence(part, front + [last])
  {
    forall i | 0 <= i < |part|
      ensures part[i] in front + [last] && (Rising(front + [last]) ==> part[i].ref < last.ref)
    {
      var j :| 0 <= j < |front| && part[i] == front[j];
      assert (front + [last])[j] == part[i] && (front + [last])[|front|] == last;
      assert Rising(front + [last]) ==> Newer(front + [last], |front|);
    }
    RisingFront(front, last);
    if Rising(front + [last]) { RisingMore(part, last); }
  }

  lemma NothingIsSubsequence()
    ensures Subsequence([], [])
  {}

  lemma {:induction false} LiveIsSubsequence(rows: seq<Entry>, now: int)
    ensures Subsequence(Live(rows, now), rows)
    ensures forall i | 0 <= i < |Live(rows, now)| :: Live(rows, now)[i].expires > now
  {
    hide Subsequence, Rising;
    if rows == [] {
      NothingIsSubsequence();
    } else {
      var front, last := rows[..|rows| - 1], rows[|rows| - 1];
      LiveIsSubsequence(front, now);
      LastJoins(Live(front, now), front, last);
      assert rows == front + [last] && Live(front, now) + [] == Live(front, now);
    }
  }

  lemma EvictedIsSubsequence(rows: seq<Entry>, limit: nat)
    requires limit >= 1
    ensures Subsequence(Evicted(rows, limit), rows) && |Evicted(rows, limit)| < limit
  {
    var part := Evicted(rows, limit);
    var skip := |rows| - |part|;
    forall i | 0 <= i < |part| ensures part[i] == rows[i + skip] && part[i] in rows {}
    if Rising(rows) {
      forall j | 0 <= j < |part| ensures Newer(part, j) { assert Newer(rows, j + skip); }
    }
  }

  lemma WithoutIsSubsequence(rows: seq<Entry>, k: nat)
    requires k < |rows|
    ensures Subsequence(Without(rows, k), rows)
    ensures Rising(rows) ==> forall i | 0 <= i < |rows| - 1 :: Without(rows, k)[i].ref != rows[k].ref
  {
    var part := Without(rows, k);
    forall i | 0 <= i < |part| ensures part[i] == rows[if i < k then i else i + 1] && part[i] in rows {}
    if Rising(rows) {
      assert Newer(rows, k);
      forall j | 0 <= j < |part| ensures Newer(part, j) && part[j].ref != rows[k].ref {
        assert Newer(rows, if j < k then j else j + 1);
      }
    }
  }

  lemma SubsequenceChains(a: seq<Entry>, b: seq<Entry>, c: seq<Entry>)
    requires Subsequence(a, b) && Subsequence(b, c)
    ensures Subsequence(a, c)
  {
    forall i | 0 <= i < |a| ensures a[i] in c {
      var j :| 0 <= j < |b| && a[i] == b[j];
      assert b[j] in c;
    }
  }

  lemma PartIsGood(t: Table, part: seq<Entry>, limit: int)
    requires Good(t, limit) && Subsequence(part, t.rows)
    ensures Good(t.(rows := part), limit)
  {
    forall i | 0 <= i < |part| ensures part[i].ref < t.issued && Kept(part[i]) {
      var j :| 0 <= j < |t.rows| && part[i] == t.rows[j];
    }
    assert Rising(t.rows);
  }

  lemma RoomIsMade(rows: seq<Entry>, now: int, limit: nat)
    requires limit >= 1
    ensures Subsequence(Evicted(Live(rows, now), limit), rows) && |Evicted(Live(rows, now), limit)| < limit
  {
    LiveIsSubsequence(rows, now);
    EvictedIsSubsequence(Live(rows, now), limit);
    SubsequenceChains(Evicted(Live(rows, now), limit), Live(rows, now), rows);
  }

  lemma RoomIsGood(t: Table, now: int, limit: nat)
    requires limit >= 1 && Good(t, limit)
    ensures Good(t.(rows := Evicted(Live(t.rows, now), limit)), limit) && |Evicted(Live(t.rows, now), limit)| < limit
  {
    hide Kept, Live, Evicted, Rising;
    RoomIsMade(t.rows, now, limit);
    PartIsGood(t, Evicted(Live(t.rows, now), limit), limit);
  }

  lemma MoreIssued(t: Table, issued: nat, limit: int)
    requires Good(t, limit) && t.issued <= issued
    ensures Good(t.(issued := issued), limit)
  {
    hide Kept;
  }

  lemma NewEntryIsKept(entry: Entry)
    requires Proper(entry.draft) && entry.options == Current(entry.draft) && |entry.options| <= MOST_OPTIONS
    requires entry.ref < entry.first
    ensures Kept(entry)
  {
    if entry.draft.body.Choosing? { OptionRemains(entry.draft); }
  }

  lemma OneMoreIsGood(t: Table, entry: Entry, issued: nat, limit: int)
    requires Good(t, limit) && |t.rows| < limit && Kept(entry) && t.issued <= entry.ref < issued
    ensures Good(Table(t.rows + [entry], issued), limit)
  {
    hide Kept, Rising;
    RisingMore(t.rows, entry);
  }

  lemma StoreInRoom(t: Table, rows: seq<Entry>, d: Draft, expires: int, limit: int)
    requires Good(t.(rows := rows), limit) && |rows| < limit && Proper(d) && Storable(d)
    ensures Good(Table(rows, t.issued + 1), limit)
    ensures |Current(d)| <= MOST_OPTIONS ==>
      Good(Table(rows + [Entry(t.issued, d, expires, t.issued + 1, Current(d))], t.issued + 1 + |Current(d)|), limit)
  {
    hide Proper, Current, Good, Kept, Rising;
    var entry := Entry(t.issued, d, expires, t.issued + 1, Current(d));
    MoreIssued(t.(rows := rows), t.issued + 1, limit);
    if |Current(d)| <= MOST_OPTIONS {
      NewEntryIsKept(entry);
      OneMoreIsGood(t.(rows := rows), entry, t.issued + 1 + |entry.options|, limit);
    }
  }

  /** The table with the draft, or without it when it is too large to show. */
  ghost function WithDraft(rows: seq<Entry>, issued: nat, d: Draft, expires: int): Table
    requires Storable(d)
  {
    if |Current(d)| > MOST_OPTIONS then Table(rows, issued + 1)
    else Table(rows + [Entry(issued, d, expires, issued + 1, Current(d))], issued + 1 + |Current(d)|)
  }

  lemma WithDraftIsGood(t: Table, d: Draft, now: int, expires: int, limit: int)
    requires limit >= 1 && Good(t, limit) && Proper(d) && Storable(d)
    ensures Good(WithDraft(Evicted(Live(t.rows, now), limit), t.issued, d, expires), limit)
  {
    hide Proper, Current, Evicted, Live;
    RoomIsGood(t, now, limit);
    StoreInRoom(t, Evicted(Live(t.rows, now), limit), d, expires, limit);
  }

  lemma StoreAdds(t: Table, d: Draft, now: int, ttl: int, limit: int)
    requires Storable(d) && limit >= 1
    ensures StoreTx(t, d, now, ttl, limit).0 == WithDraft(Evicted(Live(t.rows, now), limit), t.issued, d, now + ttl)
    ensures StoreTx(t, d, now, ttl, limit).1.Ok? <==> |Current(d)| <= MOST_OPTIONS
  {
    hide Current, Live, Evicted;
  }

  lemma StoreIsGood(t: Table, d: Draft, now: int, ttl: int, limit: int)
    requires Storable(d)
    requires limit >= 1 ==> Good(WithDraft(Evicted(Live(t.rows, now), limit), t.issued, d, now + ttl), limit)
    ensures Good(StoreTx(t, d, now, ttl, limit).0, limit)
  {
    hide Kept, Current, WithDraft, Evicted, Live;
    if limit >= 1 { StoreAdds(t, d, now, ttl, limit); }
  }

  lemma ProperIsStorable(d: Draft)
    requires Proper(d)
    ensures Storable(d)
  {}

  /** Storing a proper draft keeps the table good, and fails only on a catalog too large to show. */
  lemma StoreKeepsGood(t: Table, d: Draft, now: int, ttl: int, limit: int)
    requires Good(t, limit) && Proper(d)
    ensures Good(StoreTx(t, d, now, ttl, limit).0, limit)
    ensures limit >= 1 ==> (StoreTx(t, d, now, ttl, limit).1.Ok? <==> |Current(d)| <= MOST_OPTIONS)
  {
    hide *;
    ProperIsStorable(d);
    if limit >= 1 {
      WithDraftIsGood(t, d, now, now + ttl, limit);
      StoreAdds(t, d, now, ttl, limit);
    }
    StoreIsGood(t, d, now, ttl, limit);
  }

  /** A reference that was issued and is gone. */
  ghost predicate Spent(t: Table, ref: Ref) {
    ref < t.issued && forall i | 0 <= i < |t.rows| :: t.rows[i].ref != ref
  }

  lemma PartStaysSpent(rows: seq<Entry>, part: seq<Entry>, ref: Ref)
    requires Subsequence(part, rows) && forall i | 0 <= i < |rows| :: rows[i].ref != ref
    ensures forall i | 0 <= i < |part| :: part[i].ref != ref
  {
    forall i | 0 <= i < |part| ensures part[i].ref != ref {
      var j :| 0 <= j < |rows| && part[i] == rows[j];
    }
  }

  lemma StoreKeepsSpent(t: Table, d: Draft, now: int, ttl: int, limit: int, ref: Ref)
    requires Storable(d) && Spent(t, ref)
    ensures Spent(StoreTx(t, d, now, ttl, limit).0, ref)
  {
    if limit >= 1 {
      RoomIsMade(t.rows, now, limit);
      PartStaysSpent(t.rows, Evicted(Live(t.rows, now), limit), ref);
    }
  }

  lemma {:induction false} BeginKeeps(t: Table, bodies: seq<Body>, n: nat, scope: string, kind: Kind, selectors: string,
                                      now: int, ttl: int, limit: int)
    requires n <= |bodies| && AllProper(bodies, scope, kind, selectors) && Good(t, limit)
    ensures Good(BeginTx(t, bodies, n, scope, kind, selectors, now, ttl, limit).0, limit)
    ensures forall ref | Spent(t, ref) :: Spent(BeginTx(t, bodies, n, scope, kind, selectors, now, ttl, limit).0, ref)
  {
    hide Proper, Good, Spent, StoreTx;
    if n == 0 {
    } else {
      BeginKeeps(t, bodies, n - 1, scope, kind, selectors, now, ttl, limit);
      var before := BeginTx(t, bodies, n - 1, scope, kind, selectors, now, ttl, limit);
      var d := Draft(bodies[n - 1], scope, kind, selectors);
      assert Proper(d);
      ProperIsStorable(d);
      StoreKeepsGood(before.0, d, now, ttl, limit);
      forall ref | Spent(before.0, ref) ensures Spent(StoreTx(before.0, d, now, ttl, limit).0, ref) {
        StoreKeepsSpent(before.0, d, now, ttl, limit, ref);
      }
    }
  }

  lemma WithoutIsGood(t: Table, k: nat, limit: int)
    requires Good(t, limit) && k < |t.rows|
    ensures Good(t.(rows := Without(t.rows, k)), limit) && Spent(t.(rows := Without(t.rows, k)), t.rows[k].ref)
    ensures forall ref | Spent(t, ref) :: Spent(t.(rows := Without(t.rows, k)), ref)
  {
    WithoutIsSubsequence(t.rows, k);
    PartIsGood(t, Without(t.rows, k), limit);
    assert Rising(t.rows);
    forall ref | Spent(t, ref) ensures Spent(t.(rows := Without(t.rows, k)), ref) {
      PartStaysSpent(t.rows, Without(t.rows, k), ref);
    }
  }

  /** The refusals that leave a draft where it is. */
  predicate Retryable(e: PreparationError) {
    e in {ScopeOrRevisionChanged, InvalidEnergyAmount, EnergyAmountNotOffered, InvalidOption}
  }

  /** The arguments fit the draft: an amount that was offered, or an option that was issued, and not both. */
  predicate Fitting(e: Entry, option: Option<Ref>, amount: Option<int>) {
    match e.draft.body
    case Amount(_, minimum, maximum, offered) =>
      && option.None? && amount.Some? && minimum <= amount.value <= maximum
      && (offered.Some? ==> amount.value in offered.value)
    case Choosing(_, _, _, _) =>
      amount.None? && option.Some? && e.first <= option.value < e.first + |e.options|
  }

  /** The completion carries what the draft bound and is sound for it. */
  ghost predicate Answers(c: Completion, d: Draft, option: Option<Ref>, amount: Option<int>) {
    match d.body
    case Amount(_, _, _, _) => amount == c.amount && Sound(c, d.body)
    case Choosing(purpose, steps, _, _) => Sound(c, d.body)
  }

  lemma AmountIsSound(d: Draft, option: Option<Ref>, amount: Option<int>)
    requires Proper(d) && d.body.Amount?
    requires amount.Some? && d.body.minimum <= amount.value <= d.body.maximum
    requires d.body.offered.Some? ==> amount.value in d.body.offered.value
    ensures Answers(Completion(None, d.kind, d.body.gift, amount, map[]), d, option, amount)
  {}

  lemma SameSteps(d: Draft, c: Completion, next: Draft)
    requires d.body.Choosing? && next.body.Choosing? && next.body.purpose == d.body.purpose
    requires next.body.steps == d.body.steps
    requires Sound(c, next.body)
    ensures Sound(c, d.body)
  {}

  lemma KeptRow(t: Table, k: nat, limit: int)
    requires Good(t, limit) && k < |t.rows|
    ensures Kept(t.rows[k])
  {}

  lemma StoreErrors(t: Table, d: Draft, now: int, ttl: int, limit: int)
    requires Storable(d)
    ensures StoreTx(t, d, now, ttl, limit).1.Err? ==> !Retryable(StoreTx(t, d, now, ttl, limit).1.error)
  {}

  /** An attempt keeps the table good. It spends its reference exactly when its arguments fit the draft, and
      otherwise leaves the draft to be tried again; a completion is sound. */
  lemma AcceptKeeps(t: Table, k: nat, option: Option<Ref>, amount: Option<int>, now: int, ttl: int, limit: int)
    requires Good(t, limit) && k < |t.rows|
    ensures var (after, r) := Accept(t, k, option, amount, now, ttl, limit);
      && Good(after, limit)
      && (Fitting(t.rows[k], option, amount) ==> Spent(after, t.rows[k].ref) && !(r.Err? && Retryable(r.error)))
      && (!Fitting(t.rows[k], option, amount) ==> after == t && r.Err? && Retryable(r.error))
      && (forall ref | Spent(t, ref) :: Spent(after, ref))
      && (r.Ok? && r.value.Done? ==> Answers(r.value.completion, t.rows[k].draft, option, amount))
  {
    hide Good, Spent, StoreTx, Current, Coherent, SelectedOffered, Consistent, Fits, Sound, Completed;
    var entry := t.rows[k];
    KeptRow(t, k, limit);
    WithoutIsGood(t, k, limit);
    var rest := t.(rows := Without(t.rows, k));
    if entry.draft.body.Amount? {
      var body := entry.draft.body;
      if amount.Some? && body.minimum <= amount.value <= body.maximum
         && (body.offered.Some? ==> amount.value in body.offered.value)
      {
        AmountIsSound(entry.draft, option, amount);
      }
    } else if option.Some? && entry.first <= option.value < entry.first + |entry.options| {
      var i := option.value - entry.first;
      var next := Chosen(entry.draft, entry.options[i].value);
      if entry.draft.body.index + 1 < |entry.draft.body.steps| {
        ChosenIsProper(entry.draft, i);
        StoreKeepsGood(rest, next, now, ttl, limit);
        forall ref | Spent(rest, ref) ensures Spent(StoreTx(rest, next, now, ttl, limit).0, ref) {
          StoreKeepsSpent(rest, next, now, ttl, limit, ref);
        }
        StoreErrors(rest, next, now, ttl, limit);
      } else {
        CompletedIsSound(entry.draft, i);
        SameSteps(entry.draft, Completed(next), next);
      }
    }
  }

  lemma SpentIsAbsent(t: Table, ref: Ref)
    ensures Spent(t, ref) ==> IndexOf(t.rows, ref) == |t.rows|
  {}

  lemma RowIssued(t: Table, k: nat, limit: int)
    requires Good(t, limit) && k < |t.rows|
    ensures t.rows[k].ref < t.issued
  {}

  lemma AdvanceKeeps(t: Table, ref: Ref, option: Option<Ref>, amount: Option<int>, scope: string, kind: Kind, now: int,
                     ttl: int, limit: int)
    requires Good(t, limit)
    ensures var (after, r) := AdvanceTx(t, ref, option, amount, scope, kind, now, ttl, limit);
      && Good(after, limit) && (forall other | Spent(t, other) :: Spent(after, other))
      && (r.Ok? ==> ref < t.issued && Spent(after, ref))
      && (r == Err(CatalogLimit) ==> Spent(after, ref))
      && (r.Err? && Retryable(r.error) ==> after == t)
      && (Spent(t, ref) ==> r == Err(UnknownOrExpired))
  {
    hide Good, Spent, Accept, Without, Kept, Proper, Answers, Fitting, Sound;
    var k := IndexOf(t.rows, ref);
    SpentIsAbsent(t, ref);
    if k < |t.rows| {
      KeptRow(t, k, limit);
      RowIssued(t, k, limit);
      WithoutIsGood(t, k, limit);
      AcceptKeeps(t, k, option, amount, now, ttl, limit);
    }
  }

  // ----- Steps too large to show -------------------------------------------------------------

  /** The attempt chooses an issued option, and the step behind it has more options than can be shown. */
  ghost predicate Oversized(e: Entry, option: Option<Ref>, amount: Option<int>)
    requires Storable(e.draft)
  {
    && e.draft.body.Choosing? && amount.None? && option.Some? && e.first <= option.value < e.first + |e.options|
    && e.draft.body.index + 1 < |e.draft.body.steps|
    && |Current(Chosen(e.draft, e.options[option.value - e.first].value))| > MOST_OPTIONS
  }

  /** Nothing was stored: the rows are some of those that were there. */
  ghost predicate NothingNew(after: seq<Entry>, rows: seq<Entry>) {
    forall i | 0 <= i < |after| :: after[i] in rows
  }

  lemma SubsequenceIsNothingNew(after: seq<Entry>, rows: seq<Entry>)
    requires Subsequence(after, rows)
    ensures NothingNew(after, rows)
  {}

  lemma OversizedOnly(t: Table, k: nat, option: Option<Ref>, amount: Option<int>, now: int, ttl: int, limit: int)
    requires limit >= 1 && k < |t.rows| && Kept(t.rows[k]) && Storable(t.rows[k].draft)
    ensures var (after, r) := Accept(t, k, option, amount, now, ttl, limit);
      && (r == Err(CatalogLimit) <==> Oversized(t.rows[k], option, amount))
      && (r == Err(CatalogLimit) ==> after.rows == Evicted(Live(Without(t.rows, k), now), limit))
  {
    hide Current, Live, Evicted, Without, Sound, Completed, Coherent, SelectedOffered, Consistent, Fits;
  }

  lemma RestIsNothingNew(rows: seq<Entry>, k: nat, now: int, limit: nat)
    requires limit >= 1 && k < |rows|
    ensures NothingNew(Evicted(Live(Without(rows, k), now), limit), rows)
  {
    hide NothingNew, Subsequence, Live, Evicted, Without;
    RoomIsMade(Without(rows, k), now, limit);
    WithoutIsSubsequence(rows, k);
    SubsequenceChains(Evicted(Live(Without(rows, k), now), limit), Without(rows, k), rows);
    SubsequenceIsNothingNew(Evicted(Live(Without(rows, k), now), limit), rows);
  }

  /** An attempt comes to such a step exactly when it is refused as too large, and then its reference is spent
      and no draft takes its place. */
  lemma OversizedIsSpent(t: Table, k: nat, option: Option<Ref>, amount: Option<int>, now: int, ttl: int, limit: int)
    requires limit >= 1 && Good(t, limit) && k < |t.rows| && Kept(t.rows[k]) && Storable(t.rows[k].draft)
    ensures var (after, r) := Accept(t, k, option, amount, now, ttl, limit);
      && (r == Err(CatalogLimit) <==> Oversized(t.rows[k], option, amount))
      && (r == Err(CatalogLimit) ==> Spent(after, t.rows[k].ref) && NothingNew(after.rows, t.rows))
  {
    hide Good, Spent, Proper, Accept, Oversized, NothingNew, Answers;
    AcceptKeeps(t, k, option, amount, now, ttl, limit);
    OversizedOnly(t, k, option, amount, now, ttl, limit);
    RestIsNothingNew(t.rows, k, now, limit);
  }

  predicate InFrame(e: Entry, scope: string, kind: Kind, now: int) {
    e.expires > now && e.draft.scope == scope && e.draft.kind == kind
  }

  lemma KeptIsStorable(e: Entry)
    requires Kept(e)
    ensures Storable(e.draft)
  {
    ProperIsStorable(e.draft);
  }

  /** The same of a call: it is refused so exactly when it names a live draft of its frame and comes to such
      a step. */
  lemma OversizedAdvance(t: Table, ref: Ref, option: Option<Ref>, amount: Option<int>, scope: string, kind: Kind,
                         now: int, ttl: int, limit: int)
    requires limit >= 1 && Good(t, limit)
    ensures var (after, r) := AdvanceTx(t, ref, option, amount, scope, kind, now, ttl, limit);
      && (r == Err(CatalogLimit) <==>
            exists k :: 0 <= k < |t.rows| && t.rows[k].ref == ref && InFrame(t.rows[k], scope, kind, now)
                        && Storable(t.rows[k].draft) && Oversized(t.rows[k], option, amount))
      && (r == Err(CatalogLimit) ==> Spent(after, ref) && NothingNew(after.rows, t.rows))
  {
    hide Spent, Accept, Without, Oversized, Kept, NothingNew, Storable, Proper;
    var k := IndexOf(t.rows, ref);
    forall j | 0 <= j < |t.rows| && t.rows[j].ref == ref ensures j == k { assert Newer(t.rows, j); }
    if k < |t.rows| {
      KeptRow(t, k, limit);
      KeptIsStorable(t.rows[k]);
      OversizedIsSpent(t, k, option, amount, now, ttl, limit);
    }
  }

  // ----- Runs --------------------------------------------------------------------------------

  datatype Call =
    | Begin(catalog: Catalog, selectors: string)
    | Advance(ref: Ref, option: Option<Ref>, amount: Option<int>)

  /** A call with the frame and the time it was made in. */
  datatype Request = Request(call: Call, scope: string, kind: Kind, now: int)

  ghost function After(requests: seq<Request>, n: nat, ttl: int, limit: int): (t: Table)
    requires n <= |requests|
    ensures Good(t, limit)
  {
    if n == 0 then Table([], 0)
    else
      var t := After(requests, n - 1, ttl, limit);
      var r := requests[n - 1];
      match r.call
      case Begin(c, selectors) =>
        var bodies := Bodies(r.kind, c);
        BodiesAreProper(r.kind, c, r.scope, selectors);
        BeginKeeps(t, bodies, |bodies|, r.scope, r.kind, selectors, r.now, ttl, limit);
        BeginTx(t, bodies, |bodies|, r.scope, r.kind, selectors, r.now, ttl, limit).0
      case Advance(ref, option, amount) =>
        AdvanceKeeps(t, ref, option, amount, r.scope, r.kind, r.now, ttl, limit);
        AdvanceTx(t, ref, option, amount, r.scope, r.kind, r.now, ttl, limit).0
  }

  ghost function Answer(requests: seq<Request>, n: nat, ttl: int, limit: int): Result<Outcome, PreparationError>
    requires n < |requests| && requests[n].call.Advance?
  {
    var r := requests[n];
    AdvanceTx(After(requests, n, ttl, limit), r.call.ref, r.call.option, r.call.amount, r.scope, r.kind, r.now, ttl,
              limit).1
  }

  lemma ProperSelection(d: Draft)
    requires Proper(d) && d.body.Choosing?
    ensures d.body.index < |d.body.steps| && d.body.selected.Keys == FieldsOf(d.body.steps, d.body.index)
  {}

  /** Whatever is asked in whatever order, every stored draft is proper and offers exactly what its
      selections leave open, at most 128 options and at least one, and the table stays within its limit. */
  lemma EveryStoredDraftIsProper(requests: seq<Request>, n: nat, ttl: int, limit: int, k: nat)
    requires n <= |requests| && limit >= 1 && k < |After(requests, n, ttl, limit).rows|
    ensures |After(requests, n, ttl, limit).rows| <= limit
    ensures var e := After(requests, n, ttl, limit).rows[k];
      Proper(e.draft) && e.options == Current(e.draft) && |e.options| <= MOST_OPTIONS
      && (e.draft.body.Choosing? ==>
            e.options != [] && e.draft.body.selected.Keys == FieldsOf(e.draft.body.steps, e.draft.body.index))
  {
    var t := After(requests, n, ttl, limit);
    KeptRow(t, k, limit);
    if t.rows[k].draft.body.Choosing? { ProperSelection(t.rows[k].draft); }
  }

  lemma {:induction false} SpentForever(requests: seq<Request>, i: nat, n: nat, ttl: int, limit: int, ref: Ref)
    requires i <= n <= |requests| && Spent(After(requests, i, ttl, limit), ref)
    ensures Spent(After(requests, n, ttl, limit), ref)
    decreases n
  {
    hide Good, Spent, BeginTx, AdvanceTx, Bodies, AllProper;
    if i == n {
    } else {
      SpentForever(requests, i, n - 1, ttl, limit, ref);
      var t := After(requests, n - 1, ttl, limit);
      var r := requests[n - 1];
      match r.call {
        case Begin(c, selectors) =>
          BodiesAreProper(r.kind, c, r.scope, selectors);
          BeginKeeps(t, Bodies(r.kind, c), |Bodies(r.kind, c)|, r.scope, r.kind, selectors, r.now, ttl, limit);
        case Advance(other, option, amount) =>
          AdvanceKeeps(t, other, option, amount, r.scope, r.kind, r.now, ttl, limit);
      }
    }
  }

  /** Each reference advances at most once: after it succeeded, or failed on too large a next step, every
      later use is refused as unknown. */
  lemma EachReferenceAdvancesOnce(requests: seq<Request>, i: nat, j: nat, ttl: int, limit: int)
    requires i < j < |requests| && requests[i].call.Advance? && requests[j].call.Advance?
    requires requests[i].call.ref == requests[j].call.ref
    requires Answer(requests, i, ttl, limit).Ok? || Answer(requests, i, ttl, limit) == Err(CatalogLimit)
    ensures Answer(requests, j, ttl, limit) == Err(UnknownOrExpired)
  {
    hide Good, Spent, AdvanceTx;
    var a, b := requests[i], requests[j];
    AdvanceKeeps(After(requests, i, ttl, limit), a.call.ref, a.call.option, a.call.amount, a.scope, a.kind, a.now,
                 ttl, limit);
    SpentForever(requests, i + 1, j, ttl, limit, a.call.ref);
    AdvanceKeeps(After(requests, j, ttl, limit), b.call.ref, b.call.option, b.call.amount, b.scope, b.kind, b.now,
                 ttl, limit);
  }

  /** Whenever an advance completes, what it binds is sound for the draft the reference named. */
  lemma EveryCompletionIsSound(requests: seq<Request>, i: nat, ttl: int, limit: int)
    requires i < |requests| && requests[i].call.Advance?
    requires Answer(requests, i, ttl, limit).Ok? && Answer(requests, i, ttl, limit).value.Done?
    ensures var t := After(requests, i, ttl, limit); var k := IndexOf(t.rows, requests[i].call.ref);
      k < |t.rows| && Sound(Answer(requests, i, ttl, limit).value.completion, t.rows[k].draft.body)
  {
    hide Good, Spent, Accept, Sound;
    var t, r := After(requests, i, ttl, limit), requests[i];
    var k := IndexOf(t.rows, r.call.ref);
    KeptRow(t, k, limit);
    AcceptKeeps(t, k, r.call.option, r.call.amount, r.now, ttl, limit);
  }

  // ----- A reference spent without a successor -----------------------------------------------

  const MANY_WEAPONS := Catalog(true, 1, false, [Offer("Infantry", 0)], Tenths(MOST_OPTIONS + 1),
                                [Offer("No armor", 0)], [Offer("Fission", 1)], [], map[], [], [])

  const WASTED_RUN := [
    Request(Begin(MANY_WEAPONS, ""), "frame", UnitDesign, 0),
    Request(Advance(0, Some(1), None), "frame", UnitDesign, 1),
    Request(Advance(0, Some(1), None), "frame", UnitDesign, 2)]

  function FirstDraft(): Draft {
    Draft(Choosing(UnitDesign, Steps(UnitDesign, MANY_WEAPONS), map[], 0), "frame", UnitDesign, "")
  }

  lemma {:induction false} AllOpen(field: Field, selected: map<Field, int>, offers: seq<Offer>)
    requires forall i | 0 <= i < |offers| :: Open(field, selected, offers[i].value)
    ensures Narrowed(field, selected, offers) == offers
  {
    hide Open;
    if offers == [] {
    } else {
      var rest := offers[1..];
      forall i | 0 <= i < |rest| ensures Open(field, selected, rest[i].value) { assert rest[i] == offers[i + 1]; }
      AllOpen(field, selected, rest);
      assert [offers[0]] + rest == offers;
    }
  }

  /** The design opens with its one chassis; the weapons behind it are one too many. */
  lemma WeaponsAreTooMany()
    ensures Storable(FirstDraft()) && Current(FirstDraft()) == [Offer("Infantry", 0)]
    ensures Storable(Chosen(FirstDraft(), 0)) && |Current(Chosen(FirstDraft(), 0))| == MOST_OPTIONS + 1
  {
    AllOpen(Chassis, map[], MANY_WEAPONS.chassis);
    AllOpen(Weapon, map[Chassis := 0], MANY_WEAPONS.weapons);
    hide Narrowed;
    assert FirstDraft().body.steps[1] == Step(Weapon, MANY_WEAPONS.weapons);
    assert Chosen(FirstDraft(), 0).body.selected == map[Chassis := 0];
  }

  lemma OneDraftOpens()
    ensures Bodies(UnitDesign, MANY_WEAPONS) == [FirstDraft().body]
  {
    var steps := Steps(UnitDesign, MANY_WEAPONS);
    assert Filled(steps);
    var upgrade := Steps(UnitUpgrade, MANY_WEAPONS);
    assert upgrade[0].offers == [];
    assert !Filled(upgrade);
  }

  const FIRST_TABLE := Table([Entry(0, FirstDraft(), 180, 1, [Offer("Infantry", 0)])], 2)

  lemma StoresFirst()
    requires Storable(FirstDraft())
    ensures StoreTx(Table([], 0), FirstDraft(), 0, 180, 128).0 == FIRST_TABLE
    ensures StoreTx(Table([], 0), FirstDraft(), 0, 180, 128).1.Ok?
  {
    WeaponsAreTooMany();
    hide Steps, Proper;
    var none: seq<Entry> := [];
    assert Live(none, 0) == [] && Evicted(none, 128) == [];
  }

  lemma BeginsWithOne(t: Table, body: Body, scope: string, kind: Kind, selectors: string, now: int, ttl: int,
                      limit: int)
    requires AllProper([body], scope, kind, selectors) && Storable(Draft(body, scope, kind, selectors))
    ensures BeginTx(t, [body], 1, scope, kind, selectors, now, ttl, limit).0
      == StoreTx(t, Draft(body, scope, kind, selectors), now, ttl, limit).0
  {
    hide Proper, StoreTx;
    assert [body][0] == body && BeginTx(t, [body], 0, scope, kind, selectors, now, ttl, limit) == (t, Ok([]));
  }

  lemma FirstStored()
    ensures After(WASTED_RUN, 1, 180, 128) == FIRST_TABLE
  {
    hide Proper, Good, Bodies, BeginTx, StoreTx, MANY_WEAPONS, FIRST_TABLE, Current, AllProper;
    OneDraftOpens();
    WeaponsAreTooMany();
    BodiesAreProper(UnitDesign, MANY_WEAPONS, "frame", "");
    StoresFirst();
    BeginsWithOne(Table([], 0), FirstDraft().body, "frame", UnitDesign, "", 0, 180, 128);
    assert After(WASTED_RUN, 0, 180, 128) == Table([], 0);
  }

  /** A design is opened and its chassis chosen: the call fails, the reference is spent, and the table holds
      no draft to go on with. */
  lemma ReferenceIsWasted()
    ensures Answer(WASTED_RUN, 1, 180, 128) == Err(CatalogLimit) && After(WASTED_RUN, 2, 180, 128).rows == []
    ensures Answer(WASTED_RUN, 2, 180, 128) == Err(UnknownOrExpired)
  {
    hide Proper, Good, Current, Spent;
    FirstStored();
    WeaponsAreTooMany();
    var t := After(WASTED_RUN, 1, 180, 128);
    OversizedAdvance(t, 0, Some(1), None, "frame", UnitDesign, 1, 180, 128);
    assert Oversized(t.rows[0], Some(1), None) && InFrame(t.rows[0], "frame", UnitDesign, 1);
    EachReferenceAdvancesOnce(WASTED_RUN, 1, 2, 180, 128);
  }
}
