/** The draft table as the object that serves it. */
module PreparationService {
  import opened Wrappers
  import opened PreparationModel
  import opened ChoicePreparation

  lemma {:induction false} RefusalEnds(t: Table, bodies: seq<Body>, n: nat, scope: string, kind: Kind,
                                       selectors: string, now: int, ttl: int, limit: int)
    requires n <= |bodies| && AllProper(bodies, scope, kind, selectors)
    requires BeginTx(t, bodies, n, scope, kind, selectors, now, ttl, limit).1.Err?
    ensures BeginTx(t, bodies, |bodies|, scope, kind, selectors, now, ttl, limit)
      == BeginTx(t, bodies, n, scope, kind, selectors, now, ttl, limit)
    decreases |bodies| - n
  {
    hide Proper, StoreTx;
    if n == |bodies| {
    } else {
      RefusalEnds(t, bodies, n + 1, scope, kind, selectors, now, ttl, limit);
    }
  }

  class ChoicePreparations {
    const ttl: int
    const limit: int
    var rows: seq<Entry>
    var issued: nat

    ghost function State(): Table
      reads this
    {
      Table(rows, issued)
    }

    constructor (ttl: int, limit: int)
      ensures State() == Table([], 0) && this.ttl == ttl && this.limit == limit && Good(State(), limit)
    {
      this.ttl, this.limit, rows, issued := ttl, limit, [], 0;
    }

    /** Drop the expired drafts, one by one. */
    method DropExpired(now: int)
      modifies this`rows
      ensures rows == Live(old(rows), now)
    {
      ghost var all := rows;
      var todo, live := rows, [];
      for n := 0 to |todo|
        invariant live == Live(all[..n], now)
      {
        assert all[..n + 1][..n] == all[..n];
        if todo[n].expires > now { live := live + [todo[n]]; }
      }
      assert all[..|all|] == all;
      rows := live;
    }

    /** Drop the oldest drafts until one more fits. */
    method MakeRoom()
      requires limit >= 1
      modifies this`rows
      ensures rows == Evicted(old(rows), limit)
    {
      ghost var all := rows;
      while |rows| >= limit
        invariant |all| < limit ==> rows == all
        invariant |all| >= limit ==> |rows| >= limit - 1 && |rows| <= |all| && rows == all[|all| - |rows|..]
      {
        rows := rows[1..];
      }
    }

    method Store(d: Draft, now: int) returns (r: Result<Entry, PreparationError>)
      requires Storable(d)
      modifies this
      ensures (State(), r) == StoreTx(old(State()), d, now, ttl, limit)
    {
      if limit <= 0 {
        rows := [];
        return Err(NoRoom);
      }
      DropExpired(now);
      MakeRoom();
      var ref := issued;
      issued := issued + 1;
      var options := Current(d);
      if |options| > MOST_OPTIONS { return Err(CatalogLimit); }
      var entry := Entry(ref, d, now + ttl, issued, options);
      issued := issued + |options|;
      rows := rows + [entry];
      r := Ok(entry);
    }

    method Begin(catalog: Catalog, scope: string, kind: Kind, selectors: string, now: int)
        returns (r: Result<seq<Entry>, PreparationError>)
      modifies this
      ensures AllProper(Bodies(kind, catalog), scope, kind, selectors)
      ensures (State(), r)
        == BeginTx(old(State()), Bodies(kind, catalog), |Bodies(kind, catalog)|, scope, kind, selectors, now, ttl,
                   limit)
    {
      hide Proper, Bodies, StoreTx;
      var bodies := Bodies(kind, catalog);
      BodiesAreProper(kind, catalog, scope, selectors);
      var stored := [];
      for n := 0 to |bodies|
        invariant (State(), Ok(stored)) == BeginTx(old(State()), bodies, n, scope, kind, selectors, now, ttl, limit)
      {
        var d := Draft(bodies[n], scope, kind, selectors);
        assert Proper(d);
        ProperIsStorable(d);
        var entry := Store(d, now);
        if entry.Err? {
          RefusalEnds(old(State()), bodies, n + 1, scope, kind, selectors, now, ttl, limit);
          return Err(entry.error);
        }
        stored := stored + [entry.value];
      }
      r := Ok(stored);
    }

    method Advance(ref: Ref, option: Option<Ref>, amount: Option<int>, scope: string, kind: Kind, now: int)
        returns (r: Result<Outcome, PreparationError>)
      requires Good(State(), limit)
      modifies this
      ensures (State(), r) == AdvanceTx(old(State()), ref, option, amount, scope, kind, now, ttl, limit)
    {
      hide Proper, Current, StoreTx, Sound, Consistent;
      var k := IndexOf(rows, ref);
      if k == |rows| { return Err(UnknownOrExpired); }
      var entry := rows[k];
      KeptRow(State(), k, limit);
      if entry.expires <= now {
        rows := Without(rows, k);
        return Err(UnknownOrExpired);
      }
      if entry.draft.scope != scope || entry.draft.kind != kind { return Err(ScopeOrRevisionChanged); }
      match entry.draft.body {
        case Amount(gift, minimum, maximum, offered) =>
          if option.Some? || amount.None? || !(minimum <= amount.value <= maximum) { return Err(InvalidEnergyAmount); }
          if offered.Some? && amount.value !in offered.value { return Err(EnergyAmountNotOffered); }
          rows := Without(rows, k);
          r := Ok(Done(Completion(None, entry.draft.kind, gift, amount, map[]), entry.draft.selectors));
        case Choosing(purpose, steps, selected, index) =>
          if amount.Some? || option.None? || !(entry.first <= option.value < entry.first + |entry.options|) {
            return Err(InvalidOption);
          }
          ProperIsStorable(entry.draft);
          var i := option.value - entry.first;
          var next := Chosen(entry.draft, entry.options[i].value);
          rows := Without(rows, k);
          if index + 1 < |steps| {
            var stored := Store(next, now);
            if stored.Err? { return Err(stored.error); }
            return Ok(Next(stored.value));
          }
          CompletedIsSound(entry.draft, i);
          r := Ok(Done(Completed(next), entry.draft.selectors));
      }
    }
  }
}
