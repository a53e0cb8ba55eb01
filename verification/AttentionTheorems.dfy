/** The promises of the attention queue and of sovereign authority, over whole runs. */
module AttentionTheorems {
  import opened Wrappers
  import opened AttentionModel
  import opened AttentionRuns

  // ----- Runs --------------------------------------------------------------------------------

  /** The database after the first `n` transactions of a run from the empty store. On every run,
      disciplined or not, sequences are exactly 1..next-1, an episode has at most one live lease, and a
      lease's cursor is the last sequence it holds. */
  ghost function After(events: seq<Event>, n: nat): (db: Db)
    requires n <= |events|
    ensures WellFormed(db) && ThroughExact(db)
  {
    if n == 0 then EMPTY else
      ApplyWellFormed(After(events, n - 1), events[n - 1]);
      ApplyThroughExact(After(events, n - 1), events[n - 1]);
      Apply(After(events, n - 1), events[n - 1])
  }

  lemma AfterStep(events: seq<Event>, n: nat)
    requires 0 < n <= |events|
    ensures After(events, n) == Apply(After(events, n - 1), events[n - 1])
  {
    hide WellFormed, ThroughExact, Apply;
  }

  ghost predicate DisciplinedRun(events: seq<Event>) {
    forall k: nat | k < |events| :: Disciplined(After(events, k), events[k].step)
  }

  /** The wall clock never runs backwards. */
  ghost predicate Timed(events: seq<Event>) {
    forall k | 0 < k < |events| :: events[k - 1].now <= events[k].now
  }

  // ----- Nothing lost, one owner, exact cursor -----------------------------------------------

  lemma RunStart(events: seq<Event>)
    ensures Invariant(After(events, 0))
  {}

  lemma RunStep(events: seq<Event>, n: nat)
    requires 0 < n <= |events| && Disciplined(After(events, n - 1), events[n - 1].step)
    requires Invariant(After(events, n - 1))
    ensures Invariant(After(events, n))
  {
    hide After, Apply, WellFormed, ThroughExact, Invariant, Disciplined;
    AfterStep(events, n);
    ApplyKeeps(After(events, n - 1), events[n - 1]);
  }

  /** Every state a disciplined run reaches satisfies the invariant, also the one between the two
      transactions of `responded`. */
  lemma {:induction false} RunKeepsInvariant(events: seq<Event>, n: nat)
    requires n <= |events| && DisciplinedRun(events)
    ensures Invariant(After(events, n))
  {
    hide After, Apply, WellFormed, ThroughExact, Invariant, Disciplined;
    if n == 0 {
      RunStart(events);
    } else {
      RunKeepsInvariant(events, n - 1);
      RunStep(events, n);
    }
  }

  /** No item is ever lost or doubly owned: it waits in the queue, or has exactly one live lease, or is
      acknowledged and out of every live lease. */
  lemma EveryItemAccountedFor(events: seq<Event>, n: nat, i: AttentionId)
    requires n <= |events| && DisciplinedRun(events) && i in After(events, n).items
    ensures var db := After(events, n);
      match db.items[i].status
      case Queued => !Owned(db, i)
      case Acknowledged => !Owned(db, i)
      case _ => exists l :: Holds(db, l, i) && forall m | Holds(db, m, i) :: m == l
  {
    RunKeepsInvariant(events, n);
    var db := After(events, n);
    if InFlight(db.items[i]) {
      assert Owned(db, i);
      var l :| Holds(db, l, i);
      assert forall m | Holds(db, m, i) :: m == l;
    }
  }

  /** No item is deleted, only its status may change, and acknowledged is terminal. */
  ghost predicate Carries(db: Db, db': Db) {
    && (forall i | i in db.items :: i in db'.items && db'.items[i] == db.items[i].(status := db'.items[i].status))
    && (forall i | i in db.items && db.items[i].status == Acknowledged :: db'.items[i].status == Acknowledged)
  }

  lemma AbandonCarries(db: Db, ls: set<LeaseId>)
    ensures Carries(db, AbandonAll(db, ls))
  {}

  lemma CarriesTransitive(a: Db, b: Db, c: Db)
    requires Carries(a, b) && Carries(b, c)
    ensures Carries(a, c)
  {}

  lemma GrantCarries(db: Db, episode: EpisodeId, limit: int, ttl: int, cap: int, newLease: LeaseId, now: real)
    requires WellFormed(db)
    ensures Carries(db, Grant(db, episode, limit, ttl, cap, newLease, now).0)
  {
    hide Through, BelowBarrier, OneLeasePerEpisode, LinksResolve;
  }

  lemma FromCarries(db: Db, episode: EpisodeId, limit: int, ttl: int, cap: int, newLease: LeaseId, now: real)
    requires WellFormed(db)
    ensures Carries(db, LeaseFrom(db, episode, limit, ttl, cap, newLease, now).0)
  {
    if !Reuses(db, episode, cap) {
      var cleared := AbandonAll(db, LiveOf(db, episode));
      Sweep(db, LiveOf(db, episode));
      AbandonCarries(db, LiveOf(db, episode));
      GrantCarries(cleared, episode, limit, ttl, cap, newLease, now);
      CarriesTransitive(db, cleared, Grant(cleared, episode, limit, ttl, cap, newLease, now).0);
    }
  }

  lemma LeaseCarries(db: Db, episode: EpisodeId, limit: int, ttl: int, cap: int, newLease: LeaseId, now: real)
    requires WellFormed(db) && newLease !in db.leases
    ensures Carries(db, LeaseTx(db, episode, limit, ttl, cap, newLease, now).0)
  {
    var swept := AbandonAll(db, ExpiredLeases(db, now));
    Sweep(db, ExpiredLeases(db, now));
    AbandonCarries(db, ExpiredLeases(db, now));
    FromCarries(swept, episode, limit, ttl, cap, newLease, now);
    CarriesTransitive(db, swept, LeaseFrom(swept, episode, limit, ttl, cap, newLease, now).0);
  }

  lemma CarriesReflexive(db: Db)
    ensures Carries(db, db)
  {}

  lemma SovereignCarries(db: Db, db': Db)
    requires SovereignStep(db, db')
    ensures Carries(db, db')
  {
    if db.sovereign.Some? { AbandonCarries(db, LiveOf(db, db.sovereign.value.episode)); }
  }

  lemma RestrictCarries(db: Db, l: LeaseId, visible: set<AttentionId>)
    ensures Carries(db, Or(RestrictTx(db, l, visible), db))
  {}

  lemma RespondCarries(db: Db, l: LeaseId)
    requires Invariant(db) && (l in db.leases ==> RowsAnswered(db, l))
    ensures Carries(db, RespondItems(db, l))
  {
    forall i | i in db.items && db.items[i].status == Acknowledged
      ensures RespondItems(db, l).items[i].status == Acknowledged
    {
      assert l in db.leases && i in db.leases[l].items ==> HeldByAnswered(db, i);
    }
  }

  lemma AckRowsCarries(db: Db, l: LeaseId, through: Option<int>, ids: set<AttentionId>)
    requires l in db.leases
    ensures Carries(db, AckRows(db, l, through, ids))
  {
    AckRowsKeepAcknowledged(db, l, through, ids);
  }

  lemma AckCarries(db: Db, l: LeaseId, through: Option<int>, ids: set<AttentionId>)
    requires WellFormed(db)
    ensures Carries(db, Or(AckTx(db, l, through, ids), db))
  {
    hide Sequenced, OneLeasePerEpisode, LinksResolve, AckRows, Contiguous;
    if AckError(db, l, through, ids).None? { AckRowsCarries(db, l, through, ids); }
  }

  lemma StepCarries(db: Db, e: Event)
    requires Invariant(db) && Disciplined(db, e.step)
    ensures Carries(db, Apply(db, e))
  {
    match e.step
    case LeaseFor(episode, limit, ttl, cap, newLease) =>
      if newLease !in db.leases { LeaseCarries(db, episode, limit, ttl, cap, newLease, e.now); }
    case RespondRows(l) => RespondCarries(db, l);
    case Acknowledge(l, through, ids) => AckCarries(db, l, through, ids);
    case Abandon(l) => AbandonCarries(db, {l});
    case Restrict(l, visible) => RestrictCarries(db, l, visible);
    case Enqueue(_, _, _, _, _) =>
    case Place(_) =>
    case RespondLease(_) =>
    case Acquire(_, _, _, _, _) => SovereignCarries(db, Apply(db, e));
    case Renew(_, _, _, _) => SovereignCarries(db, Apply(db, e));
    case ReadSovereign => SovereignCarries(db, Apply(db, e));
    case Release(_, _) => SovereignCarries(db, Apply(db, e));
    case Cancel => SovereignCarries(db, Apply(db, e));
  }

  lemma RunStepCarries(events: seq<Event>, n: nat)
    requires 0 < n <= |events| && DisciplinedRun(events)
    ensures Carries(After(events, n - 1), After(events, n))
  {
    hide After, Apply, WellFormed, ThroughExact, Invariant, Carries;
    RunKeepsInvariant(events, n - 1);
    AfterStep(events, n);
    StepCarries(After(events, n - 1), events[n - 1]);
  }

  lemma {:induction false} RunCarries(events: seq<Event>, k: nat, n: nat)
    requires k <= n <= |events| && DisciplinedRun(events)
    ensures Carries(After(events, k), After(events, n))
    decreases n
  {
    hide Apply, WellFormed, ThroughExact, Carries, After;
    if k == n {
      CarriesReflexive(After(events, n));
    } else {
      RunCarries(events, k, n - 1);
      RunStepCarries(events, n);
      CarriesTransitive(After(events, k), After(events, n - 1), After(events, n));
    }
  }

  /** Enqueued items stay, with their sequence and publication cursor, and acknowledged is terminal. */
  lemma ItemsSurvive(events: seq<Event>, k: nat, n: nat, i: AttentionId)
    requires k <= n <= |events| && DisciplinedRun(events) && i in After(events, k).items
    ensures i in After(events, n).items
    ensures After(events, n).items[i] == After(events, k).items[i].(status := After(events, n).items[i].status)
    ensures After(events, k).items[i].status == Acknowledged ==> After(events, n).items[i].status == Acknowledged
  {
    RunCarries(events, k, n);
  }

  lemma PrefixIsUnique(db: Db, c: nat)
    requires WellFormed(db) && CursorExact(db)
    ensures c == AcknowledgedCursor(db) <==>
      (forall s: nat | 1 <= s <= c :: AcknowledgedAt(db.items, s)) && !AcknowledgedAt(db.items, c + 1)
  {
    var a := AcknowledgedCursor(db);
    forall s: nat | 1 <= s <= a ensures AcknowledgedAt(db.items, s) {
      assert Occupied(db.items, s);
      var i :| i in db.items && AtSequence(db.items, s, i);
      assert db.items[i].status == Acknowledged;
    }
    if c < a { assert AcknowledgedAt(db.items, c + 1); }
  }

  /** The item with this sequence is acknowledged. */
  ghost predicate Done(db: Db, sequence: nat) {
    exists i | i in db.items :: db.items[i].sequence == sequence && db.items[i].status == Acknowledged
  }

  lemma DoneIsAcknowledged(db: Db, sequence: nat)
    ensures Done(db, sequence) <==> AcknowledgedAt(db.items, sequence)
  {}

  lemma LongestPrefix(db: Db, c: nat)
    requires WellFormed(db) && CursorExact(db)
    ensures c == (if db.head.Some? then db.head.value.acknowledged else 0) <==>
      (forall s: nat | 1 <= s <= c :: Done(db, s)) && !Done(db, c + 1)
  {
    PrefixIsUnique(db, c);
    hide WellFormed, CursorExact, Done, AcknowledgedAt;
    forall s: nat ensures Done(db, s) <==> AcknowledgedAt(db.items, s) { DoneIsAcknowledged(db, s); }
  }

  /** The acknowledged cursor is in every reachable state the length of the longest acknowledged prefix. */
  lemma CursorIsLongestPrefix(events: seq<Event>, n: nat, c: nat)
    requires n <= |events| && DisciplinedRun(events)
    ensures var db := After(events, n);
      c == (if db.head.Some? then db.head.value.acknowledged else 0) <==>
        (forall s: nat | 1 <= s <= c :: Done(db, s)) && !Done(db, c + 1)
  {
    RunKeepsInvariant(events, n);
    hide After, WellFormed, ThroughExact, CursorExact, Ownership, Done;
    LongestPrefix(After(events, n), c);
  }

  // ----- Where the discipline is needed, exactly ---------------------------------------------

  /** Restriction keeps the invariant iff it omits nothing that has already been responded to. */
  lemma RestrictExact(db: Db, l: LeaseId, visible: set<AttentionId>)
    requires Invariant(db) && RestrictTx(db, l, visible).Ok?
    ensures Invariant(RestrictTx(db, l, visible).value)
      <==> NoneAnswered(db, db.leases[l].items - visible)
  {
    var db' := RestrictTx(db, l, visible).value;
    if NoneAnswered(db, db.leases[l].items - visible) {
      RestrictKeeps(db, l, visible);
    } else {
      var i :| i in db.leases[l].items - visible && i in db.items && db.items[i].status == Responded;
      assert Holds(db, l, i);
      forall m ensures !Holds(db', m, i) {
        assert m != l ==> !Holds(db, m, i);
      }
      assert !Owned(db', i) && db'.items[i].status == Responded;
    }
  }

  /** The second half of `responded` keeps the invariant iff each row of the lease is at that moment
      held by a live answered lease. */
  lemma RespondRowsExact(db: Db, l: LeaseId)
    requires Invariant(db) && l in db.leases
    ensures Invariant(RespondItems(db, l)) <==> RowsAnswered(db, l)
  {
    var db' := RespondItems(db, l);
    if RowsAnswered(db, l) {
      RespondKeeps(db, l);
    } else if Invariant(db') {
      forall i | i in db.leases[l].items ensures HeldByAnswered(db, i) {
        assert db'.items[i].status == Responded;
        assert Owned(db', i);
        var m :| Holds(db', m, i);
        assert Holds(db, m, i) && db.leases[m].status == Answered;
      }
    }
  }

  /** A receipt may be acknowledged iff its lease is still answered or none of its rows is in flight again. */
  lemma AcknowledgeExact(db: Db, l: LeaseId, through: Option<int>, ids: set<AttentionId>)
    requires Invariant(db) && AckError(db, l, through, ids).None?
    ensures Invariant(AckTx(db, l, through, ids).value) <==> db.leases[l].status == Answered || NothingInFlight(db, l)
  {
    var db' := AckTx(db, l, through, ids).value;
    if db.leases[l].status == Answered || NothingInFlight(db, l) {
      AckKeeps(db, l, through, ids);
    } else {
      var i :| i in db.leases[l].items && i in db.items && InFlight(db.items[i]);
      assert Owned(db, i);
      var m :| Holds(db, m, i);
      assert Holds(db', m, i) && !InFlight(db'.items[i]);
    }
  }

  /** Abandoning keeps the invariant iff the lease is live or none of its rows is in flight again. */
  lemma AbandonExact(db: Db, l: LeaseId)
    requires Invariant(db) && l in db.leases
    ensures Invariant(AbandonAll(db, {l})) <==> Live(db.leases[l]) || NothingInFlight(db, l)
  {
    if Live(db.leases[l]) {
      AbandonKeeps(db, {l});
    } else if NothingInFlight(db, l) {
      AbandonDeadIsNoop(db, l);
    } else {
      var i :| i in db.leases[l].items && i in db.items && InFlight(db.items[i]);
      assert Owned(db, i);
      var m :| Holds(db, m, i);
      assert Holds(AbandonAll(db, {l}), m, i);
      assert i in LinkedTo(db.leases, {l});
    }
  }

  /** From a state that satisfies it, a transaction keeps the invariant exactly when it is disciplined. */
  lemma KeptIffDisciplined(db: Db, e: Event)
    requires Invariant(db)
    ensures Invariant(Apply(db, e)) <==> Disciplined(db, e.step)
  {
    hide Ownership, CursorExact, WellFormed, Live, NothingInFlight, RowsAnswered, NoneAnswered, AbandonAll;
    match e.step
    case Restrict(l, visible) => if RestrictTx(db, l, visible).Ok? { RestrictExact(db, l, visible); }
    case RespondRows(l) => if l in db.leases { RespondRowsExact(db, l); }
    case Acknowledge(l, through, ids) =>
      if AckError(db, l, through, ids).None? { AcknowledgeExact(db, l, through, ids); }
    case Abandon(l) => if l in db.leases { AbandonExact(db, l); }
    case _ => ApplyKeeps(db, e);
  }

  ghost predicate KeptThroughout(events: seq<Event>) {
    forall n: nat | n <= |events| :: Invariant(After(events, n))
  }

  lemma KeptStepIsDisciplined(events: seq<Event>, k: nat)
    requires k < |events| && Invariant(After(events, k)) && Invariant(After(events, k + 1))
    ensures Disciplined(After(events, k), events[k].step)
  {
    hide After, Apply, Invariant, Disciplined;
    AfterStep(events, k + 1);
    KeptIffDisciplined(After(events, k), events[k]);
  }

  /** Discipline is not more than the promise needs: the invariant holds throughout a run exactly when
      the run is disciplined. */
  lemma InvariantIffDisciplined(events: seq<Event>)
    ensures KeptThroughout(events) <==> DisciplinedRun(events)
  {
    hide After, Apply, Invariant, Disciplined;
    if DisciplinedRun(events) {
      forall n: nat | n <= |events| ensures Invariant(After(events, n)) { RunKeepsInvariant(events, n); }
      assert KeptThroughout(events);
    }
    if KeptThroughout(events) {
      forall k: nat | k < |events| ensures Disciplined(After(events, k), events[k].step) {
        KeptStepIsDisciplined(events, k);
      }
      assert DisciplinedRun(events);
    }
  }

  lemma {:induction false} PrudentUpTo(events: seq<Event>, n: nat)
    requires n <= |events| && forall k: nat | k < |events| :: Prudent(After(events, k), events[k].step)
    ensures Invariant(After(events, n)) && forall k: nat | k < n :: Disciplined(After(events, k), events[k].step)
  {
    hide After, Apply, Invariant, Disciplined, Prudent;
    if n == 0 {
      RunStart(events);
    } else {
      PrudentUpTo(events, n - 1);
      PrudentIsDisciplined(After(events, n - 1), events[n - 1].step);
      RunStep(events, n);
    }
  }

  /** A run of prudent callers is disciplined. */
  lemma PrudentRunIsDisciplined(events: seq<Event>)
    requires forall k: nat | k < |events| :: Prudent(After(events, k), events[k].step)
    ensures DisciplinedRun(events)
  {
    hide After, Apply, Invariant, Disciplined, Prudent;
    PrudentUpTo(events, |events|);
  }

  // ----- What a lease delivers ---------------------------------------------------------------

  ghost predicate InOrder(items: map<AttentionId, Item>, r: seq<AttentionId>) {
    && (forall i | i in r :: i in items)
    && (forall a, b | 0 <= a < b < |r| :: r[a] != r[b] && Before(items[r[a]], items[r[b]]))
  }

  /** The delivery `d` hands out exactly the rows of its lease, each once and in delivery order. */
  ghost predicate Delivers(db: Db, episode: EpisodeId, d: Delivery) {
    && LiveOf(db, episode) == {d.lease} && d.lease in db.leases
    && (forall i :: i in d.items <==> i in db.leases[d.lease].items)
    && InOrder(db.items, d.items)
    && d.through == Through(db.items, db.leases[d.lease].items)
  }

  /** The publication barrier: all of `ids` is published at the cap and sequenced before every item
      that is not. */
  ghost predicate Published(items: map<AttentionId, Item>, cap: int, ids: seq<AttentionId>) {
    forall i | i in ids && i in items ::
      items[i].cursor <= cap && forall j | j in items && items[j].cursor > cap :: items[i].sequence < items[j].sequence
  }

  /** `rows` are members of the pool, as many as there is room for, and none is taken before a better one. */
  ghost predicate Takes(items: map<AttentionId, Item>, pool: set<AttentionId>, rows: seq<AttentionId>, room: nat)
    requires pool <= items.Keys
  {
    && (forall i | i in rows :: i in pool)
    && (forall i, j | i in rows && j in pool && j !in rows :: Before(items[i], items[j]))
    && |rows| == if |pool| <= room then |pool| else room
  }

  /** The rows a fresh lease takes: deliverable ones, each once, in delivery order, as many as the limit
      allows, and none before one that comes earlier in that order. */
  lemma GrantRows(db: Db, episode: EpisodeId, limit: int, ttl: int, cap: int, newLease: LeaseId, now: real)
    requires WellFormed(db)
    ensures var (db', d) := Grant(db, episode, limit, ttl, cap, newLease, now);
      && d.lease == newLease && newLease in db'.leases && StatusOnly(db.items, db'.items)
      && (forall i :: i in d.items <==> i in db'.leases[newLease].items)
      && InOrder(db.items, d.items) && Takes(db.items, Deliverable(db, cap), d.items, Clamp(limit, 1, 64))
      && d.through == Through(db.items, db'.leases[newLease].items)
  {
    hide BelowBarrier, OneLeasePerEpisode, LinksResolve, Through;
  }

  lemma OrderSurvives(items: map<AttentionId, Item>, items': map<AttentionId, Item>, r: seq<AttentionId>)
    requires StatusOnly(items, items') && InOrder(items, r)
    ensures InOrder(items', r)
  {}

  lemma GrantDelivers(db: Db, episode: EpisodeId, limit: int, ttl: int, cap: int, newLease: LeaseId, now: real)
    requires WellFormed(db) && newLease !in db.leases && LiveOf(db, episode) == {}
    ensures var (db', d) := Grant(db, episode, limit, ttl, cap, newLease, now); Delivers(db', episode, d)
  {
    hide Grant, Deliverable, OneLeasePerEpisode, LiveOf, LinksResolve, Through;
    var (db', d) := Grant(db, episode, limit, ttl, cap, newLease, now);
    GrantRows(db, episode, limit, ttl, cap, newLease, now);
    GrantWellFormed(db, episode, limit, ttl, cap, newLease, now);
    OrderSurvives(db.items, db'.items, d.items);
    StatusOnlyKeepsThrough(db.items, db'.items, db'.leases[newLease].items);
  }

  lemma GrantPublished(db: Db, episode: EpisodeId, limit: int, ttl: int, cap: int, newLease: LeaseId, now: real)
    requires WellFormed(db)
    ensures var (db', d) := Grant(db, episode, limit, ttl, cap, newLease, now); Published(db'.items, cap, d.items)
  {
    hide Grant, OneLeasePerEpisode, LinksResolve, Sequenced;
    var (db', d) := Grant(db, episode, limit, ttl, cap, newLease, now);
    GrantRows(db, episode, limit, ttl, cap, newLease, now);
    forall i | i in d.items ensures i in Deliverable(db, cap) && db.items[i].cursor <= cap {}
  }

  lemma {:induction false} DistinctIds(r: seq<AttentionId>)
    requires forall a, b | 0 <= a < b < |r| :: r[a] != r[b]
    ensures |Ids(r)| == |r|
  {
    if r == [] {
      assert Ids(r) == {};
    } else {
      var front, last := r[..|r| - 1], r[|r| - 1];
      DistinctIds(front);
      assert r == front + [last] && last !in Ids(front);
      assert Ids(r) == Ids(front) + {last};
    }
  }

  lemma SameSize(part: set<AttentionId>, all: set<AttentionId>)
    requires part <= all && |part| == |all|
    ensures part == all
  {
    assert all == part + (all - part);
  }

  lemma RankedOrdered(items: map<AttentionId, Item>, pool: set<AttentionId>)
    requires pool <= items.Keys && DistinctSequences(items)
    ensures InOrder(items, Ranked(items, pool, |pool|))
    ensures Ids(Ranked(items, pool, |pool|)) == pool
  {
    hide DistinctSequences, Before;
    var r := Ranked(items, pool, |pool|);
    DistinctIds(r);
    SameSize(Ids(r), pool);
  }

  /** Reusing a lease hands out all it holds and changes nothing. */
  lemma ReuseHandsOut(db: Db, episode: EpisodeId, limit: int, ttl: int, cap: int, newLease: LeaseId, now: real)
    requires WellFormed(db) && Reuses(db, episode, cap)
    ensures var (db', d) := LeaseFrom(db, episode, limit, ttl, cap, newLease, now);
      db' == db && d.lease in LiveOf(db, episode) && d.through == db.leases[d.lease].through
      && d.items == Ranked(db.items, db.leases[d.lease].items, |db.leases[d.lease].items|)
  {
    hide Ranked, Grant, Sequenced, BelowBarrier;
  }

  lemma ReuseDelivers(db: Db, episode: EpisodeId, limit: int, ttl: int, cap: int, newLease: LeaseId, now: real)
    requires WellFormed(db) && ThroughExact(db) && Reuses(db, episode, cap)
    ensures var (db', d) := LeaseFrom(db, episode, limit, ttl, cap, newLease, now);
      Delivers(db', episode, d) && Published(db'.items, cap, d.items)
  {
    hide Ranked, LeaseFrom, Grant, Through, Before, InOrder;
    var (db', d) := LeaseFrom(db, episode, limit, ttl, cap, newLease, now);
    ReuseHandsOut(db, episode, limit, ttl, cap, newLease, now);
    RankedOrdered(db.items, db.leases[d.lease].items);
    forall i ensures i in d.items <==> i in Ids(d.items) {}
    forall l | l in LiveOf(db, episode) ensures l == d.lease {}
  }

  /** Whatever `lease` returns, fresh or reused, obeys the publication barrier, and afterwards the
      returned lease is the only live lease of its episode. */
  lemma LeaseRespectsBarrier(db: Db, episode: EpisodeId, limit: int, ttl: int, cap: int, newLease: LeaseId, now: real)
    requires WellFormed(db) && ThroughExact(db) && newLease !in db.leases
    ensures var (db', d) := LeaseTx(db, episode, limit, ttl, cap, newLease, now);
      Delivers(db', episode, d) && Published(db'.items, cap, d.items)
  {
    var swept := AbandonAll(db, ExpiredLeases(db, now));
    Sweep(db, ExpiredLeases(db, now));
    SameLeasesKeepThrough(db, swept);
    if Reuses(swept, episode, cap) {
      ReuseDelivers(swept, episode, limit, ttl, cap, newLease, now);
    } else {
      Sweep(swept, LiveOf(swept, episode));
      NoneLeft(swept, episode);
      GrantDelivers(AbandonAll(swept, LiveOf(swept, episode)), episode, limit, ttl, cap, newLease, now);
      GrantPublished(AbandonAll(swept, LiveOf(swept, episode)), episode, limit, ttl, cap, newLease, now);
    }
  }

  /** What an episode may be handed once every lease has run out. */
  function Waiting(db: Db, cap: int): set<AttentionId> {
    set i | i in db.items && db.items[i].status != Acknowledged && BelowBarrier(db.items, cap, db.items[i].sequence)
  }

  lemma TakesAlike(items: map<AttentionId, Item>, swept: map<AttentionId, Item>, pool: set<AttentionId>,
                   rows: seq<AttentionId>, room: nat)
    requires StatusOnly(items, swept) && pool <= items.Keys && Takes(swept, pool, rows, room)
    ensures Takes(items, pool, rows, room)
  {}

  lemma WaitingIsDeliverable(db: Db, swept: Db, cap: int)
    requires StatusOnly(db.items, swept.items)
    requires forall i | i in db.items :: db.items[i].status != Acknowledged <==> swept.items[i].status == Queued
    ensures Deliverable(swept, cap) == Waiting(db, cap)
  {
    forall i | i in db.items
      ensures BelowBarrier(swept.items, cap, db.items[i].sequence) <==>
        BelowBarrier(db.items, cap, db.items[i].sequence)
    {
      forall j | j in db.items ensures swept.items[j].cursor == db.items[j].cursor {}
    }
  }

  lemma NothingToReuse(db: Db, episode: EpisodeId, limit: int, ttl: int, cap: int, newLease: LeaseId, now: real)
    requires WellFormed(db) && LiveOf(db, episode) == {}
    ensures LeaseFrom(db, episode, limit, ttl, cap, newLease, now) == Grant(db, episode, limit, ttl, cap, newLease, now)
  {
    assert AbandonAll(db, {}).items == db.items && AbandonAll(db, {}).leases == db.leases;
    assert AbandonAll(db, LiveOf(db, episode)) == db;
  }

  lemma GrantTakesQueued(db: Db, episode: EpisodeId, limit: int, ttl: int, cap: int, newLease: LeaseId, now: real)
    requires WellFormed(db)
    ensures var (db', d) := Grant(db, episode, limit, ttl, cap, newLease, now);
      && d.lease == newLease
      && (forall i | i in db.items && db.items[i].status == Queued ::
            db'.items[i].status == if i in d.items then Leased else Queued)
      && Takes(db.items, Deliverable(db, cap), d.items, Clamp(limit, 1, 64))
  {
    hide BelowBarrier, OneLeasePerEpisode, LinksResolve, Through;
  }

  lemma EverythingWaits(db: Db, now: real)
    requires Invariant(db)
    requires forall l | l in db.leases && Live(db.leases[l]) :: db.leases[l].expires <= now
    ensures var swept := AbandonAll(db, ExpiredLeases(db, now));
      && swept.items.Keys == db.items.Keys
      && (forall l | l in swept.leases :: !Live(swept.leases[l]))
      && (forall i | i in db.items :: db.items[i].status != Acknowledged <==> swept.items[i].status == Queued)
      && (forall i | i in db.items :: swept.items[i] == db.items[i].(status := swept.items[i].status))
  {
    AbandonKeeps(db, ExpiredLeases(db, now));
    LiveItemsInFlight(db, ExpiredLeases(db, now));
    forall i | i in db.items && InFlight(db.items[i]) ensures i in LinkedTo(db.leases, ExpiredLeases(db, now)) {
      assert Owned(db, i);
      var l :| Holds(db, l, i);
      assert l in ExpiredLeases(db, now);
    }
  }

  /** At least once: when every lease has run out, the next lease takes up what is not acknowledged and
      below the barrier, as much as there is room for, and the rest waits in the queue. */
  lemma ExpiryRedelivers(db: Db, episode: EpisodeId, limit: int, ttl: int, cap: int, newLease: LeaseId, now: real)
    requires Invariant(db) && newLease !in db.leases
    requires forall l | l in db.leases && Live(db.leases[l]) :: db.leases[l].expires <= now
    ensures var (db', d) := LeaseTx(db, episode, limit, ttl, cap, newLease, now);
      && d.lease == newLease
      && (forall i | i in db.items && db.items[i].status != Acknowledged ::
            db'.items[i].status == if i in d.items then Leased else Queued)
      && Takes(db.items, Waiting(db, cap), d.items, Clamp(limit, 1, 64))
  {
    hide Ownership, CursorExact, Sequenced, LinksResolve, OneLeasePerEpisode, Grant, BelowBarrier, Deliverable;
    var swept := AbandonAll(db, ExpiredLeases(db, now));
    Sweep(db, ExpiredLeases(db, now));
    EverythingWaits(db, now);
    NothingToReuse(swept, episode, limit, ttl, cap, newLease, now);
    GrantTakesQueued(swept, episode, limit, ttl, cap, newLease, now);
    WaitingIsDeliverable(db, swept, cap);
    hide AbandonAll, Takes, Waiting, LeaseFrom;
    TakesAlike(db.items, swept.items, Waiting(db, cap), LeaseTx(db, episode, limit, ttl, cap, newLease, now).1.items,
               Clamp(limit, 1, 64));
  }

  lemma ThroughCovers(items: map<AttentionId, Item>, ids: set<AttentionId>, i: AttentionId)
    requires i in ids && i in items
    ensures items[i].sequence <= Through(items, ids)
  {
    assert items[i].sequence in Sequences(items, ids);
  }

  /** The opaque receipt (no cursor, no ids) covers every row of its lease; ids alone cover
      exactly themselves. */
  lemma ReceiptCovers(db: Db, l: LeaseId, ids: set<AttentionId>)
    requires Invariant(db) && ThroughExact(db)
    requires l in db.leases && db.leases[l].status == Answered && ids <= db.leases[l].items
    ensures AckError(db, l, None, ids).None?
    ensures Eligible(db, l, None, ids) == if ids == {} then db.leases[l].items else ids
  {
    forall i | i in db.leases[l].items ensures i in db.items && 1 <= db.items[i].sequence <= db.leases[l].through {
      assert Holds(db, l, i);
      ThroughCovers(db.items, db.leases[l].items, i);
    }
  }

  /** An accepted receipt settles its whole lease: each row is acknowledged if the cursor or the ids
      cover it and requeued otherwise, and no other item changes. */
  lemma ReceiptSettlesLease(db: Db, l: LeaseId, through: Option<int>, ids: set<AttentionId>)
    requires Invariant(db) && AckError(db, l, through, ids).None? && db.leases[l].status == Answered
    ensures var db' := AckTx(db, l, through, ids).value;
      && db'.items.Keys == db.items.Keys && !Live(db'.leases[l])
      && (forall i | i in db.items :: db'.items[i].status ==
            if i !in db.leases[l].items then db.items[i].status
            else if i in Eligible(db, l, through, ids) then Acknowledged else Queued)
  {
    LiveItemsInFlight(db, {l});
    forall i | i in db.leases[l].items ensures i in db.items && InFlight(db.items[i]) {
      assert i in LinkedTo(db.leases, {l});
    }
    assert AckTx(db, l, through, ids).value.items == AckRows(db, l, through, ids).items;
  }

  // ----- Sovereign authority -----------------------------------------------------------------

  /** Only the token of the one row can renew, so two tokens never can at the same instant. */
  lemma RenewalIsExclusive(db: Db, t: Token, u: Token, episode: EpisodeId, mode: EpisodeId, ttl: int, now: real)
    requires RenewTx(db, t, episode, ttl, true, now).Ok? && RenewTx(db, u, mode, ttl, true, now).Ok?
    ensures t == u && episode == mode
  {}

  /** Nothing but acquiring it again can revive a token that cannot renew any more. */
  lemma DeadTokenStep(db: Db, e: Event, t: Token, before: real)
    requires WellFormed(db) && before <= e.now && !CanRenew(db, t, before)
    requires e.step.Acquire? ==> e.step.token != t
    ensures !CanRenew(Apply(db, e), t, e.now)
  {}

  ghost predicate FreshTokens(events: seq<Event>) {
    forall j, k | 0 <= j < k < |events| && events[j].step.Acquire? && events[k].step.Acquire? ::
      events[j].step.token != events[k].step.token
  }

  predicate Acquires(step: Step, t: Token) {
    step.Acquire? && step.token == t
  }

  lemma {:induction false} DeadToken(events: seq<Event>, t: Token, k: nat, n: nat)
    requires Timed(events)
    requires 0 < k <= n <= |events|
    requires forall j | k <= j < |events| :: !Acquires(events[j].step, t)
    requires !CanRenew(After(events, k), t, events[k - 1].now)
    ensures !CanRenew(After(events, n), t, events[n - 1].now)
    decreases n
  {
    hide After, Apply, WellFormed, ThroughExact, CanRenew;
    if k == n {
    } else {
      AfterStep(events, n);
      DeadToken(events, t, k, n - 1);
      DeadTokenStep(After(events, n - 1), events[n - 1], t, events[n - 2].now);
    }
  }

  /** A token that was issued and has been replaced, released, cancelled or has run out never renews
      again, however the run goes on. */
  lemma DeadTokenStaysDead(events: seq<Event>, a: nat, k: nat, n: nat, episode: EpisodeId, ttl: int, ownerOk: bool,
                           now: real)
    requires Timed(events) && FreshTokens(events)
    requires a < k <= n <= |events| && events[a].step.Acquire?
    requires !CanRenew(After(events, k), events[a].step.token, events[k - 1].now)
    requires events[n - 1].now <= now
    ensures RenewTx(After(events, n), events[a].step.token, episode, ttl, ownerOk, now).Err?
  {
    forall j | k <= j < |events| ensures !Acquires(events[j].step, events[a].step.token) {}
    DeadToken(events, events[a].step.token, k, n);
  }

  /** What kills a token: a later acquisition, its release, a cancellation, or its own expiry. */
  lemma TokenEnds(db: Db, t: Token, episode: EpisodeId, mode: EpisodeMode, ttl: int, other: Token, committed: bool,
                  now: real)
    requires CanRenew(db, t, now) && other != t
    ensures AcquireTx(db, episode, mode, ttl, true, other, now).Ok? ==>
      !CanRenew(AcquireTx(db, episode, mode, ttl, true, other, now).value, t, now)
    ensures ReleaseTx(db, t, committed).Ok? && !CanRenew(ReleaseTx(db, t, committed).value, t, now)
    ensures !CanRenew(CancelTx(db), t, now)
    ensures forall late: real | db.sovereign.value.expires <= late :: !CanRenew(db, t, late)
  {}

  /** The event ends the authority of token `t`: the time of the row has passed, another token takes over, or
      it is released or cancelled. */
  predicate Ends(db: Db, e: Event, t: Token) {
    || (db.sovereign.Some? && db.sovereign.value.expires <= e.now)
    || match e.step
       case Acquire(episode, mode, ttl, ownerOk, token) =>
         token != t && AcquireTx(db, episode, mode, ttl, ownerOk, token, e.now).Ok?
       case Release(token, _) => token == t
       case Cancel => true
       case _ => false
  }

  lemma EndedByStep(db: Db, e: Event, t: Token)
    requires WellFormed(db) && CanRenew(db, t, e.now) && Ends(db, e, t)
    ensures !CanRenew(Apply(db, e), t, e.now)
  {
    hide WellFormed;
    match e.step
    case Acquire(episode, mode, ttl, ownerOk, token) => TokenEnds(db, t, episode, mode, ttl, token, true, e.now);
    case Release(token, committed) => TokenEnds(db, t, 0, db.sovereign.value.mode, 0, t + 1, committed, e.now);
    case Cancel => TokenEnds(db, t, 0, db.sovereign.value.mode, 0, t + 1, true, e.now);
    case _ =>
  }

  /** Whatever ends the authority of a token ends it for the rest of the run. */
  lemma EndedTokenStaysDead(events: seq<Event>, a: nat, k: nat, n: nat, episode: EpisodeId, ttl: int, ownerOk: bool,
                            now: real)
    requires Timed(events) && FreshTokens(events)
    requires a < k < n <= |events| && events[a].step.Acquire?
    requires Ends(After(events, k), events[k], events[a].step.token) && events[n - 1].now <= now
    ensures RenewTx(After(events, n), events[a].step.token, episode, ttl, ownerOk, now).Err?
  {
    hide After, Apply, WellFormed, ThroughExact, RenewTx, CanRenew, Ends;
    var db, e, t := After(events, k), events[k], events[a].step.token;
    AfterStep(events, k + 1);
    if CanRenew(db, t, e.now) {
      EndedByStep(db, e, t);
    } else {
      DeadTokenStep(db, e, t, e.now);
    }
    DeadTokenStaysDead(events, a, k + 1, n, episode, ttl, ownerOk, now);
  }

  /** Whoever can renew took the lease over last, and nobody else can renew then. */
  lemma OnlyLastRenews(events: seq<Event>, a: nat, n: nat, episode: EpisodeId, ttl: int, now: real)
    requires Timed(events) && FreshTokens(events) && a < n <= |events| && events[a].step.Acquire?
    requires events[n - 1].now <= now
    requires RenewTx(After(events, n), events[a].step.token, episode, ttl, true, now).Ok?
    ensures forall c | a < c < n :: !Ends(After(events, c), events[c], events[a].step.token)
    ensures forall u, other: EpisodeId :: RenewTx(After(events, n), u, other, ttl, true, now).Ok? ==>
      u == events[a].step.token && other == episode
  {
    hide After, WellFormed, ThroughExact, RenewTx, Ends;
    forall c | a < c < n ensures !Ends(After(events, c), events[c], events[a].step.token) {
      if Ends(After(events, c), events[c], events[a].step.token) {
        EndedTokenStaysDead(events, a, c, n, episode, ttl, true, now);
      }
    }
    forall u, other: EpisodeId | RenewTx(After(events, n), u, other, ttl, true, now).Ok?
      ensures u == events[a].step.token && other == episode
    {
      RenewalIsExclusive(After(events, n), events[a].step.token, u, episode, other, ttl, now);
    }
  }

  /** The old episode's live leases are closed, what they held is queued, and nothing else moved. */
  ghost predicate Reclaimed(db: Db, db': Db, episode: EpisodeId) {
    && LiveOf(db', episode) == {}
    && db'.items.Keys == db.items.Keys && db'.leases.Keys == db.leases.Keys
    && (forall i | i in db.items :: db'.items[i].status ==
          if i in LinkedTo(db.leases, LiveOf(db, episode)) then Queued else db.items[i].status)
    && (forall l | l in db.leases && l !in LiveOf(db, episode) :: db'.leases[l] == db.leases[l])
  }

  lemma AbandonReclaims(db: Db, episode: EpisodeId, row: Option<Sovereign>)
    requires Invariant(db)
    ensures Reclaimed(db, AbandonAll(db, LiveOf(db, episode)).(sovereign := row), episode)
  {
    AbandonKeeps(db, LiveOf(db, episode));
    NoneLeft(db, episode);
    var db' := AbandonAll(db, LiveOf(db, episode)).(sovereign := row);
    assert LiveOf(db', episode) == LiveOf(AbandonAll(db, LiveOf(db, episode)), episode);
  }

  /** However authority ends, by release, by cancellation, or by takeover after expiry (also when a read
      had already marked it expired), the attention of the old episode is reclaimed in the same transaction. */
  lemma AuthorityEndReclaims(db: Db, e: Event)
    requires Invariant(db) && db.sovereign.Some?
    requires match e.step
      case Release(token, _) => ReleaseTx(db, token, e.step.committed).Ok?
      case Cancel => db.sovereign.value.status == Active
      case Acquire(episode, mode, ttl, ownerOk, token) =>
        && ownerOk && db.sovereign.value.status in {Active, Expired} && db.sovereign.value.expires <= e.now
      case _ => false
    ensures Reclaimed(db, Apply(db, e), db.sovereign.value.episode)
    ensures Invariant(Apply(db, e))
  {
    AbandonReclaims(db, db.sovereign.value.episode, Apply(db, e).sovereign);
    SovereignStepKeeps(db, Apply(db, e));
  }
}
