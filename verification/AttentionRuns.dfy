/** What every run of the attention service keeps: nothing lost, one owner, an exact cursor. */
module AttentionRuns {
  import opened Wrappers
  import opened AttentionModel

  // ----- The state machine -------------------------------------------------------------------

  datatype Step =
    | Enqueue(id: AttentionId, cursor: int, priority: int, critical: bool, dependency: nat)
    | LeaseFor(episode: EpisodeId, limit: int, ttl: int, cap: int, newLease: LeaseId)
    | Place(lease: LeaseId)
    | Restrict(lease: LeaseId, visible: set<AttentionId>)
    | RespondLease(lease: LeaseId)
    | RespondRows(lease: LeaseId)
    | Acknowledge(lease: LeaseId, through: Option<int>, ids: set<AttentionId>)
    | Abandon(lease: LeaseId)
    | Acquire(episode: EpisodeId, mode: EpisodeMode, ttl: int, ownerOk: bool, token: Token)
    | Renew(token: Token, episode: EpisodeId, ttl: int, ownerOk: bool)
    | ReadSovereign
    | Release(token: Token, committed: bool)
    | Cancel

  datatype Event = Event(now: real, step: Step)

  function Or(r: Result<Db, AttentionError>, db: Db): Db {
    if r.Ok? then r.value else db
  }

  /** One committed transaction; a rejected one leaves the database as it was. */
  ghost function Apply(db: Db, e: Event): Db
    requires WellFormed(db)
  {
    match e.step
    case Enqueue(id, cursor, priority, critical, dependency) => Insert(db, id, cursor, priority, critical, dependency)
    case LeaseFor(episode, limit, ttl, cap, newLease) =>
      if newLease in db.leases then db else LeaseTx(db, episode, limit, ttl, cap, newLease, e.now).0
    case Place(l) => Or(Transition(db, l, Open, Placed), db)
    case Restrict(l, visible) => Or(RestrictTx(db, l, visible), db)
    case RespondLease(l) => Or(Transition(db, l, Placed, Answered), db)
    case RespondRows(l) => RespondItems(db, l)
    case Acknowledge(l, through, ids) => Or(AckTx(db, l, through, ids), db)
    case Abandon(l) => Or(DropTx(db, l), db)
    case Acquire(episode, mode, ttl, ownerOk, token) => Or(AcquireTx(db, episode, mode, ttl, ownerOk, token, e.now), db)
    case Renew(token, episode, ttl, ownerOk) => Or(RenewTx(db, token, episode, ttl, ownerOk, e.now), db)
    case ReadSovereign => ReadSovereignTx(db, e.now)
    case Release(token, committed) => Or(ReleaseTx(db, token, committed), db)
    case Cancel => CancelTx(db)
  }

  // ----- The invariant -----------------------------------------------------------------------

  ghost predicate Holds(db: Db, l: LeaseId, i: AttentionId) {
    l in db.leases && Live(db.leases[l]) && i in db.leases[l].items
  }

  ghost predicate Owned(db: Db, i: AttentionId) {
    exists l :: Holds(db, l, i)
  }

  predicate InFlight(item: Item) {
    item.status in {Leased, Responded}
  }

  /** A live lease holds only in-flight items, and `responded` ones only once it has answered. */
  ghost predicate LeasesHoldInFlight(db: Db) {
    forall l, i | Holds(db, l, i) ::
      && i in db.items
      && InFlight(db.items[i])
      && (db.items[i].status == Responded ==> db.leases[l].status == Answered)
  }

  ghost predicate OneOwner(db: Db) {
    forall l, m, i | Holds(db, l, i) && Holds(db, m, i) :: l == m
  }

  ghost predicate InFlightIsOwned(db: Db) {
    forall i | i in db.items && InFlight(db.items[i]) :: Owned(db, i)
  }

  /** The stored cursor is the length of the longest acknowledged prefix. */
  ghost predicate CursorExact(db: Db) {
    && (forall i | i in db.items && db.items[i].sequence <= AcknowledgedCursor(db) ::
          db.items[i].status == Acknowledged)
    && !AcknowledgedAt(db.items, AcknowledgedCursor(db) + 1)
  }

  ghost predicate Ownership(db: Db) {
    LeasesHoldInFlight(db) && OneOwner(db) && InFlightIsOwned(db)
  }

  ghost predicate Invariant(db: Db) {
    WellFormed(db) && Ownership(db) && CursorExact(db)
  }

  // ----- The discipline of a run -------------------------------------------------------------

  /** No row of lease `l` is held by anybody. */
  predicate NothingInFlight(db: Db, l: LeaseId)
    requires l in db.leases
  {
    forall i | i in db.leases[l].items && i in db.items :: !InFlight(db.items[i])
  }

  ghost predicate HeldByAnswered(db: Db, i: AttentionId) {
    exists m :: Holds(db, m, i) && db.leases[m].status == Answered
  }

  /** Every row of lease `l` is held by a live lease that has answered. */
  ghost predicate RowsAnswered(db: Db, l: LeaseId)
    requires l in db.leases
  {
    forall i | i in db.leases[l].items :: HeldByAnswered(db, i)
  }

  predicate NoneAnswered(db: Db, ids: set<AttentionId>) {
    forall i | i in ids && i in db.items :: db.items[i].status != Responded
  }

  /** A placement omits nothing that was answered, the rows of an answered lease follow while it still
      holds them, and a receipt is used again or a dead lease abandoned only when nothing in it is in
      flight. Nothing else is asked of a run. */
  ghost predicate Disciplined(db: Db, step: Step) {
    match step
    case Restrict(l, visible) => RestrictTx(db, l, visible).Ok? ==> NoneAnswered(db, db.leases[l].items - visible)
    case RespondRows(l) => l in db.leases ==> RowsAnswered(db, l)
    case Acknowledge(l, through, ids) =>
      AckError(db, l, through, ids).None? ==> db.leases[l].status == Answered || NothingInFlight(db, l)
    case Abandon(l) => l in db.leases ==> Live(db.leases[l]) || NothingInFlight(db, l)
    case _ => true
  }

  /** A caller that restricts before it answers, marks the rows while the lease is answered, uses a
      receipt once and abandons only live leases. */
  predicate Prudent(db: Db, step: Step) {
    match step
    case Restrict(l, _) => l in db.leases ==> db.leases[l].status != Answered
    case RespondRows(l) => l in db.leases ==> db.leases[l].status == Answered
    case Acknowledge(l, _, _) => l in db.leases ==> db.leases[l].status != Receipted
    case Abandon(l) => l in db.leases ==> Live(db.leases[l])
    case _ => true
  }

  lemma AnsweredHasRowsAnswered(db: Db, l: LeaseId)
    requires l in db.leases && db.leases[l].status == Answered
    ensures RowsAnswered(db, l)
  {
    forall i | i in db.leases[l].items ensures HeldByAnswered(db, i) { assert Holds(db, l, i); }
  }

  lemma NotAnsweredHasNoResponses(db: Db, l: LeaseId)
    requires LeasesHoldInFlight(db) && l in db.leases && Live(db.leases[l]) && db.leases[l].status != Answered
    ensures NoneAnswered(db, db.leases[l].items)
  {
    forall i | i in db.leases[l].items && i in db.items ensures db.items[i].status != Responded {
      assert Holds(db, l, i);
    }
  }

  /** Prudent callers are disciplined. */
  lemma PrudentIsDisciplined(db: Db, step: Step)
    requires Invariant(db) && Prudent(db, step)
    ensures Disciplined(db, step)
  {
    match step
    case Restrict(l, visible) =>
      if RestrictTx(db, l, visible).Ok? { NotAnsweredHasNoResponses(db, l); }
    case RespondRows(l) =>
      if l in db.leases { AnsweredHasRowsAnswered(db, l); }
    case _ =>
  }

  // ----- Every transaction keeps the tables well formed --------------------------------------

  lemma InsertWellFormed(db: Db, id: AttentionId, cursor: int, priority: int, critical: bool, dependency: nat)
    requires WellFormed(db)
    ensures WellFormed(Insert(db, id, cursor, priority, critical, dependency))
  {
    var db' := Insert(db, id, cursor, priority, critical, dependency);
    if id !in db.items {
      forall k, i
        ensures AtSequence(db'.items, k, i) == if i == id then k == Next(db) else AtSequence(db.items, k, i)
      {}
      forall k: nat | 1 <= k < Next(db') ensures Occupied(db'.items, k) {
        if k < Next(db) {
          assert Occupied(db.items, k);
          var i :| i in db.items && AtSequence(db.items, k, i);
          assert AtSequence(db'.items, k, i);
        } else {
          assert AtSequence(db'.items, k, id);
        }
      }
      forall e ensures LiveOf(db', e) == LiveOf(db, e) {}
    }
  }

  lemma GrantWellFormed(db: Db, episode: EpisodeId, limit: int, ttl: int, cap: int, newLease: LeaseId, now: real)
    requires WellFormed(db) && LiveOf(db, episode) == {} && newLease !in db.leases
    ensures WellFormed(Grant(db, episode, limit, ttl, cap, newLease, now).0)
    ensures LiveOf(Grant(db, episode, limit, ttl, cap, newLease, now).0, episode) == {newLease}
  {
    var db' := Grant(db, episode, limit, ttl, cap, newLease, now).0;
    StatusOnlyKeepsSequences(db, db');
    forall e ensures LiveOf(db', e) == if e == episode then {newLease} else LiveOf(db, e) {
      forall l ensures l in LiveOf(db', e) <==> l in (if e == episode then {newLease} else LiveOf(db, e)) {
        if e == episode && l != newLease { assert l !in LiveOf(db, e); }
      }
    }
  }

  lemma NoneLeft(db: Db, episode: EpisodeId)
    ensures LiveOf(AbandonAll(db, LiveOf(db, episode)), episode) == {}
  {}

  lemma LeaseFromWellFormed(db: Db, episode: EpisodeId, limit: int, ttl: int, cap: int, newLease: LeaseId, now: real)
    requires WellFormed(db) && newLease !in db.leases
    ensures WellFormed(LeaseFrom(db, episode, limit, ttl, cap, newLease, now).0)
  {
    if !Reuses(db, episode, cap) {
      Sweep(db, LiveOf(db, episode));
      NoneLeft(db, episode);
      GrantWellFormed(AbandonAll(db, LiveOf(db, episode)), episode, limit, ttl, cap, newLease, now);
    }
  }

  lemma LeaseWellFormed(db: Db, episode: EpisodeId, limit: int, ttl: int, cap: int, newLease: LeaseId, now: real)
    requires WellFormed(db) && newLease !in db.leases
    ensures WellFormed(LeaseTx(db, episode, limit, ttl, cap, newLease, now).0)
  {
    Sweep(db, ExpiredLeases(db, now));
    LeaseFromWellFormed(AbandonAll(db, ExpiredLeases(db, now)), episode, limit, ttl, cap, newLease, now);
  }

  /** No row became live and no row changed its episode. */
  lemma LiveShrinks(db: Db, db': Db)
    requires OneLeasePerEpisode(db)
    requires forall l | l in db'.leases && Live(db'.leases[l]) ::
      l in db.leases && Live(db.leases[l]) && db.leases[l].episode == db'.leases[l].episode
    ensures OneLeasePerEpisode(db')
  {
    forall e, l | l in LiveOf(db', e) ensures l in LiveOf(db, e) {}
  }

  lemma TransitionWellFormed(db: Db, l: LeaseId, expected: LeaseStatus, to: LeaseStatus)
    requires WellFormed(db)
    requires expected in {Open, Placed}
    ensures WellFormed(Or(Transition(db, l, expected, to), db))
  {
    LiveShrinks(db, Or(Transition(db, l, expected, to), db));
  }

  lemma SovereignOnlyWellFormed(db: Db, row: Option<Sovereign>)
    requires WellFormed(db)
    ensures WellFormed(db.(sovereign := row))
  {
    LiveShrinks(db, db.(sovereign := row));
  }

  lemma EndWellFormed(db: Db, episode: EpisodeId, row: Option<Sovereign>)
    requires WellFormed(db)
    ensures WellFormed(AbandonAll(db, LiveOf(db, episode)).(sovereign := row))
  {
    Sweep(db, LiveOf(db, episode));
    SovereignOnlyWellFormed(AbandonAll(db, LiveOf(db, episode)), row);
  }

  lemma RestrictWellFormed(db: Db, l: LeaseId, visible: set<AttentionId>)
    requires WellFormed(db)
    ensures WellFormed(Or(RestrictTx(db, l, visible), db))
  {
    StatusOnlyKeepsSequences(db, Or(RestrictTx(db, l, visible), db));
    LiveShrinks(db, Or(RestrictTx(db, l, visible), db));
  }

  lemma ContiguousBelowNext(db: Db, k: nat)
    requires Sequenced(db) && k < Next(db)
    ensures k <= Contiguous(db, k) < Next(db)
    ensures forall s: nat | k < s <= Contiguous(db, k) :: AcknowledgedAt(db.items, s)
    ensures !AcknowledgedAt(db.items, Contiguous(db, k) + 1)
    decreases Next(db) - k
  {
    if AcknowledgedAt(db.items, k + 1) { ContiguousBelowNext(db, k + 1); }
  }

  lemma AckRowsWellFormed(db: Db, l: LeaseId, through: Option<int>, ids: set<AttentionId>)
    requires WellFormed(db) && l in db.leases
    ensures WellFormed(AckRows(db, l, through, ids))
  {
    var rows := AckRows(db, l, through, ids);
    StatusOnlyKeepsSequences(db, rows);
    LiveShrinks(db, rows);
  }

  lemma MoveHeadWellFormed(db: Db, k: nat)
    requires WellFormed(db) && k < Next(db)
    ensures WellFormed(MoveHead(db, k))
  {
    StatusOnlyKeepsSequences(db, MoveHead(db, k));
    LiveShrinks(db, MoveHead(db, k));
  }

  lemma AckWellFormed(db: Db, l: LeaseId, through: Option<int>, ids: set<AttentionId>)
    requires WellFormed(db)
    ensures WellFormed(Or(AckTx(db, l, through, ids), db))
  {
    if AckError(db, l, through, ids).None? {
      var rows := AckRows(db, l, through, ids);
      AckRowsWellFormed(db, l, through, ids);
      ContiguousBelowNext(rows, AcknowledgedCursor(rows));
      MoveHeadWellFormed(rows, Contiguous(rows, AcknowledgedCursor(rows)));
    }
  }

  lemma RespondWellFormed(db: Db, l: LeaseId)
    requires WellFormed(db)
    ensures WellFormed(RespondItems(db, l))
  {
    StatusOnlyKeepsSequences(db, RespondItems(db, l));
    LiveShrinks(db, RespondItems(db, l));
  }

  /** A sovereign transaction rewrites its own row and at most abandons the old episode's leases. */
  ghost predicate SovereignStep(db: Db, db': Db) {
    || db' == db.(sovereign := db'.sovereign)
    || (db.sovereign.Some?
        && db' == AbandonAll(db, LiveOf(db, db.sovereign.value.episode)).(sovereign := db'.sovereign))
  }

  lemma SovereignStepWellFormed(db: Db, db': Db)
    requires WellFormed(db) && SovereignStep(db, db')
    ensures WellFormed(db')
  {
    if db' == db.(sovereign := db'.sovereign) { SovereignOnlyWellFormed(db, db'.sovereign); }
    else { EndWellFormed(db, db.sovereign.value.episode, db'.sovereign); }
  }

  /** Every transaction, disciplined or not, keeps the sequences exactly 1..next-1 and one live lease
      per episode. */
  lemma ApplyWellFormed(db: Db, e: Event)
    requires WellFormed(db)
    ensures WellFormed(Apply(db, e))
  {
    match e.step
    case Enqueue(id, cursor, priority, critical, dependency) =>
      InsertWellFormed(db, id, cursor, priority, critical, dependency);
    case LeaseFor(episode, limit, ttl, cap, newLease) =>
      if newLease !in db.leases { LeaseWellFormed(db, episode, limit, ttl, cap, newLease, e.now); }
    case Place(l) => TransitionWellFormed(db, l, Open, Placed);
    case Restrict(l, visible) => RestrictWellFormed(db, l, visible);
    case RespondLease(l) => TransitionWellFormed(db, l, Placed, Answered);
    case RespondRows(l) => RespondWellFormed(db, l);
    case Acknowledge(l, through, ids) => AckWellFormed(db, l, through, ids);
    case Abandon(l) => Sweep(db, {l});
    case Acquire(_, _, _, _, _) => SovereignStepWellFormed(db, Apply(db, e));
    case Renew(_, _, _, _) => SovereignStepWellFormed(db, Apply(db, e));
    case ReadSovereign => SovereignStepWellFormed(db, Apply(db, e));
    case Release(_, _) => SovereignStepWellFormed(db, Apply(db, e));
    case Cancel => SovereignStepWellFormed(db, Apply(db, e));
  }

  // ----- Every lease's cursor is the last sequence it holds -----------------------------------

  lemma SameLeasesKeepThrough(db: Db, db': Db)
    requires ThroughExact(db) && LinksResolve(db)
    requires forall i | i in db.items :: i in db'.items && db'.items[i].sequence == db.items[i].sequence
    requires forall l | l in db'.leases ::
      l in db.leases && db'.leases[l].items == db.leases[l].items && db'.leases[l].through == db.leases[l].through
    ensures ThroughExact(db')
  {
    forall l | l in db'.leases ensures Through(db'.items, db'.leases[l].items) == db'.leases[l].through {
      assert Sequences(db'.items, db.leases[l].items) == Sequences(db.items, db.leases[l].items);
    }
  }

  lemma GrantThroughExact(db: Db, episode: EpisodeId, limit: int, ttl: int, cap: int, newLease: LeaseId, now: real)
    requires WellFormed(db) && ThroughExact(db)
    ensures ThroughExact(Grant(db, episode, limit, ttl, cap, newLease, now).0)
  {
    var db' := Grant(db, episode, limit, ttl, cap, newLease, now).0;
    forall l | l in db'.leases ensures Through(db'.items, db'.leases[l].items) == db'.leases[l].through {
      StatusOnlyKeepsThrough(db.items, db'.items, db'.leases[l].items);
    }
  }

  lemma LeaseThroughExact(db: Db, episode: EpisodeId, limit: int, ttl: int, cap: int, newLease: LeaseId, now: real)
    requires WellFormed(db) && ThroughExact(db)
    ensures ThroughExact(LeaseTx(db, episode, limit, ttl, cap, newLease, now).0)
  {
    hide Sequenced, OneLeasePerEpisode, ThroughExact, Grant;
    var swept := AbandonAll(db, ExpiredLeases(db, now));
    Sweep(db, ExpiredLeases(db, now));
    SameLeasesKeepThrough(db, swept);
    if !Reuses(swept, episode, cap) {
      var cleared := AbandonAll(swept, LiveOf(swept, episode));
      Sweep(swept, LiveOf(swept, episode));
      SameLeasesKeepThrough(swept, cleared);
      GrantThroughExact(cleared, episode, limit, ttl, cap, newLease, now);
    }
  }

  lemma RestrictThroughExact(db: Db, l: LeaseId, visible: set<AttentionId>)
    requires WellFormed(db) && ThroughExact(db)
    ensures ThroughExact(Or(RestrictTx(db, l, visible), db))
  {
    var db' := Or(RestrictTx(db, l, visible), db);
    forall m | m in db'.leases ensures Through(db'.items, db'.leases[m].items) == db'.leases[m].through {
      StatusOnlyKeepsThrough(db.items, db'.items, db'.leases[m].items);
    }
  }

  lemma AckThroughExact(db: Db, l: LeaseId, through: Option<int>, ids: set<AttentionId>)
    requires WellFormed(db) && ThroughExact(db)
    ensures ThroughExact(Or(AckTx(db, l, through, ids), db))
  {
    if AckError(db, l, through, ids).None? { SameLeasesKeepThrough(db, AckRows(db, l, through, ids)); }
  }

  lemma SovereignThroughExact(db: Db, db': Db)
    requires WellFormed(db) && ThroughExact(db) && SovereignStep(db, db')
    ensures ThroughExact(db')
  {
    SameLeasesKeepThrough(db, db');
  }

  lemma ApplyThroughExact(db: Db, e: Event)
    requires WellFormed(db) && ThroughExact(db)
    ensures ThroughExact(Apply(db, e))
  {
    hide ThroughExact, Sequenced, OneLeasePerEpisode;
    match e.step
    case LeaseFor(episode, limit, ttl, cap, newLease) =>
      if newLease !in db.leases { LeaseThroughExact(db, episode, limit, ttl, cap, newLease, e.now); }
    case Restrict(l, visible) => RestrictThroughExact(db, l, visible);
    case Acknowledge(l, through, ids) => AckThroughExact(db, l, through, ids);
    case Enqueue(_, _, _, _, _) => SameLeasesKeepThrough(db, Apply(db, e));
    case Place(_) => SameLeasesKeepThrough(db, Apply(db, e));
    case RespondLease(_) => SameLeasesKeepThrough(db, Apply(db, e));
    case RespondRows(_) => SameLeasesKeepThrough(db, Apply(db, e));
    case Abandon(_) => SameLeasesKeepThrough(db, Apply(db, e));
    case Acquire(_, _, _, _, _) => SovereignThroughExact(db, Apply(db, e));
    case Renew(_, _, _, _) => SovereignThroughExact(db, Apply(db, e));
    case ReadSovereign => SovereignThroughExact(db, Apply(db, e));
    case Release(_, _) => SovereignThroughExact(db, Apply(db, e));
    case Cancel => SovereignThroughExact(db, Apply(db, e));
  }

  // ----- Disciplined transactions keep the invariant -----------------------------------------

  lemma InsertKeeps(db: Db, id: AttentionId, cursor: int, priority: int, critical: bool, dependency: nat)
    requires Invariant(db)
    ensures Invariant(Insert(db, id, cursor, priority, critical, dependency))
  {
    var db' := Insert(db, id, cursor, priority, critical, dependency);
    InsertWellFormed(db, id, cursor, priority, critical, dependency);
    if id !in db.items {
      assert forall l, i :: Holds(db', l, i) == Holds(db, l, i);
      forall i | i in db'.items && InFlight(db'.items[i]) ensures Owned(db', i) {
        assert Owned(db, i);
        var l :| Holds(db, l, i);
        assert Holds(db', l, i);
      }
    }
  }

  lemma AbandonOwnership(db: Db, ls: set<LeaseId>)
    requires Ownership(db)
    requires forall l | l in ls && l in db.leases :: Live(db.leases[l])
    ensures Ownership(AbandonAll(db, ls))
  {
    var db' := AbandonAll(db, ls);
    forall l, i ensures Holds(db', l, i) == (Holds(db, l, i) && l !in ls) {}
    forall l, i | Holds(db', l, i) ensures i !in LinkedTo(db.leases, ls) {
      forall m | m in ls && m in db.leases ensures i !in db.leases[m].items {
        assert Holds(db, l, i) && !Holds(db, m, i);
      }
    }
    forall i | i in db'.items && InFlight(db'.items[i]) ensures Owned(db', i) {
      assert i !in LinkedTo(db.leases, ls);
      assert Owned(db, i);
      var l :| Holds(db, l, i);
      assert Holds(db', l, i);
    }
  }

  lemma LiveItemsInFlight(db: Db, ls: set<LeaseId>)
    requires LeasesHoldInFlight(db)
    requires forall l | l in ls && l in db.leases :: Live(db.leases[l])
    ensures forall i | i in LinkedTo(db.leases, ls) :: i in db.items && InFlight(db.items[i])
  {
    forall i | i in LinkedTo(db.leases, ls) ensures i in db.items && InFlight(db.items[i]) {
      var l :| l in ls && l in db.leases && i in db.leases[l].items;
      assert Holds(db, l, i);
    }
  }

  /** Abandoning live leases returns exactly what they held to the queue. */
  lemma AbandonKeeps(db: Db, ls: set<LeaseId>)
    requires Invariant(db)
    requires forall l | l in ls && l in db.leases :: Live(db.leases[l])
    ensures Invariant(AbandonAll(db, ls))
    ensures forall i | i in db.items ::
      AbandonAll(db, ls).items[i].status == if i in LinkedTo(db.leases, ls) then Queued else db.items[i].status
  {
    Sweep(db, ls);
    AbandonOwnership(db, ls);
    LiveItemsInFlight(db, ls);
  }

  /** Queued items handed to one fresh lease get exactly that owner. */
  lemma HandOver(db: Db, db': Db, newLease: LeaseId, ids: set<AttentionId>)
    requires Ownership(db) && newLease !in db.leases
    requires forall i | i in ids :: i in db.items && db.items[i].status == Queued
    requires db'.items == Update(db.items, ids, ANY, Leased)
    requires newLease in db'.leases && db'.leases == db.leases[newLease := db'.leases[newLease]]
    requires Live(db'.leases[newLease]) && db'.leases[newLease].items == ids
    ensures Ownership(db')
  {
    forall l, i ensures Holds(db', l, i) == if l == newLease then i in ids else Holds(db, l, i) {}
    forall i | i in db'.items && InFlight(db'.items[i]) ensures Owned(db', i) {
      if i in ids { assert Holds(db', newLease, i); }
      else {
        assert Owned(db, i);
        var l :| Holds(db, l, i);
        assert Holds(db', l, i);
      }
    }
  }

  lemma GrantCursor(db: Db, episode: EpisodeId, limit: int, ttl: int, cap: int, newLease: LeaseId, now: real)
    requires WellFormed(db) && CursorExact(db)
    ensures CursorExact(Grant(db, episode, limit, ttl, cap, newLease, now).0)
  {
    hide OneLeasePerEpisode, LinksResolve, Through, BelowBarrier;
    var db' := Grant(db, episode, limit, ttl, cap, newLease, now).0;
    forall i | i in db.items && db.items[i].status == Acknowledged ensures db'.items[i] == db.items[i] {}
  }

  lemma GrantOwnership(db: Db, episode: EpisodeId, limit: int, ttl: int, cap: int, newLease: LeaseId, now: real)
    requires WellFormed(db) && Ownership(db) && newLease !in db.leases
    ensures Ownership(Grant(db, episode, limit, ttl, cap, newLease, now).0)
  {
    var db' := Grant(db, episode, limit, ttl, cap, newLease, now).0;
    HandOver(db, db', newLease, db'.leases[newLease].items);
  }

  lemma GrantKeeps(db: Db, episode: EpisodeId, limit: int, ttl: int, cap: int, newLease: LeaseId, now: real)
    requires Invariant(db) && LiveOf(db, episode) == {} && newLease !in db.leases
    ensures Invariant(Grant(db, episode, limit, ttl, cap, newLease, now).0)
  {
    hide Grant, Sequenced, OneLeasePerEpisode, LinksResolve, LeasesHoldInFlight, OneOwner, InFlightIsOwned, LiveOf;
    GrantWellFormed(db, episode, limit, ttl, cap, newLease, now);
    GrantOwnership(db, episode, limit, ttl, cap, newLease, now);
    GrantCursor(db, episode, limit, ttl, cap, newLease, now);
  }

  lemma LeaseFromKeeps(db: Db, episode: EpisodeId, limit: int, ttl: int, cap: int, newLease: LeaseId, now: real)
    requires Invariant(db) && newLease !in db.leases
    ensures Invariant(LeaseFrom(db, episode, limit, ttl, cap, newLease, now).0)
  {
    if !Reuses(db, episode, cap) {
      AbandonKeeps(db, LiveOf(db, episode));
      NoneLeft(db, episode);
      GrantKeeps(AbandonAll(db, LiveOf(db, episode)), episode, limit, ttl, cap, newLease, now);
    }
  }

  lemma LeaseKeeps(db: Db, episode: EpisodeId, limit: int, ttl: int, cap: int, newLease: LeaseId, now: real)
    requires Invariant(db) && newLease !in db.leases
    ensures Invariant(LeaseTx(db, episode, limit, ttl, cap, newLease, now).0)
  {
    AbandonKeeps(db, ExpiredLeases(db, now));
    LeaseFromKeeps(AbandonAll(db, ExpiredLeases(db, now)), episode, limit, ttl, cap, newLease, now);
  }

  /** Moving a live lease on, without touching items, keeps the invariant. */
  lemma TransitionKeeps(db: Db, l: LeaseId, expected: LeaseStatus, to: LeaseStatus)
    requires Invariant(db)
    requires expected in {Open, Placed} && to in {Placed, Answered}
    ensures Invariant(Or(Transition(db, l, expected, to), db))
  {
    TransitionWellFormed(db, l, expected, to);
    var db' := Or(Transition(db, l, expected, to), db);
    forall m, i ensures Holds(db', m, i) == Holds(db, m, i) {}
    forall i | i in db'.items && InFlight(db'.items[i]) ensures Owned(db', i) {
      assert Owned(db, i);
      var m :| Holds(db, m, i);
      assert Holds(db', m, i);
    }
  }

  lemma RestrictKeeps(db: Db, l: LeaseId, visible: set<AttentionId>)
    requires Invariant(db)
    requires RestrictTx(db, l, visible).Ok? ==> NoneAnswered(db, db.leases[l].items - visible)
    ensures Invariant(Or(RestrictTx(db, l, visible), db))
  {
    var db' := Or(RestrictTx(db, l, visible), db);
    RestrictWellFormed(db, l, visible);
    if RestrictTx(db, l, visible).Ok? {
      var omitted := db.leases[l].items - visible;
      forall i | i in omitted ensures i in db.items && db.items[i].status == Leased { assert Holds(db, l, i); }
      forall m, i ensures Holds(db', m, i) == (Holds(db, m, i) && !(m == l && i in omitted)) {}
      forall m, i | Holds(db', m, i) ensures i !in omitted {
        assert Holds(db, m, i) && (i in omitted ==> Holds(db, l, i));
      }
      forall i | i in db'.items && InFlight(db'.items[i]) ensures Owned(db', i) {
        assert Owned(db, i);
        var m :| Holds(db, m, i);
        assert Holds(db', m, i);
      }
    }
  }

  lemma RespondKeeps(db: Db, l: LeaseId)
    requires Invariant(db)
    requires l in db.leases ==> RowsAnswered(db, l)
    ensures Invariant(RespondItems(db, l))
  {
    var db' := RespondItems(db, l);
    RespondWellFormed(db, l);
    if l in db.leases {
      forall m, i ensures Holds(db', m, i) == Holds(db, m, i) {}
      forall m, i | Holds(db', m, i) && i in db.leases[l].items ensures db.leases[m].status == Answered {
        assert HeldByAnswered(db, i);
        var n :| Holds(db, n, i) && db.leases[n].status == Answered;
        assert Holds(db, m, i);
      }
      forall i | i in db.leases[l].items ensures i in db.items && InFlight(db.items[i]) {
        assert HeldByAnswered(db, i);
      }
      forall i | i in db'.items && InFlight(db'.items[i]) ensures Owned(db', i) {
        assert InFlight(db.items[i]);
        assert Owned(db, i);
        var m :| Holds(db, m, i);
        assert Holds(db', m, i);
      }
    }
  }

  /** The loop of `acknowledge` ends exactly at the longest acknowledged prefix, because it starts
      at one and no acknowledgement is ever taken back. */
  lemma AckCursor(rows: Db, k: nat)
    requires Sequenced(rows) && k < Next(rows)
    requires k == AcknowledgedCursor(rows)
    requires forall i | i in rows.items && rows.items[i].sequence <= k :: rows.items[i].status == Acknowledged
    ensures CursorExact(MoveHead(rows, Contiguous(rows, k)))
  {
    ContiguousBelowNext(rows, k);
    var c := Contiguous(rows, k);
    forall i | i in rows.items && rows.items[i].sequence <= c ensures rows.items[i].status == Acknowledged {
      if k < rows.items[i].sequence {
        assert AcknowledgedAt(rows.items, rows.items[i].sequence);
        var j :| j in rows.items && rows.items[j].status == Acknowledged
                 && AtSequence(rows.items, rows.items[i].sequence, j);
        assert AtSequence(rows.items, rows.items[i].sequence, i);
      }
    }
    if rows.head.None? {
      assert c == k == 0;
    }
  }

  lemma AckRowsOwnership(db: Db, l: LeaseId, through: Option<int>, ids: set<AttentionId>)
    requires WellFormed(db) && Ownership(db) && l in db.leases
    requires !Live(db.leases[l]) ==> NothingInFlight(db, l)
    ensures Ownership(AckRows(db, l, through, ids))
  {
    var db' := AckRows(db, l, through, ids);
    var linked := db.leases[l].items;
    forall m, i ensures Holds(db', m, i) == (Holds(db, m, i) && m != l) {}
    forall m, i | Holds(db, m, i) && i in linked ensures m == l {
      assert Holds(db, l, i);
    }
    forall i | i in db'.items && InFlight(db'.items[i]) ensures Owned(db', i) {
      assert i !in linked;
      assert Owned(db, i);
      var m :| Holds(db, m, i);
      assert Holds(db', m, i);
    }
  }

  lemma OwnershipIgnoresHead(db: Db, db': Db)
    requires Ownership(db) && db'.items == db.items && db'.leases == db.leases
    ensures Ownership(db')
  {
    forall m, i ensures Holds(db', m, i) == Holds(db, m, i) {}
    forall i | i in db'.items && InFlight(db'.items[i]) ensures Owned(db', i) {
      assert Owned(db, i);
      var m :| Holds(db, m, i);
      assert Holds(db', m, i);
    }
  }

  /** An acknowledgement never takes an earlier one back. */
  lemma AckRowsKeepAcknowledged(db: Db, l: LeaseId, through: Option<int>, ids: set<AttentionId>)
    requires l in db.leases
    ensures forall i | i in db.items && db.items[i].status == Acknowledged ::
      AckRows(db, l, through, ids).items[i] == db.items[i]
  {}

  lemma AckCursorExact(db: Db, l: LeaseId, through: Option<int>, ids: set<AttentionId>)
    requires WellFormed(db) && CursorExact(db) && AckError(db, l, through, ids).None?
    ensures CursorExact(AckTx(db, l, through, ids).value)
  {
    var rows := AckRows(db, l, through, ids);
    StatusOnlyKeepsSequences(db, rows);
    AckRowsKeepAcknowledged(db, l, through, ids);
    AckCursor(rows, AcknowledgedCursor(rows));
  }

  lemma AckKeeps(db: Db, l: LeaseId, through: Option<int>, ids: set<AttentionId>)
    requires Invariant(db)
    requires AckError(db, l, through, ids).None? ==> db.leases[l].status == Answered || NothingInFlight(db, l)
    ensures Invariant(Or(AckTx(db, l, through, ids), db))
  {
    AckWellFormed(db, l, through, ids);
    if AckError(db, l, through, ids).None? {
      AckCursorExact(db, l, through, ids);
      AckRowsOwnership(db, l, through, ids);
      OwnershipIgnoresHead(AckRows(db, l, through, ids), AckTx(db, l, through, ids).value);
    }
  }

  /** Rows that no in-flight item belongs to: abandoning their dead lease again changes nothing. */
  lemma AbandonDeadIsNoop(db: Db, l: LeaseId)
    requires WellFormed(db) && l in db.leases && !Live(db.leases[l]) && NothingInFlight(db, l)
    ensures AbandonAll(db, {l}) == db
  {
    forall i | i in LinkedTo(db.leases, {l}) ensures i in db.leases[l].items {}
    assert AbandonAll(db, {l}).items == db.items;
    assert AbandonAll(db, {l}).leases == db.leases;
  }

  lemma SovereignStepKeeps(db: Db, db': Db)
    requires Invariant(db) && SovereignStep(db, db')
    ensures Invariant(db')
  {
    SovereignStepWellFormed(db, db');
    if db' == db.(sovereign := db'.sovereign) { OwnershipIgnoresHead(db, db'); }
    else {
      AbandonKeeps(db, LiveOf(db, db.sovereign.value.episode));
      OwnershipIgnoresHead(AbandonAll(db, LiveOf(db, db.sovereign.value.episode)), db');
    }
  }

  /** Every disciplined transaction keeps the invariant. */
  lemma ApplyKeeps(db: Db, e: Event)
    requires Invariant(db) && Disciplined(db, e.step)
    ensures Invariant(Apply(db, e))
  {
    match e.step
    case Enqueue(id, cursor, priority, critical, dependency) =>
      InsertKeeps(db, id, cursor, priority, critical, dependency);
    case LeaseFor(episode, limit, ttl, cap, newLease) =>
      if newLease !in db.leases { LeaseKeeps(db, episode, limit, ttl, cap, newLease, e.now); }
    case Place(l) => TransitionKeeps(db, l, Open, Placed);
    case Restrict(l, visible) => RestrictKeeps(db, l, visible);
    case RespondLease(l) => TransitionKeeps(db, l, Placed, Answered);
    case RespondRows(l) => RespondKeeps(db, l);
    case Acknowledge(l, through, ids) => AckKeeps(db, l, through, ids);
    case Abandon(l) =>
      if l in db.leases {
        if Live(db.leases[l]) { AbandonKeeps(db, {l}); } else { AbandonDeadIsNoop(db, l); }
      }
    case Acquire(_, _, _, _, _) => SovereignStepKeeps(db, Apply(db, e));
    case Renew(_, _, _, _) => SovereignStepKeeps(db, Apply(db, e));
    case ReadSovereign => SovereignStepKeeps(db, Apply(db, e));
    case Release(_, _) => SovereignStepKeeps(db, Apply(db, e));
    case Cancel => SovereignStepKeeps(db, Apply(db, e));
  }
}
