/** What each transaction does to the tables, said row by row and field by field. */
module AttentionEffects {
  import opened Wrappers
  import opened AttentionModel
  import opened AttentionRuns
  import opened AttentionTheorems

  // ----- Rows in plain words -----------------------------------------------------------------

  /** Handed out, placed or answered, and neither acknowledged nor abandoned. */
  ghost predicate InUse(lease: Lease) {
    lease.status == Open || lease.status == Placed || lease.status == Answered
  }

  /** Critical items first, then the higher priority, then the earlier sequence. */
  ghost predicate Sooner(a: Item, b: Item) {
    || (a.critical && !b.critical)
    || (a.critical == b.critical && a.priority > b.priority)
    || (a.critical == b.critical && a.priority == b.priority && a.sequence < b.sequence)
  }

  /** No item that is unpublished at the cap has this sequence or an earlier one. */
  ghost predicate Clear(db: Db, cap: int, sequence: nat) {
    forall i | i in db.items && db.items[i].cursor > cap :: sequence < db.items[i].sequence
  }

  /** The item is in flight in one of these leases. */
  ghost predicate FlightOf(db: Db, ls: set<LeaseId>, i: AttentionId) {
    && i in db.items && (db.items[i].status == Leased || db.items[i].status == Responded)
    && exists l | l in ls && l in db.leases :: i in db.leases[l].items
  }

  /** These leases are closed, what they had in flight is back in the queue, and no other row changed. */
  ghost predicate Reclaims(db: Db, db': Db, ls: set<LeaseId>) {
    && db'.items.Keys == db.items.Keys && db'.leases.Keys == db.leases.Keys && db'.head == db.head
    && (forall l | l in db.leases ::
          db'.leases[l] == if l in ls then db.leases[l].(status := Abandoned) else db.leases[l])
    && (forall i | i in db.items ::
          db'.items[i] == if FlightOf(db, ls, i) then db.items[i].(status := Queued) else db.items[i])
  }

  /** `last` is the highest sequence among these items, or zero when there are none. */
  ghost predicate LastOf(items: map<AttentionId, Item>, ids: set<AttentionId>, last: nat) {
    && (forall i | i in ids && i in items :: items[i].sequence <= last)
    && (last == 0 || exists i | i in ids && i in items :: items[i].sequence == last)
  }

  /** A time to live of less than 30 seconds counts as 30, of more than an hour as an hour. */
  ghost predicate Lasts(ttl: int, now: real, expires: real) {
    && (ttl < 30 ==> expires == now + 30.0)
    && (ttl > 3600 ==> expires == now + 3600.0)
    && (30 <= ttl <= 3600 ==> expires == now + ttl as real)
  }

  lemma AbandonReclaims(db: Db, ls: set<LeaseId>)
    requires forall l | l in ls && l in db.leases :: InUse(db.leases[l])
    ensures Reclaims(db, AbandonAll(db, ls), ls) && AbandonAll(db, ls).sovereign == db.sovereign
  {
    var db' := AbandonAll(db, ls);
    forall i | i in db.items ensures FlightOf(db, ls, i) <==> i in LinkedTo(db.leases, ls) && InFlight(db.items[i]) {}
    forall l | l in db.leases ensures l in ls ==> Live(db.leases[l]) {}
  }

  // ----- Enqueueing --------------------------------------------------------------------------

  /** One more queued item with the next sequence and what the caller said of it, the priority kept within 0
      and 100; the next sequence moves on and nothing else changes. */
  lemma EnqueueEffect(db: Db, id: AttentionId, cursor: int, priority: int, critical: bool, dependency: nat)
    requires id !in db.items
    ensures var db' := Insert(db, id, cursor, priority, critical, dependency);
      && db'.items.Keys == db.items.Keys + {id} && (forall i | i in db.items :: db'.items[i] == db.items[i])
      && db'.items[id].sequence == (if db.head.Some? then db.head.value.next else 1)
      && db'.items[id].cursor == cursor && db'.items[id].critical == critical
      && db'.items[id].dependency == dependency && db'.items[id].status == Queued
      && (priority < 0 ==> db'.items[id].priority == 0) && (priority > 100 ==> db'.items[id].priority == 100)
      && (0 <= priority <= 100 ==> db'.items[id].priority == priority)
      && db'.head.Some? && db'.head.value.next == db'.items[id].sequence + 1
      && db'.head.value.acknowledged == (if db.head.Some? then db.head.value.acknowledged else 0)
      && db'.leases == db.leases && db'.sovereign == db.sovereign
  {}

  // ----- Leasing -----------------------------------------------------------------------------

  ghost function Overdue(db: Db, now: real): set<LeaseId> {
    set l | l in db.leases && InUse(db.leases[l]) && db.leases[l].expires <= now
  }

  /** The item is in the queue once these leases are closed, and nothing unpublished comes before it. */
  ghost predicate Waits(db: Db, cap: int, ls: set<LeaseId>, i: AttentionId) {
    && i in db.items && (db.items[i].status == Queued || FlightOf(db, ls, i))
    && Clear(db, cap, db.items[i].sequence)
  }

  /** The lease of the episode that is still in time is handed out again: all it holds is published with nothing
      unpublished before it, and if it was answered nothing waits that could be delivered instead. */
  ghost predicate HandsOutAgain(db: Db, episode: EpisodeId, cap: int, now: real, l: LeaseId) {
    && l in db.leases && InUse(db.leases[l]) && db.leases[l].episode == episode && db.leases[l].expires > now
    && (forall i | i in db.leases[l].items && i in db.items ::
          db.items[i].cursor <= cap && Clear(db, cap, db.items[i].sequence))
    && (db.leases[l].status == Answered ==> forall i :: !Waits(db, cap, Overdue(db, now), i))
  }

  /** What a fresh lease replaces: overdue leases, and those of the episode. */
  ghost function Replaced(db: Db, episode: EpisodeId, now: real): set<LeaseId> {
    set l | l in db.leases && InUse(db.leases[l]) && (db.leases[l].expires <= now || db.leases[l].episode == episode)
  }

  /** Each row once, in delivery order. */
  ghost predicate InDeliveryOrder(items: map<AttentionId, Item>, rows: seq<AttentionId>) {
    forall a, b | 0 <= a < b < |rows| ::
      rows[a] in items && rows[b] in items && Sooner(items[rows[a]], items[rows[b]])
  }

  /** `rows` are items that wait, in delivery order, as many as the limit (at least 1, at most 64) allows,
      and none of them comes behind one left waiting. */
  ghost predicate FirstWaiting(db: Db, cap: int, ls: set<LeaseId>, limit: int, rows: seq<AttentionId>) {
    var pool := set i | i in db.items && Waits(db, cap, ls, i);
    var room := if limit < 1 then 1 else if limit > 64 then 64 else limit;
    && |rows| == (if |pool| < room then |pool| else room)
    && (forall i | i in rows :: i in pool)
    && InDeliveryOrder(db.items, rows)
    && (forall i, j | i in rows && j in pool && j !in rows :: i in db.items && Sooner(db.items[i], db.items[j]))
  }

  /** The tables after a fresh lease `l` of these rows. */
  ghost predicate Leases(db: Db, db': Db, episode: EpisodeId, ttl: int, now: real, ls: set<LeaseId>, l: LeaseId,
                         rows: seq<AttentionId>)
  {
    && db'.leases.Keys == db.leases.Keys + {l} && db'.items.Keys == db.items.Keys
    && db'.head == db.head && db'.sovereign == db.sovereign
    && (forall m | m in db.leases ::
          db'.leases[m] == if m in ls then db.leases[m].(status := Abandoned) else db.leases[m])
    && db'.leases[l].episode == episode && db'.leases[l].status == Open && Lasts(ttl, now, db'.leases[l].expires)
    && (forall i :: i in db'.leases[l].items <==> i in rows)
    && LastOf(db.items, db'.leases[l].items, db'.leases[l].through)
    && (forall i | i in db.items :: db'.items[i] ==
          if i in rows then db.items[i].(status := Leased)
          else if FlightOf(db, ls, i) then db.items[i].(status := Queued) else db.items[i])
  }

  lemma OrderIsSooner(a: Item, b: Item)
    ensures Before(a, b) <==> Sooner(a, b)
  {}

  lemma SweptItems(db: Db, db': Db, ls: set<LeaseId>)
    requires Reclaims(db, db', ls)
    ensures db'.items.Keys == db.items.Keys
    ensures forall i | i in db.items ::
      db'.items[i].cursor == db.items[i].cursor && db'.items[i].sequence == db.items[i].sequence
      && db'.items[i].critical == db.items[i].critical && db'.items[i].priority == db.items[i].priority
    ensures forall i | i in db.items :: db'.items[i].status == Queued <==>
      db.items[i].status == Queued || FlightOf(db, ls, i)
  {}

  lemma ClearAlike(db: Db, db': Db, ls: set<LeaseId>, cap: int, sequence: nat)
    requires Reclaims(db, db', ls)
    ensures BelowBarrier(db'.items, cap, sequence) <==> Clear(db, cap, sequence)
  {
    hide FlightOf;
    SweptItems(db, db', ls);
    if Clear(db, cap, sequence) {
      forall i | i in db'.items && db'.items[i].cursor > cap ensures sequence < db'.items[i].sequence {
        assert db.items[i].cursor > cap;
      }
    }
    if BelowBarrier(db'.items, cap, sequence) {
      forall i | i in db.items && db.items[i].cursor > cap ensures sequence < db.items[i].sequence {
        assert db'.items[i].cursor > cap;
      }
    }
  }

  /** What may be delivered once these leases are closed. */
  lemma DeliverableWaits(db: Db, db': Db, ls: set<LeaseId>, cap: int)
    requires Reclaims(db, db', ls)
    ensures Deliverable(db', cap) == set i | i in db.items && Waits(db, cap, ls, i)
  {
    SweptItems(db, db', ls);
    forall i | i in db.items
      ensures BelowBarrier(db'.items, cap, db'.items[i].sequence) <==> Clear(db, cap, db.items[i].sequence)
    {
      ClearAlike(db, db', ls, cap, db.items[i].sequence);
    }
  }

  lemma ReclaimsTwice(a: Db, b: Db, c: Db, ls: set<LeaseId>, ms: set<LeaseId>)
    requires Reclaims(a, b, ls) && Reclaims(b, c, ms)
    ensures Reclaims(a, c, ls + ms)
  {
    forall i | i in a.items ensures FlightOf(a, ls + ms, i) <==> FlightOf(a, ls, i) || FlightOf(b, ms, i) {
      if FlightOf(a, ls + ms, i) && !FlightOf(a, ls, i) {
        var l :| l in ls + ms && l in a.leases && i in a.leases[l].items;
        assert l in b.leases && b.leases[l].items == a.leases[l].items;
      }
      if FlightOf(b, ms, i) {
        var l :| l in ms && l in b.leases && i in b.leases[l].items;
        assert a.leases[l].items == b.leases[l].items;
      }
    }
  }

  lemma SameHolding(db: Db, swept: Db, cap: int, l: LeaseId)
    requires l in db.leases && l in swept.leases && swept.leases[l] == db.leases[l] && swept.items.Keys == db.items.Keys
    requires forall i | i in db.items ::
      && swept.items[i].cursor == db.items[i].cursor
      && (BelowBarrier(swept.items, cap, swept.items[i].sequence) <==> Clear(db, cap, db.items[i].sequence))
    ensures (forall i | i in swept.leases[l].items && i in swept.items ::
               swept.items[i].cursor <= cap && BelowBarrier(swept.items, cap, swept.items[i].sequence))
       <==> (forall i | i in db.leases[l].items && i in db.items ::
               db.items[i].cursor <= cap && Clear(db, cap, db.items[i].sequence))
  {
    hide BelowBarrier, Clear;
  }

  /** Whether the swept tables reuse a lease, in terms of the tables before the sweep. */
  lemma ReuseIsHandingOut(db: Db, swept: Db, episode: EpisodeId, cap: int, now: real)
    requires WellFormed(db) && Reclaims(db, swept, Overdue(db, now))
    ensures forall l | l in swept.leases && l in LiveOf(swept, episode) ::
      Reusable(swept, cap, l) <==> HandsOutAgain(db, episode, cap, now, l)
    ensures forall l :: HandsOutAgain(db, episode, cap, now, l) ==> l in LiveOf(swept, episode)
  {
    hide Sequenced, OneLeasePerEpisode, LinksResolve, FlightOf;
    var ls := Overdue(db, now);
    SweptItems(db, swept, ls);
    DeliverableWaits(db, swept, ls, cap);
    forall l | l in swept.leases && l in LiveOf(swept, episode)
      ensures Reusable(swept, cap, l) <==> HandsOutAgain(db, episode, cap, now, l)
    {
      assert l !in ls && swept.leases[l] == db.leases[l];
      forall i | i in db.items
        ensures BelowBarrier(swept.items, cap, swept.items[i].sequence) <==> Clear(db, cap, db.items[i].sequence)
      {
        ClearAlike(db, swept, ls, cap, db.items[i].sequence);
      }
      SameHolding(db, swept, cap, l);
      assert Deliverable(swept, cap) == {} <==> forall i :: !Waits(db, cap, ls, i) by {
        forall i ensures Waits(db, cap, ls, i) <==> i in Deliverable(swept, cap) {}
      }
    }
  }

  lemma SweepReclaims(db: Db, episode: EpisodeId, now: real)
    ensures var swept := AbandonAll(db, ExpiredLeases(db, now));
      && ExpiredLeases(db, now) == Overdue(db, now)
      && Reclaims(db, swept, Overdue(db, now)) && swept.sovereign == db.sovereign
      && Reclaims(db, AbandonAll(swept, LiveOf(swept, episode)), Replaced(db, episode, now))
      && AbandonAll(swept, LiveOf(swept, episode)).sovereign == db.sovereign
  {
    var swept := AbandonAll(db, ExpiredLeases(db, now));
    assert ExpiredLeases(db, now) == Overdue(db, now);
    AbandonReclaims(db, Overdue(db, now));
    AbandonReclaims(swept, LiveOf(swept, episode));
    ReclaimsTwice(db, swept, AbandonAll(swept, LiveOf(swept, episode)), Overdue(db, now), LiveOf(swept, episode));
    assert Overdue(db, now) + LiveOf(swept, episode) == Replaced(db, episode, now);
  }

  lemma ThroughIsLast(items: map<AttentionId, Item>, ids: set<AttentionId>)
    ensures LastOf(items, ids, Through(items, ids))
  {
    forall i | i in ids && i in items ensures items[i].sequence <= Through(items, ids) {
      assert items[i].sequence in Sequences(items, ids);
    }
  }

  lemma ClampedTtl(ttl: int, now: real)
    ensures Lasts(ttl, now, now + ClampTtl(ttl))
  {}

  /** What a fresh lease does to tables in which no lease is in its way. */
  lemma GrantEffect(db: Db, episode: EpisodeId, limit: int, ttl: int, cap: int, newLease: LeaseId, now: real)
    requires WellFormed(db) && newLease !in db.leases
    ensures var (db', d) := Grant(db, episode, limit, ttl, cap, newLease, now);
      && d.lease == newLease && !d.reused && db'.head == db.head && db'.sovereign == db.sovereign
      && db'.leases == db.leases[newLease := Lease(episode, Ids(d.items), d.through, Open, now + ClampTtl(ttl))]
      && d.through == Through(db.items, Ids(d.items))
      && d.items == Ranked(db.items, Deliverable(db, cap), Clamp(limit, 1, 64))
      && db'.items == Update(db.items, Ids(d.items), ANY, Leased)
  {
    hide BelowBarrier, OneLeasePerEpisode, LinksResolve, Through;
  }

  ghost predicate AlikeButStatus(items: map<AttentionId, Item>, items': map<AttentionId, Item>) {
    items'.Keys == items.Keys && forall i | i in items :: items'[i] == items[i].(status := items'[i].status)
  }

  lemma SweptAlike(db: Db, db': Db, ls: set<LeaseId>)
    requires Reclaims(db, db', ls)
    ensures AlikeButStatus(db.items, db'.items)
  {}

  lemma OrderCarriesOver(items: map<AttentionId, Item>, items': map<AttentionId, Item>, pool: set<AttentionId>,
                         n: nat)
    requires AlikeButStatus(items, items') && pool <= items'.Keys && DistinctSequences(items')
    ensures var rows := Ranked(items', pool, n);
      && InDeliveryOrder(items, rows)
      && forall i, j | i in rows && j in pool && j !in rows :: Sooner(items[i], items[j])
  {
    hide DistinctSequences, Ranked;
    var rows := Ranked(items', pool, n);
    forall i, j | i in items && j in items && Before(items'[i], items'[j]) ensures Sooner(items[i], items[j]) {
      OrderIsSooner(items'[i], items'[j]);
    }
  }

  lemma DeliverableIsStored(db: Db, cap: int)
    ensures Deliverable(db, cap) <= db.items.Keys
  {}

  lemma RankedIsFirst(db: Db, cleared: Db, ls: set<LeaseId>, cap: int, limit: int)
    requires Reclaims(db, cleared, ls) && DistinctSequences(cleared.items)
    ensures FirstWaiting(db, cap, ls, limit, Ranked(cleared.items, Deliverable(cleared, cap), Clamp(limit, 1, 64)))
  {
    hide Waits, DistinctSequences, Reclaims, Deliverable, Ranked, InDeliveryOrder, Sooner;
    DeliverableIsStored(cleared, cap);
    SweptAlike(db, cleared, ls);
    DeliverableWaits(db, cleared, ls, cap);
    OrderCarriesOver(db.items, cleared.items, Deliverable(cleared, cap), Clamp(limit, 1, 64));
  }

  lemma GrantLeases(db: Db, cleared: Db, db': Db, episode: EpisodeId, ttl: int, now: real, ls: set<LeaseId>, l: LeaseId,
                    rows: seq<AttentionId>)
    requires Reclaims(db, cleared, ls) && cleared.sovereign == db.sovereign && l !in db.leases
    requires db'.items == Update(cleared.items, Ids(rows), ANY, Leased)
    requires db'.leases == cleared.leases[l := Lease(episode, Ids(rows), Through(cleared.items, Ids(rows)), Open,
                                                     now + ClampTtl(ttl))]
    requires db'.head == cleared.head && db'.sovereign == cleared.sovereign
    ensures Leases(db, db', episode, ttl, now, ls, l, rows)
  {
    hide FlightOf, Through, Lasts;
    ClampedTtl(ttl, now);
    ThroughIsLast(cleared.items, Ids(rows));
    SweptItems(db, cleared, ls);
    assert LastOf(db.items, Ids(rows), Through(cleared.items, Ids(rows)));
    forall i | i in cleared.items ensures cleared.items[i].status in ANY { AnyStatus(cleared.items[i].status); }
  }

  lemma SweptWellFormed(db: Db, episode: EpisodeId, now: real)
    requires WellFormed(db)
    ensures var swept := AbandonAll(db, ExpiredLeases(db, now));
      && WellFormed(swept) && WellFormed(AbandonAll(swept, LiveOf(swept, episode)))
      && LiveOf(AbandonAll(swept, LiveOf(swept, episode)), episode) == {}
      && forall l | l in LiveOf(swept, episode) :: l in swept.leases && LiveOf(swept, episode) == {l}
  {
    var swept := AbandonAll(db, ExpiredLeases(db, now));
    Sweep(db, ExpiredLeases(db, now));
    Sweep(swept, LiveOf(swept, episode));
    NoneLeft(swept, episode);
  }

  lemma SameLease(db: Db, swept: Db, ls: set<LeaseId>, l: LeaseId)
    requires Reclaims(db, swept, ls) && l in db.leases && l !in ls
    ensures l in swept.leases && swept.leases[l] == db.leases[l]
  {}

  lemma HandedOutRows(db: Db, swept: Db, ls: set<LeaseId>, l: LeaseId)
    requires Reclaims(db, swept, ls) && WellFormed(swept) && l in db.leases && l !in ls
    ensures swept.leases[l].items <= swept.items.Keys
    ensures var rows := Ranked(swept.items, swept.leases[l].items, |swept.leases[l].items|);
      && (forall i :: i in rows <==> i in db.leases[l].items)
      && InDeliveryOrder(db.items, rows)
  {
    hide OneLeasePerEpisode, DistinctSequences, Reclaims, InDeliveryOrder;
    SweptAlike(db, swept, ls);
    SameLease(db, swept, ls, l);
    var held := swept.leases[l].items;
    OrderCarriesOver(db.items, swept.items, held, |held|);
    RankedOrdered(swept.items, held);
    var rows := Ranked(swept.items, held, |held|);
    forall i ensures i in rows <==> i in Ids(rows) {}
  }

  /** The swept tables reuse a lease exactly when one may be handed out again. */
  lemma ReusesIffHandsOut(db: Db, swept: Db, episode: EpisodeId, cap: int, now: real)
    requires WellFormed(db) && Reclaims(db, swept, Overdue(db, now))
    requires forall l | l in LiveOf(swept, episode) :: l in swept.leases && LiveOf(swept, episode) == {l}
    ensures Reuses(swept, episode, cap) <==> exists l :: HandsOutAgain(db, episode, cap, now, l)
    ensures Reuses(swept, episode, cap) ==>
      forall l | l in LiveOf(swept, episode) :: HandsOutAgain(db, episode, cap, now, l)
  {
    hide Sequenced, OneLeasePerEpisode, LinksResolve, HandsOutAgain, Reusable, Reclaims, LiveOf;
    ReuseIsHandingOut(db, swept, episode, cap, now);
    forall l: LeaseId | HandsOutAgain(db, episode, cap, now, l) ensures LiveOf(swept, episode) == {l} {
      assert l in LiveOf(swept, episode);
    }
    if Reuses(swept, episode, cap) {
      var l :| l in LiveOf(swept, episode);
    }
  }

  lemma OnTime(db: Db, episode: EpisodeId, cap: int, now: real, l: LeaseId)
    requires HandsOutAgain(db, episode, cap, now, l)
    ensures l in db.leases && l !in Overdue(db, now)
  {}

  lemma LeaseBySweep(db: Db, episode: EpisodeId, limit: int, ttl: int, cap: int, newLease: LeaseId, now: real)
    requires WellFormed(db) && WellFormed(AbandonAll(db, ExpiredLeases(db, now)))
    ensures LeaseTx(db, episode, limit, ttl, cap, newLease, now)
      == LeaseFrom(AbandonAll(db, ExpiredLeases(db, now)), episode, limit, ttl, cap, newLease, now)
  {
    hide WellFormed, LeaseFrom;
  }

  lemma FreshBySweep(db: Db, episode: EpisodeId, limit: int, ttl: int, cap: int, newLease: LeaseId, now: real)
    requires WellFormed(db) && WellFormed(AbandonAll(db, LiveOf(db, episode))) && !Reuses(db, episode, cap)
    ensures LeaseFrom(db, episode, limit, ttl, cap, newLease, now)
      == Grant(AbandonAll(db, LiveOf(db, episode)), episode, limit, ttl, cap, newLease, now)
  {
    hide WellFormed, Grant, Reuses, AbandonAll;
  }

  lemma ReusedFlag(db: Db, episode: EpisodeId, limit: int, ttl: int, cap: int, newLease: LeaseId, now: real)
    requires WellFormed(db) && Reuses(db, episode, cap)
    ensures LeaseFrom(db, episode, limit, ttl, cap, newLease, now).1.reused
  {
    hide WellFormed, Grant, Ranked;
  }

  /** The tables and the delivery of a lease handed out again. */
  ghost predicate Again(db: Db, db': Db, episode: EpisodeId, cap: int, now: real, d: Delivery) {
    && HandsOutAgain(db, episode, cap, now, d.lease)
    && Reclaims(db, db', Overdue(db, now)) && db'.sovereign == db.sovereign
    && d.lease in db.leases && d.through == db.leases[d.lease].through
    && (forall i :: i in d.items <==> i in db.leases[d.lease].items)
    && InDeliveryOrder(db.items, d.items)
  }

  /** The tables and the delivery of a fresh lease. */
  ghost predicate Anew(db: Db, db': Db, episode: EpisodeId, limit: int, ttl: int, cap: int, newLease: LeaseId,
                       now: real, d: Delivery)
  {
    && d.lease == newLease
    && Leases(db, db', episode, ttl, now, Replaced(db, episode, now), newLease, d.items)
    && newLease in db'.leases && d.through == db'.leases[newLease].through
    && FirstWaiting(db, cap, Replaced(db, episode, now), limit, d.items)
  }

  lemma IsAgain(db: Db, db': Db, episode: EpisodeId, cap: int, now: real, d: Delivery)
    requires HandsOutAgain(db, episode, cap, now, d.lease) && Reclaims(db, db', Overdue(db, now))
    requires db'.sovereign == db.sovereign && d.lease in db.leases && d.through == db.leases[d.lease].through
    requires forall i :: i in d.items <==> i in db.leases[d.lease].items
    requires InDeliveryOrder(db.items, d.items)
    ensures Again(db, db', episode, cap, now, d)
  {}

  lemma ReusedEffect(db: Db, episode: EpisodeId, limit: int, ttl: int, cap: int, newLease: LeaseId, now: real)
    requires WellFormed(db) && Reuses(AbandonAll(db, ExpiredLeases(db, now)), episode, cap)
    ensures var (db', d) := LeaseTx(db, episode, limit, ttl, cap, newLease, now);
      d.reused && Again(db, db', episode, cap, now, d)
  {
    hide *;
    var swept := AbandonAll(db, ExpiredLeases(db, now));
    SweepReclaims(db, episode, now);
    SweptWellFormed(db, episode, now);
    LeaseBySweep(db, episode, limit, ttl, cap, newLease, now);
    ReusesIffHandsOut(db, swept, episode, cap, now);
    ReusedFlag(swept, episode, limit, ttl, cap, newLease, now);
    ReuseHandsOut(swept, episode, limit, ttl, cap, newLease, now);
    var (db', d) := LeaseTx(db, episode, limit, ttl, cap, newLease, now);
    OnTime(db, episode, cap, now, d.lease);
    SameLease(db, swept, Overdue(db, now), d.lease);
    HandedOutRows(db, swept, Overdue(db, now), d.lease);
    IsAgain(db, db', episode, cap, now, d);
  }

  lemma SameKeys(db: Db, db': Db, ls: set<LeaseId>)
    requires Reclaims(db, db', ls)
    ensures db'.leases.Keys == db.leases.Keys
  {}

  lemma WellFormedIsDistinct(db: Db)
    requires WellFormed(db)
    ensures DistinctSequences(db.items)
  {}

  lemma FreshEffect(db: Db, episode: EpisodeId, limit: int, ttl: int, cap: int, newLease: LeaseId, now: real)
    requires WellFormed(db) && newLease !in db.leases
    requires !Reuses(AbandonAll(db, ExpiredLeases(db, now)), episode, cap)
    ensures var (db', d) := LeaseTx(db, episode, limit, ttl, cap, newLease, now);
      !d.reused && Anew(db, db', episode, limit, ttl, cap, newLease, now, d)
  {
    hide WellFormed, LeaseTx, LeaseFrom, Grant, Reuses, AbandonAll, Reclaims, Leases, FirstWaiting, Replaced, Overdue;
    hide Ranked, Through, Update, Ids, LiveOf, Clamp, Deliverable;
    var swept := AbandonAll(db, ExpiredLeases(db, now));
    var cleared := AbandonAll(swept, LiveOf(swept, episode));
    SweepReclaims(db, episode, now);
    SweptWellFormed(db, episode, now);
    LeaseBySweep(db, episode, limit, ttl, cap, newLease, now);
    FreshBySweep(swept, episode, limit, ttl, cap, newLease, now);
    SameKeys(db, cleared, Replaced(db, episode, now));
    GrantEffect(cleared, episode, limit, ttl, cap, newLease, now);
    WellFormedIsDistinct(cleared);
    RankedIsFirst(db, cleared, Replaced(db, episode, now), cap, limit);
    var (db', d) := LeaseTx(db, episode, limit, ttl, cap, newLease, now);
    GrantLeases(db, cleared, db', episode, ttl, now, Replaced(db, episode, now), newLease, d.items);
  }

  /** `lease` in full: overdue leases are closed first. The episode's lease is handed out again, with all it
      holds, exactly when that is allowed; otherwise it is closed too and the new lease takes the first items
      that wait. */
  lemma LeaseEffect(db: Db, episode: EpisodeId, limit: int, ttl: int, cap: int, newLease: LeaseId, now: real)
    requires WellFormed(db) && newLease !in db.leases
    ensures var (db', d) := LeaseTx(db, episode, limit, ttl, cap, newLease, now);
      && (d.reused <==> exists l :: HandsOutAgain(db, episode, cap, now, l))
      && (d.reused ==> Again(db, db', episode, cap, now, d))
      && (!d.reused ==> Anew(db, db', episode, limit, ttl, cap, newLease, now, d))
  {
    hide *;
    var swept := AbandonAll(db, ExpiredLeases(db, now));
    SweepReclaims(db, episode, now);
    SweptWellFormed(db, episode, now);
    ReusesIffHandsOut(db, swept, episode, cap, now);
    if Reuses(swept, episode, cap) {
      ReusedEffect(db, episode, limit, ttl, cap, newLease, now);
    } else {
      FreshEffect(db, episode, limit, ttl, cap, newLease, now);
    }
  }

  // ----- From placement to receipt -----------------------------------------------------------

  /** Only the status of lease `l` changed. */
  ghost predicate Moves(db: Db, db': Db, l: LeaseId, to: LeaseStatus) {
    && l in db.leases && db'.leases.Keys == db.leases.Keys
    && (forall m | m in db.leases :: db'.leases[m] == if m == l then db.leases[m].(status := to) else db.leases[m])
    && db'.items == db.items && db'.head == db.head && db'.sovereign == db.sovereign
  }

  /** `placed` moves an open lease and `responded` a placed one; any other lease is refused. */
  lemma PlacementEffect(db: Db, l: LeaseId)
    ensures var placed := Transition(db, l, Open, Placed);
      && (placed.Ok? <==> l in db.leases && db.leases[l].status == Open)
      && (placed.Ok? ==> Moves(db, placed.value, l, Placed)) && (placed.Err? ==> placed.error == InvalidLeaseTransition)
    ensures var answered := Transition(db, l, Placed, Answered);
      && (answered.Ok? <==> l in db.leases && db.leases[l].status == Placed)
      && (answered.Ok? ==> Moves(db, answered.value, l, Answered))
      && (answered.Err? ==> answered.error == InvalidLeaseTransition)
  {}

  /** The second half of `responded` marks whatever the lease holds, and nothing else. */
  lemma RespondEffect(db: Db, l: LeaseId)
    requires l in db.leases
    ensures var db' := RespondItems(db, l);
      && db'.items.Keys == db.items.Keys
      && (forall i | i in db.items :: db'.items[i] ==
            if i in db.leases[l].items then db.items[i].(status := Responded) else db.items[i])
      && db'.leases == db.leases && db'.head == db.head && db'.sovereign == db.sovereign
  {
    forall i | i in db.items ensures db.items[i].status in ANY { AnyStatus(db.items[i].status); }
  }

  /** A lease in use keeps exactly what is visible, with the cursor of that; what it omits is queued again unless
      it was answered already. Other leases, and ids the lease does not hold, are refused. */
  lemma RestrictEffect(db: Db, l: LeaseId, visible: set<AttentionId>)
    ensures var r := RestrictTx(db, l, visible);
      && (r == Err(InvalidLeaseTransition) <==> l !in db.leases || !InUse(db.leases[l]))
      && (r == Err(PlacementScopeMismatch) <==>
            l in db.leases && InUse(db.leases[l]) && exists i :: i in visible && i !in db.leases[l].items)
      && (r.Err? ==> r.error == InvalidLeaseTransition || r.error == PlacementScopeMismatch)
      && (r.Ok? ==>
            && var lease, db' := db.leases[l], r.value;
            && db'.leases.Keys == db.leases.Keys && db'.items.Keys == db.items.Keys
            && (forall m | m in db.leases && m != l :: db'.leases[m] == db.leases[m])
            && db'.leases[l].items == visible && LastOf(db.items, visible, db'.leases[l].through)
            && db'.leases[l].status == lease.status && db'.leases[l].episode == lease.episode
            && db'.leases[l].expires == lease.expires
            && (forall i | i in db.items :: db'.items[i] ==
                  if i in lease.items && i !in visible && db.items[i].status == Leased
                  then db.items[i].(status := Queued) else db.items[i])
            && db'.head == db.head && db'.sovereign == db.sovereign)
  {
    ThroughIsLast(db.items, visible);
    hide Through, LastOf;
  }

  /** The cursor of a receipt: the one given, or that of the lease when neither a cursor nor ids are given, or
      zero when only ids are. A row is covered up to the cursor or by its id. */
  ghost predicate CoveredBy(db: Db, l: LeaseId, through: Option<int>, ids: set<AttentionId>, i: AttentionId) {
    && l in db.leases && i in db.leases[l].items && i in db.items
    && (i in ids
        || (through.Some? && db.items[i].sequence <= through.value)
        || (through.None? && ids == {} && db.items[i].sequence <= db.leases[l].through)
        || (through.None? && ids != {} && db.items[i].sequence <= 0))
  }

  /** Whether a receipt is accepted: only of an answered or already receipted lease, for ids it holds, and with a
      cursor of at least zero that does not pass the lease. */
  lemma AcknowledgeAccepts(db: Db, l: LeaseId, through: Option<int>, ids: set<AttentionId>)
    requires WellFormed(db)
    ensures var r := AckTx(db, l, through, ids);
      && (r == Err(NotCognitivelyResponded) <==>
            l !in db.leases || (db.leases[l].status != Answered && db.leases[l].status != Receipted))
      && (r == Err(AckScopeMismatch) <==>
            && l in db.leases && (db.leases[l].status == Answered || db.leases[l].status == Receipted)
            && exists i :: i in ids && i !in db.leases[l].items)
      && (r == Err(AckCursorOutOfRange) <==>
            && l in db.leases && (db.leases[l].status == Answered || db.leases[l].status == Receipted)
            && (forall i | i in ids :: i in db.leases[l].items)
            && through.Some? && (through.value < 0 || through.value > db.leases[l].through))
      && (r.Err? ==> r.error in {NotCognitivelyResponded, AckScopeMismatch, AckCursorOutOfRange})
  {
    hide Contiguous, AckRows, WellFormed;
  }

  lemma AckIsRows(db: Db, l: LeaseId, through: Option<int>, ids: set<AttentionId>)
    requires WellFormed(db) && AckTx(db, l, through, ids).Ok?
    ensures l in db.leases
    ensures var db', rows := AckTx(db, l, through, ids).value, AckRows(db, l, through, ids);
      db'.items == rows.items && db'.leases == rows.leases && db'.sovereign == db.sovereign
  {
    hide Contiguous, WellFormed;
  }

  /** An accepted receipt acknowledges exactly the covered rows and queues the others that are in flight; the
      lease is closed, and no other lease or item changes. */
  lemma AcknowledgeEffect(db: Db, l: LeaseId, through: Option<int>, ids: set<AttentionId>)
    requires WellFormed(db) && AckTx(db, l, through, ids).Ok?
    ensures l in db.leases
    ensures var db' := AckTx(db, l, through, ids).value;
      && db'.items.Keys == db.items.Keys && db'.leases.Keys == db.leases.Keys && db'.sovereign == db.sovereign
      && (forall m | m in db.leases ::
            db'.leases[m] == if m == l then db.leases[m].(status := Receipted) else db.leases[m])
      && (forall i | i in db.items :: db'.items[i] ==
            if CoveredBy(db, l, through, ids, i) then db.items[i].(status := Acknowledged)
            else if i in db.leases[l].items && (db.items[i].status == Leased || db.items[i].status == Responded)
            then db.items[i].(status := Queued) else db.items[i])
  {
    AckIsRows(db, l, through, ids);
    hide Contiguous, WellFormed, AckTx;
    var db' := AckTx(db, l, through, ids).value;
    forall i | i in db.items ensures db.items[i].status in ANY { AnyStatus(db.items[i].status); }
    forall i | i in db.items ensures i in Eligible(db, l, through, ids) <==> CoveredBy(db, l, through, ids, i) {}
  }

  lemma HeldInFlight(db: Db, l: LeaseId, i: AttentionId)
    requires Invariant(db) && l in db.leases && db.leases[l].status == Answered && i in db.leases[l].items
    ensures WellFormed(db) && i in db.items && (db.items[i].status == Leased || db.items[i].status == Responded)
  {
    assert Holds(db, l, i);
  }

  /** Of an answered lease every row ends acknowledged or in the queue: with an explicit cursor it is acknowledged
      if and only if its sequence is at most the cursor or its id is among the ids. */
  lemma CursorSettles(db: Db, l: LeaseId, t: int, ids: set<AttentionId>, i: AttentionId)
    requires Invariant(db) && AckTx(db, l, Some(t), ids).Ok?
    requires l in db.leases && db.leases[l].status == Answered && i in db.leases[l].items
    ensures i in db.items && i in AckTx(db, l, Some(t), ids).value.items
    ensures var after := AckTx(db, l, Some(t), ids).value.items[i].status;
      && (after == Acknowledged <==> db.items[i].sequence <= t || i in ids)
      && (after == Queued <==> !(db.items[i].sequence <= t || i in ids))
  {
    AcknowledgeEffect(db, l, Some(t), ids);
    HeldInFlight(db, l, i);
    hide Invariant, WellFormed, AckTx;
  }

  /** Abandoning closes a lease in use and queues what it links in flight, also of a lease that is not in use;
      an unknown lease is refused. */
  lemma AbandonEffect(db: Db, l: LeaseId)
    ensures DropTx(db, l) == Err(UnknownLease) <==> l !in db.leases
    ensures l in db.leases ==> DropTx(db, l).Ok? && var db' := DropTx(db, l).value;
      && db'.items.Keys == db.items.Keys && db'.leases.Keys == db.leases.Keys
      && db'.head == db.head && db'.sovereign == db.sovereign
      && (forall m | m in db.leases :: db'.leases[m] ==
            if m == l && InUse(db.leases[m]) then db.leases[m].(status := Abandoned) else db.leases[m])
      && (forall i | i in db.items :: db'.items[i] ==
            if FlightOf(db, {l}, i) then db.items[i].(status := Queued) else db.items[i])
  {
    forall i | i in db.items ensures FlightOf(db, {l}, i) <==> i in LinkedTo(db.leases, {l}) && InFlight(db.items[i]) {}
  }

  // ----- Sovereign authority -----------------------------------------------------------------

  ghost function OfEpisode(db: Db, episode: EpisodeId): set<LeaseId> {
    set l | l in db.leases && InUse(db.leases[l]) && db.leases[l].episode == episode
  }

  lemma OfEpisodeIsLive(db: Db, episode: EpisodeId)
    ensures OfEpisode(db, episode) == LiveOf(db, episode)
  {}

  /** The leases of the episode are reclaimed, or nothing of the queue changes. */
  ghost predicate QueueAfter(db: Db, db': Db, reclaim: bool, episode: EpisodeId) {
    if reclaim then Reclaims(db, db', OfEpisode(db, episode))
    else db'.items == db.items && db'.leases == db.leases && db'.head == db.head
  }

  lemma SovereignAside(db: Db, db': Db, ls: set<LeaseId>, row: Option<Sovereign>)
    requires Reclaims(db, db', ls)
    ensures Reclaims(db, db'.(sovereign := row), ls)
  {
    hide FlightOf;
  }

  /** While a row is active and in time another episode, or the same one in another mode, is refused, and nothing
      else is. Whoever is admitted becomes the one active row; a row that is active or expired and whose time is
      over loses its leases first. */
  lemma AcquireEffect(db: Db, episode: EpisodeId, mode: EpisodeMode, ttl: int, ownerOk: bool, token: Token, now: real)
    ensures var r := AcquireTx(db, episode, mode, ttl, ownerOk, token, now);
      && (r == Err(OwnerChanged) <==> !ownerOk)
      && (r == Err(InvocationAlreadyActive) <==>
            && ownerOk && db.sovereign.Some? && db.sovereign.value.status == Active
            && db.sovereign.value.expires > now
            && (db.sovereign.value.episode != episode || db.sovereign.value.mode != mode))
      && (r.Err? ==> r.error == OwnerChanged || r.error == InvocationAlreadyActive)
      && (r.Ok? ==>
            && r.value.sovereign.Some? && var row := r.value.sovereign.value;
            && row.episode == episode && row.mode == mode && row.token == token && row.status == Active
            && Lasts(ttl, now, row.expires)
            && (db.sovereign.None? ==> QueueAfter(db, r.value, false, episode))
            && (db.sovereign.Some? ==>
                  var was := db.sovereign.value;
                  QueueAfter(db, r.value, (was.status == Active || was.status == Expired) && was.expires <= now,
                             was.episode)))
  {
    ClampedTtl(ttl, now);
    if db.sovereign.Some? {
      var episode' := db.sovereign.value.episode;
      OfEpisodeIsLive(db, episode');
      AbandonReclaims(db, OfEpisode(db, episode'));
      SovereignAside(db, AbandonAll(db, LiveOf(db, episode')), OfEpisode(db, episode'),
                     Some(Sovereign(episode, mode, token, Active, now + ClampTtl(ttl))));
    }
    hide Reclaims, AbandonAll, Lasts, OfEpisode, LiveOf;
  }

  /** Only the active row with this token and episode whose time is not over is renewed, for the time to live
      counted from now; nothing else of it changes. */
  lemma RenewEffect(db: Db, token: Token, episode: EpisodeId, ttl: int, ownerOk: bool, now: real)
    ensures var r := RenewTx(db, token, episode, ttl, ownerOk, now);
      && (r == Err(OwnerChanged) <==> !ownerOk)
      && (r.Ok? <==>
            && ownerOk && db.sovereign.Some? && db.sovereign.value.token == token
            && db.sovereign.value.episode == episode && db.sovereign.value.status == Active
            && db.sovereign.value.expires > now)
      && (r.Err? && ownerOk ==> r.error == AuthorityLost)
      && (r.Ok? ==>
            && r.value.sovereign.Some? && Lasts(ttl, now, r.value.sovereign.value.expires)
            && r.value == db.(sovereign := Some(db.sovereign.value.(expires := r.value.sovereign.value.expires))))
  {}

  /** Reading marks an active row whose time is over as expired, and changes nothing else. */
  lemma ReadEffect(db: Db, now: real)
    ensures var db' := ReadSovereignTx(db, now);
      && db'.items == db.items && db'.leases == db.leases && db'.head == db.head
      && db'.sovereign ==
         if db.sovereign.Some? && db.sovereign.value.status == Active && db.sovereign.value.expires <= now
         then Some(db.sovereign.value.(status := Expired)) else db.sovereign
  {}

  /** The active row with this token is released as committed or cancelled, whatever its time, and the leases of
      its episode are reclaimed; anybody else is refused. A cancellation does the same to any active row. */
  lemma EndEffect(db: Db, token: Token, committed: bool)
    ensures var r := ReleaseTx(db, token, committed);
      && (r.Ok? <==>
            db.sovereign.Some? && db.sovereign.value.token == token && db.sovereign.value.status == Active)
      && (r.Err? ==> r.error == InvalidSovereignLease)
      && (r.Ok? ==>
            && (committed ==> r.value.sovereign == Some(db.sovereign.value.(status := Committed)))
            && (!committed ==> r.value.sovereign == Some(db.sovereign.value.(status := Cancelled)))
            && QueueAfter(db, r.value, true, db.sovereign.value.episode))
    ensures var db' := CancelTx(db);
      if db.sovereign.Some? && db.sovereign.value.status == Active
      then db'.sovereign == Some(db.sovereign.value.(status := Cancelled))
           && QueueAfter(db, db', true, db.sovereign.value.episode)
      else db' == db
  {
    if db.sovereign.Some? {
      var was := db.sovereign.value;
      OfEpisodeIsLive(db, was.episode);
      AbandonReclaims(db, OfEpisode(db, was.episode));
      var after := AbandonAll(db, LiveOf(db, was.episode));
      SovereignAside(db, after, OfEpisode(db, was.episode), Some(was.(status := Committed)));
      SovereignAside(db, after, OfEpisode(db, was.episode), Some(was.(status := Cancelled)));
    }
    hide Reclaims, AbandonAll, OfEpisode, LiveOf;
  }

  // ----- One writer over whole runs ----------------------------------------------------------

  /** The event acquired the authority that this row stands for. */
  ghost predicate AcquiredBy(row: Sovereign, step: Step) {
    step.Acquire? && row.token == step.token && row.episode == step.episode && row.mode == step.mode
  }

  lemma LeaseKeepsSovereign(db: Db, episode: EpisodeId, limit: int, ttl: int, cap: int, newLease: LeaseId, now: real)
    requires WellFormed(db) && newLease !in db.leases
    ensures LeaseTx(db, episode, limit, ttl, cap, newLease, now).0.sovereign == db.sovereign
  {
    hide WellFormed, LeaseTx;
    LeaseEffect(db, episode, limit, ttl, cap, newLease, now);
  }

  lemma RowStep(db: Db, e: Event)
    requires WellFormed(db) && Apply(db, e).sovereign.Some?
    ensures var row := Apply(db, e).sovereign.value;
      || AcquiredBy(row, e.step)
      || (db.sovereign.Some? && row.token == db.sovereign.value.token && row.episode == db.sovereign.value.episode
          && row.mode == db.sovereign.value.mode)
  {
    hide WellFormed, LeaseTx, AckTx;
    match e.step
    case LeaseFor(episode, limit, ttl, cap, newLease) =>
      if newLease !in db.leases { LeaseKeepsSovereign(db, episode, limit, ttl, cap, newLease, e.now); }
    case Acknowledge(l, through, ids) =>
      if AckTx(db, l, through, ids).Ok? { AcknowledgeEffect(db, l, through, ids); }
    case _ =>
  }

  lemma EmptyRun(events: seq<Event>)
    ensures After(events, 0).sovereign.None?
  {}

  /** Whoever stands in the row acquired it earlier in the run, for this episode and this mode. */
  lemma {:induction false} RowWasAcquired(events: seq<Event>, n: nat) returns (a: nat)
    requires n <= |events| && After(events, n).sovereign.Some?
    ensures a < n && AcquiredBy(After(events, n).sovereign.value, events[a].step)
  {
    hide After, Apply, WellFormed, ThroughExact;
    if n == 0 {
      EmptyRun(events);
    } else {
      AfterStep(events, n);
      RowStep(After(events, n - 1), events[n - 1]);
      if AcquiredBy(After(events, n).sovereign.value, events[n - 1].step) {
        a := n - 1;
      } else {
        a := RowWasAcquired(events, n - 1);
      }
    }
  }

  lemma RefusedAcquisition(db: Db, e: Event)
    requires WellFormed(db) && e.step.Acquire? && db.sovereign.Some? && db.sovereign.value.status == Active
    requires db.sovereign.value.expires > e.now
    requires e.step.episode != db.sovereign.value.episode || e.step.mode != db.sovereign.value.mode
    ensures Apply(db, e) == db
  {
    hide WellFormed;
  }

  /** One writer: while the row of an acquisition is active and its time is not over, every attempt to acquire
      for another episode or in another mode is refused and changes nothing at all. */
  lemma OneWriter(events: seq<Event>, a: nat, c: nat)
    requires FreshTokens(events) && a < c < |events| && events[a].step.Acquire? && events[c].step.Acquire?
    requires After(events, c).sovereign.Some?
    requires var row := After(events, c).sovereign.value;
      row.token == events[a].step.token && row.status == Active && row.expires > events[c].now
    requires events[c].step.episode != events[a].step.episode || events[c].step.mode != events[a].step.mode
    ensures After(events, c + 1) == After(events, c)
  {
    hide After, Apply, WellFormed, ThroughExact, AcquireTx;
    var j := RowWasAcquired(events, c);
    assert j == a;
    AfterStep(events, c + 1);
    RefusedAcquisition(After(events, c), events[c]);
  }
}
