/** Short runs from the empty store after which the operations without a status guard do harm. */
module AttentionExamples {
  import opened Wrappers
  import opened AttentionModel
  import opened AttentionRuns
  import opened AttentionTheorems

  // ----- One item and its deliveries ---------------------------------------------------------

  function One(status: ItemStatus, leases: map<LeaseId, Lease>): Db {
    Db(map[0 := Item(1, 0, 50, false, 0, status)], leases, Some(Head(2, 0)), None)
  }

  /** The first delivery, open for thirty seconds. */
  function FirstLease(status: LeaseStatus): map<LeaseId, Lease> {
    map[1 := Lease(7, {0}, 1, status, 30.0)]
  }

  /** The same item delivered again while the first lease is dead. */
  function Redelivered(dead: LeaseStatus): Db {
    One(Leased, FirstLease(dead)[2 := Lease(8, {0}, 1, Open, 90.0)])
  }

  const ENQUEUE := Event(0.0, Enqueue(0, 0, 50, false, 0))
  const DELIVER := Event(0.0, LeaseFor(7, 64, 30, 0, 1))
  const PLACE := Event(0.0, Place(1))
  const ANSWER := Event(0.0, RespondLease(1))
  const ANSWER_ROWS := Event(0.0, RespondRows(1))
  /** A receipt through sequence zero: it closes the lease and requeues the item. */
  const RECEIPT := Event(0.0, Acknowledge(1, Some(0), {}))
  const DELIVER_AGAIN := Event(60.0, LeaseFor(8, 64, 30, 0, 2))

  lemma OneIsWellFormed(status: ItemStatus, leases: map<LeaseId, Lease>)
    requires forall l | l in leases :: leases[l].items == {0}
    requires OneLeasePerEpisode(One(status, leases))
    ensures WellFormed(One(status, leases))
  {
    assert AtSequence(One(status, leases).items, 1, 0);
  }

  lemma EnqueueOne()
    ensures WellFormed(EMPTY) && Apply(EMPTY, ENQUEUE) == One(Queued, map[])
  {}

  lemma ThroughOne(db: Db)
    requires 0 in db.items && db.items[0].sequence == 1
    ensures Through(db.items, {0}) == 1
  {
    assert Sequences(db.items, {0}) == {1};
  }

  lemma OnlyRow(items: map<AttentionId, Item>)
    requires items.Keys == {0} && DistinctSequences(items)
    ensures Ranked(items, {0}, 64) == [0]
  {
    var r := Ranked(items, {0}, 64);
    assert |r| == 1 && r[0] in r;
  }

  /** With no live lease the queued item goes to a fresh one. */
  lemma GrantOne(leases: map<LeaseId, Lease>, episode: EpisodeId, newLease: LeaseId, now: real)
    requires forall l | l in leases :: leases[l].items == {0} && !Live(leases[l])
    requires newLease !in leases
    ensures WellFormed(One(Queued, leases))
    ensures Grant(One(Queued, leases), episode, 64, 30, 0, newLease, now).0
      == One(Leased, leases[newLease := Lease(episode, {0}, 1, Open, now + 30.0)])
  {
    var db := One(Queued, leases);
    OneIsWellFormed(Queued, leases);
    assert Deliverable(db, 0) == {0};
    OnlyRow(db.items);
    ThroughOne(db);
    assert Ids([0]) == {0};
    assert Update(db.items, {0}, ANY, Leased) == One(Leased, leases).items by { AnyStatus(Queued); }
  }

  lemma NothingLive(leases: map<LeaseId, Lease>, episode: EpisodeId)
    requires forall l | l in leases :: !Live(leases[l])
    ensures LiveOf(One(Queued, leases), episode) == {}
  {}

  /** `lease` after the leases of `ls` have run out, none of those left being live. */
  lemma DeliverOne(db: Db, leases: map<LeaseId, Lease>, episode: EpisodeId, newLease: LeaseId, now: real)
    requires WellFormed(db) && AbandonAll(db, ExpiredLeases(db, now)) == One(Queued, leases)
    requires forall l | l in leases :: leases[l].items == {0} && !Live(leases[l])
    requires newLease !in db.leases && newLease !in leases
    ensures Apply(db, Event(now, LeaseFor(episode, 64, 30, 0, newLease)))
      == One(Leased, leases[newLease := Lease(episode, {0}, 1, Open, now + 30.0)])
  {
    hide Grant, WellFormed, AbandonAll, ExpiredLeases, Live;
    GrantOne(leases, episode, newLease, now);
    NothingLive(leases, episode);
    Sweep(db, ExpiredLeases(db, now));
    NothingToReuse(One(Queued, leases), episode, 64, 30, 0, newLease, now);
  }

  lemma DeliverFirst()
    ensures WellFormed(One(Queued, map[])) && Apply(One(Queued, map[]), DELIVER) == One(Leased, FirstLease(Open))
  {
    var db := One(Queued, map[]);
    OneIsWellFormed(Queued, map[]);
    assert ExpiredLeases(db, 0.0) == {};
    assert AbandonAll(db, {}).items == db.items && AbandonAll(db, {}).leases == db.leases;
    DeliverOne(db, map[], 7, 1, 0.0);
  }

  lemma FirstWellFormed(status: ItemStatus, lease: LeaseStatus)
    ensures WellFormed(One(status, FirstLease(lease)))
  {
    OneIsWellFormed(status, FirstLease(lease));
  }

  /** Once the first lease has run out, the next call abandons it and delivers the item again. */
  lemma DeliverAfterExpiry(status: ItemStatus, lease: LeaseStatus)
    requires status in {Leased, Responded} && lease in {Open, Placed, Answered}
    ensures WellFormed(One(status, FirstLease(lease)))
    ensures Apply(One(status, FirstLease(lease)), DELIVER_AGAIN) == Redelivered(Abandoned)
  {
    var db := One(status, FirstLease(lease));
    FirstWellFormed(status, lease);
    assert ExpiredLeases(db, 60.0) == {1};
    assert LinkedTo(db.leases, {1}) == {0} by { assert 1 in db.leases && 0 in db.leases[1].items; }
    var swept := AbandonAll(db, {1});
    assert swept.items == One(Queued, FirstLease(Abandoned)).items && swept.leases == FirstLease(Abandoned);
    DeliverOne(db, FirstLease(Abandoned), 8, 2, 60.0);
  }

  lemma DeliverAfterReceipt()
    ensures WellFormed(One(Queued, FirstLease(Receipted)))
    ensures Apply(One(Queued, FirstLease(Receipted)), DELIVER_AGAIN) == Redelivered(Receipted)
  {
    var db := One(Queued, FirstLease(Receipted));
    FirstWellFormed(Queued, Receipted);
    assert ExpiredLeases(db, 60.0) == {};
    assert AbandonAll(db, {}).items == db.items && AbandonAll(db, {}).leases == db.leases;
    DeliverOne(db, FirstLease(Receipted), 8, 2, 60.0);
  }

  // ----- The runs ----------------------------------------------------------------------------

  lemma StepTo(events: seq<Event>, n: nat, db: Db)
    requires n < |events| && WellFormed(db) && After(events, n) == db
    ensures After(events, n + 1) == Apply(db, events[n])
  {
    AfterStep(events, n + 1);
  }

  lemma Empty(events: seq<Event>)
    ensures After(events, 0) == EMPTY
  {}

  /** The item is enqueued and delivered. */
  lemma Delivered(events: seq<Event>)
    requires [ENQUEUE, DELIVER] <= events
    ensures After(events, 0) == EMPTY && After(events, 1) == One(Queued, map[])
    ensures After(events, 2) == One(Leased, FirstLease(Open))
  {
    hide After, Apply, WellFormed;
    assert events[0] == [ENQUEUE, DELIVER][0] && events[1] == [ENQUEUE, DELIVER][1];
    Empty(events);
    EnqueueOne();
    StepTo(events, 0, EMPTY);
    DeliverFirst();
    StepTo(events, 1, One(Queued, map[]));
  }

  lemma PlaceAndAnswer()
    ensures WellFormed(One(Leased, FirstLease(Open)))
    ensures Apply(One(Leased, FirstLease(Open)), PLACE) == One(Leased, FirstLease(Placed))
    ensures WellFormed(One(Leased, FirstLease(Placed)))
    ensures Apply(One(Leased, FirstLease(Placed)), ANSWER) == One(Leased, FirstLease(Answered))
  {
    FirstWellFormed(Leased, Open);
    FirstWellFormed(Leased, Placed);
    assert FirstLease(Open)[1 := FirstLease(Open)[1].(status := Placed)] == FirstLease(Placed);
    assert FirstLease(Placed)[1 := FirstLease(Placed)[1].(status := Answered)] == FirstLease(Answered);
  }

  /** And placed and answered, up to the point between the two transactions of the response. */
  lemma AnsweredOnce(events: seq<Event>)
    requires [ENQUEUE, DELIVER, PLACE, ANSWER] <= events
    ensures After(events, 3) == One(Leased, FirstLease(Placed)) && After(events, 4) == One(Leased, FirstLease(Answered))
  {
    hide After, Apply, WellFormed;
    var start := [ENQUEUE, DELIVER, PLACE, ANSWER];
    assert [ENQUEUE, DELIVER] == start[..2] && events[2] == start[2] && events[3] == start[3];
    Delivered(events);
    PlaceAndAnswer();
    StepTo(events, 2, One(Leased, FirstLease(Open)));
    StepTo(events, 3, One(Leased, FirstLease(Placed)));
  }

  lemma RowsFollow()
    ensures WellFormed(One(Leased, FirstLease(Answered)))
    ensures Apply(One(Leased, FirstLease(Answered)), ANSWER_ROWS) == One(Responded, FirstLease(Answered))
  {
    FirstWellFormed(Leased, Answered);
    AnyStatus(Leased);
  }

  lemma AnsweredWithRows(events: seq<Event>)
    requires [ENQUEUE, DELIVER, PLACE, ANSWER, ANSWER_ROWS] <= events
    ensures After(events, 5) == One(Responded, FirstLease(Answered))
  {
    hide After, Apply, WellFormed;
    var start := [ENQUEUE, DELIVER, PLACE, ANSWER, ANSWER_ROWS];
    assert [ENQUEUE, DELIVER, PLACE, ANSWER] == start[..4] && events[4] == start[4];
    AnsweredOnce(events);
    RowsFollow();
    StepTo(events, 4, One(Leased, FirstLease(Answered)));
  }

  lemma ReceiptRequeues()
    ensures WellFormed(One(Responded, FirstLease(Answered)))
    ensures Apply(One(Responded, FirstLease(Answered)), RECEIPT) == One(Queued, FirstLease(Receipted))
  {
    var db := One(Responded, FirstLease(Answered));
    FirstWellFormed(Responded, Answered);
    assert Eligible(db, 1, Some(0), {}) == {};
    var rows := AckRows(db, 1, Some(0), {});
    assert rows.items == One(Queued, FirstLease(Receipted)).items && rows.leases == FirstLease(Receipted);
    StatusOnlyKeepsSequences(db, rows);
    assert !AcknowledgedAt(rows.items, 1);
  }

  const EXPIRED_RUN := [ENQUEUE, DELIVER, DELIVER_AGAIN]
  const RECEIPT_RUN := [ENQUEUE, DELIVER, PLACE, ANSWER, ANSWER_ROWS, RECEIPT, DELIVER_AGAIN]
  const CRASHED_RUN := [ENQUEUE, DELIVER, PLACE, ANSWER, DELIVER_AGAIN]
  const ANSWERED_RUN := [ENQUEUE, DELIVER, PLACE, ANSWER, ANSWER_ROWS]

  lemma Final(events: seq<Event>, n: nat)
    requires n <= |events| && DisciplinedRun(events)
    ensures Invariant(After(events, n))
  {
    RunKeepsInvariant(events, n);
  }

  /** A delivery runs out and the item is delivered again. Abandoning the dead lease then takes the item
      from its new owner. */
  lemma AbandoningDeadLeaseSteals()
    ensures DisciplinedRun(EXPIRED_RUN) && After(EXPIRED_RUN, 3) == Redelivered(Abandoned)
    ensures Invariant(Redelivered(Abandoned)) && !Invariant(AbandonAll(Redelivered(Abandoned), {1}))
  {
    hide After, Apply, WellFormed, Invariant;
    assert [ENQUEUE, DELIVER] == EXPIRED_RUN[..2];
    Delivered(EXPIRED_RUN);
    DeliverAfterExpiry(Leased, Open);
    StepTo(EXPIRED_RUN, 2, One(Leased, FirstLease(Open)));
    Final(EXPIRED_RUN, 3);
    AbandonExact(Redelivered(Abandoned), 1);
  }

  lemma ReceiptStates()
    ensures After(RECEIPT_RUN, 4) == One(Leased, FirstLease(Answered))
    ensures After(RECEIPT_RUN, 5) == One(Responded, FirstLease(Answered))
    ensures After(RECEIPT_RUN, 7) == Redelivered(Receipted)
  {
    hide After, Apply, WellFormed, Invariant;
    assert [ENQUEUE, DELIVER, PLACE, ANSWER] == RECEIPT_RUN[..4];
    assert [ENQUEUE, DELIVER, PLACE, ANSWER, ANSWER_ROWS] == RECEIPT_RUN[..5];
    AnsweredOnce(RECEIPT_RUN);
    AnsweredWithRows(RECEIPT_RUN);
    ReceiptRequeues();
    StepTo(RECEIPT_RUN, 5, One(Responded, FirstLease(Answered)));
    DeliverAfterReceipt();
    StepTo(RECEIPT_RUN, 6, One(Queued, FirstLease(Receipted)));
  }

  lemma ReceiptRunIsDisciplined()
    ensures DisciplinedRun(RECEIPT_RUN)
  {
    hide After, Apply, WellFormed, Invariant, RowsAnswered;
    ReceiptStates();
    AnsweredHasRowsAnswered(One(Leased, FirstLease(Answered)), 1);
  }

  /** A receipt that covered nothing is used again after the item was delivered again: it takes the item
      from its new owner. */
  lemma SecondReceiptSteals()
    ensures DisciplinedRun(RECEIPT_RUN) && After(RECEIPT_RUN, 7) == Redelivered(Receipted)
    ensures Invariant(Redelivered(Receipted)) && AckTx(Redelivered(Receipted), 1, None, {}).Ok?
    ensures !Invariant(AckTx(Redelivered(Receipted), 1, None, {}).value)
  {
    hide After, Apply, WellFormed, Invariant, DisciplinedRun;
    ReceiptStates();
    ReceiptRunIsDisciplined();
    Final(RECEIPT_RUN, 7);
    AcknowledgeExact(Redelivered(Receipted), 1, None, {});
  }

  /** A crash splits the response, the lease runs out and the item is delivered again: the delayed rows
      take it from its new owner. */
  lemma LateRowsSteal()
    ensures DisciplinedRun(CRASHED_RUN) && After(CRASHED_RUN, 5) == Redelivered(Abandoned)
    ensures Invariant(Redelivered(Abandoned)) && !Invariant(RespondItems(Redelivered(Abandoned), 1))
  {
    hide After, Apply, WellFormed, Invariant;
    assert [ENQUEUE, DELIVER, PLACE, ANSWER] == CRASHED_RUN[..4];
    AnsweredOnce(CRASHED_RUN);
    DeliverAfterExpiry(Leased, Answered);
    StepTo(CRASHED_RUN, 4, One(Leased, FirstLease(Answered)));
    Final(CRASHED_RUN, 5);
    RespondRowsExact(Redelivered(Abandoned), 1);
    var db := Redelivered(Abandoned);
    assert 0 in db.leases[1].items && !HeldByAnswered(db, 0);
  }

  lemma RestrictingStrands()
    ensures var db := One(Responded, FirstLease(Answered));
      && RestrictTx(db, 1, {}).Ok? && RestrictTx(db, 1, {}).value.items[0].status == Responded
      && !Owned(RestrictTx(db, 1, {}).value, 0)
  {
    forall l ensures !Holds(RestrictTx(One(Responded, FirstLease(Answered)), 1, {}).value, l, 0) {}
  }

  /** A placement restricted after its response strands what it omits: responded, and held by nobody. */
  lemma LateRestrictionStrands()
    ensures DisciplinedRun(ANSWERED_RUN) && After(ANSWERED_RUN, 5) == One(Responded, FirstLease(Answered))
    ensures var db := One(Responded, FirstLease(Answered));
      && Invariant(db) && RestrictTx(db, 1, {}).Ok?
      && RestrictTx(db, 1, {}).value.items[0].status == Responded && !Owned(RestrictTx(db, 1, {}).value, 0)
  {
    hide After, Apply, WellFormed, Invariant, Owned, RestrictTx;
    assert [ENQUEUE, DELIVER, PLACE, ANSWER] == ANSWERED_RUN[..4];
    AnsweredOnce(ANSWERED_RUN);
    AnsweredWithRows(ANSWERED_RUN);
    AnsweredHasRowsAnswered(One(Leased, FirstLease(Answered)), 1);
    Final(ANSWERED_RUN, 5);
    RestrictingStrands();
  }
}
