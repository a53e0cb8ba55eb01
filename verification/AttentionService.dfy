/** The attention service itself: fields for the tables, one method per public operation, each shown to
    commit exactly the transaction the model states or to change nothing. */
module AttentionServices {
  import opened Wrappers
  import opened AttentionModel
  import opened AttentionRuns

  /** The operation either committed `tx` or reported its error with the tables untouched. */
  ghost predicate Commits(tx: Result<Db, AttentionError>, before: Db, after: Db, error: Option<AttentionError>) {
    match tx
    case Ok(db) => error == None && after == db
    case Err(e) => error == Some(e) && after == before
  }

  lemma LinkedOneMore(db: Db, done: set<LeaseId>, l: LeaseId)
    ensures LinkedTo(db.leases, done + {l}) == LinkedTo(db.leases, done) + LinkedTo(AbandonAll(db, done).leases, {l})
  {
    var after := AbandonAll(db, done).leases;
    assert l in after <==> l in db.leases;
    assert l in after ==> after[l].items == db.leases[l].items;
    assert LinkedTo(after, {l}) == LinkedTo(db.leases, {l});
  }

  lemma AbandonOneMore(db: Db, done: set<LeaseId>, l: LeaseId)
    ensures AbandonAll(AbandonAll(db, done), {l}) == AbandonAll(db, done + {l})
  {
    LinkedOneMore(db, done, l);
    hide LinkedTo;
    var one, both := AbandonAll(AbandonAll(db, done), {l}), AbandonAll(db, done + {l});
    assert one.items == both.items;
    assert one.leases == both.leases;
  }

  lemma AbandonNone(db: Db)
    ensures AbandonAll(db, {}) == db
  {
    assert AbandonAll(db, {}).items == db.items && AbandonAll(db, {}).leases == db.leases;
  }

  lemma SameBarrier(db: Db, ls: set<LeaseId>, cap: int)
    ensures forall s: nat :: BelowBarrier(AbandonAll(db, ls).items, cap, s) <==> BelowBarrier(db.items, cap, s)
  {
    var items := AbandonAll(db, ls).items;
    assert StatusOnly(db.items, items);
    forall s: nat ensures BelowBarrier(items, cap, s) <==> BelowBarrier(db.items, cap, s) {
      if BelowBarrier(items, cap, s) {
        forall i | i in db.items && db.items[i].cursor > cap ensures s < db.items[i].sequence {
          assert items[i].cursor > cap;
        }
      }
    }
  }

  /** After the first rows were linked, exactly they are leased and linked to the new lease. */
  ghost predicate Taken(db: Db, items: map<AttentionId, Item>, leases: map<LeaseId, Lease>, rows: seq<AttentionId>,
                        newLease: LeaseId, row: Lease)
  {
    && items == Update(db.items, Ids(rows), ANY, Leased)
    && leases == db.leases[newLease := row.(items := Ids(rows))]
  }

  lemma TakeNone(db: Db, newLease: LeaseId, row: Lease)
    requires row.items == {}
    ensures Taken(db, db.items, db.leases[newLease := row], [], newLease, row)
  {
    assert Ids([]) == {};
  }

  lemma TakenAll(db: Db, items: map<AttentionId, Item>, leases: map<LeaseId, Lease>, rows: seq<AttentionId>, row: Lease,
                 episode: EpisodeId, limit: int, ttl: int, cap: int, newLease: LeaseId, now: real)
    requires WellFormed(db) && rows == Ranked(db.items, Deliverable(db, cap), Clamp(limit, 1, 64))
    requires row == Lease(episode, {}, Through(db.items, Ids(rows)), Open, now + ClampTtl(ttl))
    requires Taken(db, items, leases, rows, newLease, row)
    ensures Db(items, leases, db.head, db.sovereign) == Grant(db, episode, limit, ttl, cap, newLease, now).0
    ensures Grant(db, episode, limit, ttl, cap, newLease, now).1
      == Delivery(newLease, rows, Through(db.items, Ids(rows)), false)
  {
    hide BelowBarrier, OneLeasePerEpisode, LinksResolve, Through;
  }

  lemma TakeOne(db: Db, items: map<AttentionId, Item>, leases: map<LeaseId, Lease>, rows: seq<AttentionId>, k: nat,
                newLease: LeaseId, row: Lease)
    requires k < |rows| && rows[k] in db.items && Taken(db, items, leases, rows[..k], newLease, row)
    ensures rows[k] in items && newLease in leases
    ensures Taken(db, items[rows[k] := items[rows[k]].(status := Leased)],
                  leases[newLease := leases[newLease].(items := leases[newLease].items + {rows[k]})],
                  rows[..k + 1], newLease, row)
  {
    assert rows[..k + 1] == rows[..k] + [rows[k]];
    assert Ids(rows[..k + 1]) == Ids(rows[..k]) + {rows[k]};
    var items' := items[rows[k] := items[rows[k]].(status := Leased)];
    forall i | i in db.items ensures items'[i] == Update(db.items, Ids(rows[..k + 1]), ANY, Leased)[i] {
      AnyStatus(db.items[i].status);
    }
    assert items' == Update(db.items, Ids(rows[..k + 1]), ANY, Leased);
  }

  class AttentionService {
    var items: map<AttentionId, Item>
    var leases: map<LeaseId, Lease>
    var head: Option<Head>
    var sovereign: Option<Sovereign>

    function Tables(): Db
      reads this
    {
      Db(items, leases, head, sovereign)
    }

    ghost predicate Valid()
      reads this
    {
      WellFormed(Tables())
    }

    constructor ()
      ensures Valid() && Tables() == EMPTY
    {
      items, leases, head, sovereign := map[], map[], None, None;
    }

    /** A dedupe key makes the insert conditional on no item with the same dependency. */
    method Enqueue(id: AttentionId, cursor: int, priority: int, critical: bool, dependency: nat, dedupe: bool)
      returns (stored: AttentionId, deduplicated: bool)
      requires Valid() && id !in items
      modifies this
      ensures Valid() && stored in items && items[stored].dependency == dependency
      ensures deduplicated <==> dedupe && exists i | i in old(items) :: old(items)[i].dependency == dependency
      ensures Tables() == if deduplicated then old(Tables())
                          else Insert(old(Tables()), id, cursor, priority, critical, dependency)
      ensures !deduplicated ==> stored == id && items[id].sequence == Next(old(Tables()))
    {
      InsertWellFormed(Tables(), id, cursor, priority, critical, dependency);
      if dedupe && exists i | i in items :: items[i].dependency == dependency {
        stored :| stored in items && items[stored].dependency == dependency;
        deduplicated := true;
      } else {
        var sequence := if head.Some? then head.value.next else 1;
        head := Some(Head(sequence + 1, if head.Some? then head.value.acknowledged else 0));
        items := items[id := Item(sequence, cursor, Clamp(priority, 0, 100), critical, dependency, Queued)];
        stored, deduplicated := id, false;
      }
    }

    method AbandonLocked(l: LeaseId)
      requires Valid() && l in leases
      modifies this`items, this`leases
      ensures Valid() && Tables() == AbandonAll(old(Tables()), {l})
    {
      Sweep(Tables(), {l});
      ghost var db := Tables();
      items := Update(items, leases[l].items, {Leased, ItemStatus.Responded}, Queued);
      if Live(leases[l]) {
        leases := leases[l := leases[l].(status := AttentionModel.Abandoned)];
      }
      assert LinkedTo(db.leases, {l}) == db.leases[l].items;
      assert leases == AbandonAll(db, {l}).leases;
    }

    method AbandonEach(ls: set<LeaseId>)
      requires Valid() && ls <= leases.Keys
      modifies this`items, this`leases
      ensures Valid() && Tables() == AbandonAll(old(Tables()), ls)
    {
      ghost var db := Tables();
      var todo, done := ls, {};
      AbandonNone(db);
      while todo != {}
        invariant todo !! done && todo + done == ls
        invariant Valid() && Tables() == AbandonAll(db, done)
        decreases todo
      {
        var l :| l in todo;
        AbandonLocked(l);
        AbandonOneMore(db, done, l);
        todo, done := todo - {l}, done + {l};
      }
      assert done == ls;
    }

    /** Nothing the lease holds is unpublished, and if it was answered, nothing newer is waiting. */
    method StillUsable(existing: LeaseId, cap: int, barrier: Option<nat>) returns (usable: bool)
      requires existing in leases
      requires forall s: nat :: Under(barrier, s) <==> BelowBarrier(items, cap, s)
      ensures usable <==> Reusable(Tables(), cap, existing)
    {
      if exists i | i in leases[existing].items && i in items ::
           items[i].cursor > cap || !Under(barrier, items[i].sequence)
      {
        return false;
      }
      var waiting := exists i | i in items :: items[i].status == Queued && Under(barrier, items[i].sequence);
      if waiting {
        var i :| i in items && items[i].status == Queued && Under(barrier, items[i].sequence);
        assert i in Deliverable(Tables(), cap);
      }
      usable := !(leases[existing].status == Answered && waiting);
    }

    /** SELECT the queued rows below the barrier in delivery order, up to the limit. */
    method Select(limit: int, cap: int, barrier: Option<nat>) returns (rows: seq<AttentionId>)
      requires Valid()
      requires forall s: nat :: Under(barrier, s) <==> BelowBarrier(items, cap, s)
      ensures rows == Ranked(items, Deliverable(Tables(), cap), Clamp(limit, 1, 64))
      ensures forall i | i in rows :: i in items
    {
      var queued := set i | i in items && items[i].status == Queued && Under(barrier, items[i].sequence);
      assert queued == Deliverable(Tables(), cap);
      rows := Ranked(items, queued, Clamp(limit, 1, 64));
    }

    /** One link row and one status per selected item. */
    method TakeRows(rows: seq<AttentionId>, newLease: LeaseId, ghost db: Db, ghost row: AttentionModel.Lease)
      requires forall i | i in rows :: i in db.items
      requires Taken(db, items, leases, [], newLease, row)
      modifies this`items, this`leases
      ensures Taken(db, items, leases, rows, newLease, row)
    {
      assert rows[..0] == [];
      for k := 0 to |rows|
        invariant Taken(db, items, leases, rows[..k], newLease, row)
      {
        TakeOne(db, items, leases, rows, k, newLease, row);
        leases := leases[newLease := leases[newLease].(items := leases[newLease].items + {rows[k]})];
        items := items[rows[k] := items[rows[k]].(status := Leased)];
      }
      assert rows[..|rows|] == rows;
    }

    /** The last part of `lease`: a new lease row, then one link row and one status per selected item. */
    method Fresh(episode: EpisodeId, limit: int, ttl: int, cap: int, barrier: Option<nat>, newLease: LeaseId, now: real)
      returns (d: Delivery)
      requires Valid() && newLease !in leases && LiveOf(Tables(), episode) == {}
      requires forall s: nat :: Under(barrier, s) <==> BelowBarrier(items, cap, s)
      modifies this`items, this`leases
      ensures Valid()
      ensures (Tables(), d) == Grant(old(Tables()), episode, limit, ttl, cap, newLease, now)
    {
      hide Sequenced, OneLeasePerEpisode, LinksResolve, Grant, Deliverable, Through, Taken, LiveOf, BelowBarrier, Under;
      ghost var db := Tables();
      GrantWellFormed(db, episode, limit, ttl, cap, newLease, now);
      var rows := Select(limit, cap, barrier);
      var through := Through(items, Ids(rows));
      leases := leases[newLease := AttentionModel.Lease(episode, {}, through, Open, now + ClampTtl(ttl))];
      ghost var row := leases[newLease];
      TakeNone(db, newLease, row);
      TakeRows(rows, newLease, db, row);
      TakenAll(db, items, leases, rows, row, episode, limit, ttl, cap, newLease, now);
      d := Delivery(newLease, rows, through, false);
    }

    /** The part of `lease` behind the sweep: reuse the episode's in-flight lease or replace it. */
    method FromSwept(episode: EpisodeId, limit: int, ttl: int, cap: int, barrier: Option<nat>, newLease: LeaseId,
                     now: real)
      returns (d: Delivery)
      requires Valid() && newLease !in leases
      requires forall s: nat :: Under(barrier, s) <==> BelowBarrier(items, cap, s)
      modifies this`items, this`leases
      ensures Valid()
      ensures (Tables(), d) == LeaseFrom(old(Tables()), episode, limit, ttl, cap, newLease, now)
    {
      ghost var swept := Tables();
      LeaseFromWellFormed(swept, episode, limit, ttl, cap, newLease, now);
      hide Sequenced, LinksResolve, Grant, Reusable, BelowBarrier, Under;
      var mine := LiveOf(Tables(), episode);
      if mine != {} {
        var existing :| existing in mine;
        assert mine == {existing};
        var usable := StillUsable(existing, cap, barrier);
        if usable {
          assert Reuses(swept, episode, cap);
          var rows := Ranked(items, leases[existing].items, |leases[existing].items|);
          return Delivery(existing, rows, leases[existing].through, true);
        }
        AbandonLocked(existing);
        SameBarrier(swept, {existing}, cap);
      } else {
        AbandonNone(swept);
      }
      assert Tables() == AbandonAll(swept, LiveOf(swept, episode));
      NoneLeft(swept, episode);
      d := Fresh(episode, limit, ttl, cap, barrier, newLease, now);
    }

    /** Deliver attention to an episode. `worldCursor` is the published cursor of the world store and
        `committed` the caller's own limit. */
    method Lease(episode: EpisodeId, limit: int, ttl: int, worldCursor: int, committed: Option<int>,
                 newLease: LeaseId, now: real)
      returns (d: Delivery)
      requires Valid() && newLease !in leases
      modifies this`items, this`leases
      ensures Valid()
      ensures var cap := if committed.Some? && committed.value < worldCursor then committed.value else worldCursor;
        (Tables(), d) == LeaseTx(old(Tables()), episode, limit, ttl, cap, newLease, now)
    {
      var cap := if committed.Some? && committed.value < worldCursor then committed.value else worldCursor;
      var barrier := Barrier(items, cap);
      LeaseWellFormed(Tables(), episode, limit, ttl, cap, newLease, now);
      ghost var before := Tables();
      AbandonEach(ExpiredLeases(Tables(), now));
      SameBarrier(before, ExpiredLeases(before, now), cap);
      d := FromSwept(episode, limit, ttl, cap, barrier, newLease, now);
    }

    method TransitionLease(l: LeaseId, expected: LeaseStatus, to: LeaseStatus) returns (error: Option<AttentionError>)
      modifies this`leases
      ensures Commits(Transition(old(Tables()), l, expected, to), old(Tables()), Tables(), error)
    {
      if l in leases && leases[l].status == expected {
        leases := leases[l := leases[l].(status := to)];
        error := None;
      } else {
        error := Some(InvalidLeaseTransition);
      }
    }

    method Placed(l: LeaseId) returns (error: Option<AttentionError>)
      requires Valid()
      modifies this`leases
      ensures Valid()
      ensures Commits(Transition(old(Tables()), l, Open, AttentionModel.Placed), old(Tables()), Tables(), error)
    {
      TransitionWellFormed(Tables(), l, Open, AttentionModel.Placed);
      error := TransitionLease(l, Open, AttentionModel.Placed);
    }

    /** Detach what the provider context could not show: back to the queue, out of the lease. */
    method RestrictForPlacement(l: LeaseId, visible: seq<AttentionId>)
      returns (error: Option<AttentionError>, requeued: set<AttentionId>)
      requires Valid()
      modifies this`items, this`leases
      ensures Valid()
      ensures Commits(RestrictTx(old(Tables()), l, Ids(visible)), old(Tables()), Tables(), error)
      ensures error == None ==> requeued == old(leases)[l].items - Ids(visible)
    {
      var shown := Ids(visible);
      RestrictWellFormed(Tables(), l, shown);
      requeued := {};
      if l !in leases || !Live(leases[l]) { return Some(InvalidLeaseTransition), requeued; }
      if !(shown <= leases[l].items) { return Some(PlacementScopeMismatch), requeued; }
      requeued := leases[l].items - shown;
      var kept := leases[l].items - requeued;
      assert kept == shown;
      leases := leases[l := leases[l].(items := kept, through := Through(items, shown))];
      if requeued != {} {
        items := Update(items, requeued, {Leased}, Queued);
      } else {
        assert Update(items, requeued, {Leased}, Queued) == items;
      }
      error := None;
    }

    /** Two transactions: the lease row, then the item rows. */
    method Responded(l: LeaseId) returns (error: Option<AttentionError>)
      requires Valid()
      modifies this`items, this`leases
      ensures Valid()
      ensures var first := Transition(old(Tables()), l, AttentionModel.Placed, Answered);
        Commits(if first.Ok? then Ok(RespondItems(first.value, l)) else first, old(Tables()), Tables(), error)
    {
      TransitionWellFormed(Tables(), l, AttentionModel.Placed, Answered);
      error := TransitionLease(l, AttentionModel.Placed, Answered);
      if error == None {
        RespondWellFormed(Tables(), l);
        items := Update(items, leases[l].items, ANY, ItemStatus.Responded);
      }
    }

    /** The row updates of `acknowledge`. */
    method Mark(l: LeaseId, covered: int, ghost through: Option<int>, ids: set<AttentionId>)
      returns (acknowledged: set<AttentionId>)
      requires Valid() && l in leases && covered == Covered(leases[l], through, ids)
      modifies this`items, this`leases
      ensures Valid() && Tables() == AckRows(old(Tables()), l, through, ids)
      ensures acknowledged == Eligible(old(Tables()), l, through, ids)
    {
      AckRowsWellFormed(Tables(), l, through, ids);
      acknowledged := set i | i in leases[l].items && i in items && (items[i].sequence <= covered || i in ids);
      var remainder := leases[l].items - acknowledged;
      items := Update(items, acknowledged, ANY, Acknowledged);
      items := Update(items, remainder, {Leased, ItemStatus.Responded}, Queued);
      leases := leases[l := leases[l].(status := Receipted)];
    }

    /** The loop of `acknowledge`: step over the sequences that are already acknowledged. */
    method FollowAcknowledged() returns (contiguous: nat)
      requires Valid()
      ensures contiguous == Contiguous(Tables(), AcknowledgedCursor(Tables()))
    {
      contiguous := if head.Some? then head.value.acknowledged else 0;
      while AcknowledgedAt(items, contiguous + 1)
        invariant contiguous < Next(Tables())
        invariant Contiguous(Tables(), contiguous) == Contiguous(Tables(), AcknowledgedCursor(Tables()))
        decreases Next(Tables()) - contiguous
      {
        contiguous := contiguous + 1;
      }
    }

    /** Acknowledge part or all of an answered lease, then advance the contiguous cursor. */
    method Acknowledge(l: LeaseId, through: Option<int>, ids: set<AttentionId>)
      returns (error: Option<AttentionError>, acknowledged: set<AttentionId>, cursor: nat)
      requires Valid()
      modifies this`items, this`leases, this`head
      ensures Valid()
      ensures Commits(AckTx(old(Tables()), l, through, ids), old(Tables()), Tables(), error)
      ensures error == None ==> acknowledged == Eligible(old(Tables()), l, through, ids)
      ensures error == None && head.Some? ==> cursor == head.value.acknowledged
    {
      hide Sequenced, OneLeasePerEpisode, LinksResolve, Contiguous, AckRows, Eligible;
      ghost var db := Tables();
      acknowledged, cursor := {}, 0;
      AckWellFormed(db, l, through, ids);
      if l !in leases || leases[l].status !in {Answered, Receipted} {
        return Some(NotCognitivelyResponded), acknowledged, cursor;
      }
      if !(ids <= leases[l].items) { return Some(AckScopeMismatch), acknowledged, cursor; }
      var covered := if through.Some? then through.value else if ids != {} then 0 else leases[l].through;
      if covered < 0 || covered > leases[l].through { return Some(AckCursorOutOfRange), acknowledged, cursor; }
      acknowledged := Mark(l, covered, through, ids);
      var contiguous := FollowAcknowledged();
      if head.Some? {
        head := Some(Head(head.value.next, contiguous));
      }
      error, cursor := None, contiguous;
    }

    method Abandon(l: LeaseId) returns (error: Option<AttentionError>)
      requires Valid()
      modifies this`items, this`leases
      ensures Valid() && Commits(DropTx(old(Tables()), l), old(Tables()), Tables(), error)
    {
      if l !in leases { return Some(UnknownLease); }
      AbandonLocked(l);
      error := None;
    }

    // ----- Sovereign lease -------------------------------------------------------------------

    method AcquireSovereign(episode: EpisodeId, mode: EpisodeMode, ttl: int, ownerOk: bool, token: Token, now: real)
      returns (error: Option<AttentionError>)
      requires Valid()
      modifies this`items, this`leases, this`sovereign
      ensures Valid()
      ensures Commits(AcquireTx(old(Tables()), episode, mode, ttl, ownerOk, token, now), old(Tables()), Tables(), error)
    {
      ghost var db := Tables();
      if !ownerOk { return Some(OwnerChanged); }
      if sovereign.Some? && sovereign.value.status == Active && sovereign.value.expires > now {
        if sovereign.value.episode != episode || sovereign.value.mode != mode { return Some(InvocationAlreadyActive); }
      }
      if sovereign.Some? && sovereign.value.status in {Active, Expired} && sovereign.value.expires <= now {
        AbandonEach(LiveOf(Tables(), sovereign.value.episode));
      }
      SovereignOnlyWellFormed(Tables(), Some(Sovereign(episode, mode, token, Active, now + ClampTtl(ttl))));
      sovereign := Some(Sovereign(episode, mode, token, Active, now + ClampTtl(ttl)));
      error := None;
    }

    method RenewSovereign(token: Token, episode: EpisodeId, ttl: int, ownerOk: bool, now: real)
      returns (error: Option<AttentionError>)
      requires Valid()
      modifies this`sovereign
      ensures Valid()
      ensures Commits(RenewTx(old(Tables()), token, episode, ttl, ownerOk, now), old(Tables()), Tables(), error)
    {
      if !ownerOk { return Some(OwnerChanged); }
      if sovereign.None? || sovereign.value.episode != episode || !CanRenew(Tables(), token, now) {
        return Some(AuthorityLost);
      }
      SovereignOnlyWellFormed(Tables(), Some(sovereign.value.(expires := now + ClampTtl(ttl))));
      sovereign := Some(sovereign.value.(expires := now + ClampTtl(ttl)));
      error := None;
    }

    method SovereignState(includeInactive: bool, now: real) returns (row: Option<Sovereign>)
      requires Valid()
      modifies this`sovereign
      ensures Valid() && Tables() == ReadSovereignTx(old(Tables()), now)
      ensures row ==
        if includeInactive || (sovereign.Some? && sovereign.value.status == Active) then sovereign else None
      ensures !includeInactive && row.Some? ==> row.value.expires > now
    {
      if sovereign.Some? && sovereign.value.status == Active && sovereign.value.expires <= now {
        SovereignOnlyWellFormed(Tables(), Some(sovereign.value.(status := Expired)));
        sovereign := Some(sovereign.value.(status := Expired));
      }
      row := if includeInactive || (sovereign.Some? && sovereign.value.status == Active) then sovereign else None;
    }

    method EndSovereign(to: SovereignStatus)
      requires Valid() && sovereign.Some?
      modifies this`items, this`leases, this`sovereign
      ensures Valid() && Tables() == EndAuthority(old(Tables()), to)
    {
      var episode := sovereign.value.episode;
      SovereignOnlyWellFormed(Tables(), Some(sovereign.value.(status := to)));
      ghost var db := Tables();
      sovereign := Some(sovereign.value.(status := to));
      assert LiveOf(Tables(), episode) == LiveOf(db, episode);
      AbandonEach(LiveOf(Tables(), episode));
    }

    method ReleaseSovereign(token: Token, committed: bool) returns (error: Option<AttentionError>)
      requires Valid()
      modifies this`items, this`leases, this`sovereign
      ensures Valid() && Commits(ReleaseTx(old(Tables()), token, committed), old(Tables()), Tables(), error)
    {
      if sovereign.None? || sovereign.value.token != token || sovereign.value.status != Active {
        return Some(InvalidSovereignLease);
      }
      EndSovereign(if committed then Committed else Cancelled);
      error := None;
    }

    method CancelActiveSovereign() returns (changed: bool)
      requires Valid()
      modifies this`items, this`leases, this`sovereign
      ensures Valid() && Tables() == CancelTx(old(Tables()))
      ensures changed <==> old(sovereign).Some? && old(sovereign).value.status == Active
    {
      changed := sovereign.Some? && sovereign.value.status == Active;
      if changed {
        EndSovereign(Cancelled);
      }
    }
  }
}
