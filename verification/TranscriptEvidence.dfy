/** What the collection retires, and exactly which evidence it loses on the way. */
module TranscriptEvidence {
  import opened Wrappers
  import opened TranscriptModel
  import opened TranscriptPromises
  import opened TranscriptStages
  import opened TranscriptContinuation
  import opened TranscriptPressure
  import opened TranscriptCollection

  // ----- One row through the rewriting stages ------------------------------------------------

  /** What the rewriting stages make of result row `i`. */
  ghost function Recollected(rows: seq<Row>, i: nat): Row
    requires i < |rows| && rows[i].Tool?
  {
    var ix, lastUser, whole := IndexOf(rows), LastUser(rows, |rows|), Whole(rows, rows, IndexOf(rows));
    var open := i !in whole && rows[i].id !in ix.pending;
    var retired := Retired(rows[i], NameAt(rows, i), ix.consumed, ix.pending);
    var framed := if Stale(ix, i, lastUser) && open then StaleMarker(retired) else retired;
    var asked := if IsQuery(ix, rows[i]) && open && Requeried(rows, whole, ix, i) then QueryMarker(framed) else framed;
    Compacted(asked, ix.calls, ix.pending, i < lastUser)
  }

  lemma ToolsThroughStages(rows: seq<Row>, ix: Index, whole: set<nat>, lastUser: int)
    ensures SameTools(rows, Retiring(rows, Opening(rows, lastUser), ix))
    ensures SameTools(rows, Superseding(Retiring(rows, Opening(rows, lastUser), ix), whole, ix, lastUser))
  {
    hide Stale, NameAt, WhollyRetired, Menu, GuidesTo;
  }

  lemma SameToolAt(rows: seq<Row>, after: seq<Row>, i: nat)
    requires SameTools(rows, after) && i < |rows|
    ensures (rows[i].Tool? <==> after[i].Tool?) && (rows[i].Tool? ==> rows[i].id == after[i].id)
  {}

  lemma RewrittenRow(rows: seq<Row>, i: nat)
    requires i < |rows| && rows[i].Tool?
    ensures Rewritten(rows)[i] == Recollected(rows, i)
  {
    var ix, lastUser := IndexOf(rows), LastUser(rows, |rows|);
    var noted := Opening(rows, lastUser);
    WholeAlike(rows, ix, lastUser);
    var whole, retired := Whole(rows, noted, ix), Retiring(rows, noted, ix);
    var superseded := Superseding(retired, whole, ix, lastUser);
    ToolsThroughStages(rows, ix, whole, lastUser);
    RequeriedAlike(rows, superseded, whole, ix, i);
    hide Stale, NameAt, WhollyRetired, Retired, Compacted, Requeried, IsQuery, LastUser, CallsUpTo, PendingUpTo;
    hide ConsumedUpTo, StateRowsUpTo, SameTools, Whole;
    assert noted[i] == rows[i];
    assert retired[i] == Retired(rows[i], NameAt(rows, i), ix.consumed, ix.pending);
    SameToolAt(rows, retired, i);
    SameToolAt(rows, superseded, i);
    assert superseded[i] == Superseded(retired, whole, ix, i, lastUser);
    assert Collapsing(superseded, whole, ix)[i] == Collapsed(superseded, whole, ix, i);
  }

  lemma OtherRow(row: Row, name: string, calls: map<Id, Call>, consumed: set<string>, pending: set<Id>, past: bool)
    requires !row.Tool?
    ensures Retired(row, name, consumed, pending) == row && Compacted(row, calls, pending, past) == row
  {}

  /** Rows that are not results come out as the boundary notice or as they are. */
  lemma OtherRowsStay(rows: seq<Row>, i: nat)
    requires i < |rows| && !rows[i].Tool?
    ensures Rewritten(rows)[i] == Opened(rows[i], i, LastUser(rows, |rows|))
  {
    hide LastUser, CallsUpTo, PendingUpTo, ConsumedUpTo, StateRowsUpTo, NameAt, Whole;
    var ix, lastUser := IndexOf(rows), LastUser(rows, |rows|);
    var noted := Opening(rows, lastUser);
    var whole, retired := Whole(rows, noted, ix), Retiring(rows, noted, ix);
    var superseded := Superseding(retired, whole, ix, lastUser);
    assert noted[i] == Opened(rows[i], i, lastUser) && !noted[i].Tool?;
    OtherRow(noted[i], NameAt(rows, i), ix.calls, ix.consumed, ix.pending, i < lastUser);
    hide Stale, Retired, Compacted, Requeried, Opened;
    assert retired[i] == noted[i];
    assert superseded[i] == Superseded(retired, whole, ix, i, lastUser) == noted[i];
    assert Collapsing(superseded, whole, ix)[i] == Collapsed(superseded, whole, ix, i) == noted[i];
  }

  // ----- Frames ------------------------------------------------------------------------------

  /** The newest state frame, of the current episode. */
  ghost predicate NewestFrame(rows: seq<Row>, i: nat)
    requires i < |rows|
  {
    i >= LastUser(rows, |rows|) && forall j | i < j < |rows| :: NameAt(rows, j) !in STATE_TOOLS
  }

  lemma {:induction false} StateRowsAre(rows: seq<Row>, n: nat, i: nat)
    requires n <= |rows|
    ensures i in StateRowsUpTo(rows, n) <==> i < n && NameAt(rows, i) in STATE_TOOLS
  {
    hide NameAt;
    if n == 0 {
    } else {
      StateRowsAre(rows, n - 1, i);
    }
  }

  lemma {:induction false} LastStateRow(rows: seq<Row>, n: nat, j: nat)
    requires n <= |rows| && j in StateRowsUpTo(rows, n)
    ensures var r := StateRowsUpTo(rows, n); j <= r[|r| - 1] && r[|r| - 1] in r
  {
    hide NameAt;
    if NameAt(rows, n - 1) in STATE_TOOLS {
    } else {
      LastStateRow(rows, n - 1, j);
    }
  }

  lemma LastIsNewest(rows: seq<Row>, i: nat)
    requires i in StateRowsUpTo(rows, |rows|)
    ensures i < |rows|
    ensures var states := StateRowsUpTo(rows, |rows|);
      i == states[|states| - 1] <==> forall j | i < j < |rows| :: NameAt(rows, j) !in STATE_TOOLS
  {
    var states := StateRowsUpTo(rows, |rows|);
    var last := states[|states| - 1];
    StateRowsAre(rows, |rows|, i);
    LastStateRow(rows, |rows|, i);
    StateRowsAre(rows, |rows|, last);
    hide NameAt, StateRowsUpTo;
    if i == last {
      forall j | i < j < |rows| ensures NameAt(rows, j) !in STATE_TOOLS {
        StateRowsAre(rows, |rows|, j);
        if j in states { LastStateRow(rows, |rows|, j); }
      }
    }
  }

  lemma IndexKnowsStates(rows: seq<Row>)
    ensures IndexOf(rows).stateRows == StateRowsUpTo(rows, |rows|)
  {
    hide StateRowsUpTo, CallsUpTo, PendingUpTo, ConsumedUpTo, LastUser;
  }

  /** Stale are exactly the state frames other than the newest of the current episode. */
  lemma StaleIsNotNewest(rows: seq<Row>, i: nat)
    requires i < |rows|
    ensures Stale(IndexOf(rows), i, LastUser(rows, |rows|)) <==> NameAt(rows, i) in STATE_TOOLS && !NewestFrame(rows, i)
  {
    hide NameAt, LastUser, StateRowsUpTo, IndexOf;
    IndexKnowsStates(rows);
    StateRowsAre(rows, |rows|, i);
    if i in StateRowsUpTo(rows, |rows|) { LastIsNewest(rows, i); }
  }

  // ----- What no sent row carries ------------------------------------------------------------

  ghost predicate Outdated(row: Row) {
    row.Tool? && row.body.Decoded? && row.body.outcome.ok && row.body.outcome.superseded
  }

  ghost function ToolOf(rows: seq<Row>, id: Id): string {
    NameOf(IndexOf(rows).calls, id)
  }

  /** A decision that was executed is not offered as a result of this tool. */
  ghost predicate NoOldDecision(name: string, body: Body, consumed: set<string>) {
    name in {"smac_decision", "smac_choices"} && body.Decoded? && body.outcome.decision.Some? ==>
      body.outcome.decision.value !in consumed
  }

  /** Nor as a menu inside an execution. */
  ghost predicate NoOldMenu(name: string, body: Body, consumed: set<string>) {
    name == EXECUTE && body.Decoded? ==> !Menu(body.outcome.post, consumed) && !Menu(body.outcome.recovery, consumed)
  }

  /** What holds of the row that has become of row `i`. */
  ghost predicate Settles(rows: seq<Row>, i: nat, row: Row)
    requires i < |rows|
  {
    var ix := IndexOf(rows);
    row.Tool? && row.id !in ix.pending ==>
      && NoOldDecision(ToolOf(rows, row.id), row.body, ix.consumed)
      && NoOldMenu(ToolOf(rows, row.id), row.body, ix.consumed)
      && (Stale(ix, i, LastUser(rows, |rows|)) ==> Outdated(row))
      && (Replaced(rows, i) ==> !Evidence(row.body))
  }

  lemma RetiredSettles(row: Row, name: string, consumed: set<string>, pending: set<Id>)
    requires row.Tool? && row.id !in pending
    ensures var r := Retired(row, name, consumed, pending);
      && r.Tool? && r.id == row.id && NoOldDecision(name, r.body, consumed) && NoOldMenu(name, r.body, consumed)
      && (WhollyRetired(row, name, consumed, pending) ==> Outdated(r) && !Evidence(r.body))
      && (!WhollyRetired(row, name, consumed, pending) && name != EXECUTE ==> r == row)
  {}

  lemma CompactedSettles(row: Row, calls: map<Id, Call>, pending: set<Id>, past: bool, consumed: set<string>)
    requires row.Tool? && row.id !in pending
    ensures var r, name := Compacted(row, calls, pending, past), NameOf(calls, row.id);
      && r.Tool? && r.id == row.id
      && (NoOldDecision(name, row.body, consumed) ==> NoOldDecision(name, r.body, consumed))
      && (NoOldMenu(name, row.body, consumed) ==> NoOldMenu(name, r.body, consumed))
      && (Outdated(row) ==> Outdated(r)) && (!Evidence(row.body) ==> !Evidence(r.body))
  {}

  lemma MarkersSettle(row: Row, name: string, consumed: set<string>)
    requires row.Tool?
    ensures NoOldDecision(name, StaleMarker(row).body, consumed) && NoOldMenu(name, StaleMarker(row).body, consumed)
    ensures NoOldDecision(name, QueryMarker(row).body, consumed) && NoOldMenu(name, QueryMarker(row).body, consumed)
    ensures Outdated(StaleMarker(row)) && !Evidence(StaleMarker(row).body) && !Evidence(QueryMarker(row).body)
  {}

  lemma FramesAreNoQueries(rows: seq<Row>, i: nat)
    requires Paired(Tagged(rows)) && i < |rows| && rows[i].Tool?
    ensures NameAt(rows, i) == ToolOf(rows, rows[i].id)
    ensures Stale(IndexOf(rows), i, LastUser(rows, |rows|)) ==> !IsQuery(IndexOf(rows), rows[i])
    ensures Stale(IndexOf(rows), i, LastUser(rows, |rows|)) ==> ToolOf(rows, rows[i].id) in STATE_TOOLS
  {
    NameIsKnown(rows, i);
    StaleIsNotNewest(rows, i);
    hide Paired, NameAt, Stale, LastUser, CallsUpTo;
    IndexKnowsPending(rows);
  }

  lemma MarkersKeepId(row: Row)
    requires row.Tool?
    ensures StaleMarker(row).Tool? && StaleMarker(row).id == row.id
    ensures QueryMarker(row).Tool? && QueryMarker(row).id == row.id
  {}

  lemma PendingRow(rows: seq<Row>, i: nat)
    requires i < |rows| && rows[i].Tool? && rows[i].id in IndexOf(rows).pending
    ensures Recollected(rows, i) == rows[i]
  {}

  /** The rewriting stages leave no old frame, menu or decision outside the newest batch. */
  lemma RewrittenSettles(rows: seq<Row>, i: nat)
    requires Paired(Tagged(rows)) && i < |rows| && rows[i].Tool?
    ensures Settles(rows, i, Rewritten(rows)[i])
  {
    RewrittenRow(rows, i);
    FramesAreNoQueries(rows, i);
    hide Paired, NameAt, Stale, LastUser, Requeried, Retired, Compacted, WhollyRetired, NoOldDecision, NoOldMenu;
    hide Outdated, Evidence, IndexUpTo, Rewritten, StaleMarker, QueryMarker, IsQuery, Tagged;
    var ix, lastUser, whole := IndexOf(rows), LastUser(rows, |rows|), Whole(rows, rows, IndexOf(rows));
    if rows[i].id !in ix.pending {
      var retired := Retired(rows[i], NameAt(rows, i), ix.consumed, ix.pending);
      RetiredSettles(rows[i], NameAt(rows, i), ix.consumed, ix.pending);
      var open := i !in whole;
      var framed := if Stale(ix, i, lastUser) && open then StaleMarker(retired) else retired;
      MarkersSettle(retired, NameAt(rows, i), ix.consumed);
      MarkersKeepId(retired);
      MarkersSettle(framed, NameAt(rows, i), ix.consumed);
      MarkersKeepId(framed);
      var asked :=
        if IsQuery(ix, rows[i]) && open && Requeried(rows, whole, ix, i) then QueryMarker(framed) else framed;
      CompactedSettles(asked, ix.calls, ix.pending, i < lastUser, ix.consumed);
    } else {
      PendingRow(rows, i);
    }
  }

  // ----- From the remainder to what is sent --------------------------------------------------

  /** A result row is carried along as it is. */
  ghost predicate Carries(rows: seq<Row>, m: Message) {
    m.origin < |rows| && (m.row.Tool? || rows[m.origin].Tool? ==> m.row == rows[m.origin])
  }

  lemma CutCarries(rows: seq<Row>, ms: seq<Message>, gone: set<Id>, dead: set<nat>)
    requires forall k | 0 <= k < |ms| :: Carries(rows, ms[k])
    ensures forall k | 0 <= k < |Cut(ms, |ms|, gone, dead)| :: Carries(rows, Cut(ms, |ms|, gone, dead)[k])
  {
    var cut, source := Cut(ms, |ms|, gone, dead), Sources(|ms|, dead);
    CutIsSourced(ms, |ms|, gone, dead);
    forall k | 0 <= k < |cut| ensures Carries(rows, cut[k]) {
      assert Sourced(ms, gone, cut, source, k) && Carries(rows, ms[source[k]]);
    }
  }

  lemma RemainderCarries(rows: seq<Row>, size: seq<Row> -> nat, k: nat)
    requires k < |Remainder(rows, size)|
    ensures Carries(Rewritten(rows), Remainder(rows, size)[k])
  {
    hide Rewritten, Removable, Results, Vanishing, Repetitions, Cutoff, LastUser, IndexUpTo;
    var after, lastUser := Rewritten(rows), LastUser(rows, |rows|);
    var gone := Removable(after, Before(lastUser), Results(after, |after|), IndexOf(rows).calls);
    CutCarries(after, Tagged(after), gone, Vanishing(after, gone));
    CutCarries(after, Pruned(after, gone), {}, Repetitions(Pruned(after, gone), Cutoff(after)));
  }

  lemma {:induction false} DroppedFrom(ms: seq<Message>, n: nat, dead: set<nat>, m: Message)
    requires n <= |ms| && m in Dropped(ms, n, dead)
    ensures m in ms
  {
    if m in Dropped(ms, n - 1, dead) {
      DroppedFrom(ms, n - 1, dead, m);
    } else {
      assert m == ms[n - 1];
    }
  }

  lemma GroupsDroppedFrom(ms: seq<Message>, calls: map<Id, Call>, keep: nat, m: Message)
    requires m in DroppedGroups(ms, calls, keep)
    ensures m in ms
  {
    var groups := Groups(ms, calls, |ms|);
    DroppedFrom(ms, |ms|, Removed(ms, groups, Expired(|groups|, keep)), m);
  }

  /** Every message that relief sends is one of the remainder after both passes. */
  lemma RelievedFrom(ms: seq<Message>, ix: Index, b: Budget, m: Message)
    requires m in Relieved(ms, ix.calls, ix.pending, b)
    ensures m in Evicting(Journaling(ms, ix.calls, ix.pending), ix.calls, ix.pending)
  {
    hide DroppedGroups, Evicting, Journaling;
    var evicted := Evicting(Journaling(ms, ix.calls, ix.pending), ix.calls, ix.pending);
    var first := DroppedGroups(evicted, ix.calls, KEEP);
    if m !in first { GroupsDroppedFrom(first, ix.calls, KEEP_UNDER_PRESSURE, m); }
    GroupsDroppedFrom(evicted, ix.calls, KEEP, m);
  }

  ghost predicate Evicted(ms: seq<Message>, k: nat, ix: Index, m: Message)
    requires k < |ms|
  {
    var journaled := Journaling(ms, ix.calls, ix.pending);
    k < |Evicting(journaled, ix.calls, ix.pending)| && m == Evicting(journaled, ix.calls, ix.pending)[k]
  }

  /** Message `m` is what becomes of message `k` of the remainder. */
  ghost predicate Becomes(ms: seq<Message>, k: nat, ix: Index, over: bool, m: Message)
    requires k < |ms|
  {
    m.origin == ms[k].origin
    && if over then Evicted(ms, k, ix, m) else m == ms[k]
  }

  lemma OriginsStay(ms: seq<Message>, ix: Index, k: nat)
    requires k < |ms|
    ensures var journaled := Journaling(ms, ix.calls, ix.pending);
      |Evicting(journaled, ix.calls, ix.pending)| == |ms|
      && Evicting(journaled, ix.calls, ix.pending)[k].origin == ms[k].origin
  {
    hide Later;
  }

  lemma SentBecomes(rows: seq<Row>, b: Budget, m: Message) returns (k: nat)
    requires Collected(rows, b).Ok? && m in Collected(rows, b).value
    ensures k < |Remainder(rows, b.size)| && Becomes(Remainder(rows, b.size), k, IndexOf(rows), Over(rows, b), m)
  {
    hide Remainder, IndexOf, Relieved, Evicting, Journaling;
    var ms, ix := Remainder(rows, b.size), IndexOf(rows);
    if Over(rows, b) {
      RelievedFrom(ms, ix, b, m);
      JournalingLength(ms, ix);
      k :| 0 <= k < |ms| && Evicting(Journaling(ms, ix.calls, ix.pending), ix.calls, ix.pending)[k] == m;
      OriginsStay(ms, ix, k);
    } else {
      k :| 0 <= k < |ms| && ms[k] == m;
    }
  }

  lemma NamesApart(name: string)
    ensures name in COGNITION_TOOLS ==> name !in QUERY_TOOLS && name !in STATE_TOOLS && name != EXECUTE && Managed(name)
    ensures name in COGNITION_TOOLS ==> name !in {"smac_decision", "smac_choices"}
    ensures name in QUERY_TOOLS ==> name !in STATE_TOOLS && name != EXECUTE && Managed(name)
    ensures name in STATE_TOOLS ==> name != EXECUTE
  {}

  lemma MarkerSettles(rows: seq<Row>, i: nat, row: Row, after: Row)
    requires i < |rows| && row.Tool? && after.Tool? && after.id == row.id
    requires !Stale(IndexOf(rows), i, LastUser(rows, |rows|))
    requires after.body.Decoded? && !Evidence(after.body)
    requires var o := after.body.outcome; o.decision == None && o.post == None && o.recovery == None
    ensures Settles(rows, i, after)
  {
    hide IndexOf, Replaced, Stale, LastUser, Evidence, NameOf;
  }

  lemma JournaledSettles(rows: seq<Row>, i: nat, m: Message)
    requires i < |rows| && Settles(rows, i, m.row) && m.row.Tool?
    requires Stale(IndexOf(rows), i, LastUser(rows, |rows|)) ==> ToolOf(rows, m.row.id) in STATE_TOOLS
    ensures Settles(rows, i, Journaled(m, IndexOf(rows).calls, IndexOf(rows).pending).row)
    ensures Settles(rows, i, EvictedQuery(m, IndexOf(rows).calls, IndexOf(rows).pending).row)
  {
    hide IndexOf, Replaced, Stale, LastUser, Settles, DurableWrite;
    var ix := IndexOf(rows);
    NamesApart(ToolOf(rows, m.row.id));
    if Journaled(m, ix.calls, ix.pending) != m {
      MarkerSettles(rows, i, m.row, Journaled(m, ix.calls, ix.pending).row);
    }
    if EvictedQuery(m, ix.calls, ix.pending) != m {
      MarkerSettles(rows, i, m.row, EvictedQuery(m, ix.calls, ix.pending).row);
    }
  }

  lemma EvictedKinds(ms: seq<Message>, ix: Index, k: nat)
    requires k < |ms|
    ensures var journaled := Journaling(ms, ix.calls, ix.pending);
      |journaled| == |ms| && |Evicting(journaled, ix.calls, ix.pending)| == |ms|
      && var m := Evicting(journaled, ix.calls, ix.pending)[k];
         SameShape(ms[k].row, m.row) && SameShape(ms[k].row, journaled[k].row)
  {
    hide Later;
  }

  lemma RewrittenKinds(rows: seq<Row>, i: nat)
    requires i < |rows| && Rewritten(rows)[i].Tool?
    ensures rows[i].Tool? && rows[i].id == Rewritten(rows)[i].id
  {
    hide LastUser, IndexUpTo, Stale, NameAt, WhollyRetired, Requeried;
  }

  /** What is sent of row `i` is settled. */
  lemma SentSettles(rows: seq<Row>, b: Budget, m: Message)
    requires Paired(Tagged(rows)) && Collected(rows, b).Ok? && m in Collected(rows, b).value && m.row.Tool?
    ensures m.origin < |rows| && rows[m.origin].Tool? && rows[m.origin].id == m.row.id
    ensures Settles(rows, m.origin, m.row)
  {
    hide Paired, Remainder, Collected, Settles, Stale, LastUser, Rewritten, Recollected, IndexOf, Replaced;
    hide Journaling, Evicting, Journaled, EvictedQuery, Yields;
    var k := SentBecomes(rows, b, m);
    var ms, ix := Remainder(rows, b.size), IndexOf(rows);
    RemainderCarries(rows, b.size, k);
    EvictedOnce(ms, ix, k);
    EvictedKinds(ms, ix, k);
    var i := m.origin;
    RewrittenKinds(rows, i);
    RewrittenSettles(rows, i);
    FramesAreNoQueries(rows, i);
    if Over(rows, b) {
      JournaledSettles(rows, i, ms[k]);
      JournaledShape(ms[k], ix.calls, ix.pending);
      JournaledSettles(rows, i, Journaling(ms, ix.calls, ix.pending)[k]);
    }
  }

  /** In what is sent, outside the newest batch only the newest state frame of the current episode is live. */
  lemma OnlyNewestFrameLives(rows: seq<Row>, b: Budget, m: Message)
    requires Paired(Tagged(rows)) && Collected(rows, b).Ok? && m in Collected(rows, b).value
    requires m.row.Tool? && m.row.id !in IndexOf(rows).pending && ToolOf(rows, m.row.id) in STATE_TOOLS
    ensures m.origin < |rows| && (Outdated(m.row) || NewestFrame(rows, m.origin))
  {
    hide Paired, Collected, Outdated, NewestFrame;
    SentSettles(rows, b, m);
    FramesAreNoQueries(rows, m.origin);
    StaleIsNotNewest(rows, m.origin);
  }

  /** In what is sent, outside the newest batch no decision that was executed is offered. */
  lemma ConsumedDecisionIsRetired(rows: seq<Row>, b: Budget, m: Message)
    requires Paired(Tagged(rows)) && Collected(rows, b).Ok? && m in Collected(rows, b).value
    requires m.row.Tool? && m.row.id !in IndexOf(rows).pending && m.row.body.Decoded?
    requires ToolOf(rows, m.row.id) in {"smac_decision", "smac_choices"}
    ensures m.row.body.outcome.decision.Some? ==> m.row.body.outcome.decision.value !in IndexOf(rows).consumed
  {
    hide Paired, Collected;
    SentSettles(rows, b, m);
  }

  /** Nor does an execution carry its menu. */
  lemma ConsumedMenuIsRetired(rows: seq<Row>, b: Budget, m: Message)
    requires Paired(Tagged(rows)) && Collected(rows, b).Ok? && m in Collected(rows, b).value
    requires m.row.Tool? && m.row.id !in IndexOf(rows).pending && m.row.body.Decoded?
    requires ToolOf(rows, m.row.id) == EXECUTE
    ensures !Menu(m.row.body.outcome.post, IndexOf(rows).consumed)
    ensures !Menu(m.row.body.outcome.recovery, IndexOf(rows).consumed)
  {
    hide Paired, Collected, Menu;
    SentSettles(rows, b, m);
  }

  // ----- Evidence ----------------------------------------------------------------------------

  ghost predicate Says(rows: seq<Row>, m: Message, i: nat)
    requires i < |rows| && rows[i].Tool?
  {
    m.origin == i && m.row.Tool? && m.row.id == rows[i].id && SameEvidence(rows[i].body, m.row.body)
  }

  /** The result of row `i` is sent with everything it says. */
  ghost predicate SentWhole(rows: seq<Row>, ms: seq<Message>, i: nat)
    requires i < |rows| && rows[i].Tool?
  {
    exists k | 0 <= k < |ms| :: Says(rows, ms[k], i)
  }

  /** In the remainder at least `n` results of these tools stand behind the one of row `i`. */
  ghost predicate Followed(rows: seq<Row>, b: Budget, i: nat, names: set<string>, n: nat) {
    var ms := Remainder(rows, b.size);
    exists k | 0 <= k < |ms| :: ms[k].origin == i && Later(ms, k + 1, IndexOf(rows).calls, names) >= n
  }

  /** The collection gives up what row `i` says. */
  ghost predicate Forgone(rows: seq<Row>, b: Budget, i: nat)
    requires i < |rows| && rows[i].Tool?
  {
    var ix, id, body := IndexOf(rows), rows[i].id, rows[i].body;
    var name := ToolOf(rows, id);
    && id !in ix.pending
    && ((name in STATE_TOOLS && !NewestFrame(rows, i))
        || WhollyRetired(rows[i], name, ix.consumed, ix.pending)
        || (name in QUERY_TOOLS && Requeried(rows, Whole(rows, rows, ix), ix, i))
        || (Over(rows, b) && body.Decoded? && body.outcome.ok
            && ((name in QUERY_TOOLS && Followed(rows, b, i, QUERY_TOOLS, 1))
                || (name in COGNITION_TOOLS && DurableWrite(ix.calls, id) && body.envelope != Untrusted
                    && Followed(rows, b, i, COGNITION_TOOLS, RECENT_COGNITION)))))
  }

  lemma IsQueryByName(rows: seq<Row>, i: nat)
    requires i < |rows| && rows[i].Tool?
    ensures IsQuery(IndexOf(rows), rows[i]) <==> ToolOf(rows, rows[i].id) in QUERY_TOOLS
  {
    hide LastUser, IndexUpTo;
  }

  /** What the rewriting stages replace, in terms of the tool. */
  lemma ReplacedByName(rows: seq<Row>, i: nat)
    requires Paired(Tagged(rows)) && i < |rows| && rows[i].Tool?
    ensures var ix, name := IndexOf(rows), ToolOf(rows, rows[i].id);
      Replaced(rows, i) <==>
        (&& rows[i].id !in ix.pending
         && ((name in STATE_TOOLS && !NewestFrame(rows, i))
             || WhollyRetired(rows[i], name, ix.consumed, ix.pending)
             || (name in QUERY_TOOLS && Requeried(rows, Whole(rows, rows, ix), ix, i))))
  {
    hide Paired, NameAt, NewestFrame, WhollyRetired, Requeried, Stale, IndexOf, LastUser, Whole;
    FramesAreNoQueries(rows, i);
    StaleIsNotNewest(rows, i);
    IsQueryByName(rows, i);
  }

  /** A row that is not replaced keeps what it says through the rewriting stages; queries and cognition
      results also keep their form, but for a transport wrapper. */
  lemma UnreplacedRow(rows: seq<Row>, i: nat)
    requires Paired(Tagged(rows)) && i < |rows| && rows[i].Tool? && rows[i].id !in IndexOf(rows).pending
    requires !Replaced(rows, i) && ToolOf(rows, rows[i].id) in QUERY_TOOLS + COGNITION_TOOLS
    ensures var body, after := rows[i].body, Rewritten(rows)[i];
      && after.Tool? && after.id == rows[i].id && (after.body.Decoded? <==> body.Decoded?)
      && (body.Decoded? ==>
            && after.body.outcome == body.outcome
            && (after.body.envelope == Plain <==> body.envelope != Untrusted))
  {
    RewrittenRow(rows, i);
    FramesAreNoQueries(rows, i);
    NamesApart(ToolOf(rows, rows[i].id));
    hide Paired, NameAt, Requeried, Stale, LastUser, IndexUpTo, Rewritten, Whole, IsQuery, Managed;
    RetiredSettles(rows[i], NameAt(rows, i), IndexOf(rows).consumed, IndexOf(rows).pending);
    assert Recollected(rows, i) == Compacted(rows[i], IndexOf(rows).calls, IndexOf(rows).pending,
                                             i < LastUser(rows, |rows|));
  }

  lemma ResultsApart(rows: seq<Row>, i: nat, j: nat)
    requires Paired(Tagged(rows)) && i < j < |rows| && rows[i].Tool? && rows[j].Tool?
    ensures rows[i].id != rows[j].id
  {
    assert OnlyResult(Tagged(rows), j);
    assert Tagged(rows)[i].row.Tool?;
  }

  lemma SameResult(rows: seq<Row>, i: nat, j: nat)
    requires Paired(Tagged(rows)) && i < |rows| && j < |rows|
    requires rows[i].Tool? && rows[j].Tool? && rows[i].id == rows[j].id
    ensures i == j
  {
    hide Paired, Tagged;
    if i < j { ResultsApart(rows, i, j); }
    if j < i { ResultsApart(rows, j, i); }
  }

  lemma ReplacedIsTool(rows: seq<Row>, j: nat)
    requires j < |rows| && Replaced(rows, j)
    ensures rows[j].Tool?
  {
    hide Stale, WhollyRetired, Requeried, IndexOf, LastUser;
  }

  lemma MarkedIff(rows: seq<Row>, i: nat)
    requires Paired(Tagged(rows)) && i < |rows| && rows[i].Tool?
    ensures rows[i].id in Marked(rows) <==> Replaced(rows, i)
  {
    hide Paired, Replaced;
    forall j | 0 <= j < |rows| && Replaced(rows, j) ensures rows[j].Tool? { ReplacedIsTool(rows, j); }
    if rows[i].id in Marked(rows) {
      var j :| 0 <= j < |rows| && Replaced(rows, j) && rows[j].id == rows[i].id;
      SameResult(rows, i, j);
    }
  }

  lemma RecollectedKind(rows: seq<Row>, i: nat)
    requires i < |rows| && rows[i].Tool?
    ensures Recollected(rows, i).Tool? && Recollected(rows, i).id == rows[i].id
  {
    hide Stale, NameAt, Requeried, IndexOf, LastUser, WhollyRetired, Receipt, IsQuery;
  }

  /** The remainder holds a result row at most once, as the rewriting stages left it. */
  lemma RemainderRow(rows: seq<Row>, b: Budget, k: nat, i: nat)
    requires Paired(Tagged(rows)) && i < |rows| && rows[i].Tool? && k < |Remainder(rows, b.size)|
    requires var m := Remainder(rows, b.size)[k]; m.origin == i || (m.row.Tool? && m.row.id == rows[i].id)
    ensures Remainder(rows, b.size)[k] == Message(i, Rewritten(rows)[i])
  {
    hide Paired, Remainder, Rewritten;
    var m := Remainder(rows, b.size)[k];
    RemainderCarries(rows, b.size, k);
    if m.origin != i {
      RewrittenKinds(rows, m.origin);
      SameResult(rows, i, m.origin);
    } else {
      RewrittenRow(rows, i);
      RecollectedKind(rows, i);
    }
  }

  lemma YieldsHere(rows: seq<Row>, ms: seq<Message>, k: nat, ix: Index, i: nat)
    requires k < |ms| && ms[k].row.Tool?
    ensures Yields(ms, k, ix) ==> ms[k].row.id in Pressed(ms, ix)
  {
    hide Yields;
  }

  /** What relief replaces, in terms of the tool. */
  lemma PressedIff(rows: seq<Row>, b: Budget, i: nat)
    requires Paired(Tagged(rows)) && i < |rows| && rows[i].Tool? && !Replaced(rows, i)
    ensures var ix, name, body := IndexOf(rows), ToolOf(rows, rows[i].id), rows[i].body;
      rows[i].id in Pressed(Remainder(rows, b.size), ix) <==>
        rows[i].id !in ix.pending && body.Decoded? && body.outcome.ok
        && ((name in QUERY_TOOLS && Followed(rows, b, i, QUERY_TOOLS, 1))
            || (name in COGNITION_TOOLS && DurableWrite(ix.calls, rows[i].id) && body.envelope != Untrusted
                && Followed(rows, b, i, COGNITION_TOOLS, RECENT_COGNITION)))
  {
    hide Paired, Remainder, Rewritten, Recollected, Replaced, IndexOf, Later, DurableWrite;
    var ms, ix, name := Remainder(rows, b.size), IndexOf(rows), ToolOf(rows, rows[i].id);
    RewrittenRow(rows, i);
    RecollectedKind(rows, i);
    if rows[i].id !in ix.pending && name in QUERY_TOOLS + COGNITION_TOOLS { UnreplacedRow(rows, i); }
    forall k | 0 <= k < |ms| && (ms[k].origin == i || (ms[k].row.Tool? && ms[k].row.id == rows[i].id))
      ensures ms[k] == Message(i, Rewritten(rows)[i])
    {
      RemainderRow(rows, b, k, i);
    }
    if rows[i].id in Pressed(ms, ix) {
      var k :| 0 <= k < |ms| && Yields(ms, k, ix) && ms[k].row.id == rows[i].id;
      assert ms[k].origin == i;
    }
    if Followed(rows, b, i, QUERY_TOOLS, 1) {
      var k :| 0 <= k < |ms| && ms[k].origin == i && Later(ms, k + 1, ix.calls, QUERY_TOOLS) >= 1;
      YieldsHere(rows, ms, k, ix, i);
    }
    if Followed(rows, b, i, COGNITION_TOOLS, RECENT_COGNITION) {
      var k :| 0 <= k < |ms| && ms[k].origin == i && Later(ms, k + 1, ix.calls, COGNITION_TOOLS) >= RECENT_COGNITION;
      YieldsHere(rows, ms, k, ix, i);
    }
  }

  lemma PressedUnlessReplaced(rows: seq<Row>, b: Budget, i: nat)
    requires Paired(Tagged(rows)) && i < |rows| && rows[i].Tool?
    ensures var ix, name, body := IndexOf(rows), ToolOf(rows, rows[i].id), rows[i].body;
      Replaced(rows, i)
      || (rows[i].id in Pressed(Remainder(rows, b.size), ix) <==>
            rows[i].id !in ix.pending && body.Decoded? && body.outcome.ok
            && ((name in QUERY_TOOLS && Followed(rows, b, i, QUERY_TOOLS, 1))
                || (name in COGNITION_TOOLS && DurableWrite(ix.calls, rows[i].id) && body.envelope != Untrusted
                    && Followed(rows, b, i, COGNITION_TOOLS, RECENT_COGNITION))))
  {
    hide Paired, Pressed, Replaced, Remainder, IndexOf, Followed, DurableWrite;
    if !Replaced(rows, i) { PressedIff(rows, b, i); }
  }

  /** What the collection gives up is exactly what it loses. */
  lemma LostIffForgone(rows: seq<Row>, b: Budget, i: nat)
    requires Paired(Tagged(rows)) && i < |rows| && rows[i].Tool?
    ensures rows[i].id in Lost(rows, b) <==> Forgone(rows, b, i)
    ensures Forgone(rows, b, i) ==> rows[i].id !in IndexOf(rows).pending
  {
    hide Paired, Marked, Pressed, Over, Replaced, Remainder, IndexOf, NewestFrame, WhollyRetired, Requeried, Whole;
    hide Followed, DurableWrite;
    MarkedIff(rows, i);
    ReplacedByName(rows, i);
    PressedUnlessReplaced(rows, b, i);
  }

  lemma KeptEvidence(rows: seq<Row>, b: Budget, i: nat)
    requires Paired(Tagged(rows)) && Collected(rows, b).Ok? && i < |rows| && rows[i].Tool?
    requires Evidence(rows[i].body) && rows[i].id !in Lost(rows, b)
    ensures SentWhole(rows, Collected(rows, b).value, i)
  {
    CollectionIsFaithful(rows, b);
    hide Collected, Paired, Lost, Evidence, SameEvidence, IndexOf;
    var ms := Collected(rows, b).value;
    assert Stays(rows, ms, i, IndexOf(rows).pending, Lost(rows, b));
    var k :| 0 <= k < |ms| && ms[k].origin == i;
    assert Inherits(rows, ms[k], IndexOf(rows).pending, Lost(rows, b));
    assert Says(rows, ms[k], i);
  }

  lemma SettledIsBlank(rows: seq<Row>, i: nat, row: Row)
    requires i < |rows| && Settles(rows, i, row) && row.Tool? && row.id !in IndexOf(rows).pending && Replaced(rows, i)
    ensures !Evidence(row.body)
  {
    hide Stale, IndexOf, Evidence, Replaced, LastUser, NoOldDecision, NoOldMenu, Outdated;
  }

  lemma PressedAt(ms: seq<Message>, ix: Index, id: Id) returns (k: nat)
    requires id in Pressed(ms, ix)
    ensures k < |ms| && Yields(ms, k, ix) && ms[k].row.Tool? && ms[k].row.id == id
  {
    hide Later, DurableWrite;
    k :| 0 <= k < |ms| && Yields(ms, k, ix) && ms[k].row.id == id;
  }

  lemma SamePlace(rows: seq<Row>, b: Budget, k: nat, l: nat)
    requires Paired(Tagged(rows)) && k < |Remainder(rows, b.size)| && l < |Remainder(rows, b.size)|
    requires Remainder(rows, b.size)[k] == Remainder(rows, b.size)[l]
    ensures k == l
  {
    hide Paired, Remainder, Marked, IndexOf, Faithful;
    RemainderIsFaithful(rows, b.size, Marked(rows));
    FaithIsPaired(rows, Remainder(rows, b.size), IndexOf(rows).pending, Marked(rows));
  }

  lemma LostRowIsBlank(rows: seq<Row>, b: Budget, i: nat, m: Message)
    requires Paired(Tagged(rows)) && Collected(rows, b).Ok? && i < |rows| && rows[i].Tool?
    requires rows[i].id in Lost(rows, b) && rows[i].id !in IndexOf(rows).pending
    requires m in Collected(rows, b).value && m.origin == i && m.row.Tool? && m.row.id == rows[i].id
    ensures !Evidence(m.row.body)
  {
    hide Collected, Paired, Evidence, IndexOf, Marked, Pressed, Remainder, Replaced, Over, Yields, Journaling, Evicting;
    MarkedIff(rows, i);
    if Replaced(rows, i) {
      SentSettles(rows, b, m);
      SettledIsBlank(rows, i, m.row);
    } else {
      var ms, ix := Remainder(rows, b.size), IndexOf(rows);
      var k := SentBecomes(rows, b, m);
      var l := PressedAt(ms, ix, rows[i].id);
      RemainderRow(rows, b, k, i);
      RemainderRow(rows, b, l, i);
      SamePlace(rows, b, k, l);
      EvictedOnce(ms, ix, k);
    }
  }

  lemma LostEvidence(rows: seq<Row>, b: Budget, i: nat)
    requires Paired(Tagged(rows)) && Collected(rows, b).Ok? && i < |rows| && rows[i].Tool?
    requires Evidence(rows[i].body) && rows[i].id in Lost(rows, b) && rows[i].id !in IndexOf(rows).pending
    ensures !SentWhole(rows, Collected(rows, b).value, i)
  {
    hide Collected, Paired, Lost, Evidence, SameEvidence, IndexOf, Marked, Pressed;
    var ms := Collected(rows, b).value;
    forall k | 0 <= k < |ms| ensures !Says(rows, ms[k], i) {
      if ms[k].origin == i && ms[k].row.Tool? && ms[k].row.id == rows[i].id {
        LostRowIsBlank(rows, b, i, ms[k]);
        if SameEvidence(rows[i].body, ms[k].row.body) { EvidenceStays(rows[i].body, ms[k].row.body); }
      }
    }
  }

  /** A failure, an obligation or an unreadable result is sent with everything it says unless the collection
      gives it up: a state frame that is not the newest of the episode, the menu of a consumed decision, a
      query that was asked again or, over the ceiling, a successful query with a later one behind it and a
      successful durable write with four later cognition results behind it. Nothing of the newest batch. */
  lemma EvidenceIsSent(rows: seq<Row>, b: Budget, i: nat)
    requires Paired(Tagged(rows)) && Collected(rows, b).Ok? && i < |rows| && rows[i].Tool? && Evidence(rows[i].body)
    ensures SentWhole(rows, Collected(rows, b).value, i) <==> !Forgone(rows, b, i)
  {
    hide Paired, Collected, Lost, Forgone, SentWhole, Evidence, IndexOf;
    LostIffForgone(rows, b, i);
    if rows[i].id in Lost(rows, b) { LostEvidence(rows, b, i); } else { KeptEvidence(rows, b, i); }
  }

  // ----- What a kept result says -------------------------------------------------------------

  /** An execution that succeeded and is over: it is old, or its own next menu is. */
  predicate RunsItsCourse(o: Outcome, consumed: set<string>, past: bool) {
    o.ok && o.completed && (past || Nested(o).consumed || Nested(o).superseded || Menu(o.post, consumed))
  }

  /** Guidance goes with the course of its execution, with the menu of a consumed decision that it points to,
      and when it only points on from an old execution. */
  predicate GuidanceGoes(o: Outcome, consumed: set<string>, past: bool) {
    || RunsItsCourse(o, consumed, past)
    || GuidesTo(o, o.post, consumed) || GuidesTo(o, o.recovery, consumed)
    || (past && o.next.Some? && !o.next.value.stop && o.next.value.tool in {"smac_decision", EXECUTE})
  }

  /** What becomes of an execution beside its evidence. */
  ghost predicate Ages(o: Outcome, r: Outcome, consumed: set<string>, past: bool) {
    && (r.next == o.next <==> o.next.None? || !GuidanceGoes(o, consumed, past))
    && r.mark == (if RunsItsCourse(o, consumed, past) then ExecutionReceipt else o.mark)
    && r.superseded == o.superseded
    && (if past || RunsItsCourse(o, consumed, past) then r.decision == None && r.choice == None && !r.consumed
        else r.decision == o.decision && r.choice == o.choice && r.consumed == o.consumed)
    && (r.post.Some? <==>
          o.post.Some? && !past && !Nested(o).consumed && !Nested(o).superseded && !Menu(o.post, consumed))
    && (r.post.Some? ==> r.post == o.post)
  }

  /** What retiring leaves of an execution. */
  function RetiredOutcome(o: Outcome, consumed: set<string>): Outcome {
    o.(post := Emptied(o.post, consumed), recovery := Emptied(o.recovery, consumed),
       next := if GuidesTo(o, o.post, consumed) || GuidesTo(o, o.recovery, consumed) then Some(RETIRED_GUIDANCE)
               else o.next)
  }

  lemma RetiredExecution(row: Row, consumed: set<string>, pending: set<Id>)
    requires row.Tool? && row.id !in pending && row.body.Decoded?
    ensures var r := Retired(row, EXECUTE, consumed, pending);
      r.Tool? && r.id == row.id && r.body.Decoded? && r.body.outcome == RetiredOutcome(row.body.outcome, consumed)
  {}

  lemma EmptiedIsObsolete(o: Outcome, consumed: set<string>, past: bool)
    ensures Obsolete(RetiredOutcome(o, consumed), past)
      <==> past || Nested(o).consumed || Nested(o).superseded || Menu(o.post, consumed)
  {
    hide GuidesTo;
  }

  lemma ReceiptAges(o: Outcome, past: bool)
    ensures var r := Receipt(o, past);
      && r.mark == (if Obsolete(o, past) && o.ok && o.completed then ExecutionReceipt else o.mark)
      && (past || (Obsolete(o, past) && o.ok && o.completed) ==> r.decision == None && r.choice == None && !r.consumed)
      && (!past && !(Obsolete(o, past) && o.ok && o.completed) ==>
            r.decision == o.decision && r.choice == o.choice && r.consumed == o.consumed)
      && r.post == if Obsolete(o, past) then None else o.post
  {
    hide Nested;
  }

  lemma OutcomeAges(o: Outcome, consumed: set<string>, past: bool)
    ensures Ages(o, Receipt(RetiredOutcome(o, consumed), past), consumed, past)
  {
    var retired := RetiredOutcome(o, consumed);
    ReceiptForgetsHandlesOnly(retired, past);
    ReceiptAges(retired, past);
    EmptiedIsObsolete(o, consumed, past);
    hide Obsolete, Receipt, Nested;
  }

  lemma ExecutionAges(row: Row, calls: map<Id, Call>, consumed: set<string>, pending: set<Id>, past: bool)
    requires row.Tool? && row.id !in pending && row.body.Decoded? && NameOf(calls, row.id) == EXECUTE
    ensures var r := Compacted(Retired(row, EXECUTE, consumed, pending), calls, pending, past);
      && r.Tool? && r.id == row.id && r.body.Decoded? && SameEvidence(row.body, r.body)
      && Ages(row.body.outcome, r.body.outcome, consumed, past)
  {
    var o := row.body.outcome;
    RetiredExecution(row, consumed, pending);
    ReceiptForgetsHandlesOnly(RetiredOutcome(o, consumed), past);
    OutcomeAges(o, consumed, past);
    hide Retired, Ages, Obsolete, Receipt, GuidanceExpires, GuidesTo;
  }

  lemma RetiredKeepsId(row: Row, name: string, consumed: set<string>, pending: set<Id>)
    requires row.Tool?
    ensures Retired(row, name, consumed, pending).Tool? && Retired(row, name, consumed, pending).id == row.id
  {
    hide Menu, GuidesTo;
  }

  lemma UnreplacedIsOpen(rows: seq<Row>, i: nat)
    requires i < |rows| && rows[i].Tool? && rows[i].id !in IndexOf(rows).pending && !Replaced(rows, i)
    ensures var ix := IndexOf(rows);
      Recollected(rows, i)
        == Compacted(Retired(rows[i], NameAt(rows, i), ix.consumed, ix.pending), ix.calls, ix.pending,
                     i < LastUser(rows, |rows|))
  {
    hide NameAt, Requeried, Stale, LastUser, IndexOf, IsQuery, Retired, Compacted, WhollyRetired, Whole;
    hide StaleMarker, QueryMarker;
    RetiredKeepsId(rows[i], NameAt(rows, i), IndexOf(rows).consumed, IndexOf(rows).pending);
  }

  /** Row `i` after the rewriting stages when nothing replaced it. */
  lemma UnreplacedIsCompacted(rows: seq<Row>, i: nat)
    requires Paired(Tagged(rows)) && i < |rows| && rows[i].Tool? && rows[i].id !in IndexOf(rows).pending
    requires !Replaced(rows, i)
    ensures var ix := IndexOf(rows);
      Rewritten(rows)[i]
        == Compacted(Retired(rows[i], ToolOf(rows, rows[i].id), ix.consumed, ix.pending), ix.calls, ix.pending,
                     i < LastUser(rows, |rows|))
  {
    hide *;
    RewrittenRow(rows, i);
    FramesAreNoQueries(rows, i);
    UnreplacedIsOpen(rows, i);
  }

  /** What is sent of a row that is not given up is what the rewriting stages made of it. */
  lemma UnforgoneRow(rows: seq<Row>, b: Budget, i: nat, m: Message)
    requires Paired(Tagged(rows)) && Collected(rows, b).Ok? && i < |rows| && rows[i].Tool?
    requires !Forgone(rows, b, i) && m in Collected(rows, b).value && m.origin == i
    ensures m.row == Rewritten(rows)[i] && !Replaced(rows, i)
  {
    hide Collected, Paired, Forgone, IndexOf, Marked, Remainder, Replaced, Over, Yields, Journaling, Evicting;
    hide Rewritten;
    LostIffForgone(rows, b, i);
    MarkedIff(rows, i);
    var ms, ix := Remainder(rows, b.size), IndexOf(rows);
    var k := SentBecomes(rows, b, m);
    RemainderRow(rows, b, k, i);
    RewrittenRow(rows, i);
    RecollectedKind(rows, i);
    YieldsHere(rows, ms, k, ix, i);
    EvictedOnce(ms, ix, k);
  }

  lemma NotWhollyRetired(rows: seq<Row>, i: nat)
    requires Paired(Tagged(rows)) && i < |rows| && rows[i].Tool? && rows[i].id !in IndexOf(rows).pending
    requires !Replaced(rows, i)
    ensures !WhollyRetired(rows[i], ToolOf(rows, rows[i].id), IndexOf(rows).consumed, IndexOf(rows).pending)
  {
    FramesAreNoQueries(rows, i);
    hide Paired, NameAt, Requeried, Stale, LastUser, IndexOf, IsQuery, WhollyRetired;
  }

  /** A result that is not given up is sent as it is, if it is of the newest batch; with its whole outcome, if
      it is of any tool but an execution; and an execution with its evidence, aged as said. */
  lemma KeptResultSays(rows: seq<Row>, b: Budget, i: nat, m: Message)
    requires Paired(Tagged(rows)) && Collected(rows, b).Ok? && i < |rows| && rows[i].Tool?
    requires !Forgone(rows, b, i) && m in Collected(rows, b).value && m.origin == i
    ensures m.row.Tool? && m.row.id == rows[i].id
    ensures rows[i].id in IndexOf(rows).pending || rows[i].body.Raw? ==> m.row == rows[i]
    ensures rows[i].body.Decoded? ==> m.row.body.Decoded?
    ensures rows[i].body.Decoded? && ToolOf(rows, rows[i].id) != EXECUTE ==> m.row.body.outcome == rows[i].body.outcome
    ensures rows[i].body.Decoded? && ToolOf(rows, rows[i].id) == EXECUTE && rows[i].id !in IndexOf(rows).pending ==>
      SameEvidence(rows[i].body, m.row.body)
      && Ages(rows[i].body.outcome, m.row.body.outcome, IndexOf(rows).consumed, i < LastUser(rows, |rows|))
  {
    hide Paired, Collected, Forgone, Rewritten, Recollected, IndexOf, Replaced, LastUser, Ages, SameEvidence;
    UnforgoneRow(rows, b, i, m);
    var ix, name, past := IndexOf(rows), ToolOf(rows, rows[i].id), i < LastUser(rows, |rows|);
    if rows[i].id in ix.pending {
      RewrittenRow(rows, i);
      PendingRow(rows, i);
    } else {
      UnreplacedIsCompacted(rows, i);
      NotWhollyRetired(rows, i);
      RetiredSettles(rows[i], name, ix.consumed, ix.pending);
      if rows[i].body.Decoded? && name == EXECUTE {
        ExecutionAges(rows[i], ix.calls, ix.consumed, ix.pending, past);
      }
    }
  }
}
