/** The collection in terms of the rows handed in: who stands behind whom, which tool made which result, what was
    executed, and what therefore is kept, replaced or left out. */
module TranscriptTerms {
  import opened Wrappers
  import opened TranscriptModel
  import opened TranscriptPromises
  import opened TranscriptStages
  import opened TranscriptContinuation
  import opened TranscriptPressure
  import opened TranscriptCollection
  import opened TranscriptEvidence

  // ----- The index in plain words ------------------------------------------------------------

  ghost predicate UserBehind(rows: seq<Row>, i: int) {
    exists k | 0 <= k < |rows| && i < k :: rows[k].User?
  }

  /** The row makes a call with this id. */
  ghost predicate CallsFor(row: Row, id: Id) {
    row.Assistant? && exists c | 0 <= c < |row.calls| :: row.calls[c].id == id
  }

  /** The row that made the newest batch: no answer and no user row stands behind it. */
  ghost predicate NewestRow(rows: seq<Row>, p: nat) {
    p < |rows| && rows[p].Assistant? && forall k | p < k < |rows| :: !rows[k].Assistant? && !rows[k].User?
  }

  /** The result belongs to the newest batch. */
  ghost predicate Awaited(rows: seq<Row>, id: Id) {
    exists p: nat :: NewestRow(rows, p) && CallsFor(rows[p], id)
  }

  ghost predicate MadeBy(rows: seq<Row>, j: nat, call: Call) {
    j < |rows| && rows[j].Assistant? && call in rows[j].calls
  }

  ghost predicate Made(rows: seq<Row>, call: Call) {
    exists j: nat :: MadeBy(rows, j, call)
  }

  /** Row `i` is the result of this call. */
  ghost predicate IsResultOf(rows: seq<Row>, i: nat, call: Call) {
    i < |rows| && rows[i].Tool? && rows[i].id == call.id && Made(rows, call)
  }

  /** Row `i` is the result of one of these tools. */
  ghost predicate ResultOfTool(rows: seq<Row>, i: nat, names: set<string>) {
    exists call :: IsResultOf(rows, i, call) && call.name in names
  }

  /** Row `i` acknowledges the execution of this decision. */
  ghost predicate Acknowledges(rows: seq<Row>, i: nat, call: Call, decision: string) {
    && IsResultOf(rows, i, call) && call.name == "smac_execute_choice" && call.args.decision == Some(decision)
    && rows[i].body.Decoded? && rows[i].body.outcome.consumed
  }

  ghost predicate Executed(rows: seq<Row>, decision: string) {
    exists i: nat, call :: Acknowledges(rows, i, call, decision)
  }

  lemma {:induction false} CallIdsAre(calls: seq<Call>, id: Id)
    ensures id in CallIds(calls) <==> exists c | 0 <= c < |calls| :: calls[c].id == id
  {
    if calls == [] {
    } else {
      CallIdsAre(calls[..|calls| - 1], id);
    }
  }

  lemma IdsAre(row: Row, id: Id)
    ensures id in Ids(row) <==> CallsFor(row, id)
  {
    if row.Assistant? { CallIdsAre(row.calls, id); }
  }

  lemma {:induction false} LastUserIs(rows: seq<Row>, n: nat)
    requires n <= |rows|
    ensures var last := LastUser(rows, n);
      (last >= 0 ==> rows[last].User?) && forall k | last < k < n && 0 <= k :: !rows[k].User?
  {
    if n == 0 || rows[n - 1].User? {
    } else {
      LastUserIs(rows, n - 1);
    }
  }

  /** To stand before the last user row is to have a user row behind. */
  lemma BeforeLastUser(rows: seq<Row>, i: int)
    requires 0 <= i
    ensures i < LastUser(rows, |rows|) <==> UserBehind(rows, i)
  {
    LastUserIs(rows, |rows|);
  }

  lemma {:induction false} PendingIs(rows: seq<Row>, n: nat, lastUser: int, id: Id)
    requires n <= |rows|
    ensures id in PendingUpTo(rows, n, lastUser) <==>
      exists p | 0 <= p < n && lastUser <= p ::
        rows[p].Assistant? && id in Ids(rows[p]) && forall k | p < k < n :: !rows[k].Assistant?
  {
    hide Ids;
    if n == 0 {
    } else {
      PendingIs(rows, n - 1, lastUser, id);
    }
  }

  /** The batch that the stages protect is the newest one. */
  lemma PendingIsAwaited(rows: seq<Row>, id: Id)
    ensures id in IndexOf(rows).pending <==> Awaited(rows, id)
  {
    hide Ids, CallsFor;
    var last := LastUser(rows, |rows|);
    IndexKnowsPending(rows);
    PendingIs(rows, |rows|, last, id);
    LastUserIs(rows, |rows|);
    hide IndexOf, LastUser, PendingUpTo;
    forall p | 0 <= p < |rows| ensures id in Ids(rows[p]) <==> CallsFor(rows[p], id) { IdsAre(rows[p], id); }
    if Awaited(rows, id) {
      var p: nat :| NewestRow(rows, p) && CallsFor(rows[p], id);
    }
    if p: nat :| p < |rows| && last <= p && rows[p].Assistant? && id in Ids(rows[p])
                 && forall k | p < k < |rows| :: !rows[k].Assistant?
    {
      assert NewestRow(rows, p);
    }
  }

  // ----- Calls and tools ---------------------------------------------------------------------

  lemma CallIsNamed(row: Row, call: Call)
    requires row.Assistant? && call in row.calls
    ensures call.id in Ids(row)
  {
    var c :| 0 <= c < |row.calls| && row.calls[c] == call;
    CallIdsAre(row.calls, call.id);
  }

  /** The call with this id among `calls`, when its ids do not repeat. */
  lemma {:induction false} AddedCalls(known: map<Id, Call>, calls: seq<Call>, call: Call)
    requires Unrepeated(calls) && call in calls
    ensures call.id in AddCalls(known, calls) && AddCalls(known, calls)[call.id] == call
  {
    var front, last := calls[..|calls| - 1], calls[|calls| - 1];
    if call == last {
    } else {
      assert call in front;
      AddedCalls(known, front, call);
      var c :| 0 <= c < |front| && front[c] == call;
      CallIdsAre(front, call.id);
    }
  }

  lemma {:induction false} CallStands(rows: seq<Row>, i: nat, n: nat, id: Id)
    requires i <= n <= |rows| && (forall k | i <= k < n :: id !in Ids(rows[k])) && id in CallsUpTo(rows, i)
    ensures id in CallsUpTo(rows, n) && CallsUpTo(rows, n)[id] == CallsUpTo(rows, i)[id]
    decreases n
  {
    if i == n {
    } else {
      CallStands(rows, i, n - 1, id);
      if rows[n - 1].Assistant? { AddedCall(CallsUpTo(rows, n - 1), rows[n - 1].calls, id); }
    }
  }

  /** A call is known once it is made, for good. */
  lemma CallIsKnown(rows: seq<Row>, j: nat, n: nat, call: Call)
    requires Paired(Tagged(rows)) && MadeBy(rows, j, call) && j < n <= |rows|
    ensures call.id in CallsUpTo(rows, n) && CallsUpTo(rows, n)[call.id] == call
  {
    var ms := Tagged(rows);
    CallIsNamed(rows[j], call);
    assert OwnIds(ms, j);
    AddedCalls(CallsUpTo(rows, j), rows[j].calls, call);
    forall k | j + 1 <= k < n ensures call.id !in Ids(rows[k]) {
      assert OwnIds(ms, k);
      assert Ids(ms[j].row) !! Ids(ms[k].row);
    }
    CallStands(rows, j + 1, n, call.id);
  }

  /** On a paired transcript a result has one call, made before it, and the index knows it by then. */
  lemma ResultHasCall(rows: seq<Row>, i: nat) returns (j: nat, call: Call)
    requires Paired(Tagged(rows)) && i < |rows| && rows[i].Tool?
    ensures j < i && MadeBy(rows, j, call) && IsResultOf(rows, i, call)
    ensures call.id in CallsUpTo(rows, i) && CallsUpTo(rows, i)[call.id] == call
    ensures call.id in IndexOf(rows).calls && IndexOf(rows).calls[call.id] == call
  {
    var ms := Tagged(rows);
    assert Answered(ms, i);
    j :| Answers(ms, j, i);
    CallIdsAre(rows[j].calls, rows[i].id);
    var c :| 0 <= c < |rows[j].calls| && rows[j].calls[c].id == rows[i].id;
    call := rows[j].calls[c];
    assert MadeBy(rows, j, call);
    CallIsKnown(rows, j, i, call);
    CallIsKnown(rows, j, |rows|, call);
    IndexKnowsPending(rows);
  }

  lemma OneCall(rows: seq<Row>, call: Call)
    requires Paired(Tagged(rows)) && Made(rows, call)
    ensures call.id in IndexOf(rows).calls && IndexOf(rows).calls[call.id] == call
  {
    var j: nat :| MadeBy(rows, j, call);
    CallIsKnown(rows, j, |rows|, call);
    IndexKnowsPending(rows);
  }

  /** The tool of a result by the index is the tool of its call. */
  lemma ToolIs(rows: seq<Row>, i: nat, names: set<string>)
    requires Paired(Tagged(rows)) && i < |rows|
    ensures ResultOfTool(rows, i, names) <==> rows[i].Tool? && ToolOf(rows, rows[i].id) in names
  {
    hide Paired, Tagged, IndexOf, MadeBy;
    if rows[i].Tool? {
      var j, call := ResultHasCall(rows, i);
      forall other | IsResultOf(rows, i, other) ensures other == call { OneCall(rows, other); }
    }
  }

  // ----- Executions --------------------------------------------------------------------------

  lemma ConsumedByCall(rows: seq<Row>, i: nat, call: Call, decision: string)
    requires i < |rows| && IsResultOf(rows, i, call)
    requires call.id in CallsUpTo(rows, i) && CallsUpTo(rows, i)[call.id] == call
    ensures decision in ConsumedBy(rows[i], CallsUpTo(rows, i)) <==> Acknowledges(rows, i, call, decision)
  {
    hide CallsUpTo, Made;
  }

  lemma ConsumedByIs(rows: seq<Row>, i: nat, decision: string)
    requires Paired(Tagged(rows)) && i < |rows|
    ensures decision in ConsumedBy(rows[i], CallsUpTo(rows, i)) <==>
      exists call :: Acknowledges(rows, i, call, decision)
  {
    hide Paired, Tagged, IndexOf, MadeBy, CallsUpTo;
    if rows[i].Tool? {
      var j, call := ResultHasCall(rows, i);
      ConsumedByCall(rows, i, call, decision);
      hide ConsumedBy;
      forall other | Acknowledges(rows, i, other, decision) ensures other == call { OneCall(rows, other); }
    }
  }

  lemma {:induction false} ConsumedIs(rows: seq<Row>, n: nat, decision: string)
    requires Paired(Tagged(rows)) && n <= |rows|
    ensures decision in ConsumedUpTo(rows, n) <==>
      exists i: nat, call :: i < n && Acknowledges(rows, i, call, decision)
  {
    hide Paired, Tagged, Acknowledges, ConsumedBy, CallsUpTo;
    if n == 0 {
    } else {
      ConsumedIs(rows, n - 1, decision);
      ConsumedByIs(rows, n - 1, decision);
    }
  }

  lemma AcknowledgesWithin(rows: seq<Row>, i: nat, call: Call, decision: string)
    requires Acknowledges(rows, i, call, decision)
    ensures i < |rows|
  {}

  /** The decisions that the stages retire are those that were executed. */
  lemma ConsumedIsExecuted(rows: seq<Row>, decision: string)
    requires Paired(Tagged(rows))
    ensures decision in IndexOf(rows).consumed <==> Executed(rows, decision)
  {
    hide Paired, Tagged, Acknowledges, ConsumedUpTo, CallsUpTo, PendingUpTo, StateRowsUpTo, LastUser;
    ConsumedIs(rows, |rows|, decision);
    forall i: nat, call | Acknowledges(rows, i, call, decision) ensures i < |rows| {
      AcknowledgesWithin(rows, i, call, decision);
    }
  }

  // ----- What is replaced --------------------------------------------------------------------

  ghost predicate FrameResult(rows: seq<Row>, i: nat) {
    ResultOfTool(rows, i, {"smac_decision", "smac_wait", "smac_snapshot", "smac_observe"})
  }

  ghost predicate QueryResult(rows: seq<Row>, i: nat) {
    ResultOfTool(rows, i, {"smac_choices", "smac_world", "smac_investigate"})
  }

  /** A state frame with a user row or another state frame behind it. */
  ghost predicate OldFrame(rows: seq<Row>, i: nat) {
    FrameResult(rows, i) && (UserBehind(rows, i) || exists k | i < k < |rows| :: FrameResult(rows, k))
  }

  /** The menu of a decision that was executed. */
  ghost predicate OldMenu(rows: seq<Row>, i: nat) {
    && ResultOfTool(rows, i, {"smac_decision", "smac_choices"}) && rows[i].body.Decoded?
    && rows[i].body.outcome.decision.Some? && Executed(rows, rows[i].body.outcome.decision.value)
  }

  /** Both are results of the same query with the same arguments. */
  ghost predicate SameQuestion(rows: seq<Row>, i: nat, k: nat) {
    exists a, c :: IsResultOf(rows, i, a) && IsResultOf(rows, k, c) && a.name == c.name && a.args == c.args
      && a.name in {"smac_choices", "smac_world", "smac_investigate"}
  }

  /** Result `k` behind it answers the same query, and is not itself an executed menu outside the newest batch. */
  ghost predicate AskedAgainAt(rows: seq<Row>, i: nat, k: nat) {
    i < k < |rows| && SameQuestion(rows, i, k) && !(OldMenu(rows, k) && !Awaited(rows, rows[k].id))
  }

  ghost predicate AskedAgain(rows: seq<Row>, i: nat) {
    exists k: nat :: AskedAgainAt(rows, i, k)
  }

  /** Outside the newest batch an old frame, the menu of an executed decision and a query asked again are replaced. */
  ghost predicate IsReplaced(rows: seq<Row>, i: nat) {
    && i < |rows| && rows[i].Tool? && !Awaited(rows, rows[i].id)
    && (OldFrame(rows, i) || OldMenu(rows, i) || AskedAgain(rows, i))
  }

  lemma FrameIsNamed(rows: seq<Row>, i: nat)
    requires Paired(Tagged(rows)) && i < |rows|
    ensures FrameResult(rows, i) <==> NameAt(rows, i) in STATE_TOOLS
  {
    ToolIs(rows, i, STATE_TOOLS);
    if rows[i].Tool? { FramesAreNoQueries(rows, i); }
    hide Paired, Tagged, ToolOf, ResultOfTool, Stale, IndexOf, CallsUpTo;
  }

  lemma NewestFrameIs(rows: seq<Row>, i: nat)
    requires Paired(Tagged(rows)) && i < |rows|
    ensures OldFrame(rows, i) <==> FrameResult(rows, i) && !NewestFrame(rows, i)
  {
    hide Paired, Tagged, NameAt, FrameResult;
    BeforeLastUser(rows, i);
    forall k: nat | k < |rows| ensures FrameResult(rows, k) <==> NameAt(rows, k) in STATE_TOOLS {
      FrameIsNamed(rows, k);
    }
  }

  lemma OldMenuIs(rows: seq<Row>, i: nat)
    requires Paired(Tagged(rows)) && i < |rows| && rows[i].Tool?
    ensures OldMenu(rows, i) && !Awaited(rows, rows[i].id) <==>
      WhollyRetired(rows[i], ToolOf(rows, rows[i].id), IndexOf(rows).consumed, IndexOf(rows).pending)
  {
    ToolIs(rows, i, {"smac_decision", "smac_choices"});
    PendingIsAwaited(rows, rows[i].id);
    if rows[i].body.Decoded? && rows[i].body.outcome.decision.Some? {
      ConsumedIsExecuted(rows, rows[i].body.outcome.decision.value);
    }
    hide Paired, Tagged, IndexOf, ResultOfTool, Awaited, Executed, ToolOf;
  }

  lemma WholeIs(rows: seq<Row>, k: nat)
    requires Paired(Tagged(rows)) && k < |rows| && rows[k].Tool?
    ensures k in Whole(rows, rows, IndexOf(rows)) <==> OldMenu(rows, k) && !Awaited(rows, rows[k].id)
  {
    OldMenuIs(rows, k);
    FramesAreNoQueries(rows, k);
    hide Paired, Tagged, IndexOf, OldMenu, Awaited, ToolOf, NameAt, WhollyRetired, Stale, IsQuery;
  }

  lemma SameQueryIs(rows: seq<Row>, i: nat, k: nat)
    requires Paired(Tagged(rows)) && i < |rows| && k < |rows|
    ensures SameQuery(IndexOf(rows), rows[i], rows[k]) <==> SameQuestion(rows, i, k)
  {
    hide Paired, Tagged, IndexOf, MadeBy, CallsUpTo;
    if rows[i].Tool? && rows[k].Tool? {
      var _, a := ResultHasCall(rows, i);
      var _, c := ResultHasCall(rows, k);
      forall other | IsResultOf(rows, i, other) ensures other == a { OneCall(rows, other); }
      forall other | IsResultOf(rows, k, other) ensures other == c { OneCall(rows, other); }
      hide Made;
    }
  }

  lemma QuestionIsResult(rows: seq<Row>, i: nat, k: nat)
    requires SameQuestion(rows, i, k)
    ensures i < |rows| && k < |rows| && rows[i].Tool? && rows[k].Tool? && QueryResult(rows, i)
  {}

  lemma AskedAgainIs(rows: seq<Row>, i: nat)
    requires Paired(Tagged(rows)) && i < |rows|
    ensures AskedAgain(rows, i) <==> Requeried(rows, Whole(rows, rows, IndexOf(rows)), IndexOf(rows), i)
  {
    hide Paired, Tagged, IndexOf, SameQuestion, SameQuery, Whole, OldMenu, Awaited;
    forall k | i < k < |rows|
      ensures AskedAgainAt(rows, i, k) <==>
        k !in Whole(rows, rows, IndexOf(rows)) && SameQuery(IndexOf(rows), rows[i], rows[k])
    {
      SameQueryIs(rows, i, k);
      if SameQuestion(rows, i, k) {
        QuestionIsResult(rows, i, k);
        WholeIs(rows, k);
      }
    }
  }

  /** What the rewriting stages replace is what is to be replaced. */
  lemma ReplacedIs(rows: seq<Row>, i: nat)
    requires Paired(Tagged(rows)) && i < |rows| && rows[i].Tool?
    ensures Replaced(rows, i) <==> IsReplaced(rows, i)
  {
    ReplacedByName(rows, i);
    ToolIs(rows, i, STATE_TOOLS);
    ToolIs(rows, i, QUERY_TOOLS);
    NewestFrameIs(rows, i);
    OldMenuIs(rows, i);
    AskedAgainIs(rows, i);
    PendingIsAwaited(rows, rows[i].id);
    hide Paired, Tagged, IndexOf, ResultOfTool, Awaited, OldFrame, OldMenu, ToolOf, NewestFrame, Requeried;
    hide WhollyRetired, Whole, Replaced, SameQuestion;
    if AskedAgain(rows, i) {
      var k: nat :| AskedAgainAt(rows, i, k);
      QuestionIsResult(rows, i, k);
    }
  }
}
