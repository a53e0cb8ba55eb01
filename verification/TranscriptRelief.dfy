/** What is sent, within the token ceiling and over it, in terms of the rows handed in. */
module TranscriptRelief {
  import opened Listings
  import opened Wrappers
  import opened TranscriptModel
  import opened TranscriptPromises
  import opened TranscriptStages
  import opened TranscriptContinuation
  import opened TranscriptPressure
  import opened TranscriptCollection
  import opened TranscriptEvidence
  import opened TranscriptTerms
  import opened TranscriptRemainder

  // ----- Results behind a result -------------------------------------------------------------

  /** The results of these tools that stand behind row `i` when nothing presses. */
  ghost function KeptBehind(rows: seq<Row>, i: nat, names: set<string>): set<nat> {
    set l | i < l < |rows| && ResultOfTool(rows, l, names) && !SettledAway(rows, l)
  }

  ghost function NamedOrigins(ms: seq<Message>, k: nat, calls: map<Id, Call>, names: set<string>): set<nat> {
    set j | k <= j < |ms| && Named(ms[j], calls, names) :: ms[j].origin
  }

  lemma OriginsStep(ms: seq<Message>, k: nat, calls: map<Id, Call>, names: set<string>)
    requires Ordered(ms) && k < |ms|
    ensures var rest := NamedOrigins(ms, k + 1, calls, names);
      ms[k].origin !in rest
      && NamedOrigins(ms, k, calls, names) == (if Named(ms[k], calls, names) then rest + {ms[k].origin} else rest)
  {
    hide Named;
  }

  lemma {:induction false} LaterCounts(ms: seq<Message>, k: nat, calls: map<Id, Call>, names: set<string>)
    requires Ordered(ms) && k <= |ms|
    ensures Later(ms, k, calls, names) == |NamedOrigins(ms, k, calls, names)|
    decreases |ms| - k
  {
    hide Named, Ordered;
    if k == |ms| {
      assert NamedOrigins(ms, k, calls, names) == {};
    } else {
      LaterCounts(ms, k + 1, calls, names);
      OriginsStep(ms, k, calls, names);
      hide NamedOrigins;
    }
  }

  lemma RemainderOrdered(rows: seq<Row>, size: seq<Row> -> nat)
    requires Paired(Tagged(rows))
    ensures Ordered(Remainder(rows, size))
  {
    hide Paired, Remainder, Marked, IndexOf, Faithful;
    RemainderIsFaithful(rows, size, Marked(rows));
    FaithIsPaired(rows, Remainder(rows, size), IndexOf(rows).pending, Marked(rows));
  }

  lemma LeftIsNamed(rows: seq<Row>, l: nat, names: set<string>)
    requires Paired(Tagged(rows)) && l < |rows|
    ensures Named(Left(rows, l), IndexOf(rows).calls, names) <==> ResultOfTool(rows, l, names)
  {
    hide Paired, Tagged, Rewritten, Gone, IndexOf, ResultOfTool, Ids;
    RewrittenIds(rows, l);
    ToolIs(rows, l, names);
  }

  lemma ToolRemains(rows: seq<Row>, size: seq<Row> -> nat, l: nat)
    requires l < |rows| && rows[l].Tool?
    ensures Remains(rows, size, l) <==> !SettledAway(rows, l)
  {
    hide SettledAway;
  }

  lemma ResultIsTool(rows: seq<Row>, l: nat, names: set<string>)
    requires ResultOfTool(rows, l, names)
    ensures l < |rows| && rows[l].Tool?
  {}

  /** What relief counts behind a message is what stands behind its row. */
  lemma BehindIs(rows: seq<Row>, size: seq<Row> -> nat, k: nat, names: set<string>)
    requires Paired(Tagged(rows)) && k < |Remainder(rows, size)|
    ensures var ms := Remainder(rows, size);
      NamedOrigins(ms, k + 1, IndexOf(rows).calls, names) == KeptBehind(rows, ms[k].origin, names)
  {
    var ms := Remainder(rows, size);
    var i := ms[k].origin;
    RemainderOrdered(rows, size);
    hide Paired, Remainder, SettledAway, ResultOfTool, Named, Left, Remains, IndexOf, Tagged;
    forall l | l in NamedOrigins(ms, k + 1, IndexOf(rows).calls, names) ensures l in KeptBehind(rows, i, names) {
      var j :| k + 1 <= j < |ms| && Named(ms[j], IndexOf(rows).calls, names) && ms[j].origin == l;
      NothingElseRemains(rows, size, ms[j]);
      LeftIsNamed(rows, l, names);
      ResultIsTool(rows, l, names);
      ToolRemains(rows, size, l);
    }
    forall l | l in KeptBehind(rows, i, names) ensures l in NamedOrigins(ms, k + 1, IndexOf(rows).calls, names) {
      ResultIsTool(rows, l, names);
      ToolRemains(rows, size, l);
      RowRemains(rows, size, l);
      LeftOrigin(rows, l);
      LeftIsNamed(rows, l, names);
      var j :| 0 <= j < |ms| && ms[j] == Left(rows, l);
      assert j > k;
    }
  }

  lemma LaterIs(rows: seq<Row>, size: seq<Row> -> nat, k: nat, names: set<string>)
    requires Paired(Tagged(rows)) && k < |Remainder(rows, size)|
    ensures var ms := Remainder(rows, size);
      Later(ms, k + 1, IndexOf(rows).calls, names) == |KeptBehind(rows, ms[k].origin, names)|
  {
    hide Paired, Tagged, Remainder, IndexOf, KeptBehind, Later, NamedOrigins;
    RemainderOrdered(rows, size);
    LaterCounts(Remainder(rows, size), k + 1, IndexOf(rows).calls, names);
    BehindIs(rows, size, k, names);
  }

  lemma FollowedIs(rows: seq<Row>, b: Budget, i: nat, names: set<string>, n: nat)
    requires Paired(Tagged(rows)) && i < |rows| && rows[i].Tool?
    ensures Followed(rows, b, i, names, n) <==> !SettledAway(rows, i) && |KeptBehind(rows, i, names)| >= n
  {
    hide Paired, Remainder, SettledAway, Remains, IndexOf, KeptBehind, Later, Tagged;
    var ms := Remainder(rows, b.size);
    RemainderIs(rows, b.size, i);
    ToolRemains(rows, b.size, i);
    forall k | 0 <= k < |ms| && ms[k].origin == i
      ensures Later(ms, k + 1, IndexOf(rows).calls, names) == |KeptBehind(rows, i, names)|
    {
      LaterIs(rows, b.size, k, names);
    }
  }

  // ----- What is given up --------------------------------------------------------------------

  /** The result acknowledges a durable write. */
  ghost predicate WriteResult(rows: seq<Row>, i: nat) {
    exists call :: IsResultOf(rows, i, call)
      && (call.name == "smac_memory_update"
          || (call.name == "smac_notebook" && call.args.action in {"put", "delete"}))
  }

  /** Over the ceiling a successful query gives way to a later one, and a successful write, unless it is wrapped as
      untrusted, to four later cognition results; none of them settled away. */
  ghost predicate GivesWay(rows: seq<Row>, b: Budget, i: nat)
    requires i < |rows| && rows[i].Tool?
  {
    && Over(rows, b) && rows[i].body.Decoded? && rows[i].body.outcome.ok && !SettledAway(rows, i)
    && ((QueryResult(rows, i)
         && |KeptBehind(rows, i, {"smac_choices", "smac_world", "smac_investigate"})| >= 1)
        || (WriteResult(rows, i) && rows[i].body.envelope != Untrusted
            && |KeptBehind(rows, i, {"smac_memory_update", "smac_notebook"})| >= 4))
  }

  /** Outside the newest batch the collection gives up what is replaced and what gives way. */
  ghost predicate GivenUp(rows: seq<Row>, b: Budget, i: nat)
    requires i < |rows| && rows[i].Tool?
  {
    && !Awaited(rows, rows[i].id)
    && (OldFrame(rows, i) || OldMenu(rows, i) || AskedAgain(rows, i) || GivesWay(rows, b, i))
  }

  lemma ResultCall(rows: seq<Row>, i: nat, call: Call)
    requires Paired(Tagged(rows)) && IsResultOf(rows, i, call)
    ensures call.id in IndexOf(rows).calls && IndexOf(rows).calls[call.id] == call
  {
    hide Paired, Tagged, IndexOf;
    OneCall(rows, call);
  }

  lemma WriteIs(rows: seq<Row>, i: nat)
    requires Paired(Tagged(rows)) && i < |rows| && rows[i].Tool?
    ensures WriteResult(rows, i) <==>
      ToolOf(rows, rows[i].id) in COGNITION_TOOLS && DurableWrite(IndexOf(rows).calls, rows[i].id)
  {
    hide Paired, Tagged, IndexOf, MadeBy, Made;
    var j, call := ResultHasCall(rows, i);
    forall other | IsResultOf(rows, i, other) ensures other == call { ResultCall(rows, i, other); }
  }

  /** What the stages and relief give up is what is to be given up. */
  lemma ForgoneIs(rows: seq<Row>, b: Budget, i: nat)
    requires Paired(Tagged(rows)) && i < |rows| && rows[i].Tool?
    ensures Forgone(rows, b, i) <==> GivenUp(rows, b, i)
  {
    ReplacedByName(rows, i);
    ReplacedIs(rows, i);
    PendingIsAwaited(rows, rows[i].id);
    ToolIs(rows, i, QUERY_TOOLS);
    WriteIs(rows, i);
    FollowedIs(rows, b, i, QUERY_TOOLS, 1);
    FollowedIs(rows, b, i, COGNITION_TOOLS, RECENT_COGNITION);
    hide Paired, Tagged, IndexOf, ResultOfTool, Awaited, OldFrame, OldMenu, AskedAgain, ToolOf, NewestFrame, Requeried;
    hide WhollyRetired, Whole, Replaced, Followed, SettledAway, KeptBehind, WriteResult, DurableWrite, Over;
  }

  /** A failure, an obligation or an unreadable result is sent with everything it says exactly when it is not given
      up. */
  lemma EvidenceSurvives(rows: seq<Row>, b: Budget, i: nat)
    requires Paired(Tagged(rows)) && Collected(rows, b).Ok? && i < |rows| && rows[i].Tool?
    requires rows[i].body.Raw? || !rows[i].body.outcome.ok || rows[i].body.outcome.duties != {}
    ensures SentWhole(rows, Collected(rows, b).value, i) <==> !GivenUp(rows, b, i)
  {
    hide Paired, Tagged, Collected, GivenUp, Forgone, SentWhole;
    EvidenceIsSent(rows, b, i);
    ForgoneIs(rows, b, i);
  }

  // ----- What a kept result says -------------------------------------------------------------

  /** The holder carries the menu of an executed decision. */
  ghost predicate MenuExecuted(rows: seq<Row>, holder: Option<Holder>) {
    && holder.Some? && holder.value.frame.Some? && holder.value.frame.value.decision.Some?
    && Executed(rows, holder.value.frame.value.decision.value)
  }

  /** The execution is of an earlier turn, or its own next menu is used up. */
  ghost predicate HasExpired(rows: seq<Row>, o: Outcome, past: bool) {
    || past
    || (o.post.Some? && o.post.value.frame.Some?
        && (o.post.value.frame.value.consumed || o.post.value.frame.value.superseded))
    || MenuExecuted(rows, o.post)
  }

  ghost predicate PointsAt(rows: seq<Row>, o: Outcome, holder: Option<Holder>) {
    MenuExecuted(rows, holder) && o.next.Some? && o.next.value.decision == holder.value.frame.value.decision
  }

  ghost predicate PointsOn(o: Outcome) {
    o.next.Some? && !o.next.value.stop && o.next.value.tool in {"smac_decision", "smac_execute_choice"}
  }

  ghost function AgedFrame(rows: seq<Row>, holder: Option<Holder>, past: bool): Option<Frame>
    requires holder.Some?
  {
    if past && holder.value.frame.Some? then Some(Frame(None, true, false, ""))
    else if MenuExecuted(rows, holder) then Some(Frame(None, true, true, ""))
    else holder.value.frame
  }

  /** The execution succeeded, completed and has expired. */
  ghost predicate RanOut(rows: seq<Row>, o: Outcome, past: bool) {
    o.ok && o.completed && HasExpired(rows, o, past)
  }

  /** The evidence stays as it was; a receipt that has run out is marked, and has no handles, nor has an old one; the
      next menu goes once it expired. */
  ghost predicate AgedHandles(rows: seq<Row>, o: Outcome, r: Outcome, past: bool) {
    && r.ok == o.ok && r.superseded == o.superseded && r.duties == o.duties && r.completed == o.completed
    && r.receipt == o.receipt && r.rest == o.rest
    && r.mark == (if RanOut(rows, o, past) then ExecutionReceipt else o.mark)
    && r.decision == (if past || RanOut(rows, o, past) then None else o.decision)
    && r.choice == (if past || RanOut(rows, o, past) then None else o.choice)
    && r.consumed == (!past && !RanOut(rows, o, past) && o.consumed)
    && r.post == (if HasExpired(rows, o, past) then None else o.post)
  }

  /** The recovery stays, with an expired menu marked. */
  ghost predicate AgedRecovery(rows: seq<Row>, o: Outcome, r: Outcome, past: bool) {
    && (r.recovery.Some? <==> o.recovery.Some?)
    && (o.recovery.Some? ==>
          r.recovery.value.rest == o.recovery.value.rest
          && r.recovery.value.frame == AgedFrame(rows, o.recovery, past))
  }

  /** The guidance stays unless it ran out, points at the menu of an executed decision, or only points on from an
      earlier turn. */
  ghost predicate AgedGuidance(rows: seq<Row>, o: Outcome, r: Outcome, past: bool) {
    r.next ==
    if RanOut(rows, o, past) then None
    else if PointsAt(rows, o, o.post) || PointsAt(rows, o, o.recovery)
    then Some(Guidance(None, false, "", "The referenced decision was consumed; use the newest frame."))
    else if past && PointsOn(o) then None
    else o.next
  }

  /** What is sent of an execution. */
  ghost predicate Aged(rows: seq<Row>, o: Outcome, r: Outcome, past: bool) {
    AgedHandles(rows, o, r, past) && AgedRecovery(rows, o, r, past) && AgedGuidance(rows, o, r, past)
  }

  lemma MenuIs(rows: seq<Row>, holder: Option<Holder>)
    requires Paired(Tagged(rows))
    ensures Menu(holder, IndexOf(rows).consumed) <==> MenuExecuted(rows, holder)
  {
    hide Paired, Tagged, IndexOf, Executed;
    if holder.Some? && holder.value.frame.Some? && holder.value.frame.value.decision.Some? {
      ConsumedIsExecuted(rows, holder.value.frame.value.decision.value);
    }
  }

  lemma ReceiptFields(o: Outcome, past: bool)
    ensures var r := Receipt(o, past); var over := Obsolete(o, past) && o.ok && o.completed;
      && r.ok == o.ok && r.superseded == o.superseded && r.duties == o.duties && r.completed == o.completed
      && r.receipt == o.receipt && r.rest == o.rest && r.mark == (if over then ExecutionReceipt else o.mark)
      && r.decision == (if past || over then None else o.decision)
      && r.choice == (if past || over then None else o.choice)
      && r.consumed == (!past && !over && o.consumed)
      && r.post == (if Obsolete(o, past) then None else o.post)
      && r.recovery == (if past && o.recovery.Some? && o.recovery.value.frame.Some?
                        then Some(o.recovery.value.(frame := Some(Frame(None, true, false, "")))) else o.recovery)
      && r.next == if over || (past && PointsOn(o)) then None else o.next
  {
    hide Nested;
  }

  /** What retiring leaves, in terms of the executed menus. */
  lemma RetiredFields(rows: seq<Row>, o: Outcome, consumed: set<string>)
    requires Menu(o.post, consumed) <==> MenuExecuted(rows, o.post)
    requires Menu(o.recovery, consumed) <==> MenuExecuted(rows, o.recovery)
    ensures var r := RetiredOutcome(o, consumed);
      && r == o.(post := r.post, recovery := r.recovery, next := r.next)
      && (!MenuExecuted(rows, o.post) ==> r.post == o.post)
      && (r.recovery.Some? <==> o.recovery.Some?)
      && (o.recovery.Some? ==>
            r.recovery.value.rest == o.recovery.value.rest
            && r.recovery.value.frame
               == (if MenuExecuted(rows, o.recovery) then Some(Frame(None, true, true, ""))
                   else o.recovery.value.frame))
      && r.next ==
         if PointsAt(rows, o, o.post) || PointsAt(rows, o, o.recovery)
         then Some(Guidance(None, false, "", "The referenced decision was consumed; use the newest frame."))
         else o.next
  {
    hide Executed;
  }

  lemma ExpiredIfObsolete(rows: seq<Row>, o: Outcome, past: bool)
    ensures HasExpired(rows, o, past)
       <==> past || Nested(o).consumed || Nested(o).superseded || MenuExecuted(rows, o.post)
  {
    hide MenuExecuted;
  }

  lemma MenuHasFrame(rows: seq<Row>, holder: Option<Holder>)
    ensures MenuExecuted(rows, holder) ==> holder.Some? && holder.value.frame.Some?
  {}

  lemma HandlesIsAged(rows: seq<Row>, o: Outcome, consumed: set<string>, past: bool)
    requires Menu(o.post, consumed) <==> MenuExecuted(rows, o.post)
    requires Menu(o.recovery, consumed) <==> MenuExecuted(rows, o.recovery)
    ensures AgedHandles(rows, o, Receipt(RetiredOutcome(o, consumed), past), past)
  {
    hide Obsolete, Receipt, RetiredOutcome, Menu, PointsAt, PointsOn, Nested, MenuExecuted, HasExpired, AgedFrame;
    RetiredFields(rows, o, consumed);
    ReceiptFields(RetiredOutcome(o, consumed), past);
    EmptiedIsObsolete(o, consumed, past);
    ExpiredIfObsolete(rows, o, past);
    MenuHasFrame(rows, o.recovery);
  }

  lemma RecoveryIsAged(rows: seq<Row>, o: Outcome, consumed: set<string>, past: bool)
    requires Menu(o.post, consumed) <==> MenuExecuted(rows, o.post)
    requires Menu(o.recovery, consumed) <==> MenuExecuted(rows, o.recovery)
    ensures AgedRecovery(rows, o, Receipt(RetiredOutcome(o, consumed), past), past)
  {
    hide Obsolete, Receipt, RetiredOutcome, Menu, PointsAt, PointsOn, Nested, MenuExecuted, HasExpired;
    RetiredFields(rows, o, consumed);
    ReceiptFields(RetiredOutcome(o, consumed), past);
    EmptiedIsObsolete(o, consumed, past);
    ExpiredIfObsolete(rows, o, past);
    MenuHasFrame(rows, o.recovery);
  }

  lemma GuidanceIsAged(rows: seq<Row>, o: Outcome, consumed: set<string>, past: bool)
    requires Menu(o.post, consumed) <==> MenuExecuted(rows, o.post)
    requires Menu(o.recovery, consumed) <==> MenuExecuted(rows, o.recovery)
    ensures AgedGuidance(rows, o, Receipt(RetiredOutcome(o, consumed), past), past)
  {
    hide Obsolete, Receipt, RetiredOutcome, Menu, PointsAt, Nested, MenuExecuted, HasExpired, AgedFrame;
    RetiredFields(rows, o, consumed);
    ReceiptFields(RetiredOutcome(o, consumed), past);
    EmptiedIsObsolete(o, consumed, past);
    ExpiredIfObsolete(rows, o, past);
    MenuHasFrame(rows, o.recovery);
  }

  lemma OutcomeIsAged(rows: seq<Row>, o: Outcome, consumed: set<string>, past: bool)
    requires Menu(o.post, consumed) <==> MenuExecuted(rows, o.post)
    requires Menu(o.recovery, consumed) <==> MenuExecuted(rows, o.recovery)
    ensures Aged(rows, o, Receipt(RetiredOutcome(o, consumed), past), past)
  {
    HandlesIsAged(rows, o, consumed, past);
    RecoveryIsAged(rows, o, consumed, past);
    GuidanceIsAged(rows, o, consumed, past);
    hide Receipt, RetiredOutcome, Menu, MenuExecuted, AgedHandles, AgedRecovery, AgedGuidance;
  }

  lemma ExecutionIsAged(rows: seq<Row>, row: Row, calls: map<Id, Call>, pending: set<Id>, past: bool)
    requires Paired(Tagged(rows)) && row.Tool? && row.id !in pending && row.body.Decoded?
    requires NameOf(calls, row.id) == EXECUTE
    ensures var r := Compacted(Retired(row, EXECUTE, IndexOf(rows).consumed, pending), calls, pending, past);
      r.Tool? && r.body.Decoded? && Aged(rows, row.body.outcome, r.body.outcome, past)
  {
    var o, consumed := row.body.outcome, IndexOf(rows).consumed;
    RetiredExecution(row, consumed, pending);
    MenuIs(rows, o.post);
    MenuIs(rows, o.recovery);
    OutcomeIsAged(rows, o, consumed, past);
    hide Paired, Tagged, IndexOf, Retired, Aged, Receipt, RetiredOutcome, Menu;
  }

  lemma KeptExecution(rows: seq<Row>, b: Budget, i: nat, m: Message)
    requires Paired(Tagged(rows)) && Collected(rows, b).Ok? && i < |rows| && rows[i].Tool? && rows[i].body.Decoded?
    requires !Forgone(rows, b, i) && m in Collected(rows, b).value && m.origin == i
    requires rows[i].id !in IndexOf(rows).pending && ToolOf(rows, rows[i].id) == EXECUTE
    ensures m.row.Tool? && m.row.body.Decoded?
    ensures Aged(rows, rows[i].body.outcome, m.row.body.outcome, i < LastUser(rows, |rows|))
  {
    hide Paired, Tagged, Collected, Forgone, Rewritten, IndexOf, Replaced, LastUser, Aged;
    UnforgoneRow(rows, b, i, m);
    UnreplacedIsCompacted(rows, i);
    ExecutionIsAged(rows, rows[i], IndexOf(rows).calls, IndexOf(rows).pending, i < LastUser(rows, |rows|));
  }

  lemma ExecutionTool(rows: seq<Row>, i: nat)
    requires Paired(Tagged(rows)) && i < |rows|
    ensures ResultOfTool(rows, i, {"smac_execute_choice"}) <==> rows[i].Tool? && ToolOf(rows, rows[i].id) == EXECUTE
  {
    hide Paired, Tagged, ToolOf, ResultOfTool;
    ToolIs(rows, i, {"smac_execute_choice"});
  }

  /** What is sent of a result that is not given up: of the newest batch, and of what cannot be read, the row itself;
      of any other tool its whole outcome; of an execution its outcome, aged. */
  lemma KeptResultIs(rows: seq<Row>, b: Budget, i: nat, m: Message)
    requires Paired(Tagged(rows)) && Collected(rows, b).Ok? && i < |rows| && rows[i].Tool?
    requires !GivenUp(rows, b, i) && m in Collected(rows, b).value && m.origin == i
    ensures m.row.Tool? && m.row.id == rows[i].id
    ensures Awaited(rows, rows[i].id) || rows[i].body.Raw? ==> m.row == rows[i]
    ensures rows[i].body.Decoded? && !Awaited(rows, rows[i].id) ==>
      && m.row.body.Decoded?
      && (!ResultOfTool(rows, i, {"smac_execute_choice"}) ==> m.row.body.outcome == rows[i].body.outcome)
      && (ResultOfTool(rows, i, {"smac_execute_choice"}) ==>
            Aged(rows, rows[i].body.outcome, m.row.body.outcome, UserBehind(rows, i)))
  {
    hide *;
    ForgoneIs(rows, b, i);
    KeptResultSays(rows, b, i, m);
    PendingIsAwaited(rows, rows[i].id);
    ExecutionTool(rows, i);
    BeforeLastUser(rows, i);
    if rows[i].body.Decoded? && !Awaited(rows, rows[i].id) && ToolOf(rows, rows[i].id) == EXECUTE {
      KeptExecution(rows, b, i, m);
    }
  }

  lemma NewestIdsArePending(rows: seq<Row>, p: nat)
    requires NewestRow(rows, p) && rows[p].calls != []
    ensures Ids(rows[p]) == PendingUpTo(rows, |rows|, LastUser(rows, |rows|)) != {}
  {
    hide Ids, PendingUpTo, LastUser, CallsFor;
    IndexKnowsPending(rows);
    forall id ensures id in Ids(rows[p]) <==> id in IndexOf(rows).pending {
      IdsAre(rows[p], id);
      PendingIsAwaited(rows, id);
      if Awaited(rows, id) {
        var q: nat :| NewestRow(rows, q) && CallsFor(rows[q], id);
        assert q == p;
      }
    }
    CallIsNamed(rows[p], rows[p].calls[0]);
  }

  /** The results of the newest batch, and the row that asked for them, are sent as they are. */
  lemma NewestIsSent(rows: seq<Row>, b: Budget, p: nat, i: nat)
    requires Paired(Tagged(rows)) && Collected(rows, b).Ok? && NewestRow(rows, p)
    ensures i < |rows| && rows[i].Tool? && CallsFor(rows[p], rows[i].id) ==>
      Message(i, rows[i]) in Collected(rows, b).value
    ensures p < |rows|
    ensures (rows[p].Assistant? && rows[p].calls != [] ==> Message(p, rows[p]) in Collected(rows, b).value)
  {
    hide Paired, Tagged, Collected, CallsFor, IndexOf;
    IndexKnowsPending(rows);
    if i < |rows| && rows[i].Tool? && CallsFor(rows[p], rows[i].id) {
      assert Awaited(rows, rows[i].id);
      PendingIsAwaited(rows, rows[i].id);
      NewestBatchIsSent(rows, b, i);
    }
    if rows[p].calls != [] {
      NewestIdsArePending(rows, p);
      NewestCallsAreSent(rows, b, p);
    }
  }

  lemma OldFrameIsFrame(rows: seq<Row>, i: nat)
    requires OldFrame(rows, i)
    ensures ResultOfTool(rows, i, STATE_TOOLS)
  {}

  lemma OutdatedSays(row: Row)
    requires Outdated(row)
    ensures row.Tool? && row.body.Decoded? && row.body.outcome.ok && row.body.outcome.superseded
  {}

  /** In what is sent, outside the newest batch, every old state frame is superseded, and no result and no execution
      offers a decision that was executed. */
  lemma NothingOldIsOffered(rows: seq<Row>, b: Budget, m: Message)
    requires Paired(Tagged(rows)) && Collected(rows, b).Ok? && m in Collected(rows, b).value
    requires m.row.Tool? && !Awaited(rows, m.row.id)
    ensures m.origin < |rows| && rows[m.origin].Tool? && rows[m.origin].id == m.row.id
    ensures OldFrame(rows, m.origin) ==>
      m.row.body.Decoded? && m.row.body.outcome.ok && m.row.body.outcome.superseded
    ensures
      && ResultOfTool(rows, m.origin, {"smac_decision", "smac_choices"}) && m.row.body.Decoded?
      && m.row.body.outcome.decision.Some?
      ==> !Executed(rows, m.row.body.outcome.decision.value)
    ensures ResultOfTool(rows, m.origin, {"smac_execute_choice"}) && m.row.body.Decoded? ==>
      !MenuExecuted(rows, m.row.body.outcome.post) && !MenuExecuted(rows, m.row.body.outcome.recovery)
  {
    hide *;
    PendingIsAwaited(rows, m.row.id);
    SentSettles(rows, b, m);
    var i := m.origin;
    ToolIs(rows, i, STATE_TOOLS);
    ToolIs(rows, i, {"smac_decision", "smac_choices"});
    ExecutionTool(rows, i);
    NewestFrameIs(rows, i);
    if OldFrame(rows, i) {
      OldFrameIsFrame(rows, i);
      OnlyNewestFrameLives(rows, b, m);
      OutdatedSays(m.row);
    }
    if ResultOfTool(rows, i, {"smac_decision", "smac_choices"}) && m.row.body.Decoded?
       && m.row.body.outcome.decision.Some?
    {
      ConsumedDecisionIsRetired(rows, b, m);
      ConsumedIsExecuted(rows, m.row.body.outcome.decision.value);
    }
    if ResultOfTool(rows, i, {"smac_execute_choice"}) && m.row.body.Decoded? {
      ConsumedMenuIsRetired(rows, b, m);
      MenuIs(rows, m.row.body.outcome.post);
      MenuIs(rows, m.row.body.outcome.recovery);
    }
  }

  // ----- Rows that are not results -----------------------------------------------------------

  /** Journaling and eviction rewrite results only. */
  lemma OthersPass(ms: seq<Message>, ix: Index, k: nat)
    requires k < |ms| && !ms[k].row.Tool?
    ensures var journaled := Journaling(ms, ix.calls, ix.pending);
      |journaled| == |ms| && |Evicting(journaled, ix.calls, ix.pending)| == |ms|
      && Evicting(journaled, ix.calls, ix.pending)[k] == ms[k]
  {
    EvictedKinds(ms, ix, k);
    EvictingAt(Journaling(ms, ix.calls, ix.pending), ix, k);
    hide Later;
  }

  /** Whatever is sent of a row that is not a result remained as it is before any pressure. */
  lemma OthersComeFromRemainder(rows: seq<Row>, b: Budget, m: Message)
    requires Paired(Tagged(rows)) && Collected(rows, b).Ok? && m in Collected(rows, b).value
    requires m.origin < |rows| && !rows[m.origin].Tool?
    ensures m in Remainder(rows, b.size)
  {
    hide Paired, Tagged, Collected, Remainder, IndexOf, Evicting, Journaling, Rewritten, Gone;
    var ms, ix := Remainder(rows, b.size), IndexOf(rows);
    var k := SentBecomes(rows, b, m);
    NothingElseRemains(rows, b.size, ms[k]);
    RewrittenIds(rows, m.origin);
    OthersPass(ms, ix, k);
  }

  /** Every instruction is sent. It is sent as it is, except that a user row which begins with the boundary is sent
      as the notice when another user row stands behind it. */
  lemma InstructionIsSent(rows: seq<Row>, b: Budget, i: nat)
    requires Paired(Tagged(rows)) && Collected(rows, b).Ok? && i < |rows| && (rows[i].System? || rows[i].User?)
    ensures exists m :: m in Collected(rows, b).value && m.origin == i
    ensures forall m | m in Collected(rows, b).value && m.origin == i ::
      m.row ==
      if rows[i].User? && "[SMACX_EPISODE_BOUNDARY" <= rows[i].text && exists k | i < k < |rows| :: rows[k].User?
      then User("[Superseded managed gameplay episode boundary.]") else rows[i]
  {
    hide Paired, Tagged, Collected, Remainder;
    InstructionsAreSent(rows, b, i);
    var k :| 0 <= k < |Collected(rows, b).value| && Collected(rows, b).value[k].origin == i;
    assert Collected(rows, b).value[k] in Collected(rows, b).value;
    forall m | m in Collected(rows, b).value && m.origin == i
      ensures m.row ==
        if rows[i].User? && "[SMACX_EPISODE_BOUNDARY" <= rows[i].text && exists k | i < k < |rows| :: rows[k].User?
        then User("[Superseded managed gameplay episode boundary.]") else rows[i]
    {
      OthersComeFromRemainder(rows, b, m);
      RemainingRowSays(rows, b.size, m);
    }
  }

  // ----- Relief: replacing -------------------------------------------------------------------

  /** What remains of row `i` yields as a successful query with a later one behind it. */
  ghost predicate QueryYields(rows: seq<Row>, m: Message) {
    && m.row.Tool? && !Awaited(rows, m.row.id) && m.row.body.Decoded? && m.row.body.outcome.ok
    && QueryResult(rows, m.origin)
    && |KeptBehind(rows, m.origin, {"smac_choices", "smac_world", "smac_investigate"})| >= 1
  }

  /** Or as a successful write, plainly written, with four later cognition results. */
  ghost predicate WriteYields(rows: seq<Row>, m: Message) {
    && m.row.Tool? && !Awaited(rows, m.row.id) && m.row.body.Decoded? && m.row.body.outcome.ok
    && WriteResult(rows, m.origin) && m.row.body.envelope == Plain
    && |KeptBehind(rows, m.origin, {"smac_memory_update", "smac_notebook"})| >= 4
  }

  /** A bare success with this mark and this receipt. */
  ghost function Bare(m: Message, mark: Mark, receipt: string): Message
    requires m.row.Tool?
  {
    Message(m.origin, Tool(m.row.id, Decoded(
      Outcome(true, false, mark, {}, false, None, None, false, None, None, None, receipt, ""), Plain)))
  }

  /** What relief makes of a message: a write that yields keeps its receipt, a query that yields keeps nothing, and
      everything else is as it was. */
  ghost function Relieving(rows: seq<Row>, m: Message): Message {
    if WriteYields(rows, m) then Bare(m, CognitionReceipt, m.row.body.outcome.receipt)
    else if QueryYields(rows, m) then Bare(m, QueryEviction, "")
    else m
  }

  ghost function RelievedRows(rows: seq<Row>, size: seq<Row> -> nat): seq<Message> {
    var ms, ix := Remainder(rows, size), IndexOf(rows);
    Evicting(Journaling(ms, ix.calls, ix.pending), ix.calls, ix.pending)
  }

  lemma JournaledExactly(ms: seq<Message>, ix: Index, k: nat)
    requires k < |ms|
    ensures |Journaling(ms, ix.calls, ix.pending)| == |ms|
    ensures Journaling(ms, ix.calls, ix.pending)[k] == JournaledAt(ms, k, ix.calls, ix.pending)
  {}

  lemma EvictedExactly(ms: seq<Message>, ix: Index, k: nat)
    requires k < |ms|
    ensures var journaled := Journaling(ms, ix.calls, ix.pending);
      |journaled| == |ms| && |Evicting(journaled, ix.calls, ix.pending)| == |ms|
      && Evicting(journaled, ix.calls, ix.pending)[k]
         == if Later(ms, k + 1, ix.calls, QUERY_TOOLS) >= 1
            then EvictedQuery(JournaledAt(ms, k, ix.calls, ix.pending), ix.calls, ix.pending)
            else JournaledAt(ms, k, ix.calls, ix.pending)
  {
    var journaled := Journaling(ms, ix.calls, ix.pending);
    hide Later, Evicting;
    forall i | 0 <= i < |ms| ensures SameShape(ms[i].row, journaled[i].row) {
      JournaledShape(ms[i], ix.calls, ix.pending);
    }
    LaterAlike(ms, journaled, k + 1, ix.calls, QUERY_TOOLS);
    JournaledExactly(ms, ix, k);
    EvictingAt(journaled, ix, k);
  }

  lemma BareMarker(m: Message)
    requires m.row.Tool? && m.row.body.Decoded?
    ensures Bare(m, CognitionReceipt, m.row.body.outcome.receipt)
      == Message(m.origin, Tool(m.row.id, Decoded(Marker(false, false, CognitionReceipt, m.row.body.outcome.receipt),
                                                  Plain)))
    ensures Bare(m, QueryEviction, "")
      == Message(m.origin, Tool(m.row.id, Decoded(Marker(false, false, QueryEviction, ""), Plain)))
  {}

  lemma LeftKind(rows: seq<Row>, i: nat)
    requires i < |rows|
    ensures Left(rows, i).row.Tool? <==> rows[i].Tool?
    ensures rows[i].Tool? ==> Left(rows, i).row.id == rows[i].id
  {
    hide Rewritten, Gone;
    RewrittenIds(rows, i);
  }

  lemma RelievesTo(rows: seq<Row>, m: Message, ix: Index, queries: nat, writes: nat)
    requires m.row.Tool? && (m.row.id in ix.pending <==> Awaited(rows, m.row.id))
    requires Named(m, ix.calls, QUERY_TOOLS) <==> QueryResult(rows, m.origin)
    requires WriteResult(rows, m.origin) <==> Named(m, ix.calls, COGNITION_TOOLS) && DurableWrite(ix.calls, m.row.id)
    requires queries == |KeptBehind(rows, m.origin, {"smac_choices", "smac_world", "smac_investigate"})|
    requires writes == |KeptBehind(rows, m.origin, {"smac_memory_update", "smac_notebook"})|
    ensures var journaled := if writes >= 4 then Journaled(m, ix.calls, ix.pending) else m;
      Relieving(rows, m) == if queries >= 1 then EvictedQuery(journaled, ix.calls, ix.pending) else journaled
  {
    if m.row.body.Decoded? { BareMarker(m); }
    NamesApart(NameOf(ix.calls, m.row.id));
    hide ResultOfTool, WriteResult, Awaited, DurableWrite, Bare, KeptBehind;
  }

  /** Message by message relief replaces exactly what yields. */
  lemma RelievedRowIs(rows: seq<Row>, size: seq<Row> -> nat, k: nat)
    requires Paired(Tagged(rows)) && k < |Remainder(rows, size)|
    ensures |RelievedRows(rows, size)| == |Remainder(rows, size)|
    ensures RelievedRows(rows, size)[k] == Relieving(rows, Remainder(rows, size)[k])
  {
    var ms, ix := Remainder(rows, size), IndexOf(rows);
    var m := ms[k];
    EvictedExactly(ms, ix, k);
    hide Paired, Tagged, Remainder, IndexOf, KeptBehind, Later, Evicting, Journaling, Left, Rewritten, Gone;
    NothingElseRemains(rows, size, m);
    LeftKind(rows, m.origin);
    if m.row.Tool? {
      LeftIsNamed(rows, m.origin, QUERY_TOOLS);
      LeftIsNamed(rows, m.origin, COGNITION_TOOLS);
      LaterIs(rows, size, k, QUERY_TOOLS);
      LaterIs(rows, size, k, COGNITION_TOOLS);
      WriteIs(rows, m.origin);
      ToolIs(rows, m.origin, QUERY_TOOLS);
      ToolIs(rows, m.origin, COGNITION_TOOLS);
      PendingIsAwaited(rows, m.row.id);
      hide ResultOfTool, WriteResult, Awaited, DurableWrite, Relieving, Journaled, EvictedQuery, Named, Remains;
      RelievesTo(rows, m, ix, Later(ms, k + 1, ix.calls, QUERY_TOOLS), Later(ms, k + 1, ix.calls, COGNITION_TOOLS));
    }
  }

  // ----- Relief: dropping --------------------------------------------------------------------

  /** Some result of this call is a success without obligations. */
  ghost predicate SpentResult(ms: seq<Message>, id: Id) {
    exists k | 0 <= k < |ms| :: ms[k].row.Tool? && ms[k].row.id == id && ms[k].row.body.Decoded?
      && ms[k].row.body.outcome.ok && ms[k].row.body.outcome.duties == {}
  }

  ghost predicate SpentCall(ms: seq<Message>, call: Call) {
    && call.name in {"smac_decision", "smac_wait", "smac_snapshot", "smac_observe", "smac_choices", "smac_world",
                     "smac_investigate", "smac_execute_choice", "smac_match_briefing", "smac_list", "smac_memory",
                     "smac_memory_update", "smac_notebook"}
    && SpentResult(ms, call.id)
  }

  /** An assistant row that says nothing and whose calls are all spent. */
  ghost predicate IsGroup(ms: seq<Message>, j: nat) {
    && j < |ms| && ms[j].row.Assistant? && ms[j].row.text == "" && ms[j].row.calls != []
    && forall c | c in ms[j].row.calls :: SpentCall(ms, c)
  }

  ghost function GroupsBehind(ms: seq<Message>, j: nat): set<nat> {
    set g | j < g < |ms| && IsGroup(ms, g)
  }

  /** The row itself or one of its results. */
  ghost predicate InGroup(ms: seq<Message>, j: nat, k: nat) {
    j < |ms| && (k == j || (k < |ms| && ms[k].row.Tool? && CallsFor(ms[j].row, ms[k].row.id)))
  }

  /** Message `k` is of a group with `keep` groups or more behind it. */
  ghost predicate OfOldGroup(ms: seq<Message>, keep: nat, k: nat) {
    exists j | 0 <= j < |ms| :: IsGroup(ms, j) && |GroupsBehind(ms, j)| >= keep && InGroup(ms, j, k)
  }

  /** The index knows every call that is left. */
  ghost predicate KnowsCalls(ms: seq<Message>, calls: map<Id, Call>) {
    forall j, c | 0 <= j < |ms| && ms[j].row.Assistant? && c in ms[j].row.calls :: c.id in calls && calls[c.id] == c
  }

  lemma SpentIs(ms: seq<Message>, j: nat, id: Id)
    requires Paired(ms) && j < |ms| && id in Ids(ms[j].row)
    ensures id in ToolRows(ms, |ms|)
    ensures Spent(ms[ToolRows(ms, |ms|)[id]].row.body) <==> SpentResult(ms, id)
  {
    assert Fulfilled(ms, j, id);
    var i := ResultOf(ms, j, id);
    ToolRowIsUnique(ms, i);
    forall k | 0 <= k < |ms| && ms[k].row.Tool? && ms[k].row.id == id ensures k == i { ToolRowIsUnique(ms, k); }
  }

  lemma SpentCallIs(ms: seq<Message>, calls: map<Id, Call>, j: nat, call: Call)
    requires Paired(ms) && KnowsCalls(ms, calls) && j < |ms| && ms[j].row.Assistant? && call in ms[j].row.calls
    ensures call.id in Ids(ms[j].row)
    ensures DisposableCall(ms, calls, call.id) <==> SpentCall(ms, call)
  {
    CallIsNamed(ms[j].row, call);
    SpentIs(ms, j, call.id);
    hide Paired, SpentResult, ToolRows, Spent, Ids;
  }

  /** The groups that the pass looks for are these. */
  lemma GroupIs(ms: seq<Message>, calls: map<Id, Call>, j: nat)
    requires Paired(ms) && KnowsCalls(ms, calls) && j < |ms|
    ensures Disposable(ms, calls, j) <==> IsGroup(ms, j)
  {
    hide Paired, DisposableCall, SpentCall, Ids, KnowsCalls;
    if ms[j].row.Assistant? {
      forall call | call in ms[j].row.calls
        ensures call.id in Ids(ms[j].row) && (DisposableCall(ms, calls, call.id) <==> SpentCall(ms, call))
      {
        SpentCallIs(ms, calls, j, call);
      }
      forall id | id in Ids(ms[j].row) ensures exists call | call in ms[j].row.calls :: call.id == id {
        IdsAre(ms[j].row, id);
        var c :| 0 <= c < |ms[j].row.calls| && ms[j].row.calls[c].id == id;
        assert ms[j].row.calls[c] in ms[j].row.calls;
      }
    }
  }

  lemma {:induction false} GroupsAre(ms: seq<Message>, calls: map<Id, Call>, n: nat, j: nat)
    requires n <= |ms|
    ensures j in Groups(ms, calls, n) <==> j < n && Disposable(ms, calls, j)
  {
    hide Disposable;
    if n == 0 {
    } else {
      GroupsAre(ms, calls, n - 1, j);
    }
  }

  lemma GroupRowsAre(ms: seq<Message>, j: nat, k: nat)
    requires Paired(ms) && j < |ms| && k < |ms|
    ensures k in GroupRows(ms, ToolRows(ms, |ms|), j) <==> InGroup(ms, j, k)
  {
    if ms[k].row.Tool? {
      ToolRowIsUnique(ms, k);
      IdsAre(ms[j].row, ms[k].row.id);
    }
    hide Paired, Ids, CallsFor;
  }

  lemma ExpiredIs(ms: seq<Message>, calls: map<Id, Call>, keep: nat, g: nat)
    requires Paired(ms) && KnowsCalls(ms, calls) && g < |Groups(ms, calls, |ms|)|
    ensures var groups := Groups(ms, calls, |ms|);
      && groups[g] < |ms| && IsGroup(ms, groups[g])
      && (g < Expired(|groups|, keep) <==> |GroupsBehind(ms, groups[g])| >= keep)
  {
    var groups := Groups(ms, calls, |ms|);
    assert groups[g] in groups;
    hide Paired, KnowsCalls, Disposable, Groups, IsGroup;
    GroupsAre(ms, calls, |ms|, groups[g]);
    GroupIs(ms, calls, groups[g]);
    AboveCount(groups, g);
    forall j: nat ensures j in Above(groups, groups[g]) <==> j in GroupsBehind(ms, groups[g]) {
      GroupsAre(ms, calls, |ms|, j);
      if j < |ms| { GroupIs(ms, calls, j); }
    }
    assert Above(groups, groups[g]) == GroupsBehind(ms, groups[g]);
  }

  /** A pass removes exactly the rows of groups with `keep` groups or more behind them. */
  lemma RemovedIs(ms: seq<Message>, calls: map<Id, Call>, keep: nat, k: nat)
    requires Paired(ms) && KnowsCalls(ms, calls) && k < |ms|
    ensures var groups := Groups(ms, calls, |ms|);
      k in Removed(ms, groups, Expired(|groups|, keep)) <==> OfOldGroup(ms, keep, k)
  {
    var groups := Groups(ms, calls, |ms|);
    var n := Expired(|groups|, keep);
    RemovedAre(ms, groups, n, k);
    hide Paired, KnowsCalls, Groups, IsGroup, GroupRows, ToolRows, InGroup, GroupsBehind, Removed, Disposable;
    forall g | 0 <= g < |groups|
      ensures groups[g] < |ms| && IsGroup(ms, groups[g])
      ensures g < n <==> |GroupsBehind(ms, groups[g])| >= keep
      ensures k in GroupRows(ms, ToolRows(ms, |ms|), groups[g]) <==> InGroup(ms, groups[g], k)
    {
      ExpiredIs(ms, calls, keep, g);
      GroupRowsAre(ms, groups[g], k);
    }
    if OfOldGroup(ms, keep, k) {
      var j :| 0 <= j < |ms| && IsGroup(ms, j) && |GroupsBehind(ms, j)| >= keep && InGroup(ms, j, k);
      GroupIs(ms, calls, j);
      GroupsAre(ms, calls, |ms|, j);
      var g :| 0 <= g < |groups| && groups[g] == j;
    }
  }

  lemma {:induction false} DroppedAre(ms: seq<Message>, n: nat, dead: set<nat>, m: Message)
    requires n <= |ms|
    ensures m in Dropped(ms, n, dead) <==> exists k | 0 <= k < n :: k !in dead && ms[k] == m
  {
    if n == 0 {
    } else {
      DroppedAre(ms, n - 1, dead, m);
    }
  }

  /** What a pass leaves. */
  lemma PassLeaves(ms: seq<Message>, calls: map<Id, Call>, keep: nat, m: Message)
    requires Paired(ms) && KnowsCalls(ms, calls)
    ensures m in DroppedGroups(ms, calls, keep) <==> exists k | 0 <= k < |ms| :: !OfOldGroup(ms, keep, k) && ms[k] == m
  {
    var groups := Groups(ms, calls, |ms|);
    var dead := Removed(ms, groups, Expired(|groups|, keep));
    DroppedAre(ms, |ms|, dead, m);
    hide Paired, KnowsCalls, Groups, Removed, OfOldGroup, Disposable;
    forall k | 0 <= k < |ms| ensures k in dead <==> OfOldGroup(ms, keep, k) { RemovedIs(ms, calls, keep, k); }
  }

  lemma FewerAreKnown(rows: seq<Row>, m: Message, pending: set<Id>, lost: set<Id>, call: Call)
    requires Paired(Tagged(rows)) && Inherits(rows, m, pending, lost) && m.row.Assistant? && call in m.row.calls
    ensures call.id in IndexOf(rows).calls && IndexOf(rows).calls[call.id] == call
  {
    var a := rows[m.origin];
    var gone :| gone !! pending && m.row.calls == Without(a.calls, gone);
    LeftCalls(a.calls, gone, call);
    hide Paired, Tagged, IndexOf;
    assert MadeBy(rows, m.origin, call);
    OneCall(rows, call);
  }

  lemma FaithfulKnowsCalls(rows: seq<Row>, ms: seq<Message>, lost: set<Id>)
    requires Paired(Tagged(rows)) && FaithfulTo(rows, ms, IndexOf(rows), lost)
    ensures Paired(ms) && KnowsCalls(ms, IndexOf(rows).calls) && Ordered(ms)
  {
    FaithIsPaired(rows, ms, IndexOf(rows).pending, lost);
    hide Paired, Tagged, IndexOf, Inherits, Ordered, Stays, Adjacent;
    forall j, c | 0 <= j < |ms| && ms[j].row.Assistant? && c in ms[j].row.calls
      ensures c.id in IndexOf(rows).calls && IndexOf(rows).calls[c.id] == c
    {
      FewerAreKnown(rows, ms[j], IndexOf(rows).pending, lost, c);
    }
  }

  // ----- What is sent over the ceiling -------------------------------------------------------

  ghost function FirstPass(rows: seq<Row>, size: seq<Row> -> nat): seq<Message> {
    DroppedGroups(RelievedRows(rows, size), IndexOf(rows).calls, 24)
  }

  ghost function SecondPass(rows: seq<Row>, size: seq<Row> -> nat): seq<Message> {
    DroppedGroups(FirstPass(rows, size), IndexOf(rows).calls, 8)
  }

  lemma LostOver(rows: seq<Row>, b: Budget)
    requires Over(rows, b)
    ensures Marked(rows) <= Lost(rows, b) && Pressed(Remainder(rows, b.size), IndexOf(rows)) <= Lost(rows, b)
  {
    hide Marked, Pressed, Remainder, IndexOf;
  }

  lemma RelievedRowsAre(rows: seq<Row>, size: seq<Row> -> nat)
    ensures var ms, ix := Remainder(rows, size), IndexOf(rows);
      && RelievedRows(rows, size) == Evicting(Journaling(ms, ix.calls, ix.pending), ix.calls, ix.pending)
      && FirstPass(rows, size) == DroppedGroups(RelievedRows(rows, size), ix.calls, 24)
      && SecondPass(rows, size) == DroppedGroups(FirstPass(rows, size), ix.calls, 8)
  {
    hide Remainder, IndexOf, Evicting, Journaling, DroppedGroups;
  }

  lemma ReliefIsFaithful(rows: seq<Row>, b: Budget)
    requires Paired(Tagged(rows)) && Over(rows, b)
    ensures FaithfulTo(rows, RelievedRows(rows, b.size), IndexOf(rows), Lost(rows, b))
    ensures FaithfulTo(rows, FirstPass(rows, b.size), IndexOf(rows), Lost(rows, b))
  {
    hide *;
    IndexKnowsPending(rows);
    LostOver(rows, b);
    RemainderIsFaithful(rows, b.size, Lost(rows, b));
    EvictingKeepsFaith(rows, Remainder(rows, b.size), IndexOf(rows), Lost(rows, b));
    RelievedRowsAre(rows, b.size);
    GroupsDropFaithfully(rows, RelievedRows(rows, b.size), IndexOf(rows), LastUser(rows, |rows|), 24, Lost(rows, b));
  }

  lemma OverIs(rows: seq<Row>, b: Budget)
    ensures Over(rows, b) <==> b.tokens(RowsOf(Remainder(rows, b.size))) > b.ceiling
  {
    hide Remainder;
  }

  lemma CollectedIs(rows: seq<Row>, b: Budget)
    ensures var last := if b.tokens(RowsOf(FirstPass(rows, b.size))) > b.target then SecondPass(rows, b.size)
                        else FirstPass(rows, b.size);
      Collected(rows, b) ==
      if b.tokens(RowsOf(Remainder(rows, b.size))) <= b.ceiling then Ok(Remainder(rows, b.size))
      else if b.tokens(RowsOf(last)) > b.ceiling then Err(ContextBudgetExhausted) else Ok(last)
  {
    hide Remainder, IndexOf, DroppedGroups, Evicting, Journaling;
  }

  /** What is sent: the remainder as it is when it is within the ceiling. Over it, the messages relieved, without the
      rows of groups with 24 groups or more behind them and, if that is still above the target, without those of
      groups with eight or more; and nothing at all when even that is above the ceiling. */
  lemma SentIs(rows: seq<Row>, b: Budget, m: Message)
    requires Paired(Tagged(rows))
    ensures var remainder, first, second := Remainder(rows, b.size), FirstPass(rows, b.size), SecondPass(rows, b.size);
      var last := if b.tokens(RowsOf(first)) > b.target then second else first;
      Collected(rows, b) ==
      if b.tokens(RowsOf(remainder)) <= b.ceiling then Ok(remainder)
      else if b.tokens(RowsOf(last)) > b.ceiling then Err(ContextBudgetExhausted) else Ok(last)
    ensures b.tokens(RowsOf(Remainder(rows, b.size))) > b.ceiling ==>
      var relieved, first, second := RelievedRows(rows, b.size), FirstPass(rows, b.size), SecondPass(rows, b.size);
      && (m in first <==> exists k | 0 <= k < |relieved| :: !OfOldGroup(relieved, 24, k) && relieved[k] == m)
      && (m in second <==> exists k | 0 <= k < |first| :: !OfOldGroup(first, 8, k) && first[k] == m)
  {
    CollectedIs(rows, b);
    if b.tokens(RowsOf(Remainder(rows, b.size))) > b.ceiling {
      OverIs(rows, b);
      hide *;
      ReliefIsFaithful(rows, b);
      RelievedRowsAre(rows, b.size);
      FaithfulKnowsCalls(rows, RelievedRows(rows, b.size), Lost(rows, b));
      FaithfulKnowsCalls(rows, FirstPass(rows, b.size), Lost(rows, b));
      PassLeaves(RelievedRows(rows, b.size), IndexOf(rows).calls, 24, m);
      PassLeaves(FirstPass(rows, b.size), IndexOf(rows).calls, 8, m);
    }
  }
}
