/** What is left of a transcript before any pressure, row by row, and what evidence is given up for good. */
module TranscriptRemainder {
  import opened Wrappers
  import opened TranscriptModel
  import opened TranscriptPromises
  import opened TranscriptStages
  import opened TranscriptContinuation
  import opened TranscriptPressure
  import opened TranscriptCollection
  import opened TranscriptEvidence
  import opened TranscriptTerms

  // ----- Settled pairs -----------------------------------------------------------------------

  /** A success without obligations that was marked as superseded. */
  ghost predicate IsSettled(body: Body) {
    && body.Decoded? && body.outcome.ok && body.outcome.duties == {}
    && (body.outcome.superseded || body.outcome.mark == SupersededQuery)
  }

  /** The call with this id was made before the last user row. */
  ghost predicate CalledBefore(rows: seq<Row>, id: Id) {
    exists j | 0 <= j < |rows| :: CallsFor(rows[j], id) && UserBehind(rows, j)
  }

  /** The result goes with its call: it is of an earlier turn, no execution, and replaced or already settled. */
  ghost predicate SettledAway(rows: seq<Row>, i: nat) {
    && i < |rows| && rows[i].Tool? && CalledBefore(rows, rows[i].id) && !ResultOfTool(rows, i, {"smac_execute_choice"})
    && (IsReplaced(rows, i) || IsSettled(rows[i].body))
  }

  lemma RewrittenIsPaired(rows: seq<Row>)
    requires Paired(Tagged(rows))
    ensures Paired(Tagged(Rewritten(rows)))
  {
    hide Paired, Rewritten, Marked, IndexOf, Tagged;
    RewritingKeepsFaith(rows, Marked(rows));
    hide Faithful;
    FaithIsPaired(rows, Tagged(Rewritten(rows)), IndexOf(rows).pending, Marked(rows));
  }

  lemma RewrittenIds(rows: seq<Row>, j: nat)
    requires j < |rows|
    ensures Ids(Rewritten(rows)[j]) == Ids(rows[j])
    ensures Rewritten(rows)[j].Tool? <==> rows[j].Tool?
    ensures rows[j].Tool? ==> Rewritten(rows)[j].id == rows[j].id
    ensures rows[j].Assistant? <==> Rewritten(rows)[j].Assistant?
    ensures rows[j].Assistant? ==> Rewritten(rows)[j] == rows[j]
  {
    hide Rewritten, Recollected, LastUser;
    if rows[j].Tool? {
      RewrittenRow(rows, j);
      RecollectedKind(rows, j);
    } else {
      OtherRowsStay(rows, j);
    }
  }

  lemma CompactedIsSettled(row: Row, calls: map<Id, Call>, pending: set<Id>, past: bool)
    requires row.Tool? && NameOf(calls, row.id) != EXECUTE
    ensures var r := Compacted(row, calls, pending, past);
      r.Tool? && (IsSettled(r.body) <==> IsSettled(row.body))
  {}

  /** What stands in for a replaced result: a success that is superseded, and consumed if it was an executed menu; or
      one that is marked as a superseded query. It says nothing else. */
  ghost function Replacement(rows: seq<Row>, i: nat): Row
    requires i < |rows| && rows[i].Tool?
  {
    var menu, frame := OldMenu(rows, i), OldFrame(rows, i);
    Tool(rows[i].id, Decoded(
      Outcome(true, menu || frame, if menu || frame then Unmarked else SupersededQuery, {}, false, None, None, menu,
              None, None, None, "", ""), Plain))
  }

  lemma MarkersSay(row: Row)
    requires row.Tool?
    ensures StaleMarker(row) == Tool(row.id, Decoded(
      Outcome(true, true, Unmarked, {}, false, None, None, false, None, None, None, "", ""), Plain))
    ensures QueryMarker(row) == Tool(row.id, Decoded(
      Outcome(true, false, SupersededQuery, {}, false, None, None, false, None, None, None, "", ""), Plain))
  {}

  lemma MarkersAlike(a: Row, b: Row)
    requires a.Tool? && b.Tool? && a.id == b.id
    ensures StaleMarker(a) == StaleMarker(b) && QueryMarker(a) == QueryMarker(b)
  {}

  lemma RetirementSays(row: Row, name: string, consumed: set<string>, pending: set<Id>)
    requires WhollyRetired(row, name, consumed, pending)
    ensures row.Tool? && Retired(row, name, consumed, pending) == Tool(row.id, Decoded(
      Outcome(true, true, Unmarked, {}, false, None, None, true, None, None, None, "", ""), Plain))
  {}

  lemma CompactedKeepsPlain(row: Row, calls: map<Id, Call>, pending: set<Id>, past: bool)
    requires row.Tool? && row.body.Decoded? && row.body.envelope == Plain && NameOf(calls, row.id) != EXECUTE
    ensures Compacted(row, calls, pending, past) == row
  {}

  /** The three stages that replace, seen from the one that applies. */
  lemma RecollectedWhole(rows: seq<Row>, i: nat)
    requires i < |rows| && rows[i].Tool? && i in Whole(rows, rows, IndexOf(rows))
    ensures var ix := IndexOf(rows);
      Recollected(rows, i)
        == Compacted(Retired(rows[i], NameAt(rows, i), ix.consumed, ix.pending), ix.calls, ix.pending,
                     i < LastUser(rows, |rows|))
  {
    hide NameAt, Retired, Compacted, Requeried, Stale, IsQuery, IndexOf, LastUser, Whole;
  }

  lemma RecollectedFrame(rows: seq<Row>, i: nat)
    requires i < |rows| && rows[i].Tool? && i !in Whole(rows, rows, IndexOf(rows))
    requires rows[i].id !in IndexOf(rows).pending
    requires Stale(IndexOf(rows), i, LastUser(rows, |rows|)) && !IsQuery(IndexOf(rows), rows[i])
    ensures Recollected(rows, i)
      == Compacted(StaleMarker(rows[i]), IndexOf(rows).calls, IndexOf(rows).pending, i < LastUser(rows, |rows|))
  {
    hide NameAt, Retired, Compacted, Requeried, Stale, IsQuery, IndexOf, LastUser, Whole, StaleMarker, QueryMarker;
    var ix := IndexOf(rows);
    RetiredKeepsId(rows[i], NameAt(rows, i), ix.consumed, ix.pending);
    MarkersAlike(Retired(rows[i], NameAt(rows, i), ix.consumed, ix.pending), rows[i]);
  }

  lemma RecollectedQuery(rows: seq<Row>, i: nat)
    requires i < |rows| && rows[i].Tool? && i !in Whole(rows, rows, IndexOf(rows))
    requires rows[i].id !in IndexOf(rows).pending && !Stale(IndexOf(rows), i, LastUser(rows, |rows|))
    requires IsQuery(IndexOf(rows), rows[i]) && Requeried(rows, Whole(rows, rows, IndexOf(rows)), IndexOf(rows), i)
    ensures Recollected(rows, i)
      == Compacted(QueryMarker(rows[i]), IndexOf(rows).calls, IndexOf(rows).pending, i < LastUser(rows, |rows|))
  {
    hide NameAt, Retired, Compacted, Requeried, Stale, IsQuery, IndexOf, LastUser, Whole, StaleMarker, QueryMarker;
    var ix := IndexOf(rows);
    RetiredKeepsId(rows[i], NameAt(rows, i), ix.consumed, ix.pending);
    MarkersAlike(Retired(rows[i], NameAt(rows, i), ix.consumed, ix.pending), rows[i]);
  }

  lemma RetiredTool(rows: seq<Row>, i: nat)
    requires i < |rows|
    ensures WhollyRetired(rows[i], ToolOf(rows, if rows[i].Tool? then rows[i].id else ""), IndexOf(rows).consumed,
                          IndexOf(rows).pending)
      ==> rows[i].Tool? && ToolOf(rows, rows[i].id) in {"smac_decision", "smac_choices"}
  {
    hide IndexOf, ToolOf;
  }

  /** Which of the stages applies. */
  lemma ReplacedBy(rows: seq<Row>, i: nat)
    requires Paired(Tagged(rows)) && i < |rows| && rows[i].Tool? && Replaced(rows, i)
    ensures var ix, whole := IndexOf(rows), Whole(rows, rows, IndexOf(rows));
      && rows[i].id !in ix.pending && ToolOf(rows, rows[i].id) != EXECUTE
      && (i in whole <==> OldMenu(rows, i))
      && (i in whole ==> WhollyRetired(rows[i], NameAt(rows, i), ix.consumed, ix.pending))
      && (Stale(ix, i, LastUser(rows, |rows|)) <==> OldFrame(rows, i))
      && (OldFrame(rows, i) ==> !IsQuery(ix, rows[i]))
      && (!OldMenu(rows, i) && !OldFrame(rows, i) ==> IsQuery(ix, rows[i]) && Requeried(rows, whole, ix, i))
  {
    hide Paired, Tagged, IndexOf, NameAt, LastUser, Stale, Requeried, WhollyRetired, NewestFrame, OldMenu, OldFrame;
    hide IsQuery;
    ReplacedByName(rows, i);
    FramesAreNoQueries(rows, i);
    StaleIsNotNewest(rows, i);
    NewestFrameIs(rows, i);
    FrameIsNamed(rows, i);
    PendingIsAwaited(rows, rows[i].id);
    WholeIs(rows, i);
    RetiredTool(rows, i);
    IsQueryByName(rows, i);
    NamesApart(ToolOf(rows, rows[i].id));
    hide ToolOf, FrameResult, Awaited;
  }

  /** A replaced result becomes exactly its replacement. */
  lemma ReplacementIs(rows: seq<Row>, i: nat)
    requires Paired(Tagged(rows)) && i < |rows| && rows[i].Tool? && Replaced(rows, i)
    ensures Rewritten(rows)[i] == Replacement(rows, i) && ToolOf(rows, rows[i].id) != EXECUTE
  {
    RewrittenRow(rows, i);
    ReplacedBy(rows, i);
    var ix := IndexOf(rows);
    assert ToolOf(rows, rows[i].id) == NameOf(ix.calls, rows[i].id);
    hide Paired, Tagged, NameAt, Stale, LastUser, Requeried, Compacted, IndexOf, Rewritten, IsQuery, Replaced, Whole;
    hide OldMenu, OldFrame, ToolOf, Recollected, WhollyRetired, Retired, StaleMarker, QueryMarker;
    MarkersSay(rows[i]);
    var marker := Replacement(rows, i);
    CompactedKeepsPlain(marker, ix.calls, ix.pending, i < LastUser(rows, |rows|));
    if OldMenu(rows, i) {
      RetirementSays(rows[i], NameAt(rows, i), ix.consumed, ix.pending);
      RecollectedWhole(rows, i);
    } else if OldFrame(rows, i) {
      RecollectedFrame(rows, i);
    } else {
      RecollectedQuery(rows, i);
    }
  }

  lemma ReplacedIsSettled(rows: seq<Row>, i: nat)
    requires Paired(Tagged(rows)) && i < |rows| && rows[i].Tool? && Replaced(rows, i)
    ensures IsSettled(Rewritten(rows)[i].body) && ToolOf(rows, rows[i].id) != EXECUTE
  {
    ReplacementIs(rows, i);
    hide Paired, Tagged, Rewritten, Replaced, OldMenu, OldFrame, ToolOf;
  }

  lemma PendingIsOpen(rows: seq<Row>, i: nat)
    requires i < |rows| && rows[i].Tool? && rows[i].id in IndexOf(rows).pending
    ensures !Replaced(rows, i)
  {
    hide IndexOf, Stale, WhollyRetired, Requeried;
  }

  /** Settled after the rewriting stages is what they replaced, and what came settled. */
  lemma SettledIs(rows: seq<Row>, i: nat)
    requires Paired(Tagged(rows)) && i < |rows| && rows[i].Tool? && ToolOf(rows, rows[i].id) != EXECUTE
    ensures IsSettled(Rewritten(rows)[i].body) <==> Replaced(rows, i) || IsSettled(rows[i].body)
  {
    RewrittenRow(rows, i);
    var ix, name := IndexOf(rows), ToolOf(rows, rows[i].id);
    hide Paired, Tagged, IndexOf, Rewritten, Recollected, Replaced, IsSettled;
    if rows[i].id in ix.pending {
      PendingRow(rows, i);
      PendingIsOpen(rows, i);
    } else if Replaced(rows, i) {
      ReplacedIsSettled(rows, i);
    } else {
      UnreplacedIsCompacted(rows, i);
      NotWhollyRetired(rows, i);
      RetiredSettles(rows[i], name, ix.consumed, ix.pending);
      hide Retired, WhollyRetired, Compacted;
      CompactedIsSettled(rows[i], ix.calls, ix.pending, i < LastUser(rows, |rows|));
    }
  }

  /** The ids that leave with their results. */
  ghost function Gone(rows: seq<Row>): set<Id> {
    var after := Rewritten(rows);
    Removable(after, Before(LastUser(rows, |rows|)), Results(after, |after|), IndexOf(rows).calls)
  }

  lemma SettledBodyIs(results: map<Id, Body>, calls: map<Id, Call>, id: Id)
    requires id in results
    ensures Settled(results, calls, id) <==> IsSettled(results[id]) && NameOf(calls, id) != EXECUTE
  {}

  lemma GoneIs(rows: seq<Row>, i: nat)
    requires Paired(Tagged(rows)) && i < |rows| && rows[i].Tool?
    ensures rows[i].id in Gone(rows) <==> SettledAway(rows, i)
  {
    var after, id := Rewritten(rows), rows[i].id;
    var results, calls := Results(after, |after|), IndexOf(rows).calls;
    RewrittenIsPaired(rows);
    RewrittenIds(rows, i);
    ResultIsUnique(after, i);
    RemovableIsSettled(after, Before(LastUser(rows, |rows|)), results, calls, id);
    hide Paired, Tagged, IndexOf, Rewritten, Removable, Results, IsSettled, Ids, CallsFor;
    forall j | 0 <= j < |rows|
      ensures j < Before(LastUser(rows, |rows|)) && id in Ids(after[j]) <==>
        CallsFor(rows[j], id) && UserBehind(rows, j)
    {
      RewrittenIds(rows, j);
      IdsAre(rows[j], id);
      BeforeLastUser(rows, j);
    }
    SettledBodyIs(results, calls, id);
    ToolIs(rows, i, {"smac_execute_choice"});
    ReplacedIs(rows, i);
    hide Settled, UserBehind, LastUser, ResultOfTool, Replaced, IsReplaced;
    if ToolOf(rows, id) != EXECUTE { SettledIs(rows, i); }
  }

  // ----- Calls and prose ---------------------------------------------------------------------

  /** The call with this id leaves with its result. */
  ghost predicate CallGone(rows: seq<Row>, id: Id) {
    exists k: nat :: SettledAway(rows, k) && rows[k].id == id
  }

  ghost predicate AllGone(rows: seq<Row>, i: nat) {
    i < |rows| && rows[i].Assistant? && forall c | c in rows[i].calls :: CallGone(rows, c.id)
  }

  ghost predicate TwoUsersBehind(rows: seq<Row>, i: nat) {
    exists k: nat, l: nat :: i < k < l < |rows| && rows[k].User? && rows[l].User?
  }

  /** Prose of which no call is left, at least two user rows ago. */
  ghost predicate Standalone(rows: seq<Row>, i: nat) {
    i < |rows| && rows[i].Assistant? && rows[i].text != "" && AllGone(rows, i) && TwoUsersBehind(rows, i)
  }

  /** The same standalone prose stands again further on. */
  ghost predicate SpokenAgain(rows: seq<Row>, i: nat) {
    Standalone(rows, i) && exists l | i < l < |rows| :: Standalone(rows, l) && rows[l].text == rows[i].text
  }

  /** The rows without the calls that leave are larger than 24,000. */
  ghost predicate Bulky(rows: seq<Row>, size: seq<Row> -> nat) {
    var after := Rewritten(rows);
    size(seq(|after|, i requires 0 <= i < |after| => Slim(after[i], Gone(rows)))) > 24000
  }

  /** Whether row `i` remains when nothing presses: every instruction, every result that is not settled away, and
      every assistant row unless all its calls left and it says nothing, or it is said again and the rows are bulky. */
  ghost predicate Remains(rows: seq<Row>, size: seq<Row> -> nat, i: nat) {
    i < |rows|
    && match rows[i]
       case System(_) => true
       case User(_) => true
       case Tool(_, _) => !SettledAway(rows, i)
       case Assistant(text, calls) =>
         && !(calls != [] && text == "" && AllGone(rows, i))
         && !(Bulky(rows, size) && SpokenAgain(rows, i))
  }

  lemma AwayIsResult(rows: seq<Row>, i: nat)
    requires SettledAway(rows, i)
    ensures i < |rows| && rows[i].Tool?
  {}

  lemma CallGoneIs(rows: seq<Row>, i: nat, id: Id)
    requires Paired(Tagged(rows)) && i < |rows| && id in Ids(rows[i])
    ensures id in Gone(rows) <==> CallGone(rows, id)
  {
    var ms := Tagged(rows);
    assert Fulfilled(ms, i, id);
    var k := ResultOf(ms, i, id);
    hide Gone, SettledAway, Paired, Ids;
    assert rows[k].Tool? && rows[k].id == id;
    GoneIs(rows, k);
    if CallGone(rows, id) {
      var l: nat :| SettledAway(rows, l) && rows[l].id == id;
      AwayIsResult(rows, l);
      GoneIs(rows, l);
    }
  }

  lemma {:induction false} LeftCalls(calls: seq<Call>, gone: set<Id>, call: Call)
    ensures call in Without(calls, gone) <==> call in calls && call.id !in gone
  {
    if calls == [] {
    } else {
      LeftCalls(calls[..|calls| - 1], gone, call);
    }
  }

  lemma NothingLeft(calls: seq<Call>, gone: set<Id>)
    ensures Without(calls, gone) == [] <==> forall c | c in calls :: c.id in gone
  {
    forall c ensures c in Without(calls, gone) <==> c in calls && c.id !in gone { LeftCalls(calls, gone, c); }
    if Without(calls, gone) != [] { assert Without(calls, gone)[0] in Without(calls, gone); }
  }

  lemma AllGoneIs(rows: seq<Row>, i: nat)
    requires Paired(Tagged(rows)) && i < |rows| && rows[i].Assistant?
    ensures AllGone(rows, i) <==> Without(rows[i].calls, Gone(rows)) == []
  {
    hide Gone, Paired, CallGone;
    NothingLeft(rows[i].calls, Gone(rows));
    forall c | c in rows[i].calls ensures c.id in Gone(rows) <==> CallGone(rows, c.id) {
      CallIsNamed(rows[i], c);
      CallGoneIs(rows, i, c.id);
    }
  }

  lemma VanishesIs(rows: seq<Row>, i: nat)
    requires Paired(Tagged(rows)) && i < |rows|
    ensures Vanishes(Rewritten(rows)[i], Gone(rows)) <==>
      match rows[i]
      case System(_) => false
      case User(_) => false
      case Tool(_, _) => SettledAway(rows, i)
      case Assistant(text, calls) => calls != [] && text == "" && AllGone(rows, i)
  {
    RewrittenIds(rows, i);
    hide Gone, Paired, SettledAway, AllGone, Rewritten, Tagged;
    if rows[i].Tool? { GoneIs(rows, i); }
    if rows[i].Assistant? { AllGoneIs(rows, i); }
  }

  lemma {:induction false} UserRowsAre(rows: seq<Row>, n: nat)
    requires n <= |rows|
    ensures forall a: nat :: a in UserRows(rows, n) <==> a < n && rows[a].User?
    ensures forall k, l | 0 <= k < l < |UserRows(rows, n)| :: UserRows(rows, n)[k] < UserRows(rows, n)[l]
  {
    if n == 0 {
    } else {
      UserRowsAre(rows, n - 1);
    }
  }

  /** In a rising listing two members stand above `i` exactly when the last but one does. */
  lemma LastButOne(users: seq<nat>, i: nat)
    requires forall k, l | 0 <= k < l < |users| :: users[k] < users[l]
    ensures |users| > 1 && i < users[|users| - 2] <==>
      exists k: nat, l: nat :: i < k < l && k in users && l in users
  {
    if |users| > 1 && i < users[|users| - 2] {
      assert users[|users| - 2] in users && users[|users| - 1] in users;
    }
    forall k: nat, l: nat | i < k < l && k in users && l in users ensures |users| > 1 && i < users[|users| - 2] {
      var a :| 0 <= a < |users| && users[a] == k;
      var b :| 0 <= b < |users| && users[b] == l;
      assert a < b;
    }
  }

  lemma CutoffIs(rows: seq<Row>, i: nat)
    ensures i < Cutoff(rows) <==> TwoUsersBehind(rows, i)
  {
    var users := UserRows(rows, |rows|);
    UserRowsAre(rows, |rows|);
    hide UserRows;
    LastButOne(users, i);
  }

  lemma KindStays(rows: seq<Row>, k: nat)
    requires k < |rows|
    ensures Rewritten(rows)[k].User? <==> rows[k].User?
  {
    hide Rewritten, LastUser, Recollected;
    if rows[k].Tool? {
      RewrittenRow(rows, k);
      RecollectedKind(rows, k);
    } else {
      OtherRowsStay(rows, k);
    }
  }

  lemma UsersStay(rows: seq<Row>, i: nat)
    ensures TwoUsersBehind(Rewritten(rows), i) <==> TwoUsersBehind(rows, i)
  {
    hide Rewritten;
    forall k | 0 <= k < |rows| ensures Rewritten(rows)[k].User? <==> rows[k].User? { KindStays(rows, k); }
  }

  // ----- Which rows remain -------------------------------------------------------------------

  lemma CutHas(ms: seq<Message>, gone: set<Id>, dead: set<nat>, k: nat) returns (l: nat)
    requires k < |ms| && k !in dead
    ensures l < |Cut(ms, |ms|, gone, dead)|
    ensures Cut(ms, |ms|, gone, dead)[l] == Message(ms[k].origin, Slim(ms[k].row, gone))
  {
    var cut, source := Cut(ms, |ms|, gone, dead), Sources(|ms|, dead);
    CutIsSourced(ms, |ms|, gone, dead);
    l := SourceOf(|ms|, dead, k);
    assert Sourced(ms, gone, cut, source, l);
  }

  lemma CutComesFrom(ms: seq<Message>, gone: set<Id>, dead: set<nat>, l: nat) returns (k: nat)
    requires l < |Cut(ms, |ms|, gone, dead)|
    ensures k < |ms| && k !in dead
    ensures Cut(ms, |ms|, gone, dead)[l] == Message(ms[k].origin, Slim(ms[k].row, gone))
  {
    var cut, source := Cut(ms, |ms|, gone, dead), Sources(|ms|, dead);
    CutIsSourced(ms, |ms|, gone, dead);
    SourcesRise(|ms|, dead);
    k := source[l];
    assert Sourced(ms, gone, cut, source, l);
  }

  /** Row `i` as the remainder would hold it. */
  ghost function Left(rows: seq<Row>, i: nat): Message
    requires i < |rows|
  {
    Message(i, Slim(Rewritten(rows)[i], Gone(rows)))
  }

  ghost function FirstPruned(rows: seq<Row>): seq<Message> {
    Pruned(Rewritten(rows), Gone(rows))
  }

  lemma PrunedHas(rows: seq<Row>, i: nat) returns (l: nat)
    requires i < |rows| && !Vanishes(Rewritten(rows)[i], Gone(rows))
    ensures l < |FirstPruned(rows)| && FirstPruned(rows)[l] == Left(rows, i)
  {
    hide Rewritten, Gone, Vanishes, Cut, Slim;
    var after := Rewritten(rows);
    l := CutHas(Tagged(after), Gone(rows), Vanishing(after, Gone(rows)), i);
  }

  lemma PrunedComesFrom(rows: seq<Row>, l: nat)
    requires l < |FirstPruned(rows)|
    ensures var i := FirstPruned(rows)[l].origin;
      i < |rows| && FirstPruned(rows)[l] == Left(rows, i) && !Vanishes(Rewritten(rows)[i], Gone(rows))
  {
    hide Rewritten, Gone, Vanishes, Cut, Slim;
    var after := Rewritten(rows);
    var k := CutComesFrom(Tagged(after), Gone(rows), Vanishing(after, Gone(rows)), l);
  }

  lemma OldProseIs(rows: seq<Row>, i: nat)
    requires Paired(Tagged(rows)) && i < |rows|
    ensures OldProse(Left(rows, i), Cutoff(Rewritten(rows))) <==> Standalone(rows, i)
  {
    RewrittenIds(rows, i);
    CutoffIs(Rewritten(rows), i);
    UsersStay(rows, i);
    hide Rewritten, Gone, Paired, Cutoff, AllGone, TwoUsersBehind, Tagged, Ids;
    if rows[i].Assistant? { AllGoneIs(rows, i); }
  }

  lemma TagsRise(rows: seq<Row>)
    ensures Ordered(Tagged(rows))
  {}

  lemma PrunedOrdered(rows: seq<Row>)
    ensures Ordered(FirstPruned(rows))
  {
    hide Rewritten, Gone, Vanishing;
    var after := Rewritten(rows);
    TagsRise(after);
    CutOrdered(Tagged(after), Gone(rows), Vanishing(after, Gone(rows)));
  }

  lemma StandaloneStays(rows: seq<Row>, i: nat)
    requires Paired(Tagged(rows)) && Standalone(rows, i)
    ensures i < |rows| && !Vanishes(Rewritten(rows)[i], Gone(rows))
  {
    VanishesIs(rows, i);
    hide Rewritten, Gone, Paired, AllGone, TwoUsersBehind, Vanishes;
  }

  lemma LeftSays(rows: seq<Row>, i: nat)
    requires i < |rows| && rows[i].Assistant?
    ensures Left(rows, i).row.Assistant? && Left(rows, i).row.text == rows[i].text
  {
    RewrittenIds(rows, i);
    hide Rewritten, Gone;
  }

  lemma StandaloneIsProse(rows: seq<Row>, i: nat)
    requires Standalone(rows, i)
    ensures i < |rows| && rows[i].Assistant?
  {}

  lemma LeftOrigin(rows: seq<Row>, i: nat)
    requires i < |rows|
    ensures Left(rows, i).origin == i
  {}

  lemma SaidAgainIs(rows: seq<Row>, l: nat)
    requires Paired(Tagged(rows)) && l < |FirstPruned(rows)|
    ensures SaidAgain(FirstPruned(rows), Cutoff(Rewritten(rows)), l) <==> SpokenAgain(rows, FirstPruned(rows)[l].origin)
  {
    var ms, cutoff := FirstPruned(rows), Cutoff(Rewritten(rows));
    var i := ms[l].origin;
    PrunedOrdered(rows);
    hide Rewritten, Gone, Paired, Cutoff, Standalone, OldProse, FirstPruned, Tagged, Left, Vanishes;
    PrunedComesFrom(rows, l);
    OldProseIs(rows, i);
    if SpokenAgain(rows, i) {
      var j :| i < j < |rows| && Standalone(rows, j) && rows[j].text == rows[i].text;
      StandaloneStays(rows, j);
      var k := PrunedHas(rows, j);
      OldProseIs(rows, j);
      StandaloneIsProse(rows, i);
      LeftSays(rows, i);
      LeftSays(rows, j);
      LeftOrigin(rows, j);
      assert k > l;
    }
    if SaidAgain(ms, cutoff, l) {
      var k :| l < k < |ms| && OldProse(ms[k], cutoff) && ms[k].row.text == ms[l].row.text;
      PrunedComesFrom(rows, k);
      OldProseIs(rows, ms[k].origin);
      StandaloneIsProse(rows, i);
      StandaloneIsProse(rows, ms[k].origin);
      LeftSays(rows, i);
      LeftSays(rows, ms[k].origin);
      assert i < ms[k].origin;
    }
  }

  lemma RemainderParts(rows: seq<Row>, size: seq<Row> -> nat)
    ensures Remainder(rows, size)
      == if Bulky(rows, size) then Deduplicated(FirstPruned(rows), Cutoff(Rewritten(rows))) else FirstPruned(rows)
  {
    hide Rewritten, Removable, Results, Pruned, Deduplicated, Cutoff, LastUser, IndexUpTo, Slim;
  }

  lemma PrunedRemains(rows: seq<Row>, size: seq<Row> -> nat, i: nat)
    requires Paired(Tagged(rows)) && i < |rows|
    ensures Remains(rows, size, i) <==>
      !Vanishes(Rewritten(rows)[i], Gone(rows)) && !(Bulky(rows, size) && SpokenAgain(rows, i))
  {
    VanishesIs(rows, i);
    hide Rewritten, Gone, Paired, SettledAway, AllGone, Bulky, TwoUsersBehind, Vanishes;
  }

  lemma NoCallsOfNone(row: Row)
    ensures Slim(row, {}) == row
  {
    SlimKeeps(row, {});
  }

  lemma RepetitionIs(ms: seq<Message>, cutoff: nat, l: nat)
    ensures l in Repetitions(ms, cutoff) <==> l < |ms| && SaidAgain(ms, cutoff, l)
  {}

  lemma RemainsWithin(rows: seq<Row>, size: seq<Row> -> nat, i: nat)
    requires Remains(rows, size, i)
    ensures i < |rows|
  {}

  /** A row remains exactly when it should, and then as the rewriting stages left it, without the calls that
      leave. */
  lemma RowRemains(rows: seq<Row>, size: seq<Row> -> nat, i: nat)
    requires Paired(Tagged(rows)) && Remains(rows, size, i)
    ensures i < |rows| && Left(rows, i) in Remainder(rows, size)
  {
    hide Rewritten, Gone, Paired, Cutoff, Vanishes, Bulky, Remains, SpokenAgain, FirstPruned, Left, SaidAgain;
    RemainsWithin(rows, size, i);
    PrunedRemains(rows, size, i);
    RemainderParts(rows, size);
    var l := PrunedHas(rows, i);
    var ms, cutoff := FirstPruned(rows), Cutoff(Rewritten(rows));
    if Bulky(rows, size) {
      SaidAgainIs(rows, l);
      LeftOrigin(rows, i);
      RepetitionIs(ms, cutoff, l);
      var k := CutHas(ms, {}, Repetitions(ms, cutoff), l);
      NoCallsOfNone(ms[l].row);
    }
  }

  /** And nothing else remains. */
  lemma NothingElseRemains(rows: seq<Row>, size: seq<Row> -> nat, m: Message)
    requires Paired(Tagged(rows)) && m in Remainder(rows, size)
    ensures m.origin < |rows| && Remains(rows, size, m.origin) && m == Left(rows, m.origin)
  {
    hide Rewritten, Gone, Paired, Cutoff, Vanishes, Bulky, Remains, SpokenAgain, FirstPruned, Left, SaidAgain;
    RemainderParts(rows, size);
    var ms, cutoff := FirstPruned(rows), Cutoff(Rewritten(rows));
    var l: nat;
    if Bulky(rows, size) {
      var n :| 0 <= n < |Remainder(rows, size)| && Remainder(rows, size)[n] == m;
      l := CutComesFrom(ms, {}, Repetitions(ms, cutoff), n);
      NoCallsOfNone(ms[l].row);
      RepetitionIs(ms, cutoff, l);
      SaidAgainIs(rows, l);
    } else {
      l :| 0 <= l < |ms| && ms[l] == m;
    }
    PrunedComesFrom(rows, l);
    PrunedRemains(rows, size, m.origin);
  }

  /** The transcript that remains when nothing presses, row by row. */
  lemma RemainderIs(rows: seq<Row>, size: seq<Row> -> nat, i: nat)
    requires Paired(Tagged(rows)) && i < |rows|
    ensures Present(Remainder(rows, size), i) <==> Remains(rows, size, i)
  {
    hide Paired, Remainder, Remains;
    if Remains(rows, size, i) {
      RowRemains(rows, size, i);
      LeftOrigin(rows, i);
      var k :| 0 <= k < |Remainder(rows, size)| && Remainder(rows, size)[k] == Left(rows, i);
    }
    if Present(Remainder(rows, size), i) {
      var k :| 0 <= k < |Remainder(rows, size)| && Remainder(rows, size)[k].origin == i;
      NothingElseRemains(rows, size, Remainder(rows, size)[k]);
    }
  }

  /** A replaced result that remains is exactly its replacement. */
  lemma ReplacedResultSays(rows: seq<Row>, size: seq<Row> -> nat, m: Message)
    requires Paired(Tagged(rows)) && m in Remainder(rows, size) && m.origin < |rows| && IsReplaced(rows, m.origin)
    ensures rows[m.origin].Tool? && m.row == Replacement(rows, m.origin)
  {
    hide Rewritten, Gone, Paired, Tagged, Remains, Remainder, Replaced, OldMenu, OldFrame, AskedAgain, Awaited;
    NothingElseRemains(rows, size, m);
    ReplacedIs(rows, m.origin);
    ReplacementIs(rows, m.origin);
  }

  /** What an instruction and an assistant row come to: a notice for an old episode boundary, the row without the
      calls that leave. */
  lemma RemainingRowSays(rows: seq<Row>, size: seq<Row> -> nat, m: Message)
    requires Paired(Tagged(rows)) && m in Remainder(rows, size)
    ensures m.origin < |rows|
    ensures rows[m.origin].System? ==> m.row == rows[m.origin]
    ensures rows[m.origin].User? ==>
      m.row == if UserBehind(rows, m.origin) && "[SMACX_EPISODE_BOUNDARY" <= rows[m.origin].text
               then User("[Superseded managed gameplay episode boundary.]") else rows[m.origin]
    ensures rows[m.origin].Assistant? ==>
      && m.row.Assistant? && m.row.text == rows[m.origin].text
      && forall c :: c in m.row.calls <==> c in rows[m.origin].calls && !CallGone(rows, c.id)
  {
    var i := m.origin;
    hide Rewritten, Gone, Paired, Remains, CallGone, UserBehind, Remainder, LastUser;
    NothingElseRemains(rows, size, m);
    if rows[i].Assistant? {
      RewrittenIds(rows, i);
      forall c ensures c in m.row.calls <==> c in rows[i].calls && !CallGone(rows, c.id) {
        LeftCalls(rows[i].calls, Gone(rows), c);
        if c in rows[i].calls {
          CallIsNamed(rows[i], c);
          CallGoneIs(rows, i, c.id);
        }
      }
    } else if !rows[i].Tool? {
      OtherRowsStay(rows, i);
      BeforeLastUser(rows, i);
    }
  }
}
