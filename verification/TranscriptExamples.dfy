/** Short transcripts whose collection loses a failure, or an obligation. */
module TranscriptExamples {
  import opened Wrappers
  import opened TranscriptModel
  import opened TranscriptPromises
  import opened TranscriptStages
  import opened TranscriptContinuation
  import opened TranscriptPressure
  import opened TranscriptCollection
  import opened TranscriptEvidence

  // ----- One turn ----------------------------------------------------------------------------

  function TurnRow(calls: seq<Call>, results: seq<Body>, i: nat): Row
    requires |calls| == |results| && i <= 2 * |calls|
  {
    if i == 0 then User("turn")
    else if i % 2 == 1 then Assistant("", [calls[i / 2]])
    else Tool(calls[i / 2 - 1].id, results[i / 2 - 1])
  }

  /** A turn in which tools are called one after the other. */
  function Turn(calls: seq<Call>, results: seq<Body>): (r: seq<Row>)
    requires |calls| == |results|
    ensures |r| == 2 * |calls| + 1 && forall i | 0 <= i < |r| :: r[i] == TurnRow(calls, results, i)
  {
    seq(2 * |calls| + 1, i requires 0 <= i <= 2 * |calls| => TurnRow(calls, results, i))
  }

  lemma TurnAt(calls: seq<Call>, results: seq<Body>, a: nat)
    requires |calls| == |results| && a < |calls|
    ensures var rows := Turn(calls, results);
      rows[2 * a + 1] == Assistant("", [calls[a]]) && rows[2 * a + 2] == Tool(calls[a].id, results[a])
  {}

  /** Every result is that of some call of the turn. */
  lemma ResultPlace(calls: seq<Call>, results: seq<Body>, i: nat) returns (a: nat)
    requires |calls| == |results| && i < |Turn(calls, results)| && Turn(calls, results)[i].Tool?
    ensures a < |calls| && i == 2 * a + 2
  {
    assert Turn(calls, results)[i] == TurnRow(calls, results, i);
    a := i / 2 - 1;
  }

  ghost predicate Distinct(calls: seq<Call>) {
    forall a, c | 0 <= a < c < |calls| :: calls[a].id != calls[c].id
  }

  lemma OneId(call: Call)
    ensures Ids(Assistant("", [call])) == {call.id} && Unrepeated([call])
  {
    var none: seq<Call> := [];
    assert none + [call] == [call];
    IdsOfMore(none, call);
  }

  lemma TurnIds(calls: seq<Call>, results: seq<Body>, i: nat)
    requires |calls| == |results| && i <= 2 * |calls|
    ensures Ids(TurnRow(calls, results, i)) == if i % 2 == 1 then {calls[i / 2].id} else {}
    ensures NoRepeat(TurnRow(calls, results, i))
  {
    if i % 2 == 1 { OneId(calls[i / 2]); }
  }

  /** A result answers just the call in front of it. */
  lemma TurnAnswers(calls: seq<Call>, results: seq<Body>, j: nat, i: nat)
    requires |calls| == |results| && Distinct(calls)
    ensures Answers(Tagged(Turn(calls, results)), j, i) <==> j % 2 == 1 && i == j + 1 && i <= 2 * |calls|
  {
    var ms := Tagged(Turn(calls, results));
    if j < i < |ms| {
      TurnIds(calls, results, j);
      hide Ids;
    }
  }

  lemma TurnIsPaired(calls: seq<Call>, results: seq<Body>)
    requires |calls| == |results| && Distinct(calls)
    ensures Paired(Tagged(Turn(calls, results))) && Adjacent(Tagged(Turn(calls, results)))
  {
    hide Ids, NoRepeat, Answers;
    var ms := Tagged(Turn(calls, results));
    forall i | 0 <= i < |ms|
      ensures Ids(ms[i].row) == (if i % 2 == 1 then {calls[i / 2].id} else {}) && NoRepeat(ms[i].row)
    {
      TurnIds(calls, results, i);
    }
    forall j: nat, i: nat ensures Answers(ms, j, i) <==> j % 2 == 1 && i == j + 1 && i <= 2 * |calls| {
      TurnAnswers(calls, results, j, i);
    }
    forall i | 0 <= i < |ms| ensures OwnIds(ms, i) && OnlyResult(ms, i) && Answered(ms, i) {
      if i > 0 && i % 2 == 0 { assert Answers(ms, i - 1, i); }
    }
    forall j, id | 0 <= j < |ms| && id in Ids(ms[j].row) ensures Fulfilled(ms, j, id) {
      assert Answers(ms, j, j + 1) && ms[j + 1].row.id == id;
    }
    forall j: nat, i: nat ensures Close(ms, j, i) {}
  }

  lemma {:induction false} TurnUser(calls: seq<Call>, results: seq<Body>, n: nat)
    requires |calls| == |results| && n < 2 * |calls| + 1
    ensures LastUser(Turn(calls, results), n + 1) == 0
  {
    if n == 0 {
    } else {
      TurnUser(calls, results, n - 1);
    }
  }

  lemma AddedOne(known: map<Id, Call>, call: Call)
    ensures AddCalls(known, [call]) == known[call.id := call]
  {
    assert [call][..0] == [];
  }

  /** After `m` calls all of them are known. */
  lemma {:induction false} TurnCalls(calls: seq<Call>, results: seq<Body>, m: nat, a: nat)
    requires |calls| == |results| && Distinct(calls) && a < m <= |calls|
    ensures var known := CallsUpTo(Turn(calls, results), 2 * m + 1);
      calls[a].id in known && known[calls[a].id] == calls[a]
  {
    var rows := Turn(calls, results);
    assert rows[2 * m].Tool? && rows[2 * m - 1] == Assistant("", [calls[m - 1]]);
    AddedOne(CallsUpTo(rows, 2 * m - 1), calls[m - 1]);
    if a == m - 1 {
    } else {
      TurnCalls(calls, results, m - 1, a);
    }
  }

  lemma TurnPending(calls: seq<Call>, results: seq<Body>)
    requires |calls| == |results| > 0
    ensures var rows := Turn(calls, results); PendingUpTo(rows, |rows|, 0) == {calls[|calls| - 1].id}
  {
    var rows := Turn(calls, results);
    assert rows[|rows| - 1].Tool?;
    TurnIds(calls, results, |rows| - 2);
    hide Ids;
    assert PendingUpTo(rows, |rows| - 1, 0) == Ids(rows[|rows| - 2]);
  }

  /** The result in this row is known to come from this call. */
  ghost predicate KnownAt(rows: seq<Row>, call: Call, i: nat) {
    && i < |rows| && rows[i].Tool? && rows[i].id == call.id && call.id in IndexOf(rows).calls
    && IndexOf(rows).calls[call.id] == call && NameAt(rows, i) == call.name
  }

  lemma TurnKnown(calls: seq<Call>, results: seq<Body>, a: nat)
    requires |calls| == |results| && Distinct(calls) && a < |calls|
    ensures KnownAt(Turn(calls, results), calls[a], 2 * a + 2)
  {
    hide Paired, Adjacent, LastUser, PendingUpTo, IndexOf, NameAt, CallsUpTo, Turn, TurnRow, Tagged, Distinct;
    var rows := Turn(calls, results);
    TurnIsPaired(calls, results);
    IndexKnowsPending(rows);
    TurnCalls(calls, results, |calls|, a);
    TurnAt(calls, results, a);
    NameIsKnown(rows, 2 * a + 2);
  }

  /** Only the last batch is pending. */
  lemma TurnIndexed(calls: seq<Call>, results: seq<Body>)
    requires |calls| == |results| > 0
    ensures var rows := Turn(calls, results);
      LastUser(rows, |rows|) == 0 && IndexOf(rows).pending == {calls[|calls| - 1].id}
  {
    var rows := Turn(calls, results);
    hide *;
    TurnUser(calls, results, |rows| - 1);
    TurnPending(calls, results);
    IndexKnowsPending(rows);
  }

  // ----- A failure is lost -------------------------------------------------------------------

  /** The collection gives up what row `i` says. */
  ghost predicate GivesUp(rows: seq<Row>, b: Budget, i: nat) {
    i < |rows| && rows[i].Tool? && Forgone(rows, b, i)
  }

  /** What row `i` says is not sent: what is left of it, if anything, is a result without evidence. */
  ghost predicate Loses(rows: seq<Row>, b: Budget, i: nat) {
    && i < |rows| && rows[i].Tool? && Collected(rows, b).Ok? && !SentWhole(rows, Collected(rows, b).value, i)
    && forall m | m in Collected(rows, b).value && m.origin == i :: m.row.Tool? && !Evidence(m.row.body)
  }

  /** What is sent of a result is a result of the same call. */
  lemma SentKind(rows: seq<Row>, b: Budget, i: nat, m: Message)
    requires Paired(Tagged(rows)) && Collected(rows, b).Ok? && i < |rows| && rows[i].Tool?
    requires m in Collected(rows, b).value && m.origin == i
    ensures m.row.Tool? && m.row.id == rows[i].id
  {
    hide Paired, Collected, IndexOf, Lost;
    CollectionIsFaithful(rows, b);
    assert Inherits(rows, m, IndexOf(rows).pending, Lost(rows, b));
  }

  lemma GivenUpIsLost(rows: seq<Row>, b: Budget, i: nat)
    requires Paired(Tagged(rows)) && Collected(rows, b).Ok? && GivesUp(rows, b, i) && Evidence(rows[i].body)
    ensures Loses(rows, b, i)
  {
    hide Paired, Tagged, IndexOf, Collected, SentWhole, Evidence, Forgone, Lost;
    LostIffForgone(rows, b, i);
    EvidenceIsSent(rows, b, i);
    forall m | m in Collected(rows, b).value && m.origin == i ensures m.row.Tool? && !Evidence(m.row.body) {
      SentKind(rows, b, i, m);
      LostRowIsBlank(rows, b, i, m);
    }
  }

  /** A failed frame followed by any other frame of the same turn is given up, whatever the budget. */
  lemma FailedFrameIsForgone(calls: seq<Call>, results: seq<Body>, a: nat, c: nat, b: Budget)
    requires |calls| == |results| && Distinct(calls) && a < c < |calls|
    requires calls[a].name in STATE_TOOLS && calls[c].name in STATE_TOOLS
    ensures GivesUp(Turn(calls, results), b, 2 * a + 2)
  {
    hide NameAt, IndexOf, LastUser, WhollyRetired, Requeried, Over, Followed, TurnRow;
    TurnIndexed(calls, results);
    var rows := Turn(calls, results);
    assert calls[a].id != calls[|calls| - 1].id;
    hide Distinct;
    TurnKnown(calls, results, a);
    TurnKnown(calls, results, c);
    assert !NewestFrame(rows, 2 * a + 2);
  }

  /** So its failure is lost. */
  lemma FailedFrameIsLost(calls: seq<Call>, results: seq<Body>, a: nat, c: nat, b: Budget)
    requires |calls| == |results| && Distinct(calls) && a < c < |calls| && Evidence(results[a])
    requires calls[a].name in STATE_TOOLS && calls[c].name in STATE_TOOLS
    ensures Collected(Turn(calls, results), b).Ok? ==> Loses(Turn(calls, results), b, 2 * a + 2)
  {
    hide Paired, Adjacent, Tagged, Collected, Evidence, Forgone, Distinct, Loses, TurnRow;
    var rows := Turn(calls, results);
    TurnIsPaired(calls, results);
    FailedFrameIsForgone(calls, results, a, c, b);
    TurnAt(calls, results, a);
    if Collected(rows, b).Ok? { GivenUpIsLost(rows, b, 2 * a + 2); }
  }

  function Said(ok: bool, duties: set<Duty>, rest: string): Body {
    Decoded(Outcome(ok, false, Unmarked, duties, false, None, None, false, None, None, None, "", rest), Plain)
  }

  const FRAMES := [Call("a", "smac_decision", Args(None, "", "")), Call("b", "smac_wait", Args(None, "", ""))]
  const FRAME_RESULTS := [Said(false, {}, "frame_unavailable"), Said(true, {}, "frame")]
  const ROOMY := Budget(_ => 0, _ => 0, 0, 0)

  lemma PendingIsSent(rows: seq<Row>, b: Budget, m: Message)
    requires Paired(Tagged(rows)) && Collected(rows, b).Ok? && m in Collected(rows, b).value && m.origin < |rows|
    requires rows[m.origin].Tool? && rows[m.origin].id in IndexOf(rows).pending
    ensures m.row == rows[m.origin]
  {
    hide Paired, Collected, IndexOf, Lost;
    CollectionIsFaithful(rows, b);
    assert Inherits(rows, m, IndexOf(rows).pending, Lost(rows, b));
  }

  /** A failed `smac_decision` before a `smac_wait`: the collection succeeds, and every result that is sent
      says that all is well. */
  lemma RefusalIsForgotten()
    ensures var rows := Turn(FRAMES, FRAME_RESULTS);
      && Paired(Tagged(rows)) && Adjacent(Tagged(rows)) && Collected(rows, ROOMY).Ok?
      && forall m | m in Collected(rows, ROOMY).value && m.row.Tool? :: m.row.body.Decoded? && m.row.body.outcome.ok
  {
    hide Paired, Adjacent, Tagged, Remainder, SentWhole, IndexOf, LastUser, KnownAt, Settles;
    var rows := Turn(FRAMES, FRAME_RESULTS);
    TurnIsPaired(FRAMES, FRAME_RESULTS);
    TurnIndexed(FRAMES, FRAME_RESULTS);
    FailedFrameIsLost(FRAMES, FRAME_RESULTS, 0, 1, ROOMY);
    assert Collected(rows, ROOMY).Ok?;
    hide Collected;
    forall m | m in Collected(rows, ROOMY).value && m.row.Tool?
      ensures m.row.body.Decoded? && m.row.body.outcome.ok
    {
      SentSettles(rows, ROOMY, m);
      if m.origin == 4 { PendingIsSent(rows, ROOMY, m); }
    }
  }

  // ----- An obligation is lost ---------------------------------------------------------------

  const WRITE := "smac_memory_update"

  predicate Written(result: Body) {
    result.Decoded? && result.envelope == Plain && result.outcome.ok
  }

  /** Nothing but durable writes, all successful. */
  ghost predicate Writes(calls: seq<Call>, results: seq<Body>) {
    && |calls| == |results| > 0 && Distinct(calls)
    && forall a | 0 <= a < |calls| :: calls[a].name == WRITE && Written(results[a])
  }

  lemma WriteStays(row: Row, calls: map<Id, Call>, consumed: set<string>, pending: set<Id>, past: bool)
    requires row.Tool? && NameOf(calls, row.id) == WRITE && Written(row.body)
    ensures Compacted(Retired(row, WRITE, consumed, pending), calls, pending, past) == row
  {}

  lemma WriteIsNotReplaced(rows: seq<Row>, i: nat)
    requires Paired(Tagged(rows)) && i < |rows| && rows[i].Tool? && ToolOf(rows, rows[i].id) == WRITE
    ensures !Replaced(rows, i)
  {
    ReplacedByName(rows, i);
    NamesApart(WRITE);
    hide Paired, NewestFrame, Requeried, IndexOf, Replaced, Whole;
  }

  lemma WriteIsKnown(rows: seq<Row>, id: Id)
    ensures ToolOf(rows, id) == NameOf(IndexOf(rows).calls, id)
  {}

  lemma WriteRowStays(rows: seq<Row>, i: nat)
    requires Paired(Tagged(rows)) && i < |rows| && rows[i].Tool? && ToolOf(rows, rows[i].id) == WRITE
    requires Written(rows[i].body)
    ensures Rewritten(rows)[i] == rows[i]
  {
    hide *;
    var ix := IndexOf(rows);
    WriteIsNotReplaced(rows, i);
    if rows[i].id in ix.pending {
      RewrittenRow(rows, i);
      PendingRow(rows, i);
    } else {
      UnreplacedIsCompacted(rows, i);
      WriteIsKnown(rows, rows[i].id);
      WriteStays(rows[i], ix.calls, ix.consumed, ix.pending, i < LastUser(rows, |rows|));
    }
  }

  /** The rewriting stages leave such a turn as it is. */
  lemma WritesAreRewritten(calls: seq<Call>, results: seq<Body>)
    requires Writes(calls, results)
    ensures Rewritten(Turn(calls, results)) == Turn(calls, results)
  {
    hide Paired, Adjacent, Tagged, Rewritten, LastUser, IndexOf, Distinct, Written, TurnRow;
    var rows := Turn(calls, results);
    TurnIsPaired(calls, results);
    TurnIndexed(calls, results);
    forall i | 0 <= i < |rows| ensures Rewritten(rows)[i] == rows[i] {
      if rows[i].Tool? {
        var a := ResultPlace(calls, results, i);
        TurnAt(calls, results, a);
        TurnKnown(calls, results, a);
        WriteRowStays(rows, i);
      } else {
        OtherRowsStay(rows, i);
      }
    }
  }

  lemma {:induction false} NothingDropped(ms: seq<Message>, n: nat)
    requires n <= |ms|
    ensures Dropped(ms, n, {}) == ms[..n]
  {
    if n == 0 {
    } else {
      NothingDropped(ms, n - 1);
      assert ms[..n] == ms[..n - 1] + [ms[n - 1]];
    }
  }

  lemma NothingCut(ms: seq<Message>)
    ensures Cut(ms, |ms|, {}, {}) == ms
  {
    NothingSlimmed(ms, |ms|, {}, {});
    NothingDropped(ms, |ms|);
    assert ms[..|ms|] == ms;
  }

  lemma NothingVanishes(rows: seq<Row>)
    requires forall i | 0 <= i < |rows| && rows[i].Assistant? :: rows[i].calls != []
    ensures Vanishing(rows, {}) == {}
  {
    forall i | 0 <= i < |rows| ensures !Vanishes(rows[i], {}) {
      if rows[i].Assistant? { WithoutNothing(rows[i].calls); }
    }
  }

  lemma NothingPruned(rows: seq<Row>)
    requires Vanishing(rows, {}) == {}
    ensures Pruned(rows, {}) == Tagged(rows)
  {
    hide Vanishing, Cut;
    NothingCut(Tagged(rows));
  }

  lemma NothingRepeated(ms: seq<Message>)
    ensures Deduplicated(ms, 0) == ms
  {
    hide Cut;
    NothingCut(ms);
    assert Repetitions(ms, 0) == {};
  }

  lemma NothingRemovable(rows: seq<Row>, results: map<Id, Body>, calls: map<Id, Call>)
    ensures Removable(rows, 0, results, calls) == {}
  {}

  lemma OneUserCutsNothing(rows: seq<Row>)
    requires UserRows(rows, |rows|) == [0]
    ensures Cutoff(rows) == 0
  {}

  lemma OneTurnContinues(rows: seq<Row>, calls: map<Id, Call>, size: seq<Row> -> nat)
    requires UserRows(rows, |rows|) == [0] && Vanishing(rows, {}) == {}
    ensures Continued(rows, calls, 0, size) == Tagged(rows)
  {
    hide Pruned, Deduplicated, Removable, Cutoff, Slim, Results, Vanishing, UserRows, Tagged;
    NothingPruned(rows);
    NothingRepeated(Tagged(rows));
    NothingRemovable(rows, Results(rows, |rows|), calls);
    OneUserCutsNothing(rows);
  }

  /** A transcript of one turn that is not rewritten is not pruned either. */
  lemma OneTurnRemains(rows: seq<Row>, size: seq<Row> -> nat)
    requires Rewritten(rows) == rows && LastUser(rows, |rows|) == 0 && UserRows(rows, |rows|) == [0]
    requires Vanishing(rows, {}) == {}
    ensures Remainder(rows, size) == Tagged(rows)
  {
    hide Rewritten, LastUser, IndexOf, Continued, Vanishing, UserRows, Tagged;
    OneTurnContinues(rows, IndexOf(rows).calls, size);
  }

  lemma {:induction false} OneUser(calls: seq<Call>, results: seq<Body>, n: nat)
    requires |calls| == |results| && n < 2 * |calls| + 1
    ensures UserRows(Turn(calls, results), n + 1) == [0]
  {
    if n == 0 {
    } else {
      OneUser(calls, results, n - 1);
    }
  }

  /** So all of it remains. */
  lemma WritesRemain(calls: seq<Call>, results: seq<Body>, size: seq<Row> -> nat)
    requires Writes(calls, results)
    ensures Remainder(Turn(calls, results), size) == Tagged(Turn(calls, results))
  {
    hide Rewritten, LastUser, Remainder, Vanishing, UserRows, Distinct, Written;
    var rows := Turn(calls, results);
    WritesAreRewritten(calls, results);
    TurnUser(calls, results, |rows| - 1);
    NothingVanishes(rows);
    OneUser(calls, results, |rows| - 1);
    OneTurnRemains(rows, size);
  }

  lemma OneWriteLater(ms: seq<Message>, k: nat, calls: map<Id, Call>, names: set<string>)
    requires k + 1 < |ms| && !Named(ms[k], calls, names) && Named(ms[k + 1], calls, names)
    ensures Later(ms, k, calls, names) == Later(ms, k + 2, calls, names) + 1
  {
    hide Named;
    assert Later(ms, k + 1, calls, names) == Later(ms, k + 2, calls, names) + 1;
  }

  lemma WriteIsNamed(rows: seq<Row>, call: Call, i: nat)
    requires KnownAt(rows, call, i) && call.name == WRITE
    ensures Named(Message(i, rows[i]), IndexOf(rows).calls, COGNITION_TOOLS)
  {
    hide IndexOf, NameAt;
  }

  /** Behind the first `m` writes stand the others. */
  lemma {:induction false} WritesFollow(calls: seq<Call>, results: seq<Body>, m: nat)
    requires Writes(calls, results) && m <= |calls|
    ensures var rows := Turn(calls, results);
      Later(Tagged(rows), 2 * m + 1, IndexOf(rows).calls, COGNITION_TOOLS) == |calls| - m
    decreases |calls| - m
  {
    hide IndexOf, LastUser, Distinct, Written, TurnRow, KnownAt;
    var rows := Turn(calls, results);
    if m == |calls| {
    } else {
      WritesFollow(calls, results, m + 1);
      TurnIndexed(calls, results);
      TurnAt(calls, results, m);
      TurnKnown(calls, results, m);
      WriteIsNamed(rows, calls[m], 2 * m + 2);
      hide Later;
      OneWriteLater(Tagged(rows), 2 * m + 1, IndexOf(rows).calls, COGNITION_TOOLS);
    }
  }

  /** Over the ceiling a write with four later ones behind it is given up, with its obligations. */
  lemma OldWriteIsForgone(calls: seq<Call>, results: seq<Body>, a: nat, b: Budget)
    requires Writes(calls, results) && a + RECENT_COGNITION < |calls| && Over(Turn(calls, results), b)
    ensures GivesUp(Turn(calls, results), b, 2 * a + 2)
  {
    hide IndexOf, LastUser, Over, Remainder, NewestFrame, WhollyRetired, Requeried, Later, TurnRow, NameAt;
    var rows := Turn(calls, results);
    WritesRemain(calls, results, b.size);
    WritesFollow(calls, results, a + 1);
    TurnIndexed(calls, results);
    TurnAt(calls, results, a);
    assert calls[a].id != calls[|calls| - 1].id;
    hide Distinct;
    TurnKnown(calls, results, a);
    assert Tagged(rows)[2 * a + 2].origin == 2 * a + 2;
    assert Followed(rows, b, 2 * a + 2, COGNITION_TOOLS, RECENT_COGNITION);
  }

  function RowWeight(row: Row): nat {
    if row.Tool? && row.body.Decoded? then |row.body.outcome.rest| else 0
  }

  /** How much the results say. */
  function Weight(rows: seq<Row>): nat {
    if rows == [] then 0
    else Weight(rows[..|rows| - 1]) + RowWeight(rows[|rows| - 1])
  }

  lemma {:induction false} WeightOfOne(rows: seq<Row>, i: nat)
    requires i < |rows|
    ensures Weight(rows) >= RowWeight(rows[i])
  {
    hide RowWeight;
    if i == |rows| - 1 {
    } else {
      WeightOfOne(rows[..|rows| - 1], i);
    }
  }

  lemma {:induction false} NoWeight(rows: seq<Row>)
    requires forall i | 0 <= i < |rows| :: RowWeight(rows[i]) == 0
    ensures Weight(rows) == 0
  {
    hide RowWeight;
    if rows == [] {
    } else {
      NoWeight(rows[..|rows| - 1]);
    }
  }

  function Notes(): seq<Call> {
    seq(5, k requires 0 <= k < 5 => Call(["n0", "n1", "n2", "n3", "n4"][k], WRITE, Args(None, "", "")))
  }

  function NoteResults(): seq<Body> {
    [Said(true, {Persistent}, "standing order")] + seq(4, _ => Said(true, {}, ""))
  }

  const TIGHT := Budget(_ => 0, rows => Weight(rows), 8, 8)

  lemma NotesAreWrites()
    ensures Writes(Notes(), NoteResults())
  {
    forall a, c | 0 <= a < c < 5 ensures Notes()[a].id != Notes()[c].id {}
  }

  lemma NotesAreOver()
    ensures Over(Turn(Notes(), NoteResults()), TIGHT)
  {
    hide Remainder, Turn, Writes;
    var rows := Turn(Notes(), NoteResults());
    NotesAreWrites();
    WritesRemain(Notes(), NoteResults(), TIGHT.size);
    assert RowsOf(Tagged(rows)) == rows;
    assert rows[2] == Tool("n0", NoteResults()[0]);
    WeightOfOne(rows, 2);
  }

  ghost predicate Bare(m: Message) {
    m.row.Tool? ==> m.row.body.Decoded? && m.row.body.outcome.rest == "" && m.row.body.outcome.duties == {}
  }

  /** Relief leaves a message as it is, or a receipt with nothing but its number. */
  lemma EvictedOrBare(ms: seq<Message>, ix: Index, k: nat)
    requires k < |ms|
    ensures var after := Evicting(Journaling(ms, ix.calls, ix.pending), ix.calls, ix.pending);
      |after| == |ms| && (if Yields(ms, k, ix) then Bare(after[k]) else after[k] == ms[k])
  {
    hide Evicting, Journaling, Later;
    JournalingLength(ms, ix);
    EvictedOnce(ms, ix, k);
  }

  lemma FirstNoteYields()
    ensures var rows := Turn(Notes(), NoteResults()); Yields(Tagged(rows), 2, IndexOf(rows))
  {
    hide IndexOf, LastUser, Later, TurnRow, NameAt;
    var rows := Turn(Notes(), NoteResults());
    NotesAreWrites();
    TurnIndexed(Notes(), NoteResults());
    TurnAt(Notes(), NoteResults(), 0);
    WritesFollow(Notes(), NoteResults(), 1);
    TurnKnown(Notes(), NoteResults(), 0);
    WriteIsNamed(rows, Notes()[0], 2);
  }

  /** Both passes leave nothing but receipts. */
  lemma NotesAreBare(k: nat)
    requires k < 11
    ensures var rows := Turn(Notes(), NoteResults()); var ix := IndexOf(rows);
      var after := Evicting(Journaling(Tagged(rows), ix.calls, ix.pending), ix.calls, ix.pending);
      |after| == 11 && Bare(after[k])
  {
    hide IndexOf, Evicting, Journaling, Yields;
    var rows := Turn(Notes(), NoteResults());
    EvictedOrBare(Tagged(rows), IndexOf(rows), k);
    if k == 2 {
      FirstNoteYields();
    } else if rows[k].Tool? {
      var a := ResultPlace(Notes(), NoteResults(), k);
      TurnAt(Notes(), NoteResults(), a);
    }
  }

  lemma NotesAreRelieved(m: Message)
    requires var rows := Turn(Notes(), NoteResults()); var ix := IndexOf(rows);
      m in Relieved(Tagged(rows), ix.calls, ix.pending, TIGHT)
    ensures Bare(m)
  {
    hide IndexOf, Evicting, Journaling, Relieved, Bare, Turn;
    var rows := Turn(Notes(), NoteResults());
    var ix := IndexOf(rows);
    RelievedFrom(Tagged(rows), ix, TIGHT, m);
    NotesAreBare(0);
    var after := Evicting(Journaling(Tagged(rows), ix.calls, ix.pending), ix.calls, ix.pending);
    var k :| 0 <= k < |after| && after[k] == m;
    NotesAreBare(k);
  }

  lemma BareIsLight(ms: seq<Message>)
    requires forall m | m in ms :: Bare(m)
    ensures Weight(RowsOf(ms)) == 0
  {
    forall i | 0 <= i < |ms| ensures RowWeight(RowsOf(ms)[i]) == 0 { assert ms[i] in ms; }
    NoWeight(RowsOf(ms));
  }

  /** Five durable writes, the first with an obligation, and a ceiling that they pass: relief makes them fit, and
      no result that is sent has an obligation. */
  lemma ObligationIsForgotten()
    ensures var rows := Turn(Notes(), NoteResults());
      && Paired(Tagged(rows)) && Over(rows, TIGHT) && Collected(rows, TIGHT).Ok?
      && rows[2] == Tool("n0", Said(true, {Persistent}, "standing order")) && Loses(rows, TIGHT, 2)
      && forall m | m in Collected(rows, TIGHT).value && m.row.Tool? ::
           m.row.body.Decoded? && m.row.body.outcome.duties == {}
  {
    hide Paired, Adjacent, Tagged, Remainder, IndexOf, Relieved, Forgone, Loses, TurnRow, Writes, Weight;
    var rows := Turn(Notes(), NoteResults());
    NotesAreWrites();
    NotesAreOver();
    TurnIsPaired(Notes(), NoteResults());
    TurnAt(Notes(), NoteResults(), 0);
    WritesRemain(Notes(), NoteResults(), TIGHT.size);
    OldWriteIsForgone(Notes(), NoteResults(), 0, TIGHT);
    var relieved := Relieved(Tagged(rows), IndexOf(rows).calls, IndexOf(rows).pending, TIGHT);
    forall m | m in relieved ensures Bare(m) { NotesAreRelieved(m); }
    BareIsLight(relieved);
    assert Collected(rows, TIGHT) == Ok(relieved);
    GivenUpIsLost(rows, TIGHT, 2);
  }
}
