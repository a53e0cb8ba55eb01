/** Provider transcripts: rows, tool results as decoded outcomes, call/result pairing, and what a rewriting
    of a transcript must leave intact. */
module TranscriptModel {
  import opened Wrappers

  type Id = string

  datatype Args = Args(decision: Option<string>, action: string, rest: string)

  datatype Call = Call(id: Id, name: string, args: Args)

  datatype Duty = Queued | Persistent | OrderPending | Incident | MutationsBlocked

  datatype Frame = Frame(decision: Option<string>, superseded: bool, consumed: bool, menu: string)

  datatype Holder = Holder(frame: Option<Frame>, rest: string)

  datatype Guidance = Guidance(decision: Option<string>, stop: bool, tool: string, rest: string)

  datatype Mark = Unmarked | SupersededQuery | ExecutionReceipt | CognitionReceipt | QueryEviction | OtherMark

  /** A decoded tool result; `rest` stands for every field the collector never looks at. */
  datatype Outcome = Outcome(ok: bool, superseded: bool, mark: Mark, duties: set<Duty>, completed: bool,
                             decision: Option<string>, choice: Option<string>, consumed: bool,
                             post: Option<Holder>, recovery: Option<Holder>, next: Option<Guidance>,
                             receipt: string, rest: string)

  /** How the outcome is written: as the object itself, as the sole member of a transport object, or
      inside the wrapper of an untrusted result. */
  datatype Envelope = Plain | SoleResult | Untrusted

  datatype Body = Raw(text: string) | Decoded(outcome: Outcome, envelope: Envelope)

  datatype Row =
    | System(text: string)
    | User(text: string)
    | Assistant(text: string, calls: seq<Call>)
    | Tool(id: Id, body: Body)

  /** A row with the position it had in the transcript handed in. */
  datatype Message = Message(origin: nat, row: Row)

  const STATE_TOOLS := {"smac_decision", "smac_wait", "smac_snapshot", "smac_observe"}
  const QUERY_TOOLS := {"smac_choices", "smac_world", "smac_investigate"}
  const COGNITION_TOOLS := {"smac_memory_update", "smac_notebook"}
  const EXECUTE := "smac_execute_choice"
  const DISPOSABLE_TOOLS := STATE_TOOLS + QUERY_TOOLS
    + {EXECUTE, "smac_match_briefing", "smac_list", "smac_memory", "smac_memory_update", "smac_notebook"}

  function CallIds(calls: seq<Call>): set<Id> {
    if calls == [] then {} else CallIds(calls[..|calls| - 1]) + {calls[|calls| - 1].id}
  }

  function NameOf(calls: map<Id, Call>, id: Id): string {
    if id in calls then calls[id].name else ""
  }

  function Ids(row: Row): set<Id> {
    if row.Assistant? then CallIds(row.calls) else {}
  }

  // ----- Pairing -----------------------------------------------------------------------------

  ghost predicate Unrepeated(calls: seq<Call>) {
    calls == [] || (Unrepeated(calls[..|calls| - 1]) && calls[|calls| - 1].id !in CallIds(calls[..|calls| - 1]))
  }

  ghost predicate NoRepeat(row: Row) {
    row.Assistant? ==> Unrepeated(row.calls)
  }

  /** The calls of row `j` carry ids of their own. */
  ghost predicate OwnIds(ms: seq<Message>, j: nat)
    requires j < |ms|
  {
    NoRepeat(ms[j].row) && forall i | 0 <= i < j :: Ids(ms[i].row) !! Ids(ms[j].row)
  }

  ghost predicate OnlyResult(ms: seq<Message>, j: nat)
    requires j < |ms|
  {
    ms[j].row.Tool? ==> forall i | 0 <= i < j :: ms[i].row.Tool? ==> ms[i].row.id != ms[j].row.id
  }

  /** Row `i` is the result of a call in row `j` before it. */
  ghost predicate Answers(ms: seq<Message>, j: nat, i: nat) {
    j < i < |ms| && ms[i].row.Tool? && ms[i].row.id in Ids(ms[j].row)
  }

  ghost predicate Answered(ms: seq<Message>, i: nat)
    requires i < |ms|
  {
    ms[i].row.Tool? ==> exists j: nat :: Answers(ms, j, i)
  }

  ghost predicate Fulfilled(ms: seq<Message>, j: nat, id: Id)
    requires j < |ms|
  {
    exists i: nat :: Answers(ms, j, i) && ms[i].row.id == id
  }

  /** Ids are unique, every call has exactly one result, behind it, and every result a call. */
  ghost predicate Paired(ms: seq<Message>) {
    && (forall j | 0 <= j < |ms| :: OwnIds(ms, j))
    && (forall j | 0 <= j < |ms| :: OnlyResult(ms, j))
    && (forall i | 0 <= i < |ms| :: Answered(ms, i))
    && (forall j, id | 0 <= j < |ms| && id in Ids(ms[j].row) :: Fulfilled(ms, j, id))
  }

  /** If row `i` answers row `j`, nothing but results stands between them. */
  ghost predicate Close(ms: seq<Message>, j: nat, i: nat) {
    Answers(ms, j, i) ==> forall k | j < k < i :: ms[k].row.Tool?
  }

  /** Every result is in the block right behind its call. */
  ghost predicate Adjacent(ms: seq<Message>) {
    forall j: nat, i: nat :: Close(ms, j, i)
  }

  ghost predicate SameShape(a: Row, b: Row) {
    && (a.Assistant? <==> b.Assistant?) && (a.Assistant? ==> a.calls == b.calls)
    && (a.Tool? <==> b.Tool?) && (a.Tool? ==> a.id == b.id)
  }

  ghost predicate Reworded(ms: seq<Message>, after: seq<Message>) {
    |ms| == |after| && forall k | 0 <= k < |ms| :: SameShape(ms[k].row, after[k].row)
  }

  lemma AnswersAlike(ms: seq<Message>, after: seq<Message>, j: nat, i: nat)
    requires Reworded(ms, after) && Answers(ms, j, i)
    ensures Answers(after, j, i)
  {
    assert SameShape(ms[j].row, after[j].row) && SameShape(ms[i].row, after[i].row);
    assert Ids(ms[j].row) == Ids(after[j].row);
  }

  lemma RewordingIsSymmetric(ms: seq<Message>, after: seq<Message>)
    requires Reworded(ms, after)
    ensures Reworded(after, ms)
  {
    forall k | 0 <= k < |ms| ensures SameShape(after[k].row, ms[k].row) { assert SameShape(ms[k].row, after[k].row); }
  }

  lemma ShapeKeepsKind(a: Row, b: Row)
    requires SameShape(a, b)
    ensures a.Tool? <==> b.Tool?
  {}

  lemma AnswersInRange(ms: seq<Message>, j: nat, i: nat)
    requires Answers(ms, j, i)
    ensures j < i < |ms|
  {}

  /** And it leaves results where they were, behind their calls. */
  lemma RewordingKeepsAdjacency(ms: seq<Message>, after: seq<Message>)
    requires Reworded(ms, after) && Adjacent(ms)
    ensures Adjacent(after)
  {
    hide Answers, SameShape;
    RewordingIsSymmetric(ms, after);
    forall j: nat, i: nat ensures Close(after, j, i) {
      if Answers(after, j, i) {
        AnswersAlike(after, ms, j, i);
        AnswersInRange(ms, j, i);
        assert Close(ms, j, i);
        forall k | j < k < i ensures after[k].row.Tool? {
          assert SameShape(ms[k].row, after[k].row);
          ShapeKeepsKind(ms[k].row, after[k].row);
        }
      }
    }
  }

  lemma ResultOf(ms: seq<Message>, j: nat, id: Id) returns (i: nat)
    requires j < |ms| && Fulfilled(ms, j, id)
    ensures Answers(ms, j, i) && j < i < |ms| && ms[i].row.Tool? && ms[i].row.id == id
  {
    i :| Answers(ms, j, i) && ms[i].row.id == id;
  }

  lemma SameIds(a: Row, b: Row)
    requires SameShape(a, b)
    ensures Ids(a) == Ids(b) && (NoRepeat(a) <==> NoRepeat(b))
  {}

  /** Rewriting contents leaves the pairing as it was. */
  lemma RewordingKeepsPairing(ms: seq<Message>, after: seq<Message>)
    requires Reworded(ms, after) && Paired(ms)
    ensures Paired(after)
  {
    hide Answers, NoRepeat;
    forall j | 0 <= j < |ms|
      ensures OwnIds(after, j)
      ensures OnlyResult(after, j)
      ensures Answered(after, j)
    {
      assert OwnIds(ms, j) && OnlyResult(ms, j) && Answered(ms, j);
      SameIds(ms[j].row, after[j].row);
      forall i | 0 <= i < j ensures Ids(after[i].row) !! Ids(after[j].row) {
        SameIds(ms[i].row, after[i].row);
      }
      if ms[j].row.Tool? {
        var i: nat :| Answers(ms, i, j);
        AnswersAlike(ms, after, i, j);
      }
    }
    forall j, id | 0 <= j < |after| && id in Ids(after[j].row) ensures Fulfilled(after, j, id) {
      SameIds(ms[j].row, after[j].row);
      assert Fulfilled(ms, j, id);
      var i := ResultOf(ms, j, id);
      AnswersAlike(ms, after, j, i);
      assert after[i].row.id == id by { assert SameShape(ms[i].row, after[i].row); }
    }
  }

  // ----- Cutting -----------------------------------------------------------------------------

  function Without(calls: seq<Call>, gone: set<Id>): (r: seq<Call>) {
    if calls == [] then []
    else Without(calls[..|calls| - 1], gone)
           + if calls[|calls| - 1].id in gone then [] else [calls[|calls| - 1]]
  }

  function Slim(row: Row, gone: set<Id>): Row {
    if row.Assistant? then row.(calls := Without(row.calls, gone)) else row
  }

  /** The rows below `n` that are not dead, their calls without those that are gone. */
  ghost function Cut(ms: seq<Message>, n: nat, gone: set<Id>, dead: set<nat>): seq<Message>
    requires n <= |ms|
  {
    if n == 0 then []
    else Cut(ms, n - 1, gone, dead)
           + if n - 1 in dead then [] else [Message(ms[n - 1].origin, Slim(ms[n - 1].row, gone))]
  }

  /** Where the rows of the cut come from. */
  ghost function Sources(n: nat, dead: set<nat>): seq<nat> {
    if n == 0 then [] else Sources(n - 1, dead) + if n - 1 in dead then [] else [n - 1]
  }

  ghost predicate Sourced(ms: seq<Message>, gone: set<Id>, cut: seq<Message>, source: seq<nat>, k: nat)
    requires k < |cut| && |source| == |cut|
  {
    source[k] < |ms| && cut[k] == Message(ms[source[k]].origin, Slim(ms[source[k]].row, gone))
  }

  lemma {:induction false} CutIsSourced(ms: seq<Message>, n: nat, gone: set<Id>, dead: set<nat>)
    requires n <= |ms|
    ensures |Sources(n, dead)| == |Cut(ms, n, gone, dead)|
    ensures forall k | 0 <= k < |Sources(n, dead)| :: Sourced(ms, gone, Cut(ms, n, gone, dead), Sources(n, dead), k)
  {
    if n == 0 {
    } else {
      CutIsSourced(ms, n - 1, gone, dead);
      var before, source := Cut(ms, n - 1, gone, dead), Sources(n - 1, dead);
      forall k | 0 <= k < |Sources(n, dead)| ensures Sourced(ms, gone, Cut(ms, n, gone, dead), Sources(n, dead), k) {
        assert k < |source| ==> Sourced(ms, gone, before, source, k);
      }
    }
  }

  lemma {:induction false} SourcesRise(n: nat, dead: set<nat>)
    ensures forall k | 0 <= k < |Sources(n, dead)| :: Sources(n, dead)[k] < n && Sources(n, dead)[k] !in dead
    ensures forall k, l | 0 <= k < l < |Sources(n, dead)| :: Sources(n, dead)[k] < Sources(n, dead)[l]
  {
    if n == 0 {
    } else {
      SourcesRise(n - 1, dead);
    }
  }

  lemma {:induction false} SourceOf(n: nat, dead: set<nat>, i: nat) returns (k: nat)
    requires i < n && i !in dead
    ensures k < |Sources(n, dead)| && Sources(n, dead)[k] == i
  {
    if i == n - 1 {
      k := |Sources(n, dead)| - 1;
    } else {
      k := SourceOf(n - 1, dead, i);
    }
  }

  ghost predicate ClosedAt(row: Row, gone: set<Id>, dies: bool) {
    && (row.Tool? ==> (dies <==> row.id in gone))
    && (row.Assistant? && dies ==> Ids(row) <= gone)
  }

  /** Results die exactly with their calls, and a row with calls dies only when all of them are gone. */
  ghost predicate Closed(ms: seq<Message>, gone: set<Id>, dead: set<nat>) {
    forall i | 0 <= i < |ms| :: ClosedAt(ms[i].row, gone, i in dead)
  }

  lemma WithoutLast(calls: seq<Call>, gone: set<Id>)
    requires calls != []
    ensures var front, last := calls[..|calls| - 1], calls[|calls| - 1];
      Without(calls, gone) == if last.id in gone then Without(front, gone) else Without(front, gone) + [last]
  {}

  lemma IdsOfMore(calls: seq<Call>, call: Call)
    ensures CallIds(calls + [call]) == CallIds(calls) + {call.id}
    ensures Unrepeated(calls + [call]) <==> Unrepeated(calls) && call.id !in CallIds(calls)
  {
    assert (calls + [call])[..|calls|] == calls;
  }

  lemma {:induction false} WithoutIds(calls: seq<Call>, gone: set<Id>)
    ensures CallIds(Without(calls, gone)) == CallIds(calls) - gone
  {
    if calls == [] {
    } else {
      var front, last := calls[..|calls| - 1], calls[|calls| - 1];
      WithoutIds(front, gone);
      WithoutLast(calls, gone);
      IdsOfMore(Without(front, gone), last);
    }
  }

  lemma {:induction false} WithoutUnrepeated(calls: seq<Call>, gone: set<Id>)
    requires Unrepeated(calls)
    ensures Unrepeated(Without(calls, gone))
  {
    if calls == [] {
    } else {
      var front, last := calls[..|calls| - 1], calls[|calls| - 1];
      WithoutUnrepeated(front, gone);
      WithoutIds(front, gone);
      WithoutLast(calls, gone);
      IdsOfMore(Without(front, gone), last);
    }
  }

  lemma SlimIds(row: Row, gone: set<Id>)
    ensures Ids(Slim(row, gone)) == Ids(row) - gone && (NoRepeat(row) ==> NoRepeat(Slim(row, gone)))
  {
    if row.Assistant? {
      WithoutIds(row.calls, gone);
      if Unrepeated(row.calls) { WithoutUnrepeated(row.calls, gone); }
    }
  }

  lemma {:induction false} NothingGone(calls: seq<Call>, gone: set<Id>)
    requires CallIds(calls) !! gone
    ensures Without(calls, gone) == calls
  {
    if calls == [] {
    } else {
      NothingGone(calls[..|calls| - 1], gone);
    }
  }

  /** A row without gone calls is kept as it is. */
  lemma SlimKeeps(row: Row, gone: set<Id>)
    requires Ids(row) !! gone
    ensures Slim(row, gone) == row
  {
    if row.Assistant? { NothingGone(row.calls, gone); }
  }

  lemma ClosedAtSource(ms: seq<Message>, gone: set<Id>, dead: set<nat>, i: nat)
    requires Closed(ms, gone, dead) && i < |ms| && i !in dead
    ensures ms[i].row.Tool? ==> ms[i].row.id !in gone
  {
    assert ClosedAt(ms[i].row, gone, i in dead);
  }

  lemma CutAnswers(ms: seq<Message>, gone: set<Id>, dead: set<nat>, k: nat, l: nat)
    requires var source := Sources(|ms|, dead); k < |source| && l < |source| && Answers(ms, source[k], source[l])
    requires Closed(ms, gone, dead)
    ensures Answers(Cut(ms, |ms|, gone, dead), k, l)
  {
    hide Closed;
    var cut, source := Cut(ms, |ms|, gone, dead), Sources(|ms|, dead);
    CutIsSourced(ms, |ms|, gone, dead);
    SourcesRise(|ms|, dead);
    assert Sourced(ms, gone, cut, source, k) && Sourced(ms, gone, cut, source, l);
    ClosedAtSource(ms, gone, dead, source[l]);
    SlimIds(ms[source[k]].row, gone);
    assert k < l;
  }

  lemma CutOwnIds(ms: seq<Message>, gone: set<Id>, dead: set<nat>, l: nat)
    requires l < |Sources(|ms|, dead)| && forall j | 0 <= j < |ms| :: OwnIds(ms, j) && OnlyResult(ms, j)
    ensures l < |Cut(ms, |ms|, gone, dead)|
    ensures OwnIds(Cut(ms, |ms|, gone, dead), l) && OnlyResult(Cut(ms, |ms|, gone, dead), l)
  {
    hide NoRepeat, Ids;
    var cut, source := Cut(ms, |ms|, gone, dead), Sources(|ms|, dead);
    CutIsSourced(ms, |ms|, gone, dead);
    SourcesRise(|ms|, dead);
    assert Sourced(ms, gone, cut, source, l);
    assert OwnIds(ms, source[l]) && OnlyResult(ms, source[l]);
    SlimIds(ms[source[l]].row, gone);
    forall k | 0 <= k < l
      ensures Ids(cut[k].row) !! Ids(cut[l].row)
      ensures cut[l].row.Tool? && cut[k].row.Tool? ==> cut[k].row.id != cut[l].row.id
    {
      assert Sourced(ms, gone, cut, source, k) && source[k] < source[l];
      SlimIds(ms[source[k]].row, gone);
    }
  }

  lemma CallerSurvives(ms: seq<Message>, gone: set<Id>, dead: set<nat>, j: nat, i: nat)
    requires Closed(ms, gone, dead) && Answers(ms, j, i) && i !in dead
    ensures j !in dead
  {
    assert ClosedAt(ms[i].row, gone, i in dead) && ClosedAt(ms[j].row, gone, j in dead);
  }

  lemma ResultSurvives(ms: seq<Message>, gone: set<Id>, dead: set<nat>, i: nat)
    requires Closed(ms, gone, dead) && i < |ms| && ms[i].row.Tool? && ms[i].row.id !in gone
    ensures i !in dead
  {
    assert ClosedAt(ms[i].row, gone, i in dead);
  }

  /** Cutting calls together with their results keeps the pairing. */
  lemma CuttingKeepsPairing(ms: seq<Message>, gone: set<Id>, dead: set<nat>)
    requires Paired(ms) && Closed(ms, gone, dead)
    ensures Paired(Cut(ms, |ms|, gone, dead))
  {
    hide Answers, OwnIds, OnlyResult, Closed, Ids;
    var cut, source := Cut(ms, |ms|, gone, dead), Sources(|ms|, dead);
    CutIsSourced(ms, |ms|, gone, dead);
    SourcesRise(|ms|, dead);
    forall l | 0 <= l < |cut|
      ensures OwnIds(cut, l)
      ensures OnlyResult(cut, l)
      ensures Answered(cut, l)
    {
      CutOwnIds(ms, gone, dead, l);
      assert Sourced(ms, gone, cut, source, l) && Answered(ms, source[l]);
      if cut[l].row.Tool? {
        var j: nat :| Answers(ms, j, source[l]);
        CallerSurvives(ms, gone, dead, j, source[l]);
        AnswersInRange(ms, j, source[l]);
        var k := SourceOf(|ms|, dead, j);
        CutAnswers(ms, gone, dead, k, l);
      }
    }
    forall k, id | 0 <= k < |cut| && id in Ids(cut[k].row) ensures Fulfilled(cut, k, id) {
      assert Sourced(ms, gone, cut, source, k);
      SlimIds(ms[source[k]].row, gone);
      var i := ResultOf(ms, source[k], id);
      ResultSurvives(ms, gone, dead, i);
      var l := SourceOf(|ms|, dead, i);
      CutAnswers(ms, gone, dead, k, l);
      assert Sourced(ms, gone, cut, source, l);
    }
  }

  /** Cutting never moves a result away from its call. */
  lemma CuttingKeepsAdjacency(ms: seq<Message>, gone: set<Id>, dead: set<nat>)
    requires Adjacent(ms)
    ensures Adjacent(Cut(ms, |ms|, gone, dead))
  {
    hide Ids;
    var cut, source := Cut(ms, |ms|, gone, dead), Sources(|ms|, dead);
    CutIsSourced(ms, |ms|, gone, dead);
    SourcesRise(|ms|, dead);
    forall k: nat, l: nat ensures Close(cut, k, l) {
      if Answers(cut, k, l) {
        assert Sourced(ms, gone, cut, source, k) && Sourced(ms, gone, cut, source, l);
        SlimIds(ms[source[k]].row, gone);
        assert Close(ms, source[k], source[l]);
        forall m | k < m < l ensures cut[m].row.Tool? {
          assert Sourced(ms, gone, cut, source, m) && source[k] < source[m] < source[l];
        }
      }
    }
  }
}
