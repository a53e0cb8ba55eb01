/** The stages of the collection as functions of the transcript. */
module TranscriptStages {
  import opened Wrappers
  import opened TranscriptModel
  import opened TranscriptPromises

  // ----- Index -------------------------------------------------------------------------------

  function LastUser(rows: seq<Row>, n: nat): (r: int)
    requires n <= |rows|
    ensures -1 <= r < n
  {
    if n == 0 then -1 else if rows[n - 1].User? then n - 1 else LastUser(rows, n - 1)
  }

  function AddCalls(known: map<Id, Call>, calls: seq<Call>): map<Id, Call> {
    if calls == [] then known else AddCalls(known, calls[..|calls| - 1])[calls[|calls| - 1].id := calls[|calls| - 1]]
  }

  /** Every call made before row `n`, by id. */
  function CallsUpTo(rows: seq<Row>, n: nat): map<Id, Call>
    requires n <= |rows|
  {
    if n == 0 then map[]
    else if rows[n - 1].Assistant? then AddCalls(CallsUpTo(rows, n - 1), rows[n - 1].calls)
    else CallsUpTo(rows, n - 1)
  }

  /** The batch that waits for an answer: the calls of the last assistant row not before the last user. */
  function PendingUpTo(rows: seq<Row>, n: nat, lastUser: int): set<Id>
    requires n <= |rows|
  {
    if n == 0 then {}
    else if rows[n - 1].Assistant? && n - 1 >= lastUser then Ids(rows[n - 1])
    else PendingUpTo(rows, n - 1, lastUser)
  }

  /** The name of the tool a result came from, as known when the result is reached. */
  function NameAt(rows: seq<Row>, i: nat): string
    requires i < |rows|
  {
    if rows[i].Tool? then NameOf(CallsUpTo(rows, i), rows[i].id) else ""
  }

  function ConsumedBy(row: Row, calls: map<Id, Call>): set<string> {
    if row.Tool? && row.body.Decoded? && row.body.outcome.consumed && NameOf(calls, row.id) == EXECUTE
       && row.id in calls && calls[row.id].args.decision.Some?
    then {calls[row.id].args.decision.value} else {}
  }

  /** The decisions whose execution was acknowledged as consuming them. */
  function ConsumedUpTo(rows: seq<Row>, n: nat): set<string>
    requires n <= |rows|
  {
    if n == 0 then {} else ConsumedUpTo(rows, n - 1) + ConsumedBy(rows[n - 1], CallsUpTo(rows, n - 1))
  }

  function StateRowsUpTo(rows: seq<Row>, n: nat): (r: seq<nat>)
    requires n <= |rows|
    ensures forall k | 0 <= k < |r| :: r[k] < n
  {
    if n == 0 then []
    else StateRowsUpTo(rows, n - 1) + if NameAt(rows, n - 1) in STATE_TOOLS then [n - 1] else []
  }

  /** What the index pass finds out. */
  datatype Index = Index(calls: map<Id, Call>, pending: set<Id>, consumed: set<string>, stateRows: seq<nat>)

  function IndexUpTo(rows: seq<Row>, n: nat, lastUser: int): Index
    requires n <= |rows|
  {
    Index(CallsUpTo(rows, n), PendingUpTo(rows, n, lastUser), ConsumedUpTo(rows, n), StateRowsUpTo(rows, n))
  }

  /** An old episode boundary becomes a notice. */
  function Opened(row: Row, i: nat, lastUser: int): Row {
    if row.User? && i < lastUser && BOUNDARY <= row.text then User(NOTICE) else row
  }

  // ----- Superseding -------------------------------------------------------------------------

  function Marker(superseded: bool, consumed: bool, mark: Mark, receipt: string): Outcome {
    Outcome(true, superseded, mark, {}, false, None, None, consumed, None, None, None, receipt, "")
  }

  const RETIRED_FRAME := Frame(None, true, true, "")
  const RETIRED_GUIDANCE := Guidance(None, false, "", "The referenced decision was consumed; use the newest frame.")

  predicate Menu(holder: Option<Holder>, consumed: set<string>) {
    holder.Some? && holder.value.frame.Some? && holder.value.frame.value.decision.Some?
    && holder.value.frame.value.decision.value in consumed
  }

  function Emptied(holder: Option<Holder>, consumed: set<string>): Option<Holder> {
    if Menu(holder, consumed) then Some(holder.value.(frame := Some(RETIRED_FRAME))) else holder
  }

  predicate GuidesTo(o: Outcome, holder: Option<Holder>, consumed: set<string>) {
    Menu(holder, consumed) && o.next.Some? && o.next.value.decision == holder.value.frame.value.decision
  }

  /** The whole result was the menu of a consumed decision. */
  predicate WhollyRetired(row: Row, name: string, consumed: set<string>, pending: set<Id>) {
    row.Tool? && row.id !in pending && row.body.Decoded? && name in {"smac_decision", "smac_choices"}
    && row.body.outcome.decision.Some? && row.body.outcome.decision.value in consumed
  }

  /** Consumed menus are retired; an execution keeps its receipt and loses only the menus inside it. */
  function Retired(row: Row, name: string, consumed: set<string>, pending: set<Id>): Row {
    if !row.Tool? || row.id in pending || row.body.Raw? then row
    else
      var o := row.body.outcome;
      if name == EXECUTE then
        if Menu(o.post, consumed) || Menu(o.recovery, consumed) then
          row.(body := Decoded(
            o.(post := Emptied(o.post, consumed), recovery := Emptied(o.recovery, consumed),
               next := if GuidesTo(o, o.post, consumed) || GuidesTo(o, o.recovery, consumed) then Some(RETIRED_GUIDANCE)
                       else o.next),
            Plain))
        else row
      else if WhollyRetired(row, name, consumed, pending)
      then row.(body := Decoded(Marker(true, true, Unmarked, ""), Plain))
      else row
  }

  /** A state frame that is not the newest of the current episode. */
  predicate Stale(ix: Index, i: nat, lastUser: int) {
    i in ix.stateRows && !(i == ix.stateRows[|ix.stateRows| - 1] && i >= lastUser)
  }

  predicate IsQuery(ix: Index, row: Row) {
    row.Tool? && row.id in ix.calls && ix.calls[row.id].name in QUERY_TOOLS
  }

  predicate SameQuery(ix: Index, a: Row, b: Row) {
    && IsQuery(ix, a) && IsQuery(ix, b)
    && ix.calls[a.id].name == ix.calls[b.id].name && ix.calls[a.id].args == ix.calls[b.id].args
  }

  /** A later identical query that was not itself retired. */
  ghost predicate Requeried(rows: seq<Row>, whole: set<nat>, ix: Index, i: nat)
    requires i < |rows|
  {
    exists k | i < k < |rows| :: k !in whole && SameQuery(ix, rows[i], rows[k])
  }

  function StaleMarker(row: Row): Row
    requires row.Tool?
  {
    row.(body := Decoded(Marker(true, false, Unmarked, ""), Plain))
  }

  function QueryMarker(row: Row): Row
    requires row.Tool?
  {
    row.(body := Decoded(Marker(false, false, SupersededQuery, ""), Plain))
  }

  ghost function Superseded(rows: seq<Row>, whole: set<nat>, ix: Index, i: nat, lastUser: int): Row
    requires i < |rows|
  {
    var row := rows[i];
    if Stale(ix, i, lastUser) && row.Tool? && i !in whole && row.id !in ix.pending then StaleMarker(row) else row
  }

  ghost function Collapsed(rows: seq<Row>, whole: set<nat>, ix: Index, i: nat): Row
    requires i < |rows|
  {
    var row := rows[i];
    if IsQuery(ix, row) && i !in whole && row.id !in ix.pending && Requeried(rows, whole, ix, i) then QueryMarker(row)
    else row
  }

  // ----- Names on paired transcripts ---------------------------------------------------------

  lemma {:induction false} AddedCall(known: map<Id, Call>, calls: seq<Call>, id: Id)
    ensures id !in CallIds(calls) ==> (id in AddCalls(known, calls) <==> id in known)
    ensures id !in CallIds(calls) && id in known ==> AddCalls(known, calls)[id] == known[id]
    ensures id in CallIds(calls) ==> id in AddCalls(known, calls)
  {
    if calls == [] {
    } else {
      AddedCall(known, calls[..|calls| - 1], id);
    }
  }

  lemma {:induction false} CallStays(rows: seq<Row>, i: nat, n: nat, id: Id)
    requires i <= n <= |rows| && forall k | i <= k < n :: id !in Ids(rows[k])
    ensures NameOf(CallsUpTo(rows, n), id) == NameOf(CallsUpTo(rows, i), id)
    ensures id in CallsUpTo(rows, n) <==> id in CallsUpTo(rows, i)
    decreases n
  {
    if i == n {
    } else {
      CallStays(rows, i, n - 1, id);
      if rows[n - 1].Assistant? { AddedCall(CallsUpTo(rows, n - 1), rows[n - 1].calls, id); }
    }
  }

  /** On a paired transcript a result is reached knowing the name of its call. */
  lemma NameIsKnown(rows: seq<Row>, i: nat)
    requires Paired(Tagged(rows)) && i < |rows| && rows[i].Tool?
    ensures NameAt(rows, i) == NameOf(CallsUpTo(rows, |rows|), rows[i].id)
  {
    var ms := Tagged(rows);
    assert Answered(ms, i);
    var j: nat :| Answers(ms, j, i);
    forall k | i <= k < |rows| ensures rows[i].id !in Ids(rows[k]) {
      assert OwnIds(ms, k);
      assert Ids(ms[j].row) !! Ids(ms[k].row);
    }
    CallStays(rows, i, |rows|, rows[i].id);
  }

  // ----- Each stage rewrites within the promises ---------------------------------------------

  lemma SameIsRecast(m: Message, pending: set<Id>, lost: set<Id>)
    ensures Recast(m, m, pending, lost)
  {
    SameIsHeir(m.row, pending, lost);
  }

  lemma OpenedIsRecast(row: Row, i: nat, lastUser: int, pending: set<Id>, lost: set<Id>)
    ensures Recast(Message(i, row), Message(i, Opened(row, i, lastUser)), pending, lost)
  {
    SameIsHeir(row, pending, lost);
  }

  lemma RetiredIsRecast(row: Row, i: nat, name: string, consumed: set<string>, pending: set<Id>, lost: set<Id>)
    requires WhollyRetired(row, name, consumed, pending) ==> row.id in lost
    ensures Recast(Message(i, row), Message(i, Retired(row, name, consumed, pending)), pending, lost)
  {
    SameIsHeir(row, pending, lost);
  }

  lemma {:induction false} StateRowsAreState(rows: seq<Row>, n: nat, i: nat)
    requires n <= |rows| && i in StateRowsUpTo(rows, n)
    ensures i < n && NameAt(rows, i) in STATE_TOOLS
  {
    if i !in StateRowsUpTo(rows, n - 1) {
    } else {
      StateRowsAreState(rows, n - 1, i);
    }
  }

  /** A result of which nothing is promised may be replaced, outside the newest batch. */
  lemma LostIsRecast(row: Row, i: nat, body: Body, pending: set<Id>, lost: set<Id>)
    requires row.Tool? && row.id !in pending && row.id in lost
    ensures Recast(Message(i, row), Message(i, row.(body := body)), pending, lost)
  {}
}
