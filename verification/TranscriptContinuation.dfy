/** Continuation across episodes: settled old pairs are pruned, executions become receipts, and repeated
    old prose is kept once. */
module TranscriptContinuation {
  import opened Wrappers
  import opened TranscriptModel
  import opened TranscriptPromises
  import opened TranscriptStages

  const PROSE_THRESHOLD := 24000

  // ----- Receipts ----------------------------------------------------------------------------

  predicate Managed(name: string) {
    "smac_" <= name
  }

  function Nested(o: Outcome): Frame {
    if o.post.Some? && o.post.value.frame.Some? then o.post.value.frame.value else Frame(None, false, false, "")
  }

  predicate Obsolete(o: Outcome, past: bool) {
    past || Nested(o).consumed || Nested(o).superseded
  }

  /** Only the expired menus of an execution go. */
  function MenusDropped(o: Outcome, past: bool): Outcome {
    if !Obsolete(o, past) then o
    else o.(post := None,
            recovery := if past && o.recovery.Some? && o.recovery.value.frame.Some?
                        then Some(o.recovery.value.(frame := Some(Frame(None, true, false, "")))) else o.recovery)
  }

  /** An old execution loses the handles of its decision, and guidance that only pointed to the next one. */
  function HandlesDropped(o: Outcome, past: bool): Outcome {
    if !past then o
    else o.(decision := None, choice := None, consumed := false,
            next := if o.next.Some? && !o.next.value.stop && o.next.value.tool in {"smac_decision", EXECUTE} then None
                    else o.next)
  }

  function Receipt(o: Outcome, past: bool): Outcome {
    var aged := HandlesDropped(MenusDropped(o, past), past);
    if Obsolete(o, past) && aged.ok && aged.completed
    then aged.(decision := None, choice := None, consumed := false, next := None, mark := ExecutionReceipt)
    else aged
  }

  /** The guidance of an execution that has run its course, or that only points on to the next decision. */
  predicate GuidanceExpires(o: Outcome, past: bool) {
    (Obsolete(o, past) && o.ok && o.completed)
    || (past && o.next.Some? && !o.next.value.stop && o.next.value.tool in {"smac_decision", EXECUTE})
  }

  /** A current receipt that is not obsolete is untouched. An old one has lost its own handles and both menus.
      Guidance goes exactly when it expires, so guidance to stop survives an execution that failed, with
      whatever decision it names; everything else a receipt says stays. */
  lemma ReceiptForgetsHandlesOnly(o: Outcome, past: bool)
    ensures var r := Receipt(o, past);
      && (!Obsolete(o, past) ==> r == o)
      && (past ==> r.post == None && r.decision == None && r.choice == None && !r.consumed)
      && (past && r.recovery.Some? && r.recovery.value.frame.Some? ==> r.recovery.value.frame.value.decision == None)
      && (r.recovery.Some? <==> o.recovery.Some?)
      && (o.recovery.Some? ==> r.recovery.value.rest == o.recovery.value.rest)
      && r.next == (if GuidanceExpires(o, past) then None else o.next)
      && r.ok == o.ok && r.superseded == o.superseded && r.duties == o.duties && r.completed == o.completed
      && r.receipt == o.receipt && r.rest == o.rest
  {
    var aged := HandlesDropped(MenusDropped(o, past), past);
    assert aged.ok == o.ok && aged.completed == o.completed;
  }

  function Compacted(row: Row, calls: map<Id, Call>, pending: set<Id>, past: bool): Row {
    if !row.Tool? || row.id in pending || row.body.Raw? then row
    else if NameOf(calls, row.id) != EXECUTE then
      if Managed(NameOf(calls, row.id)) && row.body.envelope == SoleResult
      then row.(body := Decoded(row.body.outcome, Plain)) else row
    else row.(body := Decoded(Receipt(row.body.outcome, past), Plain))
  }

  lemma CompactedIsRecast(row: Row, i: nat, calls: map<Id, Call>, pending: set<Id>, past: bool, lost: set<Id>)
    ensures Recast(Message(i, row), Message(i, Compacted(row, calls, pending, past)), pending, lost)
  {
    SameIsHeir(row, pending, lost);
  }

  // ----- Settled pairs -----------------------------------------------------------------------

  function Results(rows: seq<Row>, n: nat): map<Id, Body>
    requires n <= |rows|
  {
    if n == 0 then map[]
    else if rows[n - 1].Tool? then Results(rows, n - 1)[rows[n - 1].id := rows[n - 1].body]
    else Results(rows, n - 1)
  }

  predicate Settled(results: map<Id, Body>, calls: map<Id, Call>, id: Id) {
    && id in results && results[id].Decoded?
    && var o := results[id].outcome;
       o.ok && (o.superseded || o.mark == SupersededQuery) && NameOf(calls, id) != EXECUTE && o.duties == {}
  }

  function SettledIn(row: Row, results: map<Id, Body>, calls: map<Id, Call>): set<Id> {
    set id | id in Ids(row) && Settled(results, calls, id)
  }

  /** The settled calls made before row `n`. */
  function Removable(rows: seq<Row>, n: nat, results: map<Id, Body>, calls: map<Id, Call>): set<Id>
    requires n <= |rows|
  {
    if n == 0 then {} else Removable(rows, n - 1, results, calls) + SettledIn(rows[n - 1], results, calls)
  }

  /** A result goes with its call, a row of calls when nothing else is in it. */
  predicate Vanishes(row: Row, gone: set<Id>) {
    match row
    case Tool(id, _) => id in gone
    case Assistant(text, calls) => calls != [] && Without(calls, gone) == [] && text == ""
    case _ => false
  }

  ghost function Vanishing(rows: seq<Row>, gone: set<Id>): set<nat> {
    set i | 0 <= i < |rows| && Vanishes(rows[i], gone)
  }

  lemma {:induction false} RemovableIsSettled(rows: seq<Row>, n: nat, results: map<Id, Body>, calls: map<Id, Call>,
                                              id: Id)
    requires n <= |rows|
    ensures id in Removable(rows, n, results, calls) <==>
      Settled(results, calls, id) && exists j | 0 <= j < n :: id in Ids(rows[j])
  {
    if n == 0 {
    } else {
      RemovableIsSettled(rows, n - 1, results, calls, id);
    }
  }

  lemma {:induction false} ResultStands(rows: seq<Row>, i: nat, n: nat)
    requires i < n <= |rows| && rows[i].Tool?
    requires forall k | i < k < n :: rows[k].Tool? ==> rows[k].id != rows[i].id
    ensures rows[i].id in Results(rows, n) && Results(rows, n)[rows[i].id] == rows[i].body
    decreases n
  {
    if i == n - 1 {
    } else {
      ResultStands(rows, i, n - 1);
    }
  }

  /** On a paired transcript the result looked up by id is the one. */
  lemma ResultIsUnique(rows: seq<Row>, i: nat)
    requires Paired(Tagged(rows)) && i < |rows| && rows[i].Tool?
    ensures rows[i].id in Results(rows, |rows|) && Results(rows, |rows|)[rows[i].id] == rows[i].body
  {
    forall k | i < k < |rows| && rows[k].Tool? ensures rows[k].id != rows[i].id {
      assert OnlyResult(Tagged(rows), k) && Tagged(rows)[i].row.Tool?;
    }
    ResultStands(rows, i, |rows|);
  }

  lemma VanishedIds(row: Row, gone: set<Id>)
    requires row.Assistant? && Vanishes(row, gone)
    ensures Ids(row) <= gone
  {
    WithoutIds(row.calls, gone);
    assert CallIds(row.calls) - gone == {};
    forall id | id in Ids(row) ensures id in gone {
      assert id !in CallIds(row.calls) - gone;
    }
  }

  lemma VanishingIsClosed(rows: seq<Row>, gone: set<Id>)
    ensures Closed(Tagged(rows), gone, Vanishing(rows, gone))
  {
    forall i | 0 <= i < |rows| ensures ClosedAt(rows[i], gone, i in Vanishing(rows, gone)) {
      if rows[i].Assistant? && i in Vanishing(rows, gone) { VanishedIds(rows[i], gone); }
    }
  }

  lemma VanishingMayDie(rows: seq<Row>, calls: map<Id, Call>, gone: set<Id>, i: nat, lost: set<Id>)
    requires Paired(Tagged(rows)) && i < |rows| && Vanishes(rows[i], gone)
    requires forall id | id in gone :: Settled(Results(rows, |rows|), calls, id)
    ensures MayDie(Tagged(rows), i, Vanishing(rows, gone), lost)
  {
    if rows[i].Tool? { ResultIsUnique(rows, i); }
  }

  lemma {:induction false} PendingIsLate(rows: seq<Row>, n: nat, lastUser: int, id: Id) returns (p: nat)
    requires n <= |rows| && id in PendingUpTo(rows, n, lastUser)
    ensures p < n && p >= lastUser && id in Ids(rows[p]) && PendingUpTo(rows, n, lastUser) == Ids(rows[p])
    ensures forall k | p < k < n :: !rows[k].Assistant?
  {
    if rows[n - 1].Assistant? && n - 1 >= lastUser {
      p := n - 1;
    } else {
      p := PendingIsLate(rows, n - 1, lastUser, id);
    }
  }

  lemma RowsOwnIds(rows: seq<Row>, j: nat, p: nat)
    requires Paired(Tagged(rows)) && j < p < |rows|
    ensures Ids(rows[j]) !! Ids(rows[p])
  {
    var ms := Tagged(rows);
    assert OwnIds(ms, p);
    assert Ids(ms[j].row) !! Ids(ms[p].row);
  }

  lemma InheritedIds(a: Row, b: Row, pending: set<Id>, lost: set<Id>)
    requires Heir(a, b, pending, lost)
    ensures Ids(b) <= Ids(a) && (b.Assistant? ==> a.Assistant?)
  {
    if a.Assistant? {
      var g :| g !! pending && b.calls == Without(a.calls, g);
      WithoutIds(a.calls, g);
    }
  }

  /** No call of the newest batch is removable. */
  lemma RemovableIsOld(all: seq<Row>, rows: seq<Row>, results: map<Id, Body>, calls: map<Id, Call>, lastUser: int,
                       before: nat, pending: set<Id>, lost: set<Id>)
    requires Paired(Tagged(all)) && |rows| == |all| && before <= |rows|
    requires before <= (if lastUser > 0 then lastUser else 0)
    requires forall j | 0 <= j < |rows| :: Inherits(all, Tagged(rows)[j], pending, lost)
    requires pending == PendingUpTo(all, |all|, lastUser)
    ensures Removable(rows, before, results, calls) !! pending
  {
    hide Settled, Heir, Paired;
    forall id | id in Removable(rows, before, results, calls) && id in pending ensures false {
      RemovableIsSettled(rows, before, results, calls, id);
      var j :| 0 <= j < before && id in Ids(rows[j]);
      assert Inherits(all, Tagged(rows)[j], pending, lost);
      InheritedIds(all[j], rows[j], pending, lost);
      var p := PendingIsLate(all, |all|, lastUser, id);
      RowsOwnIds(all, j, p);
    }
  }

  // ----- Repeated prose ----------------------------------------------------------------------

  predicate OldProse(m: Message, cutoff: nat) {
    m.origin < cutoff && m.row.Assistant? && m.row.calls == [] && m.row.text != ""
  }

  /** The same old prose stands again further on. */
  ghost predicate SaidAgain(ms: seq<Message>, cutoff: nat, k: nat)
    requires k < |ms|
  {
    OldProse(ms[k], cutoff)
    && exists l | k < l < |ms| :: OldProse(ms[l], cutoff) && ms[l].row.text == ms[k].row.text
  }

  ghost function Repetitions(ms: seq<Message>, cutoff: nat): set<nat> {
    set k | 0 <= k < |ms| && SaidAgain(ms, cutoff, k)
  }

  /** The newest of the repeated rows stays. */
  lemma {:induction false} NewestStays(ms: seq<Message>, cutoff: nat, k: nat)
    requires k < |ms| && OldProse(ms[k], cutoff)
    ensures Repeated(ms, Repetitions(ms, cutoff), ms[k].row.text)
    decreases |ms| - k
  {
    if SaidAgain(ms, cutoff, k) {
      var l :| k < l < |ms| && OldProse(ms[l], cutoff) && ms[l].row.text == ms[k].row.text;
      NewestStays(ms, cutoff, l);
    } else {
      assert k !in Repetitions(ms, cutoff);
    }
  }

  /** Row `l` is the last old prose with this text. */
  ghost predicate LastSaid(ms: seq<Message>, cutoff: nat, l: nat, text: string)
    requires l < |ms|
  {
    && OldProse(ms[l], cutoff) && ms[l].row.text == text
    && forall j | l < j < |ms| && OldProse(ms[j], cutoff) :: ms[j].row.text != text
  }

  /** Only standalone prose from before the cutoff is dropped, and its newest occurrence is the one kept. */
  lemma {:induction false} NewestOccurrenceIsKept(ms: seq<Message>, cutoff: nat, k: nat)
    requires k in Repetitions(ms, cutoff)
    ensures k < |ms| && ms[k].origin < cutoff && ms[k].row.Assistant? && ms[k].row.calls == []
    ensures exists l | k < l < |ms| :: l !in Repetitions(ms, cutoff) && LastSaid(ms, cutoff, l, ms[k].row.text)
    decreases |ms| - k
  {
    var l :| k < l < |ms| && OldProse(ms[l], cutoff) && ms[l].row.text == ms[k].row.text;
    if l in Repetitions(ms, cutoff) {
      NewestOccurrenceIsKept(ms, cutoff, l);
    } else {
      assert !SaidAgain(ms, cutoff, l);
    }
  }

  lemma RepetitionsAreClosed(ms: seq<Message>, cutoff: nat, lost: set<Id>)
    ensures Closed(ms, {}, Repetitions(ms, cutoff))
    ensures forall i | 0 <= i < |ms| && i in Repetitions(ms, cutoff) :: MayDie(ms, i, Repetitions(ms, cutoff), lost)
  {
    forall i | 0 <= i < |ms| && i in Repetitions(ms, cutoff) ensures MayDie(ms, i, Repetitions(ms, cutoff), lost) {
      NewestStays(ms, cutoff, i);
    }
    forall i | 0 <= i < |ms| ensures ClosedAt(ms[i].row, {}, i in Repetitions(ms, cutoff)) {}
  }

  // ----- The whole stage ---------------------------------------------------------------------

  function UserRows(rows: seq<Row>, n: nat): (r: seq<nat>)
    requires n <= |rows|
    ensures forall k | 0 <= k < |r| :: r[k] < n
  {
    if n == 0 then [] else UserRows(rows, n - 1) + if rows[n - 1].User? then [n - 1] else []
  }

  /** The last but one user row: what is older may be deduplicated. */
  function Cutoff(rows: seq<Row>): nat {
    var users := UserRows(rows, |rows|);
    if |users| > 1 then users[|users| - 2] else 0
  }

  ghost function Pruned(rows: seq<Row>, gone: set<Id>): seq<Message> {
    Cut(Tagged(rows), |rows|, gone, Vanishing(rows, gone))
  }

  ghost function Deduplicated(ms: seq<Message>, cutoff: nat): seq<Message> {
    Cut(ms, |ms|, {}, Repetitions(ms, cutoff))
  }

  lemma AllMayVanish(rows: seq<Row>, calls: map<Id, Call>, gone: set<Id>, lost: set<Id>)
    requires Paired(Tagged(rows))
    requires forall id | id in gone :: Settled(Results(rows, |rows|), calls, id)
    ensures forall i | 0 <= i < |Tagged(rows)| && i in Vanishing(rows, gone) ::
      MayDie(Tagged(rows), i, Vanishing(rows, gone), lost)
  {
    hide Settled, MayDie, Paired;
    forall i | 0 <= i < |rows| && i in Vanishing(rows, gone)
      ensures MayDie(Tagged(rows), i, Vanishing(rows, gone), lost)
    {
      VanishingMayDie(rows, calls, gone, i, lost);
    }
  }

  lemma FaithIsPaired(all: seq<Row>, ms: seq<Message>, pending: set<Id>, lost: set<Id>)
    requires Faithful(all, ms, pending, lost)
    ensures Paired(ms) && Ordered(ms)
  {}

  /** Pruning settled pairs keeps every promise. */
  lemma PruningKeepsFaith(all: seq<Row>, rows: seq<Row>, gone: set<Id>, calls: map<Id, Call>, pending: set<Id>,
                          lost: set<Id>)
    requires Faithful(all, Tagged(rows), pending, lost) && gone !! pending
    requires forall id | id in gone :: Settled(Results(rows, |rows|), calls, id)
    ensures Faithful(all, Pruned(rows, gone), pending, lost)
  {
    hide Settled, MayDie, Closed, Faithful, Vanishing, Paired;
    FaithIsPaired(all, Tagged(rows), pending, lost);
    VanishingIsClosed(rows, gone);
    AllMayVanish(rows, calls, gone, lost);
    CuttingKeepsFaith(all, Tagged(rows), gone, Vanishing(rows, gone), pending, lost);
  }

  /** Dropping repeated old prose keeps every promise. */
  lemma DeduplicationKeepsFaith(all: seq<Row>, ms: seq<Message>, cutoff: nat, pending: set<Id>, lost: set<Id>)
    requires Faithful(all, ms, pending, lost)
    ensures Faithful(all, Deduplicated(ms, cutoff), pending, lost)
  {
    hide Faithful, MayDie, Closed, Repetitions;
    RepetitionsAreClosed(ms, cutoff, lost);
    CuttingKeepsFaith(all, ms, {}, Repetitions(ms, cutoff), pending, lost);
  }
}
