/** The collection as it runs: an index pass, rewriting passes, pruning, and relief under pressure. */
module TranscriptGc {
  import opened Wrappers
  import opened TranscriptModel
  import opened TranscriptPromises
  import opened TranscriptStages
  import opened TranscriptContinuation
  import opened TranscriptPressure
  import opened TranscriptCollection

  // ----- The index pass ----------------------------------------------------------------------

  method FindLastUser(rows: seq<Row>) returns (last: int)
    ensures last == LastUser(rows, |rows|)
  {
    last := -1;
    for i := 0 to |rows|
      invariant last == LastUser(rows, i)
    {
      if rows[i].User? { last := i; }
    }
  }

  method RecordCalls(known: map<Id, Call>, calls: seq<Call>) returns (after: map<Id, Call>)
    ensures after == AddCalls(known, calls)
  {
    after := known;
    for k := 0 to |calls|
      invariant after == AddCalls(known, calls[..k])
    {
      assert calls[..k + 1][..k] == calls[..k];
      after := after[calls[k].id := calls[k]];
    }
    assert calls[..|calls|] == calls;
  }

  /** Where a result offers a decision: as a whole, or as the menu inside an execution. */
  datatype Place = Entire | InPost | InRecovery

  datatype Entry = Entry(decision: string, index: nat, place: Place)

  function OfferedIn(holder: Option<Holder>, i: nat, place: Place): seq<Entry> {
    if holder.Some? && holder.value.frame.Some? && holder.value.frame.value.decision.Some?
    then [Entry(holder.value.frame.value.decision.value, i, place)] else []
  }

  /** The decisions that row `i` offers, with their places. */
  function EntriesOf(row: Row, name: string, i: nat): seq<Entry> {
    if !row.Tool? || row.body.Raw? then []
    else if name == EXECUTE
    then OfferedIn(row.body.outcome.post, i, InPost) + OfferedIn(row.body.outcome.recovery, i, InRecovery)
    else if name in {"smac_decision", "smac_choices"} && row.body.outcome.decision.Some?
    then [Entry(row.body.outcome.decision.value, i, Entire)] else []
  }

  function EntriesUpTo(rows: seq<Row>, n: nat): seq<Entry>
    requires n <= |rows|
  {
    if n == 0 then [] else EntriesUpTo(rows, n - 1) + EntriesOf(rows[n - 1], NameAt(rows, n - 1), n - 1)
  }

  lemma IndexStep(rows: seq<Row>, i: nat, lastUser: int)
    requires i < |rows|
    ensures var ix, next, row := IndexUpTo(rows, i, lastUser), IndexUpTo(rows, i + 1, lastUser), rows[i];
      && next.calls == (if row.Assistant? then AddCalls(ix.calls, row.calls) else ix.calls)
      && next.pending == (if row.Assistant? && i >= lastUser then CallIds(row.calls) else ix.pending)
      && next.consumed == ix.consumed + ConsumedBy(row, ix.calls)
      && next.stateRows == ix.stateRows + (if NameAt(rows, i) in STATE_TOOLS then [i] else [])
      && NameAt(rows, i) == if row.Tool? then NameOf(ix.calls, row.id) else ""
    ensures EntriesUpTo(rows, i + 1) == EntriesUpTo(rows, i) + EntriesOf(rows[i], NameAt(rows, i), i)
  {
    hide AddCalls, CallIds, EntriesOf, ConsumedBy;
  }

  lemma NothingIndexed(rows: seq<Row>, lastUser: int)
    ensures IndexUpTo(rows, 0, lastUser) == Index(map[], {}, {}, []) && EntriesUpTo(rows, 0) == []
  {}

  method IndexPass(rows: seq<Row>, lastUser: int) returns (ix: Index, noted: seq<Row>, entries: seq<Entry>)
    ensures ix == IndexUpTo(rows, |rows|, lastUser) && noted == Opening(rows, lastUser)
    ensures entries == EntriesUpTo(rows, |rows|)
  {
    hide IndexUpTo, EntriesUpTo, AddCalls, CallIds, EntriesOf, NameAt, NameOf;
    ix, noted, entries := Index(map[], {}, {}, []), rows, [];
    NothingIndexed(rows, lastUser);
    for i := 0 to |rows|
      invariant ix == IndexUpTo(rows, i, lastUser) && entries == EntriesUpTo(rows, i)
      invariant |noted| == |rows|
      invariant forall k | 0 <= k < |rows| :: noted[k] == if k < i then Opened(rows[k], k, lastUser) else rows[k]
    {
      IndexStep(rows, i, lastUser);
      var name := "";
      match rows[i] {
        case System(_) =>
        case User(text) =>
          if i < lastUser && BOUNDARY <= text { noted := noted[i := User(NOTICE)]; }
        case Assistant(_, made) =>
          var calls := RecordCalls(ix.calls, made);
          ix := ix.(calls := calls, pending := if i >= lastUser then CallIds(made) else ix.pending);
        case Tool(id, _) =>
          name := NameOf(ix.calls, id);
          ix := ix.(consumed := ix.consumed + ConsumedBy(rows[i], ix.calls));
      }
      if name in STATE_TOOLS { ix := ix.(stateRows := ix.stateRows + [i]); }
      entries := entries + EntriesOf(rows[i], name, i);
    }
  }

  // ----- Rewriting passes --------------------------------------------------------------------

  predicate Offers(holder: Option<Holder>, decision: string) {
    holder.Some? && holder.value.frame.Some? && holder.value.frame.value.decision == Some(decision)
  }

  /** Row `i`, reached under this name, offers a decision in this place. */
  predicate Lists(row: Row, name: string, i: nat, e: Entry) {
    e.index == i && row.Tool? && row.body.Decoded?
    && match e.place
       case Entire => name in {"smac_decision", "smac_choices"} && row.body.outcome.decision == Some(e.decision)
       case InPost => name == EXECUTE && Offers(row.body.outcome.post, e.decision)
       case InRecovery => name == EXECUTE && Offers(row.body.outcome.recovery, e.decision)
  }

  lemma ListsTool(row: Row, name: string, i: nat, e: Entry)
    ensures Lists(row, name, i, e) ==> row.Tool? && row.body.Decoded? && e.index == i
  {}

  lemma EntriesOfAre(row: Row, name: string, i: nat, e: Entry)
    ensures e in EntriesOf(row, name, i) <==> Lists(row, name, i, e)
  {}

  lemma {:induction false} EntriesAre(rows: seq<Row>, n: nat, e: Entry)
    requires n <= |rows|
    ensures e in EntriesUpTo(rows, n) <==> e.index < n && Lists(rows[e.index], NameAt(rows, e.index), e.index, e)
  {
    hide NameAt, Lists, EntriesOf;
    if n == 0 {
    } else {
      EntriesAre(rows, n - 1, e);
      ListsTool(rows[n - 1], NameAt(rows, n - 1), n - 1, e);
      EntriesOfAre(rows[n - 1], NameAt(rows, n - 1), n - 1, e);
    }
  }

  function Unmenued(holder: Option<Holder>): Option<Holder> {
    if holder.Some? then Some(holder.value.(frame := Some(RETIRED_FRAME))) else None
  }

  /** One visit: a whole result becomes a marker, a menu inside an execution is emptied. */
  function Visit(row: Row, e: Entry): Row
    requires row.Tool? && row.body.Decoded?
  {
    var o := row.body.outcome;
    var next := if o.next.Some? && o.next.value.decision == Some(e.decision) then Some(RETIRED_GUIDANCE) else o.next;
    match e.place
    case Entire => row.(body := Decoded(Marker(true, true, Unmarked, ""), Plain))
    case InPost => row.(body := Decoded(o.(post := Unmenued(o.post), next := next), Plain))
    case InRecovery => row.(body := Decoded(o.(recovery := Unmenued(o.recovery), next := next), Plain))
  }

  predicate Seen(holder: Option<Holder>, i: nat, place: Place, seen: set<Entry>) {
    holder.Some? && holder.value.frame.Some? && holder.value.frame.value.decision.Some?
    && Entry(holder.value.frame.value.decision.value, i, place) in seen
  }

  predicate Guides(o: Outcome, holder: Option<Holder>) {
    && o.next.Some? && holder.Some? && holder.value.frame.Some?
    && o.next.value.decision == holder.value.frame.value.decision
  }

  /** Row `i` once the entries in `seen` were visited. */
  function AfterVisits(row: Row, name: string, i: nat, seen: set<Entry>): Row {
    if !row.Tool? || row.body.Raw? then row
    else
      var o := row.body.outcome;
      if name == EXECUTE then
        var post, recovery := Seen(o.post, i, InPost, seen), Seen(o.recovery, i, InRecovery, seen);
        if post || recovery then
          row.(body := Decoded(
            o.(post := if post then Unmenued(o.post) else o.post,
               recovery := if recovery then Unmenued(o.recovery) else o.recovery,
               next := if (post && Guides(o, o.post)) || (recovery && Guides(o, o.recovery)) then Some(RETIRED_GUIDANCE)
                       else o.next),
            Plain))
        else row
      else if name in {"smac_decision", "smac_choices"} && o.decision.Some?
              && Entry(o.decision.value, i, Entire) in seen
      then row.(body := Decoded(Marker(true, true, Unmarked, ""), Plain))
      else row
  }

  lemma OneMoreMenu(row: Row, i: nat, seen: set<Entry>, e: Entry)
    requires e.index == i && row.Tool? && row.body.Decoded?
    requires (e.place == InPost && Offers(row.body.outcome.post, e.decision))
             || (e.place == InRecovery && Offers(row.body.outcome.recovery, e.decision))
    ensures var r := AfterVisits(row, EXECUTE, i, seen);
      r.Tool? && r.id == row.id && r.body.Decoded? && Visit(r, e) == AfterVisits(row, EXECUTE, i, seen + {e})
  {
    var o, more := row.body.outcome, seen + {e};
    assert Seen(o.post, i, InPost, more) <==> Seen(o.post, i, InPost, seen) || e.place == InPost;
    assert Seen(o.recovery, i, InRecovery, more) <==> Seen(o.recovery, i, InRecovery, seen) || e.place == InRecovery;
    hide Seen;
  }

  /** One more visit, in whatever order. */
  lemma OneMoreVisit(row: Row, name: string, i: nat, seen: set<Entry>, e: Entry)
    requires Lists(row, name, i, e)
    ensures var r := AfterVisits(row, name, i, seen);
      r.Tool? && r.id == row.id && r.body.Decoded? && Visit(r, e) == AfterVisits(row, name, i, seen + {e})
  {
    if e.place == Entire {
      hide Seen, Guides, Offers;
    } else {
      hide AfterVisits, Visit, Offers;
      OneMoreMenu(row, i, seen, e);
    }
  }

  lemma OtherVisit(row: Row, name: string, i: nat, seen: set<Entry>, e: Entry)
    requires e.index != i
    ensures AfterVisits(row, name, i, seen + {e}) == AfterVisits(row, name, i, seen)
  {}

  predicate Visitable(rows: seq<Row>, e: Entry, pending: set<Id>) {
    e.index < |rows| && rows[e.index].Tool? && rows[e.index].id !in pending
  }

  /** The entries up to `n` that are visited for these decisions. */
  ghost predicate Due(rows: seq<Row>, entries: seq<Entry>, n: nat, decisions: set<string>, pending: set<Id>, e: Entry)
    requires n <= |entries|
  {
    e in entries[..n] && e.decision in decisions && Visitable(rows, e, pending)
  }

  /** The entry of row `i` in `seen` that retires all of it. */
  ghost predicate SeenEntire(seen: set<Entry>, i: nat) {
    exists d :: Entry(d, i, Entire) in seen
  }

  ghost predicate SeenAll(row: Row, name: string, i: nat, seen: set<Entry>, consumed: set<string>, pending: set<Id>,
                          e: Entry)
  {
    e in seen <==> Lists(row, name, i, e) && e.decision in consumed && row.Tool? && row.id !in pending
  }

  /** A row whose entries of consumed decisions were all visited is the retired one. */
  lemma VisitedIsRetired(row: Row, name: string, i: nat, seen: set<Entry>, consumed: set<string>, pending: set<Id>)
    requires forall e: Entry | e.index == i :: SeenAll(row, name, i, seen, consumed, pending, e)
    ensures AfterVisits(row, name, i, seen) == Retired(row, name, consumed, pending)
    ensures WhollyRetired(row, name, consumed, pending) <==> SeenEntire(seen, i)
  {
    forall d, place ensures SeenAll(row, name, i, seen, consumed, pending, Entry(d, i, place)) {
      assert Entry(d, i, place).index == i;
    }
  }

  /** The boundary notices left the results alone. */
  ghost predicate SameResults(rows: seq<Row>, all: seq<Row>) {
    |rows| == |all| && forall i | 0 <= i < |all| :: all[i].Tool? || rows[i].Tool? ==> rows[i] == all[i]
  }

  lemma AllVisited(rows: seq<Row>, all: seq<Row>, entries: seq<Entry>, seen: set<Entry>, ix: Index, i: nat)
    requires |rows| == |all| && entries == EntriesUpTo(all, |all|) && i < |rows| && SameResults(rows, all)
    requires forall e :: e in seen <==> Due(rows, entries, |entries|, ix.consumed, ix.pending, e)
    ensures AfterVisits(rows[i], NameAt(all, i), i, seen) == Retired(rows[i], NameAt(all, i), ix.consumed, ix.pending)
    ensures WhollyRetired(rows[i], NameAt(all, i), ix.consumed, ix.pending) <==> SeenEntire(seen, i)
  {
    hide NameAt, EntriesUpTo, AfterVisits, Retired, WhollyRetired, Lists, SeenEntire;
    assert entries[..|entries|] == entries;
    forall e: Entry | e.index == i ensures SeenAll(rows[i], NameAt(all, i), i, seen, ix.consumed, ix.pending, e) {
      EntriesAre(all, |all|, e);
      ListsTool(rows[i], NameAt(all, i), i, e);
      ListsTool(all[i], NameAt(all, i), i, e);
    }
    VisitedIsRetired(rows[i], NameAt(all, i), i, seen, ix.consumed, ix.pending);
  }

  /** The rows while entries are visited. */
  ghost predicate Visiting(rows: seq<Row>, all: seq<Row>, after: seq<Row>, whole: set<nat>, seen: set<Entry>)
    requires |rows| == |all|
  {
    && |after| == |rows|
    && (forall k | 0 <= k < |rows| :: after[k] == AfterVisits(rows[k], NameAt(all, k), k, seen))
    && (forall k :: k in whole <==> SeenEntire(seen, k))
  }

  lemma OneMoreEntire(seen: set<Entry>, e: Entry, k: nat)
    ensures SeenEntire(seen + {e}, k) <==> SeenEntire(seen, k) || (e.place == Entire && k == e.index)
  {
    if SeenEntire(seen, k) {
      var d :| Entry(d, k, Entire) in seen;
      assert Entry(d, k, Entire) in seen + {e};
    }
    if e.place == Entire && k == e.index { assert Entry(e.decision, k, Entire) == e; }
    if SeenEntire(seen + {e}, k) {
      var d :| Entry(d, k, Entire) in seen + {e};
    }
  }

  lemma VisitOne(rows: seq<Row>, all: seq<Row>, after: seq<Row>, whole: set<nat>, seen: set<Entry>, e: Entry)
    requires |rows| == |all| && Visiting(rows, all, after, whole, seen) && e.index < |rows|
    requires Lists(rows[e.index], NameAt(all, e.index), e.index, e)
    ensures after[e.index].Tool? && after[e.index].body.Decoded?
    ensures Visiting(rows, all, after[e.index := Visit(after[e.index], e)],
                     whole + if e.place == Entire then {e.index} else {}, seen + {e})
  {
    hide NameAt, Lists, Visit, AfterVisits, SeenEntire;
    var more := seen + {e};
    OneMoreVisit(rows[e.index], NameAt(all, e.index), e.index, seen, e);
    var next := after[e.index := Visit(after[e.index], e)];
    forall k | 0 <= k < |rows| ensures next[k] == AfterVisits(rows[k], NameAt(all, k), k, more) {
      if k != e.index { OtherVisit(rows[k], NameAt(all, k), k, seen, e); }
    }
    forall k: nat ensures SeenEntire(more, k) <==> SeenEntire(seen, k) || (e.place == Entire && k == e.index) {
      OneMoreEntire(seen, e, k);
    }
  }

  lemma VisitingLength(rows: seq<Row>, all: seq<Row>, after: seq<Row>, whole: set<nat>, seen: set<Entry>)
    requires |rows| == |all| && Visiting(rows, all, after, whole, seen)
    ensures |after| == |rows|
  {}

  /** Visits every entry of one decision. */
  method VisitDecision(rows: seq<Row>, entries: seq<Entry>, ix: Index, decision: string, before: seq<Row>,
                       held: set<nat>, ghost all: seq<Row>, ghost earlier: set<Entry>)
      returns (after: seq<Row>, whole: set<nat>, ghost seen: set<Entry>)
    requires |rows| == |all| && entries == EntriesUpTo(all, |all|) && SameResults(rows, all)
    requires Visiting(rows, all, before, held, earlier)
    ensures Visiting(rows, all, after, whole, seen)
    ensures forall e :: e in seen <==> e in earlier || Due(rows, entries, |entries|, {decision}, ix.pending, e)
  {
    hide NameAt, EntriesUpTo, Lists, Visit, Visiting;
    after, whole, seen := before, held, earlier;
    for n := 0 to |entries|
      invariant Visiting(rows, all, after, whole, seen)
      invariant forall e :: e in seen <==> e in earlier || Due(rows, entries, n, {decision}, ix.pending, e)
    {
      var e := entries[n];
      assert entries[..n + 1] == entries[..n] + [e];
      EntriesAre(all, |all|, e);
      ListsTool(all[e.index], NameAt(all, e.index), e.index, e);
      if e.decision == decision && rows[e.index].id !in ix.pending {
        VisitOne(rows, all, after, whole, seen, e);
        VisitingLength(rows, all, after, whole, seen);
        after := after[e.index := Visit(after[e.index], e)];
        whole := whole + if e.place == Entire then {e.index} else {};
        seen := seen + {e};
      }
    }
  }

  lemma EntireInRange(rows: seq<Row>, entries: seq<Entry>, seen: set<Entry>, ix: Index, i: nat)
    requires forall e :: e in seen <==> Due(rows, entries, |entries|, ix.consumed, ix.pending, e)
    requires SeenEntire(seen, i)
    ensures i < |rows|
  {
    var d :| Entry(d, i, Entire) in seen;
    assert Due(rows, entries, |entries|, ix.consumed, ix.pending, Entry(d, i, Entire));
  }

  lemma VisitedIsRetiring(rows: seq<Row>, all: seq<Row>, entries: seq<Entry>, after: seq<Row>, whole: set<nat>,
                          seen: set<Entry>, ix: Index)
    requires |rows| == |all| && entries == EntriesUpTo(all, |all|) && SameResults(rows, all)
    requires Visiting(rows, all, after, whole, seen)
    requires forall e :: e in seen <==> Due(rows, entries, |entries|, ix.consumed, ix.pending, e)
    ensures after == Retiring(all, rows, ix) && whole == Whole(all, rows, ix)
  {
    hide NameAt, EntriesUpTo, AfterVisits, Retired, WhollyRetired, SameResults, Due, SeenEntire;
    forall i | 0 <= i < |rows|
      ensures after[i] == Retired(rows[i], NameAt(all, i), ix.consumed, ix.pending)
      ensures i in whole <==> WhollyRetired(rows[i], NameAt(all, i), ix.consumed, ix.pending)
    {
      AllVisited(rows, all, entries, seen, ix, i);
    }
    forall i | i in whole ensures i < |rows| { EntireInRange(rows, entries, seen, ix, i); }
  }

  lemma NothingVisited(rows: seq<Row>, all: seq<Row>)
    requires |rows| == |all|
    ensures Visiting(rows, all, rows, {}, {})
  {
    hide NameAt;
  }

  /** Goes through the consumed decisions in any order, and for each through the places that offer it. */
  method RetireConsumed(rows: seq<Row>, entries: seq<Entry>, ix: Index, ghost all: seq<Row>)
      returns (after: seq<Row>, whole: set<nat>)
    requires |rows| == |all| && entries == EntriesUpTo(all, |all|) && SameResults(rows, all)
    ensures after == Retiring(all, rows, ix) && whole == Whole(all, rows, ix)
  {
    hide NameAt, EntriesUpTo, Visiting, SameResults, Visitable;
    after, whole := rows, {};
    var open := ix.consumed;
    ghost var done: set<string>, seen: set<Entry> := {}, {};
    NothingVisited(rows, all);
    while open != {}
      invariant open !! done && open + done == ix.consumed && Visiting(rows, all, after, whole, seen)
      invariant forall e :: e in seen <==> Due(rows, entries, |entries|, done, ix.pending, e)
      decreases |open|
    {
      var decision :| decision in open;
      open := open - {decision};
      after, whole, seen := VisitDecision(rows, entries, ix, decision, after, whole, all, seen);
      done := done + {decision};
    }
    assert done == ix.consumed;
    VisitedIsRetiring(rows, all, entries, after, whole, seen, ix);
  }

  method SupersedeFrames(rows: seq<Row>, whole: set<nat>, ix: Index, lastUser: int) returns (after: seq<Row>)
    requires forall k | 0 <= k < |ix.stateRows| :: ix.stateRows[k] < |rows| && rows[ix.stateRows[k]].Tool?
    ensures after == Superseding(rows, whole, ix, lastUser)
  {
    after := rows;
    var states := ix.stateRows;
    for k := 0 to |states|
      invariant |after| == |rows|
      invariant forall i | 0 <= i < |rows| ::
        after[i] == if i in states[..k] then Superseded(rows, whole, ix, i, lastUser) else rows[i]
    {
      var i := states[k];
      assert states[..k + 1] == states[..k] + [i];
      assert i in states;
      if !(i == states[|states| - 1] && i >= lastUser) && i !in whole && rows[i].id !in ix.pending {
        after := after[i := StaleMarker(rows[i])];
      }
    }
    assert states[..|states|] == states;
  }

  function Signature(ix: Index, row: Row): (string, Args)
    requires IsQuery(ix, row)
  {
    (ix.calls[row.id].name, ix.calls[row.id].args)
  }

  /** A query result that was not retired with its menu. */
  predicate LiveQuery(rows: seq<Row>, whole: set<nat>, ix: Index, i: nat)
    requires i < |rows|
  {
    i !in whole && IsQuery(ix, rows[i])
  }

  /** For each signature the position of its newest query below `n`. */
  ghost predicate NewestQueries(rows: seq<Row>, whole: set<nat>, ix: Index, n: nat, newest: map<(string, Args), nat>)
    requires n <= |rows|
  {
    && (forall i | 0 <= i < n && LiveQuery(rows, whole, ix, i) ::
          Signature(ix, rows[i]) in newest && i <= newest[Signature(ix, rows[i])])
    && (forall s | s in newest ::
          newest[s] < n && LiveQuery(rows, whole, ix, newest[s]) && Signature(ix, rows[newest[s]]) == s)
  }

  ghost predicate Overtaken(rows: seq<Row>, whole: set<nat>, ix: Index, newest: map<(string, Args), nat>, i: nat)
    requires i < |rows|
  {
    LiveQuery(rows, whole, ix, i) && Signature(ix, rows[i]) in newest && i < newest[Signature(ix, rows[i])]
  }

  ghost function Overwritten(rows: seq<Row>, whole: set<nat>, ix: Index, newest: map<(string, Args), nat>, i: nat): Row
    requires i < |rows|
  {
    if Overtaken(rows, whole, ix, newest, i) && rows[i].id !in ix.pending then QueryMarker(rows[i]) else rows[i]
  }

  lemma NewestDecides(rows: seq<Row>, whole: set<nat>, ix: Index, newest: map<(string, Args), nat>, i: nat)
    requires NewestQueries(rows, whole, ix, |rows|, newest) && i < |rows|
    ensures Overwritten(rows, whole, ix, newest, i) == Collapsed(rows, whole, ix, i)
  {
    if LiveQuery(rows, whole, ix, i) {
      var n := newest[Signature(ix, rows[i])];
      assert i < n ==> SameQuery(ix, rows[i], rows[n]);
      if Requeried(rows, whole, ix, i) {
        var k :| i < k < |rows| && k !in whole && SameQuery(ix, rows[i], rows[k]);
        assert LiveQuery(rows, whole, ix, k) && Signature(ix, rows[k]) == Signature(ix, rows[i]);
      }
    }
  }

  /** A new query overtakes exactly the one that was newest of its kind. */
  lemma QueryTakesOver(rows: seq<Row>, whole: set<nat>, ix: Index, newest: map<(string, Args), nat>, n: nat)
    requires n < |rows| && NewestQueries(rows, whole, ix, n, newest) && LiveQuery(rows, whole, ix, n)
    ensures var s := Signature(ix, rows[n]);
      && NewestQueries(rows, whole, ix, n + 1, newest[s := n])
      && forall i | 0 <= i < |rows| :: Overtaken(rows, whole, ix, newest[s := n], i) <==>
           Overtaken(rows, whole, ix, newest, i) || (s in newest && i == newest[s])
  {
    var s := Signature(ix, rows[n]);
    forall i | 0 <= i < |rows|
      ensures Overtaken(rows, whole, ix, newest[s := n], i) <==>
        Overtaken(rows, whole, ix, newest, i) || (s in newest && i == newest[s])
    {
    }
  }

  method CollapseQueries(rows: seq<Row>, whole: set<nat>, ix: Index) returns (after: seq<Row>)
    ensures after == Collapsing(rows, whole, ix)
  {
    after := rows;
    var newest: map<(string, Args), nat> := map[];
    for n := 0 to |rows|
      invariant |after| == |rows| && NewestQueries(rows, whole, ix, n, newest)
      invariant forall i | 0 <= i < |rows| :: after[i] == Overwritten(rows, whole, ix, newest, i)
    {
      if LiveQuery(rows, whole, ix, n) {
        var s := Signature(ix, rows[n]);
        if s in newest && rows[newest[s]].id !in ix.pending {
          after := after[newest[s] := QueryMarker(rows[newest[s]])];
        }
        QueryTakesOver(rows, whole, ix, newest, n);
        newest := newest[s := n];
      }
    }
    forall i | 0 <= i < |rows| ensures after[i] == Collapsed(rows, whole, ix, i) {
      NewestDecides(rows, whole, ix, newest, i);
    }
  }

  // ----- Continuation ------------------------------------------------------------------------

  method FindCutoff(rows: seq<Row>) returns (cutoff: nat)
    ensures cutoff == Cutoff(rows)
  {
    var users: seq<nat> := [];
    for i := 0 to |rows|
      invariant users == UserRows(rows, i)
    {
      if rows[i].User? { users := users + [i]; }
    }
    cutoff := if |users| > 1 then users[|users| - 2] else 0;
  }

  method CompactReceipts(rows: seq<Row>, ix: Index, lastUser: int) returns (after: seq<Row>)
    ensures after == Compacting(rows, ix, lastUser)
  {
    after := rows;
    for i := 0 to |rows|
      invariant |after| == |rows|
      invariant forall k | 0 <= k < |rows| ::
        after[k] == if k < i then Compacted(rows[k], ix.calls, ix.pending, k < lastUser) else rows[k]
    {
      after := after[i := Compacted(rows[i], ix.calls, ix.pending, i < lastUser)];
    }
  }

  /** The ids whose pairs are settled and old. */
  method FindRemovable(rows: seq<Row>, calls: map<Id, Call>, lastUser: int) returns (gone: set<Id>)
    requires lastUser <= |rows|
    ensures gone == Removable(rows, Before(lastUser), Results(rows, |rows|), calls)
  {
    var results: map<Id, Body> := map[];
    for i := 0 to |rows|
      invariant results == Results(rows, i)
    {
      if rows[i].Tool? { results := results[rows[i].id := rows[i].body]; }
    }
    gone := {};
    for i := 0 to Before(lastUser)
      invariant gone == Removable(rows, i, results, calls)
    {
      gone := gone + SettledIn(rows[i], results, calls);
    }
  }

  method PrunePairs(rows: seq<Row>, gone: set<Id>) returns (kept: seq<Message>, slim: seq<Row>)
    ensures kept == Pruned(rows, gone)
    ensures slim == seq(|rows|, i requires 0 <= i < |rows| => Slim(rows[i], gone))
  {
    kept, slim := [], [];
    ghost var ms := Tagged(rows);
    for i := 0 to |rows|
      invariant kept == Cut(ms, i, gone, Vanishing(rows, gone))
      invariant |slim| == i && forall k | 0 <= k < i :: slim[k] == Slim(rows[k], gone)
    {
      var row := Slim(rows[i], gone);
      slim := slim + [row];
      assert i in Vanishing(rows, gone) <==> Vanishes(rows[i], gone);
      if !Vanishes(rows[i], gone) { kept := kept + [Message(i, row)]; }
    }
  }

  /** From the newest row backwards, old prose that was already seen is left out. */
  method DropRepeatedProse(ms: seq<Message>, cutoff: nat) returns (kept: seq<Message>)
    ensures kept == Deduplicated(ms, cutoff)
  {
    ghost var dead := Repetitions(ms, cutoff);
    var seen: set<string> := {};
    kept := [];
    var k := |ms|;
    while k > 0
      invariant 0 <= k <= |ms| && Dropped(ms, |ms|, dead) == Dropped(ms, k, dead) + kept
      invariant forall text :: text in seen <==>
        exists l | k <= l < |ms| :: OldProse(ms[l], cutoff) && ms[l].row.text == text
    {
      k := k - 1;
      var m := ms[k];
      if OldProse(m, cutoff) && m.row.text in seen {
        assert k in dead;
      } else {
        assert k !in dead;
        assert Dropped(ms, k, dead) + [m] + kept == Dropped(ms, k, dead) + ([m] + kept);
        if OldProse(m, cutoff) { seen := seen + {m.row.text}; }
        kept := [m] + kept;
      }
    }
    NothingSlimmed(ms, |ms|, {}, dead);
  }

  method PreserveContinuation(rows: seq<Row>, ix: Index, lastUser: int, size: seq<Row> -> nat)
      returns (kept: seq<Message>)
    requires lastUser <= |rows|
    ensures kept == Continued(Compacting(rows, ix, lastUser), ix.calls, lastUser, size)
  {
    var compacted := CompactReceipts(rows, ix, lastUser);
    var gone := FindRemovable(compacted, ix.calls, lastUser);
    var slim;
    kept, slim := PrunePairs(compacted, gone);
    if size(slim) > PROSE_THRESHOLD {
      var cutoff := FindCutoff(compacted);
      kept := DropRepeatedProse(kept, cutoff);
    }
  }

  // ----- Relief under pressure ---------------------------------------------------------------

  method JournalCognition(ms: seq<Message>, calls: map<Id, Call>, pending: set<Id>) returns (after: seq<Message>)
    ensures after == Journaling(ms, calls, pending)
  {
    after := ms;
    var later, k := 0, |ms|;
    while k > 0
      invariant 0 <= k <= |ms| && later == Later(ms, k, calls, COGNITION_TOOLS) && |after| == |ms|
      invariant forall i | 0 <= i < |ms| :: after[i] == if i < k then ms[i] else JournaledAt(ms, i, calls, pending)
    {
      k := k - 1;
      if later >= RECENT_COGNITION { after := after[k := Journaled(ms[k], calls, pending)]; }
      if Named(ms[k], calls, COGNITION_TOOLS) { later := later + 1; }
    }
  }

  method EvictQueries(ms: seq<Message>, calls: map<Id, Call>, pending: set<Id>) returns (after: seq<Message>)
    ensures after == Evicting(ms, calls, pending)
  {
    after := ms;
    var later, k := 0, |ms|;
    while k > 0
      invariant 0 <= k <= |ms| && later == Later(ms, k, calls, QUERY_TOOLS) && |after| == |ms|
      invariant forall i | 0 <= i < |ms| :: after[i] == if i < k then ms[i] else EvictedAt(ms, i, calls, pending)
    {
      k := k - 1;
      if later >= 1 { after := after[k := EvictedQuery(ms[k], calls, pending)]; }
      if Named(ms[k], calls, QUERY_TOOLS) { later := later + 1; }
    }
  }

  method FindToolRows(ms: seq<Message>) returns (rows: map<Id, nat>)
    ensures rows == ToolRows(ms, |ms|)
  {
    rows := map[];
    for i := 0 to |ms|
      invariant rows == ToolRows(ms, i)
    {
      if ms[i].row.Tool? { rows := rows[ms[i].row.id := i]; }
    }
  }

  method FindGroups(ms: seq<Message>, calls: map<Id, Call>, rows: map<Id, nat>) returns (groups: seq<nat>)
    requires rows == ToolRows(ms, |ms|)
    ensures groups == Groups(ms, calls, |ms|)
  {
    hide ToolRows, Spent;
    groups := [];
    for i := 0 to |ms|
      invariant groups == Groups(ms, calls, i)
    {
      var row := ms[i].row;
      if row.Assistant? && row.calls != [] && row.text == "" {
        if forall id | id in Ids(row) ::
             NameOf(calls, id) in DISPOSABLE_TOOLS && id in rows && Spent(ms[rows[id]].row.body)
        {
          groups := groups + [i];
        }
      }
    }
  }

  /** The rows of all old disposable groups but the newest `keep`. */
  method CollectOldDisposablePairs(ms: seq<Message>, calls: map<Id, Call>, keep: nat) returns (removed: set<nat>)
    ensures removed == Removed(ms, Groups(ms, calls, |ms|), Expired(|Groups(ms, calls, |ms|)|, keep))
  {
    hide Disposable, ToolRows, Groups;
    var rows := FindToolRows(ms);
    var groups := FindGroups(ms, calls, rows);
    removed := {};
    for g := 0 to Expired(|groups|, keep)
      invariant removed == Removed(ms, groups, g)
    {
      removed := removed + GroupRows(ms, rows, groups[g]);
    }
  }

  method DropRows(ms: seq<Message>, dead: set<nat>) returns (kept: seq<Message>)
    ensures kept == Dropped(ms, |ms|, dead)
  {
    kept := [];
    for i := 0 to |ms|
      invariant kept == Dropped(ms, i, dead)
    {
      if i !in dead { kept := kept + [ms[i]]; }
    }
  }

  method Relieve(ms: seq<Message>, ix: Index, b: Budget) returns (kept: seq<Message>)
    ensures kept == Relieved(ms, ix.calls, ix.pending, b)
  {
    var journaled := JournalCognition(ms, ix.calls, ix.pending);
    var evicted := EvictQueries(journaled, ix.calls, ix.pending);
    var removed := CollectOldDisposablePairs(evicted, ix.calls, KEEP);
    kept := DropRows(evicted, removed);
    if b.tokens(RowsOf(kept)) > b.target {
      removed := CollectOldDisposablePairs(kept, ix.calls, KEEP_UNDER_PRESSURE);
      kept := DropRows(kept, removed);
    }
  }

  // ----- The whole pass ----------------------------------------------------------------------

  lemma StateRowsAreResults(all: seq<Row>, rows: seq<Row>, ix: Index, lastUser: int)
    requires |rows| == |all| && ix == IndexUpTo(all, |all|, lastUser)
    requires forall i | 0 <= i < |all| :: all[i].Tool? ==> rows[i].Tool?
    ensures forall k | 0 <= k < |ix.stateRows| :: ix.stateRows[k] < |rows| && rows[ix.stateRows[k]].Tool?
  {
    forall k | 0 <= k < |ix.stateRows| ensures ix.stateRows[k] < |rows| && rows[ix.stateRows[k]].Tool? {
      StateRowsAreState(all, |all|, ix.stateRows[k]);
    }
  }

  lemma ResultsNoted(rows: seq<Row>, lastUser: int)
    ensures SameResults(Opening(rows, lastUser), rows)
  {}

  lemma KindsStay(all: seq<Row>, noted: seq<Row>, retired: seq<Row>, ix: Index, lastUser: int)
    requires noted == Opening(all, lastUser) && retired == Retiring(all, noted, ix)
    ensures |retired| == |all| && forall i | 0 <= i < |all| :: all[i].Tool? ==> retired[i].Tool?
  {}

  lemma Lengths(all: seq<Row>, noted: seq<Row>, retired: seq<Row>, superseded: seq<Row>, collapsed: seq<Row>,
                whole: set<nat>, ix: Index, lastUser: int)
    requires noted == Opening(all, lastUser) && retired == Retiring(all, noted, ix)
    requires superseded == Superseding(retired, whole, ix, lastUser) && collapsed == Collapsing(superseded, whole, ix)
    ensures |collapsed| == |all|
  {}

  /** What is sent is within the ceiling, and keeps every promise if the transcript was paired. */
  method CompactManagedContext(rows: seq<Row>, b: Budget) returns (r: Result<seq<Message>, BudgetError>)
    ensures r == Collected(rows, b)
    ensures r.Ok? ==> b.tokens(RowsOf(r.value)) <= b.ceiling
    ensures r.Ok? && Paired(Tagged(rows)) ==> Keeps(rows, b, r.value)
  {
    hide Keeps, Paired, Continued, Relieved, Opened, Retired, Retiring, Superseding, Collapsing, Compacting;
    var lastUser := FindLastUser(rows);
    var ix, noted, entries := IndexPass(rows, lastUser);
    ResultsNoted(rows, lastUser);
    var retired, whole := RetireConsumed(noted, entries, ix, rows);
    KindsStay(rows, noted, retired, ix, lastUser);
    StateRowsAreResults(rows, retired, ix, lastUser);
    var superseded := SupersedeFrames(retired, whole, ix, lastUser);
    var collapsed := CollapseQueries(superseded, whole, ix);
    Lengths(rows, noted, retired, superseded, collapsed, whole, ix, lastUser);
    var kept := PreserveContinuation(collapsed, ix, lastUser, b.size);
    if Paired(Tagged(rows)) && Collected(rows, b).Ok? { CollectionIsFaithful(rows, b); }
    if b.tokens(RowsOf(kept)) > b.ceiling {
      kept := Relieve(kept, ix, b);
      if b.tokens(RowsOf(kept)) > b.ceiling { return Err(ContextBudgetExhausted); }
    }
    r := Ok(kept);
  }
}
