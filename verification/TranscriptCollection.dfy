/** The whole collection as a function of the transcript, and the proof that it keeps its promises. */
module TranscriptCollection {
  import opened Wrappers
  import opened TranscriptModel
  import opened TranscriptPromises
  import opened TranscriptStages
  import opened TranscriptContinuation
  import opened TranscriptPressure

  datatype BudgetError = ContextBudgetExhausted

  /** How large rows are on the wire, and the token limits of the model. */
  datatype Budget = Budget(size: seq<Row> -> nat, tokens: seq<Row> -> nat, ceiling: nat, target: nat)

  const KEEP := 24
  const KEEP_UNDER_PRESSURE := 8

  function RowsOf(ms: seq<Message>): seq<Row> {
    seq(|ms|, k requires 0 <= k < |ms| => ms[k].row)
  }

  ghost function Opening(rows: seq<Row>, lastUser: int): seq<Row> {
    seq(|rows|, i requires 0 <= i < |rows| => Opened(rows[i], i, lastUser))
  }

  ghost function Retiring(all: seq<Row>, rows: seq<Row>, ix: Index): seq<Row>
    requires |rows| == |all|
  {
    seq(|rows|, i requires 0 <= i < |rows| => Retired(rows[i], NameAt(all, i), ix.consumed, ix.pending))
  }

  ghost function Whole(all: seq<Row>, rows: seq<Row>, ix: Index): set<nat>
    requires |rows| == |all|
  {
    set i | 0 <= i < |rows| && WhollyRetired(rows[i], NameAt(all, i), ix.consumed, ix.pending)
  }

  ghost function Superseding(rows: seq<Row>, whole: set<nat>, ix: Index, lastUser: int): seq<Row> {
    seq(|rows|, i requires 0 <= i < |rows| => Superseded(rows, whole, ix, i, lastUser))
  }

  ghost function Collapsing(rows: seq<Row>, whole: set<nat>, ix: Index): seq<Row> {
    seq(|rows|, i requires 0 <= i < |rows| => Collapsed(rows, whole, ix, i))
  }

  ghost function Compacting(rows: seq<Row>, ix: Index, lastUser: int): seq<Row> {
    seq(|rows|, i requires 0 <= i < |rows| => Compacted(rows[i], ix.calls, ix.pending, i < lastUser))
  }

  /** The transcript after the stages that only rewrite results. */
  ghost function Rewritten(rows: seq<Row>): (r: seq<Row>)
    ensures |r| == |rows|
  {
    var lastUser := LastUser(rows, |rows|);
    var ix := IndexUpTo(rows, |rows|, lastUser);
    var noted := Opening(rows, lastUser);
    var whole := Whole(rows, noted, ix);
    Compacting(Collapsing(Superseding(Retiring(rows, noted, ix), whole, ix, lastUser), whole, ix), ix, lastUser)
  }

  function Before(lastUser: int): nat {
    if lastUser > 0 then lastUser else 0
  }

  ghost function Continued(rows: seq<Row>, calls: map<Id, Call>, lastUser: int, size: seq<Row> -> nat): seq<Message>
    requires lastUser <= |rows|
  {
    var gone := Removable(rows, Before(lastUser), Results(rows, |rows|), calls);
    var pruned := Pruned(rows, gone);
    if size(seq(|rows|, i requires 0 <= i < |rows| => Slim(rows[i], gone))) > PROSE_THRESHOLD
    then Deduplicated(pruned, Cutoff(rows)) else pruned
  }

  ghost function Journaling(ms: seq<Message>, calls: map<Id, Call>, pending: set<Id>): seq<Message> {
    seq(|ms|, k requires 0 <= k < |ms| => JournaledAt(ms, k, calls, pending))
  }

  ghost function Evicting(ms: seq<Message>, calls: map<Id, Call>, pending: set<Id>): seq<Message> {
    seq(|ms|, k requires 0 <= k < |ms| => EvictedAt(ms, k, calls, pending))
  }

  /** Rows dropped by position. */
  ghost function Dropped(ms: seq<Message>, n: nat, dead: set<nat>): seq<Message>
    requires n <= |ms|
  {
    if n == 0 then [] else Dropped(ms, n - 1, dead) + if n - 1 in dead then [] else [ms[n - 1]]
  }

  ghost function DroppedGroups(ms: seq<Message>, calls: map<Id, Call>, keep: nat): seq<Message> {
    var groups := Groups(ms, calls, |ms|);
    Dropped(ms, |ms|, Removed(ms, groups, Expired(|groups|, keep)))
  }

  ghost function Relieved(ms: seq<Message>, calls: map<Id, Call>, pending: set<Id>, b: Budget): seq<Message> {
    var first := DroppedGroups(Evicting(Journaling(ms, calls, pending), calls, pending), calls, KEEP);
    if b.tokens(RowsOf(first)) > b.target then DroppedGroups(first, calls, KEEP_UNDER_PRESSURE) else first
  }

  ghost function IndexOf(rows: seq<Row>): Index {
    IndexUpTo(rows, |rows|, LastUser(rows, |rows|))
  }

  /** What is left when nothing presses. */
  ghost function Remainder(rows: seq<Row>, size: seq<Row> -> nat): seq<Message> {
    Continued(Rewritten(rows), IndexOf(rows).calls, LastUser(rows, |rows|), size)
  }

  /** What is sent of a remainder within the budget. */
  ghost function Sent(ms: seq<Message>, ix: Index, b: Budget): Result<seq<Message>, BudgetError> {
    if b.tokens(RowsOf(ms)) <= b.ceiling then Ok(ms)
    else
      var relieved := Relieved(ms, ix.calls, ix.pending, b);
      if b.tokens(RowsOf(relieved)) > b.ceiling then Err(ContextBudgetExhausted) else Ok(relieved)
  }

  /** What goes to the provider. */
  ghost function Collected(rows: seq<Row>, b: Budget): Result<seq<Message>, BudgetError> {
    Sent(Remainder(rows, b.size), IndexOf(rows), b)
  }

  // ----- What is not promised ----------------------------------------------------------------

  /** The result of row `i` is replaced by a marker: it is a state frame that is not the newest, the menu of
      a consumed decision, or a query that was asked again. */
  ghost predicate Replaced(rows: seq<Row>, i: nat)
    requires i < |rows|
  {
    var ix := IndexOf(rows);
    && rows[i].Tool? && rows[i].id !in ix.pending
    && (Stale(ix, i, LastUser(rows, |rows|))
        || WhollyRetired(rows[i], NameAt(rows, i), ix.consumed, ix.pending)
        || (IsQuery(ix, rows[i]) && Requeried(rows, Whole(rows, rows, ix), ix, i)))
  }

  ghost function Marked(rows: seq<Row>): set<Id> {
    set i | 0 <= i < |rows| && Replaced(rows, i) :: rows[i].id
  }

  /** Relief replaces the result of message `k`: a successful query that is not the newest, or a successful
      durable write with four cognition results behind it. */
  ghost predicate Yields(ms: seq<Message>, k: nat, ix: Index)
    requires k < |ms|
  {
    && ms[k].row.Tool? && ms[k].row.id !in ix.pending && ms[k].row.body.Decoded? && ms[k].row.body.outcome.ok
    && ((Named(ms[k], ix.calls, QUERY_TOOLS) && Later(ms, k + 1, ix.calls, QUERY_TOOLS) >= 1)
        || (Named(ms[k], ix.calls, COGNITION_TOOLS) && DurableWrite(ix.calls, ms[k].row.id)
            && ms[k].row.body.envelope == Plain && Later(ms, k + 1, ix.calls, COGNITION_TOOLS) >= RECENT_COGNITION))
  }

  ghost function Pressed(ms: seq<Message>, ix: Index): set<Id> {
    set k | 0 <= k < |ms| && Yields(ms, k, ix) :: ms[k].row.id
  }

  ghost predicate Over(rows: seq<Row>, b: Budget) {
    b.tokens(RowsOf(Remainder(rows, b.size))) > b.ceiling
  }

  /** The results of which nothing is promised. */
  ghost function Lost(rows: seq<Row>, b: Budget): set<Id> {
    Marked(rows) + if Over(rows, b) then Pressed(Remainder(rows, b.size), IndexOf(rows)) else {}
  }

  /** The menus retired are those of result rows, which the boundary notices leave alone. */
  lemma WholeAlike(rows: seq<Row>, ix: Index, lastUser: int)
    ensures Whole(rows, Opening(rows, lastUser), ix) == Whole(rows, rows, ix)
  {}

  ghost predicate SameTools(rows: seq<Row>, after: seq<Row>) {
    |rows| == |after|
    && forall k | 0 <= k < |rows| ::
         (rows[k].Tool? <==> after[k].Tool?) && (rows[k].Tool? ==> rows[k].id == after[k].id)
  }

  lemma RequeriedAlike(rows: seq<Row>, after: seq<Row>, whole: set<nat>, ix: Index, i: nat)
    requires |rows| == |after| && i < |rows| && SameTools(rows, after)
    ensures Requeried(rows, whole, ix, i) <==> Requeried(after, whole, ix, i)
    ensures IsQuery(ix, rows[i]) <==> IsQuery(ix, after[i])
  {
    if Requeried(rows, whole, ix, i) {
      var k :| i < k < |rows| && k !in whole && SameQuery(ix, rows[i], rows[k]);
      assert SameQuery(ix, after[i], after[k]);
    }
    if Requeried(after, whole, ix, i) {
      var k :| i < k < |rows| && k !in whole && SameQuery(ix, after[i], after[k]);
      assert SameQuery(ix, rows[i], rows[k]);
    }
  }

  // ----- The promises, stage by stage --------------------------------------------------------

  ghost predicate FaithfulRows(all: seq<Row>, rows: seq<Row>, ix: Index, lost: set<Id>) {
    |rows| == |all| && Faithful(all, Tagged(rows), ix.pending, lost)
  }

  ghost predicate FaithfulTo(all: seq<Row>, ms: seq<Message>, ix: Index, lost: set<Id>) {
    Faithful(all, ms, ix.pending, lost)
  }

  lemma RecastRows(all: seq<Row>, rows: seq<Row>, after: seq<Row>, ix: Index, lost: set<Id>)
    requires FaithfulRows(all, rows, ix, lost) && |after| == |rows|
    requires forall i | 0 <= i < |rows| :: Recast(Message(i, rows[i]), Message(i, after[i]), ix.pending, lost)
    ensures FaithfulRows(all, after, ix, lost)
  {
    hide Faithful, Recast;
    forall i | 0 <= i < |rows| ensures Recast(Tagged(rows)[i], Tagged(after)[i], ix.pending, lost) {
      assert Recast(Message(i, rows[i]), Message(i, after[i]), ix.pending, lost);
    }
    RecastingKeepsFaith(all, Tagged(rows), Tagged(after), ix.pending, lost);
  }

  /** Rows keep their kind and id through the rewriting stages. */
  lemma ToolsStay(all: seq<Row>, rows: seq<Row>, ix: Index, lost: set<Id>)
    requires FaithfulRows(all, rows, ix, lost)
    ensures SameTools(all, rows)
  {
    forall i | 0 <= i < |rows|
      ensures (rows[i].Tool? <==> all[i].Tool?) && (rows[i].Tool? ==> rows[i].id == all[i].id)
    {
      assert Inherits(all, Tagged(rows)[i], ix.pending, lost);
    }
  }

  lemma OpeningKeepsFaith(all: seq<Row>, ix: Index, lastUser: int, lost: set<Id>)
    requires FaithfulRows(all, all, ix, lost)
    ensures FaithfulRows(all, Opening(all, lastUser), ix, lost)
  {
    hide Recast, FaithfulRows, Opened;
    forall i | 0 <= i < |all|
      ensures Recast(Message(i, all[i]), Message(i, Opening(all, lastUser)[i]), ix.pending, lost)
    {
      OpenedIsRecast(all[i], i, lastUser, ix.pending, lost);
    }
    RecastRows(all, all, Opening(all, lastUser), ix, lost);
  }

  lemma RetiringKeepsFaith(all: seq<Row>, rows: seq<Row>, ix: Index, lost: set<Id>)
    requires FaithfulRows(all, rows, ix, lost) && |rows| == |all|
    requires forall i | 0 <= i < |rows| && WhollyRetired(rows[i], NameAt(all, i), ix.consumed, ix.pending) ::
      rows[i].id in lost
    ensures FaithfulRows(all, Retiring(all, rows, ix), ix, lost)
  {
    hide Recast, FaithfulRows, NameAt, Retired, WhollyRetired;
    forall i | 0 <= i < |rows|
      ensures Recast(Message(i, rows[i]), Message(i, Retiring(all, rows, ix)[i]), ix.pending, lost)
    {
      RetiredIsRecast(rows[i], i, NameAt(all, i), ix.consumed, ix.pending, lost);
    }
    RecastRows(all, rows, Retiring(all, rows, ix), ix, lost);
  }

  lemma SupersedingKeepsFaith(all: seq<Row>, rows: seq<Row>, whole: set<nat>, ix: Index, lastUser: int, lost: set<Id>)
    requires FaithfulRows(all, rows, ix, lost)
    requires forall i | 0 <= i < |rows| && rows[i].Tool? && rows[i].id !in ix.pending && Stale(ix, i, lastUser) ::
      rows[i].id in lost
    ensures FaithfulRows(all, Superseding(rows, whole, ix, lastUser), ix, lost)
  {
    hide Recast, FaithfulRows, Stale;
    forall i | 0 <= i < |rows|
      ensures Recast(Message(i, rows[i]), Message(i, Superseding(rows, whole, ix, lastUser)[i]), ix.pending, lost)
    {
      SameIsRecast(Message(i, rows[i]), ix.pending, lost);
      if Stale(ix, i, lastUser) && rows[i].Tool? && rows[i].id !in ix.pending {
        LostIsRecast(rows[i], i, StaleMarker(rows[i]).body, ix.pending, lost);
      }
    }
    RecastRows(all, rows, Superseding(rows, whole, ix, lastUser), ix, lost);
  }

  lemma CollapsingKeepsFaith(all: seq<Row>, rows: seq<Row>, whole: set<nat>, ix: Index, lost: set<Id>)
    requires FaithfulRows(all, rows, ix, lost)
    requires forall i | 0 <= i < |rows| && IsQuery(ix, rows[i]) && rows[i].id !in ix.pending
                        && Requeried(rows, whole, ix, i) :: rows[i].id in lost
    ensures FaithfulRows(all, Collapsing(rows, whole, ix), ix, lost)
  {
    hide Recast, FaithfulRows, Requeried;
    forall i | 0 <= i < |rows|
      ensures Recast(Message(i, rows[i]), Message(i, Collapsing(rows, whole, ix)[i]), ix.pending, lost)
    {
      SameIsRecast(Message(i, rows[i]), ix.pending, lost);
      if IsQuery(ix, rows[i]) && rows[i].id !in ix.pending && Requeried(rows, whole, ix, i) {
        LostIsRecast(rows[i], i, QueryMarker(rows[i]).body, ix.pending, lost);
      }
    }
    RecastRows(all, rows, Collapsing(rows, whole, ix), ix, lost);
  }

  lemma CompactingKeepsFaith(all: seq<Row>, rows: seq<Row>, ix: Index, lastUser: int, lost: set<Id>)
    requires FaithfulRows(all, rows, ix, lost)
    ensures FaithfulRows(all, Compacting(rows, ix, lastUser), ix, lost)
  {
    hide Recast, FaithfulRows, Compacted;
    forall i | 0 <= i < |rows|
      ensures Recast(Message(i, rows[i]), Message(i, Compacting(rows, ix, lastUser)[i]), ix.pending, lost)
    {
      CompactedIsRecast(rows[i], i, ix.calls, ix.pending, i < lastUser, lost);
    }
    RecastRows(all, rows, Compacting(rows, ix, lastUser), ix, lost);
  }

  /** What is marked among rows that only differ in their contents. */
  lemma MarkedStages(rows: seq<Row>, after: seq<Row>, lost: set<Id>, i: nat)
    requires Marked(rows) <= lost && SameTools(rows, after) && i < |rows| && after[i].Tool?
    ensures var ix, whole := IndexOf(rows), Whole(rows, rows, IndexOf(rows));
      after[i].id !in ix.pending ==>
        && (Stale(ix, i, LastUser(rows, |rows|)) ==> after[i].id in lost)
        && (WhollyRetired(rows[i], NameAt(rows, i), ix.consumed, ix.pending) ==> after[i].id in lost)
        && (IsQuery(ix, after[i]) && Requeried(after, whole, ix, i) ==> after[i].id in lost)
  {
    hide Stale, WhollyRetired, Requeried, NameAt, IndexOf, LastUser, Whole;
    RequeriedAlike(rows, after, Whole(rows, rows, IndexOf(rows)), IndexOf(rows), i);
    if Replaced(rows, i) { assert rows[i].id in Marked(rows); }
  }

  lemma OpenedTool(rows: seq<Row>, lastUser: int, i: nat)
    requires i < |rows|
    ensures Opening(rows, lastUser)[i].Tool? ==> Opening(rows, lastUser)[i] == rows[i]
  {}

  lemma MarkedNoted(rows: seq<Row>, noted: seq<Row>, ix: Index, lastUser: int, lost: set<Id>)
    requires Marked(rows) <= lost && ix == IndexOf(rows) && lastUser == LastUser(rows, |rows|)
    requires noted == Opening(rows, lastUser)
    ensures |noted| == |rows|
    ensures forall i | 0 <= i < |noted| && WhollyRetired(noted[i], NameAt(rows, i), ix.consumed, ix.pending) ::
      noted[i].id in lost
  {
    hide NameAt, IndexOf, Stale, Requeried, Marked, Whole;
    forall i | 0 <= i < |noted| && WhollyRetired(noted[i], NameAt(rows, i), ix.consumed, ix.pending)
      ensures noted[i].id in lost
    {
      OpenedTool(rows, lastUser, i);
      MarkedStages(rows, rows, lost, i);
    }
  }

  lemma MarkedLater(rows: seq<Row>, after: seq<Row>, ix: Index, lastUser: int, lost: set<Id>)
    requires Marked(rows) <= lost && ix == IndexOf(rows) && lastUser == LastUser(rows, |rows|) && SameTools(rows, after)
    ensures forall i | 0 <= i < |after| && after[i].Tool? && after[i].id !in ix.pending && Stale(ix, i, lastUser) ::
      after[i].id in lost
    ensures forall i | 0 <= i < |after| && IsQuery(ix, after[i]) && after[i].id !in ix.pending
                       && Requeried(after, Whole(rows, rows, ix), ix, i) :: after[i].id in lost
  {
    hide Stale, WhollyRetired, Requeried, NameAt, IndexOf, LastUser, Marked, Whole;
    forall i | 0 <= i < |after| && after[i].Tool? && after[i].id !in ix.pending && Stale(ix, i, lastUser)
      ensures after[i].id in lost
    {
      MarkedStages(rows, after, lost, i);
    }
    forall i | 0 <= i < |after| && IsQuery(ix, after[i]) && after[i].id !in ix.pending
               && Requeried(after, Whole(rows, rows, ix), ix, i)
      ensures after[i].id in lost
    {
      MarkedStages(rows, after, lost, i);
    }
  }

  lemma AllFaithful(rows: seq<Row>, ix: Index, lost: set<Id>)
    requires Paired(Tagged(rows))
    ensures FaithfulRows(rows, rows, ix, lost)
  {
    hide Faithful;
    UntouchedIsFaithful(rows, ix.pending, lost);
  }

  lemma RewritingKeepsFaith(rows: seq<Row>, lost: set<Id>)
    requires Paired(Tagged(rows)) && Marked(rows) <= lost
    ensures FaithfulRows(rows, Rewritten(rows), IndexOf(rows), lost)
  {
    var lastUser, ix := LastUser(rows, |rows|), IndexOf(rows);
    hide Faithful, FaithfulRows, Paired, Opening, Retiring, Superseding, Collapsing, Compacting, Whole, Marked;
    hide Tagged, LastUser, IndexUpTo, WhollyRetired, Stale, Requeried, NameAt, IsQuery, SameTools;
    AllFaithful(rows, ix, lost);
    var noted := Opening(rows, lastUser);
    OpeningKeepsFaith(rows, ix, lastUser, lost);
    ToolsStay(rows, noted, ix, lost);
    WholeAlike(rows, ix, lastUser);
    MarkedNoted(rows, noted, ix, lastUser, lost);
    RetiringKeepsFaith(rows, noted, ix, lost);
    var whole, retired := Whole(rows, noted, ix), Retiring(rows, noted, ix);
    ToolsStay(rows, retired, ix, lost);
    MarkedLater(rows, retired, ix, lastUser, lost);
    SupersedingKeepsFaith(rows, retired, whole, ix, lastUser, lost);
    var superseded := Superseding(retired, whole, ix, lastUser);
    ToolsStay(rows, superseded, ix, lost);
    MarkedLater(rows, superseded, ix, lastUser, lost);
    CollapsingKeepsFaith(rows, superseded, whole, ix, lost);
    CompactingKeepsFaith(rows, Collapsing(superseded, whole, ix), ix, lastUser, lost);
  }

  lemma AllInherit(all: seq<Row>, rows: seq<Row>, ix: Index, lost: set<Id>)
    requires FaithfulRows(all, rows, ix, lost)
    ensures |rows| == |all| && forall j | 0 <= j < |rows| :: Inherits(all, Tagged(rows)[j], ix.pending, lost)
  {}

  lemma ContinuationKeepsFaith(all: seq<Row>, rows: seq<Row>, ix: Index, lastUser: int, size: seq<Row> -> nat,
                               lost: set<Id>)
    requires Paired(Tagged(all)) && FaithfulRows(all, rows, ix, lost)
    requires ix.pending == PendingUpTo(all, |all|, lastUser) && lastUser <= |rows|
    ensures FaithfulTo(all, Continued(rows, ix.calls, lastUser, size), ix, lost)
  {
    hide Inherits, Faithful, Paired, Settled;
    AllInherit(all, rows, ix, lost);
    var results := Results(rows, |rows|);
    var gone := Removable(rows, Before(lastUser), results, ix.calls);
    RemovableIsOld(all, rows, results, ix.calls, lastUser, Before(lastUser), ix.pending, lost);
    forall id | id in gone ensures Settled(results, ix.calls, id) {
      RemovableIsSettled(rows, Before(lastUser), results, ix.calls, id);
    }
    hide Removable, Pruned, Deduplicated, Cutoff, Slim;
    PruningKeepsFaith(all, rows, gone, ix.calls, ix.pending, lost);
    DeduplicationKeepsFaith(all, Pruned(rows, gone), Cutoff(rows), ix.pending, lost);
  }

  lemma RecastMessages(all: seq<Row>, ms: seq<Message>, after: seq<Message>, ix: Index, lost: set<Id>)
    requires Faithful(all, ms, ix.pending, lost) && |after| == |ms|
    requires forall k | 0 <= k < |ms| :: Recast(ms[k], after[k], ix.pending, lost)
    ensures Faithful(all, after, ix.pending, lost)
  {
    hide Faithful;
    RecastingKeepsFaith(all, ms, after, ix.pending, lost);
  }

  /** Journaling leaves the order of the queries alone. */
  lemma {:induction false} LaterAlike(ms: seq<Message>, after: seq<Message>, k: nat, calls: map<Id, Call>,
                                      names: set<string>)
    requires |after| == |ms| && k <= |ms|
    requires forall i | 0 <= i < |ms| :: SameShape(ms[i].row, after[i].row)
    ensures Later(after, k, calls, names) == Later(ms, k, calls, names)
    decreases |ms| - k
  {
    if k == |ms| {
    } else {
      LaterAlike(ms, after, k + 1, calls, names);
      assert SameShape(ms[k].row, after[k].row);
    }
  }

  lemma JournaledShape(m: Message, calls: map<Id, Call>, pending: set<Id>)
    ensures SameShape(m.row, Journaled(m, calls, pending).row) && Journaled(m, calls, pending).origin == m.origin
    ensures Named(m, calls, QUERY_TOOLS) ==> Journaled(m, calls, pending) == m
  {}

  lemma EvictingAt(ms: seq<Message>, ix: Index, k: nat)
    requires k < |ms|
    ensures |Evicting(ms, ix.calls, ix.pending)| == |ms|
    ensures Evicting(ms, ix.calls, ix.pending)[k] == EvictedAt(ms, k, ix.calls, ix.pending)
  {}

  /** What one message becomes when both passes are over. */
  lemma EvictedOnce(ms: seq<Message>, ix: Index, k: nat)
    requires k < |ms|
    ensures var journaled := Journaling(ms, ix.calls, ix.pending);
      && |journaled| == |ms| && |Evicting(journaled, ix.calls, ix.pending)| == |ms|
      && (journaled[k] == ms[k] || (Yields(ms, k, ix) && journaled[k] == Journaled(ms[k], ix.calls, ix.pending)))
      && var after := Evicting(journaled, ix.calls, ix.pending)[k];
         (after == journaled[k] || (Yields(ms, k, ix) && after == EvictedQuery(journaled[k], ix.calls, ix.pending)))
         && (Yields(ms, k, ix) ==>
               && after.row.Tool? && !Evidence(after.row.body) && after.row.body.outcome.rest == ""
               && after.origin == ms[k].origin)
  {
    var journaled := Journaling(ms, ix.calls, ix.pending);
    hide Later, Evicting;
    forall i | 0 <= i < |ms| ensures SameShape(ms[i].row, journaled[i].row) {
      JournaledShape(ms[i], ix.calls, ix.pending);
    }
    LaterAlike(ms, journaled, k + 1, ix.calls, QUERY_TOOLS);
    JournaledShape(ms[k], ix.calls, ix.pending);
    EvictingAt(journaled, ix, k);
  }

  lemma JournalingLength(ms: seq<Message>, ix: Index)
    ensures |Journaling(ms, ix.calls, ix.pending)| == |ms|
    ensures |Evicting(Journaling(ms, ix.calls, ix.pending), ix.calls, ix.pending)| == |ms|
  {}

  lemma YieldedIsLost(ms: seq<Message>, k: nat, ix: Index, lost: set<Id>)
    requires k < |ms| && Yields(ms, k, ix) && Pressed(ms, ix) <= lost
    ensures ms[k].row.Tool? && ms[k].row.id in lost
  {
    assert ms[k].row.id in Pressed(ms, ix);
  }

  lemma EvictingKeepsFaith(all: seq<Row>, ms: seq<Message>, ix: Index, lost: set<Id>)
    requires FaithfulTo(all, ms, ix, lost) && Pressed(ms, ix) <= lost
    ensures FaithfulTo(all, Evicting(Journaling(ms, ix.calls, ix.pending), ix.calls, ix.pending), ix, lost)
  {
    hide Faithful, Recast, Journaled, EvictedQuery, Journaling, Evicting, Yields;
    var journaled := Journaling(ms, ix.calls, ix.pending);
    var evicted := Evicting(journaled, ix.calls, ix.pending);
    forall k | 0 <= k < |ms|
      ensures |journaled| == |evicted| == |ms|
      ensures Recast(ms[k], journaled[k], ix.pending, lost) && Recast(journaled[k], evicted[k], ix.pending, lost)
    {
      EvictedOnce(ms, ix, k);
      SameIsRecast(ms[k], ix.pending, lost);
      SameIsRecast(journaled[k], ix.pending, lost);
      if Yields(ms, k, ix) {
        YieldedIsLost(ms, k, ix, lost);
        JournaledShape(ms[k], ix.calls, ix.pending);
        JournaledIsRecast(ms[k], ix.calls, ix.pending, lost);
        EvictedIsRecast(journaled[k], ix.calls, ix.pending, lost);
      }
    }
    JournalingLength(ms, ix);
    RecastMessages(all, ms, journaled, ix, lost);
    RecastMessages(all, journaled, evicted, ix, lost);
  }

  lemma {:induction false} NothingSlimmed(ms: seq<Message>, n: nat, gone: set<Id>, dead: set<nat>)
    requires n <= |ms| && forall i | 0 <= i < n && i !in dead :: Ids(ms[i].row) !! gone
    ensures Cut(ms, n, gone, dead) == Dropped(ms, n, dead)
  {
    if n == 0 {
    } else {
      NothingSlimmed(ms, n - 1, gone, dead);
      if n - 1 !in dead { SlimKeeps(ms[n - 1].row, gone); }
    }
  }

  lemma IdsApart(ms: seq<Message>, a: nat, b: nat, id: Id)
    requires Paired(ms) && a < |ms| && b < |ms| && id in Ids(ms[a].row) && a != b
    ensures id !in Ids(ms[b].row)
  {
    assert OwnIds(ms, if a < b then b else a);
    assert Ids(ms[if a < b then a else b].row) !! Ids(ms[if a < b then b else a].row);
  }

  /** On a paired transcript dropping whole groups by position slims no other row. */
  lemma DroppingIsDisposal(ms: seq<Message>, calls: map<Id, Call>, keep: nat)
    requires Paired(ms)
    ensures DroppedGroups(ms, calls, keep) == Disposed(ms, calls, keep)
  {
    hide Disposable;
    var groups := Groups(ms, calls, |ms|);
    var n := Expired(|groups|, keep);
    forall i | 0 <= i < |ms| && i !in Removed(ms, groups, n)
      ensures Ids(ms[i].row) !! ExpiredIds(ms, groups, n)
    {
      forall id | id in Ids(ms[i].row) ensures id !in ExpiredIds(ms, groups, n) {
        ExpiredIdsAre(ms, groups, n, id);
        forall g | 0 <= g < n ensures id !in Ids(ms[groups[g]].row) {
          RemovedAre(ms, groups, n, i);
          IdsApart(ms, i, groups[g], id);
        }
      }
    }
    NothingSlimmed(ms, |ms|, ExpiredIds(ms, groups, n), Removed(ms, groups, n));
  }

  lemma NotPending(all: seq<Row>, a: nat, b: nat, lastUser: int, id: Id)
    requires Paired(Tagged(all)) && a < b < |all| && id in Ids(all[a]) && all[b].Assistant?
    ensures id !in PendingUpTo(all, |all|, lastUser)
  {
    if id in PendingUpTo(all, |all|, lastUser) {
      var p := PendingIsLate(all, |all|, lastUser, id);
      RowsOwnIds(all, a, p);
    }
  }

  /** What descends from a transcript has its newest batch last among the calls. */
  lemma NewestDescends(all: seq<Row>, ms: seq<Message>, ix: Index, lastUser: int, lost: set<Id>)
    requires FaithfulTo(all, ms, ix, lost) && ix.pending == PendingUpTo(all, |all|, lastUser)
    requires Paired(Tagged(all))
    ensures Newest(ms, ix.pending)
  {
    forall j, k | 0 <= j < k < |ms| && ms[k].row.Assistant? ensures Ids(ms[j].row) !! ix.pending {
      forall id | id in Ids(ms[j].row) ensures id !in ix.pending {
        assert Inherits(all, ms[j], ix.pending, lost) && Inherits(all, ms[k], ix.pending, lost);
        InheritedIds(all[ms[j].origin], ms[j].row, ix.pending, lost);
        InheritedIds(all[ms[k].origin], ms[k].row, ix.pending, lost);
        NotPending(all, ms[j].origin, ms[k].origin, lastUser, id);
      }
    }
  }

  lemma GroupsDropFaithfully(all: seq<Row>, ms: seq<Message>, ix: Index, lastUser: int, keep: nat, lost: set<Id>)
    requires Paired(Tagged(all)) && FaithfulTo(all, ms, ix, lost) && keep >= 1
    requires ix.pending == PendingUpTo(all, |all|, lastUser)
    ensures FaithfulTo(all, DroppedGroups(ms, ix.calls, keep), ix, lost)
  {
    hide Faithful, Paired, Newest, Disposed, DroppedGroups;
    FaithIsPaired(all, ms, ix.pending, lost);
    NewestDescends(all, ms, ix, lastUser, lost);
    DroppingIsDisposal(ms, ix.calls, keep);
    DisposalKeepsFaith(all, ms, ix.calls, keep, ix.pending, lost);
  }

  lemma ReliefKeepsFaith(all: seq<Row>, ms: seq<Message>, ix: Index, lastUser: int, b: Budget, lost: set<Id>)
    requires Paired(Tagged(all)) && FaithfulTo(all, ms, ix, lost) && Pressed(ms, ix) <= lost
    requires ix.pending == PendingUpTo(all, |all|, lastUser)
    ensures FaithfulTo(all, Relieved(ms, ix.calls, ix.pending, b), ix, lost)
  {
    hide Faithful, FaithfulTo, Paired, DroppedGroups, Evicting, Journaling, Pressed;
    EvictingKeepsFaith(all, ms, ix, lost);
    var evicted := Evicting(Journaling(ms, ix.calls, ix.pending), ix.calls, ix.pending);
    GroupsDropFaithfully(all, evicted, ix, lastUser, KEEP, lost);
    GroupsDropFaithfully(all, DroppedGroups(evicted, ix.calls, KEEP), ix, lastUser, KEEP_UNDER_PRESSURE, lost);
  }

  /** What is promised of a transcript and a budget, with the newest batch and the calls read off it. */
  ghost predicate Keeps(rows: seq<Row>, b: Budget, ms: seq<Message>) {
    FaithfulTo(rows, ms, IndexOf(rows), Lost(rows, b))
  }

  lemma RemainderIsFaithful(rows: seq<Row>, size: seq<Row> -> nat, lost: set<Id>)
    requires Paired(Tagged(rows)) && Marked(rows) <= lost
    ensures FaithfulTo(rows, Remainder(rows, size), IndexOf(rows), lost)
  {
    hide Paired, Rewritten, Continued, FaithfulRows, Faithful, Marked;
    RewritingKeepsFaith(rows, lost);
    ContinuationKeepsFaith(rows, Rewritten(rows), IndexOf(rows), LastUser(rows, |rows|), size, lost);
  }

  lemma SentIsFaithful(all: seq<Row>, ms: seq<Message>, ix: Index, lastUser: int, b: Budget, lost: set<Id>)
    requires Paired(Tagged(all)) && FaithfulTo(all, ms, ix, lost) && ix.pending == PendingUpTo(all, |all|, lastUser)
    requires b.tokens(RowsOf(ms)) > b.ceiling ==> Pressed(ms, ix) <= lost
    ensures Sent(ms, ix, b).Ok? ==> FaithfulTo(all, Sent(ms, ix, b).value, ix, lost)
  {
    hide Paired, FaithfulTo, Faithful, Relieved, Pressed;
    if b.tokens(RowsOf(ms)) > b.ceiling { ReliefKeepsFaith(all, ms, ix, lastUser, b, lost); }
  }

  lemma IndexKnowsPending(rows: seq<Row>)
    ensures IndexOf(rows).pending == PendingUpTo(rows, |rows|, LastUser(rows, |rows|))
    ensures IndexOf(rows).calls == CallsUpTo(rows, |rows|)
  {
    hide StateRowsUpTo, CallsUpTo, PendingUpTo, ConsumedUpTo, LastUser;
  }

  /** From a paired transcript, whatever the sizes and limits, the collection that is sent is again paired
      and ordered and has every lasting row and all prose. */
  lemma CollectionIsFaithful(rows: seq<Row>, b: Budget)
    requires Paired(Tagged(rows)) && Collected(rows, b).Ok?
    ensures Keeps(rows, b, Collected(rows, b).value)
  {
    hide Paired, FaithfulTo, Faithful, Remainder, IndexOf, Sent, Marked, Pressed;
    RemainderIsFaithful(rows, b.size, Lost(rows, b));
    IndexKnowsPending(rows);
    SentIsFaithful(rows, Remainder(rows, b.size), IndexOf(rows), LastUser(rows, |rows|), b, Lost(rows, b));
  }

  // ----- What the promises say ---------------------------------------------------------------

  /** Every call that is sent has exactly one result behind it, and every result a call; results that were
      in the block right behind their calls still are: pairing survives the whole collection. */
  lemma PairingSurvives(rows: seq<Row>, b: Budget)
    requires Paired(Tagged(rows)) && Collected(rows, b).Ok?
    ensures Paired(Collected(rows, b).value) && Ordered(Collected(rows, b).value)
    ensures Adjacent(Tagged(rows)) ==> Adjacent(Collected(rows, b).value)
  {
    hide Paired, Adjacent, Collected, Lost;
    CollectionIsFaithful(rows, b);
  }

  /** The results of the newest batch are sent as they are. */
  lemma NewestBatchIsSent(rows: seq<Row>, b: Budget, i: nat)
    requires Paired(Tagged(rows)) && Collected(rows, b).Ok? && i < |rows|
    requires rows[i].Tool? && rows[i].id in PendingUpTo(rows, |rows|, LastUser(rows, |rows|))
    ensures exists k | 0 <= k < |Collected(rows, b).value| :: Collected(rows, b).value[k] == Message(i, rows[i])
  {
    CollectionIsFaithful(rows, b);
    var ms, lost := Collected(rows, b).value, Lost(rows, b);
    var pending := PendingUpTo(rows, |rows|, LastUser(rows, |rows|));
    hide Collected, Paired, Lost;
    assert Stays(rows, ms, i, pending, lost);
    var k :| 0 <= k < |ms| && ms[k].origin == i;
    assert Inherits(rows, ms[k], pending, lost);
  }

  /** What is left of a row of calls of which none may go. */
  lemma AllCallsStay(a: Row, b: Row, pending: set<Id>, lost: set<Id>)
    requires Heir(a, b, pending, lost) && a.Assistant? && Ids(a) <= pending
    ensures b == a
  {
    var gone :| gone !! pending && b.calls == Without(a.calls, gone);
    NothingGone(a.calls, gone);
  }

  lemma PendingRowLasts(row: Row, pending: set<Id>, lost: set<Id>)
    requires row.Assistant? && Ids(row) == pending != {}
    ensures Lasting(row, pending, lost)
  {
    var id :| id in Ids(row);
  }

  lemma PendingRowStays(rows: seq<Row>, ms: seq<Message>, p: nat, pending: set<Id>, lost: set<Id>)
    requires Faithful(rows, ms, pending, lost) && p < |rows| && rows[p].Assistant? && Ids(rows[p]) == pending != {}
    ensures Message(p, rows[p]) in ms
  {
    hide Paired, Adjacent, Heir, Lasting, Ids, Ordered, Tagged;
    PendingRowLasts(rows[p], pending, lost);
    assert Stays(rows, ms, p, pending, lost);
    var k :| 0 <= k < |ms| && ms[k].origin == p;
    assert Inherits(rows, ms[k], pending, lost);
    AllCallsStay(rows[p], ms[k].row, pending, lost);
  }

  lemma WhatIsKept(rows: seq<Row>, b: Budget, ms: seq<Message>)
    requires Keeps(rows, b, ms)
    ensures Faithful(rows, ms, PendingUpTo(rows, |rows|, LastUser(rows, |rows|)), Lost(rows, b))
  {
    hide Faithful, Lost, PendingUpTo, LastUser;
    IndexKnowsPending(rows);
  }

  /** And so is the row that asked for them, with all its calls. */
  lemma NewestCallsAreSent(rows: seq<Row>, b: Budget, p: nat)
    requires Paired(Tagged(rows)) && Collected(rows, b).Ok? && p < |rows| && rows[p].Assistant?
    requires Ids(rows[p]) == PendingUpTo(rows, |rows|, LastUser(rows, |rows|)) != {}
    ensures Message(p, rows[p]) in Collected(rows, b).value
  {
    hide *;
    CollectionIsFaithful(rows, b);
    var ms := Collected(rows, b).value;
    WhatIsKept(rows, b, ms);
    PendingRowStays(rows, ms, p, PendingUpTo(rows, |rows|, LastUser(rows, |rows|)), Lost(rows, b));
  }

  /** System rows are sent as they are; user rows too, unless they were old episode boundaries. */
  lemma InstructionsAreSent(rows: seq<Row>, b: Budget, i: nat)
    requires Paired(Tagged(rows)) && Collected(rows, b).Ok? && i < |rows| && (rows[i].System? || rows[i].User?)
    ensures exists k | 0 <= k < |Collected(rows, b).value| ::
      var m := Collected(rows, b).value[k];
      m.origin == i
      && (m.row == rows[i] || (rows[i].User? && BOUNDARY <= rows[i].text && m.row == User(NOTICE)))
  {
    CollectionIsFaithful(rows, b);
    var ms, lost := Collected(rows, b).value, Lost(rows, b);
    var pending := PendingUpTo(rows, |rows|, LastUser(rows, |rows|));
    hide Collected, Paired, Lost;
    assert Stays(rows, ms, i, pending, lost);
    var k :| 0 <= k < |ms| && ms[k].origin == i;
    assert Inherits(rows, ms[k], pending, lost);
  }

  /** All prose is sent. */
  lemma ProseIsSent(rows: seq<Row>, b: Budget, i: nat)
    requires Paired(Tagged(rows)) && Collected(rows, b).Ok? && i < |rows| && rows[i].Assistant? && rows[i].text != ""
    ensures exists k | 0 <= k < |Collected(rows, b).value| ::
      Collected(rows, b).value[k].row.Assistant? && Collected(rows, b).value[k].row.text == rows[i].text
  {
    CollectionIsFaithful(rows, b);
    var ms, lost := Collected(rows, b).value, Lost(rows, b);
    var pending := PendingUpTo(rows, |rows|, LastUser(rows, |rows|));
    hide Collected, Paired, Lost;
    assert Stays(rows, ms, i, pending, lost);
  }
}
