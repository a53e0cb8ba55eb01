/** What happens when the transcript is over its token ceiling: receipts for durable cognition, query
    eviction, and removal of old disposable groups. */
module TranscriptPressure {
  import opened TranscriptModel
  import opened TranscriptPromises
  import opened TranscriptStages

  // ----- Receipts and evictions --------------------------------------------------------------

  predicate Named(m: Message, calls: map<Id, Call>, names: set<string>) {
    m.row.Tool? && NameOf(calls, m.row.id) in names
  }

  /** How many results of these tools stand behind position `k`. */
  function Later(ms: seq<Message>, k: nat, calls: map<Id, Call>, names: set<string>): nat
    requires k <= |ms|
    decreases |ms| - k
  {
    if k == |ms| then 0 else Later(ms, k + 1, calls, names) + if Named(ms[k], calls, names) then 1 else 0
  }

  predicate DurableWrite(calls: map<Id, Call>, id: Id) {
    && id in calls
    && (calls[id].name == "smac_memory_update"
        || (calls[id].name == "smac_notebook" && calls[id].args.action in {"put", "delete"}))
  }

  /** A successful durable write becomes its journal receipt. */
  function Journaled(m: Message, calls: map<Id, Call>, pending: set<Id>): Message {
    if m.row.Tool? && m.row.id !in pending
       && NameOf(calls, m.row.id) in COGNITION_TOOLS && DurableWrite(calls, m.row.id)
       && m.row.body.Decoded? && m.row.body.envelope == Plain && m.row.body.outcome.ok
    then
      var receipt := Marker(false, false, CognitionReceipt, m.row.body.outcome.receipt);
      Message(m.origin, Tool(m.row.id, Decoded(receipt, Plain)))
    else m
  }

  const RECENT_COGNITION := 4

  ghost function JournaledAt(ms: seq<Message>, k: nat, calls: map<Id, Call>, pending: set<Id>): Message
    requires k < |ms|
  {
    if Later(ms, k + 1, calls, COGNITION_TOOLS) >= RECENT_COGNITION then Journaled(ms[k], calls, pending) else ms[k]
  }

  /** A successful query that is not the newest is evicted. */
  function EvictedQuery(m: Message, calls: map<Id, Call>, pending: set<Id>): Message {
    if Named(m, calls, QUERY_TOOLS) && m.row.id !in pending && m.row.body.Decoded? && m.row.body.outcome.ok
    then Message(m.origin, Tool(m.row.id, Decoded(Marker(false, false, QueryEviction, ""), Plain)))
    else m
  }

  ghost function EvictedAt(ms: seq<Message>, k: nat, calls: map<Id, Call>, pending: set<Id>): Message
    requires k < |ms|
  {
    if Later(ms, k + 1, calls, QUERY_TOOLS) >= 1 then EvictedQuery(ms[k], calls, pending) else ms[k]
  }

  lemma JournaledIsRecast(m: Message, calls: map<Id, Call>, pending: set<Id>, lost: set<Id>)
    requires Journaled(m, calls, pending) == m || (m.row.Tool? && m.row.id in lost)
    ensures Recast(m, Journaled(m, calls, pending), pending, lost)
  {
    SameIsHeir(m.row, pending, lost);
  }

  lemma EvictedIsRecast(m: Message, calls: map<Id, Call>, pending: set<Id>, lost: set<Id>)
    requires EvictedQuery(m, calls, pending) == m || (m.row.Tool? && m.row.id in lost)
    ensures Recast(m, EvictedQuery(m, calls, pending), pending, lost)
  {
    SameIsHeir(m.row, pending, lost);
  }

  // ----- Disposable groups -------------------------------------------------------------------

  /** The last result row of every id. */
  function ToolRows(ms: seq<Message>, n: nat): (r: map<Id, nat>)
    requires n <= |ms|
    ensures forall id | id in r :: r[id] < n && ms[r[id]].row.Tool? && ms[r[id]].row.id == id
  {
    if n == 0 then map[]
    else if ms[n - 1].row.Tool? then ToolRows(ms, n - 1)[ms[n - 1].row.id := n - 1]
    else ToolRows(ms, n - 1)
  }

  predicate Spent(body: Body) {
    body.Decoded? && body.outcome.ok && body.outcome.duties == {}
  }

  predicate DisposableCall(ms: seq<Message>, calls: map<Id, Call>, id: Id) {
    && NameOf(calls, id) in DISPOSABLE_TOOLS
    && id in ToolRows(ms, |ms|) && Spent(ms[ToolRows(ms, |ms|)[id]].row.body)
  }

  /** An assistant row without prose whose calls are all disposable and answered without obligations. */
  predicate Disposable(ms: seq<Message>, calls: map<Id, Call>, j: nat)
    requires j < |ms|
  {
    && ms[j].row.Assistant? && ms[j].row.calls != [] && ms[j].row.text == ""
    && forall id | id in Ids(ms[j].row) :: DisposableCall(ms, calls, id)
  }

  /** The disposable rows below `n`, oldest first. */
  ghost function Groups(ms: seq<Message>, calls: map<Id, Call>, n: nat): (r: seq<nat>)
    requires n <= |ms|
    ensures forall g | 0 <= g < |r| :: r[g] < n && Disposable(ms, calls, r[g])
    ensures forall g, h | 0 <= g < h < |r| :: r[g] < r[h]
  {
    if n == 0 then []
    else Groups(ms, calls, n - 1) + if Disposable(ms, calls, n - 1) then [n - 1] else []
  }

  /** How many of the oldest groups go when the newest `keep` stay. */
  function Expired(count: nat, keep: nat): nat {
    if count > keep then count - keep else 0
  }

  ghost function ExpiredIds(ms: seq<Message>, groups: seq<nat>, n: nat): set<Id>
    requires n <= |groups| && forall g | 0 <= g < |groups| :: groups[g] < |ms|
  {
    if n == 0 then {} else ExpiredIds(ms, groups, n - 1) + Ids(ms[groups[n - 1]].row)
  }

  /** The row of a group and the rows of its results. */
  function GroupRows(ms: seq<Message>, rows: map<Id, nat>, j: nat): set<nat>
    requires j < |ms|
  {
    {j} + set id | id in Ids(ms[j].row) && id in rows :: rows[id]
  }

  ghost function Removed(ms: seq<Message>, groups: seq<nat>, n: nat): set<nat>
    requires n <= |groups| && forall g | 0 <= g < |groups| :: groups[g] < |ms|
  {
    if n == 0 then {} else Removed(ms, groups, n - 1) + GroupRows(ms, ToolRows(ms, |ms|), groups[n - 1])
  }

  lemma {:induction false} RemovedAre(ms: seq<Message>, groups: seq<nat>, n: nat, i: nat)
    requires n <= |groups| && forall g | 0 <= g < |groups| :: groups[g] < |ms|
    ensures i in Removed(ms, groups, n) <==>
      exists g | 0 <= g < n :: i in GroupRows(ms, ToolRows(ms, |ms|), groups[g])
  {
    hide GroupRows, ToolRows;
    if n == 0 {
    } else {
      RemovedAre(ms, groups, n - 1, i);
    }
  }

  lemma {:induction false} ExpiredIdsAre(ms: seq<Message>, groups: seq<nat>, n: nat, id: Id)
    requires n <= |groups| && forall g | 0 <= g < |groups| :: groups[g] < |ms|
    ensures id in ExpiredIds(ms, groups, n) <==> exists g | 0 <= g < n :: id in Ids(ms[groups[g]].row)
  {
    if n == 0 {
    } else {
      ExpiredIdsAre(ms, groups, n - 1, id);
    }
  }

  lemma {:induction false} ToolRowStands(ms: seq<Message>, i: nat, n: nat)
    requires i < n <= |ms| && ms[i].row.Tool?
    requires forall k | i < k < n :: ms[k].row.Tool? ==> ms[k].row.id != ms[i].row.id
    ensures ms[i].row.id in ToolRows(ms, n) && ToolRows(ms, n)[ms[i].row.id] == i
    decreases n
  {
    if i == n - 1 {
    } else {
      ToolRowStands(ms, i, n - 1);
    }
  }

  lemma ToolRowIsUnique(ms: seq<Message>, i: nat)
    requires Paired(ms) && i < |ms| && ms[i].row.Tool?
    ensures ms[i].row.id in ToolRows(ms, |ms|) && ToolRows(ms, |ms|)[ms[i].row.id] == i
  {
    forall k | i < k < |ms| && ms[k].row.Tool? ensures ms[k].row.id != ms[i].row.id {
      assert OnlyResult(ms, k);
    }
    ToolRowStands(ms, i, |ms|);
  }

  lemma GroupIsAssistant(ms: seq<Message>, calls: map<Id, Call>)
    ensures forall g | 0 <= g < |Groups(ms, calls, |ms|)| :: ms[Groups(ms, calls, |ms|)[g]].row.Assistant?
  {}

  /** Removing groups removes calls together with exactly their results. */
  lemma RemovalIsClosed(ms: seq<Message>, calls: map<Id, Call>, n: nat)
    requires Paired(ms) && n <= |Groups(ms, calls, |ms|)|
    ensures var groups := Groups(ms, calls, |ms|);
      Closed(ms, ExpiredIds(ms, groups, n), Removed(ms, groups, n))
  {
    hide Disposable, Paired;
    var groups := Groups(ms, calls, |ms|);
    var gone, dead := ExpiredIds(ms, groups, n), Removed(ms, groups, n);
    forall i | 0 <= i < |ms| ensures ClosedAt(ms[i].row, gone, i in dead) {
      RemovedAre(ms, groups, n, i);
      if ms[i].row.Tool? {
        ToolRowIsUnique(ms, i);
        ExpiredIdsAre(ms, groups, n, ms[i].row.id);
        GroupIsAssistant(ms, calls);
      } else if ms[i].row.Assistant? && i in dead {
        var g :| 0 <= g < n && i in GroupRows(ms, ToolRows(ms, |ms|), groups[g]);
        forall id | id in Ids(ms[i].row) ensures id in gone { ExpiredIdsAre(ms, groups, n, id); }
      }
    }
  }

  lemma GroupIsDisposable(ms: seq<Message>, calls: map<Id, Call>, j: nat, i: nat)
    requires j < |ms| && Disposable(ms, calls, j) && i in GroupRows(ms, ToolRows(ms, |ms|), j)
    ensures i < |ms|
    ensures i == j
      || (ms[i].row.Tool? && DisposableCall(ms, calls, ms[i].row.id) && ToolRows(ms, |ms|)[ms[i].row.id] == i)
  {
    hide ToolRows, DisposableCall;
  }

  /** Everything removed is an assistant row without prose or a successful result without obligations, of
      a disposable tool. */
  lemma RemovedIsDisposable(ms: seq<Message>, calls: map<Id, Call>, n: nat, i: nat)
    requires n <= |Groups(ms, calls, |ms|)| && i in Removed(ms, Groups(ms, calls, |ms|), n)
    ensures i < |ms|
    ensures ms[i].row.Assistant? || ms[i].row.Tool?
    ensures ms[i].row.Assistant? ==> ms[i].row.text == "" && Disposable(ms, calls, i)
    ensures ms[i].row.Tool? ==> Spent(ms[i].row.body) && NameOf(calls, ms[i].row.id) in DISPOSABLE_TOOLS
  {
    hide Groups, GroupRows, ToolRows, Spent, NameOf;
    var groups := Groups(ms, calls, |ms|);
    RemovedAre(ms, groups, n, i);
    var g :| 0 <= g < n && i in GroupRows(ms, ToolRows(ms, |ms|), groups[g]);
    GroupIsDisposable(ms, calls, groups[g], i);
  }

  lemma RemovedMayDie(ms: seq<Message>, calls: map<Id, Call>, n: nat, i: nat, lost: set<Id>)
    requires n <= |Groups(ms, calls, |ms|)| && i in Removed(ms, Groups(ms, calls, |ms|), n) && i < |ms|
    ensures MayDie(ms, i, Removed(ms, Groups(ms, calls, |ms|), n), lost)
  {
    hide Disposable, Groups;
    RemovedIsDisposable(ms, calls, n, i);
  }

  // ----- The newest batch --------------------------------------------------------------------

  /** No assistant row follows the one whose calls are pending. */
  ghost predicate Newest(ms: seq<Message>, pending: set<Id>) {
    forall j, k | 0 <= j < k < |ms| && ms[k].row.Assistant? :: Ids(ms[j].row) !! pending
  }

  /** While at least one group is kept, no group of the newest batch goes. */
  lemma NewestBatchIsKept(ms: seq<Message>, calls: map<Id, Call>, n: nat, pending: set<Id>)
    requires Newest(ms, pending) && n < |Groups(ms, calls, |ms|)|
    ensures ExpiredIds(ms, Groups(ms, calls, |ms|), n) !! pending
  {
    hide Disposable;
    var groups := Groups(ms, calls, |ms|);
    GroupIsAssistant(ms, calls);
    forall id | id in ExpiredIds(ms, groups, n) ensures id !in pending {
      ExpiredIdsAre(ms, groups, n, id);
      var g :| 0 <= g < n && id in Ids(ms[groups[g]].row);
      assert groups[g] < groups[n] && ms[groups[n]].row.Assistant?;
    }
  }

  lemma GroupsApart(ms: seq<Message>, a: nat, b: nat, i: nat)
    requires Paired(ms) && a < b < |ms| && ms[a].row.Assistant? && ms[b].row.Assistant?
    ensures !(i in GroupRows(ms, ToolRows(ms, |ms|), a) && i in GroupRows(ms, ToolRows(ms, |ms|), b))
  {
    assert OwnIds(ms, b);
    assert Ids(ms[a].row) !! Ids(ms[b].row);
  }

  /** The rows that the newest `keep` groups hold are untouched. */
  lemma NewestGroupsStay(ms: seq<Message>, calls: map<Id, Call>, keep: nat, h: nat)
    requires Paired(ms)
    requires var groups := Groups(ms, calls, |ms|); Expired(|groups|, keep) <= h < |groups|
    ensures var groups := Groups(ms, calls, |ms|);
      GroupRows(ms, ToolRows(ms, |ms|), groups[h]) !! Removed(ms, groups, Expired(|groups|, keep))
  {
    var groups := Groups(ms, calls, |ms|);
    var n := Expired(|groups|, keep);
    GroupIsAssistant(ms, calls);
    hide Disposable, Groups;
    forall i | i in GroupRows(ms, ToolRows(ms, |ms|), groups[h]) ensures i !in Removed(ms, groups, n) {
      RemovedAre(ms, groups, n, i);
      forall g | 0 <= g < n ensures i !in GroupRows(ms, ToolRows(ms, |ms|), groups[g]) {
        GroupsApart(ms, groups[g], groups[h], i);
      }
    }
  }

  ghost function Disposed(ms: seq<Message>, calls: map<Id, Call>, keep: nat): seq<Message> {
    var groups := Groups(ms, calls, |ms|);
    var n := Expired(|groups|, keep);
    Cut(ms, |ms|, ExpiredIds(ms, groups, n), Removed(ms, groups, n))
  }

  lemma NothingExpired(ms: seq<Message>, groups: seq<nat>)
    requires forall g | 0 <= g < |groups| :: groups[g] < |ms|
    ensures ExpiredIds(ms, groups, 0) == {}
  {}

  /** The pass keeps every promise, and the newest batch with them. */
  lemma DisposalKeepsFaith(rows: seq<Row>, ms: seq<Message>, calls: map<Id, Call>, keep: nat, pending: set<Id>,
                           lost: set<Id>)
    requires Faithful(rows, ms, pending, lost) && Newest(ms, pending) && keep >= 1
    ensures Faithful(rows, Disposed(ms, calls, keep), pending, lost)
  {
    var groups := Groups(ms, calls, |ms|);
    var n := Expired(|groups|, keep);
    assert Paired(ms);
    RemovalIsClosed(ms, calls, n);
    hide Paired, MayDie, Closed, Disposable, Groups, Faithful, Newest;
    if n < |groups| { NewestBatchIsKept(ms, calls, n, pending); } else { NothingExpired(ms, groups); }
    forall i | 0 <= i < |ms| && i in Removed(ms, groups, n) ensures MayDie(ms, i, Removed(ms, groups, n), lost) {
      RemovedMayDie(ms, calls, n, i, lost);
    }
    CuttingKeepsFaith(rows, ms, ExpiredIds(ms, groups, n), Removed(ms, groups, n), pending, lost);
  }
}
