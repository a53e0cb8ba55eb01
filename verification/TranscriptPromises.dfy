/** What no stage of the collection may break: pairing, order, the newest batch, evidence and prose. */
module TranscriptPromises {
  import opened TranscriptModel

  const BOUNDARY := "[SMACX_EPISODE_BOUNDARY"
  const NOTICE := "[Superseded managed gameplay episode boundary.]"

  // ----- Evidence ----------------------------------------------------------------------------

  /** A result that must not be lost: a failure, an obligation, or a body that cannot be read. */
  predicate Evidence(body: Body) {
    body.Raw? || !body.outcome.ok || body.outcome.duties != {}
  }

  /** A recovery stays, with everything in it but its menu. */
  ghost predicate SameProvenance(x: Outcome, y: Outcome) {
    && (x.recovery.Some? <==> y.recovery.Some?)
    && (x.recovery.Some? ==> y.recovery.value.rest == x.recovery.value.rest)
  }

  /** What the result of a call says, apart from menus, handles, guidance and the mark of a receipt. */
  ghost predicate SameEvidence(x: Body, y: Body) {
    && (x.Raw? ==> y == x)
    && (x.Decoded? ==>
          && y.Decoded? && y.outcome.ok == x.outcome.ok && y.outcome.duties == x.outcome.duties
          && y.outcome.completed == x.outcome.completed && y.outcome.receipt == x.outcome.receipt
          && y.outcome.rest == x.outcome.rest && SameProvenance(x.outcome, y.outcome))
  }

  lemma EvidenceStays(x: Body, y: Body)
    requires SameEvidence(x, y)
    ensures Evidence(x) <==> Evidence(y)
  {}

  // ----- One row -----------------------------------------------------------------------------

  /** Some calls are left out, none of the newest batch. */
  ghost predicate Fewer(a: seq<Call>, b: seq<Call>, pending: set<Id>) {
    exists gone :: gone !! pending && b == Without(a, gone)
  }

  lemma {:induction false} WithoutTwice(calls: seq<Call>, g: set<Id>, h: set<Id>)
    ensures Without(Without(calls, g), h) == Without(calls, g + h)
  {
    if calls == [] {
    } else {
      var front, last := calls[..|calls| - 1], calls[|calls| - 1];
      WithoutTwice(front, g, h);
      var r := Without(front, g);
      assert (r + [last])[..|r|] == r;
      assert Without(calls, g) == if last.id in g then r else r + [last];
    }
  }

  lemma WithoutNothing(calls: seq<Call>)
    ensures Without(calls, {}) == calls
  {
    NothingGone(calls, {});
  }

  /** What may become of a row. */
  ghost predicate Heir(a: Row, b: Row, pending: set<Id>, lost: set<Id>) {
    match a
    case System(_) => b == a
    case User(text) => b == a || (b == User(NOTICE) && BOUNDARY <= text)
    case Assistant(text, made) => b.Assistant? && b.text == text && Fewer(made, b.calls, pending)
    case Tool(id, body) =>
      b.Tool? && b.id == id && (id in pending ==> b == a) && (id !in lost ==> SameEvidence(body, b.body))
  }

  lemma SameIsHeir(a: Row, pending: set<Id>, lost: set<Id>)
    ensures Heir(a, a, pending, lost)
  {
    if a.Assistant? {
      WithoutNothing(a.calls);
      assert a.calls == Without(a.calls, {}) && {} !! pending;
    }
  }

  lemma HeirsChain(a: Row, b: Row, c: Row, pending: set<Id>, lost: set<Id>)
    requires Heir(a, b, pending, lost) && Heir(b, c, pending, lost)
    ensures Heir(a, c, pending, lost)
  {
    if a.Assistant? {
      var g :| g !! pending && b.calls == Without(a.calls, g);
      var h :| h !! pending && c.calls == Without(b.calls, h);
      WithoutTwice(a.calls, g, h);
      assert g + h !! pending;
    }
  }

  lemma SlimIsHeir(a: Row, gone: set<Id>, pending: set<Id>, lost: set<Id>)
    requires gone !! pending
    ensures Heir(a, Slim(a, gone), pending, lost)
  {
    if !a.Assistant? { SameIsHeir(a, pending, lost); }
  }

  // ----- The transcript ----------------------------------------------------------------------

  /** Rows that are never dropped. */
  ghost predicate Lasting(row: Row, pending: set<Id>, lost: set<Id>) {
    match row
    case System(_) => true
    case User(_) => true
    case Assistant(_, _) => !(Ids(row) !! pending)
    case Tool(id, body) => id in pending || (id !in lost && Evidence(body))
  }

  ghost predicate Ordered(ms: seq<Message>) {
    forall k, l | 0 <= k < l < |ms| :: ms[k].origin < ms[l].origin
  }

  ghost predicate Inherits(rows: seq<Row>, m: Message, pending: set<Id>, lost: set<Id>) {
    m.origin < |rows| && Heir(rows[m.origin], m.row, pending, lost)
  }

  ghost predicate Present(ms: seq<Message>, i: nat) {
    exists k | 0 <= k < |ms| :: ms[k].origin == i
  }

  ghost predicate Spoken(ms: seq<Message>, text: string) {
    exists k | 0 <= k < |ms| :: ms[k].row.Assistant? && ms[k].row.text == text
  }

  ghost predicate Stays(rows: seq<Row>, ms: seq<Message>, i: nat, pending: set<Id>, lost: set<Id>)
    requires i < |rows|
  {
    && (Lasting(rows[i], pending, lost) ==> Present(ms, i))
    && (rows[i].Assistant? && rows[i].text != "" ==> Spoken(ms, rows[i].text))
  }

  function Tagged(rows: seq<Row>): seq<Message> {
    seq(|rows|, i requires 0 <= i < |rows| => Message(i, rows[i]))
  }

  /** `ms` is a paired, ordered remainder of `rows` that has every lasting row and all prose. Nothing is
      promised of the evidence in `lost`. */
  ghost predicate Faithful(rows: seq<Row>, ms: seq<Message>, pending: set<Id>, lost: set<Id>) {
    && Ordered(ms) && Paired(ms) && (Adjacent(Tagged(rows)) ==> Adjacent(ms))
    && (forall k | 0 <= k < |ms| :: Inherits(rows, ms[k], pending, lost))
    && (forall i | 0 <= i < |rows| :: Stays(rows, ms, i, pending, lost))
  }

  lemma UntouchedIsFaithful(rows: seq<Row>, pending: set<Id>, lost: set<Id>)
    requires Paired(Tagged(rows))
    ensures Faithful(rows, Tagged(rows), pending, lost)
  {
    hide Paired, Adjacent, Heir, Lasting;
    var ms := Tagged(rows);
    forall i | 0 <= i < |rows| ensures Inherits(rows, ms[i], pending, lost) && Stays(rows, ms, i, pending, lost) {
      SameIsHeir(rows[i], pending, lost);
      assert ms[i].origin == i;
    }
  }

  ghost predicate Recast(a: Message, b: Message, pending: set<Id>, lost: set<Id>) {
    a.origin == b.origin && SameShape(a.row, b.row) && Heir(a.row, b.row, pending, lost)
  }

  lemma AssistantHeir(a: Row, b: Row, pending: set<Id>, lost: set<Id>)
    requires Heir(a, b, pending, lost) && a.Assistant?
    ensures b.Assistant? && b.text == a.text
  {}

  /** Stages that rewrite rows in place keep every promise. */
  lemma RecastingKeepsFaith(rows: seq<Row>, ms: seq<Message>, after: seq<Message>, pending: set<Id>, lost: set<Id>)
    requires Faithful(rows, ms, pending, lost) && |after| == |ms|
    requires forall k | 0 <= k < |ms| :: Recast(ms[k], after[k], pending, lost)
    ensures Faithful(rows, after, pending, lost)
  {
    hide Paired, Adjacent, Heir, Lasting, SameShape;
    assert Reworded(ms, after) by {
      forall k | 0 <= k < |ms| ensures SameShape(ms[k].row, after[k].row) {
        assert Recast(ms[k], after[k], pending, lost);
      }
    }
    RewordingKeepsPairing(ms, after);
    if Adjacent(ms) { RewordingKeepsAdjacency(ms, after); }
    forall k | 0 <= k < |ms| ensures Inherits(rows, after[k], pending, lost) && ms[k].origin == after[k].origin {
      assert Recast(ms[k], after[k], pending, lost) && Inherits(rows, ms[k], pending, lost);
      HeirsChain(rows[ms[k].origin], ms[k].row, after[k].row, pending, lost);
    }
    forall i | 0 <= i < |rows| ensures Stays(rows, after, i, pending, lost) {
      assert Stays(rows, ms, i, pending, lost);
      if Present(ms, i) {
        var k :| 0 <= k < |ms| && ms[k].origin == i;
        assert after[k].origin == i;
      }
      if rows[i].Assistant? && rows[i].text != "" {
        var k :| 0 <= k < |ms| && ms[k].row.Assistant? && ms[k].row.text == rows[i].text;
        assert Recast(ms[k], after[k], pending, lost);
        AssistantHeir(ms[k].row, after[k].row, pending, lost);
      }
    }
  }

  // ----- Cutting -----------------------------------------------------------------------------

  /** Another row that stays says the same. */
  ghost predicate Repeated(ms: seq<Message>, dead: set<nat>, text: string) {
    exists k | 0 <= k < |ms| && k !in dead :: ms[k].row.Assistant? && ms[k].row.text == text
  }

  /** Only results without evidence, and rows without prose of their own, are dropped. */
  ghost predicate MayDie(ms: seq<Message>, i: nat, dead: set<nat>, lost: set<Id>)
    requires i < |ms|
  {
    match ms[i].row
    case System(_) => false
    case User(_) => false
    case Assistant(text, _) => text == "" || Repeated(ms, dead, text)
    case Tool(id, body) => id in lost || !Evidence(body)
  }

  /** Why a lasting row is not among the dead. */
  lemma LastingSurvives(rows: seq<Row>, ms: seq<Message>, k: nat, gone: set<Id>, dead: set<nat>, pending: set<Id>,
                        lost: set<Id>)
    requires k < |ms| && Inherits(rows, ms[k], pending, lost) && Lasting(rows[ms[k].origin], pending, lost)
    requires gone !! pending && ClosedAt(ms[k].row, gone, k in dead) && (k in dead ==> MayDie(ms, k, dead, lost))
    ensures k !in dead
  {
    var a, b := rows[ms[k].origin], ms[k].row;
    match a
    case System(_) =>
    case User(_) =>
    case Assistant(_, made) =>
      var g :| g !! pending && b.calls == Without(made, g);
      WithoutIds(made, g);
    case Tool(id, body) =>
      if id !in lost { EvidenceStays(body, b.body); }
  }

  lemma SpokenSurvives(ms: seq<Message>, gone: set<Id>, dead: set<nat>, lost: set<Id>, text: string)
    requires Spoken(ms, text) && text != ""
    requires forall i | 0 <= i < |ms| && i in dead :: MayDie(ms, i, dead, lost)
    ensures Spoken(Cut(ms, |ms|, gone, dead), text)
  {
    var k :| 0 <= k < |ms| && ms[k].row.Assistant? && ms[k].row.text == text;
    if k in dead {
      assert MayDie(ms, k, dead, lost);
      k :| 0 <= k < |ms| && k !in dead && ms[k].row.Assistant? && ms[k].row.text == text;
    }
    var cut, source := Cut(ms, |ms|, gone, dead), Sources(|ms|, dead);
    var l := SourceOf(|ms|, dead, k);
    CutIsSourced(ms, |ms|, gone, dead);
    assert Sourced(ms, gone, cut, source, l);
  }

  lemma CutOrdered(ms: seq<Message>, gone: set<Id>, dead: set<nat>)
    requires Ordered(ms)
    ensures Ordered(Cut(ms, |ms|, gone, dead))
  {
    var cut, source := Cut(ms, |ms|, gone, dead), Sources(|ms|, dead);
    CutIsSourced(ms, |ms|, gone, dead);
    SourcesRise(|ms|, dead);
    forall k, l | 0 <= k < l < |cut| ensures cut[k].origin < cut[l].origin {
      assert Sourced(ms, gone, cut, source, k) && Sourced(ms, gone, cut, source, l);
    }
  }

  /** Stages that drop rows keep every promise. */
  lemma CuttingKeepsFaith(rows: seq<Row>, ms: seq<Message>, gone: set<Id>, dead: set<nat>, pending: set<Id>,
                          lost: set<Id>)
    requires Faithful(rows, ms, pending, lost) && Closed(ms, gone, dead) && gone !! pending
    requires forall i | 0 <= i < |ms| && i in dead :: MayDie(ms, i, dead, lost)
    ensures Faithful(rows, Cut(ms, |ms|, gone, dead), pending, lost)
  {
    hide Paired, Adjacent, Heir, Lasting, MayDie, ClosedAt, Ordered;
    var cut, source := Cut(ms, |ms|, gone, dead), Sources(|ms|, dead);
    CuttingKeepsPairing(ms, gone, dead);
    if Adjacent(ms) { CuttingKeepsAdjacency(ms, gone, dead); }
    CutOrdered(ms, gone, dead);
    CutIsSourced(ms, |ms|, gone, dead);
    SourcesRise(|ms|, dead);
    forall l | 0 <= l < |cut| ensures Inherits(rows, cut[l], pending, lost) {
      assert Sourced(ms, gone, cut, source, l) && Inherits(rows, ms[source[l]], pending, lost);
      SlimIsHeir(ms[source[l]].row, gone, pending, lost);
      HeirsChain(rows[cut[l].origin], ms[source[l]].row, cut[l].row, pending, lost);
    }
    forall i | 0 <= i < |rows| ensures Stays(rows, cut, i, pending, lost) {
      assert Stays(rows, ms, i, pending, lost);
      if Lasting(rows[i], pending, lost) {
        var k :| 0 <= k < |ms| && ms[k].origin == i;
        assert Inherits(rows, ms[k], pending, lost) && ClosedAt(ms[k].row, gone, k in dead);
        LastingSurvives(rows, ms, k, gone, dead, pending, lost);
        var l := SourceOf(|ms|, dead, k);
        assert Sourced(ms, gone, cut, source, l) && cut[l].origin == i;
      }
      if rows[i].Assistant? && rows[i].text != "" {
        SpokenSurvives(ms, gone, dead, lost, rows[i].text);
      }
    }
  }
}
