/** Diagnostic writers that share one match directory, its lock and its byte budget. */
module BoundedCapture {
  datatype Kind = Data | CaptureGap

  datatype Record = Record(stream: nat, sequence: nat, kind: Kind, size: nat)

  /** The private counters of a writer, and the limits it was made with. */
  datatype Writer = Writer(sequence: nat, bytes: nat, exhausted: bool, most: nat, mostOfMatch: nat)

  datatype Receipt =
    | Refused(matchLimit: bool)
    | Written(sequence: nat, recorded: bool)
    | WriteFailed

  /** What the writers of a match share: the bytes other files already take, the records in the order
      they were appended, and the capacity marker. */
  datatype Match = Match(before: nat, records: seq<Record>, marker: bool, writers: seq<Writer>)

  ghost function Total(records: seq<Record>, n: nat): nat
    requires n <= |records|
  {
    if n == 0 then 0 else Total(records, n - 1) + records[n - 1].size
  }

  ghost function BytesOf(records: seq<Record>, stream: nat, n: nat): nat
    requires n <= |records|
  {
    if n == 0 then 0
    else BytesOf(records, stream, n - 1) + if records[n - 1].stream == stream then records[n - 1].size else 0
  }

  ghost function CountOf(records: seq<Record>, stream: nat, n: nat): nat
    requires n <= |records|
  {
    if n == 0 then 0 else CountOf(records, stream, n - 1) + if records[n - 1].stream == stream then 1 else 0
  }

  /** One emit of writer `w`: `size` and `gapSize` are the packed sizes of the record and of the gap record
      that may replace it, and `stored` says whether the write itself succeeds. */
  ghost function Emitted(m: Match, w: nat, size: nat, gapSize: nat, stored: bool): (Match, Receipt)
    requires w < |m.writers|
  {
    var writer := m.writers[w];
    if m.marker then (m, Refused(true))
    else if writer.exhausted then (m, Refused(false))
    else
      var matchFull := m.before + Total(m.records, |m.records|) + size > writer.mostOfMatch;
      var full := matchFull || writer.bytes + size > writer.most;
      var record := Record(w, writer.sequence + 1, if full then CaptureGap else Data, if full then gapSize else size);
      var next := writer.(sequence := writer.sequence + 1, exhausted := full);
      if stored
      then (m.(records := m.records + [record], marker := matchFull,
               writers := m.writers[w := next.(bytes := writer.bytes + record.size)]),
            Written(record.sequence, !full))
      else (m.(marker := matchFull, writers := m.writers[w := next]), WriteFailed)
  }

  // ----- The writers as objects --------------------------------------------------------------

  class MatchDirectory {
    var before: nat
    var records: seq<Record>
    var marker: bool

    constructor (before: nat)
      ensures this.before == before && records == [] && !marker
    {
      this.before, records, marker := before, [], false;
    }

    /** The sizes of all capture files together. */
    method Size() returns (bytes: nat)
      ensures bytes == before + Total(records, |records|)
    {
      bytes := before;
      for n := 0 to |records|
        invariant bytes == before + Total(records, n)
      {
        bytes := bytes + records[n].size;
      }
    }
  }

  class DiagnosticWriter {
    const directory: MatchDirectory
    const stream: nat
    const most: nat
    const mostOfMatch: nat
    var sequence: nat
    var bytes: nat
    var exhausted: bool

    ghost function State(): Writer
      reads this
    {
      Writer(sequence, bytes, exhausted, most, mostOfMatch)
    }

    constructor (directory: MatchDirectory, stream: nat, most: nat, mostOfMatch: nat)
      ensures this.directory == directory && this.stream == stream && State() == Writer(0, 0, false, most, mostOfMatch)
    {
      this.directory, this.stream, this.most, this.mostOfMatch := directory, stream, most, mostOfMatch;
      sequence, bytes, exhausted := 0, 0, false;
    }

    /** The match as this writer sees it, with the other writers' counters in `others`. */
    ghost function View(others: seq<Writer>): Match
      requires stream < |others|
      reads this, directory
    {
      Match(directory.before, directory.records, directory.marker, others[stream := State()])
    }

    method Emit(size: nat, gapSize: nat, stored: bool, ghost others: seq<Writer>) returns (receipt: Receipt)
      requires stream < |others|
      modifies this, directory
      ensures (View(others), receipt) == Emitted(old(View(others)), stream, size, gapSize, stored)
    {
      if directory.marker { return Refused(true); }
      if exhausted { return Refused(false); }
      sequence := sequence + 1;
      var record := Record(stream, sequence, Data, size);
      var matchBytes := directory.Size();
      var matchExhausted := matchBytes + size > mostOfMatch;
      if bytes + size > most || matchExhausted {
        exhausted := true;
        record := Record(stream, sequence, CaptureGap, gapSize);
        if matchExhausted { directory.marker := true; }
      }
      assert old(View(others)).writers[stream := State()] == others[stream := State()];
      if !stored { return WriteFailed; }
      directory.records := directory.records + [record];
      bytes := bytes + record.size;
      assert old(View(others)).writers[stream := State()] == others[stream := State()];
      receipt := Written(sequence, !exhausted);
    }
  }

  // ----- What one attempt comes to -----------------------------------------------------------

  /** The bytes of some records together. */
  ghost function Bytes(records: seq<Record>): nat {
    if records == [] then 0 else records[0].size + Bytes(records[1..])
  }

  lemma {:induction false} BytesOfMore(records: seq<Record>, record: Record)
    ensures Bytes(records + [record]) == Bytes(records) + record.size
  {
    if records == [] {
      assert [record][1..] == [];
    } else {
      BytesOfMore(records[1..], record);
      assert (records + [record])[1..] == records[1..] + [record];
    }
  }

  lemma {:induction false} TotalIsBytes(records: seq<Record>, n: nat)
    requires n <= |records|
    ensures Total(records, n) == Bytes(records[..n])
  {
    if n == 0 {
    } else {
      TotalIsBytes(records, n - 1);
      assert records[..n] == records[..n - 1] + [records[n - 1]];
      BytesOfMore(records[..n - 1], records[n - 1]);
    }
  }

  /** With this record the files of the match would hold more than the writer allows them together. */
  ghost predicate PassesMatch(m: Match, w: nat, size: nat) {
    w < |m.writers| && m.before + Bytes(m.records) + size > m.writers[w].mostOfMatch
  }

  /** With this record the stream would hold more than it may. */
  ghost predicate PassesStream(m: Match, w: nat, size: nat) {
    w < |m.writers| && m.writers[w].bytes + size > m.writers[w].most
  }

  /** The writer still accepts records. */
  ghost predicate Accepts(m: Match, w: nat) {
    w < |m.writers| && !m.marker && !m.writers[w].exhausted
  }

  /** The record is recorded exactly when the writer accepts it, it passes neither budget and the write succeeds; one
      that passes a budget leaves a gap record in its place, and everything is refused behind the marker or by an
      exhausted writer. */
  lemma EmitAnswers(m: Match, w: nat, size: nat, gapSize: nat, stored: bool)
    requires w < |m.writers|
    ensures var receipt := Emitted(m, w, size, gapSize, stored).1;
      && (receipt == Refused(true) <==> m.marker)
      && (receipt == Refused(false) <==> !m.marker && m.writers[w].exhausted)
      && (receipt == WriteFailed <==> Accepts(m, w) && !stored)
      && (receipt == Written(m.writers[w].sequence + 1, true) <==>
            Accepts(m, w) && stored && !PassesMatch(m, w, size) && !PassesStream(m, w, size))
      && (receipt == Written(m.writers[w].sequence + 1, false) <==>
            Accepts(m, w) && stored && (PassesMatch(m, w, size) || PassesStream(m, w, size)))
  {
    TotalIsBytes(m.records, |m.records|);
    assert m.records[..|m.records|] == m.records;
  }

  /** A refused attempt changes nothing. Any other takes the next number and, if the write succeeds, appends the
      record or its gap record; passing a budget exhausts the writer, passing that of the match leaves the marker. */
  lemma EmitEffect(m: Match, w: nat, size: nat, gapSize: nat, stored: bool)
    requires w < |m.writers|
    ensures var m' := Emitted(m, w, size, gapSize, stored).0;
      && (!Accepts(m, w) ==> m' == m)
      && (Accepts(m, w) ==>
            && var passes := PassesMatch(m, w, size) || PassesStream(m, w, size);
            && var taken := if passes then gapSize else size;
            && m'.before == m.before && m'.marker == PassesMatch(m, w, size) && |m'.writers| == |m.writers|
            && (forall v | 0 <= v < |m.writers| && v != w :: m'.writers[v] == m.writers[v])
            && m'.writers[w].most == m.writers[w].most && m'.writers[w].mostOfMatch == m.writers[w].mostOfMatch
            && m'.writers[w].sequence == m.writers[w].sequence + 1 && m'.writers[w].exhausted == passes
            && m'.writers[w].bytes == m.writers[w].bytes + (if stored then taken else 0)
            && m'.records == m.records
                 + if stored
                   then [Record(w, m.writers[w].sequence + 1, if passes then CaptureGap else Data, taken)] else [])
  {
    TotalIsBytes(m.records, |m.records|);
    assert m.records[..|m.records|] == m.records;
  }

  // ----- Every interleaving ------------------------------------------------------------------

  datatype Attempt = Attempt(writer: nat, size: nat, gapSize: nat, stored: bool)

  ghost function After(m: Match, attempts: seq<Attempt>, n: nat): Match
    requires n <= |attempts|
  {
    if n == 0 then m
    else
      var before := After(m, attempts, n - 1);
      var a := attempts[n - 1];
      if a.writer < |before.writers| then Emitted(before, a.writer, a.size, a.gapSize, a.stored).0 else before
  }

  /** Record `p` kept within the budgets when it was appended. */
  ghost predicate Within(m: Match, p: nat)
    requires p < |m.records|
  {
    var r := m.records[p];
    r.stream < |m.writers| && (r.kind.Data? ==>
      && BytesOf(m.records, r.stream, p + 1) <= m.writers[r.stream].most
      && m.before + Total(m.records, p + 1) <= m.writers[r.stream].mostOfMatch)
  }

  /** A gap record ends its stream. */
  ghost predicate Ends(m: Match, p: nat)
    requires p < |m.records|
  {
    var r := m.records[p];
    r.kind.CaptureGap? ==>
      r.stream < |m.writers| && m.writers[r.stream].exhausted
      && forall q | p < q < |m.records| :: m.records[q].stream != r.stream
  }

  /** Record `p` carries the number of records of its stream up to it, when no write failed. */
  ghost predicate Numbered(m: Match, p: nat, reliable: bool)
    requires p < |m.records|
  {
    var r := m.records[p];
    && CountOf(m.records, r.stream, p) + 1 <= r.sequence
    && (reliable ==> r.sequence == CountOf(m.records, r.stream, p) + 1)
    && r.stream < |m.writers| && r.sequence <= m.writers[r.stream].sequence
    && forall q | 0 <= q < p :: m.records[q].stream == r.stream ==> m.records[q].sequence < r.sequence
  }

  ghost predicate Counted(m: Match, w: nat, reliable: bool)
    requires w < |m.writers|
  {
    && m.writers[w].bytes == BytesOf(m.records, w, |m.records|)
    && CountOf(m.records, w, |m.records|) <= m.writers[w].sequence
    && (reliable ==> m.writers[w].sequence == CountOf(m.records, w, |m.records|))
  }

  ghost predicate Sound(m: Match, reliable: bool) {
    && (forall p | 0 <= p < |m.records| :: Within(m, p))
    && (forall p | 0 <= p < |m.records| :: Ends(m, p))
    && (forall p | 0 <= p < |m.records| :: Numbered(m, p, reliable))
    && (forall w | 0 <= w < |m.writers| :: Counted(m, w, reliable))
  }

  lemma {:induction false} PrefixesStand(records: seq<Record>, record: Record, stream: nat, n: nat)
    requires n <= |records|
    ensures Total(records + [record], n) == Total(records, n)
    ensures BytesOf(records + [record], stream, n) == BytesOf(records, stream, n)
    ensures CountOf(records + [record], stream, n) == CountOf(records, stream, n)
  {
    if n == 0 {
    } else {
      PrefixesStand(records, record, stream, n - 1);
    }
  }

  lemma AppendKeepsSound(m: Match, m': Match, w: nat, reliable: bool)
    requires Sound(m, reliable) && w < |m.writers|
    requires var old', new' := m.writers[w], m'.writers;
      && !old'.exhausted && m'.before == m.before && |m'.records| == |m.records| + 1
      && m'.records == m.records + [m'.records[|m.records|]]
      && var record := m'.records[|m.records|];
         && record.stream == w && record.sequence == old'.sequence + 1
         && m'.writers == m.writers[w := old'.(sequence := old'.sequence + 1, exhausted := record.kind.CaptureGap?,
                                               bytes := old'.bytes + record.size)]
         && (record.kind.Data? ==>
               && old'.bytes + record.size <= old'.most
               && m.before + Total(m.records, |m.records|) + record.size <= old'.mostOfMatch)
    ensures Sound(m', reliable)
  {
    var n := |m.records|;
    var record := m'.records[n];
    assert Counted(m, w, reliable);
    forall p | 0 <= p < n + 1
      ensures Within(m', p)
      ensures Ends(m', p)
      ensures Numbered(m', p, reliable)
    {
      PrefixesStand(m.records, record, m'.records[p].stream, p);
      PrefixesStand(m.records, record, w, n);
      if p < n {
        assert Within(m, p) && Ends(m, p) && Numbered(m, p, reliable);
        PrefixesStand(m.records, record, m'.records[p].stream, p + 1);
      } else {
        forall q | 0 <= q < n && m'.records[q].stream == w ensures m'.records[q].sequence < record.sequence {
          assert Numbered(m, q, reliable);
        }
      }
    }
    forall v | 0 <= v < |m'.writers| ensures Counted(m', v, reliable) {
      assert Counted(m, v, reliable);
      PrefixesStand(m.records, record, v, n);
    }
  }

  lemma EmitKeepsSound(m: Match, a: Attempt, reliable: bool)
    requires Sound(m, reliable) && a.writer < |m.writers| && (reliable ==> a.stored)
    ensures Sound(Emitted(m, a.writer, a.size, a.gapSize, a.stored).0, reliable)
  {
    var m' := Emitted(m, a.writer, a.size, a.gapSize, a.stored).0;
    if |m'.records| > |m.records| {
      AppendKeepsSound(m, m', a.writer, reliable);
    } else {
      forall p | 0 <= p < |m.records|
        ensures Within(m', p) && Ends(m', p) && Numbered(m', p, reliable)
      {
        assert Within(m, p) && Ends(m, p) && Numbered(m, p, reliable);
      }
      forall v | 0 <= v < |m'.writers| ensures Counted(m', v, reliable) {
        assert Counted(m, v, reliable);
      }
    }
  }

  /** Every match starts without records of its own. */
  ghost predicate Fresh(m: Match) {
    && m.records == [] && !m.marker
    && forall w | 0 <= w < |m.writers| ::
         m.writers[w] == Writer(0, 0, false, m.writers[w].most, m.writers[w].mostOfMatch)
  }

  /** However the writers interleave: no data record passes a budget, a gap record is the last of its
      stream, and numbers rise, without holes as long as every write succeeds. */
  lemma {:induction false} EveryInterleavingIsSound(m: Match, attempts: seq<Attempt>, n: nat, reliable: bool)
    requires Fresh(m) && n <= |attempts| && (reliable ==> forall a | a in attempts :: a.stored)
    ensures Sound(After(m, attempts, n), reliable)
  {
    if n == 0 {
    } else {
      EveryInterleavingIsSound(m, attempts, n - 1, reliable);
      var before, a := After(m, attempts, n - 1), attempts[n - 1];
      if a.writer < |before.writers| { EmitKeepsSound(before, a, reliable); }
    }
  }

  /** Once the capacity marker exists nothing is written any more, by any writer. */
  lemma {:induction false} MarkerIsFinal(m: Match, attempts: seq<Attempt>, k: nat, n: nat)
    requires k <= n <= |attempts| && After(m, attempts, k).marker
    ensures After(m, attempts, n) == After(m, attempts, k)
  {
    if k == n {
    } else {
      MarkerIsFinal(m, attempts, k, n - 1);
    }
  }

  /** A writer that went over a budget writes nothing more. */
  lemma {:induction false} ExhaustedIsFinal(m: Match, attempts: seq<Attempt>, w: nat, k: nat, n: nat)
    requires k <= n <= |attempts| && w < |After(m, attempts, k).writers| && After(m, attempts, k).writers[w].exhausted
    ensures w < |After(m, attempts, n).writers| && After(m, attempts, n).writers[w] == After(m, attempts, k).writers[w]
    ensures |After(m, attempts, k).records| <= |After(m, attempts, n).records|
    ensures forall p | |After(m, attempts, k).records| <= p < |After(m, attempts, n).records| ::
      After(m, attempts, n).records[p].stream != w
  {
    if k == n {
    } else {
      ExhaustedIsFinal(m, attempts, w, k, n - 1);
    }
  }

  /** At most one gap record per stream. */
  lemma OneGapAtMost(m: Match, attempts: seq<Attempt>, p: nat, q: nat)
    requires Fresh(m)
    requires var r := After(m, attempts, |attempts|).records;
      p < |r| && q < |r| && r[p].kind.CaptureGap? && r[q].kind.CaptureGap? && r[p].stream == r[q].stream
    ensures p == q
  {
    EveryInterleavingIsSound(m, attempts, |attempts|, false);
    var last := After(m, attempts, |attempts|);
    assert Ends(last, p) && Ends(last, q);
  }

  ghost function ReceiptAt(m: Match, attempts: seq<Attempt>, k: nat): Receipt
    requires k < |attempts| && attempts[k].writer < |After(m, attempts, k).writers|
  {
    var a := attempts[k];
    Emitted(After(m, attempts, k), a.writer, a.size, a.gapSize, a.stored).1
  }

  /** Attempt `k` left this record behind, and its receipt says so. */
  ghost predicate Left(m: Match, attempts: seq<Attempt>, k: nat, record: Record) {
    && k < |attempts| && attempts[k].writer < |After(m, attempts, k).writers| && record.stream == attempts[k].writer
    && ReceiptAt(m, attempts, k) == Written(record.sequence, record.kind.Data?)
    && (record.kind.Data? ==> record.size == attempts[k].size)
  }

  lemma {:induction false} RecordsStay(m: Match, attempts: seq<Attempt>, k: nat, n: nat)
    requires k <= n <= |attempts|
    ensures After(m, attempts, k).records <= After(m, attempts, n).records
    ensures |After(m, attempts, n).writers| == |m.writers|
  {
    if n == 0 {
    } else if k == n {
      RecordsStay(m, attempts, k - 1, n - 1);
    } else {
      RecordsStay(m, attempts, k, n - 1);
    }
  }

  /** A receipt of something written goes with one appended record, and says recorded exactly when it is a
      data record with its number. */
  lemma ReceiptIsHonest(m: Match, a: Attempt)
    requires a.writer < |m.writers|
    ensures var (m', receipt) := Emitted(m, a.writer, a.size, a.gapSize, a.stored);
      && (!receipt.Written? ==> m'.records == m.records)
      && (receipt.Written? ==>
            && receipt.sequence == m.writers[a.writer].sequence + 1
            && m'.records
                 == m.records + [if receipt.recorded then Record(a.writer, receipt.sequence, Data, a.size)
                                 else Record(a.writer, receipt.sequence, CaptureGap, a.gapSize)])
  {}

  lemma AfterAttempt(m: Match, attempts: seq<Attempt>, k: nat)
    requires k < |attempts|
    ensures var before, a := After(m, attempts, k), attempts[k];
      After(m, attempts, k + 1)
        == if a.writer < |before.writers| then Emitted(before, a.writer, a.size, a.gapSize, a.stored).0 else before
  {}

  /** One attempt appends at most one record, and its receipt tells which. */
  lemma AttemptLeaves(m: Match, attempts: seq<Attempt>, k: nat)
    requires k < |attempts|
    ensures var before, after := After(m, attempts, k).records, After(m, attempts, k + 1).records;
      && before <= after && |after| <= |before| + 1
      && (|after| > |before| ==> Left(m, attempts, k, after[|before|]))
      && (attempts[k].writer < |After(m, attempts, k).writers| && ReceiptAt(m, attempts, k).Written? ==>
            |after| > |before|)
  {
    hide After, Emitted;
    AfterAttempt(m, attempts, k);
    if attempts[k].writer < |After(m, attempts, k).writers| { ReceiptIsHonest(After(m, attempts, k), attempts[k]); }
  }

  /** Every receipt of something written stands for a record that stays in the log, a data record exactly when
      it says recorded. */
  lemma ReceiptStands(m: Match, attempts: seq<Attempt>, k: nat, n: nat)
    requires k < n <= |attempts| && attempts[k].writer < |m.writers|
    ensures attempts[k].writer < |After(m, attempts, k).writers|
    ensures ReceiptAt(m, attempts, k).Written? ==>
      exists p | 0 <= p < |After(m, attempts, n).records| ::
        Left(m, attempts, k, After(m, attempts, n).records[p])
  {
    hide After, Emitted, Left;
    RecordsStay(m, attempts, 0, k);
    AttemptLeaves(m, attempts, k);
    RecordsStay(m, attempts, k + 1, n);
    var at := |After(m, attempts, k).records|;
    if ReceiptAt(m, attempts, k).Written? {
      assert After(m, attempts, n).records[at] == After(m, attempts, k + 1).records[at];
    }
  }

  /** And every record of the log has the receipt of the attempt that left it. */
  lemma {:induction false} RecordHasReceipt(m: Match, attempts: seq<Attempt>, n: nat, p: nat) returns (k: nat)
    requires Fresh(m) && n <= |attempts| && p < |After(m, attempts, n).records|
    ensures k < n && Left(m, attempts, k, After(m, attempts, n).records[p])
  {
    hide Emitted, Left;
    if n == 0 {
      assert false;
    } else {
      AttemptLeaves(m, attempts, n - 1);
      if p < |After(m, attempts, n - 1).records| {
        k := RecordHasReceipt(m, attempts, n - 1, p);
      } else {
        k := n - 1;
      }
    }
  }

  // ----- Why a capture stops -----------------------------------------------------------------

  /** Attempt `k` came to a writer that accepted it, and would have passed a budget. */
  ghost predicate Passed(m: Match, attempts: seq<Attempt>, k: nat, w: nat) {
    && k < |attempts| && attempts[k].writer == w && Accepts(After(m, attempts, k), w)
    && (PassesMatch(After(m, attempts, k), w, attempts[k].size)
        || PassesStream(After(m, attempts, k), w, attempts[k].size))
  }

  /** Attempt `k` would have passed the budget of the whole match. */
  ghost predicate PassedMatch(m: Match, attempts: seq<Attempt>, k: nat) {
    && k < |attempts| && Accepts(After(m, attempts, k), attempts[k].writer)
    && PassesMatch(After(m, attempts, k), attempts[k].writer, attempts[k].size)
  }

  /** A writer is exhausted only by an attempt of its own that would have passed one of the two budgets. */
  lemma {:induction false} ExhaustionHasReason(m: Match, attempts: seq<Attempt>, n: nat, w: nat) returns (k: nat)
    requires Fresh(m) && n <= |attempts| && w < |After(m, attempts, n).writers|
    requires After(m, attempts, n).writers[w].exhausted
    ensures k < n && Passed(m, attempts, k, w)
  {
    hide Emitted, Bytes;
    if n == 0 {
      assert false;
    } else {
      var before, a := After(m, attempts, n - 1), attempts[n - 1];
      AfterAttempt(m, attempts, n - 1);
      if a.writer < |before.writers| { EmitEffect(before, a.writer, a.size, a.gapSize, a.stored); }
      if before.writers[w].exhausted {
        k := ExhaustionHasReason(m, attempts, n - 1, w);
      } else {
        k := n - 1;
      }
    }
  }

  /** The marker exists only when an attempt would have passed the budget of the match. */
  lemma {:induction false} MarkerHasReason(m: Match, attempts: seq<Attempt>, n: nat) returns (k: nat)
    requires Fresh(m) && n <= |attempts| && After(m, attempts, n).marker
    ensures k < n && PassedMatch(m, attempts, k)
  {
    hide Emitted, Bytes;
    if n == 0 {
      assert false;
    } else {
      var before, a := After(m, attempts, n - 1), attempts[n - 1];
      AfterAttempt(m, attempts, n - 1);
      if a.writer < |before.writers| { EmitEffect(before, a.writer, a.size, a.gapSize, a.stored); }
      if before.marker {
        k := MarkerHasReason(m, attempts, n - 1);
      } else {
        k := n - 1;
      }
    }
  }

  /** Each gap record stands for an attempt of its stream that would have passed one of the two budgets. */
  lemma GapHasReason(m: Match, attempts: seq<Attempt>, n: nat, p: nat) returns (k: nat)
    requires Fresh(m) && n <= |attempts| && p < |After(m, attempts, n).records|
    requires After(m, attempts, n).records[p].kind.CaptureGap?
    ensures k < n && Passed(m, attempts, k, After(m, attempts, n).records[p].stream)
  {
    hide Emitted, Bytes, After;
    k := RecordHasReceipt(m, attempts, n, p);
    var a := attempts[k];
    EmitAnswers(After(m, attempts, k), a.writer, a.size, a.gapSize, a.stored);
  }
}
