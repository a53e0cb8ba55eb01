/** Reassembly of the lines of a provider stream from chunks of any size. */
module StreamCapture {
  import opened Bytes

  /** The lines that end in `data` when `pending` came before, and what is left over. */
  ghost function Split(pending: Line, data: seq<Byte>): (seq<Line>, Line)
    decreases |data|
  {
    if data == [] then ([], pending)
    else if data[0] == NEWLINE then
      var (lines, tail) := Split([], data[1..]);
      ([pending] + lines, tail)
    else Split(pending + [data[0]], data[1..])
  }

  /** Independent of chunks: the newline split of the whole stream, with a last line that has no newline. */
  ghost function WholeLines(bytes: seq<Byte>): seq<Line> {
    var (lines, tail) := Split([], bytes);
    if tail == [] then lines else lines + [tail]
  }

  lemma {:induction false} SplitConcat(pending: Line, a: seq<Byte>, b: seq<Byte>)
    ensures var (lines, tail) := Split(pending, a);
      Split(pending, a + b) == (lines + Split(tail, b).0, Split(tail, b).1)
    decreases |a|
  {
    if a == [] {
      assert a + b == b && [] + Split(pending, b).0 == Split(pending, b).0;
    } else {
      assert (a + b)[0] == a[0] && (a + b)[1..] == a[1..] + b;
      if a[0] == NEWLINE {
        SplitConcat([], a[1..], b);
        var (lines, tail) := Split([], a[1..]);
        assert [pending] + (lines + Split(tail, b).0) == [pending] + lines + Split(tail, b).0;
      } else {
        SplitConcat(pending + [a[0]], a[1..], b);
      }
    }
  }

  ghost predicate Unbroken(line: Line) {
    forall i | 0 <= i < |line| :: line[i] != NEWLINE
  }

  lemma {:induction false} UnbrokenIsPending(pending: Line, line: Line, rest: seq<Byte>)
    requires Unbroken(line)
    ensures Split(pending, line + rest) == Split(pending + line, rest)
    decreases |line|
  {
    if line == [] {
      assert line + rest == rest && pending + line == pending;
    } else {
      assert (line + rest)[0] == line[0] && (line + rest)[1..] == line[1..] + rest;
      UnbrokenIsPending(pending + [line[0]], line[1..], rest);
      assert pending + [line[0]] + line[1..] == pending + line;
    }
  }

  lemma FirstLine(pending: seq<Byte>, i: nat)
    requires i < |pending| && pending[i] == NEWLINE && Unbroken(pending[..i])
    ensures Split([], pending) == ([pending[..i]] + Split([], pending[i + 1..]).0, Split([], pending[i + 1..]).1)
  {
    assert pending == pending[..i] + pending[i..];
    UnbrokenIsPending([], pending[..i], pending[i..]);
    assert [] + pending[..i] == pending[..i] && pending[i..][1..] == pending[i + 1..];
  }

  lemma NoLine(pending: seq<Byte>)
    requires Unbroken(pending)
    ensures Split([], pending) == ([], pending)
  {
    assert pending == pending + [];
    UnbrokenIsPending([], pending, []);
    assert [] + pending == pending;
  }

  /** The lines written out again, each with its newline. */
  ghost function Unlines(lines: seq<Line>): seq<Byte> {
    if lines == [] then [] else lines[0] + [10] + Unlines(lines[1..])
  }

  /** The data is these lines, each ended by a newline, and the tail; there is no other newline in it. */
  ghost predicate CutInto(data: seq<Byte>, lines: seq<Line>, tail: Line) {
    && data == Unlines(lines) + tail
    && (forall k | 0 <= k < |lines| :: 10 !in lines[k]) && 10 !in tail
  }

  lemma CutOneMore(line: Line, lines: seq<Line>, tail: Line, data: seq<Byte>)
    requires Unbroken(line) && CutInto(data, lines, tail)
    ensures CutInto(line + [10] + data, [line] + lines, tail)
  {
    assert ([line] + lines)[1..] == lines;
    assert line + [10] + (Unlines(lines) + tail) == line + [10] + Unlines(lines) + tail;
  }

  lemma NothingCut(pending: Line)
    requires Unbroken(pending)
    ensures CutInto(pending, [], pending)
  {
    assert [] + pending == pending;
  }

  lemma {:induction false} SplitCuts(pending: Line, data: seq<Byte>)
    requires Unbroken(pending)
    ensures CutInto(pending + data, Split(pending, data).0, Split(pending, data).1)
    decreases |data|
  {
    hide CutInto;
    if data == [] {
      assert CutInto(pending + data, [], pending) by { NothingCut(pending); assert pending + data == pending; }
    } else if data[0] == NEWLINE {
      SplitCuts([], data[1..]);
      assert [] + data[1..] == data[1..];
      CutOneMore(pending, Split([], data[1..]).0, Split([], data[1..]).1, data[1..]);
      assert pending + [10] + data[1..] == pending + data;
    } else {
      SplitCuts(pending + [data[0]], data[1..]);
      assert pending + [data[0]] + data[1..] == pending + data;
    }
  }

  /** There is one way to cut a stream into lines and a tail without a newline. */
  lemma {:induction false} CutsAreUnique(data: seq<Byte>, lines: seq<Line>, tail: Line)
    requires CutInto(data, lines, tail)
    ensures Split([], data) == (lines, tail)
    decreases |lines|
  {
    if lines == [] {
      assert data == tail;
      NoLine(tail);
    } else {
      var line, rest := lines[0], Unlines(lines[1..]) + tail;
      assert Unbroken(line);
      assert data == line + ([10] + rest);
      UnbrokenIsPending([], line, [10] + rest);
      assert [] + line == line && ([10] + rest)[1..] == rest;
      assert forall k | 0 <= k < |lines| - 1 :: lines[1..][k] == lines[k + 1];
      CutsAreUnique(rest, lines[1..], tail);
      assert [line] + lines[1..] == lines;
    }
  }

  /** The lines of a whole stream: what its newlines end, and a last line without one if anything is left. */
  lemma WholeLinesAre(bytes: seq<Byte>, lines: seq<Line>, tail: Line)
    requires CutInto(bytes, lines, tail)
    ensures WholeLines(bytes) == if tail == [] then lines else lines + [tail]
  {
    CutsAreUnique(bytes, lines, tail);
  }

  // ----- The captured stream -----------------------------------------------------------------

  datatype Capture = Capture(handed: seq<Line>, pending: Line, omitted: bool)

  ghost function Fed(c: Capture, data: seq<Byte>, most: nat): Capture {
    var (lines, tail) := Split(c.pending, data);
    if |tail| > most then Capture(c.handed + lines, [], true) else Capture(c.handed + lines, tail, c.omitted)
  }

  /** The chunk completed these lines and left this tail; an over-long tail is dropped, and that is noted. */
  ghost predicate PassesBy(before: Capture, data: seq<Byte>, most: nat, after: Capture, lines: seq<Line>, tail: Line) {
    && CutInto(before.pending + data, lines, tail)
    && after.handed == before.handed + lines
    && after.pending == (if |tail| > most then [] else tail)
    && (after.omitted <==> before.omitted || |tail| > most)
  }

  ghost predicate Passes(before: Capture, data: seq<Byte>, most: nat, after: Capture) {
    exists lines: seq<Line>, tail: Line :: PassesBy(before, data, most, after, lines, tail)
  }

  lemma FedPasses(c: Capture, data: seq<Byte>, most: nat)
    requires Unbroken(c.pending)
    ensures Passes(c, data, most, Fed(c, data, most))
  {
    SplitCuts(c.pending, data);
    var (lines, tail) := Split(c.pending, data);
    assert PassesBy(c, data, most, Fed(c, data, most), lines, tail);
  }

  ghost function FedAll(chunks: seq<seq<Byte>>, n: nat, most: nat): Capture
    requires n <= |chunks|
  {
    if n == 0 then Capture([], [], false) else Fed(FedAll(chunks, n - 1, most), chunks[n - 1], most)
  }

  /** The lines handed on when the stream is exhausted. */
  ghost function Handed(chunks: seq<seq<Byte>>, most: nat): seq<Line> {
    var c := FedAll(chunks, |chunks|, most);
    if c.pending == [] then c.handed else c.handed + [c.pending]
  }

  class CapturedStream {
    const most: nat
    var pending: seq<Byte>
    var handed: seq<Line>
    var omitted: bool
    var finished: bool

    ghost function State(): Capture
      reads this
    {
      Capture(handed, pending, omitted)
    }

    constructor (most: nat)
      ensures this.most == most && State() == Capture([], [], false) && !finished
    {
      this.most := most;
      pending, handed, omitted, finished := [], [], false, false;
    }

    /** Hands on the lines that are complete. */
    method HandOn()
      modifies this
      ensures (handed, pending) == (old(handed) + Split([], old(pending)).0, Split([], old(pending)).1)
      ensures Unbroken(pending) && omitted == old(omitted) && finished == old(finished)
    {
      ghost var first := Split([], pending);
      var i := 0;
      while i < |pending|
        invariant i <= |pending| && Unbroken(pending[..i]) && finished == old(finished) && omitted == old(omitted)
        invariant handed + Split([], pending).0 == old(handed) + first.0 && Split([], pending).1 == first.1
        decreases |pending| - i + |pending|
      {
        if pending[i] == NEWLINE {
          FirstLine(pending, i);
          assert handed + ([pending[..i]] + Split([], pending[i + 1..]).0)
              == handed + [pending[..i]] + Split([], pending[i + 1..]).0;
          handed := handed + [pending[..i]];
          pending, i := pending[i + 1..], 0;
        } else {
          i := i + 1;
        }
      }
      assert pending[..i] == pending && handed + [] == handed;
      NoLine(pending);
    }

    /** One chunk passes through unchanged; its lines are handed on. */
    method Pass(data: seq<Byte>) returns (yielded: seq<Byte>)
      requires Unbroken(pending)
      modifies this
      ensures State() == Fed(old(State()), data, most) && Unbroken(pending)
      ensures yielded == data && finished == old(finished)
      ensures Passes(old(State()), data, most, State())
    {
      hide Passes, Split;
      FedPasses(State(), data, most);
      UnbrokenIsPending([], pending, data);
      assert [] + pending == pending;
      pending := pending + data;
      HandOn();
      if |pending| > most {
        pending, omitted := [], true;
      }
      yielded := data;
    }

    /** Iterating over the stream to its end. */
    method Iterate(chunks: seq<seq<Byte>>) returns (yielded: seq<seq<Byte>>)
      requires State() == Capture([], [], false)
      modifies this
      ensures yielded == chunks && finished
      ensures handed == Handed(chunks, most) && omitted == FedAll(chunks, |chunks|, most).omitted
    {
      yielded := [];
      for n := 0 to |chunks|
        invariant State() == FedAll(chunks, n, most) && Unbroken(pending) && yielded == chunks[..n]
      {
        var data := Pass(chunks[n]);
        yielded := yielded + [data];
      }
      if pending != [] {
        handed := handed + [pending];
      }
      finished := true;
    }
  }

  // ----- Chunking ----------------------------------------------------------------------------

  ghost function Joined(chunks: seq<seq<Byte>>, n: nat): seq<Byte>
    requires n <= |chunks|
  {
    if n == 0 then [] else Joined(chunks, n - 1) + chunks[n - 1]
  }

  ghost predicate Short(lines: seq<Line>, most: nat) {
    forall i | 0 <= i < |lines| :: |lines[i]| <= most
  }

  /** Until something is omitted the capture has exactly the lines of what came so far. */
  lemma {:induction false} NothingOmittedSoFar(chunks: seq<seq<Byte>>, n: nat, most: nat)
    requires n <= |chunks| && !FedAll(chunks, n, most).omitted
    ensures (FedAll(chunks, n, most).handed, FedAll(chunks, n, most).pending) == Split([], Joined(chunks, n))
  {
    if n == 0 {
    } else {
      NothingOmittedSoFar(chunks, n - 1, most);
      SplitConcat([], Joined(chunks, n - 1), chunks[n - 1]);
    }
  }

  /** Whatever the chunks, a capture that omitted nothing is the newline split of the stream. */
  lemma NothingOmittedMeansExact(chunks: seq<seq<Byte>>, most: nat)
    requires !FedAll(chunks, |chunks|, most).omitted
    ensures Handed(chunks, most) == WholeLines(Joined(chunks, |chunks|))
  {
    NothingOmittedSoFar(chunks, |chunks|, most);
  }

  /** The text left over grows into the first line that ends, or into what is left over. */
  lemma {:induction false} PendingIsShort(pending: Line, data: seq<Byte>, most: nat)
    requires Short(Split(pending, data).0, most) && |Split(pending, data).1| <= most
    ensures |pending| <= most
    decreases |data|
  {
    if data == [] {
    } else if data[0] == NEWLINE {
      assert Split(pending, data).0[0] == pending;
    } else {
      PendingIsShort(pending + [data[0]], data[1..], most);
    }
  }

  lemma {:induction false} ShortLinesAreKept(chunks: seq<seq<Byte>>, n: nat, rest: seq<Byte>, most: nat)
    requires n <= |chunks|
    requires var (lines, tail) := Split([], Joined(chunks, n) + rest); Short(lines, most) && |tail| <= most
    ensures !FedAll(chunks, n, most).omitted
  {
    if n == 0 {
    } else {
      var before, data := Joined(chunks, n - 1), chunks[n - 1];
      assert Joined(chunks, n) + rest == before + (data + rest);
      ShortLinesAreKept(chunks, n - 1, data + rest, most);
      NothingOmittedSoFar(chunks, n - 1, most);
      SplitConcat([], Joined(chunks, n), rest);
      SplitConcat([], before, data);
      var (lines, tail) := Split([], Joined(chunks, n));
      forall i | 0 <= i < |Split(tail, rest).0| ensures |Split(tail, rest).0[i]| <= most {
        assert Split(tail, rest).0[i] == Split([], Joined(chunks, n) + rest).0[|lines| + i];
      }
      PendingIsShort(tail, rest, most);
    }
  }

  /** A stream of short lines is captured exactly, however it is cut into chunks. */
  lemma ShortLinesAreExact(chunks: seq<seq<Byte>>, most: nat)
    requires Short(WholeLines(Joined(chunks, |chunks|)), most)
    ensures Handed(chunks, most) == WholeLines(Joined(chunks, |chunks|)) && !FedAll(chunks, |chunks|, most).omitted
  {
    var all := Joined(chunks, |chunks|);
    assert all + [] == all;
    var (lines, tail) := Split([], all);
    assert tail != [] ==> WholeLines(all)[|lines|] == tail;
    assert forall i | 0 <= i < |lines| :: WholeLines(all)[i] == lines[i];
    ShortLinesAreKept(chunks, |chunks|, [], most);
    NothingOmittedMeansExact(chunks, most);
  }

  /** The stream one byte at a time. */
  ghost function Bytewise(bytes: seq<Byte>): seq<seq<Byte>> {
    seq(|bytes|, i requires 0 <= i < |bytes| => [bytes[i]])
  }

  lemma {:induction false} BytewiseJoins(bytes: seq<Byte>, n: nat)
    requires n <= |bytes|
    ensures Joined(Bytewise(bytes), n) == bytes[..n]
  {
    if n == 0 {
    } else {
      BytewiseJoins(bytes, n - 1);
    }
  }

  lemma OneByte(pending: Line, b: Byte)
    ensures Split(pending, [b]) == if b == NEWLINE then ([pending], []) else ([], pending + [b])
  {
    assert [b][1..] == [] && [pending] + [] == [pending];
  }

  lemma {:induction false} BytewiseIsShort(bytes: seq<Byte>, n: nat, most: nat)
    requires n <= |bytes|
    ensures var c := FedAll(Bytewise(bytes), n, most); Short(c.handed, most) && |c.pending| <= most
  {
    if n == 0 {
    } else {
      BytewiseIsShort(bytes, n - 1, most);
      var c := FedAll(Bytewise(bytes), n - 1, most);
      OneByte(c.pending, bytes[n - 1]);
    }
  }

  ghost predicate Chunking(chunks: seq<seq<Byte>>, bytes: seq<Byte>) {
    Joined(chunks, |chunks|) == bytes
  }

  /** Every chunking hands on the newline split of the stream exactly when no line is over-long. */
  lemma EveryChunkingIsExact(bytes: seq<Byte>, most: nat)
    ensures (forall chunks | Chunking(chunks, bytes) :: Handed(chunks, most) == WholeLines(bytes))
      <==> Short(WholeLines(bytes), most)
  {
    if Short(WholeLines(bytes), most) {
      forall chunks | Chunking(chunks, bytes) ensures Handed(chunks, most) == WholeLines(bytes) {
        ShortLinesAreExact(chunks, most);
      }
    }
    var single := Bytewise(bytes);
    BytewiseJoins(bytes, |bytes|);
    assert bytes[..|bytes|] == bytes;
    BytewiseIsShort(bytes, |bytes|, most);
    assert Chunking(single, bytes) && Short(Handed(single, most), most);
  }

  /** The lines and the rest that a whole stream has. */
  ghost predicate Bearable(bytes: seq<Byte>, most: nat) {
    Short(Split([], bytes).0, most) && (most == 0 || |Split([], bytes).1| <= most + 1)
  }

  /** The lines handed on when all chunkings agree: a rest that is over-long is lost. */
  ghost function Agreed(bytes: seq<Byte>, most: nat): seq<Line> {
    var (lines, tail) := Split([], bytes);
    if tail == [] || |tail| > most then lines else lines + [tail]
  }

  /** What is pending grows into the next line, or into the rest. */
  lemma {:induction false} PendingGrows(pending: Line, data: seq<Byte>)
    ensures Split(pending, data).0 != [] ==> |Split(pending, data).0[0]| >= |pending|
    ensures Split(pending, data).0 == [] ==> Split(pending, data).1 == pending + data
    decreases |data|
  {
    if data == [] {
      assert pending + data == pending;
    } else if data[0] != NEWLINE {
      PendingGrows(pending + [data[0]], data[1..]);
      assert pending + [data[0]] + data[1..] == pending + data;
    }
  }

  /** Nothing was dropped so far. */
  ghost predicate Complete(c: Capture, so: seq<Byte>, most: nat) {
    (c.handed, c.pending) == Split([], so) && |c.pending| <= most
  }

  /** All lines are handed on, and the over-long rest is being dropped. */
  ghost predicate Losing(c: Capture, bytes: seq<Byte>, rest: seq<Byte>, most: nat) {
    && c.handed == Split([], bytes).0 && c.pending == [] && |Split([], bytes).1| > most
    && (rest == [] || (most == 0 && Split([], rest).0 == []))
  }

  lemma ShortEnd(lines: seq<Line>, more: seq<Line>, most: nat)
    requires Short(lines + more, most)
    ensures Short(more, most)
  {
    forall i | 0 <= i < |more| ensures |more[i]| <= most { assert (lines + more)[|lines| + i] == more[i]; }
  }

  lemma {:induction false} LinesAlike(p: Line, q: Line, rest: seq<Byte>)
    ensures Split(p, rest).0 == [] <==> Split(q, rest).0 == []
    decreases |rest|
  {
    if rest == [] {
    } else if rest[0] != NEWLINE {
      LinesAlike(p + [rest[0]], q + [rest[0]], rest[1..]);
    }
  }

  lemma UnbrokenRest(pending: Line, rest: seq<Byte>)
    ensures Split(pending, rest).0 == [] <==> Split([], rest).0 == []
  {
    LinesAlike(pending, [], rest);
  }

  lemma StillComplete(c: Capture, so: seq<Byte>, data: seq<Byte>, rest: seq<Byte>, most: nat)
    requires Complete(c, so, most) && Bearable(so + data + rest, most)
    ensures Complete(Fed(c, data, most), so + data, most) || Losing(Fed(c, data, most), so + data + rest, rest, most)
  {
    SplitConcat([], so, data);
    SplitConcat([], so + data, rest);
    var (lines, tail) := Split([], so + data);
    if |tail| > most {
      PendingGrows(tail, rest);
      var (more, last) := Split(tail, rest);
      ShortEnd(lines, more, most);
      if more == [] {
        assert lines + more == lines;
        PendingGrows([], rest);
        UnbrokenRest(tail, rest);
      }
    }
  }

  lemma StillLosing(c: Capture, bytes: seq<Byte>, data: seq<Byte>, rest: seq<Byte>, most: nat)
    requires Losing(c, bytes, data + rest, most)
    ensures Losing(Fed(c, data, most), bytes, rest, most)
  {
    if data + rest == [] {
      assert data == [] && rest == [];
    } else {
      SplitConcat([], data, rest);
      UnbrokenRest(Split([], data).1, rest);
    }
    assert Split([], data).0 == [];
    assert c.handed + [] == c.handed;
  }

  lemma {:induction false} EitherWay(chunks: seq<seq<Byte>>, n: nat, rest: seq<Byte>, most: nat)
    requires n <= |chunks| && Bearable(Joined(chunks, n) + rest, most)
    ensures var c := FedAll(chunks, n, most);
      Complete(c, Joined(chunks, n), most) || Losing(c, Joined(chunks, n) + rest, rest, most)
  {
    if n == 0 {
    } else {
      var so, data := Joined(chunks, n - 1), chunks[n - 1];
      assert so + (data + rest) == so + data + rest;
      EitherWay(chunks, n - 1, data + rest, most);
      var c := FedAll(chunks, n - 1, most);
      if Complete(c, so, most) {
        StillComplete(c, so, data, rest, most);
      } else {
        StillLosing(c, so + data + rest, data, rest, most);
      }
    }
  }

  lemma BearableIsAgreed(chunks: seq<seq<Byte>>, bytes: seq<Byte>, most: nat)
    requires Chunking(chunks, bytes) && Bearable(bytes, most)
    ensures Handed(chunks, most) == Agreed(bytes, most)
  {
    assert bytes + [] == bytes;
    EitherWay(chunks, |chunks|, [], most);
  }

  lemma AtOnce(bytes: seq<Byte>, most: nat)
    ensures Chunking([bytes], bytes) && Handed([bytes], most) == Agreed(bytes, most)
  {
    assert Joined([bytes], 0) == [] && [] + bytes == bytes;
    assert FedAll([bytes], 0, most) == Capture([], [], false);
    assert [] + Split([], bytes).0 == Split([], bytes).0;
  }

  /** An over-long line comes through at once and cannot come through byte by byte. */
  lemma LongLineDiffers(bytes: seq<Byte>, most: nat)
    requires !Short(Split([], bytes).0, most)
    ensures Chunking(Bytewise(bytes), bytes) && Handed(Bytewise(bytes), most) != Agreed(bytes, most)
  {
    BytewiseJoins(bytes, |bytes|);
    assert bytes[..|bytes|] == bytes;
    BytewiseIsShort(bytes, |bytes|, most);
    var i :| 0 <= i < |Split([], bytes).0| && |Split([], bytes).0[i]| > most;
    assert Agreed(bytes, most)[i] == Split([], bytes).0[i];
    assert Short(Handed(Bytewise(bytes), most), most);
  }

  /** A rest that is over-long by more than a byte is dropped at once, but its last byte comes through
      alone. */
  lemma LongRestDiffers(bytes: seq<Byte>, most: nat)
    requires most > 0 && |Split([], bytes).1| > most + 1
    ensures bytes != []
    ensures var chunks := [bytes[..|bytes| - 1], bytes[|bytes| - 1..]];
      Chunking(chunks, bytes) && Handed(chunks, most) != Agreed(bytes, most)
  {
    var n := |bytes|;
    var front, last := bytes[..n - 1], bytes[n - 1..];
    var chunks := [front, last];
    assert last == [bytes[n - 1]] && front + last == bytes;
    SplitConcat([], front, last);
    var (lines, rest) := Split([], front);
    OneByte(rest, bytes[n - 1]);
    OneByte([], bytes[n - 1]);
    assert lines + [] == lines;
    assert Joined(chunks, 0) == [] && Joined(chunks, 1) == front && Joined(chunks, 2) == bytes;
    assert FedAll(chunks, 1, most) == Capture(lines, [], true) by {
      assert FedAll(chunks, 0, most) == Capture([], [], false) && [] + lines == lines;
    }
    assert FedAll(chunks, 2, most) == Capture(lines, [bytes[n - 1]], true);
  }

  ghost predicate ChunkingsAgree(bytes: seq<Byte>, most: nat) {
    forall a, b | Chunking(a, bytes) && Chunking(b, bytes) :: Handed(a, most) == Handed(b, most)
  }

  /** The lines handed on are the same for all chunkings exactly when no line that ends is over-long and
      the rest is over-long by at most a byte; a limit of zero drops any rest. */
  lemma ChunkingInvariance(bytes: seq<Byte>, most: nat)
    ensures ChunkingsAgree(bytes, most) <==> Bearable(bytes, most)
  {
    AtOnce(bytes, most);
    if Bearable(bytes, most) {
      forall a, b | Chunking(a, bytes) && Chunking(b, bytes) ensures Handed(a, most) == Handed(b, most) {
        BearableIsAgreed(a, bytes, most);
        BearableIsAgreed(b, bytes, most);
      }
    } else if !Short(Split([], bytes).0, most) {
      LongLineDiffers(bytes, most);
    } else {
      LongRestDiffers(bytes, most);
    }
  }
}
