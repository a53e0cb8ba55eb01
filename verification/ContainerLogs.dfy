/** Multiplexed container logs: frames of a stream byte, three zero bytes, a big-endian length and a payload. */
module ContainerLogs {
  import opened Bytes
  import opened Wrappers

  datatype Frame = Frame(stream: Byte, payload: seq<Byte>)

  /** Three streams exist, and four bytes bound the length of a payload. */
  predicate Framed(f: Frame) {
    f.stream <= 2 && |f.payload| < 0x1_0000_0000
  }

  function BigEndian(n: nat): (r: seq<Byte>)
    requires n < 0x1_0000_0000
    ensures |r| == 4
  {
    [n / 0x100_0000, n / 0x1_0000 % 256, n / 256 % 256, n % 256]
  }

  /** The payload length in an eight-byte header. */
  function Length(header: seq<Byte>): (n: nat)
    requires |header| >= 8
    ensures n < 0x1_0000_0000
  {
    var a: int, b: int, c: int, d: int := header[4], header[5], header[6], header[7];
    a * 0x100_0000 + b * 0x1_0000 + c * 256 + d
  }

  lemma LengthRoundTrips(n: nat, header: seq<Byte>)
    requires n < 0x1_0000_0000 && |header| >= 8 && header[4..8] == BigEndian(n)
    ensures Length(header) == n
  {
    assert header[4..8][0] == header[4] && header[4..8][1] == header[5];
    assert header[4..8][2] == header[6] && header[4..8][3] == header[7];
    assert n / 0x1_0000 == n / 256 / 256 && n / 0x100_0000 == n / 0x1_0000 / 256;
  }

  lemma LastDigit(q: nat, d: Byte)
    ensures (256 * q + d) / 256 == q && (256 * q + d) % 256 == d
  {}

  lemma HigherDigits(n: nat)
    ensures n / 0x1_0000 == n / 256 / 256 && n / 0x100_0000 == n / 256 / 256 / 256
  {}

  /** Bytes are the digits of their number to the base 256. */
  lemma Digits(a: Byte, b: Byte, c: Byte, d: Byte)
    ensures var n: int := a * 0x100_0000 + b * 0x1_0000 + c * 256 + d;
      0 <= n < 0x1_0000_0000 && BigEndian(n) == [a, b, c, d]
  {
    var two: nat := 256 * a + b;
    var three: nat := 256 * two + c;
    LastDigit(a, b);
    LastDigit(two, c);
    LastDigit(three, d);
    HigherDigits(256 * three + d);
  }

  lemma LengthIsEncoded(header: seq<Byte>)
    requires |header| >= 8
    ensures BigEndian(Length(header)) == header[4..8]
  {
    hide BigEndian;
    Digits(header[4], header[5], header[6], header[7]);
  }

  function Encode(f: Frame): seq<Byte>
    requires Framed(f)
  {
    [f.stream, 0, 0, 0] + BigEndian(|f.payload|) + f.payload
  }

  ghost function Encoding(frames: seq<Frame>): seq<Byte>
    requires forall f | f in frames :: Framed(f)
  {
    if frames == [] then [] else Encode(frames[0]) + Encoding(frames[1..])
  }

  ghost function Payloads(frames: seq<Frame>): seq<Byte> {
    if frames == [] then [] else frames[0].payload + Payloads(frames[1..])
  }

  predicate HeaderOk(data: seq<Byte>)
    requires |data| >= 8
  {
    data[0] <= 2 && data[1] == 0 && data[2] == 0 && data[3] == 0
  }

  /** The frames that `data` consists of, if it is a complete frame sequence. */
  ghost function Parse(data: seq<Byte>): (r: Option<seq<Frame>>)
    ensures r.Some? ==> forall f | f in r.value :: Framed(f)
  {
    if data == [] then Some([])
    else if |data| < 8 || !HeaderOk(data) || 8 + Length(data) > |data| then None
    else
      var end := 8 + Length(data);
      match Parse(data[end..])
      case None => None
      case Some(rest) => Some([Frame(data[0], data[8..end])] + rest)
  }

  lemma ParseStep(f: Frame, rest: seq<Byte>)
    requires Framed(f)
    ensures var data := Encode(f) + rest;
      |data| >= 8 && HeaderOk(data) && Length(data) == |f.payload|
      && data[8..8 + |f.payload|] == f.payload && data[8 + |f.payload|..] == rest
  {
    var data := Encode(f) + rest;
    assert data[4..8] == BigEndian(|f.payload|);
    LengthRoundTrips(|f.payload|, data);
  }

  /** Parsing undoes framing. */
  lemma {:induction false} ParseEncoding(frames: seq<Frame>)
    requires forall f | f in frames :: Framed(f)
    ensures Parse(Encoding(frames)) == Some(frames)
  {
    if frames == [] {
    } else {
      ParseStep(frames[0], Encoding(frames[1..]));
      ParseEncoding(frames[1..]);
      assert [Frame(frames[0].stream, frames[0].payload)] + frames[1..] == frames;
    }
  }

  lemma EncodeIsPrefix(data: seq<Byte>, end: nat)
    requires |data| >= 8 && HeaderOk(data) && end == 8 + Length(data) <= |data|
    ensures Framed(Frame(data[0], data[8..end])) && Encode(Frame(data[0], data[8..end])) == data[..end]
  {
    LengthIsEncoded(data);
    var front := [data[0], 0, 0, 0] + BigEndian(end - 8);
    assert front == data[..8] by {
      assert data[..8] == data[..4] + data[4..8];
    }
    assert data[..end] == data[..8] + data[8..end];
  }

  /** One frame more in front. */
  lemma ParseOneMore(data: seq<Byte>, end: nat)
    requires |data| >= 8 && HeaderOk(data) && end == 8 + Length(data) <= |data|
    ensures Parse(data).Some? <==> Parse(data[end..]).Some?
    ensures Parse(data).Some? ==> Parse(data).value == [Frame(data[0], data[8..end])] + Parse(data[end..]).value
  {
    hide Length, HeaderOk, Framed;
  }

  lemma PayloadsOneMore(f: Frame, frames: seq<Frame>)
    ensures Payloads([f] + frames) == f.payload + Payloads(frames)
  {
    assert ([f] + frames)[1..] == frames;
  }

  lemma EncodingOneMore(f: Frame, frames: seq<Frame>)
    requires Framed(f) && forall g | g in frames :: Framed(g)
    ensures Encoding([f] + frames) == Encode(f) + Encoding(frames)
  {
    hide Encode, Framed;
    assert ([f] + frames)[1..] == frames;
  }

  lemma NotAFrame(data: seq<Byte>)
    requires data != [] && Parse(data).Some?
    ensures |data| >= 8 && HeaderOk(data) && 8 + Length(data) <= |data|
  {}

  lemma SoundStep(data: seq<Byte>, end: nat, rest: seq<Frame>)
    requires |data| >= 8 && HeaderOk(data) && end == 8 + Length(data) <= |data|
    requires (forall f | f in rest :: Framed(f)) && Encoding(rest) == data[end..]
    ensures var frames := [Frame(data[0], data[8..end])] + rest;
      (forall f | f in frames :: Framed(f)) && Encoding(frames) == data
  {
    hide Encode, Length, HeaderOk, Framed, Encoding;
    EncodeIsPrefix(data, end);
    EncodingOneMore(Frame(data[0], data[8..end]), rest);
    assert data == data[..end] + data[end..];
  }

  lemma ParseNothing()
    ensures Parse([]) == Some([]) && Encoding([]) == []
  {}

  /** Only framed data parses: the frames found encode to exactly the bytes given. */
  lemma {:induction false} ParseIsSound(data: seq<Byte>)
    requires Parse(data).Some?
    ensures Encoding(Parse(data).value) == data
  {
    hide Encode, Length, HeaderOk, Framed, Encoding, Parse;
    if data == [] {
      ParseNothing();
    } else {
      NotAFrame(data);
      var end := 8 + Length(data);
      ParseOneMore(data, end);
      ParseIsSound(data[end..]);
      SoundStep(data, end, Parse(data[end..]).value);
    }
  }

  /** Data parses to some frames exactly when it is their encoding. */
  lemma ParsedIffEncoded(data: seq<Byte>, frames: seq<Frame>)
    requires forall f | f in frames :: Framed(f)
    ensures Parse(data) == Some(frames) <==> Encoding(frames) == data
  {
    ParseEncoding(frames);
    if Parse(data).Some? { ParseIsSound(data); }
  }

  /** Framing is injective: no two frame sequences share their bytes. */
  lemma FramingIsInjective(a: seq<Frame>, b: seq<Frame>)
    requires (forall f | f in a :: Framed(f)) && (forall f | f in b :: Framed(f))
    requires Encoding(a) == Encoding(b)
    ensures a == b
  {
    ParseEncoding(a);
    ParseEncoding(b);
  }

  // ----- Frames by position ------------------------------------------------------------------

  /** One frame stands from `at` to `end`: a stream number of at most 2, three zeros, the length of the payload in four
      bytes, the most significant first, and the payload. */
  ghost predicate FrameAt(data: seq<Byte>, at: nat, end: nat) {
    && at + 8 <= end <= |data| && data[at] <= 2 && data[at + 1] == 0 && data[at + 2] == 0 && data[at + 3] == 0
    && var a: int, b: int, c: int, d: int := data[at + 4], data[at + 5], data[at + 6], data[at + 7];
    end - at - 8 == 16777216 * a + 65536 * b + 256 * c + d
  }

  /** The data is a complete frame sequence, which these positions cut into frames. */
  ghost predicate CutAt(data: seq<Byte>, cuts: seq<nat>) {
    && cuts != [] && cuts[|cuts| - 1] == |data|
    && forall k | 0 <= k < |cuts| - 1 :: FrameAt(data, cuts[k], cuts[k + 1])
  }

  lemma CutFurther(data: seq<Byte>, cuts: seq<nat>)
    requires CutAt(data, cuts) && |cuts| > 1
    ensures FrameAt(data, cuts[0], cuts[1]) && CutAt(data, cuts[1..]) && cuts[0] + 8 <= cuts[1] <= |data|
  {
    assert FrameAt(data, cuts[0], cuts[0 + 1]);
    forall k | 0 <= k < |cuts| - 2 ensures FrameAt(data, cuts[1..][k], cuts[1..][k + 1]) {
      assert FrameAt(data, cuts[k + 1], cuts[k + 1 + 1]);
    }
  }

  ghost function PayloadsOf(data: seq<Byte>, cuts: seq<nat>): seq<Byte>
    requires CutAt(data, cuts)
  {
    if |cuts| == 1 then []
    else
      CutFurther(data, cuts);
      data[cuts[0] + 8..cuts[1]] + PayloadsOf(data, cuts[1..])
  }

  lemma FrameIs(data: seq<Byte>, at: nat, end: nat)
    requires at <= end <= |data|
    ensures FrameAt(data, at, end) <==>
      |data[at..]| >= 8 && HeaderOk(data[at..]) && end - at == 8 + Length(data[at..])
  {
    var rest := data[at..];
    assert |rest| >= 8 ==> rest[4] == data[at + 4] && rest[5] == data[at + 5] && rest[6] == data[at + 6];
    assert |rest| >= 8 ==> rest[7] == data[at + 7];
  }

  lemma CutAtEnd(data: seq<Byte>, cuts: seq<nat>)
    requires CutAt(data, cuts) && |cuts| == 1
    ensures cuts[0] == |data| && Parse(data[cuts[0]..]).Some? && Payloads(Parse(data[cuts[0]..]).value) == []
    ensures PayloadsOf(data, cuts) == []
  {
    assert data[|data|..] == [];
  }

  /** Data that is cut into frames parses, to the payloads of these frames. */
  lemma {:induction false} CutParses(data: seq<Byte>, cuts: seq<nat>)
    requires CutAt(data, cuts)
    ensures cuts[0] <= |data| && Parse(data[cuts[0]..]).Some?
    ensures Payloads(Parse(data[cuts[0]..]).value) == PayloadsOf(data, cuts)
    decreases |cuts|
  {
    hide Length, HeaderOk, Parse, Payloads, FrameAt;
    if |cuts| == 1 {
      CutAtEnd(data, cuts);
    } else {
      CutFurther(data, cuts);
      CutParses(data, cuts[1..]);
      FrameIs(data, cuts[0], cuts[1]);
      var rest, end := data[cuts[0]..], cuts[1] - cuts[0];
      assert rest[end..] == data[cuts[1]..] && rest[8..end] == data[cuts[0] + 8..cuts[1]];
      ParseOneMore(rest, end);
      PayloadsOneMore(Frame(rest[0], rest[8..end]), Parse(rest[end..]).value);
    }
  }

  lemma CutEarlier(data: seq<Byte>, at: nat, cuts: seq<nat>)
    requires CutAt(data, cuts) && FrameAt(data, at, cuts[0])
    ensures CutAt(data, [at] + cuts)
  {
    var more := [at] + cuts;
    forall k | 0 <= k < |more| - 1 ensures FrameAt(data, more[k], more[k + 1]) {
      assert k > 0 ==> FrameAt(data, cuts[k - 1], cuts[k - 1 + 1]);
    }
  }

  /** Data that parses can be cut into frames. */
  lemma {:induction false} ParsedCuts(data: seq<Byte>, at: nat) returns (cuts: seq<nat>)
    requires at <= |data| && Parse(data[at..]).Some?
    ensures CutAt(data, cuts) && cuts[0] == at
    decreases |data| - at
  {
    hide Length, HeaderOk, Parse, FrameAt;
    if at == |data| {
      cuts := [at];
    } else {
      var rest := data[at..];
      NotAFrame(rest);
      var end := at + 8 + Length(rest);
      ParseOneMore(rest, end - at);
      assert rest[end - at..] == data[end..];
      FrameIs(data, at, end);
      var later := ParsedCuts(data, end);
      CutEarlier(data, at, later);
      cuts := [at] + later;
    }
  }

  ghost function Joined(parts: seq<seq<Byte>>): seq<Byte> {
    if parts == [] then [] else parts[0] + Joined(parts[1..])
  }

  lemma {:induction false} JoinedSnoc(parts: seq<seq<Byte>>, part: seq<Byte>)
    ensures Joined(parts + [part]) == Joined(parts) + part
  {
    if parts == [] {
      assert Joined([part]) == part + Joined([]);
    } else {
      JoinedSnoc(parts[1..], part);
      assert (parts + [part])[1..] == parts[1..] + [part];
    }
  }

  method Join(parts: seq<seq<Byte>>) returns (r: seq<Byte>)
    ensures r == Joined(parts)
  {
    r := [];
    for i := 0 to |parts|
      invariant r == Joined(parts[..i])
    {
      JoinedSnoc(parts[..i], parts[i]);
      assert parts[..i + 1] == parts[..i] + [parts[i]];
      r := r + parts[i];
    }
    assert parts[..|parts|] == parts;
  }

  /** What the loop knows after decoding the frames before `cursor`. */
  ghost predicate Decoded(data: seq<Byte>, cursor: nat, frames: seq<seq<Byte>>) {
    && cursor <= |data|
    && (Parse(data).Some? <==> Parse(data[cursor..]).Some?)
    && (Parse(data).Some? ==> Payloads(Parse(data).value) == Joined(frames) + Payloads(Parse(data[cursor..]).value))
    && (frames == [] <==> cursor == 0)
  }

  lemma SameHeader(data: seq<Byte>, cursor: nat)
    requires cursor + 8 <= |data|
    ensures HeaderOk(data[cursor..]) == HeaderOk(data[cursor..cursor + 8])
    ensures Length(data[cursor..]) == Length(data[cursor..cursor + 8])
  {}

  lemma DecodedOneMore(data: seq<Byte>, cursor: nat, frames: seq<seq<Byte>>, end: nat)
    requires Decoded(data, cursor, frames) && cursor + 8 <= end <= |data| && HeaderOk(data[cursor..cursor + 8])
    requires end == cursor + 8 + Length(data[cursor..cursor + 8])
    ensures Decoded(data, end, frames + [data[cursor + 8..end]])
  {
    hide Length, HeaderOk, Parse, Payloads, Joined;
    var rest, last := data[cursor..], data[cursor + 8..end];
    SameHeader(data, cursor);
    assert rest[end - cursor..] == data[end..] && rest[8..end - cursor] == last;
    ParseOneMore(rest, end - cursor);
    JoinedSnoc(frames, last);
    if Parse(data).Some? {
      PayloadsOneMore(Frame(rest[0], last), Parse(data[end..]).value);
    }
  }

  lemma Undecodable(data: seq<Byte>, cursor: nat, frames: seq<seq<Byte>>)
    requires Decoded(data, cursor, frames) && cursor < |data|
    requires cursor + 8 <= |data| ==>
      !HeaderOk(data[cursor..cursor + 8]) || cursor + 8 + Length(data[cursor..cursor + 8]) > |data|
    ensures Parse(data).None?
  {
    if cursor + 8 <= |data| {
      SameHeader(data, cursor);
    }
  }

  /** A complete frame sequence gives its payloads; anything else is the raw text it was. */
  method Decode(data: seq<Byte>) returns (r: seq<Byte>)
    ensures Parse(data).Some? ==> r == Payloads(Parse(data).value)
    ensures Parse(data).None? ==> r == data
    ensures forall cuts: seq<nat> | CutAt(data, cuts) && cuts[0] == 0 :: r == PayloadsOf(data, cuts)
    ensures (forall cuts: seq<nat> :: !(CutAt(data, cuts) && cuts[0] == 0)) ==> r == data
  {
    var cursor := 0;
    var frames: seq<seq<Byte>> := [];
    var broken := false;
    while cursor + 8 <= |data| && !broken
      invariant cursor <= |data|
      invariant !broken ==> Decoded(data, cursor, frames)
      invariant broken ==> frames == [] && Parse(data).None?
      decreases |data| - cursor, !broken
    {
      var header := data[cursor..cursor + 8];
      var end := cursor + 8 + Length(header);
      if !HeaderOk(header) || end > |data| {
        Undecodable(data, cursor, frames);
        frames, broken := [], true;
      } else {
        DecodedOneMore(data, cursor, frames, end);
        frames := frames + [data[cursor + 8..end]];
        cursor := end;
      }
    }
    if !broken && cursor < |data| {
      Undecodable(data, cursor, frames);
    }
    r := data;
    if frames != [] && cursor == |data| {
      r := Join(frames);
    }
    assert data[0..] == data;
    forall cuts: seq<nat> | CutAt(data, cuts) && cuts[0] == 0 ensures r == PayloadsOf(data, cuts) {
      CutParses(data, cuts);
    }
    if Parse(data).Some? {
      ghost var cuts := ParsedCuts(data, 0);
    }
  }
}
