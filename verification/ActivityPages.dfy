/** Resumable pages over append-only activity streams: a cursor of byte offsets that only passes complete lines. */
module ActivityPages {
  import opened Bytes
  import opened Listings
  import opened Wrappers

  const LONGEST_LINE := 262144
  const PAGE_BYTES := 1024 * 1024
  const MOST_STREAMS := 256

  // ----- Lines of one stream -----------------------------------------------------------------

  /** Where a read of at most `room` bytes stops: behind the next newline, or when room or data end. */
  function Stop(bytes: seq<Byte>, at: nat, room: nat): (r: nat)
    requires at <= |bytes|
    ensures at <= r <= |bytes| && r <= at + room
    decreases room
  {
    if room == 0 || at == |bytes| then at
    else if bytes[at] == NEWLINE then at + 1
    else Stop(bytes, at + 1, room - 1)
  }

  function LineEnd(bytes: seq<Byte>, at: nat): (r: nat)
    requires at <= |bytes|
    ensures at <= r <= |bytes| && r <= at + LONGEST_LINE + 1
  {
    Stop(bytes, at, LONGEST_LINE + 1)
  }

  /** A whole line of bearable length starts here. */
  predicate Complete(bytes: seq<Byte>, at: nat)
    requires at <= |bytes|
  {
    at < LineEnd(bytes, at) && bytes[LineEnd(bytes, at) - 1] == NEWLINE
  }

  /** From `a` whole lines lead to `b`. */
  ghost predicate Reads(bytes: seq<Byte>, a: nat, b: nat)
    requires a <= |bytes|
    decreases |bytes| - a
  {
    a == b || (Complete(bytes, a) && Reads(bytes, LineEnd(bytes, a), b))
  }

  ghost function Lines(bytes: seq<Byte>, a: nat, b: nat): seq<Line>
    requires a <= |bytes|
    decreases |bytes| - a
  {
    if a == b || !Complete(bytes, a) then []
    else [bytes[a..LineEnd(bytes, a)]] + Lines(bytes, LineEnd(bytes, a), b)
  }

  lemma {:induction false} ReadsInRange(bytes: seq<Byte>, a: nat, b: nat)
    requires a <= |bytes| && Reads(bytes, a, b)
    ensures a <= b <= |bytes|
    decreases |bytes| - a
  {
    if a == b {
    } else {
      ReadsInRange(bytes, LineEnd(bytes, a), b);
    }
  }

  lemma CompleteAdvances(bytes: seq<Byte>, a: nat)
    requires a <= |bytes| && Complete(bytes, a)
    ensures a < LineEnd(bytes, a)
  {}

  /** Reading on from where a reading stopped reads what one reading would have. */
  lemma {:induction false} ReadsChain(bytes: seq<Byte>, a: nat, b: nat, c: nat)
    requires a <= |bytes| && b <= |bytes| && Reads(bytes, a, b) && Reads(bytes, b, c)
    ensures Reads(bytes, a, c) && Lines(bytes, a, c) == Lines(bytes, a, b) + Lines(bytes, b, c)
    decreases |bytes| - a
  {
    hide Complete, LineEnd;
    ReadsInRange(bytes, b, c);
    if a == b {
    } else {
      var next := LineEnd(bytes, a);
      CompleteAdvances(bytes, a);
      ReadsInRange(bytes, next, b);
      ReadsChain(bytes, next, b, c);
      var line := [bytes[a..next]];
      assert line + (Lines(bytes, next, b) + Lines(bytes, b, c)) == line + Lines(bytes, next, b) + Lines(bytes, b, c);
    }
  }

  lemma OneLine(bytes: seq<Byte>, a: nat)
    requires a <= |bytes| && Complete(bytes, a)
    ensures Reads(bytes, a, LineEnd(bytes, a)) && Lines(bytes, a, LineEnd(bytes, a)) == [bytes[a..LineEnd(bytes, a)]]
  {}

  lemma {:induction false} StopGrows(bytes: seq<Byte>, more: seq<Byte>, at: nat, room: nat)
    requires at <= |bytes| && bytes <= more
    requires at < Stop(bytes, at, room) && bytes[Stop(bytes, at, room) - 1] == NEWLINE
    ensures Stop(more, at, room) == Stop(bytes, at, room)
    decreases room
  {
    if bytes[at] == NEWLINE {
    } else {
      StopGrows(bytes, more, at + 1, room - 1);
    }
  }

  lemma CompleteStays(bytes: seq<Byte>, more: seq<Byte>, a: nat)
    requires a <= |bytes| && bytes <= more && Complete(bytes, a)
    ensures Complete(more, a) && LineEnd(more, a) == LineEnd(bytes, a)
    ensures bytes[a..LineEnd(bytes, a)] == more[a..LineEnd(bytes, a)]
  {
    StopGrows(bytes, more, a, LONGEST_LINE + 1);
  }

  /** What has been read stays read as the stream grows. */
  lemma {:induction false} ReadsGrow(bytes: seq<Byte>, more: seq<Byte>, a: nat, b: nat)
    requires a <= |bytes| && bytes <= more && Reads(bytes, a, b)
    ensures Reads(more, a, b) && Lines(more, a, b) == Lines(bytes, a, b)
    decreases |bytes| - a
  {
    hide Complete, LineEnd;
    if a == b {
    } else {
      CompleteStays(bytes, more, a);
      CompleteAdvances(bytes, a);
      ReadsGrow(bytes, more, LineEnd(bytes, a), b);
    }
  }

  /** A position reached by whole lines is the start of a line. */
  lemma {:induction false} ReadsEndOnBoundary(bytes: seq<Byte>, a: nat, b: nat)
    requires a <= |bytes| && Reads(bytes, a, b)
    ensures a <= b <= |bytes| && (a < b ==> bytes[b - 1] == NEWLINE)
    decreases |bytes| - a
  {
    if a == b {
    } else {
      ReadsEndOnBoundary(bytes, LineEnd(bytes, a), b);
    }
  }

  // ----- Pages -------------------------------------------------------------------------------

  /** What a line holds: a record of the match, of another one, no record, or a value that is not an
      object, on which the reader fails. */
  datatype Record = Mine | Foreign | Invalid | NotAnObject

  datatype Stream = Stream(name: string, bytes: seq<Byte>, link: bool)

  datatype Gap =
    | NoLongerRetained | StreamLimit | StreamReplaced | RecordTooLarge
    | PartialTail | InvalidRecord | CapacityExhausted

  /** The gaps that single streams report. */
  const PASSING := {StreamReplaced, RecordTooLarge, PartialTail, InvalidRecord}

  datatype Page = Page(events: seq<Line>, cursor: map<string, nat>, hasMore: bool, gaps: set<Gap>)

  datatype PageError = InvalidCursor | RecordNotAnObject

  ghost function Kept(lines: seq<Line>, decode: Line -> Record): seq<Line> {
    if lines == [] then []
    else Kept(lines[..|lines| - 1], decode)
           + (if decode(lines[|lines| - 1]) == Mine then [lines[|lines| - 1]] else [])
  }

  lemma {:induction false} KeptConcat(a: seq<Line>, b: seq<Line>, decode: Line -> Record)
    ensures Kept(a + b, decode) == Kept(a, decode) + Kept(b, decode)
  {
    if b == [] {
      assert a + b == a;
    } else {
      KeptConcat(a, b[..|b| - 1], decode);
      assert (a + b)[..|a + b| - 1] == a + b[..|b| - 1];
    }
  }

  /** Where reading of a stream starts: at its offset, or at the front of a stream that got shorter. */
  function Start(stream: Stream, offsets: map<string, nat>): (r: nat)
    ensures r <= |stream.bytes|
  {
    if stream.name in offsets && offsets[stream.name] <= |stream.bytes| then offsets[stream.name] else 0
  }

  ghost predicate Objects(lines: seq<Line>, decode: Line -> Record) {
    forall i | 0 <= i < |lines| :: decode(lines[i]) != NotAnObject
  }

  /** Where a reading ends, how many events it found, and whether it fell over a value. */
  datatype Reach = Reach(at: nat, found: nat, failed: bool)

  /** What a reading with so much room and budget comes to. */
  function ReadOn(bytes: seq<Byte>, at: nat, room: int, budget: int, decode: Line -> Record): Reach
    requires at <= |bytes|
    decreases |bytes| - at
  {
    if room <= 0 || budget <= 0 || !Complete(bytes, at) then Reach(at, 0, false)
    else
      var end := LineEnd(bytes, at);
      match decode(bytes[at..end])
      case NotAnObject => Reach(end, 0, true)
      case Mine =>
        var next := ReadOn(bytes, end, room - 1, budget - (end - at), decode);
        next.(found := next.found + 1)
      case _ => ReadOn(bytes, end, room, budget - (end - at), decode)
  }

  lemma ReadOnStep(bytes: seq<Byte>, at: nat, room: int, budget: int, decode: Line -> Record)
    requires at <= |bytes| && room > 0 && budget > 0
    ensures var end := LineEnd(bytes, at); var line := bytes[at..end];
      ReadOn(bytes, at, room, budget, decode) ==
        if !Complete(bytes, at) then Reach(at, 0, false)
        else match decode(line)
             case NotAnObject => Reach(end, 0, true)
             case Mine =>
               var next := ReadOn(bytes, end, room - 1, budget - (end - at), decode);
               next.(found := next.found + 1)
             case _ => ReadOn(bytes, end, room, budget - (end - at), decode)
  {}

  lemma ReadOnStops(bytes: seq<Byte>, at: nat, room: int, budget: int, decode: Line -> Record)
    requires at <= |bytes| && (room <= 0 || budget <= 0)
    ensures ReadOn(bytes, at, room, budget, decode) == Reach(at, 0, false)
  {}

  lemma NoRoomNoFailure(bytes: seq<Byte>, at: nat, room: int, budget: int, decode: Line -> Record)
    requires at <= |bytes|
    ensures ReadOn(bytes, at, room, budget, decode).failed ==> room > 0
  {}

  lemma ReadNothing(bytes: seq<Byte>, start: nat, decode: Line -> Record)
    requires start <= |bytes|
    ensures Reads(bytes, start, start) && Objects(Lines(bytes, start, start), decode)
    ensures Kept(Lines(bytes, start, start), decode) == []
  {}

  lemma IsComplete(bytes: seq<Byte>, at: nat)
    requires at <= |bytes| && at < LineEnd(bytes, at)
    requires bytes[at..LineEnd(bytes, at)][LineEnd(bytes, at) - at - 1] == NEWLINE
    ensures Complete(bytes, at)
  {}

  lemma KeptOne(line: Line, decode: Line -> Record)
    ensures Kept([line], decode) == if decode(line) == Mine then [line] else []
  {
    assert [line][..0] == [];
  }

  lemma ReadOneMore(bytes: seq<Byte>, start: nat, at: nat, decode: Line -> Record)
    requires start <= at <= |bytes| && Reads(bytes, start, at) && Objects(Lines(bytes, start, at), decode)
    requires at < LineEnd(bytes, at) && bytes[at..LineEnd(bytes, at)][LineEnd(bytes, at) - at - 1] == NEWLINE
    ensures var end, line := LineEnd(bytes, at), bytes[at..LineEnd(bytes, at)];
      && Reads(bytes, start, end)
      && (Objects(Lines(bytes, start, end), decode) <==> decode(line) != NotAnObject)
      && Kept(Lines(bytes, start, end), decode)
           == Kept(Lines(bytes, start, at), decode) + if decode(line) == Mine then [line] else []
  {
    hide LineEnd, Reads, Lines, Complete, Kept;
    var end, line := LineEnd(bytes, at), bytes[at..LineEnd(bytes, at)];
    IsComplete(bytes, at);
    OneLine(bytes, at);
    ReadsChain(bytes, start, at, end);
    var before := Lines(bytes, start, at);
    KeptConcat(before, [line], decode);
    KeptOne(line, decode);
    assert (before + [line])[|before|] == line;
  }

  lemma NotComplete(bytes: seq<Byte>, at: nat)
    requires at <= |bytes|
    requires LineEnd(bytes, at) == at || bytes[at..LineEnd(bytes, at)][LineEnd(bytes, at) - at - 1] != NEWLINE
    ensures !Complete(bytes, at)
  {}

  lemma AtTheEnd(bytes: seq<Byte>, at: nat)
    requires at <= |bytes|
    ensures at == |bytes| ==> !Complete(bytes, at)
  {}

  // ----- Why a reading stops -----------------------------------------------------------------

  /** The bytes of some lines together. */
  ghost function Volume(lines: seq<Line>): nat {
    if lines == [] then 0 else Volume(lines[..|lines| - 1]) + |lines[|lines| - 1]|
  }

  lemma VolumeOfMore(lines: seq<Line>, line: Line)
    ensures Volume(lines + [line]) == Volume(lines) + |line|
  {
    assert (lines + [line])[..|lines|] == lines;
  }

  lemma {:induction false} VolumeConcat(a: seq<Line>, b: seq<Line>)
    ensures Volume(a + b) == Volume(a) + Volume(b)
  {
    if b == [] {
      assert a + b == a;
    } else {
      VolumeConcat(a, b[..|b| - 1]);
      assert (a + b)[..|a + b| - 1] == a + b[..|b| - 1];
    }
  }

  /** No newline among the first 262,145 bytes from here, as far as there are any. */
  ghost predicate NoNewline(bytes: seq<Byte>, at: nat) {
    forall i | at <= i < |bytes| && i <= at + 262144 :: bytes[i] != 10
  }

  /** What begins here is longer than any line may be. */
  ghost predicate TooLarge(bytes: seq<Byte>, at: nat) {
    |bytes| > at + 262144 && NoNewline(bytes, at)
  }

  /** What begins here is the start of a line that is not finished. */
  ghost predicate Unfinished(bytes: seq<Byte>, at: nat) {
    at < |bytes| <= at + 262144 && NoNewline(bytes, at)
  }

  lemma {:induction false} StopsAtNewline(bytes: seq<Byte>, at: nat, room: nat)
    requires at <= |bytes|
    ensures var stop := Stop(bytes, at, room);
      && (forall i | at <= i < stop - 1 :: bytes[i] != NEWLINE)
      && (stop == |bytes| || stop == at + room || (at < stop && bytes[stop - 1] == NEWLINE))
    decreases room
  {
    if room == 0 || at == |bytes| || bytes[at] == NEWLINE {
    } else {
      StopsAtNewline(bytes, at + 1, room - 1);
    }
  }

  /** A whole line ends with the first newline, which is among the first 262,145 bytes; otherwise the data is at its
      end, too large or unfinished. */
  lemma LineEndIs(bytes: seq<Byte>, at: nat)
    requires at <= |bytes|
    ensures Complete(bytes, at) <==> exists e | at <= e < |bytes| && e <= at + 262144 :: bytes[e] == 10
    ensures Complete(bytes, at) ==>
      var end := LineEnd(bytes, at);
      at < end <= at + 262145 && bytes[end - 1] == 10 && forall i | at <= i < end - 1 :: bytes[i] != 10
    ensures !Complete(bytes, at) ==> LineEnd(bytes, at) == if |bytes| > at + 262145 then at + 262145 else |bytes|
    ensures !Complete(bytes, at) <==> at == |bytes| || TooLarge(bytes, at) || Unfinished(bytes, at)
  {
    StopsAtNewline(bytes, at, LONGEST_LINE + 1);
  }

  /** Every line was begun while there was room for one more record and fewer bytes than the budget were read. */
  ghost predicate InRoom(lines: seq<Line>, room: int, budget: int, decode: Line -> Record) {
    forall i | 0 <= i < |lines| :: |Kept(lines[..i], decode)| < room && Volume(lines[..i]) < budget
  }

  lemma InRoomNext(lines: seq<Line>, line: Line, room: int, budget: int, decode: Line -> Record)
    requires InRoom(lines, room, budget, decode) && |Kept(lines, decode)| < room && Volume(lines) < budget
    ensures InRoom(lines + [line], room, budget, decode)
  {
    hide Kept, Volume;
    var more := lines + [line];
    forall i | 0 <= i < |more| ensures |Kept(more[..i], decode)| < room && Volume(more[..i]) < budget {
      if i < |lines| { assert more[..i] == lines[..i]; } else { assert more[..i] == lines; }
    }
  }

  ghost predicate SomeInvalid(lines: seq<Line>, decode: Line -> Record) {
    exists i | 0 <= i < |lines| :: decode(lines[i]) == Invalid
  }

  lemma InvalidNext(lines: seq<Line>, line: Line, decode: Line -> Record)
    ensures SomeInvalid(lines + [line], decode) <==> SomeInvalid(lines, decode) || decode(line) == Invalid
  {
    var more := lines + [line];
    if SomeInvalid(lines, decode) {
      var i :| 0 <= i < |lines| && decode(lines[i]) == Invalid;
      assert more[i] == lines[i];
    }
    assert more[|lines|] == line;
  }

  /** The state of a reading that came from `start` to `at`. */
  ghost predicate InBounds(bytes: seq<Byte>, start: nat, at: nat, room: int, budget: int, gaps: set<Gap>,
                           decode: Line -> Record)
    requires start <= |bytes|
  {
    var lines := Lines(bytes, start, at);
    && InRoom(lines, room, budget, decode) && Volume(lines) == at - start
    && (InvalidRecord in gaps <==> SomeInvalid(lines, decode))
  }

  lemma NothingInBounds(bytes: seq<Byte>, start: nat, room: int, budget: int, decode: Line -> Record)
    requires start <= |bytes|
    ensures InBounds(bytes, start, start, room, budget, {}, decode)
  {}

  lemma OneMoreInBounds(bytes: seq<Byte>, start: nat, at: nat, room: int, budget: int, gaps: set<Gap>,
                        decode: Line -> Record)
    requires start <= at <= |bytes| && Reads(bytes, start, at) && InBounds(bytes, start, at, room, budget, gaps, decode)
    requires Complete(bytes, at) && |Kept(Lines(bytes, start, at), decode)| < room && at - start < budget
    ensures var end := LineEnd(bytes, at);
      InBounds(bytes, start, end, room, budget,
               gaps + (if decode(bytes[at..end]) == Invalid then {InvalidRecord} else {}), decode)
  {
    hide LineEnd, Reads, Lines, Complete, Kept, InRoom, SomeInvalid, Volume;
    var lines, line := Lines(bytes, start, at), bytes[at..LineEnd(bytes, at)];
    OneLine(bytes, at);
    ReadsChain(bytes, start, at, LineEnd(bytes, at));
    VolumeOfMore(lines, line);
    InRoomNext(lines, line, room, budget, decode);
    InvalidNext(lines, line, decode);
  }

  lemma StopsShort(bytes: seq<Byte>, at: nat)
    requires at <= |bytes| && !Complete(bytes, at)
    ensures TooLarge(bytes, at) <==> LineEnd(bytes, at) - at > 262144
    ensures Unfinished(bytes, at) <==> 0 < LineEnd(bytes, at) - at <= 262144
  {
    LineEndIs(bytes, at);
  }

  lemma InBoundsAlike(bytes: seq<Byte>, start: nat, at: nat, room: int, budget: int, gaps: set<Gap>,
                      more: set<Gap>, decode: Line -> Record)
    requires start <= |bytes| && InBounds(bytes, start, at, room, budget, gaps, decode)
    requires InvalidRecord in gaps <==> InvalidRecord in more
    ensures InBounds(bytes, start, at, room, budget, more, decode)
  {}

  /** The inner loop over one stream. */
  method ReadStream(bytes: seq<Byte>, start: nat, room: int, budget: int, decode: Line -> Record)
    returns (events: seq<Line>, at: nat, tell: nat, gaps: set<Gap>, failed: bool)
    requires start <= |bytes|
    ensures start <= at <= tell <= |bytes| && Reads(bytes, start, at)
    ensures at == ReadOn(bytes, start, room, budget, decode).at
    ensures failed == ReadOn(bytes, start, room, budget, decode).failed
    ensures !failed ==> |events| == ReadOn(bytes, start, room, budget, decode).found
    ensures failed <==> !Objects(Lines(bytes, start, at), decode)
    ensures !failed ==> events == Kept(Lines(bytes, start, at), decode)
    ensures gaps <= PASSING && |events| <= if room > 0 then room else 0
    ensures InBounds(bytes, start, at, room, budget, gaps, decode)
    ensures !failed ==> var goesOn := |events| < room && at - start < budget;
      && (RecordTooLarge in gaps <==> goesOn && TooLarge(bytes, at))
      && (PartialTail in gaps <==> goesOn && Unfinished(bytes, at))
      && StreamReplaced !in gaps
      && (tell < |bytes| <==> if goesOn then |bytes| > at + 262145 && TooLarge(bytes, at) else at < |bytes|)
    ensures !failed && |events| < room && at - start < budget ==> !Complete(bytes, at)
    ensures !failed && tell == |bytes| ==> !Complete(bytes, at)
  {
    hide Complete, Reads, Lines, Kept, Objects, LineEnd, ReadOn, InBounds, TooLarge, Unfinished;
    ghost var whole := ReadOn(bytes, start, room, budget, decode);
    events, at, gaps, failed := [], start, {}, false;
    tell := start;
    ReadNothing(bytes, start, decode);
    NothingInBounds(bytes, start, room, budget, decode);
    while |events| < room && at - start < budget
      invariant start <= at <= |bytes| && tell == at && Reads(bytes, start, at)
      invariant Objects(Lines(bytes, start, at), decode) && events == Kept(Lines(bytes, start, at), decode)
      invariant gaps <= {InvalidRecord} && |events| <= if room > 0 then room else 0
      invariant InBounds(bytes, start, at, room, budget, gaps, decode)
      invariant var rest := ReadOn(bytes, at, room - |events|, budget - (at - start), decode);
        whole == rest.(found := |events| + rest.found)
      decreases |bytes| - at
    {
      ReadOnStep(bytes, at, room - |events|, budget - (at - start), decode);
      tell := LineEnd(bytes, at);
      var line := bytes[at..tell];
      if line == [] || line[|line| - 1] != NEWLINE {
        NotComplete(bytes, at);
        LineEndIs(bytes, at);
        StopsShort(bytes, at);
        ghost var before := gaps;
        if line != [] { gaps := gaps + {if |line| > LONGEST_LINE then RecordTooLarge else PartialTail}; }
        InBoundsAlike(bytes, start, at, room, budget, before, gaps, decode);
        return;
      }
      ReadOneMore(bytes, start, at, decode);
      IsComplete(bytes, at);
      OneMoreInBounds(bytes, start, at, room, budget, gaps, decode);
      assert gaps + {} == gaps;
      at := tell;
      match decode(line) {
        case Mine => events := events + [line];
        case Foreign =>
        case Invalid => gaps := gaps + {InvalidRecord};
        case NotAnObject =>
          failed := true;
          return;
      }
    }
    ReadOnStops(bytes, at, room - |events|, budget - (at - start), decode);
    AtTheEnd(bytes, at);
  }

  /** The cursor after the first `n` streams were read up to `ends`. */
  ghost function Advanced(streams: seq<Stream>, offsets: map<string, nat>, ends: seq<nat>, n: nat): map<string, nat>
    requires n <= |streams| && n <= |ends|
  {
    if n == 0 then offsets
    else
      var before := Advanced(streams, offsets, ends, n - 1);
      if ends[n - 1] > Start(streams[n - 1], offsets) then before[streams[n - 1].name := ends[n - 1]] else before
  }

  /** All lines passed by the page, stream by stream. */
  ghost function Passed(streams: seq<Stream>, offsets: map<string, nat>, ends: seq<nat>, n: nat): seq<Line>
    requires n <= |streams| && n <= |ends|
  {
    if n == 0 then []
    else
      Passed(streams, offsets, ends, n - 1)
        + Lines(streams[n - 1].bytes, Start(streams[n - 1], offsets), ends[n - 1])
  }

  ghost predicate Named(streams: seq<Stream>) {
    forall i, j | 0 <= i < j < |streams| :: streams[i].name != streams[j].name
  }

  /** A stream the page may read at all. */
  predicate Readable(streams: seq<Stream>, j: nat)
    requires j < |streams|
  {
    j < MOST_STREAMS && !streams[j].link
  }

  ghost predicate Visited(stream: Stream, offsets: map<string, nat>, end: nat, readable: bool) {
    Reads(stream.bytes, Start(stream, offsets), end) && (!readable ==> end == Start(stream, offsets))
  }

  /** Every stream is read along whole lines up to its end in `ends`; the cursor records exactly that,
      and the events are the records of the match among the lines passed, in order. */
  ghost predicate PageOf(streams: seq<Stream>, offsets: map<string, nat>, ends: seq<nat>, n: nat, events: seq<Line>,
                         cursor: map<string, nat>, decode: Line -> Record)
    requires n <= |streams|
  {
    && |ends| == n
    && (forall j | 0 <= j < n :: Visited(streams[j], offsets, ends[j], Readable(streams, j)))
    && cursor == Advanced(streams, offsets, ends, n)
    && Objects(Passed(streams, offsets, ends, n), decode)
    && events == Kept(Passed(streams, offsets, ends, n), decode)
  }

  /** Nothing more can be read from this stream as it stands. */
  ghost predicate Drained(streams: seq<Stream>, ends: seq<nat>, j: nat)
    requires j < |streams| && j < |ends|
  {
    Readable(streams, j) && ends[j] <= |streams[j].bytes| ==> !Complete(streams[j].bytes, ends[j])
  }

  ghost predicate Progress(streams: seq<Stream>, offsets: map<string, nat>, ends: seq<nat>, j: nat)
    requires j < |streams| && j < |ends|
  {
    ends[j] > Start(streams[j], offsets)
  }

  lemma {:induction false} PrefixMatters(streams: seq<Stream>, offsets: map<string, nat>, ends: seq<nat>, end: nat,
                                         n: nat)
    requires n <= |streams| && n <= |ends|
    ensures Advanced(streams, offsets, ends + [end], n) == Advanced(streams, offsets, ends, n)
    ensures Passed(streams, offsets, ends + [end], n) == Passed(streams, offsets, ends, n)
  {
    if n == 0 {
    } else {
      PrefixMatters(streams, offsets, ends, end, n - 1);
    }
  }

  lemma PageGrows(streams: seq<Stream>, offsets: map<string, nat>, ends: seq<nat>, n: nat, events: seq<Line>,
                  cursor: map<string, nat>, decode: Line -> Record, end: nat, more: seq<Line>)
    requires n < |streams| && PageOf(streams, offsets, ends, n, events, cursor, decode)
    requires Visited(streams[n], offsets, end, Readable(streams, n))
    requires Objects(Lines(streams[n].bytes, Start(streams[n], offsets), end), decode)
    requires more == Kept(Lines(streams[n].bytes, Start(streams[n], offsets), end), decode)
    ensures PageOf(streams, offsets, ends + [end], n + 1, events + more,
                   if end > Start(streams[n], offsets) then cursor[streams[n].name := end] else cursor, decode)
  {
    hide Kept, Visited, Lines, Start;
    PrefixMatters(streams, offsets, ends, end, n);
    KeptConcat(Passed(streams, offsets, ends, n), Lines(streams[n].bytes, Start(streams[n], offsets), end), decode);
    forall j | 0 <= j < n + 1
      ensures Visited(streams[j], offsets, (ends + [end])[j], Readable(streams, j))
    {
      assert j < n ==> Visited(streams[j], offsets, ends[j], Readable(streams, j));
    }
  }

  lemma NothingRead(streams: seq<Stream>, offsets: map<string, nat>, decode: Line -> Record)
    ensures PageOf(streams, offsets, [], 0, [], offsets, decode)
  {}

  /** A stream left alone stays where it was. */
  lemma LeftAlone(stream: Stream, offsets: map<string, nat>, decode: Line -> Record)
    ensures Visited(stream, offsets, Start(stream, offsets), false)
    ensures Visited(stream, offsets, Start(stream, offsets), true)
    ensures Lines(stream.bytes, Start(stream, offsets), Start(stream, offsets)) == []
    ensures Objects([], decode) && Kept([], decode) == []
  {}

  lemma EndsMatch(streams: seq<Stream>, offsets: map<string, nat>, ends: seq<nat>, n: nat, events: seq<Line>,
                  cursor: map<string, nat>, decode: Line -> Record)
    requires n <= |streams| && PageOf(streams, offsets, ends, n, events, cursor, decode)
    ensures |ends| == n
  {}

  /** Streams behind the stopping point are left alone. */
  lemma {:induction false} RestLeftAlone(streams: seq<Stream>, offsets: map<string, nat>, ends: seq<nat>, n: nat,
                                         events: seq<Line>, cursor: map<string, nat>, decode: Line -> Record)
      returns (all: seq<nat>)
    requires n <= |streams| && PageOf(streams, offsets, ends, n, events, cursor, decode)
    ensures PageOf(streams, offsets, all, |streams|, events, cursor, decode)
    ensures |all| == |streams| && ends == all[..n]
    ensures forall j | n <= j < |streams| :: all[j] == Start(streams[j], offsets)
    decreases |streams| - n
  {
    hide PageOf, Visited, Lines, Kept, Objects, Start;
    if n == |streams| {
      EndsMatch(streams, offsets, ends, n, events, cursor, decode);
      all := ends;
    } else {
      var start := Start(streams[n], offsets);
      LeftAlone(streams[n], offsets, decode);
      PageGrows(streams, offsets, ends, n, events, cursor, decode, start, []);
      assert events + [] == events;
      EndsMatch(streams, offsets, ends, n, events, cursor, decode);
      all := RestLeftAlone(streams, offsets, ends + [start], n + 1, events, cursor, decode);
      assert ends == all[..n + 1][..n] == all[..n];
      assert all[n] == all[..n + 1][n];
    }
  }

  predicate ValidCursor(cursor: Option<map<string, int>>) {
    cursor.Some? && |cursor.value| <= MOST_STREAMS && forall k | k in cursor.value :: cursor.value[k] >= 0
  }

  function Offsets(cursor: map<string, int>): map<string, nat>
    requires forall k | k in cursor :: cursor[k] >= 0
  {
    map k | k in cursor :: cursor[k]
  }

  function Names(streams: seq<Stream>): set<string> {
    set s | s in streams :: s.name
  }

  ghost predicate SomeProgress(streams: seq<Stream>, offsets: map<string, nat>, ends: seq<nat>) {
    exists j | 0 <= j < |streams| && j < |ends| :: Progress(streams, offsets, ends, j)
  }

  ghost predicate AllDrained(streams: seq<Stream>, ends: seq<nat>) {
    forall j | 0 <= j < |streams| && j < |ends| :: Drained(streams, ends, j)
  }

  ghost predicate StagedAt(streams: seq<Stream>, offsets: map<string, nat>, ends: seq<nat>, k: nat) {
    && (forall j | 0 <= j < k && j < |streams| && j < |ends| :: Drained(streams, ends, j))
    && (forall j | k < j < |streams| && j < |ends| :: ends[j] == Start(streams[j], offsets))
  }

  /** All streams before some point are drained and those behind it untouched. */
  ghost predicate Staged(streams: seq<Stream>, offsets: map<string, nat>, ends: seq<nat>) {
    exists k | 0 <= k <= |streams| :: StagedAt(streams, offsets, ends, k)
  }

  ghost predicate DrainedBefore(streams: seq<Stream>, ends: seq<nat>, k: nat) {
    forall j | 0 <= j < k && j < |streams| && j < |ends| :: Drained(streams, ends, j)
  }

  lemma OneMoreStage(streams: seq<Stream>, ends: seq<nat>, end: nat)
    requires AllDrained(streams, ends)
    ensures DrainedBefore(streams, ends + [end], |ends|)
  {
    hide Complete;
    forall j | 0 <= j < |ends| && j < |streams| ensures Drained(streams, ends + [end], j) {
      assert Drained(streams, ends, j);
    }
  }

  lemma StagedAtEnd(streams: seq<Stream>, offsets: map<string, nat>, ends: seq<nat>, all: seq<nat>)
    requires |ends| <= |streams| && (ends == [] || DrainedBefore(streams, ends, |ends| - 1))
    requires |all| == |streams| && ends == all[..|ends|]
    requires forall j | |ends| <= j < |streams| :: all[j] == Start(streams[j], offsets)
    ensures Staged(streams, offsets, all)
  {
    hide Complete, Start;
    var k := if |ends| == 0 then 0 else |ends| - 1;
    forall j | 0 <= j < k ensures Drained(streams, all, j) {
      assert all[j] == all[..|ends|][j];
      assert Drained(streams, ends, j);
    }
    assert StagedAt(streams, offsets, all, k);
  }

  lemma StreamDrained(streams: seq<Stream>, ends: seq<nat>, end: nat)
    requires |ends| < |streams| && AllDrained(streams, ends)
    requires Readable(streams, |ends|) && end <= |streams[|ends|].bytes| ==> !Complete(streams[|ends|].bytes, end)
    ensures AllDrained(streams, ends + [end])
  {
    hide Complete;
    forall j | 0 <= j < |ends| + 1 ensures Drained(streams, ends + [end], j) {
      assert j < |ends| ==> Drained(streams, ends, j);
    }
  }

  lemma StillProgress(streams: seq<Stream>, offsets: map<string, nat>, ends: seq<nat>, end: nat)
    requires |ends| < |streams|
    requires end > Start(streams[|ends|], offsets) || SomeProgress(streams, offsets, ends)
    ensures SomeProgress(streams, offsets, ends + [end])
  {
    if end > Start(streams[|ends|], offsets) {
      assert Progress(streams, offsets, ends + [end], |ends|);
    } else {
      var j :| 0 <= j < |streams| && j < |ends| && Progress(streams, offsets, ends, j);
      assert Progress(streams, offsets, ends + [end], j);
    }
  }

  lemma Extended(streams: seq<Stream>, offsets: map<string, nat>, ends: seq<nat>, all: seq<nat>)
    requires |all| == |streams| && |ends| <= |streams| && ends == all[..|ends|]
    ensures SomeProgress(streams, offsets, ends) ==> SomeProgress(streams, offsets, all)
    ensures AllDrained(streams, ends) && (|ends| == |streams| || |ends| >= MOST_STREAMS) ==> AllDrained(streams, all)
  {
    hide Complete;
    assert forall j | 0 <= j < |ends| :: ends[j] == all[j];
    if SomeProgress(streams, offsets, ends) {
      var j :| 0 <= j < |streams| && j < |ends| && Progress(streams, offsets, ends, j);
      assert Progress(streams, offsets, all, j);
    }
    if AllDrained(streams, ends) && (|ends| == |streams| || |ends| >= MOST_STREAMS) {
      forall j | 0 <= j < |all| ensures Drained(streams, all, j) {
        assert j < |ends| ==> Drained(streams, ends, j);
      }
    }
  }

  /** The variables of the page loop. */
  datatype Scan = Scan(events: seq<Line>, now: map<string, nat>, budget: int, more: bool, advanced: bool, stopped: bool)

  ghost predicate ScanOk(streams: seq<Stream>, offsets: map<string, nat>, ends: seq<nat>, limit: int, s: Scan,
                         decode: Line -> Record) {
    && |ends| <= |streams| && |ends| <= MOST_STREAMS
    && PageOf(streams, offsets, ends, |ends|, s.events, s.now, decode)
    && |s.events| <= (if limit > 0 then limit else 0)
    && (s.advanced ==> SomeProgress(streams, offsets, ends))
    && (!(s.more && s.advanced) && limit >= 1 ==> AllDrained(streams, ends))
    && (!s.stopped && limit >= 1 ==> AllDrained(streams, ends))
    && (limit >= 1 && ends != [] ==> DrainedBefore(streams, ends, |ends| - 1))
    && (s.stopped && !s.more ==> |ends| == |streams|)
    && (s.stopped && limit >= 1 ==> s.advanced)
    && (!s.stopped && limit >= 1 ==> |s.events| < limit && s.budget > 0)
    && (!s.advanced ==> s.events == [] && s.budget == PAGE_BYTES)
  }

  lemma ScanStarts(streams: seq<Stream>, offsets: map<string, nat>, limit: int, decode: Line -> Record)
    ensures ScanOk(streams, offsets, [], limit, Scan([], offsets, PAGE_BYTES, false, false, false), decode)
  {
    NothingRead(streams, offsets, decode);
  }

  lemma ScanSkips(streams: seq<Stream>, offsets: map<string, nat>, ends: seq<nat>, limit: int, s: Scan,
                  decode: Line -> Record)
    requires ScanOk(streams, offsets, ends, limit, s, decode) && !s.stopped
    requires |ends| < |streams| && streams[|ends|].link && |ends| < MOST_STREAMS
    ensures ScanOk(streams, offsets, ends + [Start(streams[|ends|], offsets)], limit, s, decode)
  {
    hide PageOf, Visited, SomeProgress, AllDrained, DrainedBefore, Complete, Objects, Kept, Lines, Start;
    var n := |ends|;
    var start := Start(streams[n], offsets);
    LeftAlone(streams[n], offsets, decode);
    PageGrows(streams, offsets, ends, n, s.events, s.now, decode, start, []);
    assert s.events + [] == s.events;
    if s.advanced { StillProgress(streams, offsets, ends, start); }
    if limit >= 1 {
      StreamDrained(streams, ends, start);
      OneMoreStage(streams, ends, start);
    }
  }

  /** The loop state after reading one stream up to `at`, with the file position at `tell`. */
  function AfterStream(s: Scan, stream: Stream, start: nat, at: nat, tell: nat, found: seq<Line>, limit: int,
                       last: bool): Scan
  {
    var events, budget := s.events + found, s.budget - (at - start);
    var stopped := |events| >= limit || budget <= 0;
    Scan(events, if at > start then s.now[stream.name := at] else s.now, budget,
         s.more || tell < |stream.bytes| || (stopped && !last), s.advanced || at > start, stopped)
  }

  lemma NoLinesNoEvents(bytes: seq<Byte>, start: nat, at: nat, decode: Line -> Record)
    requires start <= |bytes|
    ensures start == at ==> Kept(Lines(bytes, start, at), decode) == []
  {}

  lemma ScanReads(streams: seq<Stream>, offsets: map<string, nat>, ends: seq<nat>, limit: int, s: Scan,
                  decode: Line -> Record, at: nat, tell: nat, found: seq<Line>)
    requires ScanOk(streams, offsets, ends, limit, s, decode) && !s.stopped
    requires |ends| < |streams| && |ends| < MOST_STREAMS && !streams[|ends|].link
    requires var stream := streams[|ends|]; var start := Start(stream, offsets); var room := limit - |s.events|;
      && at <= tell <= |stream.bytes| && Reads(stream.bytes, start, at)
      && Objects(Lines(stream.bytes, start, at), decode) && found == Kept(Lines(stream.bytes, start, at), decode)
      && (|found| <= if room > 0 then room else 0)
      && (|found| < room && at - start < s.budget ==> !Complete(stream.bytes, at))
      && (tell == |stream.bytes| ==> !Complete(stream.bytes, at)) && start <= at
    ensures ScanOk(streams, offsets, ends + [at], limit,
                   AfterStream(s, streams[|ends|], Start(streams[|ends|], offsets), at, tell, found, limit,
                               |ends| + 1 == |streams|), decode)
  {
    hide PageOf, SomeProgress, AllDrained, DrainedBefore, Complete, Objects, Kept, Lines, Start, Reads;
    var n := |ends|;
    var stream, start := streams[n], Start(streams[n], offsets);
    assert Visited(stream, offsets, at, Readable(streams, n));
    NoLinesNoEvents(stream.bytes, start, at, decode);
    PageGrows(streams, offsets, ends, n, s.events, s.now, decode, at, found);
    if s.advanced || at > start { StillProgress(streams, offsets, ends, at); }
    var t := AfterStream(s, stream, start, at, tell, found, limit, n + 1 == |streams|);
    if limit >= 1 {
      OneMoreStage(streams, ends, at);
      if !(t.more && t.advanced) || !t.stopped { StreamDrained(streams, ends, at); }
    }
  }

  /** What the finished loop has established. */
  ghost predicate Scanned(streams: seq<Stream>, offsets: map<string, nat>, ends: seq<nat>, limit: int, s: Scan,
                          decode: Line -> Record) {
    && PageOf(streams, offsets, ends, |streams|, s.events, s.now, decode)
    && |s.events| <= (if limit > 0 then limit else 0)
    && (s.more && s.advanced ==> SomeProgress(streams, offsets, ends))
    && (!(s.more && s.advanced) && limit >= 1 ==> AllDrained(streams, ends))
    && (limit >= 1 ==> Staged(streams, offsets, ends))
  }

  lemma ScanEnds(streams: seq<Stream>, offsets: map<string, nat>, ends: seq<nat>, limit: int, s: Scan,
                 decode: Line -> Record) returns (all: seq<nat>)
    requires ScanOk(streams, offsets, ends, limit, s, decode)
    requires |ends| == |streams| || |ends| == MOST_STREAMS || s.stopped
    ensures Scanned(streams, offsets, all, limit, s, decode)
    ensures |ends| <= |streams| == |all| && ends == all[..|ends|]
    ensures forall j | |ends| <= j < |streams| :: all[j] == Start(streams[j], offsets)
  {
    hide PageOf, SomeProgress, AllDrained, DrainedBefore, Staged, Start;
    all := RestLeftAlone(streams, offsets, ends, |ends|, s.events, s.now, decode);
    Extended(streams, offsets, ends, all);
    if limit >= 1 { StagedAtEnd(streams, offsets, ends, all); }
  }

  /** On the way from the cursor to `end` there is a value that is not an object. */
  ghost predicate FailsBy(stream: Stream, offsets: map<string, nat>, end: nat, decode: Line -> Record) {
    && Reads(stream.bytes, Start(stream, offsets), end)
    && !Objects(Lines(stream.bytes, Start(stream, offsets), end), decode)
  }

  /** The reader met a line it fails on. */
  ghost predicate MeetsNonObject(streams: seq<Stream>, offsets: map<string, nat>, decode: Line -> Record) {
    exists j, end: nat | 0 <= j < |streams| && Readable(streams, j) :: FailsBy(streams[j], offsets, end, decode)
  }

  /** Whether the page that has come to stream `n`, with so much room and budget left, meets such a value. */
  function PageFails(streams: seq<Stream>, offsets: map<string, nat>, n: nat, room: int, budget: int,
                     decode: Line -> Record): bool
    requires n <= |streams|
    decreases |streams| - n
  {
    if n == |streams| || n >= MOST_STREAMS then false
    else if streams[n].link then PageFails(streams, offsets, n + 1, room, budget, decode)
    else
      var start := Start(streams[n], offsets);
      var reach := ReadOn(streams[n].bytes, start, room, budget, decode);
      var left := budget - (reach.at - start);
      reach.failed
      || (room - reach.found > 0 && left > 0 && PageFails(streams, offsets, n + 1, room - reach.found, left, decode))
  }

  /** What the page loop still has to find out. */
  ghost predicate FailsLater(streams: seq<Stream>, offsets: map<string, nat>, n: nat, limit: int, s: Scan,
                             decode: Line -> Record)
    requires n <= |streams|
  {
    !s.stopped && PageFails(streams, offsets, n, limit - |s.events|, s.budget, decode)
  }

  lemma FailureMoves(streams: seq<Stream>, offsets: map<string, nat>, n: nat, limit: int, s: Scan,
                     decode: Line -> Record, at: nat, tell: nat, found: seq<Line>)
    requires n < |streams| && n < MOST_STREAMS && !s.stopped && !streams[n].link
    requires var start := Start(streams[n], offsets);
      var reach := ReadOn(streams[n].bytes, start, limit - |s.events|, s.budget, decode);
      !reach.failed && at == reach.at && |found| == reach.found
    ensures var t := AfterStream(s, streams[n], Start(streams[n], offsets), at, tell, found, limit, n + 1 == |streams|);
      FailsLater(streams, offsets, n, limit, s, decode) <==> FailsLater(streams, offsets, n + 1, limit, t, decode)
  {
    hide ReadOn, Start;
  }

  lemma FailsStep(streams: seq<Stream>, offsets: map<string, nat>, n: nat, room: int, budget: int,
                  decode: Line -> Record)
    requires n < |streams| && n < MOST_STREAMS
    ensures streams[n].link ==>
      PageFails(streams, offsets, n, room, budget, decode) == PageFails(streams, offsets, n + 1, room, budget, decode)
    ensures !streams[n].link && ReadOn(streams[n].bytes, Start(streams[n], offsets), room, budget, decode).failed ==>
      PageFails(streams, offsets, n, room, budget, decode)
  {}

  lemma FailsAtEnd(streams: seq<Stream>, offsets: map<string, nat>, n: nat, room: int, budget: int,
                   decode: Line -> Record)
    requires n <= |streams| && (n == |streams| || n >= MOST_STREAMS)
    ensures !PageFails(streams, offsets, n, room, budget, decode)
  {}

  // ----- Where a page stops and what it reports ----------------------------------------------

  /** Behind stream `j` there is room for another record, and less than a mebibyte was read. */
  ghost predicate RoomBehind(streams: seq<Stream>, offsets: map<string, nat>, ends: seq<nat>, j: nat, limit: int,
                             decode: Line -> Record) {
    && j < |streams| && j < |ends|
    && |Kept(Passed(streams, offsets, ends, j + 1), decode)| < limit
    && Volume(Passed(streams, offsets, ends, j + 1)) < 1048576
  }

  /** The page comes to stream `j`: it is among the first 256 and no link, and there was room behind every stream
      read before it. */
  ghost predicate ComesTo(streams: seq<Stream>, offsets: map<string, nat>, ends: seq<nat>, j: nat, limit: int,
                          decode: Line -> Record) {
    && j < |streams| && j < |ends| && j < 256 && !streams[j].link
    && forall k | 0 <= k < j && !streams[k].link :: RoomBehind(streams, offsets, ends, k, limit, decode)
  }

  /** The page comes to stream `j` with all streams before it at their end, and there, with room for every line it
      reads, to a value that is not an object. */
  ghost predicate StopsOn(streams: seq<Stream>, offsets: map<string, nat>, ends: seq<nat>, j: nat, limit: int,
                          decode: Line -> Record) {
    && j < |streams| && |ends| == j + 1 && ComesTo(streams, offsets, ends, j, limit, decode)
    && (forall k | 0 <= k <= j :: Visited(streams[k], offsets, ends[k], Readable(streams, k)))
    && (forall k | 0 <= k < j :: Drained(streams, ends, k))
    && InRoom(Passed(streams, offsets, ends, j + 1), limit, 1048576, decode)
    && Objects(Passed(streams, offsets, ends, j), decode)
    && !Objects(Lines(streams[j].bytes, Start(streams[j], offsets), ends[j]), decode)
  }

  ghost predicate FallsOver(streams: seq<Stream>, offsets: map<string, nat>, limit: int, decode: Line -> Record) {
    exists ends: seq<nat>, j: nat :: StopsOn(streams, offsets, ends, j, limit, decode)
  }

  /** The page comes to a stream that is shorter than its offset. */
  ghost predicate FindsReplaced(streams: seq<Stream>, offsets: map<string, nat>, ends: seq<nat>, j: nat, limit: int,
                                decode: Line -> Record) {
    && ComesTo(streams, offsets, ends, j, limit, decode)
    && streams[j].name in offsets && offsets[streams[j].name] > |streams[j].bytes|
  }

  /** The page reads on at the end of its lines in a stream and finds something too large there. */
  ghost predicate FindsTooLarge(streams: seq<Stream>, offsets: map<string, nat>, ends: seq<nat>, j: nat, limit: int,
                                decode: Line -> Record) {
    && ComesTo(streams, offsets, ends, j, limit, decode) && RoomBehind(streams, offsets, ends, j, limit, decode)
    && TooLarge(streams[j].bytes, ends[j])
  }

  /** Or the start of a line. */
  ghost predicate FindsTail(streams: seq<Stream>, offsets: map<string, nat>, ends: seq<nat>, j: nat, limit: int,
                            decode: Line -> Record) {
    && ComesTo(streams, offsets, ends, j, limit, decode) && RoomBehind(streams, offsets, ends, j, limit, decode)
    && Unfinished(streams[j].bytes, ends[j])
  }

  /** Something is left: bytes behind the stopping point, or behind what was too large, or another stream. */
  ghost predicate LeavesMore(streams: seq<Stream>, offsets: map<string, nat>, ends: seq<nat>, j: nat, limit: int,
                             decode: Line -> Record) {
    && ComesTo(streams, offsets, ends, j, limit, decode)
    && if RoomBehind(streams, offsets, ends, j, limit, decode)
       then TooLarge(streams[j].bytes, ends[j]) && |streams[j].bytes| > ends[j] + 262145
       else ends[j] < |streams[j].bytes| || j + 1 < |streams|
  }

  ghost predicate AnyReplaced(streams: seq<Stream>, offsets: map<string, nat>, ends: seq<nat>, n: nat, limit: int,
                              decode: Line -> Record) {
    exists j | 0 <= j < n :: FindsReplaced(streams, offsets, ends, j, limit, decode)
  }

  ghost predicate AnyTooLarge(streams: seq<Stream>, offsets: map<string, nat>, ends: seq<nat>, n: nat, limit: int,
                              decode: Line -> Record) {
    exists j | 0 <= j < n :: FindsTooLarge(streams, offsets, ends, j, limit, decode)
  }

  ghost predicate AnyTail(streams: seq<Stream>, offsets: map<string, nat>, ends: seq<nat>, n: nat, limit: int,
                          decode: Line -> Record) {
    exists j | 0 <= j < n :: FindsTail(streams, offsets, ends, j, limit, decode)
  }

  /** The gaps of the first `n` streams, each reported exactly when it is found. */
  ghost predicate Reports(streams: seq<Stream>, offsets: map<string, nat>, ends: seq<nat>, n: nat, limit: int,
                          gaps: set<Gap>, decode: Line -> Record) {
    && n <= |streams| && n <= |ends|
    && (StreamReplaced in gaps <==> AnyReplaced(streams, offsets, ends, n, limit, decode))
    && (RecordTooLarge in gaps <==> AnyTooLarge(streams, offsets, ends, n, limit, decode))
    && (PartialTail in gaps <==> AnyTail(streams, offsets, ends, n, limit, decode))
    && (InvalidRecord in gaps <==> SomeInvalid(Passed(streams, offsets, ends, n), decode))
  }

  ghost predicate LeftOver(streams: seq<Stream>, offsets: map<string, nat>, ends: seq<nat>, n: nat, limit: int,
                           decode: Line -> Record) {
    exists j | 0 <= j < n :: LeavesMore(streams, offsets, ends, j, limit, decode)
  }

  /** Every line of the page was begun with room for it, and it stops only when all streams are at their end or the
      room is used up. */
  ghost predicate StopsInTime(streams: seq<Stream>, offsets: map<string, nat>, ends: seq<nat>, limit: int,
                              decode: Line -> Record) {
    && |ends| == |streams|
    && InRoom(Passed(streams, offsets, ends, |streams|), limit, 1048576, decode)
    && (|Kept(Passed(streams, offsets, ends, |streams|), decode)| < limit
        && Volume(Passed(streams, offsets, ends, |streams|)) < 1048576
        ==> AllDrained(streams, ends))
  }

  lemma {:induction false} SamePassed(streams: seq<Stream>, offsets: map<string, nat>, ends: seq<nat>, all: seq<nat>,
                                      n: nat)
    requires n <= |ends| <= |all| && n <= |streams| && ends == all[..|ends|]
    ensures Passed(streams, offsets, all, n) == Passed(streams, offsets, ends, n)
  {
    if n == 0 {
    } else {
      SamePassed(streams, offsets, ends, all, n - 1);
      assert all[n - 1] == all[..|ends|][n - 1];
    }
  }

  /** What is said of the first streams does not depend on the later ones. */
  lemma SameFinds(streams: seq<Stream>, offsets: map<string, nat>, ends: seq<nat>, all: seq<nat>, j: nat, limit: int,
                  decode: Line -> Record)
    requires j < |ends| <= |all| && |ends| <= |streams| && ends == all[..|ends|]
    ensures ends[j] == all[j]
    ensures RoomBehind(streams, offsets, all, j, limit, decode)
       <==> RoomBehind(streams, offsets, ends, j, limit, decode)
    ensures ComesTo(streams, offsets, all, j, limit, decode) <==> ComesTo(streams, offsets, ends, j, limit, decode)
  {
    hide Passed, Kept, Volume;
    assert ends[j] == all[..|ends|][j];
    forall k | 0 <= k <= j
      ensures RoomBehind(streams, offsets, all, k, limit, decode)
         <==> RoomBehind(streams, offsets, ends, k, limit, decode)
    {
      SamePassed(streams, offsets, ends, all, k + 1);
    }
  }

  lemma ReportsCarry(streams: seq<Stream>, offsets: map<string, nat>, ends: seq<nat>, all: seq<nat>, limit: int,
                     gaps: set<Gap>, decode: Line -> Record)
    requires |ends| <= |all| && |ends| <= |streams| && ends == all[..|ends|]
    ensures Reports(streams, offsets, all, |ends|, limit, gaps, decode)
       <==> Reports(streams, offsets, ends, |ends|, limit, gaps, decode)
    ensures LeftOver(streams, offsets, all, |ends|, limit, decode)
       <==> LeftOver(streams, offsets, ends, |ends|, limit, decode)
  {
    hide Passed, Kept, Volume, RoomBehind, ComesTo, TooLarge, Unfinished, SomeInvalid;
    SamePassed(streams, offsets, ends, all, |ends|);
    forall j | 0 <= j < |ends|
      ensures FindsReplaced(streams, offsets, all, j, limit, decode)
         <==> FindsReplaced(streams, offsets, ends, j, limit, decode)
      ensures FindsTooLarge(streams, offsets, all, j, limit, decode)
         <==> FindsTooLarge(streams, offsets, ends, j, limit, decode)
      ensures FindsTail(streams, offsets, all, j, limit, decode)
         <==> FindsTail(streams, offsets, ends, j, limit, decode)
      ensures LeavesMore(streams, offsets, all, j, limit, decode)
         <==> LeavesMore(streams, offsets, ends, j, limit, decode)
    {
      SameFinds(streams, offsets, ends, all, j, limit, decode);
    }
  }

  ghost predicate TotalsRight(streams: seq<Stream>, offsets: map<string, nat>, ends: seq<nat>, limit: int, s: Scan,
                              decode: Line -> Record)
    requires |ends| <= |streams|
  {
    && s.events == Kept(Passed(streams, offsets, ends, |ends|), decode)
    && s.budget == 1048576 - Volume(Passed(streams, offsets, ends, |ends|))
    && InRoom(Passed(streams, offsets, ends, |ends|), limit, 1048576, decode)
  }

  /** There was room behind every stream read, or there was not behind the last one. */
  ghost predicate StopRight(streams: seq<Stream>, offsets: map<string, nat>, ends: seq<nat>, limit: int, stopped: bool,
                            decode: Line -> Record)
    requires |ends| <= |streams|
  {
    && (!stopped ==>
          forall k | 0 <= k < |ends| && !streams[k].link :: RoomBehind(streams, offsets, ends, k, limit, decode))
    && (stopped ==>
          && ends != [] && !streams[|ends| - 1].link
          && !RoomBehind(streams, offsets, ends, |ends| - 1, limit, decode))
  }

  /** What the loop knows beside `ScanOk`: the exact totals, and why it goes on or has stopped. */
  ghost predicate Tight(streams: seq<Stream>, offsets: map<string, nat>, ends: seq<nat>, limit: int, s: Scan,
                        decode: Line -> Record) {
    && |ends| <= |streams| && |ends| <= 256
    && TotalsRight(streams, offsets, ends, limit, s, decode)
    && StopRight(streams, offsets, ends, limit, s.stopped, decode)
    && (s.more <==> LeftOver(streams, offsets, ends, |ends|, limit, decode))
    && (s.advanced <==> SomeProgress(streams, offsets, ends))
  }

  lemma TightStarts(streams: seq<Stream>, offsets: map<string, nat>, limit: int, decode: Line -> Record)
    ensures Tight(streams, offsets, [], limit, Scan([], offsets, PAGE_BYTES, false, false, false), decode)
    ensures Reports(streams, offsets, [], 0, limit, {}, decode)
  {}

  lemma SameProgress(streams: seq<Stream>, offsets: map<string, nat>, ends: seq<nat>, end: nat)
    requires |ends| < |streams|
    ensures SomeProgress(streams, offsets, ends + [end])
       <==> SomeProgress(streams, offsets, ends) || end > Start(streams[|ends|], offsets)
  {
    var more := ends + [end];
    if SomeProgress(streams, offsets, more) {
      var j :| 0 <= j < |streams| && j < |more| && Progress(streams, offsets, more, j);
      assert j < |ends| ==> Progress(streams, offsets, ends, j);
    }
    if end > Start(streams[|ends|], offsets) || SomeProgress(streams, offsets, ends) {
      StillProgress(streams, offsets, ends, end);
    }
  }

  lemma AnyNext(streams: seq<Stream>, offsets: map<string, nat>, ends: seq<nat>, n: nat, limit: int,
                decode: Line -> Record)
    ensures AnyReplaced(streams, offsets, ends, n + 1, limit, decode)
       <==> AnyReplaced(streams, offsets, ends, n, limit, decode)
            || FindsReplaced(streams, offsets, ends, n, limit, decode)
    ensures AnyTooLarge(streams, offsets, ends, n + 1, limit, decode)
       <==> AnyTooLarge(streams, offsets, ends, n, limit, decode)
            || FindsTooLarge(streams, offsets, ends, n, limit, decode)
    ensures AnyTail(streams, offsets, ends, n + 1, limit, decode)
       <==> AnyTail(streams, offsets, ends, n, limit, decode) || FindsTail(streams, offsets, ends, n, limit, decode)
  {
    hide FindsReplaced, FindsTooLarge, FindsTail;
    if AnyReplaced(streams, offsets, ends, n + 1, limit, decode) {
      var j :| 0 <= j < n + 1 && FindsReplaced(streams, offsets, ends, j, limit, decode);
      assert j < n || j == n;
    }
    if AnyTooLarge(streams, offsets, ends, n + 1, limit, decode) {
      var j :| 0 <= j < n + 1 && FindsTooLarge(streams, offsets, ends, j, limit, decode);
      assert j < n || j == n;
    }
    if AnyTail(streams, offsets, ends, n + 1, limit, decode) {
      var j :| 0 <= j < n + 1 && FindsTail(streams, offsets, ends, j, limit, decode);
      assert j < n || j == n;
    }
  }

  /** One more stream in the reports: nothing of it, or what was found in it. */
  lemma ReportsNext(streams: seq<Stream>, offsets: map<string, nat>, ends: seq<nat>, end: nat, limit: int,
                    gaps: set<Gap>, more: set<Gap>, decode: Line -> Record)
    requires |ends| < |streams| && Reports(streams, offsets, ends, |ends|, limit, gaps, decode)
    requires var all, n := ends + [end], |ends|;
      && (StreamReplaced in more <==> StreamReplaced in gaps || FindsReplaced(streams, offsets, all, n, limit, decode))
      && (RecordTooLarge in more <==> RecordTooLarge in gaps || FindsTooLarge(streams, offsets, all, n, limit, decode))
      && (PartialTail in more <==> PartialTail in gaps || FindsTail(streams, offsets, all, n, limit, decode))
      && (InvalidRecord in more <==> SomeInvalid(Passed(streams, offsets, all, n + 1), decode))
    ensures Reports(streams, offsets, ends + [end], |ends| + 1, limit, more, decode)
  {
    var all, n := ends + [end], |ends|;
    assert ends == all[..n];
    ReportsCarry(streams, offsets, ends, all, limit, gaps, decode);
    AnyNext(streams, offsets, all, n, limit, decode);
    hide Passed, AnyReplaced, AnyTooLarge, AnyTail, FindsReplaced, FindsTooLarge, FindsTail, SomeInvalid;
  }

  lemma LeftOverNext(streams: seq<Stream>, offsets: map<string, nat>, ends: seq<nat>, end: nat, limit: int,
                     decode: Line -> Record)
    requires |ends| < |streams|
    ensures LeftOver(streams, offsets, ends + [end], |ends| + 1, limit, decode)
       <==> LeftOver(streams, offsets, ends, |ends|, limit, decode)
            || LeavesMore(streams, offsets, ends + [end], |ends|, limit, decode)
  {
    var all, n := ends + [end], |ends|;
    assert ends == all[..n];
    ReportsCarry(streams, offsets, ends, all, limit, {}, decode);
    hide LeavesMore;
    if j :| 0 <= j < n + 1 && LeavesMore(streams, offsets, all, j, limit, decode) { assert j < n || j == n; }
  }

  lemma RoomCarries(streams: seq<Stream>, offsets: map<string, nat>, ends: seq<nat>, end: nat, limit: int,
                    decode: Line -> Record)
    requires |ends| < |streams|
    ensures forall k | 0 <= k < |ends| ::
      RoomBehind(streams, offsets, ends + [end], k, limit, decode)
      <==> RoomBehind(streams, offsets, ends, k, limit, decode)
  {
    hide RoomBehind;
    assert ends == (ends + [end])[..|ends|];
    forall k | 0 <= k < |ends|
      ensures RoomBehind(streams, offsets, ends + [end], k, limit, decode)
         <==> RoomBehind(streams, offsets, ends, k, limit, decode)
    {
      SameFinds(streams, offsets, ends, ends + [end], k, limit, decode);
    }
  }

  lemma PassedNext(streams: seq<Stream>, offsets: map<string, nat>, ends: seq<nat>, end: nat)
    requires |ends| < |streams|
    ensures Passed(streams, offsets, ends + [end], |ends| + 1)
      == Passed(streams, offsets, ends, |ends|)
         + Lines(streams[|ends|].bytes, Start(streams[|ends|], offsets), end)
  {
    PrefixMatters(streams, offsets, ends, end, |ends|);
  }

  lemma SkippedReports(streams: seq<Stream>, offsets: map<string, nat>, ends: seq<nat>, end: nat, limit: int,
                       gaps: set<Gap>, decode: Line -> Record)
    requires Reports(streams, offsets, ends, |ends|, limit, gaps, decode) && |ends| < |streams| && streams[|ends|].link
    requires Passed(streams, offsets, ends + [end], |ends| + 1) == Passed(streams, offsets, ends, |ends|)
    ensures Reports(streams, offsets, ends + [end], |ends| + 1, limit, gaps, decode)
  {
    hide Passed, Kept, Volume, RoomBehind, SomeInvalid;
    ReportsNext(streams, offsets, ends, end, limit, gaps, gaps, decode);
  }

  lemma InRoomAt(a: seq<Line>, b: seq<Line>, limit: int, most: int, decode: Line -> Record, i: nat)
    requires InRoom(a, limit, most, decode) && InRoom(b, limit - |Kept(a, decode)|, most - Volume(a), decode)
    requires i < |a| + |b|
    ensures |Kept((a + b)[..i], decode)| < limit && Volume((a + b)[..i]) < most
  {
    hide Kept, Volume;
    if i < |a| {
      assert (a + b)[..i] == a[..i];
    } else {
      var k := i - |a|;
      assert (a + b)[..i] == a + b[..k];
      KeptConcat(a, b[..k], decode);
      VolumeConcat(a, b[..k]);
    }
  }

  lemma InRoomConcat(a: seq<Line>, b: seq<Line>, limit: int, most: int, decode: Line -> Record)
    requires InRoom(a, limit, most, decode) && InRoom(b, limit - |Kept(a, decode)|, most - Volume(a), decode)
    ensures InRoom(a + b, limit, most, decode)
  {
    hide Kept, Volume;
    forall i | 0 <= i < |a + b| ensures |Kept((a + b)[..i], decode)| < limit && Volume((a + b)[..i]) < most {
      InRoomAt(a, b, limit, most, decode, i);
    }
  }

  lemma InvalidConcat(a: seq<Line>, b: seq<Line>, decode: Line -> Record)
    ensures SomeInvalid(a + b, decode) <==> SomeInvalid(a, decode) || SomeInvalid(b, decode)
  {
    if SomeInvalid(a, decode) {
      var i :| 0 <= i < |a| && decode(a[i]) == Invalid;
      assert (a + b)[i] == a[i];
    }
    if SomeInvalid(b, decode) {
      var i :| 0 <= i < |b| && decode(b[i]) == Invalid;
      assert (a + b)[|a| + i] == b[i];
    }
  }

  /** What reading one stream told. */
  ghost predicate StreamTold(stream: Stream, start: nat, at: nat, tell: nat, found: seq<Line>, room: int, budget: int,
                             missed: set<Gap>, decode: Line -> Record) {
    && start <= at <= tell <= |stream.bytes| && found == Kept(Lines(stream.bytes, start, at), decode)
    && InBounds(stream.bytes, start, at, room, budget, missed, decode)
    && var goesOn := |found| < room && at - start < budget;
    && (RecordTooLarge in missed <==> goesOn && TooLarge(stream.bytes, at))
    && (PartialTail in missed <==> goesOn && Unfinished(stream.bytes, at))
    && StreamReplaced !in missed
    && (tell < |stream.bytes| <==>
          if goesOn then |stream.bytes| > at + 262145 && TooLarge(stream.bytes, at) else at < |stream.bytes|)
  }

  /** The totals behind one more stream. */
  lemma TotalsNext(streams: seq<Stream>, offsets: map<string, nat>, ends: seq<nat>, limit: int, s: Scan,
                   at: nat, tell: nat, found: seq<Line>, missed: set<Gap>, decode: Line -> Record)
    requires Tight(streams, offsets, ends, limit, s, decode) && |ends| < |streams|
    requires StreamTold(streams[|ends|], Start(streams[|ends|], offsets), at, tell, found, limit - |s.events|,
                        s.budget, missed, decode)
    ensures var after, n := Passed(streams, offsets, ends + [at], |ends| + 1), |ends|;
      && s.events + found == Kept(after, decode)
      && s.budget - (at - Start(streams[n], offsets)) == 1048576 - Volume(after)
      && InRoom(after, limit, 1048576, decode)
      && (SomeInvalid(after, decode) <==>
            SomeInvalid(Passed(streams, offsets, ends, n), decode) || InvalidRecord in missed)
      && (RoomBehind(streams, offsets, ends + [at], n, limit, decode) <==>
            |found| < limit - |s.events| && at - Start(streams[n], offsets) < s.budget)
  {
    hide Passed, Kept, Volume, SomeProgress, LeftOver, InRoom, Start, Lines, SomeInvalid;
    var n, start := |ends|, Start(streams[|ends|], offsets);
    var before, lines := Passed(streams, offsets, ends, n), Lines(streams[n].bytes, start, at);
    PassedNext(streams, offsets, ends, at);
    KeptConcat(before, lines, decode);
    VolumeConcat(before, lines);
    InRoomConcat(before, lines, limit, 1048576, decode);
    InvalidConcat(before, lines, decode);
  }

  lemma ComesNext(streams: seq<Stream>, offsets: map<string, nat>, ends: seq<nat>, limit: int, s: Scan, at: nat,
                  decode: Line -> Record)
    requires Tight(streams, offsets, ends, limit, s, decode) && !s.stopped
    requires |ends| < |streams| && |ends| < 256 && !streams[|ends|].link
    ensures ComesTo(streams, offsets, ends + [at], |ends|, limit, decode)
  {
    RoomCarries(streams, offsets, ends, at, limit, decode);
    hide RoomBehind, SomeProgress, LeftOver, InRoom;
  }

  lemma ReportsRead(streams: seq<Stream>, offsets: map<string, nat>, ends: seq<nat>, limit: int, s: Scan,
                    gaps: set<Gap>, at: nat, tell: nat, found: seq<Line>, missed: set<Gap>, replaced: bool,
                    decode: Line -> Record)
    requires Tight(streams, offsets, ends, limit, s, decode) && !s.stopped
    requires Reports(streams, offsets, ends, |ends|, limit, gaps, decode)
    requires |ends| < |streams| && |ends| < 256 && !streams[|ends|].link
    requires StreamTold(streams[|ends|], Start(streams[|ends|], offsets), at, tell, found, limit - |s.events|,
                        s.budget, missed, decode)
    requires replaced <==>
      streams[|ends|].name in offsets && offsets[streams[|ends|].name] > |streams[|ends|].bytes|
    ensures Reports(streams, offsets, ends + [at], |ends| + 1, limit,
                    gaps + (if replaced then {StreamReplaced} else {}) + missed, decode)
  {
    var n, all := |ends|, ends + [at];
    TotalsNext(streams, offsets, ends, limit, s, at, tell, found, missed, decode);
    ComesNext(streams, offsets, ends, limit, s, at, decode);
    hide Tight, Passed, Kept, Volume, RoomBehind, SomeInvalid, Start, Lines, TooLarge, Unfinished, ComesTo, InBounds;
    hide AnyReplaced, AnyTooLarge, AnyTail;
    ReportsNext(streams, offsets, ends, at, limit, gaps,
                gaps + (if replaced then {StreamReplaced} else {}) + missed, decode);
  }

  lemma LeavesNext(streams: seq<Stream>, offsets: map<string, nat>, ends: seq<nat>, limit: int, s: Scan,
                   at: nat, tell: nat, found: seq<Line>, missed: set<Gap>, decode: Line -> Record)
    requires Tight(streams, offsets, ends, limit, s, decode) && !s.stopped
    requires |ends| < |streams| && |ends| < 256 && !streams[|ends|].link
    requires StreamTold(streams[|ends|], Start(streams[|ends|], offsets), at, tell, found, limit - |s.events|,
                        s.budget, missed, decode)
    ensures var start := Start(streams[|ends|], offsets);
      var goesOn := |found| < limit - |s.events| && at - start < s.budget;
      LeavesMore(streams, offsets, ends + [at], |ends|, limit, decode)
      <==> tell < |streams[|ends|].bytes| || (!goesOn && |ends| + 1 < |streams|)
  {
    TotalsNext(streams, offsets, ends, limit, s, at, tell, found, missed, decode);
    ComesNext(streams, offsets, ends, limit, s, at, decode);
    hide Tight, Passed, Kept, Volume, RoomBehind, Start, Lines, TooLarge, Unfinished, ComesTo, InBounds;
  }

  lemma StopNext(streams: seq<Stream>, offsets: map<string, nat>, ends: seq<nat>, limit: int, at: nat, goesOn: bool,
                 decode: Line -> Record)
    requires |ends| < |streams| && StopRight(streams, offsets, ends, limit, false, decode) && !streams[|ends|].link
    requires RoomBehind(streams, offsets, ends + [at], |ends|, limit, decode) <==> goesOn
    ensures StopRight(streams, offsets, ends + [at], limit, !goesOn, decode)
  {
    RoomCarries(streams, offsets, ends, at, limit, decode);
    hide RoomBehind;
  }

  lemma TightStop(streams: seq<Stream>, offsets: map<string, nat>, ends: seq<nat>, limit: int, s: Scan,
                  decode: Line -> Record)
    requires Tight(streams, offsets, ends, limit, s, decode)
    ensures |ends| <= |streams| && StopRight(streams, offsets, ends, limit, s.stopped, decode)
    ensures s.more <==> LeftOver(streams, offsets, ends, |ends|, limit, decode)
    ensures s.advanced <==> SomeProgress(streams, offsets, ends)
  {}

  lemma AfterStreamIs(s: Scan, stream: Stream, start: nat, at: nat, tell: nat, found: seq<Line>, limit: int, last: bool)
    ensures var t := AfterStream(s, stream, start, at, tell, found, limit, last);
      var goesOn := |found| < limit - |s.events| && at - start < s.budget;
      && t.events == s.events + found && t.budget == s.budget - (at - start) && t.stopped == !goesOn
      && t.more == (s.more || tell < |stream.bytes| || (!goesOn && !last))
      && t.advanced == (s.advanced || at > start)
  {}

  lemma TotalsMade(streams: seq<Stream>, offsets: map<string, nat>, ends: seq<nat>, limit: int, s: Scan,
                   decode: Line -> Record)
    requires |ends| <= |streams| && s.events == Kept(Passed(streams, offsets, ends, |ends|), decode)
    requires s.budget == 1048576 - Volume(Passed(streams, offsets, ends, |ends|))
    requires InRoom(Passed(streams, offsets, ends, |ends|), limit, 1048576, decode)
    ensures TotalsRight(streams, offsets, ends, limit, s, decode)
  {}

  lemma TightMade(streams: seq<Stream>, offsets: map<string, nat>, ends: seq<nat>, limit: int, s: Scan,
                  decode: Line -> Record)
    requires |ends| <= |streams| && |ends| <= 256 && TotalsRight(streams, offsets, ends, limit, s, decode)
    requires StopRight(streams, offsets, ends, limit, s.stopped, decode)
    requires s.more <==> LeftOver(streams, offsets, ends, |ends|, limit, decode)
    requires s.advanced <==> SomeProgress(streams, offsets, ends)
    ensures Tight(streams, offsets, ends, limit, s, decode)
  {}

  lemma NothingPassed(streams: seq<Stream>, offsets: map<string, nat>, ends: seq<nat>, start: nat,
                      decode: Line -> Record)
    requires |ends| < |streams| && start == Start(streams[|ends|], offsets)
    ensures Passed(streams, offsets, ends + [start], |ends| + 1) == Passed(streams, offsets, ends, |ends|)
  {
    PassedNext(streams, offsets, ends, start);
    LeftAlone(streams[|ends|], offsets, decode);
  }

  lemma SkipStops(streams: seq<Stream>, offsets: map<string, nat>, ends: seq<nat>, limit: int, start: nat,
                  decode: Line -> Record)
    requires |ends| < |streams| && StopRight(streams, offsets, ends, limit, false, decode) && streams[|ends|].link
    ensures StopRight(streams, offsets, ends + [start], limit, false, decode)
  {
    RoomCarries(streams, offsets, ends, start, limit, decode);
    hide RoomBehind;
  }

  lemma NotComeTo(streams: seq<Stream>, offsets: map<string, nat>, ends: seq<nat>, j: nat, limit: int,
                  decode: Line -> Record)
    requires j < |streams| && streams[j].link
    ensures !LeavesMore(streams, offsets, ends, j, limit, decode)
  {
    hide RoomBehind, TooLarge;
  }

  lemma TightTotals(streams: seq<Stream>, offsets: map<string, nat>, ends: seq<nat>, limit: int, s: Scan,
                    decode: Line -> Record)
    requires Tight(streams, offsets, ends, limit, s, decode)
    ensures |ends| <= |streams| && s.events == Kept(Passed(streams, offsets, ends, |ends|), decode)
    ensures s.budget == 1048576 - Volume(Passed(streams, offsets, ends, |ends|))
    ensures InRoom(Passed(streams, offsets, ends, |ends|), limit, 1048576, decode)
  {}

  lemma TightSkips(streams: seq<Stream>, offsets: map<string, nat>, ends: seq<nat>, limit: int, s: Scan, gaps: set<Gap>,
                   decode: Line -> Record)
    requires Tight(streams, offsets, ends, limit, s, decode) && !s.stopped
    requires Reports(streams, offsets, ends, |ends|, limit, gaps, decode)
    requires |ends| < |streams| && |ends| < 256 && streams[|ends|].link
    ensures Tight(streams, offsets, ends + [Start(streams[|ends|], offsets)], limit, s, decode)
    ensures Reports(streams, offsets, ends + [Start(streams[|ends|], offsets)], |ends| + 1, limit, gaps, decode)
  {
    hide *;
    var start := Start(streams[|ends|], offsets);
    TightStop(streams, offsets, ends, limit, s, decode);
    TightTotals(streams, offsets, ends, limit, s, decode);
    NothingPassed(streams, offsets, ends, start, decode);
    SkipStops(streams, offsets, ends, limit, start, decode);
    SameProgress(streams, offsets, ends, start);
    LeftOverNext(streams, offsets, ends, start, limit, decode);
    NotComeTo(streams, offsets, ends + [start], |ends|, limit, decode);
    SkippedReports(streams, offsets, ends, start, limit, gaps, decode);
    TotalsMade(streams, offsets, ends + [start], limit, s, decode);
    TightMade(streams, offsets, ends + [start], limit, s, decode);
  }

  lemma TightReads(streams: seq<Stream>, offsets: map<string, nat>, ends: seq<nat>, limit: int, s: Scan,
                   at: nat, tell: nat, found: seq<Line>, missed: set<Gap>, decode: Line -> Record)
    requires Tight(streams, offsets, ends, limit, s, decode) && !s.stopped
    requires |ends| < |streams| && |ends| < 256 && !streams[|ends|].link
    requires StreamTold(streams[|ends|], Start(streams[|ends|], offsets), at, tell, found, limit - |s.events|,
                        s.budget, missed, decode)
    ensures Tight(streams, offsets, ends + [at], limit,
                  AfterStream(s, streams[|ends|], Start(streams[|ends|], offsets), at, tell, found, limit,
                              |ends| + 1 == |streams|), decode)
  {
    hide *;
    var stream, start := streams[|ends|], Start(streams[|ends|], offsets);
    var goesOn := |found| < limit - |s.events| && at - start < s.budget;
    TotalsNext(streams, offsets, ends, limit, s, at, tell, found, missed, decode);
    LeavesNext(streams, offsets, ends, limit, s, at, tell, found, missed, decode);
    SameProgress(streams, offsets, ends, at);
    LeftOverNext(streams, offsets, ends, at, limit, decode);
    TightStop(streams, offsets, ends, limit, s, decode);
    StopNext(streams, offsets, ends, limit, at, goesOn, decode);
    var t := AfterStream(s, stream, start, at, tell, found, limit, |ends| + 1 == |streams|);
    AfterStreamIs(s, stream, start, at, tell, found, limit, |ends| + 1 == |streams|);
    TotalsMade(streams, offsets, ends + [at], limit, t, decode);
    TightMade(streams, offsets, ends + [at], limit, t, decode);
  }

  lemma {:induction false} PassedUntouched(streams: seq<Stream>, offsets: map<string, nat>, all: seq<nat>, n: nat,
                                           m: nat)
    requires n <= m <= |streams| == |all| && forall j | n <= j < |streams| :: all[j] == Start(streams[j], offsets)
    ensures Passed(streams, offsets, all, m) == Passed(streams, offsets, all, n)
    decreases m
  {
    if m == n {
    } else {
      PassedUntouched(streams, offsets, all, n, m - 1);
      assert Lines(streams[m - 1].bytes, Start(streams[m - 1], offsets), all[m - 1]) == [];
    }
  }

  /** Behind the stopping point nothing is found. */
  lemma NothingBehind(streams: seq<Stream>, offsets: map<string, nat>, ends: seq<nat>, all: seq<nat>, limit: int,
                      s: Scan, j: nat, decode: Line -> Record)
    requires Tight(streams, offsets, ends, limit, s, decode) && |all| == |streams| && ends == all[..|ends|]
    requires |ends| == |streams| || |ends| == 256 || s.stopped
    requires |ends| <= j < |streams|
    ensures !ComesTo(streams, offsets, all, j, limit, decode)
  {
    hide LeftOver, SomeProgress, InRoom, RoomBehind;
    if s.stopped { SameFinds(streams, offsets, ends, all, |ends| - 1, limit, decode); }
  }

  lemma ReportsInFull(streams: seq<Stream>, offsets: map<string, nat>, ends: seq<nat>, all: seq<nat>, limit: int,
                      s: Scan, gaps: set<Gap>, decode: Line -> Record)
    requires Tight(streams, offsets, ends, limit, s, decode) && |all| == |streams| && ends == all[..|ends|]
    requires Reports(streams, offsets, ends, |ends|, limit, gaps, decode)
    requires forall j | |ends| <= j < |streams| :: all[j] == Start(streams[j], offsets)
    requires |ends| == |streams| || |ends| == 256 || s.stopped
    ensures Reports(streams, offsets, all, |streams|, limit, gaps, decode)
    ensures s.more <==> LeftOver(streams, offsets, all, |streams|, limit, decode)
  {
    var n := |ends|;
    ReportsCarry(streams, offsets, ends, all, limit, gaps, decode);
    PassedUntouched(streams, offsets, all, n, |streams|);
    hide Passed, RoomBehind, InRoom, SomeProgress, SomeInvalid, TooLarge, Unfinished;
    forall j | n <= j < |streams|
      ensures !FindsReplaced(streams, offsets, all, j, limit, decode)
      ensures !FindsTooLarge(streams, offsets, all, j, limit, decode)
      ensures !FindsTail(streams, offsets, all, j, limit, decode)
      ensures !LeavesMore(streams, offsets, all, j, limit, decode)
    {
      NothingBehind(streams, offsets, ends, all, limit, s, j, decode);
    }
  }

  lemma ProgressWithin(streams: seq<Stream>, offsets: map<string, nat>, ends: seq<nat>, all: seq<nat>)
    requires |all| == |streams| && |ends| <= |streams| && ends == all[..|ends|]
    requires forall j | |ends| <= j < |streams| :: all[j] == Start(streams[j], offsets)
    ensures SomeProgress(streams, offsets, all) ==> SomeProgress(streams, offsets, ends)
  {
    if SomeProgress(streams, offsets, all) {
      var j :| 0 <= j < |streams| && j < |all| && Progress(streams, offsets, all, j);
      assert ends[j] == all[..|ends|][j];
      assert Progress(streams, offsets, ends, j);
    }
  }

  lemma StopsWell(streams: seq<Stream>, offsets: map<string, nat>, ends: seq<nat>, all: seq<nat>, limit: int, s: Scan,
                  decode: Line -> Record)
    requires Tight(streams, offsets, ends, limit, s, decode) && ScanOk(streams, offsets, ends, limit, s, decode)
    requires |all| == |streams| && ends == all[..|ends|]
    requires forall j | |ends| <= j < |streams| :: all[j] == Start(streams[j], offsets)
    requires |ends| == |streams| || |ends| == 256 || s.stopped
    ensures StopsInTime(streams, offsets, all, limit, decode)
    ensures s.advanced <==> SomeProgress(streams, offsets, all)
  {
    PassedUntouched(streams, offsets, all, |ends|, |streams|);
    SamePassed(streams, offsets, ends, all, |ends|);
    Extended(streams, offsets, ends, all);
    ProgressWithin(streams, offsets, ends, all);
    hide Passed, LeftOver, InRoom, SomeProgress, AllDrained, DrainedBefore, PageOf, Kept, Volume;
  }

  /** The report on the streams of a page, and whether more is left. */
  ghost predicate Complies(streams: seq<Stream>, offsets: map<string, nat>, ends: seq<nat>, limit: int, gaps: set<Gap>,
                           more: bool, decode: Line -> Record) {
    && StopsInTime(streams, offsets, ends, limit, decode)
    && Reports(streams, offsets, ends, |streams|, limit, gaps, decode)
    && (more <==> LeftOver(streams, offsets, ends, |streams|, limit, decode) && SomeProgress(streams, offsets, ends))
  }

  lemma ScanComplies(streams: seq<Stream>, offsets: map<string, nat>, ends: seq<nat>, all: seq<nat>, limit: int,
                     s: Scan, gaps: set<Gap>, decode: Line -> Record)
    requires ScanOk(streams, offsets, ends, limit, s, decode) && Tight(streams, offsets, ends, limit, s, decode)
    requires Reports(streams, offsets, ends, |ends|, limit, gaps, decode)
    requires |ends| <= |streams| == |all| && ends == all[..|ends|]
    requires forall j | |ends| <= j < |streams| :: all[j] == Start(streams[j], offsets)
    requires |ends| == |streams| || |ends| == 256 || s.stopped
    ensures Complies(streams, offsets, all, limit, gaps, s.more && s.advanced, decode)
  {
    ReportsInFull(streams, offsets, ends, all, limit, s, gaps, decode);
    StopsWell(streams, offsets, ends, all, limit, s, decode);
    hide ScanOk, Tight, Reports, LeftOver, SomeProgress, StopsInTime, Start;
  }

  lemma EarlierStreams(streams: seq<Stream>, offsets: map<string, nat>, ends: seq<nat>, limit: int, s: Scan, at: nat,
                       decode: Line -> Record)
    requires ScanOk(streams, offsets, ends, limit, s, decode) && !s.stopped && limit >= 1 && |ends| < |streams|
    ensures forall k | 0 <= k < |ends| ::
      Visited(streams[k], offsets, ends[k], Readable(streams, k)) && Drained(streams, ends + [at], k)
    ensures Objects(Passed(streams, offsets, ends, |ends|), decode)
  {
    hide Visited, Complete, Passed, Objects, Kept, DrainedBefore, SomeProgress, Advanced;
    forall k | 0 <= k < |ends|
      ensures Visited(streams[k], offsets, ends[k], Readable(streams, k)) && Drained(streams, ends + [at], k)
    {
      assert Drained(streams, ends, k);
    }
  }

  lemma LinesInRoom(streams: seq<Stream>, offsets: map<string, nat>, ends: seq<nat>, limit: int, s: Scan, at: nat,
                    gaps: set<Gap>, decode: Line -> Record)
    requires Tight(streams, offsets, ends, limit, s, decode) && |ends| < |streams|
    requires var stream := streams[|ends|];
      InBounds(stream.bytes, Start(stream, offsets), at, limit - |s.events|, s.budget, gaps, decode)
    ensures InRoom(Passed(streams, offsets, ends + [at], |ends| + 1), limit, 1048576, decode)
  {
    hide Passed, Kept, Volume, Lines, Start, InRoom, StopRight, LeftOver, SomeProgress, SomeInvalid;
    var n := |ends|;
    PassedNext(streams, offsets, ends, at);
    InRoomConcat(Passed(streams, offsets, ends, n), Lines(streams[n].bytes, Start(streams[n], offsets), at), limit,
                 1048576, decode);
  }

  /** A failed reading of the next stream. */
  lemma FallsHere(streams: seq<Stream>, offsets: map<string, nat>, ends: seq<nat>, limit: int, s: Scan, at: nat,
                  gaps: set<Gap>, decode: Line -> Record)
    requires ScanOk(streams, offsets, ends, limit, s, decode) && Tight(streams, offsets, ends, limit, s, decode)
    requires !s.stopped && limit >= 1 && |ends| < |streams| && |ends| < MOST_STREAMS && !streams[|ends|].link
    requires var stream := streams[|ends|]; var start := Start(stream, offsets);
      && Reads(stream.bytes, start, at) && !Objects(Lines(stream.bytes, start, at), decode)
      && InBounds(stream.bytes, start, at, limit - |s.events|, s.budget, gaps, decode)
    ensures FallsOver(streams, offsets, limit, decode)
  {
    hide ScanOk, Tight, InBounds, Passed, Lines, Reads, Start, InRoom, Objects, ComesTo, Drained;
    var n, more := |ends|, ends + [at];
    ComesNext(streams, offsets, ends, limit, s, at, decode);
    PrefixMatters(streams, offsets, ends, at, n);
    LinesInRoom(streams, offsets, ends, limit, s, at, gaps, decode);
    EarlierStreams(streams, offsets, ends, limit, s, at, decode);
    assert Visited(streams[n], offsets, at, Readable(streams, n));
    hide Visited, Readable;
    assert StopsOn(streams, offsets, more, n, limit, decode);
  }

  lemma ToldByStream(stream: Stream, start: nat, at: nat, tell: nat, found: seq<Line>, room: int, budget: int,
                     missed: set<Gap>, decode: Line -> Record)
    requires start <= at <= tell <= |stream.bytes| && found == Kept(Lines(stream.bytes, start, at), decode)
    requires InBounds(stream.bytes, start, at, room, budget, missed, decode)
    requires var goesOn := |found| < room && at - start < budget;
      && (RecordTooLarge in missed <==> goesOn && TooLarge(stream.bytes, at))
      && (PartialTail in missed <==> goesOn && Unfinished(stream.bytes, at))
      && StreamReplaced !in missed
      && (tell < |stream.bytes| <==>
            if goesOn then |stream.bytes| > at + 262145 && TooLarge(stream.bytes, at) else at < |stream.bytes|)
    ensures StreamTold(stream, start, at, tell, found, room, budget, missed, decode)
  {}

  /** The loop over the streams. */
  method ScanStreams(streams: seq<Stream>, offsets: map<string, nat>, limit: int, decode: Line -> Record)
      returns (scan: Scan, gaps: set<Gap>, failed: bool, ghost ends: seq<nat>)
    ensures gaps <= PASSING
    ensures failed <==> PageFails(streams, offsets, 0, limit, PAGE_BYTES, decode)
    ensures failed ==> MeetsNonObject(streams, offsets, decode) && FallsOver(streams, offsets, limit, decode)
    ensures !failed ==> Scanned(streams, offsets, ends, limit, scan, decode)
    ensures !failed ==> Complies(streams, offsets, ends, limit, gaps, scan.more && scan.advanced, decode)
  {
    hide PageOf, SomeProgress, AllDrained, Complete, Objects, Kept, Lines, Reads, ScanOk, Start, Scanned, ReadOn;
    hide PageFails, Tight, Reports, Complies, InBounds, TooLarge, Unfinished, StreamTold;
    scan, gaps, ends, failed := Scan([], offsets, PAGE_BYTES, false, false, false), {}, [], false;
    ScanStarts(streams, offsets, limit, decode);
    TightStarts(streams, offsets, limit, decode);
    var n := 0;
    while n < |streams| && n < MOST_STREAMS && !scan.stopped
      invariant n == |ends| <= |streams| && n <= MOST_STREAMS && ScanOk(streams, offsets, ends, limit, scan, decode)
      invariant Tight(streams, offsets, ends, limit, scan, decode)
      invariant Reports(streams, offsets, ends, n, limit, gaps, decode)
      invariant gaps <= PASSING
      invariant PageFails(streams, offsets, 0, limit, PAGE_BYTES, decode) <==>
        FailsLater(streams, offsets, n, limit, scan, decode)
      decreases |streams| - n
    {
      FailsStep(streams, offsets, n, limit - |scan.events|, scan.budget, decode);
      var stream := streams[n];
      var start := Start(stream, offsets);
      if stream.link {
        ScanSkips(streams, offsets, ends, limit, scan, decode);
        TightSkips(streams, offsets, ends, limit, scan, gaps, decode);
        ends := ends + [start];
      } else {
        ghost var before := gaps;
        var replaced := stream.name in offsets && offsets[stream.name] > |stream.bytes|;
        if replaced { gaps := gaps + {StreamReplaced}; }
        var found, at, tell, missed, broken :=
          ReadStream(stream.bytes, start, limit - |scan.events|, scan.budget, decode);
        if broken {
          failed := true;
          assert Readable(streams, n) && FailsBy(streams[n], offsets, at, decode);
          NoRoomNoFailure(stream.bytes, start, limit - |scan.events|, scan.budget, decode);
          FallsHere(streams, offsets, ends, limit, scan, at, missed, decode);
          return;
        }
        gaps := gaps + missed;
        assert gaps == before + (if replaced then {StreamReplaced} else {}) + missed;
        ToldByStream(stream, start, at, tell, found, limit - |scan.events|, scan.budget, missed, decode);
        ReportsRead(streams, offsets, ends, limit, scan, before, at, tell, found, missed, replaced, decode);
        TightReads(streams, offsets, ends, limit, scan, at, tell, found, missed, decode);
        FailureMoves(streams, offsets, n, limit, scan, decode, at, tell, found);
        ScanReads(streams, offsets, ends, limit, scan, decode, at, tell, found);
        scan := AfterStream(scan, stream, start, at, tell, found, limit, n + 1 == |streams|);
        ends := ends + [at];
      }
      n := n + 1;
    }
    if !scan.stopped { FailsAtEnd(streams, offsets, n, limit - |scan.events|, scan.budget, decode); }
    ghost var all := ScanEnds(streams, offsets, ends, limit, scan, decode);
    ScanComplies(streams, offsets, ends, all, limit, scan, gaps, decode);
    ends := all;
  }

  /** The gaps of the whole page beside those of its streams. */
  method ListGaps(known: set<string>, streams: seq<Stream>, passing: set<Gap>, exhausted: bool) returns (gaps: set<Gap>)
    requires passing <= PASSING
    ensures forall gap | gap in PASSING :: gap in gaps <==> gap in passing
    ensures NoLongerRetained in gaps <==> !(known <= Names(streams))
    ensures StreamLimit in gaps <==> |streams| > MOST_STREAMS
    ensures CapacityExhausted in gaps <==> exhausted
  {
    gaps := passing;
    if !(known <= Names(streams)) { gaps := gaps + {NoLongerRetained}; }
    if |streams| > MOST_STREAMS { gaps := gaps + {StreamLimit}; }
    if exhausted { gaps := gaps + {CapacityExhausted}; }
  }

  lemma ReportsAlike(streams: seq<Stream>, offsets: map<string, nat>, ends: seq<nat>, n: nat, limit: int,
                     gaps: set<Gap>, more: set<Gap>, decode: Line -> Record)
    requires Reports(streams, offsets, ends, n, limit, gaps, decode)
    requires forall gap | gap in PASSING :: gap in more <==> gap in gaps
    ensures Reports(streams, offsets, ends, n, limit, more, decode)
  {
    hide AnyReplaced, AnyTooLarge, AnyTail, SomeInvalid, Passed;
  }

  /** No stream has this name any more. */
  ghost predicate Gone(streams: seq<Stream>, name: string) {
    forall j | 0 <= j < |streams| :: streams[j].name != name
  }

  lemma NamesRetained(streams: seq<Stream>, known: set<string>)
    ensures !(known <= Names(streams)) <==>
      exists name | name in known :: Gone(streams, name)
  {
    forall name ensures name in Names(streams) <==> exists j | 0 <= j < |streams| :: streams[j].name == name {
      if j :| 0 <= j < |streams| && streams[j].name == name { assert streams[j] in streams; }
    }
    forall name | name in known ensures name !in Names(streams) <==> Gone(streams, name) {}
  }

  function IndexOf(streams: seq<Stream>, name: string): (k: nat)
    ensures k <= |streams| && (k < |streams| ==> streams[k].name == name)
    ensures forall j | 0 <= j < k :: streams[j].name != name
  {
    if streams == [] then 0
    else if streams[0].name == name then 0
    else
      assert forall j | 0 < j < |streams| :: streams[j] == streams[1..][j - 1];
      1 + IndexOf(streams[1..], name)
  }

  /** The cursor of a page at a stream is where the page stopped in it; other names keep theirs. */
  lemma {:induction false} AdvancedAt(streams: seq<Stream>, offsets: map<string, nat>, ends: seq<nat>, n: nat,
                                      name: string)
    requires n <= |streams| == |ends| && Named(streams)
    ensures var after := Advanced(streams, offsets, ends, n); var k := IndexOf(streams, name);
      if k < n && ends[k] > Start(streams[k], offsets) then name in after && after[name] == ends[k]
      else (name in after <==> name in offsets) && (name in offsets ==> after[name] == offsets[name])
  {
    hide Start;
    if n == 0 {
    } else {
      AdvancedAt(streams, offsets, ends, n - 1, name);
      var k := IndexOf(streams, name);
      assert streams[n - 1].name == name ==> k == n - 1 by {
        assert k < n - 1 ==> streams[k].name != streams[n - 1].name;
      }
    }
  }

  lemma SameIndex(streams: seq<Stream>, k: nat)
    requires Named(streams) && k < |streams|
    ensures IndexOf(streams, streams[k].name) == k
  {
    assert IndexOf(streams, streams[k].name) <= k;
  }

  /** The page reads the stream from the offset handed in, or from its front if there is none or the stream is shorter
      than that. */
  ghost predicate ReadsFrom(stream: Stream, before: map<string, int>, end: nat) {
    if stream.name in before && 0 <= before[stream.name] <= |stream.bytes|
    then Reads(stream.bytes, before[stream.name], end) else Reads(stream.bytes, 0, end)
  }

  ghost predicate SameAt(name: string, before: map<string, int>, after: map<string, nat>) {
    (name in after <==> name in before) && (name in before ==> after[name] == before[name])
  }

  /** The cursor handed out has the end of a stream in which the page moved on, and otherwise what was handed in. */
  ghost predicate HandsOn(stream: Stream, before: map<string, int>, end: nat, after: map<string, nat>) {
    var from := if stream.name in before && 0 <= before[stream.name] <= |stream.bytes| then before[stream.name] else 0;
    if end > from then stream.name in after && after[stream.name] == end else SameAt(stream.name, before, after)
  }

  /** Where a page read, and the cursor it hands out. */
  ghost predicate Resumes(streams: seq<Stream>, before: map<string, int>, ends: seq<nat>, after: map<string, nat>) {
    && |ends| == |streams|
    && (forall j | 0 <= j < |streams| :: ReadsFrom(streams[j], before, ends[j]))
    && (Named(streams) ==>
          && (forall j | 0 <= j < |streams| :: HandsOn(streams[j], before, ends[j], after))
          && (forall name | Gone(streams, name) :: SameAt(name, before, after)))
  }

  lemma StreamResumes(streams: seq<Stream>, before: map<string, int>, ends: seq<nat>, events: seq<Line>,
                      after: map<string, nat>, decode: Line -> Record, j: nat)
    requires forall k | k in before :: before[k] >= 0
    requires PageOf(streams, Offsets(before), ends, |streams|, events, after, decode) && j < |streams|
    ensures ReadsFrom(streams[j], before, ends[j])
    ensures Named(streams) ==> HandsOn(streams[j], before, ends[j], after)
  {
    hide Reads, Objects, Passed, Kept, Readable, Advanced;
    assert Visited(streams[j], Offsets(before), ends[j], Readable(streams, j));
    if Named(streams) {
      AdvancedAt(streams, Offsets(before), ends, |streams|, streams[j].name);
      SameIndex(streams, j);
    }
  }

  lemma GoneStays(streams: seq<Stream>, before: map<string, int>, ends: seq<nat>, events: seq<Line>,
                  after: map<string, nat>, decode: Line -> Record, name: string)
    requires forall k | k in before :: before[k] >= 0
    requires PageOf(streams, Offsets(before), ends, |streams|, events, after, decode) && Named(streams)
    requires Gone(streams, name)
    ensures SameAt(name, before, after)
  {
    hide Reads, Objects, Passed, Kept, Readable, Advanced, Start, Visited;
    AdvancedAt(streams, Offsets(before), ends, |streams|, name);
  }

  lemma PageResumes(streams: seq<Stream>, before: map<string, int>, ends: seq<nat>, events: seq<Line>,
                    after: map<string, nat>, decode: Line -> Record)
    requires forall k | k in before :: before[k] >= 0
    requires PageOf(streams, Offsets(before), ends, |streams|, events, after, decode)
    ensures Resumes(streams, before, ends, after)
  {
    EndsMatch(streams, Offsets(before), ends, |streams|, events, after, decode);
    hide PageOf, ReadsFrom, HandsOn, SameAt, Named, Gone;
    forall j | 0 <= j < |streams| ensures ReadsFrom(streams[j], before, ends[j]) {
      StreamResumes(streams, before, ends, events, after, decode, j);
    }
    if Named(streams) {
      forall j | 0 <= j < |streams| ensures HandsOn(streams[j], before, ends[j], after) {
        StreamResumes(streams, before, ends, events, after, decode, j);
      }
      forall name | Gone(streams, name) ensures SameAt(name, before, after) {
        GoneStays(streams, before, ends, events, after, decode, name);
      }
    }
  }

  /** Exactly the records of the match among some lines, in their order. */
  ghost predicate Picks(places: seq<nat>, lines: seq<Line>, decode: Line -> Record, records: seq<Line>) {
    && Listing(places) && |records| == |places|
    && (forall i: nat :: i in places <==> i < |lines| && decode(lines[i]) == Mine)
    && (forall k | 0 <= k < |places| :: places[k] < |lines| && records[k] == lines[places[k]])
  }

  lemma PicksNext(places: seq<nat>, lines: seq<Line>, line: Line, decode: Line -> Record, records: seq<Line>)
    requires Picks(places, lines, decode, records)
    ensures decode(line) == Mine ==> Picks(places + [|lines|], lines + [line], decode, records + [line])
    ensures decode(line) != Mine ==> Picks(places, lines + [line], decode, records)
  {
    var more := places + [|lines|];
    assert forall i: nat :: i in more <==> i in places || i == |lines|;
    assert forall k | 0 <= k < |places| :: places[k] in places;
  }

  lemma NothingPicked(decode: Line -> Record)
    ensures Picks([], [], decode, [])
  {}

  lemma {:induction false} KeptIsPicked(lines: seq<Line>, decode: Line -> Record)
    ensures exists places: seq<nat> :: Picks(places, lines, decode, Kept(lines, decode))
  {
    hide Picks;
    if lines == [] {
      NothingPicked(decode);
      assert Picks([], lines, decode, Kept(lines, decode));
    } else {
      var front, line := lines[..|lines| - 1], lines[|lines| - 1];
      KeptIsPicked(front, decode);
      var places: seq<nat> :| Picks(places, front, decode, Kept(front, decode));
      PicksNext(places, front, line, decode, Kept(front, decode));
      assert front + [line] == lines && Kept(front, decode) + [] == Kept(front, decode);
      if decode(line) == Mine {
        assert Picks(places + [|front|], lines, decode, Kept(lines, decode));
      } else {
        assert Picks(places, lines, decode, Kept(lines, decode));
      }
    }
  }

  lemma PageIsPicked(streams: seq<Stream>, offsets: map<string, nat>, ends: seq<nat>, events: seq<Line>,
                     cursor: map<string, nat>, decode: Line -> Record)
    requires PageOf(streams, offsets, ends, |streams|, events, cursor, decode)
    ensures |ends| == |streams|
    ensures exists places: seq<nat> :: Picks(places, Passed(streams, offsets, ends, |streams|), decode, events)
  {
    hide Picks, Passed, Kept;
    KeptIsPicked(Passed(streams, offsets, ends, |streams|), decode);
  }

  method ReadPage(streams: seq<Stream>, cursor: Option<map<string, int>>, limit: int, exhausted: bool,
                  decode: Line -> Record)
      returns (r: Result<Page, PageError>, ghost ends: seq<nat>)
    ensures r == Err(InvalidCursor) <==>
      cursor.None? || |cursor.value| > 256 || exists name | name in cursor.value :: cursor.value[name] < 0
    ensures r == Err(RecordNotAnObject) <==>
      ValidCursor(cursor) && PageFails(streams, Offsets(cursor.value), 0, limit, PAGE_BYTES, decode)
    ensures r == Err(RecordNotAnObject) ==>
      && MeetsNonObject(streams, Offsets(cursor.value), decode)
      && FallsOver(streams, Offsets(cursor.value), limit, decode)
    ensures r.Ok? ==> Resumes(streams, cursor.value, ends, r.value.cursor)
    ensures r.Ok? ==>
      var passed := Passed(streams, Offsets(cursor.value), ends, |streams|);
      exists places: seq<nat> :: Picks(places, passed, decode, r.value.events)
    ensures r.Ok? ==> PageOf(streams, Offsets(cursor.value), ends, |streams|, r.value.events, r.value.cursor, decode)
    ensures r.Ok? ==> |r.value.events| <= if limit > 0 then limit else 0
    ensures r.Ok? && r.value.hasMore ==> SomeProgress(streams, Offsets(cursor.value), ends)
    ensures r.Ok? && !r.value.hasMore && limit >= 1 ==> AllDrained(streams, ends)
    ensures r.Ok? && limit >= 1 ==> Staged(streams, Offsets(cursor.value), ends)
    ensures r.Ok? ==>
      Complies(streams, Offsets(cursor.value), ends, limit, r.value.gaps, r.value.hasMore, decode)
    ensures r.Ok? ==>
      && (NoLongerRetained in r.value.gaps <==>
            exists name | name in cursor.value :: Gone(streams, name))
      && (StreamLimit in r.value.gaps <==> |streams| > 256)
      && (CapacityExhausted in r.value.gaps <==> exhausted)
  {
    hide PageOf, SomeProgress, AllDrained, Staged, MeetsNonObject, PageFails, Names, Gone, StopsInTime, Reports;
    hide LeftOver;
    hide FallsOver, Resumes, Picks, Passed;
    ends := [];
    if !ValidCursor(cursor) { return Err(InvalidCursor), ends; }
    var offsets := Offsets(cursor.value);
    var scan, missed, failed;
    scan, missed, failed, ends := ScanStreams(streams, offsets, limit, decode);
    if failed { return Err(RecordNotAnObject), ends; }
    var gaps := ListGaps(offsets.Keys, streams, missed, exhausted);
    ReportsAlike(streams, offsets, ends, |streams|, limit, missed, gaps, decode);
    NamesRetained(streams, offsets.Keys);
    assert forall name :: name in offsets.Keys <==> name in cursor.value;
    PageResumes(streams, cursor.value, ends, scan.events, scan.now, decode);
    PageIsPicked(streams, offsets, ends, scan.events, scan.now, decode);
    r := Ok(Page(scan.events, scan.now, scan.more && scan.advanced, gaps));
  }
}
