/** Chains of pages over streams that only grow: each whole line is delivered once and in order. */
module ActivityRuns {
  import opened ActivityPages
  import opened Bytes

  /** The directory one page saw, and how far it read in each stream. */
  datatype Visit = Visit(streams: seq<Stream>, ends: seq<nat>)

  /** The cursor after the first `n` visits, each starting from the cursor of the one before. */
  ghost function Cursor(visits: seq<Visit>, n: nat): map<string, nat>
    requires n <= |visits|
  {
    if n == 0 || |visits[n - 1].ends| != |visits[n - 1].streams| then map[]
    else Advanced(visits[n - 1].streams, Cursor(visits, n - 1), visits[n - 1].ends, |visits[n - 1].streams|)
  }

  ghost predicate Reading(streams: seq<Stream>, offsets: map<string, nat>, ends: seq<nat>) {
    |ends| == |streams| && Named(streams)
    && forall j | 0 <= j < |streams| :: Visited(streams[j], offsets, ends[j], Readable(streams, j))
  }

  /** Every page is one such reading, and hands out the cursor of the next. */
  lemma PageIsReading(streams: seq<Stream>, offsets: map<string, nat>, ends: seq<nat>, events: seq<Line>,
                      cursor: map<string, nat>, decode: Line -> Record)
    requires PageOf(streams, offsets, ends, |streams|, events, cursor, decode) && Named(streams)
    ensures Reading(streams, offsets, ends) && cursor == Advanced(streams, offsets, ends, |streams|)
  {}

  ghost predicate Appended(stream: Stream, after: seq<Stream>) {
    var k := IndexOf(after, stream.name);
    k < |after| && stream.bytes <= after[k].bytes
  }

  /** Streams stay and are only appended to; new ones may appear. */
  ghost predicate Grown(before: seq<Stream>, after: seq<Stream>) {
    forall j | 0 <= j < |before| :: Appended(before[j], after)
  }

  ghost predicate Step(visits: seq<Visit>, n: nat)
    requires n < |visits|
  {
    && Reading(visits[n].streams, Cursor(visits, n), visits[n].ends)
    && (n > 0 ==> Grown(visits[n - 1].streams, visits[n].streams))
  }

  ghost predicate Run(visits: seq<Visit>) {
    forall n | 0 <= n < |visits| :: Step(visits, n)
  }

  /** The lines of one stream that one visit passed. */
  ghost function Delivery(visit: Visit, offsets: map<string, nat>, name: string): seq<Line>
  {
    var k := IndexOf(visit.streams, name);
    if k == |visit.streams| || k >= |visit.ends| then []
    else Lines(visit.streams[k].bytes, Start(visit.streams[k], offsets), visit.ends[k])
  }

  ghost function Delivered(visits: seq<Visit>, n: nat, name: string): seq<Line>
    requires n <= |visits|
  {
    if n == 0 then []
    else Delivered(visits, n - 1, name) + Delivery(visits[n - 1], Cursor(visits, n - 1), name)
  }

  /** What is known of a stream between pages: its cursor sits behind exactly the lines delivered. */
  ghost predicate Settled(stream: Stream, offsets: map<string, nat>, delivered: seq<Line>) {
    && Reads(stream.bytes, 0, Start(stream, offsets))
    && delivered == Lines(stream.bytes, 0, Start(stream, offsets))
    && (stream.name in offsets ==> offsets[stream.name] == Start(stream, offsets))
  }

  lemma SettledGrows(stream: Stream, more: Stream, offsets: map<string, nat>, delivered: seq<Line>)
    requires Settled(stream, offsets, delivered) && stream.name == more.name && stream.bytes <= more.bytes
    ensures Settled(more, offsets, delivered)
  {
    ReadsGrow(stream.bytes, more.bytes, 0, Start(stream, offsets));
  }

  lemma SettledReads(stream: Stream, offsets: map<string, nat>, delivered: seq<Line>, end: nat,
                     after: map<string, nat>, readable: bool)
    requires Settled(stream, offsets, delivered) && Visited(stream, offsets, end, readable)
    requires if end > Start(stream, offsets) then stream.name in after && after[stream.name] == end
             else (stream.name in after <==> stream.name in offsets)
                  && (stream.name in offsets ==> after[stream.name] == offsets[stream.name])
    ensures Settled(stream, after, delivered + Lines(stream.bytes, Start(stream, offsets), end))
    ensures Start(stream, after) == end
  {
    var start := Start(stream, offsets);
    ReadsInRange(stream.bytes, start, end);
    ReadsChain(stream.bytes, 0, start, end);
    assert end == start ==> Start(stream, after) == start;
  }

  lemma ReadingShape(streams: seq<Stream>, offsets: map<string, nat>, ends: seq<nat>)
    requires Reading(streams, offsets, ends)
    ensures |ends| == |streams| && Named(streams)
  {}

  lemma NotBefore(before: seq<Stream>, after: seq<Stream>, name: string)
    requires Grown(before, after) && IndexOf(after, name) == |after|
    ensures IndexOf(before, name) == |before|
  {
    assert forall k | 0 <= k < |before| :: Appended(before[k], after);
  }

  lemma {:induction false} Unseen(visits: seq<Visit>, n: nat, name: string)
    requires Run(visits) && n <= |visits|
    requires n > 0 ==> IndexOf(visits[n - 1].streams, name) == |visits[n - 1].streams|
    ensures name !in Cursor(visits, n) && Delivered(visits, n, name) == []
  {
    hide Advanced, Start, Lines, Reading, Grown;
    if n == 0 {
    } else {
      var streams, ends, offsets := visits[n - 1].streams, visits[n - 1].ends, Cursor(visits, n - 1);
      assert Step(visits, n - 1);
      ReadingShape(streams, offsets, ends);
      if n > 1 { NotBefore(visits[n - 2].streams, streams, name); }
      Unseen(visits, n - 1, name);
      AdvancedAt(streams, offsets, ends, |streams|, name);
    }
  }

  lemma StepOf(visits: seq<Visit>, n: nat)
    requires Run(visits) && n < |visits|
    ensures Reading(visits[n].streams, Cursor(visits, n), visits[n].ends)
    ensures |visits[n].ends| == |visits[n].streams| && Named(visits[n].streams)
    ensures n > 0 ==> Grown(visits[n - 1].streams, visits[n].streams)
  {
    assert Step(visits, n);
  }

  lemma NewlySettled(stream: Stream, offsets: map<string, nat>)
    requires stream.name !in offsets
    ensures Settled(stream, offsets, [])
  {}

  lemma GrownAt(before: seq<Stream>, after: seq<Stream>, j: nat, k: nat)
    requires Grown(before, after) && Named(after) && j < |before| && k < |after| && before[j].name == after[k].name
    ensures before[j].bytes <= after[k].bytes
  {
    assert Appended(before[j], after);
    SameIndex(after, k);
  }

  lemma VisitedAt(streams: seq<Stream>, offsets: map<string, nat>, ends: seq<nat>, k: nat)
    requires Reading(streams, offsets, ends) && k < |streams|
    ensures Visited(streams[k], offsets, ends[k], Readable(streams, k))
  {}

  lemma {:induction false} SettledAfter(visits: seq<Visit>, n: nat, k: nat)
    requires Run(visits) && n < |visits| && k < |visits[n].streams|
    ensures k < |visits[n].ends|
    ensures var stream := visits[n].streams[k];
      Settled(stream, Cursor(visits, n + 1), Delivered(visits, n + 1, stream.name))
      && Start(stream, Cursor(visits, n + 1)) == visits[n].ends[k]
    decreases n, 1
  {
    hide Run, Settled, Start, Advanced, Lines, Visited, Grown, Reading;
    var streams, ends, offsets := visits[n].streams, visits[n].ends, Cursor(visits, n);
    SettledBefore(visits, n, k);
    StepOf(visits, n);
    AdvancedAt(streams, offsets, ends, |streams|, streams[k].name);
    SameIndex(streams, k);
    VisitedAt(streams, offsets, ends, k);
    SettledReads(streams[k], offsets, Delivered(visits, n, streams[k].name), ends[k], Cursor(visits, n + 1),
                 Readable(streams, k));
  }

  /** The state of a stream when the visit `n` begins. */
  lemma {:induction false} SettledBefore(visits: seq<Visit>, n: nat, k: nat)
    requires Run(visits) && n < |visits| && k < |visits[n].streams|
    ensures var stream := visits[n].streams[k]; Settled(stream, Cursor(visits, n), Delivered(visits, n, stream.name))
    decreases n, 0
  {
    hide Run, Advanced, Lines, Reads, Reading, Grown, Appended;
    var streams := visits[n].streams;
    var stream := streams[k];
    StepOf(visits, n);
    if n == 0 {
      NewlySettled(stream, Cursor(visits, n));
    } else {
      var before := visits[n - 1].streams;
      var j := IndexOf(before, stream.name);
      if j == |before| {
        Unseen(visits, n, stream.name);
        NewlySettled(stream, Cursor(visits, n));
      } else {
        SettledAfter(visits, n - 1, j);
        GrownAt(before, streams, j, k);
        SettledGrows(before[j], stream, Cursor(visits, n), Delivered(visits, n, stream.name));
      }
    }
  }

  /** Exactly once: after any run the lines delivered of a stream are its lines from the front to the
      cursor, which sits on a line boundary. */
  lemma DeliveredExactlyOnce(visits: seq<Visit>, k: nat)
    requires Run(visits) && visits != [] && k < |visits[|visits| - 1].streams|
    ensures k < |visits[|visits| - 1].ends|
    ensures var stream, end := visits[|visits| - 1].streams[k], visits[|visits| - 1].ends[k];
      && Reads(stream.bytes, 0, end) && Delivered(visits, |visits|, stream.name) == Lines(stream.bytes, 0, end)
      && end <= |stream.bytes| && (end > 0 ==> stream.bytes[end - 1] == NEWLINE)
  {
    SettledAfter(visits, |visits| - 1, k);
    var stream, end := visits[|visits| - 1].streams[k], visits[|visits| - 1].ends[k];
    ReadsEndOnBoundary(stream.bytes, 0, end);
  }

  /** The records of the match that the pages delivered from one stream, page after page. */
  ghost function Records(visits: seq<Visit>, n: nat, name: string, decode: Line -> Record): seq<Line>
    requires n <= |visits|
  {
    if n == 0 then []
    else Records(visits, n - 1, name, decode) + Kept(Delivery(visits[n - 1], Cursor(visits, n - 1), name), decode)
  }

  lemma {:induction false} RecordsAreKept(visits: seq<Visit>, n: nat, name: string, decode: Line -> Record)
    requires n <= |visits|
    ensures Records(visits, n, name, decode) == Kept(Delivered(visits, n, name), decode)
  {
    hide Delivery, Cursor;
    if n == 0 {
    } else {
      RecordsAreKept(visits, n - 1, name, decode);
      KeptConcat(Delivered(visits, n - 1, name), Delivery(visits[n - 1], Cursor(visits, n - 1), name), decode);
    }
  }

  /** So the events of a growing stream over any run of pages are its records up to the cursor. */
  lemma RecordsExactlyOnce(visits: seq<Visit>, k: nat, decode: Line -> Record)
    requires Run(visits) && visits != [] && k < |visits[|visits| - 1].streams|
    ensures k < |visits[|visits| - 1].ends|
    ensures var stream, end := visits[|visits| - 1].streams[k], visits[|visits| - 1].ends[k];
      Records(visits, |visits|, stream.name, decode) == Kept(Lines(stream.bytes, 0, end), decode)
  {
    hide Run, Lines, Kept, Delivered, Reads;
    DeliveredExactlyOnce(visits, k);
    RecordsAreKept(visits, |visits|, visits[|visits| - 1].streams[k].name, decode);
  }

  // ----- Draining ----------------------------------------------------------------------------

  /** How many bytes lie behind the cursor. */
  ghost function Remaining(streams: seq<Stream>, offsets: map<string, nat>, n: nat): nat
    requires n <= |streams|
  {
    if n == 0 then 0
    else Remaining(streams, offsets, n - 1) + (|streams[n - 1].bytes| - Start(streams[n - 1], offsets))
  }

  /** A page never moves a cursor back, and moves one ahead where it makes progress. */
  lemma PageMovesOn(streams: seq<Stream>, offsets: map<string, nat>, ends: seq<nat>, j: nat)
    requires Reading(streams, offsets, ends) && j < |streams|
    ensures Start(streams[j], offsets) <= ends[j] == Start(streams[j], Advanced(streams, offsets, ends, |streams|))
  {
    assert Visited(streams[j], offsets, ends[j], Readable(streams, j));
    ReadsInRange(streams[j].bytes, Start(streams[j], offsets), ends[j]);
    SameIndex(streams, j);
    AdvancedAt(streams, offsets, ends, |streams|, streams[j].name);
  }

  lemma {:induction false} RemainingShrinks(streams: seq<Stream>, offsets: map<string, nat>, ends: seq<nat>, n: nat)
    requires Reading(streams, offsets, ends) && n <= |streams|
    ensures var after := Advanced(streams, offsets, ends, |streams|);
      Remaining(streams, after, n) <= Remaining(streams, offsets, n)
      && ((exists j | 0 <= j < n :: Progress(streams, offsets, ends, j)) ==>
            Remaining(streams, after, n) < Remaining(streams, offsets, n))
  {
    if n == 0 {
    } else {
      RemainingShrinks(streams, offsets, ends, n - 1);
      PageMovesOn(streams, offsets, ends, n - 1);
    }
  }

  /** A page that reports more has brought the end of the directory nearer, so reading on ends. */
  lemma MoreMeansNearer(streams: seq<Stream>, offsets: map<string, nat>, ends: seq<nat>)
    requires Reading(streams, offsets, ends) && SomeProgress(streams, offsets, ends)
    ensures Remaining(streams, Advanced(streams, offsets, ends, |streams|), |streams|)
              < Remaining(streams, offsets, |streams|)
  {
    RemainingShrinks(streams, offsets, ends, |streams|);
  }

  /** A page that reports no more leaves each readable stream at its last whole line, or before one that
      is too long. */
  lemma NoMoreMeansDrained(streams: seq<Stream>, offsets: map<string, nat>, ends: seq<nat>, j: nat)
    requires Reading(streams, offsets, ends) && AllDrained(streams, ends) && j < |streams| && Readable(streams, j)
    ensures var at := Start(streams[j], Advanced(streams, offsets, ends, |streams|));
      Reads(streams[j].bytes, Start(streams[j], offsets), at) && !Complete(streams[j].bytes, at)
  {
    hide Complete, Reads, Start, Advanced;
    assert Drained(streams, ends, j) && Visited(streams[j], offsets, ends[j], Readable(streams, j));
    PageMovesOn(streams, offsets, ends, j);
    ReadsInRange(streams[j].bytes, Start(streams[j], offsets), ends[j]);
  }
}
