/** Reading a directory to its end page by page, as the export of a seat's activity does. */
module ActivityExport {
  import opened ActivityPages
  import opened ActivityRuns
  import opened Bytes
  import opened Wrappers

  // ----- Names in a cursor -------------------------------------------------------------------

  ghost function Moved(streams: seq<Stream>, offsets: map<string, nat>, ends: seq<nat>, n: nat): set<string>
    requires n <= |streams| == |ends|
  {
    set j | 0 <= j < n && Progress(streams, offsets, ends, j) :: streams[j].name
  }

  ghost predicate HasLine(streams: seq<Stream>, offsets: map<string, nat>, j: nat)
    requires j < |streams|
  {
    Readable(streams, j) && Complete(streams[j].bytes, Start(streams[j], offsets))
  }

  /** The names of the readable streams that have a whole line to deliver. */
  ghost function Behind(streams: seq<Stream>, offsets: map<string, nat>): set<string> {
    set j | 0 <= j < |streams| && HasLine(streams, offsets, j) :: streams[j].name
  }

  lemma {:induction false} CursorNames(streams: seq<Stream>, offsets: map<string, nat>, ends: seq<nat>, n: nat)
    requires n <= |streams| == |ends|
    ensures Advanced(streams, offsets, ends, n).Keys == offsets.Keys + Moved(streams, offsets, ends, n)
  {
    if n == 0 {
    } else {
      CursorNames(streams, offsets, ends, n - 1);
      assert Moved(streams, offsets, ends, n) == Moved(streams, offsets, ends, n - 1)
        + if Progress(streams, offsets, ends, n - 1) then {streams[n - 1].name} else {};
    }
  }

  lemma MovesOnLines(bytes: seq<Byte>, a: nat, b: nat)
    requires a <= |bytes| && Reads(bytes, a, b)
    ensures a == b || Complete(bytes, a)
  {}

  /** Only streams with a whole line to deliver move, and all of them have moved once the directory is drained. */
  lemma MovedIsBehind(streams: seq<Stream>, offsets: map<string, nat>, ends: seq<nat>)
    requires Reading(streams, offsets, ends)
    ensures Moved(streams, offsets, ends, |streams|) <= Behind(streams, offsets)
    ensures AllDrained(streams, ends) ==> Moved(streams, offsets, ends, |streams|) == Behind(streams, offsets)
  {
    hide Complete, Start, Reads;
    forall j | 0 <= j < |streams|
      ensures Progress(streams, offsets, ends, j) ==> HasLine(streams, offsets, j)
      ensures HasLine(streams, offsets, j) && Drained(streams, ends, j) ==> Progress(streams, offsets, ends, j)
    {
      VisitedAt(streams, offsets, ends, j);
      var bytes, start := streams[j].bytes, Start(streams[j], offsets);
      ReadsInRange(bytes, start, ends[j]);
      MovesOnLines(bytes, start, ends[j]);
    }
  }

  lemma {:induction false} FewNames(streams: seq<Stream>, offsets: map<string, nat>, n: nat)
    requires n <= |streams|
    ensures var names := set j | 0 <= j < n && HasLine(streams, offsets, j) :: streams[j].name;
      |names| <= if n <= MOST_STREAMS then n else MOST_STREAMS
  {
    hide Complete;
    var names := set j | 0 <= j < n && HasLine(streams, offsets, j) :: streams[j].name;
    if n == 0 {
      assert names == {};
    } else {
      FewNames(streams, offsets, n - 1);
      var fewer := set j | 0 <= j < n - 1 && HasLine(streams, offsets, j) :: streams[j].name;
      assert names == if HasLine(streams, offsets, n - 1) then fewer + {streams[n - 1].name} else fewer;
    }
  }

  lemma SubsetSize(a: set<string>, b: set<string>)
    requires a <= b
    ensures |a| <= |b|
  {
    assert b == a + (b - a);
  }

  // ----- Two pages make one ------------------------------------------------------------------

  /** Any reading is the first part of one that ends before no whole line. */
  lemma {:induction false} ReadsRest(bytes: seq<Byte>, a: nat, b: nat, c: nat)
    requires a <= |bytes| && c <= |bytes| && Reads(bytes, a, b) && Reads(bytes, a, c) && !Complete(bytes, c)
    ensures b <= |bytes| && Reads(bytes, b, c)
    decreases |bytes| - a
  {
    hide Complete, LineEnd;
    if a == b {
    } else {
      CompleteAdvances(bytes, a);
      ReadsRest(bytes, LineEnd(bytes, a), b, c);
    }
  }

  /** One stream over two pages. */
  lemma StreamTogether(streams: seq<Stream>, offsets: map<string, nat>, ends: seq<nat>, now: map<string, nat>,
                       later: seq<nat>, j: nat)
    requires Reading(streams, offsets, ends) && now == Advanced(streams, offsets, ends, |streams|)
    requires Reading(streams, now, later) && j < |streams|
    ensures ends[j] == Start(streams[j], now) <= |streams[j].bytes|
    ensures Visited(streams[j], offsets, later[j], Readable(streams, j))
    ensures var bytes, start := streams[j].bytes, Start(streams[j], offsets);
      Lines(bytes, start, later[j]) == Lines(bytes, start, ends[j]) + Lines(bytes, ends[j], later[j])
    ensures Drained(streams, ends, j) ==> later[j] == ends[j]
    ensures Start(streams[j], offsets) <= ends[j] <= later[j]
  {
    hide Complete, Start, Advanced, Lines, Reading;
    ReadingShape(streams, offsets, ends);
    ReadingShape(streams, now, later);
    VisitedAt(streams, offsets, ends, j);
    VisitedAt(streams, now, later, j);
    PageMovesOn(streams, offsets, ends, j);
    PageMovesOn(streams, now, later, j);
    ReadsChain(streams[j].bytes, Start(streams[j], offsets), ends[j], later[j]);
    MovesOnLines(streams[j].bytes, ends[j], later[j]);
  }

  lemma Exchange(a: seq<Line>, b: seq<Line>, c: seq<Line>, d: seq<Line>)
    requires b == [] || c == []
    ensures (a + b) + (c + d) == (a + c) + (b + d)
  {}

  lemma LinesTogether(streams: seq<Stream>, offsets: map<string, nat>, ends: seq<nat>, now: map<string, nat>,
                      later: seq<nat>, j: nat, k: nat)
    requires Reading(streams, offsets, ends) && now == Advanced(streams, offsets, ends, |streams|)
    requires Reading(streams, now, later) && |ends| == |later| == |streams|
    requires StagedAt(streams, offsets, ends, k) && j < |streams|
    ensures ends[j] == Start(streams[j], now) <= |streams[j].bytes|
    ensures var bytes, start := streams[j].bytes, Start(streams[j], offsets);
      && Lines(bytes, start, later[j]) == Lines(bytes, start, ends[j]) + Lines(bytes, ends[j], later[j])
      && (j < k ==> Lines(bytes, ends[j], later[j]) == [])
      && (j > k ==> Lines(bytes, start, ends[j]) == [])
  {
    hide Reading, Advanced, Visited, Drained, Start, Complete;
    StreamTogether(streams, offsets, ends, now, later, j);
  }

  lemma {:induction false} PassedTogether(streams: seq<Stream>, offsets: map<string, nat>, ends: seq<nat>,
                                          now: map<string, nat>, later: seq<nat>, n: nat, k: nat)
    requires Reading(streams, offsets, ends) && now == Advanced(streams, offsets, ends, |streams|)
    requires Reading(streams, now, later) && |ends| == |later| == |streams|
    requires StagedAt(streams, offsets, ends, k) && n <= |streams|
    ensures Passed(streams, offsets, later, n) == Passed(streams, offsets, ends, n) + Passed(streams, now, later, n)
    ensures n <= k ==> Passed(streams, now, later, n) == []
  {
    hide Reading, Advanced, Lines, Start, StagedAt;
    if n == 0 {
    } else {
      PassedTogether(streams, offsets, ends, now, later, n - 1, k);
      LinesTogether(streams, offsets, ends, now, later, n - 1, k);
      var bytes, start := streams[n - 1].bytes, Start(streams[n - 1], offsets);
      Exchange(Passed(streams, offsets, ends, n - 1), Passed(streams, now, later, n - 1),
               Lines(bytes, start, ends[n - 1]), Lines(bytes, ends[n - 1], later[n - 1]));
    }
  }

  lemma ReadingOf(streams: seq<Stream>, offsets: map<string, nat>, ends: seq<nat>)
    requires Named(streams) && |ends| == |streams|
    requires forall j | 0 <= j < |streams| :: Visited(streams[j], offsets, ends[j], Readable(streams, j))
    ensures Reading(streams, offsets, ends)
  {}

  /** The cursor of the second page is that of one page which reads as far as both. */
  lemma AdvancedTogether(streams: seq<Stream>, offsets: map<string, nat>, ends: seq<nat>, now: map<string, nat>,
                         later: seq<nat>)
    requires Reading(streams, offsets, ends) && now == Advanced(streams, offsets, ends, |streams|)
    requires Reading(streams, now, later)
    ensures Reading(streams, offsets, later)
    ensures Advanced(streams, now, later, |streams|) == Advanced(streams, offsets, later, |streams|)
  {
    hide Visited, Drained, Advanced, Start, Reading;
    ReadingShape(streams, offsets, ends);
    ReadingShape(streams, now, later);
    forall j | 0 <= j < |streams| ensures Visited(streams[j], offsets, later[j], Readable(streams, j)) {
      StreamTogether(streams, offsets, ends, now, later, j);
    }
    ReadingOf(streams, offsets, later);
    var n := |streams|;
    forall name
      ensures name in Advanced(streams, now, later, n) <==> name in Advanced(streams, offsets, later, n)
      ensures name in Advanced(streams, now, later, n) ==>
        Advanced(streams, now, later, n)[name] == Advanced(streams, offsets, later, n)[name]
    {
      AdvancedAt(streams, offsets, ends, n, name);
      AdvancedAt(streams, now, later, n, name);
      AdvancedAt(streams, offsets, later, n, name);
      var k := IndexOf(streams, name);
      if k < n { StreamTogether(streams, offsets, ends, now, later, k); }
    }
  }

  lemma ReadingVisits(streams: seq<Stream>, offsets: map<string, nat>, ends: seq<nat>)
    requires Reading(streams, offsets, ends)
    ensures |ends| == |streams|
    ensures forall j | 0 <= j < |streams| :: Visited(streams[j], offsets, ends[j], Readable(streams, j))
  {}

  lemma ObjectsTogether(a: seq<Line>, b: seq<Line>, decode: Line -> Record)
    ensures Objects(a + b, decode) <==> Objects(a, decode) && Objects(b, decode)
  {
    assert forall i | 0 <= i < |a| :: a[i] == (a + b)[i];
    assert forall i | 0 <= i < |b| :: b[i] == (a + b)[|a| + i];
  }

  lemma StillDrained(streams: seq<Stream>, ends: seq<nat>, later: seq<nat>, j: nat)
    requires j < |streams| && |ends| == |later| == |streams|
    ensures Drained(streams, ends, j) && later[j] == ends[j] ==> Drained(streams, later, j)
  {}

  lemma StagedTogether(streams: seq<Stream>, offsets: map<string, nat>, ends: seq<nat>, k: nat,
                       now: map<string, nat>, later: seq<nat>, m: nat)
    requires Reading(streams, offsets, ends) && now == Advanced(streams, offsets, ends, |streams|)
    requires Reading(streams, now, later) && |ends| == |later| == |streams|
    requires k <= |streams| && m <= |streams| && StagedAt(streams, offsets, ends, k) && StagedAt(streams, now, later, m)
    ensures Staged(streams, offsets, later)
  {
    hide Reading, Advanced, Visited, Complete, Start, Lines, Drained;
    forall j | 0 <= j < |streams|
      ensures j < k || j < m ==> Drained(streams, later, j)
      ensures j > k && j > m ==> later[j] == Start(streams[j], offsets)
    {
      StreamTogether(streams, offsets, ends, now, later, j);
      StillDrained(streams, ends, later, j);
    }
    assert StagedAt(streams, offsets, later, if k < m then m else k);
  }

  /** Two consecutive pages of a directory deliver what one page without limits would have. */
  lemma PagesCompose(streams: seq<Stream>, offsets: map<string, nat>, ends: seq<nat>, events: seq<Line>,
                     now: map<string, nat>, later: seq<nat>, more: seq<Line>, next: map<string, nat>,
                     decode: Line -> Record)
    requires Named(streams) && PageOf(streams, offsets, ends, |streams|, events, now, decode)
    requires Staged(streams, offsets, ends) && PageOf(streams, now, later, |streams|, more, next, decode)
    ensures PageOf(streams, offsets, later, |streams|, events + more, next, decode)
    ensures Staged(streams, now, later) ==> Staged(streams, offsets, later)
  {
    hide Advanced, Passed, Reading, Objects, StagedAt, Kept, Visited;
    PageIsReading(streams, offsets, ends, events, now, decode);
    PageIsReading(streams, now, later, more, next, decode);
    var k :| 0 <= k <= |streams| && StagedAt(streams, offsets, ends, k);
    PassedTogether(streams, offsets, ends, now, later, |streams|, k);
    AdvancedTogether(streams, offsets, ends, now, later);
    var first, second := Passed(streams, offsets, ends, |streams|), Passed(streams, now, later, |streams|);
    KeptConcat(first, second, decode);
    ObjectsTogether(first, second, decode);
    ReadingVisits(streams, offsets, later);
    if Staged(streams, now, later) {
      var m :| 0 <= m <= |streams| && StagedAt(streams, now, later, m);
      StagedTogether(streams, offsets, ends, k, now, later, m);
    }
  }

  // ----- Values that are not objects ---------------------------------------------------------

  lemma {:induction false} PassedAt(streams: seq<Stream>, offsets: map<string, nat>, ends: seq<nat>, n: nat, j: nat,
                                    decode: Line -> Record)
    requires j < n <= |streams| && n <= |ends| && Objects(Passed(streams, offsets, ends, n), decode)
    ensures Objects(Lines(streams[j].bytes, Start(streams[j], offsets), ends[j]), decode)
  {
    hide Objects, Lines, Start;
    ObjectsTogether(Passed(streams, offsets, ends, n - 1),
                    Lines(streams[n - 1].bytes, Start(streams[n - 1], offsets), ends[n - 1]), decode);
    if j == n - 1 {
    } else {
      PassedAt(streams, offsets, ends, n - 1, j, decode);
    }
  }

  lemma PassedObjects(streams: seq<Stream>, offsets: map<string, nat>, ends: seq<nat>, events: seq<Line>,
                      now: map<string, nat>, decode: Line -> Record, j: nat)
    requires PageOf(streams, offsets, ends, |streams|, events, now, decode) && j < |streams|
    ensures |ends| == |streams| && Objects(Lines(streams[j].bytes, Start(streams[j], offsets), ends[j]), decode)
  {
    hide Objects, Lines, Start, Visited;
    PassedAt(streams, offsets, ends, |streams|, j, decode);
  }

  lemma NoFailureBefore(streams: seq<Stream>, offsets: map<string, nat>, ends: seq<nat>, j: nat, end: nat,
                        decode: Line -> Record)
    requires Reading(streams, offsets, ends) && AllDrained(streams, ends) && j < |streams| && Readable(streams, j)
    requires |ends| == |streams| && Objects(Lines(streams[j].bytes, Start(streams[j], offsets), ends[j]), decode)
    ensures !FailsBy(streams[j], offsets, end, decode)
  {
    hide Complete, Reads, Lines, Objects, Start;
    VisitedAt(streams, offsets, ends, j);
    assert Drained(streams, ends, j);
    var bytes, start := streams[j].bytes, Start(streams[j], offsets);
    ReadsInRange(bytes, start, ends[j]);
    if Reads(bytes, start, end) {
      ReadsRest(bytes, start, end, ends[j]);
      ReadsChain(bytes, start, end, ends[j]);
      ObjectsTogether(Lines(bytes, start, end), Lines(bytes, end, ends[j]), decode);
    }
  }

  /** A drained directory held no such value behind its cursor. */
  lemma DrainedMeetsNone(streams: seq<Stream>, offsets: map<string, nat>, ends: seq<nat>, events: seq<Line>,
                         now: map<string, nat>, decode: Line -> Record)
    requires Named(streams) && PageOf(streams, offsets, ends, |streams|, events, now, decode)
    requires AllDrained(streams, ends)
    ensures !MeetsNonObject(streams, offsets, decode)
  {
    hide Complete, Reads, Lines, Objects, Start, Reading, PageOf, Drained;
    PageIsReading(streams, offsets, ends, events, now, decode);
    ReadingShape(streams, offsets, ends);
    forall j, end: nat | 0 <= j < |streams| && Readable(streams, j) ensures !FailsBy(streams[j], offsets, end, decode) {
      if FailsBy(streams[j], offsets, end, decode) {
        PassedObjects(streams, offsets, ends, events, now, decode, j);
        NoFailureBefore(streams, offsets, ends, j, end, decode);
      }
    }
  }

  /** A later page meets what reading on from the start would have met. */
  lemma MeetsEarlier(streams: seq<Stream>, offsets: map<string, nat>, ends: seq<nat>, now: map<string, nat>,
                     decode: Line -> Record)
    requires Reading(streams, offsets, ends) && now == Advanced(streams, offsets, ends, |streams|)
    requires MeetsNonObject(streams, now, decode)
    ensures MeetsNonObject(streams, offsets, decode)
  {
    hide Complete, Reads, Lines, Objects, Start, Advanced, Reading;
    ReadingShape(streams, offsets, ends);
    var j, end: nat :| 0 <= j < |streams| && Readable(streams, j) && FailsBy(streams[j], now, end, decode);
    PageMovesOn(streams, offsets, ends, j);
    VisitedAt(streams, offsets, ends, j);
    var bytes, start := streams[j].bytes, Start(streams[j], offsets);
    ReadsChain(bytes, start, ends[j], end);
    ObjectsTogether(Lines(bytes, start, ends[j]), Lines(bytes, ends[j], end), decode);
    assert FailsBy(streams[j], offsets, end, decode);
  }

  // ----- The export --------------------------------------------------------------------------

  lemma OffsetsSame(cursor: map<string, nat>)
    ensures Offsets(cursor) == cursor
  {}

  lemma ExportStarts(streams: seq<Stream>, cursor: map<string, nat>, decode: Line -> Record) returns (ends: seq<nat>)
    ensures PageOf(streams, cursor, ends, |streams|, [], cursor, decode) && Staged(streams, cursor, ends)
  {
    hide PageOf, Start;
    NothingRead(streams, cursor, decode);
    ends := RestLeftAlone(streams, cursor, [], 0, [], cursor, decode);
    StagedAtEnd(streams, cursor, [], ends);
  }

  /** One page of the export: what the loop needs to know about it. */
  lemma ExportStep(streams: seq<Stream>, cursor: map<string, nat>, ends: seq<nat>, events: seq<Line>,
                   now: map<string, nat>, later: seq<nat>, more: seq<Line>, next: map<string, nat>,
                   decode: Line -> Record)
    requires Named(streams) && PageOf(streams, cursor, ends, |streams|, events, now, decode)
    requires Staged(streams, cursor, ends) && PageOf(streams, now, later, |streams|, more, next, decode)
    requires Staged(streams, now, later)
    ensures PageOf(streams, cursor, later, |streams|, events + more, next, decode) && Staged(streams, cursor, later)
    ensures SomeProgress(streams, now, later) ==>
      Remaining(streams, next, |streams|) < Remaining(streams, now, |streams|)
  {
    hide PageOf, Staged, Reading, SomeProgress, Advanced;
    PagesCompose(streams, cursor, ends, events, now, later, more, next, decode);
    PageIsReading(streams, now, later, more, next, decode);
    if SomeProgress(streams, now, later) { MoreMeansNearer(streams, now, later); }
  }

  lemma NamesSoFar(streams: seq<Stream>, cursor: map<string, nat>, ends: seq<nat>, events: seq<Line>,
                   now: map<string, nat>, decode: Line -> Record)
    requires Named(streams) && PageOf(streams, cursor, ends, |streams|, events, now, decode)
    ensures |now| <= |cursor.Keys + Behind(streams, cursor)|
    ensures AllDrained(streams, ends) ==> now.Keys == cursor.Keys + Behind(streams, cursor)
  {
    hide PageOf, Reading, AllDrained, Advanced, Behind, Moved;
    PageIsReading(streams, cursor, ends, events, now, decode);
    ReadingShape(streams, cursor, ends);
    CursorNames(streams, cursor, ends, |streams|);
    MovedIsBehind(streams, cursor, ends);
    SubsetSize(now.Keys, cursor.Keys + Behind(streams, cursor));
    assert |now| == |now.Keys|;
  }

  lemma FailedPage(streams: seq<Stream>, cursor: map<string, nat>, ends: seq<nat>, events: seq<Line>,
                   now: map<string, nat>, decode: Line -> Record)
    requires Named(streams) && PageOf(streams, cursor, ends, |streams|, events, now, decode)
    requires MeetsNonObject(streams, now, decode)
    ensures MeetsNonObject(streams, cursor, decode)
  {
    hide PageOf, Reading, MeetsNonObject, Advanced;
    PageIsReading(streams, cursor, ends, events, now, decode);
    MeetsEarlier(streams, cursor, ends, now, decode);
  }

  lemma AlwaysRoomFromNothing(streams: seq<Stream>, none: map<string, nat>)
    requires none == map[]
    ensures |none.Keys + Behind(streams, none)| <= MOST_STREAMS
  {
    FewNames(streams, none, |streams|);
    assert none.Keys + Behind(streams, none) == Behind(streams, none);
  }

  /** The export loop over a directory that does not change meanwhile. It comes to its end, never finds its
      cursor stalled, and then has delivered the records of the match from every readable stream, each once
      and in order. It gets there with a cursor that the next page accepts if and only if the names in the
      cursor and of the streams with something to deliver are few enough and no value behind the cursor is
      not an object. */
  method Export(streams: seq<Stream>, cursor: map<string, nat>, limit: int, exhausted: bool, decode: Line -> Record)
    returns (events: seq<Line>, r: Result<map<string, nat>, PageError>, stalled: bool, ghost ends: seq<nat>)
    requires Named(streams) && limit >= 1
    ensures !stalled
    ensures r.Ok? ==> PageOf(streams, cursor, ends, |streams|, events, r.value, decode) && AllDrained(streams, ends)
    ensures r.Ok? && |r.value| <= MOST_STREAMS <==>
      |cursor.Keys + Behind(streams, cursor)| <= MOST_STREAMS && !MeetsNonObject(streams, cursor, decode)
    ensures r.Ok? ==> r.value.Keys == cursor.Keys + Behind(streams, cursor)
    ensures r == Err(InvalidCursor) ==> |cursor.Keys + Behind(streams, cursor)| > MOST_STREAMS
    ensures r == Err(RecordNotAnObject) ==> MeetsNonObject(streams, cursor, decode)
    ensures cursor == map[] ==> r != Err(InvalidCursor)
  {
    hide PageOf, Staged, SomeProgress, AllDrained, MeetsNonObject, PageFails, Behind, Named, Names, Remaining;
    if cursor == map[] { AlwaysRoomFromNothing(streams, cursor); }
    var now := cursor;
    events, stalled := [], false;
    ends := ExportStarts(streams, cursor, decode);
    while true
      invariant PageOf(streams, cursor, ends, |streams|, events, now, decode) && Staged(streams, cursor, ends)
      invariant !stalled
      decreases Remaining(streams, now, |streams|)
    {
      OffsetsSame(now);
      NamesSoFar(streams, cursor, ends, events, now, decode);
      var page, later := ReadPage(streams, Some(now), limit, exhausted, decode);
      if page.Err? {
        if page.error == RecordNotAnObject { FailedPage(streams, cursor, ends, events, now, decode); }
        r := Err(page.error);
        return;
      }
      var next := page.value.cursor;
      ExportStep(streams, cursor, ends, events, now, later, page.value.events, next, decode);
      events, ends := events + page.value.events, later;
      stalled := page.value.hasMore && next == now;
      if !page.value.hasMore || stalled {
        NamesSoFar(streams, cursor, ends, events, next, decode);
        DrainedMeetsNone(streams, cursor, ends, events, next, decode);
        r := Ok(next);
        return;
      }
      now := next;
    }
  }

  // ----- A full cursor -----------------------------------------------------------------------

  const HEX := "0123456789abcdef"
  const NAME_LENGTH := 47

  /** The file of a stream: its number as 32 hexadecimal digits. */
  function FileName(n: nat): (r: string)
    requires n < 4096
    ensures |r| == NAME_LENGTH
  {
    "activity-" + seq(29, _ => '0') + [HEX[n / 256], HEX[n / 16 % 16], HEX[n % 16]] + ".jsonl"
  }

  lemma DigitsDiffer(a: nat, b: nat)
    requires a < 16 && b < 16 && HEX[a] == HEX[b]
    ensures a == b
  {}

  lemma DigitsAdd(n: nat)
    ensures n == 256 * (n / 256) + 16 * (n / 16 % 16) + n % 16
  {
    assert n / 16 / 16 == n / 256;
  }

  lemma DigitsOf(n: nat)
    requires n < 4096
    ensures FileName(n)[38] == HEX[n / 256] && FileName(n)[39] == HEX[n / 16 % 16] && FileName(n)[40] == HEX[n % 16]
  {}

  lemma FileNamesDiffer(a: nat, b: nat)
    requires a < 4096 && b < 4096 && FileName(a) == FileName(b)
    ensures a == b
  {
    hide FileName, HEX;
    DigitsOf(a);
    DigitsOf(b);
    DigitsDiffer(a / 256, b / 256);
    DigitsDiffer(a / 16 % 16, b / 16 % 16);
    DigitsDiffer(a % 16, b % 16);
    DigitsAdd(a);
    DigitsAdd(b);
  }

  /** A cursor behind one line in each of the first `n` files. */
  function Vanished(n: nat): (r: map<string, nat>)
    requires n <= MOST_STREAMS
    ensures forall name | name in r :: |name| == NAME_LENGTH && r[name] == 3
  {
    if n == 0 then map[] else Vanished(n - 1)[FileName(n - 1) := 3]
  }

  lemma {:induction false} VanishedNames(n: nat, k: nat)
    requires n <= MOST_STREAMS && n <= k < 4096
    ensures |Vanished(n)| == n && FileName(k) !in Vanished(n)
  {
    hide FileName;
    if n == 0 {
    } else {
      VanishedNames(n - 1, n - 1);
      VanishedNames(n - 1, k);
      if FileName(k) == FileName(n - 1) { FileNamesDiffer(k, n - 1); }
    }
  }

  const EMPTY_OBJECT: seq<Byte> := [123, 125, NEWLINE]

  lemma ShortLine()
    ensures LineEnd(EMPTY_OBJECT, 0) == 3 && Complete(EMPTY_OBJECT, 0) && !Complete(EMPTY_OBJECT, 3)
  {
    assert Stop(EMPTY_OBJECT, 2, LONGEST_LINE - 1) == 3;
    assert Stop(EMPTY_OBJECT, 1, LONGEST_LINE) == 3;
  }

  lemma ShortLineReads(stream: Stream, offsets: map<string, nat>, decode: Line -> Record)
    requires stream.bytes == EMPTY_OBJECT && stream.name !in offsets && decode(EMPTY_OBJECT) == Foreign
    ensures !PageFails([stream], offsets, 0, 150, PAGE_BYTES, decode)
  {
    hide Complete, LineEnd;
    ShortLine();
    assert EMPTY_OBJECT[0..3] == EMPTY_OBJECT;
    assert ReadOn(EMPTY_OBJECT, 3, 150, PAGE_BYTES - 3, decode) == Reach(3, 0, false);
  }

  /** Whatever the page reports, the new stream has joined the cursor. */
  lemma ShortLineMoves(stream: Stream, offsets: map<string, nat>, ends: seq<nat>, events: seq<Line>,
                       now: map<string, nat>, decode: Line -> Record)
    requires stream.bytes == EMPTY_OBJECT && stream.name !in offsets && !stream.link
    requires PageOf([stream], offsets, ends, 1, events, now, decode)
    requires SomeProgress([stream], offsets, ends) || AllDrained([stream], ends)
    ensures |now| == |offsets| + 1 && stream.name in now && now[stream.name] <= 3
    ensures now == offsets[stream.name := now[stream.name]]
  {
    hide Complete;
    ShortLine();
    assert Visited(stream, offsets, ends[0], Readable([stream], 0));
    ReadsInRange(EMPTY_OBJECT, 0, ends[0]);
    assert Readable([stream], 0) && Drained([stream], ends, 0) ==> ends[0] != 0;
    assert ends[0] > 0;
    assert now == Advanced([stream], offsets, ends, 0)[stream.name := ends[0]];
  }

  lemma PageAnswers(r: Result<Page, PageError>)
    ensures r.Ok? || r == Err(InvalidCursor) || r == Err(RecordNotAnObject)
  {
    if r.Err? {
      match r.error
      case InvalidCursor =>
      case RecordNotAnObject =>
    }
  }

  /** One new stream with one whole line beside 256 names of streams that have vanished: the page delivers,
      and the cursor it hands out, 257 names of 47 characters with offsets of one digit, is refused. */
  method FullCursor(decode: Line -> Record) returns (first: Result<Page, PageError>, second: Result<Page, PageError>)
    requires decode(EMPTY_OBJECT) == Foreign
    ensures first.Ok? && |first.value.cursor| == MOST_STREAMS + 1
    ensures first.Ok? && forall name | name in first.value.cursor ::
      |name| == NAME_LENGTH && first.value.cursor[name] < 10
    ensures second == Err(InvalidCursor)
  {
    hide PageOf, SomeProgress, AllDrained, Staged, PageFails, MeetsNonObject, Names, Vanished, FileName;
    hide EMPTY_OBJECT;
    var stream := Stream(FileName(MOST_STREAMS), EMPTY_OBJECT, false);
    var cursor := Vanished(MOST_STREAMS);
    VanishedNames(MOST_STREAMS, MOST_STREAMS);
    OffsetsSame(cursor);
    ShortLineReads(stream, cursor, decode);
    ghost var ends, later;
    first, ends := ReadPage([stream], Some(cursor), 150, false, decode);
    PageAnswers(first);
    ShortLineMoves(stream, cursor, ends, first.value.events, first.value.cursor, decode);
    second, later := ReadPage([stream], Some(first.value.cursor), 150, false, decode);
  }
}
