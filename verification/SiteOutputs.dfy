/** The report on a base site: input checks, the frontier of its workable squares and an even sample of it. */
module SiteOutputs {
  import opened Wrappers
  import opened Pareto
  import opened Counterfactual
  import opened SiteTotals

  const MOST_CITIZENS := 6
  const MOST_SQUARES := 20
  const MOST_ALTERNATIVES := 32

  datatype Row = Row(gross: Yield, workers: seq<Ref>)

  datatype Report =
    | CenterUnknown
    | Feasible(rows: seq<Row>, usable: nat, retained: nat, complete: bool, truncated: bool)

  datatype SiteError = InputBoundExceeded | WorkersRequireDistinctLocations

  /** The one pass over the squares: either all references are usable, or the input is refused. */
  method ReadSquares(squares: seq<Square>, center: Square) returns (r: Result<seq<Worker>, SiteError>)
    ensures r.Ok? <==> Distinct(squares, center)
    ensures r.Ok? ==> r.value == Workers(squares, |squares|)
    ensures r.Err? ==> r.error == WorkersRequireDistinctLocations
  {
    var usable, seen := [], {center.ref};
    for n := 0 to |squares|
      invariant Distinct(squares[..n], center)
      invariant forall a | 0 <= a < n :: Named(squares[a])
      invariant usable == Workers(squares, n)
      invariant forall x :: x in seen <==> x == center.ref || exists a | 0 <= a < n :: squares[a].ref == x
    {
      var square := squares[n];
      if !Named(square) || square.ref in seen {
        return Err(WorkersRequireDistinctLocations);
      }
      seen := seen + {square.ref};
      assert squares[..n + 1] == squares[..n] + [square];
      assert forall a | 0 <= a < n :: squares[..n][a] == squares[a];
      if Counts(square) {
        usable := usable + [Worker(square.ref.value, square.output.value)];
      }
    }
    assert squares[..|squares|] == squares;
    r := Ok(usable);
  }

  // ----- Sampling ----------------------------------------------------------------------------

  function Position(i: nat, count: nat, limit: nat): nat
    requires i < limit && 2 <= limit < count
  {
    i * (count - 1) / (limit - 1)
  }

  /** The positions shown out of `count` retained totals. */
  function Sampled(count: nat, limit: nat): (r: seq<nat>)
    requires limit >= 1
  {
    if count <= limit then seq(count, i => i)
    else if limit == 1 then [count / 2]
    else seq(limit, i requires 0 <= i < limit => Position(i, count, limit))
  }

  lemma QuotientGrows(x: nat, step: nat, width: nat)
    requires width > 0 && step >= width
    ensures (x + step) / width > x / width
  {
    var q := x / width;
    assert x >= q * width;
    assert x + step >= (q + 1) * width;
  }

  lemma NoSmallMultiple(x: int, d: int)
    requires 0 <= x * d < x
    ensures d == 0
  {
    assert d >= 1 ==> x * d >= x;
    assert d <= -1 ==> x * d <= -x;
  }

  lemma ExactQuotient(x: nat, y: nat)
    requires x > 0
    ensures x * y / x == y
  {
    var n := x * y;
    var q := n / x;
    assert n == x * q + n % x;
    assert n - x * q == x * (y - q);
    NoSmallMultiple(x, y - q);
  }

  lemma NextPosition(j: nat, count: nat, limit: nat)
    requires 0 < j < limit && 2 <= limit < count
    ensures Position(j - 1, count, limit) < Position(j, count, limit)
  {
    assert j * (count - 1) == (j - 1) * (count - 1) + (count - 1);
    QuotientGrows((j - 1) * (count - 1), count - 1, limit - 1);
  }

  lemma {:induction false} PositionsGrow(i: nat, j: nat, count: nat, limit: nat)
    requires i < j < limit && 2 <= limit < count
    ensures Position(i, count, limit) < Position(j, count, limit)
    decreases j
  {
    hide Position;
    NextPosition(j, count, limit);
    if i == j - 1 {
    } else {
      PositionsGrow(i, j - 1, count, limit);
    }
  }

  lemma LastPosition(count: nat, limit: nat)
    requires 2 <= limit < count
    ensures Position(0, count, limit) == 0 && Position(limit - 1, count, limit) == count - 1
  {
    ExactQuotient(limit - 1, count - 1);
  }

  /** The sample is in range and strictly increasing, and from two rows on it has both ends. */
  lemma SampleSpread(count: nat, limit: nat)
    requires limit >= 1
    ensures |Sampled(count, limit)| == if count <= limit then count else limit
    ensures forall i | 0 <= i < |Sampled(count, limit)| :: Sampled(count, limit)[i] < count
    ensures forall i, j | 0 <= i < j < |Sampled(count, limit)| :: Sampled(count, limit)[i] < Sampled(count, limit)[j]
    ensures limit >= 2 && count >= 1 ==>
      Sampled(count, limit)[0] == 0 && Sampled(count, limit)[|Sampled(count, limit)| - 1] == count - 1
  {
    if 2 <= limit < count {
      LastPosition(count, limit);
      forall i, j | 0 <= i < j < limit ensures Position(i, count, limit) < Position(j, count, limit) {
        PositionsGrow(i, j, count, limit);
      }
    }
  }

  // ----- The report --------------------------------------------------------------------------

  ghost predicate Lists(values: seq<Yield>, s: set<Yield>) {
    && (forall a, b | 0 <= a < b < |values| :: Precedes(values[a], values[b]))
    && |values| == |s| && (forall t :: t in values <==> t in s)
  }

  lemma {:induction false} SortedMembers(r: seq<Yield>, s: set<Yield>)
    requires Sorted(r, s)
    ensures |r| == |s| && forall t :: t in r <==> t in s
  {
    hide Precedes;
    if r == [] {
    } else {
      SortedMembers(r[1..], s - {r[0]});
      assert r == [r[0]] + r[1..];
      assert s == s - {r[0]} + {r[0]};
    }
  }

  lemma {:induction false} SortedDescends(r: seq<Yield>, s: set<Yield>, a: nat, b: nat)
    requires Sorted(r, s) && a < b < |r|
    ensures Precedes(r[b], r[a])
  {
    hide Precedes;
    SortedMembers(r[1..], s - {r[0]});
    assert r[b] == r[1..][b - 1];
    if a == 0 {
      assert r[b] in r[1..];
    } else {
      SortedDescends(r[1..], s - {r[0]}, a - 1, b - 1);
      assert r[a] == r[1..][a - 1];
    }
  }

  lemma SortedLists(r: seq<Yield>, s: set<Yield>)
    requires Sorted(r, s)
    ensures |r| == |s| && (forall t :: t in r <==> t in s) && forall a, b | 0 <= a < b < |r| :: Precedes(r[b], r[a])
  {
    SortedMembers(r, s);
    forall a, b | 0 <= a < b < |r| ensures Precedes(r[b], r[a]) { SortedDescends(r, s, a, b); }
  }

  /** `sorted` over distinct totals. */
  method SortAscending(s: set<Yield>) returns (values: seq<Yield>)
    ensures Lists(values, s)
  {
    var r := SortDescending(s);
    SortedLists(r, s);
    values := seq(|r|, i requires 0 <= i < |r| => r[|r| - 1 - i]);
    forall t ensures t in values <==> t in s {
      if t in s {
        var a :| 0 <= a < |r| && r[a] == t;
        assert values[|r| - 1 - a] == t;
      }
    }
  }

  /** The row names as many different workable squares as there are citizens, and its gross output is what
      these squares and the center yield, output by output. */
  ghost predicate RowHolds(row: Row, squares: seq<Square>, center: Square, population: int)
    requires center.output.Some?
  {
    var chosen := set ref | ref in row.workers;
    && |row.workers| == population && Assignment(squares, center, population, chosen)
    && row.gross.nutrients == center.output.value.nutrients + Nutrients(squares, |squares|, chosen)
    && row.gross.minerals == center.output.value.minerals + Minerals(squares, |squares|, chosen)
    && row.gross.energy == center.output.value.energy + Energy(squares, |squares|, chosen)
  }

  /** Position `p` of `count` is the `i`-th of an even sample: all of them if they fit, the middle one for a
      single row, otherwise the share `i / (limit - 1)` of the last position rounded down. */
  ghost predicate Even(i: int, p: int, count: int, limit: int) {
    if count <= limit then p == i
    else if limit == 1 then 2 * p <= count < 2 * p + 2
    else p * (limit - 1) <= i * (count - 1) < (p + 1) * (limit - 1)
  }

  /** The retained totals with fewer nutrients, or as many and fewer minerals, or as many of both and less energy. */
  ghost function Lower(kept: set<Yield>, t: Yield): set<Yield> {
    set u | u in kept
            && (u.nutrients < t.nutrients
                || (u.nutrients == t.nutrients && u.minerals < t.minerals)
                || (u.nutrients == t.nutrients && u.minerals == t.minerals && u.energy < t.energy))
  }

  /** The row shows the retained total `t`. */
  ghost predicate Shows(row: Row, center: Yield, t: Yield) {
    && row.gross.nutrients == center.nutrients + t.nutrients
    && row.gross.minerals == center.minerals + t.minerals
    && row.gross.energy == center.energy + t.energy
  }

  /** Row `i` shows the retained total at the `i`-th place of an even sample. */
  ghost predicate ShownAt(row: Row, center: Yield, kept: set<Yield>, i: int, limit: int) {
    exists t | t in kept :: Shows(row, center, t) && Even(i, |Lower(kept, t)|, |kept|, limit)
  }

  /** The rows are honest, an even sample of the totals retained, and all of them if they fit. */
  ghost predicate RowsHold(report: Report, squares: seq<Square>, center: Square, population: int, limit: int,
                           kept: set<Yield>)
    requires report.Feasible? && center.output.Some?
  {
    && |report.rows| == (if |kept| <= limit then |kept| else limit)
    && (forall i | 0 <= i < |report.rows| :: RowHolds(report.rows[i], squares, center, population))
    && (forall i | 0 <= i < |report.rows| :: ShownAt(report.rows[i], center.output.value, kept, i, limit))
    && (|kept| <= limit ==> forall t | t in kept :: exists i | 0 <= i < |report.rows| ::
          Shows(report.rows[i], center.output.value, t))
  }

  /** The counts and flags of the report. */
  ghost predicate CountsHold(report: Report, squares: seq<Square>, kept: set<Yield>)
    requires report.Feasible?
  {
    && report.usable == UsableCount(squares, |squares|) && report.retained == |kept|
    && (report.truncated <==> |report.rows| < report.retained || !report.complete)
  }

  ghost predicate Grosses(usable: seq<Worker>, center: Yield, population: nat, row: Row) {
    exists total :: row.gross == Add(total, center) && Attains(usable, |usable|, population, total, row.workers)
  }

  /** The retained totals that come before `t` in tuple order. */
  ghost function Below(kept: set<Yield>, t: Yield): set<Yield> {
    set u | u in kept && Precedes(u, t)
  }

  /** The row shows the retained total that has exactly `p` others before it. */
  ghost predicate Placed(row: Row, kept: set<Yield>, center: Yield, p: nat) {
    exists t | t in kept :: row.gross == Add(t, center) && |Below(kept, t)| == p
  }

  ghost predicate Listed(rows: seq<Row>, center: Yield, t: Yield) {
    exists i | 0 <= i < |rows| :: rows[i].gross == Add(t, center)
  }

  /** What a report is built from, on the totals `kept`. */
  ghost predicate Built(report: Report, usable: seq<Worker>, center: Yield, population: nat, limit: nat,
                        kept: set<Yield>)
    requires report.Feasible? && limit >= 1
  {
    && report.usable == |usable| && report.retained == |kept| && kept <= Reachable(usable, population)
    && (report.complete ==> kept == Maximal(Reachable(usable, population)))
    && |report.rows| == |Sampled(|kept|, limit)| == (if |kept| <= limit then |kept| else limit)
    && (report.truncated <==> |report.rows| != |kept| || !report.complete)
    && (forall i | 0 <= i < |report.rows| :: Grosses(usable, center, population, report.rows[i]))
    && (forall i | 0 <= i < |report.rows| :: Placed(report.rows[i], kept, center, Sampled(|kept|, limit)[i]))
    && (|report.rows| == |kept| ==> forall t | t in kept :: Listed(report.rows, center, t))
  }

  // The rows shown, by the positions they are sampled from.

  ghost predicate RowAt(row: Row, p: nat, values: seq<Yield>, kept: Frontier, center: Yield) {
    p < |values| && values[p] in kept && row == Row(Add(values[p], center), kept[values[p]])
  }

  ghost predicate RowsOf(rows: seq<Row>, picked: seq<nat>, values: seq<Yield>, kept: Frontier, center: Yield) {
    |rows| == |picked| && forall i | 0 <= i < |picked| :: RowAt(rows[i], picked[i], values, kept, center)
  }

  ghost function First(values: seq<Yield>, n: nat): set<Yield>
    requires n <= |values|
  {
    set k | 0 <= k < n :: values[k]
  }

  lemma {:induction false} FirstValues(values: seq<Yield>, n: nat)
    requires n <= |values| && forall a, b | 0 <= a < b < |values| :: values[a] != values[b]
    ensures |First(values, n)| == n
  {
    if n == 0 {
      assert First(values, 0) == {};
    } else {
      FirstValues(values, n - 1);
      assert values[n - 1] !in First(values, n - 1);
      assert First(values, n) == First(values, n - 1) + {values[n - 1]};
    }
  }

  /** A sorted listing has each total at its place. */
  lemma PlaceIsRank(values: seq<Yield>, kept: set<Yield>, p: nat)
    requires Lists(values, kept) && p < |values|
    ensures values[p] in kept && |Below(kept, values[p])| == p
  {
    FirstValues(values, p);
    forall t ensures t in First(values, p) <==> t in Below(kept, values[p]) {
      if t in values {
        var a :| 0 <= a < |values| && values[a] == t;
        assert a > p ==> Precedes(values[p], values[a]);
      }
    }
    assert First(values, p) == Below(kept, values[p]);
  }

  lemma RowsAddUp(rows: seq<Row>, picked: seq<nat>, values: seq<Yield>, kept: Frontier, usable: seq<Worker>,
                  center: Yield, population: nat, capped: bool)
    requires RowsOf(rows, picked, values, kept, center) && Layer(usable, |usable|, population, kept, capped)
    requires Lists(values, kept.Keys)
    ensures forall i | 0 <= i < |rows| :: Grosses(usable, center, population, rows[i])
    ensures forall i | 0 <= i < |rows| :: Placed(rows[i], kept.Keys, center, picked[i])
  {
    hide Attains, Lists, Below;
    forall i | 0 <= i < |rows|
      ensures Grosses(usable, center, population, rows[i])
      ensures Placed(rows[i], kept.Keys, center, picked[i])
    {
      assert RowAt(rows[i], picked[i], values, kept, center);
      var t := values[picked[i]];
      PlaceIsRank(values, kept.Keys, picked[i]);
      assert Attains(usable, |usable|, population, t, kept[t]);
    }
  }

  lemma AllPicked(count: nat, limit: nat)
    requires limit >= 1 && |Sampled(count, limit)| == count
    ensures forall a | 0 <= a < count :: Sampled(count, limit)[a] == a
  {}

  lemma RowsList(rows: seq<Row>, values: seq<Yield>, kept: Frontier, center: Yield, limit: nat, t: Yield)
    requires limit >= 1 && RowsOf(rows, Sampled(|values|, limit), values, kept, center) && Lists(values, kept.Keys)
    requires t in kept && |rows| == |values|
    ensures Listed(rows, center, t)
  {
    hide Sampled;
    var a :| 0 <= a < |values| && values[a] == t;
    AllPicked(|values|, limit);
    assert RowAt(rows[a], Sampled(|values|, limit)[a], values, kept, center);
  }

  lemma Listing(values: seq<Yield>, kept: Frontier)
    requires Lists(values, kept.Keys)
    ensures |values| == |kept.Keys| && forall a | 0 <= a < |values| :: values[a] in kept
  {}

  lemma Complete(usable: seq<Worker>, population: nat, kept: Frontier, capped: bool)
    requires Layer(usable, |usable|, population, kept, capped)
    ensures kept.Keys <= Reachable(usable, population)
    ensures !capped ==> kept.Keys == Maximal(Reachable(usable, population))
  {
    forall t | t in kept ensures t in Reachable(usable, population) {
      assert Attains(usable, |usable|, population, t, kept[t]);
      var picks :| PicksAs(usable, |usable|, population, t, kept[t], picks);
      SumsContainEveryPick(Outputs(usable), |usable|, population, picks);
    }
  }

  /** The report on the frontier found. */
  method Present(usable: seq<Worker>, center: Yield, population: nat, limit: nat, kept: Frontier, capped: bool)
    returns (report: Report)
    requires limit >= 1 && Layer(usable, |usable|, population, kept, capped)
    ensures report.Feasible? && report.complete == !capped
    ensures Built(report, usable, center, population, limit, kept.Keys)
  {
    hide Layer, Grosses, Placed, Listed, Lists, Maximal, Precedes, Attains, Reachable, Sampled;
    var values := SortAscending(kept.Keys);
    var picked := Sampled(|values|, limit);
    SampleSpread(|values|, limit);
    var rows := [];
    Listing(values, kept);
    for i := 0 to |picked|
      invariant |rows| == i && forall k | 0 <= k < i :: RowAt(rows[k], picked[k], values, kept, center)
    {
      var t := values[picked[i]];
      rows := rows + [Row(Add(t, center), kept[t])];
    }
    RowsAddUp(rows, picked, values, kept, usable, center, population, capped);
    if |rows| == |values| {
      forall t | t in kept ensures Listed(rows, center, t) { RowsList(rows, values, kept, center, limit, t); }
    }
    Complete(usable, population, kept, capped);
    report := Feasible(rows, |usable|, |values|, !capped, |rows| != |values| || capped);
  }

  // ----- From the construction to what the report says ---------------------------------------

  lemma SampleIsEven(count: nat, limit: nat, i: nat)
    requires limit >= 1 && i < |Sampled(count, limit)|
    ensures Even(i, Sampled(count, limit)[i], count, limit)
  {
    if count > limit > 1 {
      var x, d := i * (count - 1), limit - 1;
      assert x == x / d * d + x % d;
    }
  }

  lemma HonestRow(row: Row, squares: seq<Square>, center: Square, population: nat)
    requires Distinct(squares, center) && center.output.Some?
    requires Grosses(Workers(squares, |squares|), center.output.value, population, row)
    ensures RowHolds(row, squares, center, population)
  {
    hide Attains;
    var usable := Workers(squares, |squares|);
    var total :| row.gross == Add(total, center.output.value)
                 && Attains(usable, |usable|, population, total, row.workers);
    AllocationIsAssignment(squares, center, population, total, row.workers);
  }

  lemma ShownRow(row: Row, center: Yield, kept: set<Yield>, i: nat, limit: nat)
    requires limit >= 1 && i < |Sampled(|kept|, limit)| && Placed(row, kept, center, Sampled(|kept|, limit)[i])
    ensures ShownAt(row, center, kept, i, limit)
  {
    hide Sampled, Even;
    var t :| t in kept && row.gross == Add(t, center) && |Below(kept, t)| == Sampled(|kept|, limit)[i];
    assert Below(kept, t) == Lower(kept, t);
    SampleIsEven(|kept|, limit, i);
    assert Shows(row, center, t);
  }

  lemma HonestRows(report: Report, squares: seq<Square>, center: Square, population: nat, limit: nat, kept: set<Yield>)
    requires Distinct(squares, center) && center.output.Some? && limit >= 1 && report.Feasible?
    requires Built(report, Workers(squares, |squares|), center.output.value, population, limit, kept)
    ensures RowsHold(report, squares, center, population, limit, kept)
  {
    hide Distinct, RowHolds, ShownAt, Grosses, Placed, Maximal, Reachable, Sampled;
    forall i | 0 <= i < |report.rows|
      ensures RowHolds(report.rows[i], squares, center, population)
      ensures ShownAt(report.rows[i], center.output.value, kept, i, limit)
    {
      HonestRow(report.rows[i], squares, center, population);
      ShownRow(report.rows[i], center.output.value, kept, i, limit);
    }
    if |kept| <= limit {
      forall t | t in kept
        ensures exists i | 0 <= i < |report.rows| :: Shows(report.rows[i], center.output.value, t)
      {
        assert Listed(report.rows, center.output.value, t);
        var i :| 0 <= i < |report.rows| && report.rows[i].gross == Add(t, center.output.value);
        assert Shows(report.rows[i], center.output.value, t);
      }
    }
  }

  lemma RetainedTotals(squares: seq<Square>, center: Square, population: nat, complete: bool, kept: set<Yield>)
    requires Distinct(squares, center) && kept <= Reachable(Workers(squares, |squares|), population)
    requires complete ==> kept == Maximal(Reachable(Workers(squares, |squares|), population))
    ensures Retained(squares, center, population, complete, kept)
  {
    hide Distinct, Attainable, Unbettered, Maximal, Reachable;
    forall t | t in kept ensures Attainable(squares, center, population, t) {
      ReachableIsAttainable(squares, center, population, t);
    }
    forall t | Attainable(squares, center, population, t)
      ensures complete ==> (t in kept <==> Unbettered(squares, center, population, t))
    {
      MaximalIsUnbettered(squares, center, population, t);
    }
  }

  lemma ReportHolds(report: Report, squares: seq<Square>, center: Square, population: nat, limit: nat, kept: set<Yield>)
    requires Distinct(squares, center) && center.output.Some? && limit >= 1 && report.Feasible?
    requires Built(report, Workers(squares, |squares|), center.output.value, population, limit, kept)
    ensures RowsHold(report, squares, center, population, limit, kept)
    ensures CountsHold(report, squares, kept)
    ensures Retained(squares, center, population, report.complete, kept)
  {
    hide RowsHold, Retained, Grosses, Placed, Listed, Maximal, Reachable;
    HonestRows(report, squares, center, population, limit, kept);
    RetainedTotals(squares, center, population, report.complete, kept);
    WorkersAreCounted(squares, |squares|);
  }

  /** A square with no name, the center's name or the name of an earlier square. */
  ghost predicate BadLocation(squares: seq<Square>, center: Square, a: nat) {
    && a < |squares|
    && (squares[a].ref == None || squares[a].ref == Some("") || squares[a].ref == center.ref
        || exists b | 0 <= b < a :: squares[b].ref == squares[a].ref)
  }

  lemma RefusedLocations(squares: seq<Square>, center: Square)
    ensures Distinct(squares, center) <==> forall a: nat :: !BadLocation(squares, center, a)
  {
    if forall a: nat :: !BadLocation(squares, center, a) {
      forall a | 0 <= a < |squares| ensures Named(squares[a]) && squares[a].ref != center.ref {
        assert !BadLocation(squares, center, a);
      }
      forall a, b | 0 <= a < b < |squares| ensures squares[a].ref != squares[b].ref {
        assert !BadLocation(squares, center, b);
      }
    }
  }

  /** Which input is refused is said of the input itself, and what is reported of the squares themselves. */
  method FeasibleOutputs(squares: seq<Square>, center: Square, population: int, limit: int)
    returns (r: Result<Report, SiteError>, ghost kept: set<Yield>)
    ensures r == Err(InputBoundExceeded) <==> !(1 <= population <= 6 && |squares| <= 20 && 1 <= limit <= 32)
    ensures r == Ok(CenterUnknown)
       <==> r != Err(InputBoundExceeded) && !(center.known && center.output.Some?)
    ensures r == Err(WorkersRequireDistinctLocations)
       <==> r != Err(InputBoundExceeded) && r != Ok(CenterUnknown)
            && exists a: nat :: BadLocation(squares, center, a)
    ensures r.Ok? && r.value.Feasible? ==>
      && center.output.Some?
      && RowsHold(r.value, squares, center, population, limit, kept)
      && CountsHold(r.value, squares, kept)
      && Retained(squares, center, population, r.value.complete, kept)
      && (r.value.complete <==>
          forall n: nat, w: nat | 1 <= w <= population :: !Overflows(squares, n, center, w))
  {
    if !(1 <= population <= MOST_CITIZENS) || |squares| > MOST_SQUARES || !(1 <= limit <= MOST_ALTERNATIVES) {
      return Err(InputBoundExceeded), {};
    }
    if !(center.known && center.output.Some?) {
      return Ok(CenterUnknown), {};
    }
    var read := ReadSquares(squares, center);
    RefusedLocations(squares, center);
    if read.Err? {
      return Err(read.error), {};
    }
    hide Layer, Built, Distinct, RowsHold, CountsHold, Retained, BadLocation, EverCrowded, Overflows;
    var states, capped := Frontiers(read.value, population);
    var report := Present(read.value, center.output.value, population, limit, states[population], capped);
    CappedIffOverflow(squares, center, population);
    ReportHolds(report, squares, center, population, limit, states[population].Keys);
    r, kept := Ok(report), states[population].Keys;
  }

  /** Some assignment yields as much in every output as any given one, and no assignment betters it. */
  lemma BestExists(squares: seq<Square>, center: Square, population: nat, chosen: set<Ref>) returns (t: Yield)
    requires Distinct(squares, center) && Assignment(squares, center, population, chosen)
    ensures Attainable(squares, center, population, t) && Unbettered(squares, center, population, t)
    ensures t.nutrients >= Nutrients(squares, |squares|, chosen)
    ensures t.minerals >= Minerals(squares, |squares|, chosen)
    ensures t.energy >= Energy(squares, |squares|, chosen)
  {
    var usable := Workers(squares, |squares|);
    var picks := AssignmentIsPicked(squares, center, population, chosen);
    var total := Total(Outputs(usable), picks);
    AttainableIsReachable(squares, center, population, total);
    MaximalCovers(Reachable(usable, population), total);
    t :| t in Maximal(Reachable(usable, population)) && Dominates(t, total);
    ReachableIsAttainable(squares, center, population, t);
    MaximalIsUnbettered(squares, center, population, t);
  }

  /** Unless rows were left out, every full assignment is matched or bettered by a row shown. */
  lemma RowsDominateEveryAssignment(report: Report, squares: seq<Square>, center: Square, population: nat, limit: nat,
                                    kept: set<Yield>, chosen: set<Ref>)
    requires report.Feasible? && center.output.Some? && (forall a: nat :: !BadLocation(squares, center, a))
    requires RowsHold(report, squares, center, population, limit, kept) && CountsHold(report, squares, kept)
    requires Retained(squares, center, population, report.complete, kept)
    requires !report.truncated
    requires Assignment(squares, center, population, chosen)
    ensures exists i | 0 <= i < |report.rows| ::
      && report.rows[i].gross.nutrients >= center.output.value.nutrients + Nutrients(squares, |squares|, chosen)
      && report.rows[i].gross.minerals >= center.output.value.minerals + Minerals(squares, |squares|, chosen)
      && report.rows[i].gross.energy >= center.output.value.energy + Energy(squares, |squares|, chosen)
  {
    hide Assignment, Attainable, Unbettered, Distinct, RowHolds, ShownAt, BadLocation;
    RefusedLocations(squares, center);
    var t := BestExists(squares, center, population, chosen);
    assert t in kept;
    var i :| 0 <= i < |report.rows| && Shows(report.rows[i], center.output.value, t);
  }
}
