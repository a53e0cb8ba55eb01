/** The prefix-maximum tree of the frontier pruning: a one-based list of cells in which cell i covers the
    ranks (i - lowbit(i), i]. */
module Fenwick {
  import opened Wrappers

  /** Bitwise and of a natural with an integer in two's complement, as Python's `&`. */
  function BitAnd(a: nat, b: int): (r: nat)
  {
    if a == 0 then 0 else 2 * BitAnd(a / 2, b / 2) + (a % 2) * (b % 2)
  }

  function LowBit(n: nat): (r: nat)
    requires n > 0
    ensures 1 <= r <= n
  {
    if n % 2 == 1 then 1 else 2 * LowBit(n / 2)
  }

  lemma {:induction false} ComplementMeetsNothing(k: int)
    requires k >= 0
    ensures BitAnd(k, -k - 1) == 0
  {
    if k == 0 {
    } else {
      assert (-k - 1) / 2 == -(k / 2) - 1;
      assert (k % 2) * ((-k - 1) % 2) == 0;
      ComplementMeetsNothing(k / 2);
    }
  }

  /** `cursor & -cursor` is the lowest set bit. */
  lemma {:induction false} LowBitIsAnd(n: int)
    requires n > 0
    ensures BitAnd(n, -n) == LowBit(n)
  {
    if n % 2 == 1 {
      assert (-n) / 2 == -(n / 2) - 1 && (-n) % 2 == 1;
      ComplementMeetsNothing(n / 2);
    } else {
      assert (-n) / 2 == -(n / 2) && (-n) % 2 == 0;
      LowBitIsAnd(n / 2);
    }
  }

  /** Between two stops of the update loop no cell covers the first stop. */
  lemma {:induction false} SkippedCellsMiss(c: nat, i: nat)
    requires 0 < c < i < c + LowBit(c)
    ensures c <= i - LowBit(i)
  {
    if i % 2 == 1 || c % 2 == 1 {
    } else {
      SkippedCellsMiss(c / 2, i / 2);
    }
  }

  /** The next stop of the update loop covers all that the previous one does. */
  lemma {:induction false} NextStopCovers(c: nat)
    requires c > 0
    ensures c + LowBit(c) - LowBit(c + LowBit(c)) <= c - LowBit(c)
  {
    if c % 2 == 0 {
      NextStopCovers(c / 2);
      assert (c + LowBit(c)) / 2 == c / 2 + LowBit(c / 2);
    } else {
      assert (c + 1) % 2 == 0;
    }
  }

  /** A kept total as the tree sees it. */
  datatype Point = Point(rank: nat, energy: int)

  ghost predicate Reached(points: set<Point>, low: int, high: int, energy: int) {
    exists p | p in points :: low < p.rank <= high && p.energy == energy
  }

  /** `v` is the greatest energy of the points ranked in (low, high], none if there is none. */
  ghost predicate MaxIn(v: Option<int>, points: set<Point>, low: int, high: int) {
    && (forall p | p in points && low < p.rank <= high :: v.Some? && p.energy <= v.value)
    && (v.Some? ==> Reached(points, low, high, v.value))
  }

  ghost predicate Tree(cells: seq<Option<int>>, points: set<Point>) {
    forall i | 1 <= i < |cells| :: MaxIn(cells[i], points, i - LowBit(i), i)
  }

  lemma EmptyTree(cells: seq<Option<int>>)
    requires forall i | 0 <= i < |cells| :: cells[i] == None
    ensures Tree(cells, {})
  {}

  function Larger(a: Option<int>, b: Option<int>): Option<int> {
    match (a, b)
    case (None, _) => b
    case (_, None) => a
    case (Some(x), Some(y)) => Some(if x >= y then x else y)
  }

  lemma Join(a: Option<int>, b: Option<int>, points: set<Point>, low: int, mid: int, high: int)
    requires low <= mid <= high && MaxIn(a, points, low, mid) && MaxIn(b, points, mid, high)
    ensures MaxIn(Larger(a, b), points, low, high)
  {
    if a.Some? {
      var p :| p in points && low < p.rank <= mid && p.energy == a.value;
      assert Reached(points, low, high, p.energy);
    }
    if b.Some? {
      var q :| q in points && mid < q.rank <= high && q.energy == b.value;
      assert Reached(points, low, high, q.energy);
    }
  }

  /** Walk down from `rank` by low bits: the maximum over every kept point ranked at most `rank`. */
  method Query(tree: array<Option<int>>, rank: nat, ghost points: set<Point>) returns (maximum: Option<int>)
    requires rank < tree.Length && Tree(tree[..], points)
    ensures MaxIn(maximum, points, 0, rank)
  {
    maximum := None;
    var cursor: int := rank;
    while cursor != 0
      invariant 0 <= cursor <= rank && MaxIn(maximum, points, cursor, rank)
      decreases cursor
    {
      LowBitIsAnd(cursor);
      assert MaxIn(tree[..][cursor], points, cursor - LowBit(cursor), cursor);
      Join(tree[cursor], maximum, points, cursor - LowBit(cursor), cursor, rank);
      var value := tree[cursor];
      if value.Some? {
        maximum := if maximum.None? || maximum.value < value.value then value else maximum;
      }
      cursor := cursor - BitAnd(cursor, -cursor);
    }
  }

  /** A cell that covers the rank of a new point takes the larger energy; any other keeps its value. */
  lemma CellAfterInsert(v: Option<int>, points: set<Point>, low: int, high: int, rank: nat, energy: int)
    requires MaxIn(v, points, low, high)
    ensures low < rank <= high ==> MaxIn(Larger(v, Some(energy)), points + {Point(rank, energy)}, low, high)
    ensures !(low < rank <= high) ==> MaxIn(v, points + {Point(rank, energy)}, low, high)
  {
    var all := points + {Point(rank, energy)};
    assert Point(rank, energy) in all;
    if v.Some? {
      var p :| p in points && low < p.rank <= high && p.energy == v.value;
      assert p in all;
      assert Reached(all, low, high, p.energy);
    }
    if low < rank <= high { assert Reached(all, low, high, energy); }
  }

  /** Cells that do not cover the new rank already describe the larger set of points. */
  lemma CellsThatMiss(cells: seq<Option<int>>, points: set<Point>, rank: nat, energy: int)
    requires Tree(cells, points)
    ensures forall i | 1 <= i < |cells| && !(i - LowBit(i) < rank <= i) ::
      MaxIn(cells[i], points + {Point(rank, energy)}, i - LowBit(i), i)
  {
    forall i | 1 <= i < |cells| && !(i - LowBit(i) < rank <= i)
      ensures MaxIn(cells[i], points + {Point(rank, energy)}, i - LowBit(i), i)
    {
      CellAfterInsert(cells[i], points, i - LowBit(i), i, rank, energy);
    }
  }

  /** At a stop the cell takes the new energy; the cells it jumps over need nothing. */
  lemma StopAfterInsert(cells: seq<Option<int>>, points: set<Point>, cursor: nat, rank: nat, energy: int)
    requires Tree(cells, points) && 0 < cursor < |cells| && cursor - LowBit(cursor) < rank <= cursor
    ensures MaxIn(Larger(cells[cursor], Some(energy)), points + {Point(rank, energy)}, cursor - LowBit(cursor), cursor)
    ensures forall i | cursor < i < |cells| && i < cursor + LowBit(cursor) ::
      MaxIn(cells[i], points + {Point(rank, energy)}, i - LowBit(i), i)
  {
    CellAfterInsert(cells[cursor], points, cursor - LowBit(cursor), cursor, rank, energy);
    CellsThatMiss(cells, points, rank, energy);
    forall i | cursor < i < |cells| && i < cursor + LowBit(cursor)
      ensures MaxIn(cells[i], points + {Point(rank, energy)}, i - LowBit(i), i)
    {
      SkippedCellsMiss(cursor, i);
    }
  }

  /** Walk up from `rank` by low bits: the tree of the points with one more. */
  method Insert(tree: array<Option<int>>, rank: nat, energy: int, ghost points: set<Point>)
    requires 0 < rank < tree.Length && Tree(tree[..], points)
    modifies tree
    ensures Tree(tree[..], points + {Point(rank, energy)})
  {
    hide MaxIn, LowBit, BitAnd;
    ghost var cells := tree[..];
    ghost var all := points + {Point(rank, energy)};
    CellsThatMiss(cells, points, rank, energy);
    var cursor: int := rank;
    while cursor < tree.Length
      invariant rank <= cursor && (cursor < tree.Length ==> cursor - LowBit(cursor) < rank)
      invariant forall i | 1 <= i < tree.Length && i < cursor :: MaxIn(tree[i], all, i - LowBit(i), i)
      invariant forall i | 1 <= i < tree.Length && cursor <= i :: tree[i] == cells[i]
      decreases tree.Length - cursor
    {
      var value := tree[cursor];
      LowBitIsAnd(cursor);
      NextStopCovers(cursor);
      StopAfterInsert(cells, points, cursor, rank, energy);
      tree[cursor] := if value.None? then Some(energy) else Some(if value.value >= energy then value.value else energy);
      cursor := cursor + BitAnd(cursor, -cursor);
    }
  }
}
