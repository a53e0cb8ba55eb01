/** The feasible joint outputs of a base site: which totals a given number of citizens can produce. */
module Counterfactual {
  import opened Wrappers
  import opened Fenwick
  import opened Pareto

  const FRONTIER_LIMIT := 4096

  type Ref = string

  datatype Worker = Worker(ref: Ref, output: Yield)

  type Frontier = map<Yield, seq<Ref>>

  ghost function Outputs(usable: seq<Worker>): seq<Yield> {
    seq(|usable|, k requires 0 <= k < |usable| => usable[k].output)
  }

  ghost predicate PicksAs(usable: seq<Worker>, n: nat, w: nat, total: Yield, allocation: seq<Ref>, picks: seq<nat>) {
    && n <= |usable| && Picks(picks, n, w) && Total(Outputs(usable), picks) == total
    && |allocation| == w && forall a | 0 <= a < w :: allocation[a] == usable[picks[a]].ref
  }

  /** `allocation` names the squares of a `w`-subset of the first `n` usable ones, and `total` is what
      they produce together. */
  ghost predicate Attains(usable: seq<Worker>, n: nat, w: nat, total: Yield, allocation: seq<Ref>) {
    exists picks :: PicksAs(usable, n, w, total, allocation, picks)
  }

  // ----- Sorting -----------------------------------------------------------------------------

  /** `r` lists the members of `s` once each, the greatest in tuple order first. */
  ghost predicate Sorted(r: seq<Yield>, s: set<Yield>) {
    if r == [] then s == {}
    else r[0] in s && (forall u | u in s :: u == r[0] || Precedes(u, r[0])) && Sorted(r[1..], s - {r[0]})
  }

  lemma {:induction false} InsertedInOrder(r: seq<Yield>, s: set<Yield>, k: nat, t: Yield)
    requires k <= |r| && Sorted(r, s) && t !in s
    requires forall a | 0 <= a < k :: Precedes(t, r[a])
    requires k < |r| ==> !Precedes(t, r[k])
    ensures Sorted(r[..k] + [t] + r[k..], s + {t})
  {
    var r' := r[..k] + [t] + r[k..];
    if k == 0 {
      assert r'[1..] == r && s + {t} - {t} == s;
    } else {
      InsertedInOrder(r[1..], s - {r[0]}, k - 1, t);
      var front := r[1..];
      assert r[..k] == [r[0]] + front[..k - 1] && r[k..] == front[k - 1..];
      assert r' == [r[0]] + (front[..k - 1] + [t] + front[k - 1..]);
      assert r'[1..] == front[..k - 1] + [t] + front[k - 1..];
      assert s + {t} - {r[0]} == s - {r[0]} + {t};
    }
  }

  /** `sorted(..., reverse=True)` over distinct totals. */
  method SortDescending(s: set<Yield>) returns (r: seq<Yield>)
    ensures Sorted(r, s)
  {
    r := [];
    var todo := s;
    while todo != {}
      invariant todo <= s && Sorted(r, s - todo)
      decreases todo
    {
      var t :| t in todo;
      var k := 0;
      while k < |r| && Precedes(t, r[k])
        invariant k <= |r| && forall a | 0 <= a < k :: Precedes(t, r[a])
      {
        k := k + 1;
      }
      InsertedInOrder(r, s - todo, k, t);
      r := r[..k] + [t] + r[k..];
      assert s - (todo - {t}) == s - todo + {t};
      todo := todo - {t};
    }
    assert s - todo == s;
  }

  // ----- Ranking minerals --------------------------------------------------------------------

  ghost predicate Falling(r: seq<int>) {
    forall a, b | 0 <= a < b < |r| :: r[a] > r[b]
  }

  lemma Slotted(r: seq<int>, k: nat, v: int)
    requires k <= |r| && Falling(r) && (forall a | 0 <= a < k :: r[a] > v) && (k < |r| ==> r[k] < v)
    ensures Falling(r[..k] + [v] + r[k..])
    ensures forall x :: x in r[..k] + [v] + r[k..] <==> x == v || x in r
  {
    assert r == r[..k] + r[k..];
  }

  /** The distinct minerals of some totals, highest first. */
  method DistinctMinerals(s: set<Yield>) returns (r: seq<int>)
    ensures Falling(r)
    ensures forall t | t in s :: t.minerals in r
  {
    var values := set t | t in s :: t.minerals;
    r := [];
    while values != {}
      invariant Falling(r)
      invariant forall t | t in s :: t.minerals in r || t.minerals in values
      decreases values
    {
      var v :| v in values;
      var k := 0;
      while k < |r| && r[k] > v
        invariant k <= |r| && forall a | 0 <= a < k :: r[a] > v
      {
        k := k + 1;
      }
      if k == |r| || r[k] != v {
        Slotted(r, k, v);
        r := r[..k] + [v] + r[k..];
      }
      values := values - {v};
    }
  }

  /** A rank is at most that of `t` exactly for at least as many minerals. */
  ghost predicate Ranks(ranks: map<int, nat>, s: set<Yield>, cells: nat, t: Yield) {
    && t.minerals in ranks && 1 <= ranks[t.minerals] < cells
    && forall u | u in s ::
         u.minerals in ranks && (ranks[u.minerals] <= ranks[t.minerals] <==> u.minerals >= t.minerals)
  }

  method RankMinerals(s: set<Yield>) returns (ranks: map<int, nat>, cells: nat)
    ensures forall t | t in s :: Ranks(ranks, s, cells, t)
  {
    var minerals := DistinctMinerals(s);
    ranks := map[];
    for index := 0 to |minerals|
      invariant forall m | m in ranks :: 1 <= ranks[m] <= index && minerals[ranks[m] - 1] == m
      invariant forall a | 0 <= a < index :: minerals[a] in ranks
    {
      ranks := ranks[minerals[index] := index + 1];
    }
    cells := |minerals| + 1;
    forall t, u | t in s && u in s
      ensures t.minerals in ranks && u.minerals in ranks
      ensures ranks[u.minerals] <= ranks[t.minerals] <==> u.minerals >= t.minerals
    {
      assert minerals[ranks[t.minerals] - 1] == t.minerals && minerals[ranks[u.minerals] - 1] == u.minerals;
    }
  }

  // ----- Pruning one layer -------------------------------------------------------------------

  /** The kept totals as the tree sees them. */
  ghost function Points(kept: set<Yield>, ranks: map<int, nat>): set<Point>
    requires forall t | t in kept :: t.minerals in ranks
  {
    set t | t in kept :: Point(ranks[t.minerals], t.energy)
  }

  ghost predicate Antichain(kept: set<Yield>) {
    forall u, t | u in kept && t in kept && Dominates(u, t) :: u == t
  }

  /** The kept totals cover everything processed and never dominate one another; what is still to come
      is smaller in tuple order. */
  ghost predicate Pruned(kept: set<Yield>, all: set<Yield>, rest: set<Yield>) {
    && kept + rest <= all && Antichain(kept)
    && (forall t | t in all :: t in rest || Covered(t, kept))
    && (forall u, t | u in kept && t in rest :: Precedes(t, u))
  }

  /** The prefix maximum decides dominance exactly: the next total is skipped iff some kept total is at
      least as large in all three components. */
  lemma SkipIffDominated(kept: set<Yield>, all: set<Yield>, rest: set<Yield>, t: Yield, ranks: map<int, nat>,
                         cells: nat, maximum: Option<int>)
    requires Pruned(kept, all, rest) && t in rest && Ranks(ranks, all, cells, t)
    requires MaxIn(maximum, Points(kept, ranks), 0, ranks[t.minerals])
    requires forall u | u in kept :: 1 <= ranks[u.minerals]
    ensures maximum.Some? && maximum.value >= t.energy <==> Covered(t, kept)
  {
    var points := Points(kept, ranks);
    if maximum.Some? && maximum.value >= t.energy {
      var p :| p in points && 0 < p.rank <= ranks[t.minerals] && p.energy == maximum.value;
      var u :| u in kept && Point(ranks[u.minerals], u.energy) == p;
      assert Dominates(u, t);
    }
    if u :| u in kept && Dominates(u, t) {
      assert Point(ranks[u.minerals], u.energy) in points;
    }
  }

  lemma StillCovered(t: Yield, kept: set<Yield>, more: set<Yield>)
    requires kept <= more && (Covered(t, kept) || t in more)
    ensures Covered(t, more)
  {
    if Covered(t, kept) {
      var u :| u in kept && Dominates(u, t);
    } else {
      assert Dominates(t, t);
    }
  }

  /** A total that nothing kept dominates joins the antichain: being smaller in tuple order it cannot
      dominate an earlier one either. */
  lemma Keeps(kept: set<Yield>, all: set<Yield>, rest: set<Yield>, t: Yield)
    requires Pruned(kept, all, rest) && t in rest && !Covered(t, kept)
    requires forall u | u in rest :: u == t || Precedes(u, t)
    ensures Pruned(kept + {t}, all, rest - {t}) && t !in kept
  {
    forall u | u in all ensures u in rest - {t} || Covered(u, kept + {t}) {
      if u !in rest - {t} { StillCovered(u, kept, kept + {t}); }
    }
    assert t in kept ==> Dominates(t, t);
  }

  lemma Skips(kept: set<Yield>, all: set<Yield>, rest: set<Yield>, t: Yield)
    requires Pruned(kept, all, rest) && Covered(t, kept)
    ensures Pruned(kept, all, rest - {t})
  {}

  lemma NothingPruned(all: set<Yield>)
    ensures Pruned({}, all, all)
  {}

  lemma Head(order: seq<Yield>, rest: set<Yield>)
    requires Sorted(order, rest) && order != []
    ensures order[0] in rest && (forall u | u in rest :: u == order[0] || Precedes(u, order[0]))
    ensures Sorted(order[1..], rest - {order[0]})
  {}

  lemma NoPoints(ranks: map<int, nat>)
    ensures Points({}, ranks) == {}
  {}

  lemma PointsGrow(kept: set<Yield>, total: Yield, ranks: map<int, nat>)
    requires forall t | t in kept + {total} :: t.minerals in ranks
    ensures Points(kept + {total}, ranks) == Points(kept, ranks) + {Point(ranks[total.minerals], total.energy)}
  {}

  lemma PrunedIsMaximal(kept: set<Yield>, all: set<Yield>)
    requires Pruned(kept, all, {})
    ensures kept == Maximal(all)
  {
    AntichainCoverIsMaximal(kept, all);
  }

  lemma SubsetIsSmaller(part: set<Yield>, whole: set<Yield>)
    requires part <= whole
    ensures |part| <= |whole|
  {
    assert |whole| == |part| + |whole - part|;
  }

  /** At any point of the scan the kept totals are maximal: what comes later is smaller in tuple order. */
  lemma KeptAreMaximal(kept: set<Yield>, all: set<Yield>, rest: set<Yield>)
    requires Pruned(kept, all, rest)
    ensures kept <= Maximal(all) && |kept| <= |Maximal(all)|
  {
    forall t, u | t in kept && u in all && Dominates(u, t) ensures u == t {
      if u !in rest {
        assert Covered(u, kept);
        var v :| v in kept && Dominates(v, u);
        assert Dominates(v, t);
      }
    }
    SubsetIsSmaller(kept, Maximal(all));
  }

  lemma InRange(ranks: map<int, nat>, s: set<Yield>, cells: nat)
    requires forall t | t in s :: Ranks(ranks, s, cells, t)
    ensures forall t | t in s :: t.minerals in ranks && 1 <= ranks[t.minerals] < cells
  {}

  lemma SortedNothing(order: seq<Yield>, rest: set<Yield>)
    requires Sorted(order, rest) && order == []
    ensures rest == {}
  {}

  /** Whether the tree knows a kept total at least as large in all three components. */
  method IsDominated(tree: array<Option<int>>, ranks: map<int, nat>, total: Yield, ghost kept: set<Yield>,
                     ghost all: set<Yield>, ghost rest: set<Yield>) returns (dominated: bool)
    requires Pruned(kept, all, rest) && total in rest && Ranks(ranks, all, tree.Length, total)
    requires forall t | t in kept :: t.minerals in ranks && 1 <= ranks[t.minerals]
    requires Tree(tree[..], Points(kept, ranks))
    ensures dominated <==> Covered(total, kept)
  {
    hide Pruned, Tree, MaxIn, Covered, Points, LowBit;
    var maximum := Query(tree, ranks[total.minerals], Points(kept, ranks));
    SkipIffDominated(kept, all, rest, total, ranks, tree.Length, maximum);
    dominated := maximum.Some? && maximum.value >= total.energy;
  }

  /** Keep a total and record it in the tree. */
  method Keep(tree: array<Option<int>>, ranks: map<int, nat>, total: Yield, ghost kept: set<Yield>,
              ghost all: set<Yield>, ghost rest: set<Yield>)
    requires Pruned(kept, all, rest) && total in rest && !Covered(total, kept)
    requires forall u | u in rest :: u == total || Precedes(u, total)
    requires forall t | t in kept + {total} :: t.minerals in ranks
    requires 1 <= ranks[total.minerals] < tree.Length
    requires Tree(tree[..], Points(kept, ranks))
    modifies tree
    ensures Tree(tree[..], Points(kept + {total}, ranks))
    ensures Pruned(kept + {total}, all, rest - {total}) && total !in kept
  {
    hide Pruned, Covered, Tree, MaxIn, Points, LowBit;
    Keeps(kept, all, rest, total);
    Insert(tree, ranks[total.minerals], total.energy, Points(kept, ranks));
    PointsGrow(kept, total, ranks);
  }

  /** Process one total: keep it unless a kept one dominates it. */
  method Consider(tree: array<Option<int>>, ranks: map<int, nat>, total: Yield, ghost kept: set<Yield>,
                  ghost all: set<Yield>, ghost rest: set<Yield>) returns (keep: bool)
    requires Pruned(kept, all, rest) && total in rest
    requires forall u | u in rest :: u == total || Precedes(u, total)
    requires forall t | t in all :: Ranks(ranks, all, tree.Length, t)
    requires kept <= all && rest <= all
    requires forall t | t in all :: t.minerals in ranks && 1 <= ranks[t.minerals] < tree.Length
    requires Tree(tree[..], Points(kept, ranks))
    modifies tree
    ensures keep <==> !Covered(total, kept)
    ensures Pruned(if keep then kept + {total} else kept, all, rest - {total}) && (keep ==> total !in kept)
    ensures Tree(tree[..], Points(if keep then kept + {total} else kept, ranks))
  {
    hide Pruned, Covered, Tree, MaxIn, Points, LowBit, Ranks, Precedes;
    var dominated := IsDominated(tree, ranks, total, kept, all, rest);
    keep := !dominated;
    if keep {
      Keep(tree, ranks, total, kept, all, rest);
    } else {
      Skips(kept, all, rest, total);
    }
  }

  /** What is kept was a candidate, with its allocation. */
  ghost predicate Chosen(frontier: Frontier, candidates: Frontier) {
    frontier.Keys <= candidates.Keys && forall t | t in frontier :: frontier[t] == candidates[t]
  }

  lemma NothingChosen(candidates: Frontier)
    ensures Chosen(map[], candidates)
  {}

  lemma ChosenKeys(frontier: Frontier, candidates: Frontier)
    requires Chosen(frontier, candidates)
    ensures frontier.Keys <= candidates.Keys && forall t | t in frontier :: frontier[t] == candidates[t]
  {}

  lemma OneMoreChosen(frontier: Frontier, candidates: Frontier, total: Yield)
    requires Chosen(frontier, candidates) && total in candidates && total !in frontier
    ensures var more := frontier[total := candidates[total]];
      Chosen(more, candidates) && more.Keys == frontier.Keys + {total} && |more| == |frontier| + 1
  {
    var more := frontier[total := candidates[total]];
    assert more.Keys == frontier.Keys + {total};
    assert |more.Keys| == |frontier.Keys| + 1;
  }

  /** Keep the Pareto-maximal candidates, unless the safety cap stops the scan. */
  method Prune(candidates: Frontier) returns (frontier: Frontier, full: bool)
    ensures frontier.Keys <= candidates.Keys && forall t | t in frontier :: frontier[t] == candidates[t]
    ensures |frontier| <= FRONTIER_LIMIT && (full <==> |frontier| == FRONTIER_LIMIT)
    ensures full <==> |Maximal(candidates.Keys)| >= FRONTIER_LIMIT
    ensures !full ==> frontier.Keys == Maximal(candidates.Keys)
  {
    hide Sorted, Pruned, Ranks, Tree, MaxIn, Covered, Points, Maximal, Precedes, Dominates, LowBit, Chosen;
    ghost var all := candidates.Keys;
    var ranks, cells := RankMinerals(candidates.Keys);
    InRange(ranks, all, cells);
    var tree := new Option<int>[cells](_ => None);
    var order := SortDescending(candidates.Keys);
    frontier, full := map[], false;
    ghost var rest := all;
    EmptyTree(tree[..]);
    NothingPruned(all);
    NoPoints(ranks);
    NothingChosen(candidates);
    while order != [] && !full
      invariant Sorted(order, rest) && rest <= all && frontier.Keys <= all && Chosen(frontier, candidates)
      invariant |frontier| <= FRONTIER_LIMIT && (full <==> |frontier| == FRONTIER_LIMIT)
      invariant Pruned(frontier.Keys, all, rest)
      invariant Tree(tree[..], Points(frontier.Keys, ranks))
      decreases |order|
    {
      var total := order[0];
      Head(order, rest);
      var keep := Consider(tree, ranks, total, frontier.Keys, all, rest);
      if keep {
        OneMoreChosen(frontier, candidates, total);
        frontier := frontier[total := candidates[total]];
        full := |frontier| >= FRONTIER_LIMIT;
      }
      order, rest := order[1..], rest - {total};
    }
    ChosenKeys(frontier, candidates);
    KeptAreMaximal(frontier.Keys, all, rest);
    assert |frontier.Keys| == |frontier|;
    if !full {
      SortedNothing(order, rest);
      PrunedIsMaximal(frontier.Keys, all);
    }
  }

  // ----- The knapsack ------------------------------------------------------------------------

  /** What holds of the totals kept for `w` workers once `n` squares are processed: each is attained as
      recorded, and unless the cap was hit they are exactly the Pareto-maximal subset totals. */
  ghost predicate Layer(usable: seq<Worker>, n: nat, w: nat, kept: Frontier, capped: bool)
    requires n <= |usable|
  {
    && (forall t | t in kept :: Attains(usable, n, w, t, kept[t]))
    && (!capped ==> kept.Keys == Maximal(Sums(Outputs(usable), n, w)))
  }

  lemma TotalIsLocal(outs: seq<Yield>, picks: seq<nat>, p: nat)
    requires (forall a | 0 <= a < |picks| :: picks[a] < |outs|) && p < |outs|
    ensures Total(outs, picks + [p]) == Add(Total(outs, picks), outs[p])
  {
    assert (picks + [p])[..|picks|] == picks;
  }

  lemma PickOneMore(usable: seq<Worker>, n: nat, w: nat, total: Yield, allocation: seq<Ref>, picks: seq<nat>)
    requires n < |usable| && PicksAs(usable, n, w, total, allocation, picks)
    ensures PicksAs(usable, n + 1, w + 1, Add(total, usable[n].output), allocation + [usable[n].ref], picks + [n])
  {
    hide Total, Add;
    var more, named := picks + [n], allocation + [usable[n].ref];
    assert forall a, b | 0 <= a < b < |more| :: more[a] < more[b];
    forall a | 0 <= a < w + 1 ensures more[a] < n + 1 && named[a] == usable[more[a]].ref {
      assert a < w ==> more[a] == picks[a] && named[a] == allocation[a];
    }
    TotalIsLocal(Outputs(usable), picks, n);
  }

  lemma UsesOneMore(usable: seq<Worker>, n: nat, w: nat, total: Yield, allocation: seq<Ref>)
    requires n < |usable| && Attains(usable, n, w, total, allocation)
    ensures Attains(usable, n + 1, w, total, allocation)
    ensures Attains(usable, n + 1, w + 1, Add(total, usable[n].output), allocation + [usable[n].ref])
  {
    var picks :| PicksAs(usable, n, w, total, allocation, picks);
    assert PicksAs(usable, n + 1, w, total, allocation, picks);
    PickOneMore(usable, n, w, total, allocation, picks);
  }

  /** A candidate keeps the allocation it had, or extends one of a worker less. */
  ghost predicate Extends(candidates: Frontier, here: Frontier, below: Frontier, square: Worker, t: Yield)
    requires t in candidates
  {
    if t in here then candidates[t] == here[t]
    else exists p | p in below :: Add(p, square.output) == t && candidates[t] == below[p] + [square.ref]
  }

  /** The totals of the square left out, then those of the square worked; the first allocation found
      for a total stays. */
  method Candidates(here: Frontier, below: Frontier, square: Worker) returns (candidates: Frontier)
    ensures candidates.Keys == here.Keys + Shift(below.Keys, square.output)
    ensures forall t | t in candidates :: Extends(candidates, here, below, square, t)
  {
    candidates := here;
    var todo := below.Keys;
    while todo != {}
      invariant todo <= below.Keys
      invariant candidates.Keys == here.Keys + Shift(below.Keys - todo, square.output)
      invariant forall t | t in candidates :: Extends(candidates, here, below, square, t)
      decreases todo
    {
      var prior :| prior in todo;
      var total := Add(prior, square.output);
      assert Shift(below.Keys - (todo - {prior}), square.output) == Shift(below.Keys - todo, square.output) + {total};
      if total !in candidates {
        ghost var before := candidates;
        candidates := candidates[total := below[prior] + [square.ref]];
        forall t | t in candidates ensures Extends(candidates, here, below, square, t) {
          assert t in before ==> Extends(before, here, below, square, t);
        }
      }
      todo := todo - {prior};
    }
    assert below.Keys - todo == below.Keys;
  }

  lemma OneMoreSquare(outs: seq<Yield>, n: nat, w: nat)
    requires n < |outs| && 0 < w
    ensures Sums(outs, n + 1, w) == Sums(outs, n, w) + Shift(Sums(outs, n, w - 1), outs[n])
  {}

  lemma LayerGrows(usable: seq<Worker>, n: nat, w: nat, here: Frontier, below: Frontier, candidates: Frontier,
                   kept: Frontier, capped: bool, full: bool)
    requires n < |usable| && 0 < w && Layer(usable, n, w, here, capped) && Layer(usable, n, w - 1, below, capped)
    requires candidates.Keys == here.Keys + Shift(below.Keys, usable[n].output)
    requires forall t | t in candidates :: Extends(candidates, here, below, usable[n], t)
    requires kept.Keys <= candidates.Keys && forall t | t in kept :: kept[t] == candidates[t]
    requires !full ==> kept.Keys == Maximal(candidates.Keys)
    ensures Layer(usable, n + 1, w, kept, capped || full)
    ensures !capped ==> Maximal(candidates.Keys) == Maximal(Sums(Outputs(usable), n + 1, w))
  {
    hide Attains, Maximal, Shift, Sums, PicksAs;
    var outs := Outputs(usable);
    forall t | t in kept ensures Attains(usable, n + 1, w, t, kept[t]) {
      assert Extends(candidates, here, below, usable[n], t);
      if t in here {
        UsesOneMore(usable, n, w, t, here[t]);
      } else {
        var p :| p in below && Add(p, usable[n].output) == t && candidates[t] == below[p] + [usable[n].ref];
        UsesOneMore(usable, n, w - 1, p, below[p]);
      }
    }
    if !capped {
      PruneBeforeUnion(Sums(outs, n, w), Sums(outs, n, w - 1), outs[n]);
      OneMoreSquare(outs, n, w);
    }
  }

  lemma NoWorkers(usable: seq<Worker>, n: nat, capped: bool)
    requires n <= |usable|
    ensures Layer(usable, n, 0, map[ZERO := []], capped)
  {
    assert PicksAs(usable, n, 0, ZERO, [], []);
  }

  lemma NoSquares(usable: seq<Worker>, w: nat)
    requires 0 < w
    ensures Layer(usable, 0, w, map[], false)
  {}

  lemma CapWeakens(usable: seq<Worker>, n: nat, w: nat, kept: Frontier, capped: bool, full: bool)
    requires n <= |usable| && Layer(usable, n, w, kept, capped)
    ensures Layer(usable, n, w, kept, capped || full)
  {}

  /** The first `n` usable squares have the cap's number of maximal totals for `w` workers, or more. */
  ghost predicate Crowded(usable: seq<Worker>, n: nat, w: nat) {
    n <= |usable| && |Maximal(Sums(Outputs(usable), n, w))| >= FRONTIER_LIMIT
  }

  ghost predicate EverCrowded(usable: seq<Worker>, n: nat, population: nat) {
    exists m, w | 0 < m <= n && 0 < w <= population :: Crowded(usable, m, w)
  }

  /** Some layer of square `n` down to `low` workers is crowded. */
  ghost predicate NowCrowded(usable: seq<Worker>, n: nat, low: nat, population: nat) {
    exists w | low < w <= population :: Crowded(usable, n, w)
  }

  lemma FullIsCrowded(usable: seq<Worker>, n: nat, w: nat, candidates: Frontier, full: bool)
    requires n <= |usable| && (full <==> |Maximal(candidates.Keys)| >= FRONTIER_LIMIT)
    ensures Maximal(candidates.Keys) == Maximal(Sums(Outputs(usable), n, w)) ==> (full <==> Crowded(usable, n, w))
  {}

  lemma OneMoreLayer(usable: seq<Worker>, n: nat, low: nat, population: nat)
    requires low <= population
    ensures !NowCrowded(usable, n, population, population)
    ensures 0 < low ==> (NowCrowded(usable, n, low - 1, population)
                         <==> NowCrowded(usable, n, low, population) || Crowded(usable, n, low))
    ensures !EverCrowded(usable, 0, population)
    ensures EverCrowded(usable, n + 1, population)
       <==> EverCrowded(usable, n, population) || NowCrowded(usable, n + 1, 0, population)
  {
    hide Crowded;
    if 0 < low && NowCrowded(usable, n, low - 1, population) {
      var w :| low - 1 < w <= population && Crowded(usable, n, w);
      assert w == low || low < w;
    }
    if EverCrowded(usable, n + 1, population) {
      var m, w :| 0 < m <= n + 1 && 0 < w <= population && Crowded(usable, m, w);
      assert m == n + 1 || m <= n;
    }
  }

  // The same total output by output.

  ghost function NutrientsOf(usable: seq<Worker>, picks: seq<nat>): int
    requires forall a | 0 <= a < |picks| :: picks[a] < |usable|
  {
    if picks == [] then 0
    else NutrientsOf(usable, picks[..|picks| - 1]) + usable[picks[|picks| - 1]].output.nutrients
  }

  ghost function MineralsOf(usable: seq<Worker>, picks: seq<nat>): int
    requires forall a | 0 <= a < |picks| :: picks[a] < |usable|
  {
    if picks == [] then 0
    else MineralsOf(usable, picks[..|picks| - 1]) + usable[picks[|picks| - 1]].output.minerals
  }

  ghost function EnergyOf(usable: seq<Worker>, picks: seq<nat>): int
    requires forall a | 0 <= a < |picks| :: picks[a] < |usable|
  {
    if picks == [] then 0
    else EnergyOf(usable, picks[..|picks| - 1]) + usable[picks[|picks| - 1]].output.energy
  }

  ghost predicate AddsUp(usable: seq<Worker>, w: nat, t: Yield, allocation: seq<Ref>, picks: seq<nat>) {
    && |picks| == |allocation| == w
    && (forall a | 0 <= a < w :: picks[a] < |usable| && allocation[a] == usable[picks[a]].ref)
    && (forall a, b | 0 <= a < b < w :: picks[a] < picks[b])
    && t.nutrients == NutrientsOf(usable, picks)
    && t.minerals == MineralsOf(usable, picks)
    && t.energy == EnergyOf(usable, picks)
  }

  /** The allocation names `w` different squares, and `t` is in each output the sum of what they yield. */
  ghost predicate Recorded(usable: seq<Worker>, w: nat, t: Yield, allocation: seq<Ref>) {
    exists picks :: AddsUp(usable, w, t, allocation, picks)
  }

  lemma {:induction false} TotalByOutput(usable: seq<Worker>, picks: seq<nat>)
    requires forall a | 0 <= a < |picks| :: picks[a] < |usable|
    ensures Total(Outputs(usable), picks).nutrients == NutrientsOf(usable, picks)
    ensures Total(Outputs(usable), picks).minerals == MineralsOf(usable, picks)
    ensures Total(Outputs(usable), picks).energy == EnergyOf(usable, picks)
  {
    if picks == [] {
    } else {
      TotalByOutput(usable, picks[..|picks| - 1]);
    }
  }

  lemma LayerIsRecorded(usable: seq<Worker>, w: nat, kept: Frontier, capped: bool)
    requires Layer(usable, |usable|, w, kept, capped)
    ensures forall t | t in kept :: Recorded(usable, w, t, kept[t])
  {
    forall t | t in kept ensures Recorded(usable, w, t, kept[t]) {
      assert Attains(usable, |usable|, w, t, kept[t]);
      var picks :| PicksAs(usable, |usable|, w, t, kept[t], picks);
      TotalByOutput(usable, picks);
      assert AddsUp(usable, w, t, kept[t], picks);
    }
  }

  lemma AllRecorded(usable: seq<Worker>, population: nat, states: seq<Frontier>, capped: bool)
    requires |states| == population + 1
    requires forall w | 0 <= w <= population :: Layer(usable, |usable|, w, states[w], capped)
    ensures forall w, t | 0 <= w <= population && t in states[w] :: Recorded(usable, w, t, states[w][t])
  {
    hide Layer, Recorded;
    forall w | 0 <= w <= population ensures forall t | t in states[w] :: Recorded(usable, w, t, states[w][t]) {
      LayerIsRecorded(usable, w, states[w], capped);
    }
  }

  /** The kept totals for every worker count up to `population`. Whatever the cap does each of them is
      attained by the recorded squares; while it is not hit they are exactly the Pareto frontier. */
  method Frontiers(usable: seq<Worker>, population: nat) returns (states: seq<Frontier>, capped: bool)
    ensures |states| == population + 1
    ensures forall w | 0 <= w <= population :: Layer(usable, |usable|, w, states[w], capped)
    ensures forall w, t | 0 <= w <= population && t in states[w] :: Recorded(usable, w, t, states[w][t])
    ensures capped <==> EverCrowded(usable, |usable|, population)
  {
    hide Layer, Recorded, Crowded, EverCrowded, NowCrowded, Maximal, Sums;
    states, capped := [map[ZERO := []]] + seq(population, _ => map[]), false;
    NoWorkers(usable, 0, false);
    OneMoreLayer(usable, 0, 0, population);
    forall w | 1 <= w <= population ensures Layer(usable, 0, w, states[w], false) { NoSquares(usable, w); }
    for n := 0 to |usable|
      invariant |states| == population + 1 && states[0] == map[ZERO := []]
      invariant forall w | 0 <= w <= population :: Layer(usable, n, w, states[w], capped)
      invariant capped <==> EverCrowded(usable, n, population)
    {
      var workers := population;
      ghost var before := capped;
      OneMoreLayer(usable, n + 1, workers, population);
      while workers > 0
        invariant 0 <= workers <= population
        invariant |states| == population + 1 && states[0] == map[ZERO := []]
        invariant forall w | 0 <= w <= workers :: Layer(usable, n, w, states[w], capped)
        invariant forall w | workers < w <= population :: Layer(usable, n + 1, w, states[w], capped)
        invariant capped <==> before || NowCrowded(usable, n + 1, workers, population)
      {
        var candidates := Candidates(states[workers], states[workers - 1], usable[n]);
        var kept, full := Prune(candidates);
        LayerGrows(usable, n, workers, states[workers], states[workers - 1], candidates, kept, capped, full);
        forall w | 0 <= w < workers ensures Layer(usable, n, w, states[w], capped || full) {
          CapWeakens(usable, n, w, states[w], capped, full);
        }
        forall w | workers < w <= population ensures Layer(usable, n + 1, w, states[w], capped || full) {
          CapWeakens(usable, n + 1, w, states[w], capped, full);
        }
        OneMoreLayer(usable, n + 1, workers, population);
        FullIsCrowded(usable, n + 1, workers, candidates, full);
        states, capped := states[workers := kept], capped || full;
        workers := workers - 1;
      }
      NoWorkers(usable, n + 1, capped);
      OneMoreLayer(usable, n, 0, population);
    }
    AllRecorded(usable, population, states, capped);
  }

  /** With a complete frontier every full assignment is matched or bettered in all three outputs. */
  lemma CompleteFrontierDominates(usable: seq<Worker>, w: nat, kept: Frontier, picks: seq<nat>)
    requires Layer(usable, |usable|, w, kept, false) && Picks(picks, |usable|, w)
    ensures Covered(Total(Outputs(usable), picks), kept.Keys)
  {
    var outs := Outputs(usable);
    SumsContainEveryPick(outs, |outs|, w, picks);
    MaximalCovers(Sums(outs, |outs|, w), Total(outs, picks));
  }
}
