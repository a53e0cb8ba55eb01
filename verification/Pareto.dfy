/** Output triples, their dominance order, and the exhaustive reference the frontier is measured against. */
module Pareto {
  datatype Yield = Yield(nutrients: int, minerals: int, energy: int)

  const ZERO := Yield(0, 0, 0)

  function Add(a: Yield, b: Yield): Yield {
    Yield(a.nutrients + b.nutrients, a.minerals + b.minerals, a.energy + b.energy)
  }

  /** Tuple order: nutrients, then minerals, then energy. */
  predicate Precedes(a: Yield, b: Yield) {
    || a.nutrients < b.nutrients
    || (a.nutrients == b.nutrients && (a.minerals < b.minerals || (a.minerals == b.minerals && a.energy < b.energy)))
  }

  predicate Dominates(a: Yield, b: Yield) {
    a.nutrients >= b.nutrients && a.minerals >= b.minerals && a.energy >= b.energy
  }

  ghost predicate Covered(t: Yield, s: set<Yield>) {
    exists u | u in s :: Dominates(u, t)
  }

  /** The members that nothing else in the set dominates. */
  ghost function Maximal(s: set<Yield>): set<Yield> {
    set t | t in s && forall u | u in s && Dominates(u, t) :: u == t
  }

  ghost function Shift(s: set<Yield>, o: Yield): set<Yield> {
    set t | t in s :: Add(t, o)
  }

  // ----- Exhaustive enumeration --------------------------------------------------------------

  /** `picks` names `w` different positions below `n`, in increasing order. */
  ghost predicate Picks(picks: seq<nat>, n: nat, w: nat) {
    && |picks| == w
    && (forall a | 0 <= a < |picks| :: picks[a] < n)
    && (forall a, b | 0 <= a < b < |picks| :: picks[a] < picks[b])
  }

  ghost function Total(outs: seq<Yield>, picks: seq<nat>): Yield
    requires forall a | 0 <= a < |picks| :: picks[a] < |outs|
  {
    if picks == [] then ZERO
    else Add(Total(outs, picks[..|picks| - 1]), outs[picks[|picks| - 1]])
  }

  /** The sums of all `w`-subsets of the first `n` outputs. */
  ghost function Sums(outs: seq<Yield>, n: nat, w: nat): set<Yield>
    requires n <= |outs|
  {
    if w == 0 then {ZERO}
    else if n == 0 then {}
    else Sums(outs, n - 1, w) + Shift(Sums(outs, n - 1, w - 1), outs[n - 1])
  }

  lemma {:induction false} SumsContainEveryPick(outs: seq<Yield>, n: nat, w: nat, picks: seq<nat>)
    requires n <= |outs| && Picks(picks, n, w)
    ensures Total(outs, picks) in Sums(outs, n, w)
    decreases n
  {
    if w == 0 {
    } else {
      var front, last := picks[..w - 1], picks[w - 1];
      if last == n - 1 {
        SumsContainEveryPick(outs, n - 1, w - 1, front);
        assert Total(outs, picks) == Add(Total(outs, front), outs[last]);
      } else {
        forall a | 0 <= a < w ensures picks[a] < n - 1 { assert a < w - 1 ==> picks[a] < picks[w - 1]; }
        SumsContainEveryPick(outs, n - 1, w, picks);
      }
    }
  }

  lemma {:induction false} EverySumIsPicked(outs: seq<Yield>, n: nat, w: nat, t: Yield) returns (picks: seq<nat>)
    requires n <= |outs| && t in Sums(outs, n, w)
    ensures Picks(picks, n, w) && Total(outs, picks) == t
    decreases n
  {
    if w == 0 {
      picks := [];
    } else if t in Sums(outs, n - 1, w) {
      picks := EverySumIsPicked(outs, n - 1, w, t);
    } else {
      var u :| u in Sums(outs, n - 1, w - 1) && Add(u, outs[n - 1]) == t;
      var front := EverySumIsPicked(outs, n - 1, w - 1, u);
      picks := front + [n - 1];
      assert picks[..w - 1] == front;
    }
  }

  /** The recursive sums are exactly the totals of all `w`-subsets. */
  lemma SumsAreSubsetTotals(outs: seq<Yield>, w: nat, t: Yield)
    ensures t in Sums(outs, |outs|, w) <==> exists picks :: Picks(picks, |outs|, w) && Total(outs, picks) == t
  {
    if t in Sums(outs, |outs|, w) {
      var picks := EverySumIsPicked(outs, |outs|, w, t);
    }
    forall picks | Picks(picks, |outs|, w) && Total(outs, picks) == t ensures t in Sums(outs, |outs|, w) {
      SumsContainEveryPick(outs, |outs|, w, picks);
    }
  }

  // ----- Pareto algebra ----------------------------------------------------------------------

  /** In a finite set every total is dominated by a maximal one. */
  lemma {:induction false} MaximalCovers(s: set<Yield>, t: Yield)
    requires t in s
    ensures exists u :: u in Maximal(s) && Dominates(u, t)
    decreases set u | u in s && Dominates(u, t) && u != t
  {
    if u :| u in s && Dominates(u, t) && u != t {
      var above := set v | v in s && Dominates(v, t) && v != t;
      var higher := set v | v in s && Dominates(v, u) && v != u;
      assert u in above && u !in higher;
      assert higher <= above;
      MaximalCovers(s, u);
      var m :| m in Maximal(s) && Dominates(m, u);
      assert Dominates(m, t);
    } else {
      assert t in Maximal(s);
    }
  }

  lemma PrunedCovers(a: set<Yield>, b: set<Yield>, o: Yield, t: Yield)
    requires t in a + Shift(b, o)
    ensures Covered(t, Maximal(a) + Shift(Maximal(b), o))
  {
    if t in a {
      MaximalCovers(a, t);
      var u :| u in Maximal(a) && Dominates(u, t);
    } else {
      var p :| p in b && Add(p, o) == t;
      MaximalCovers(b, p);
      var u :| u in Maximal(b) && Dominates(u, p);
      assert Add(u, o) in Shift(Maximal(b), o) && Dominates(Add(u, o), t);
    }
  }

  /** A subset that covers the whole set has the same maximal members. */
  lemma SameMaximal(part: set<Yield>, all: set<Yield>)
    requires part <= all && forall t | t in all :: Covered(t, part)
    ensures Maximal(part) == Maximal(all)
  {
    forall t | t in Maximal(part) ensures t in Maximal(all) {
      forall u | u in all && Dominates(u, t) ensures u == t {
        assert Covered(u, part);
        var v :| v in part && Dominates(v, u);
        assert Dominates(v, t);
      }
    }
    forall t | t in Maximal(all) ensures t in Maximal(part) {
      assert Covered(t, part);
    }
  }

  /** Pruning each part before the union loses no maximal total. */
  lemma PruneBeforeUnion(a: set<Yield>, b: set<Yield>, o: Yield)
    ensures Maximal(Maximal(a) + Shift(Maximal(b), o)) == Maximal(a + Shift(b, o))
  {
    var pruned, all := Maximal(a) + Shift(Maximal(b), o), a + Shift(b, o);
    assert pruned <= all;
    forall t | t in all ensures Covered(t, pruned) { PrunedCovers(a, b, o, t); }
    SameMaximal(pruned, all);
  }

  /** What covers a set and has no internal dominance is its set of maximal members. */
  lemma AntichainCoverIsMaximal(kept: set<Yield>, all: set<Yield>)
    requires kept <= all && forall t | t in all :: Covered(t, kept)
    requires forall u, t | u in kept && t in kept && Dominates(u, t) :: u == t
    ensures kept == Maximal(all)
  {
    SameMaximal(kept, all);
    assert Maximal(kept) == kept;
  }
}
