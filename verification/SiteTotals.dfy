/** The squares of a base site, and what choosing some of them yields. */
module SiteTotals {
  import opened Wrappers
  import opened Pareto
  import opened Counterfactual

  /** A square as described to the planner: `ref` and `output` are absent when malformed or unknown,
      `known` is an epistemic status of current or conditional. */
  datatype Square = Square(ref: Option<Ref>, workable: bool, known: bool, output: Option<Yield>)

  predicate Counts(square: Square) {
    square.workable && square.known && square.output.Some?
  }

  predicate Named(square: Square) {
    square.ref.Some? && square.ref.value != ""
  }

  /** Every square is named, none twice and none like the center. */
  ghost predicate Distinct(squares: seq<Square>, center: Square) {
    && (forall a | 0 <= a < |squares| :: Named(squares[a]) && squares[a].ref != center.ref)
    && (forall a, b | 0 <= a < b < |squares| :: squares[a].ref != squares[b].ref)
  }

  /** The workers that the first `n` squares offer. */
  ghost function Workers(squares: seq<Square>, n: nat): seq<Worker>
    requires n <= |squares| && forall a | 0 <= a < n :: Named(squares[a])
  {
    if n == 0 then []
    else
      assert Named(squares[n - 1]);
      if Counts(squares[n - 1])
      then Workers(squares, n - 1) + [Worker(squares[n - 1].ref.value, squares[n - 1].output.value)]
      else Workers(squares, n - 1)
  }

  /** Some square other than the center offers this reference. */
  ghost predicate Offered(squares: seq<Square>, n: nat, center: Square, ref: Ref) {
    && n <= |squares| && Some(ref) != center.ref
    && exists a | 0 <= a < n :: squares[a].ref == Some(ref) && Counts(squares[a])
  }

  lemma {:induction false} WorkersAreOffered(squares: seq<Square>, n: nat, center: Square)
    requires n <= |squares| && Distinct(squares[..n], center)
    ensures forall k | 0 <= k < |Workers(squares, n)| :: Offered(squares, n, center, Workers(squares, n)[k].ref)
    ensures forall j, k | 0 <= j < k < |Workers(squares, n)| :: Workers(squares, n)[j].ref != Workers(squares, n)[k].ref
  {
    if n == 0 {
    } else {
      assert squares[..n][n - 1] == squares[n - 1] && squares[..n][..n - 1] == squares[..n - 1];
      WorkersAreOffered(squares, n - 1, center);
      var before, after := Workers(squares, n - 1), Workers(squares, n);
      forall k | 0 <= k < |after| ensures Offered(squares, n, center, after[k].ref) {
        assert k < |before| ==> Offered(squares, n - 1, center, before[k].ref);
      }
      forall k | 0 <= k < |before| ensures before[k].ref != squares[n - 1].ref.value {
        assert Offered(squares, n - 1, center, before[k].ref);
        var a :| 0 <= a < n - 1 && squares[a].ref == Some(before[k].ref);
        assert squares[..n][a].ref != squares[..n][n - 1].ref;
      }
    }
  }

  // ----- What a report says of the squares themselves ----------------------------------------

  /** What the first `n` squares yield when exactly those named in `chosen` are worked, output by output. */
  ghost function Nutrients(squares: seq<Square>, n: nat, chosen: set<Ref>): int
    requires n <= |squares|
  {
    if n == 0 then 0
    else Nutrients(squares, n - 1, chosen) +
         match (squares[n - 1].ref, squares[n - 1].output)
         case (Some(ref), Some(output)) => if ref in chosen then output.nutrients else 0
         case _ => 0
  }

  ghost function Minerals(squares: seq<Square>, n: nat, chosen: set<Ref>): int
    requires n <= |squares|
  {
    if n == 0 then 0
    else Minerals(squares, n - 1, chosen) +
         match (squares[n - 1].ref, squares[n - 1].output)
         case (Some(ref), Some(output)) => if ref in chosen then output.minerals else 0
         case _ => 0
  }

  ghost function Energy(squares: seq<Square>, n: nat, chosen: set<Ref>): int
    requires n <= |squares|
  {
    if n == 0 then 0
    else Energy(squares, n - 1, chosen) +
         match (squares[n - 1].ref, squares[n - 1].output)
         case (Some(ref), Some(output)) => if ref in chosen then output.energy else 0
         case _ => 0
  }

  /** The first `n` squares yield `total` when those named in `chosen` are worked. */
  ghost predicate Together(squares: seq<Square>, n: nat, chosen: set<Ref>, total: Yield) {
    && n <= |squares|
    && total.nutrients == Nutrients(squares, n, chosen)
    && total.minerals == Minerals(squares, n, chosen)
    && total.energy == Energy(squares, n, chosen)
  }

  /** A square with this reference can be worked, its yields are known, and it is not the center. */
  ghost predicate Workable(squares: seq<Square>, center: Square, ref: Ref) {
    && Some(ref) != center.ref
    && exists a | 0 <= a < |squares| ::
         squares[a].ref == Some(ref) && squares[a].workable && squares[a].known && squares[a].output.Some?
  }

  /** A full assignment: as many workable squares as there are citizens. */
  ghost predicate Assignment(squares: seq<Square>, center: Square, population: int, chosen: set<Ref>) {
    |chosen| == population && forall ref | ref in chosen :: Workable(squares, center, ref)
  }

  ghost predicate Attainable(squares: seq<Square>, center: Square, population: int, total: Yield) {
    exists chosen :: Assignment(squares, center, population, chosen) && Together(squares, |squares|, chosen, total)
  }

  /** No full assignment yields as much in every output and more in one. */
  ghost predicate Unbettered(squares: seq<Square>, center: Square, population: int, total: Yield) {
    forall chosen | Assignment(squares, center, population, chosen) ::
      && Nutrients(squares, |squares|, chosen) >= total.nutrients
      && Minerals(squares, |squares|, chosen) >= total.minerals
      && Energy(squares, |squares|, chosen) >= total.energy
      ==> Together(squares, |squares|, chosen, total)
  }

  /** How many of the first `n` squares can be worked and have known yields. */
  ghost function UsableCount(squares: seq<Square>, n: nat): nat
    requires n <= |squares|
  {
    if n == 0 then 0
    else UsableCount(squares, n - 1) +
         if squares[n - 1].workable && squares[n - 1].known && squares[n - 1].output.Some? then 1 else 0
  }

  /** There are 4096 of these totals or more, each attained and bettered by no choice. */
  ghost predicate Crowd(squares: seq<Square>, center: Square, workers: nat, totals: set<Yield>) {
    && |totals| >= 4096
    && forall t | t in totals :: Attainable(squares, center, workers, t) && Unbettered(squares, center, workers, t)
  }

  /** The first `n` squares have a crowd of totals for `workers` citizens. */
  ghost predicate Overflows(squares: seq<Square>, n: nat, center: Square, workers: nat) {
    n <= |squares| && exists totals :: Crowd(squares[..n], center, workers, totals)
  }

  /** The totals retained are attainable, and after a complete search exactly the attainable ones that no
      assignment betters. */
  ghost predicate Retained(squares: seq<Square>, center: Square, population: int, complete: bool, kept: set<Yield>) {
    && (forall t | t in kept :: Attainable(squares, center, population, t))
    && (complete ==> forall t | Attainable(squares, center, population, t) ::
          t in kept <==> Unbettered(squares, center, population, t))
  }

  // ----- Assignments and subset totals -------------------------------------------------------

  lemma {:induction false} OthersDoNotMatter(squares: seq<Square>, n: nat, chosen: set<Ref>, ref: Ref)
    requires n <= |squares| && forall a | 0 <= a < n :: squares[a].ref != Some(ref)
    ensures Nutrients(squares, n, chosen + {ref}) == Nutrients(squares, n, chosen)
    ensures Minerals(squares, n, chosen + {ref}) == Minerals(squares, n, chosen)
    ensures Energy(squares, n, chosen + {ref}) == Energy(squares, n, chosen)
  {
    if n == 0 {
    } else {
      OthersDoNotMatter(squares, n - 1, chosen, ref);
    }
  }

  lemma {:induction false} NothingWorked(squares: seq<Square>, n: nat)
    requires n <= |squares|
    ensures Together(squares, n, {}, ZERO)
  {
    if n == 0 {
    } else {
      NothingWorked(squares, n - 1);
    }
  }

  lemma {:induction false} LaterOutputsDoNotMatter(outs: seq<Yield>, more: seq<Yield>, picks: seq<nat>)
    requires forall a | 0 <= a < |picks| :: picks[a] < |outs|
    ensures Total(outs + more, picks) == Total(outs, picks)
  {
    if picks == [] {
    } else {
      LaterOutputsDoNotMatter(outs, more, picks[..|picks| - 1]);
    }
  }

  /** One square more, not worked. */
  lemma SquareLeftOut(squares: seq<Square>, n: nat, chosen: set<Ref>, total: Yield)
    requires 0 < n <= |squares| && Together(squares, n - 1, chosen, total)
    requires squares[n - 1].ref.Some? ==> squares[n - 1].ref.value !in chosen
    ensures Together(squares, n, chosen, total)
  {}

  /** One square more, worked. */
  lemma SquareWorked(squares: seq<Square>, n: nat, chosen: set<Ref>, total: Yield, ref: Ref)
    requires 0 < n <= |squares| && Together(squares, n - 1, chosen, total) && ref !in chosen
    requires squares[n - 1].ref == Some(ref) && squares[n - 1].output.Some?
    requires forall a | 0 <= a < n - 1 :: squares[a].ref != Some(ref)
    ensures Together(squares, n, chosen + {ref}, Add(total, squares[n - 1].output.value))
  {
    OthersDoNotMatter(squares, n - 1, chosen, ref);
  }

  ghost function Refs(usable: seq<Worker>, picks: seq<nat>): set<Ref>
    requires forall a | 0 <= a < |picks| :: picks[a] < |usable|
  {
    set a | 0 <= a < |picks| :: usable[picks[a]].ref
  }

  lemma EarlierSquaresDiffer(squares: seq<Square>, n: nat, center: Square)
    requires 0 < n <= |squares| && Distinct(squares[..n], center)
    ensures Distinct(squares[..n - 1], center) && Named(squares[n - 1])
    ensures forall a | 0 <= a < n - 1 :: squares[a].ref != squares[n - 1].ref
  {
    assert squares[..n][n - 1] == squares[n - 1] && squares[..n][..n - 1] == squares[..n - 1];
    forall a | 0 <= a < n - 1 ensures squares[a].ref != squares[n - 1].ref {
      assert squares[..n][a].ref != squares[..n][n - 1].ref;
    }
  }

  lemma LastIsNew(squares: seq<Square>, n: nat, center: Square, picks: seq<nat>)
    requires 0 < n <= |squares| && Distinct(squares[..n - 1], center) && Named(squares[n - 1])
    requires forall a | 0 <= a < n - 1 :: squares[a].ref != squares[n - 1].ref
    requires forall a | 0 <= a < |picks| :: picks[a] < |Workers(squares, n - 1)|
    ensures squares[n - 1].ref.value !in Refs(Workers(squares, n - 1), picks)
  {
    var usable := Workers(squares, n - 1);
    WorkersAreOffered(squares, n - 1, center);
    forall a | 0 <= a < |picks| ensures usable[picks[a]].ref != squares[n - 1].ref.value {
      assert Offered(squares, n - 1, center, usable[picks[a]].ref);
    }
  }

  /** Choices among the earlier workers total and name the same with one square more. */
  lemma EarlierPicks(squares: seq<Square>, n: nat, picks: seq<nat>)
    requires 0 < n <= |squares| && forall a | 0 <= a < n :: Named(squares[a])
    requires forall a | 0 <= a < |picks| :: picks[a] < |Workers(squares, n - 1)|
    ensures |Workers(squares, n - 1)| <= |Workers(squares, n)|
    ensures Total(Outputs(Workers(squares, n)), picks) == Total(Outputs(Workers(squares, n - 1)), picks)
    ensures Refs(Workers(squares, n), picks) == Refs(Workers(squares, n - 1), picks)
  {
    var before, after := Workers(squares, n - 1), Workers(squares, n);
    LaterOutputsDoNotMatter(Outputs(before), Outputs(after)[|before|..], picks);
    assert Outputs(after) == Outputs(before) + Outputs(after)[|before|..];
  }

  /** The choice of the newest worker beside earlier ones. */
  lemma NewestPick(squares: seq<Square>, n: nat, front: seq<nat>)
    requires 0 < n <= |squares| && (forall a | 0 <= a < n :: Named(squares[a])) && Counts(squares[n - 1])
    requires forall a | 0 <= a < |front| :: front[a] < |Workers(squares, n - 1)|
    ensures |Workers(squares, n)| == |Workers(squares, n - 1)| + 1
    ensures var after, picks := Workers(squares, n), front + [|Workers(squares, n - 1)|];
      && Total(Outputs(after), picks)
         == Add(Total(Outputs(Workers(squares, n - 1)), front), squares[n - 1].output.value)
      && Refs(after, picks) == Refs(Workers(squares, n - 1), front) + {squares[n - 1].ref.value}
  {
    var before, after := Workers(squares, n - 1), Workers(squares, n);
    EarlierPicks(squares, n, front);
    TotalIsLocal(Outputs(after), front, |before|);
    var picks := front + [|before|];
    assert picks[|front|] == |before|;
    forall ref | ref in Refs(after, picks) ensures ref in Refs(before, front) + {squares[n - 1].ref.value} {
      var a :| 0 <= a < |picks| && after[picks[a]].ref == ref;
      assert a < |front| ==> picks[a] == front[a] && after[front[a]] == before[front[a]];
    }
    forall ref | ref in Refs(before, front) ensures ref in Refs(after, picks) {
      var a :| 0 <= a < |front| && before[front[a]].ref == ref;
      assert picks[a] == front[a] && after[front[a]] == before[front[a]];
    }
  }

  /** The first `n` squares are named, none twice and none like the center. */
  ghost predicate WellNamed(squares: seq<Square>, n: nat, center: Square) {
    && n <= |squares| && Distinct(squares[..n], center) && (forall a | 0 <= a < n :: Named(squares[a]))
  }

  lemma DistinctIsWellNamed(squares: seq<Square>, center: Square)
    requires Distinct(squares, center)
    ensures WellNamed(squares, |squares|, center)
  {
    assert squares[..|squares|] == squares;
  }

  lemma EarlierWellNamed(squares: seq<Square>, n: nat, center: Square)
    requires 0 < n && WellNamed(squares, n, center)
    ensures WellNamed(squares, n - 1, center)
  {
    EarlierSquaresDiffer(squares, n, center);
  }

  /** The choice `picks` of workers and the choice `chosen` of squares are the same. */
  ghost predicate SameChoice(squares: seq<Square>, n: nat, picks: seq<nat>, chosen: set<Ref>) {
    && n <= |squares| && (forall a | 0 <= a < n :: Named(squares[a]))
    && Picks(picks, |Workers(squares, n)|, |chosen|) && Refs(Workers(squares, n), picks) == chosen
    && Together(squares, n, chosen, Total(Outputs(Workers(squares, n)), picks))
  }

  lemma NoChoice(squares: seq<Square>, n: nat, center: Square)
    requires WellNamed(squares, n, center)
    ensures SameChoice(squares, n, [], {})
  {
    NothingWorked(squares, n);
    assert Refs(Workers(squares, n), []) == {};
  }

  lemma ChoiceWithout(squares: seq<Square>, n: nat, center: Square, picks: seq<nat>, chosen: set<Ref>)
    requires 0 < n && WellNamed(squares, n, center) && SameChoice(squares, n - 1, picks, chosen)
    ensures SameChoice(squares, n, picks, chosen)
  {
    hide Distinct, Together;
    EarlierSquaresDiffer(squares, n, center);
    LastIsNew(squares, n, center, picks);
    EarlierPicks(squares, n, picks);
    SquareLeftOut(squares, n, chosen, Total(Outputs(Workers(squares, n - 1)), picks));
  }

  lemma OnePickMore(front: seq<nat>, n: nat)
    requires Picks(front, n, |front|)
    ensures Picks(front + [n], n + 1, |front| + 1)
  {}

  lemma ChoiceWith(squares: seq<Square>, n: nat, center: Square, front: seq<nat>, rest: set<Ref>)
    requires 0 < n && WellNamed(squares, n, center) && SameChoice(squares, n - 1, front, rest)
    requires Counts(squares[n - 1])
    ensures SameChoice(squares, n, front + [|Workers(squares, n - 1)|], rest + {squares[n - 1].ref.value})
  {
    hide Distinct, Together, Offered, Total;
    EarlierSquaresDiffer(squares, n, center);
    LastIsNew(squares, n, center, front);
    NewestPick(squares, n, front);
    OnePickMore(front, |Workers(squares, n - 1)|);
    SquareWorked(squares, n, rest, Total(Outputs(Workers(squares, n - 1)), front), squares[n - 1].ref.value);
  }

  /** The newest worker is picked last, or the pick is one among the earlier workers. */
  lemma PickCases(squares: seq<Square>, n: nat, picks: seq<nat>)
    requires 0 < n <= |squares| && (forall a | 0 <= a < n :: Named(squares[a])) && picks != []
    requires Picks(picks, |Workers(squares, n)|, |picks|)
    ensures var before, front := |Workers(squares, n - 1)|, picks[..|picks| - 1];
      || Picks(picks, before, |picks|)
      || (Counts(squares[n - 1]) && Picks(front, before, |front|) && picks == front + [before])
  {
    var last := picks[|picks| - 1];
    forall a | 0 <= a < |picks| - 1 ensures picks[a] < last { assert picks[a] < picks[|picks| - 1]; }
  }

  lemma NothingToPick(picks: seq<nat>, n: nat)
    requires Picks(picks, n, |picks|)
    ensures n == 0 ==> picks == []
  {
    if picks != [] {
      assert picks[0] < n;
    }
  }

  /** Each choice of workers is a choice of squares. */
  lemma {:induction false} PicksAreChosen(squares: seq<Square>, n: nat, center: Square, picks: seq<nat>)
    returns (chosen: set<Ref>)
    requires WellNamed(squares, n, center) && Picks(picks, |Workers(squares, n)|, |picks|)
    ensures SameChoice(squares, n, picks, chosen)
    decreases n
  {
    hide Distinct, SameChoice, Picks;
    if picks == [] || n == 0 {
      NothingToPick(picks, |Workers(squares, n)|);
      NoChoice(squares, n, center);
      chosen := {};
    } else {
      EarlierWellNamed(squares, n, center);
      PickCases(squares, n, picks);
      if Picks(picks, |Workers(squares, n - 1)|, |picks|) {
        chosen := PicksAreChosen(squares, n - 1, center, picks);
        ChoiceWithout(squares, n, center, picks, chosen);
      } else {
        var front := picks[..|picks| - 1];
        var rest := PicksAreChosen(squares, n - 1, center, front);
        ChoiceWith(squares, n, center, front, rest);
        chosen := rest + {squares[n - 1].ref.value};
      }
    }
  }

  ghost predicate AmongFirst(squares: seq<Square>, n: nat, ref: Ref) {
    n <= |squares| && exists a | 0 <= a < n :: squares[a].ref == Some(ref) && Counts(squares[a])
  }

  lemma NoneAmongFirst(squares: seq<Square>, chosen: set<Ref>)
    requires forall ref | ref in chosen :: AmongFirst(squares, 0, ref)
    ensures chosen == {}
  {
    assert forall ref | ref in chosen :: AmongFirst(squares, 0, ref);
  }

  lemma AmongEarlier(squares: seq<Square>, n: nat, ref: Ref)
    requires 0 < n <= |squares| && AmongFirst(squares, n, ref) && squares[n - 1].ref != Some(ref)
    ensures AmongFirst(squares, n - 1, ref)
  {}

  lemma LastCounts(squares: seq<Square>, n: nat, center: Square, ref: Ref)
    requires 0 < n && WellNamed(squares, n, center)
    requires AmongFirst(squares, n, ref) && squares[n - 1].ref == Some(ref)
    ensures Counts(squares[n - 1])
  {
    EarlierSquaresDiffer(squares, n, center);
  }

  /** Each choice of workable squares is a choice of workers. */
  lemma {:induction false} ChosenArePicked(squares: seq<Square>, n: nat, center: Square, chosen: set<Ref>)
    returns (picks: seq<nat>)
    requires WellNamed(squares, n, center) && forall ref | ref in chosen :: AmongFirst(squares, n, ref)
    ensures SameChoice(squares, n, picks, chosen)
    decreases n
  {
    hide Distinct, SameChoice, AmongFirst, Counts;
    if n == 0 {
      NoneAmongFirst(squares, chosen);
      NoChoice(squares, n, center);
      picks := [];
    } else {
      EarlierWellNamed(squares, n, center);
      var ref := squares[n - 1].ref.value;
      var rest := chosen - {ref};
      forall x | x in rest ensures AmongFirst(squares, n - 1, x) { AmongEarlier(squares, n, x); }
      var front := ChosenArePicked(squares, n - 1, center, rest);
      if ref in chosen {
        LastCounts(squares, n, center, ref);
        ChoiceWith(squares, n, center, front, rest);
        assert chosen == rest + {ref};
        picks := front + [|Workers(squares, n - 1)|];
      } else {
        assert rest == chosen;
        ChoiceWithout(squares, n, center, front, rest);
        picks := front;
      }
    }
  }

  /** What an allocation of workers names is a full assignment, and its total is what it yields. */
  lemma AllocationIsAssignment(squares: seq<Square>, center: Square, population: nat, total: Yield,
                               workers: seq<Ref>)
    requires Distinct(squares, center)
    requires Attains(Workers(squares, |squares|), |Workers(squares, |squares|)|, population, total, workers)
    ensures |workers| == population && Assignment(squares, center, population, (set ref | ref in workers))
    ensures Together(squares, |squares|, (set ref | ref in workers), total)
  {
    var usable := Workers(squares, |squares|);
    assert squares[..|squares|] == squares;
    var picks :| PicksAs(usable, |usable|, population, total, workers, picks);
    DistinctIsWellNamed(squares, center);
    var chosen := PicksAreChosen(squares, |squares|, center, picks);
    assert (set ref | ref in workers) == chosen;
    WorkersAreOffered(squares, |squares|, center);
    forall ref | ref in workers ensures Workable(squares, center, ref) {
      assert Offered(squares, |squares|, center, ref);
    }
  }

  /** The full assignments are the choices of workers. */
  lemma AssignmentIsPicked(squares: seq<Square>, center: Square, population: nat, chosen: set<Ref>)
    returns (picks: seq<nat>)
    requires Distinct(squares, center) && Assignment(squares, center, population, chosen)
    ensures Picks(picks, |Workers(squares, |squares|)|, population)
    ensures Together(squares, |squares|, chosen, Total(Outputs(Workers(squares, |squares|)), picks))
  {
    forall ref | ref in chosen ensures AmongFirst(squares, |squares|, ref) {
      assert Workable(squares, center, ref);
    }
    DistinctIsWellNamed(squares, center);
    picks := ChosenArePicked(squares, |squares|, center, chosen);
  }

  /** What every full assignment of the usable squares adds up to. */
  ghost function Reachable(usable: seq<Worker>, population: nat): set<Yield> {
    Sums(Outputs(usable), |usable|, population)
  }

  lemma AttainableIsReachable(squares: seq<Square>, center: Square, population: nat, t: Yield)
    requires Distinct(squares, center) && Attainable(squares, center, population, t)
    ensures t in Reachable(Workers(squares, |squares|), population)
  {
    var usable := Workers(squares, |squares|);
    var chosen :| Assignment(squares, center, population, chosen) && Together(squares, |squares|, chosen, t);
    var picks := AssignmentIsPicked(squares, center, population, chosen);
    SumsContainEveryPick(Outputs(usable), |usable|, population, picks);
  }

  lemma ReachableIsAttainable(squares: seq<Square>, center: Square, population: nat, t: Yield)
    requires Distinct(squares, center) && t in Reachable(Workers(squares, |squares|), population)
    ensures Attainable(squares, center, population, t)
  {
    var usable := Workers(squares, |squares|);
    var picks := EverySumIsPicked(Outputs(usable), |usable|, population, t);
    var workers := seq(population, a requires 0 <= a < population => usable[picks[a]].ref);
    assert PicksAs(usable, |usable|, population, t, workers, picks);
    AllocationIsAssignment(squares, center, population, t, workers);
  }

  /** The Pareto-maximal subset totals are the attainable totals that no assignment betters. */
  lemma MaximalIsUnbettered(squares: seq<Square>, center: Square, population: nat, t: Yield)
    requires Distinct(squares, center) && Attainable(squares, center, population, t)
    ensures t in Maximal(Reachable(Workers(squares, |squares|), population))
       <==> Unbettered(squares, center, population, t)
  {
    var all := Reachable(Workers(squares, |squares|), population);
    AttainableIsReachable(squares, center, population, t);
    if Unbettered(squares, center, population, t) {
      forall u | u in all && Dominates(u, t) ensures u == t {
        ReachableIsAttainable(squares, center, population, u);
        var chosen :| Assignment(squares, center, population, chosen) && Together(squares, |squares|, chosen, u);
      }
    }
    if t in Maximal(all) {
      forall chosen | Assignment(squares, center, population, chosen)
        ensures
          && Nutrients(squares, |squares|, chosen) >= t.nutrients
          && Minerals(squares, |squares|, chosen) >= t.minerals
          && Energy(squares, |squares|, chosen) >= t.energy
          ==> Together(squares, |squares|, chosen, t)
      {
        var picks := AssignmentIsPicked(squares, center, population, chosen);
        var u := Total(Outputs(Workers(squares, |squares|)), picks);
        AttainableIsReachable(squares, center, population, u);
        assert Dominates(u, t) ==> u == t;
      }
    }
  }

  lemma {:induction false} WorkersAreCounted(squares: seq<Square>, n: nat)
    requires n <= |squares| && forall a | 0 <= a < n :: Named(squares[a])
    ensures |Workers(squares, n)| == UsableCount(squares, n)
  {
    if n == 0 {
    } else {
      WorkersAreCounted(squares, n - 1);
    }
  }

  // ----- When the cap is hit -----------------------------------------------------------------

  lemma {:induction false} WorkersOfPrefix(squares: seq<Square>, m: nat, n: nat)
    requires n <= m <= |squares| && forall a | 0 <= a < n :: Named(squares[a])
    ensures forall a | 0 <= a < n :: Named(squares[..m][a])
    ensures Workers(squares[..m], n) == Workers(squares, n)
  {
    if n == 0 {
    } else {
      WorkersOfPrefix(squares, m, n - 1);
    }
  }

  lemma {:induction false} WorkersExtend(squares: seq<Square>, n: nat, m: nat)
    requires n <= m <= |squares| && forall a | 0 <= a < m :: Named(squares[a])
    ensures Workers(squares, n) <= Workers(squares, m)
  {
    if n == m {
    } else {
      WorkersExtend(squares, n, m - 1);
    }
  }

  lemma {:induction false} SumsOfPrefix(outs: seq<Yield>, more: seq<Yield>, n: nat, w: nat)
    requires n <= |outs|
    ensures Sums(outs + more, n, w) == Sums(outs, n, w)
  {
    if w == 0 || n == 0 {
    } else {
      SumsOfPrefix(outs, more, n - 1, w);
      SumsOfPrefix(outs, more, n - 1, w - 1);
    }
  }

  /** What the first squares reach is a layer of the whole search. */
  lemma LayerOfPrefix(squares: seq<Square>, n: nat, center: Square, w: nat)
    requires n <= |squares| && Distinct(squares, center)
    ensures Distinct(squares[..n], center)
    ensures var usable, k := Workers(squares, |squares|), |Workers(squares, n)|;
      k <= |usable| && Reachable(Workers(squares[..n], n), w) == Sums(Outputs(usable), k, w)
  {
    WorkersOfPrefix(squares, n, n);
    WorkersExtend(squares, n, |squares|);
    var first, usable := Workers(squares, n), Workers(squares, |squares|);
    assert Outputs(usable) == Outputs(first) + Outputs(usable)[|first|..];
    SumsOfPrefix(Outputs(first), Outputs(usable)[|first|..], |first|, w);
  }

  lemma {:induction false} PrefixWith(squares: seq<Square>, n: nat, k: nat) returns (m: nat)
    requires n <= |squares| && (forall a | 0 <= a < n :: Named(squares[a])) && k <= |Workers(squares, n)|
    ensures m <= n && |Workers(squares, m)| == k
  {
    if k == |Workers(squares, n)| {
      m := n;
    } else {
      m := PrefixWith(squares, n - 1, k);
    }
  }

  lemma NoSquaresNoCrowd(usable: seq<Worker>, w: nat)
    requires w > 0
    ensures !Crowded(usable, 0, w)
  {
    assert Maximal(Sums(Outputs(usable), 0, w)) == {};
  }

  lemma OverflowIsCrowded(squares: seq<Square>, n: nat, center: Square, w: nat) returns (k: nat)
    requires Distinct(squares, center) && Overflows(squares, n, center, w) && w > 0
    ensures 0 < k <= |Workers(squares, |squares|)| && Crowded(Workers(squares, |squares|), k, w)
  {
    hide Attainable, Unbettered, Reachable;
    LayerOfPrefix(squares, n, center, w);
    var part := squares[..n];
    var totals :| Crowd(part, center, w, totals);
    var best := Maximal(Reachable(Workers(part, n), w));
    forall t | t in totals ensures t in best { MaximalIsUnbettered(part, center, w, t); }
    SubsetIsSmaller(totals, best);
    k := |Workers(squares, n)|;
    NoSquaresNoCrowd(Workers(squares, |squares|), w);
  }

  lemma CrowdedIsOverflow(squares: seq<Square>, center: Square, k: nat, w: nat) returns (n: nat)
    requires Distinct(squares, center) && Crowded(Workers(squares, |squares|), k, w)
    ensures Overflows(squares, n, center, w)
  {
    hide Attainable, Unbettered, Reachable;
    n := PrefixWith(squares, |squares|, k);
    LayerOfPrefix(squares, n, center, w);
    var part := squares[..n];
    var totals := Maximal(Reachable(Workers(part, n), w));
    forall t | t in totals ensures Attainable(part, center, w, t) && Unbettered(part, center, w, t) {
      ReachableIsAttainable(part, center, w, t);
      MaximalIsUnbettered(part, center, w, t);
    }
    assert Crowd(part, center, w, totals);
  }

  /** The search was cut short if and only if some number of workers overflows on the first squares. */
  lemma CappedIffOverflow(squares: seq<Square>, center: Square, population: nat)
    requires Distinct(squares, center)
    ensures EverCrowded(Workers(squares, |squares|), |Workers(squares, |squares|)|, population)
       <==> exists n: nat, w: nat | 0 < w <= population :: Overflows(squares, n, center, w)
  {
    hide Overflows, Crowded;
    var usable := Workers(squares, |squares|);
    if EverCrowded(usable, |usable|, population) {
      var k, w :| 0 < k <= |usable| && 0 < w <= population && Crowded(usable, k, w);
      var n := CrowdedIsOverflow(squares, center, k, w);
    }
    forall n: nat, w: nat | 0 < w <= population && Overflows(squares, n, center, w)
      ensures EverCrowded(usable, |usable|, population)
    {
      var k := OverflowIsCrowded(squares, n, center, w);
    }
  }
}
