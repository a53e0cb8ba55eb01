/** The native identity hash and the comparison of peer capsules. */
module CheckpointIdentity {
  import opened Listings
  import opened Wrappers

  const WORD := 0x1_0000_0000
  const STATES := 0x1_0000_0000_0000_0000
  const SEED := 1469598103934665603
  const MULTIPLIER := 1099511628211

  // ----- Exclusive or ------------------------------------------------------------------------

  function Xor(a: nat, b: nat): nat {
    if a == 0 && b == 0 then 0 else 2 * Xor(a / 2, b / 2) + (a % 2 + b % 2) % 2
  }

  lemma {:induction false} XorCommutes(a: nat, b: nat)
    ensures Xor(a, b) == Xor(b, a)
  {
    if a == 0 && b == 0 {
    } else {
      XorCommutes(a / 2, b / 2);
    }
  }

  lemma XorOfNothing()
    ensures Xor(0, 0) == 0
  {}

  lemma XorHalves(a: nat, b: nat)
    ensures Xor(a, b) / 2 == Xor(a / 2, b / 2) && Xor(a, b) % 2 == (a % 2 + b % 2) % 2
  {}

  /** Applying a word twice undoes it. */
  lemma {:induction false} XorUndoes(a: nat, b: nat)
    ensures Xor(Xor(a, b), b) == a
  {
    hide Xor;
    if a == 0 && b == 0 {
      XorOfNothing();
    } else {
      XorUndoes(a / 2, b / 2);
      XorHalves(a, b);
      XorHalves(Xor(a, b), b);
    }
  }

  /** Bit `k` of a number, counted from the lowest. */
  ghost predicate Bit(n: nat, k: nat) {
    if k == 0 then n % 2 == 1 else Bit(n / 2, k - 1)
  }

  /** The result has exactly the bits that one of the two has and the other has not. */
  lemma {:induction false} XorBits(a: nat, b: nat, k: nat)
    ensures Bit(Xor(a, b), k) <==> Bit(a, k) != Bit(b, k)
  {
    hide Xor;
    XorHalves(a, b);
    if k == 0 {
    } else {
      XorBits(a / 2, b / 2, k - 1);
    }
  }

  ghost function Power(bits: nat): (r: nat)
    ensures r > 0
  {
    if bits == 0 then 1 else 2 * Power(bits - 1)
  }

  lemma {:induction false} XorStaysBelow(a: nat, b: nat, bits: nat)
    requires a < Power(bits) && b < Power(bits)
    ensures Xor(a, b) < Power(bits)
  {
    if bits == 0 {
    } else {
      XorStaysBelow(a / 2, b / 2, bits - 1);
    }
  }

  lemma {:induction false} PowerDoubles(a: nat, b: nat)
    ensures Power(a + b) == Power(a) * Power(b)
  {
    if a == 0 {
    } else {
      PowerDoubles(a - 1, b);
    }
  }

  lemma FourBits()
    ensures Power(4) == 16
  {
    assert Power(2) == 4;
  }

  lemma SixtyFourBits()
    ensures Power(64) == STATES
  {
    FourBits();
    hide Power;
    PowerDoubles(4, 4);
    PowerDoubles(8, 8);
    PowerDoubles(16, 16);
    PowerDoubles(32, 32);
  }

  // ----- One fold step -----------------------------------------------------------------------

  /** What `item & 0xffffffff` keeps of an integer. */
  function Masked(item: int): nat {
    item % WORD
  }

  function Mix(value: nat, item: int): (r: nat)
    ensures r < STATES
  {
    Xor(value, Masked(item)) * MULTIPLIER % STATES
  }

  /** The multiplicative inverse of the odd multiplier. */
  const INVERSE := 14886173955864302971

  lemma MultiplesVanish(t: nat, x: nat)
    ensures (STATES * t + x) % STATES == x % STATES
  {}

  lemma RemainderFactors(x: nat, c: nat)
    ensures x % STATES * c % STATES == x * c % STATES
  {
    var q, r := x / STATES, x % STATES;
    assert x * c == STATES * (q * c) + r * c;
    MultiplesVanish(q * c, r * c);
  }

  /** One more than a multiple of the number of states. */
  lemma InverseIsOneMore()
    ensures MULTIPLIER * INVERSE == STATES * (MULTIPLIER * INVERSE / STATES) + 1
  {}

  lemma OneMoreKeeps(x: nat, m: nat, k: nat)
    requires x < STATES && m == STATES * k + 1
    ensures x * m % STATES == x
  {
    assert x * m == STATES * (x * k) + x;
    MultiplesVanish(x * k, x);
  }

  lemma Regrouped(x: nat, m: nat, i: nat)
    ensures x * m * i == x * (m * i)
  {}

  lemma MultiplicationUndoes(x: nat)
    requires x < STATES
    ensures x * MULTIPLIER % STATES * INVERSE % STATES == x
  {
    InverseIsOneMore();
    RemainderFactors(x * MULTIPLIER, INVERSE);
    Regrouped(x, MULTIPLIER, INVERSE);
    OneMoreKeeps(x, MULTIPLIER * INVERSE, MULTIPLIER * INVERSE / STATES);
  }

  /** A step is injective in the state and in the 32-bit word it folds in. */
  lemma MixIsInjective(v: nat, w: nat, x: int, y: int)
    requires v < STATES && w < STATES && Mix(v, x) == Mix(w, y)
    ensures Xor(v, Masked(x)) == Xor(w, Masked(y))
    ensures Masked(x) == Masked(y) <==> v == w
  {
    SixtyFourBits();
    XorStaysBelow(v, Masked(x), 64);
    XorStaysBelow(w, Masked(y), 64);
    MultiplicationUndoes(Xor(v, Masked(x)));
    MultiplicationUndoes(Xor(w, Masked(y)));
    XorUndoes(v, Masked(x));
    XorUndoes(w, Masked(y));
    XorCommutes(v, Masked(x));
    XorCommutes(w, Masked(y));
    XorUndoes(Masked(x), v);
    XorUndoes(Masked(y), w);
  }

  // ----- The hash ----------------------------------------------------------------------------

  ghost function Fold(value: nat, fields: seq<int>): nat
    decreases |fields|
  {
    if fields == [] then value else Fold(Mix(value, fields[0]), fields[1..])
  }

  ghost function Hash(fields: seq<int>): nat {
    Fold(SEED, fields)
  }

  lemma {:induction false} FoldSnoc(value: nat, fields: seq<int>, item: int)
    ensures Fold(value, fields + [item]) == Mix(Fold(value, fields), item)
    decreases |fields|
  {
    if fields == [] {
      assert (fields + [item])[1..] == [];
    } else {
      FoldSnoc(Mix(value, fields[0]), fields[1..], item);
      assert (fields + [item])[1..] == fields[1..] + [item];
    }
  }

  ghost predicate ExclusiveOr(x: nat, a: nat, b: nat) {
    forall k: nat :: Bit(x, k) <==> Bit(a, k) != Bit(b, k)
  }

  /** The hash of nothing is the seed; one more field is reduced to 32 bits, combined bit by bit, multiplied, and
      reduced to 64 bits. */
  lemma HashGrows(fields: seq<int>, item: int)
    ensures Hash([]) == 1469598103934665603
    ensures exists x: nat ::
      ExclusiveOr(x, Hash(fields), item % 4294967296)
      && Hash(fields + [item]) == x * 1099511628211 % 18446744073709551616
  {
    FoldSnoc(SEED, fields, item);
    var x := Xor(Hash(fields), Masked(item));
    forall k: nat ensures Bit(x, k) <==> Bit(Hash(fields), k) != Bit(Masked(item), k) {
      XorBits(Hash(fields), Masked(item), k);
    }
    assert ExclusiveOr(x, Hash(fields), item % 4294967296);
  }

  method IdentityHash(fields: seq<int>) returns (value: nat)
    ensures value == Hash(fields) && value < STATES
  {
    value := SEED;
    for i := 0 to |fields|
      invariant value == Hash(fields[..i]) && value < STATES
    {
      FoldSnoc(SEED, fields[..i], fields[i]);
      assert fields[..i + 1] == fields[..i] + [fields[i]];
      value := Mix(value, fields[i]);
    }
    assert fields[..|fields|] == fields;
  }

  /** Different states never meet again under the same words. */
  lemma {:induction false} StatesStayApart(v: nat, w: nat, fields: seq<int>)
    requires v < STATES && w < STATES
    ensures Fold(v, fields) == Fold(w, fields) <==> v == w
    decreases |fields|
  {
    if fields == [] {
    } else {
      StatesStayApart(Mix(v, fields[0]), Mix(w, fields[0]), fields[1..]);
      if Mix(v, fields[0]) == Mix(w, fields[0]) { MixIsInjective(v, w, fields[0], fields[0]); }
    }
  }

  lemma {:induction false} OneFieldFrom(v: nat, a: seq<int>, p: nat, x: int)
    requires v < STATES && p < |a|
    ensures Fold(v, a) == Fold(v, a[p := x]) <==> Masked(a[p]) == Masked(x)
    decreases p
  {
    var b := a[p := x];
    if p == 0 {
      assert b[1..] == a[1..];
      StatesStayApart(Mix(v, a[0]), Mix(v, x), a[1..]);
      if Mix(v, a[0]) == Mix(v, x) { MixIsInjective(v, v, a[0], x); }
    } else {
      assert b[1..] == a[1..][p - 1 := x] && b[0] == a[0];
      OneFieldFrom(Mix(v, a[0]), a[1..], p - 1, x);
    }
  }

  /** Changing one field goes unnoticed exactly when it keeps that field modulo 2^32. */
  lemma OneFieldTamperDetected(a: seq<int>, b: seq<int>, p: nat)
    requires |a| == |b| && p < |a| && forall i | 0 <= i < |a| && i != p :: a[i] == b[i]
    ensures Hash(a) == Hash(b) <==> a[p] % WORD == b[p] % WORD
  {
    assert a[p := b[p]] == b;
    OneFieldFrom(SEED, a, p, b[p]);
  }

  // ----- Capsules ----------------------------------------------------------------------------

  /** A capsule as read back: an absent field is missing or of the wrong type; the hash is read as the
      number its decimal text denotes. */
  datatype Capsule = Capsule(fields: Option<seq<int>>, turn: Option<int>, faction: Option<int>, handles: nat,
                             hash: Option<nat>)

  datatype IdentityError = EvidenceInvalid | VehicleLayout | EvidenceMissing

  const ROW := 8
  const HEADER := 3
  const MOST_VEHICLES := 2048

  /** Three header fields, then eight for each of the announced vehicles, as the capsule claims. */
  ghost predicate WellMade(c: Capsule) {
    && c.fields.Some?
    && var f := c.fields.value;
       && |f| >= HEADER && 0 <= f[2] <= MOST_VEHICLES && |f| == HEADER + ROW * f[2]
       && c.turn == Some(f[0]) && c.faction == Some(f[1]) && c.handles == f[2] && c.hash == Some(Hash(f))
  }

  /** Evidence with one field changed by other than a multiple of 2^32 is no longer evidence. */
  lemma TamperedFieldRejected(c: Capsule, p: nat, x: int)
    requires WellMade(c) && p < |c.fields.value| && c.fields.value[p] % WORD != x % WORD
    ensures !WellMade(c.(fields := Some(c.fields.value[p := x])))
  {
    OneFieldTamperDetected(c.fields.value, c.fields.value[p := x], p);
  }

  /** Everything but the perspective of the capsule. */
  function Canonical(fields: seq<int>): seq<int>
    requires |fields| >= HEADER
  {
    [fields[0]] + fields[2..]
  }

  method CanonicalVehicleFields(c: Capsule) returns (r: Result<seq<int>, IdentityError>)
    ensures r == if WellMade(c) then Ok(Canonical(c.fields.value)) else Err(EvidenceInvalid)
    ensures r.Ok? <==> c.fields.Some? && var f := c.fields.value;
      && |f| >= 3 && 0 <= f[2] <= 2048 && |f| == 3 + 8 * f[2]
      && c.turn == Some(f[0]) && c.faction == Some(f[1]) && c.handles == f[2] && c.hash == Some(Hash(f))
    ensures r.Ok? ==> var f := c.fields.value;
      |r.value| == |f| - 1 && r.value[0] == f[0] && forall i | 1 <= i < |r.value| :: r.value[i] == f[i + 1]
  {
    if c.fields.None? { return Err(EvidenceInvalid); }
    var f := c.fields.value;
    var hash := IdentityHash(f);
    if |f| < HEADER || !(0 <= f[2] <= MOST_VEHICLES) || |f| != HEADER + ROW * f[2]
       || c.turn != Some(f[0]) || c.faction != Some(f[1]) || c.handles != f[2] || c.hash != Some(hash)
    {
      return Err(EvidenceInvalid);
    }
    r := Ok(Canonical(f));
  }

  /** The capsule at `i` is evidence that continues the layout of the one before it. */
  ghost predicate Agrees(capsules: seq<Capsule>, i: nat)
    requires i < |capsules|
  {
    && WellMade(capsules[i])
    && (i > 0 && WellMade(capsules[i - 1]) ==>
          Canonical(capsules[i].fields.value) == Canonical(capsules[i - 1].fields.value))
  }

  method ValidatePeerCapsules(capsules: seq<Capsule>) returns (failure: Option<IdentityError>)
    ensures failure.None? <==> capsules != [] && forall i | 0 <= i < |capsules| :: Agrees(capsules, i)
    ensures failure == Some(EvidenceMissing) <==> capsules == []
    ensures failure.Some? && capsules != [] ==>
      exists i | 0 <= i < |capsules| ::
        !Agrees(capsules, i) && (forall j | 0 <= j < i :: Agrees(capsules, j))
        && failure.value == if WellMade(capsules[i]) then VehicleLayout else EvidenceInvalid
  {
    var canonical: Option<seq<int>> := None;
    for i := 0 to |capsules|
      invariant forall j | 0 <= j < i :: Agrees(capsules, j)
      invariant i == 0 ==> canonical == None
      invariant i > 0 ==> WellMade(capsules[i - 1]) && canonical == Some(Canonical(capsules[i - 1].fields.value))
    {
      var read := CanonicalVehicleFields(capsules[i]);
      if read.Err? {
        assert !Agrees(capsules, i);
        return Some(read.error);
      }
      if canonical.Some? && canonical.value != read.value {
        assert Agrees(capsules, i - 1) && !Agrees(capsules, i);
        return Some(VehicleLayout);
      }
      canonical := Some(read.value);
    }
    failure := if canonical.None? then Some(EvidenceMissing) else None;
  }

  ghost predicate SameLayout(capsules: seq<Capsule>, i: nat, j: nat)
    requires i < |capsules| && j < |capsules|
  {
    && WellMade(capsules[i]) && WellMade(capsules[j])
    && Canonical(capsules[i].fields.value) == Canonical(capsules[j].fields.value)
  }

  /** Validation passes exactly when all capsules are evidence for one and the same layout. */
  lemma {:induction false} ValidPeersShareLayout(capsules: seq<Capsule>, n: nat)
    requires n <= |capsules|
    ensures (forall i | 0 <= i < n :: Agrees(capsules, i)) <==>
      (forall i, j | 0 <= i <= j < n :: SameLayout(capsules, i, j))
    decreases n
  {
    if n == 0 {
    } else {
      ValidPeersShareLayout(capsules, n - 1);
      if forall i | 0 <= i < n :: Agrees(capsules, i) {
        forall i, j | 0 <= i <= j < n ensures SameLayout(capsules, i, j) {
          assert Agrees(capsules, n - 1);
          assert i < n - 1 ==> SameLayout(capsules, i, n - 2);
        }
      }
      if forall i, j | 0 <= i <= j < n :: SameLayout(capsules, i, j) {
        assert SameLayout(capsules, n - 1, n - 1) && (n > 1 ==> SameLayout(capsules, n - 2, n - 1));
      }
    }
  }

  // ----- Differences -------------------------------------------------------------------------

  datatype Place = FieldCount | Header(index: nat) | Vehicle(row: nat, field: nat)

  datatype Difference = Difference(place: Place, expected: int, actual: int)

  const MOST_DIFFERENCES := 32

  function PlaceOf(index: nat): (p: Place) {
    if index < HEADER then Header(index) else Vehicle((index - HEADER) / ROW, (index - HEADER) % ROW)
  }

  /** No two fields are reported under one name. */
  lemma PlacesAreDistinct(i: nat, j: nat)
    requires PlaceOf(i) == PlaceOf(j)
    ensures i == j
  {}

  predicate Differs(expected: seq<int>, actual: seq<int>, ignorePerspective: bool, i: nat)
    requires i < |expected| && i < |actual|
  {
    expected[i] != actual[i] && !(ignorePerspective && i == 1)
  }

  /** Whatever a caller is told apart. */
  ghost predicate Same(expected: seq<int>, actual: seq<int>, ignorePerspective: bool) {
    |expected| == |actual| && forall i | 0 <= i < |expected| :: !Differs(expected, actual, ignorePerspective, i)
  }

  /** The differing positions among the first `n`, in order. */
  ghost function Differing(expected: seq<int>, actual: seq<int>, ignorePerspective: bool, n: nat): seq<Difference>
    requires n <= |expected| && n <= |actual|
  {
    if n == 0 then []
    else if Differs(expected, actual, ignorePerspective, n - 1)
    then Differing(expected, actual, ignorePerspective, n - 1)
           + [Difference(PlaceOf(n - 1), expected[n - 1], actual[n - 1])]
    else Differing(expected, actual, ignorePerspective, n - 1)
  }

  ghost predicate Reports(differences: seq<Difference>, expected: seq<int>, actual: seq<int>, i: nat)
    requires i < |expected| && i < |actual|
  {
    Difference(PlaceOf(i), expected[i], actual[i]) in differences
  }

  /** The place comes from a field below `n`. */
  predicate PlacedBelow(d: Difference, n: nat) {
    exists i | 0 <= i < n :: d.place == PlaceOf(i)
  }

  lemma {:induction false} PlacesBelow(expected: seq<int>, actual: seq<int>, ignorePerspective: bool, n: nat)
    requires n <= |expected| && n <= |actual|
    ensures forall d | d in Differing(expected, actual, ignorePerspective, n) :: PlacedBelow(d, n)
  {
    hide PlaceOf;
    if n == 0 {
    } else {
      PlacesBelow(expected, actual, ignorePerspective, n - 1);
      forall d | d in Differing(expected, actual, ignorePerspective, n) ensures PlacedBelow(d, n) {
        if d in Differing(expected, actual, ignorePerspective, n - 1) { assert PlacedBelow(d, n - 1); }
      }
    }
  }

  lemma NewPlace(d: Difference, n: nat)
    requires PlacedBelow(d, n)
    ensures d.place != PlaceOf(n) && d.place != FieldCount
  {
    var i :| 0 <= i < n && d.place == PlaceOf(i);
    if PlaceOf(i) == PlaceOf(n) { PlacesAreDistinct(i, n); }
  }

  /** Every field that differs is reported, no other, and no two under one name. */
  lemma {:induction false} EachPlaceOnce(expected: seq<int>, actual: seq<int>, ignorePerspective: bool, n: nat)
    requires n <= |expected| && n <= |actual|
    ensures var all := Differing(expected, actual, ignorePerspective, n);
      && (forall x, y | 0 <= x < y < |all| :: all[x].place != all[y].place)
      && (forall i | 0 <= i < n ::
            Reports(all, expected, actual, i) <==> Differs(expected, actual, ignorePerspective, i))
  {
    hide PlaceOf, Differs;
    var all := Differing(expected, actual, ignorePerspective, n);
    if n == 0 {
    } else {
      var front := Differing(expected, actual, ignorePerspective, n - 1);
      EachPlaceOnce(expected, actual, ignorePerspective, n - 1);
      PlacesBelow(expected, actual, ignorePerspective, n - 1);
      forall d | d in front ensures d.place != PlaceOf(n - 1) { NewPlace(d, n - 1); }
      forall i | 0 <= i < n
        ensures Reports(all, expected, actual, i) <==> Differs(expected, actual, ignorePerspective, i)
      {
        if i < n - 1 {
          assert Reports(front, expected, actual, i) <==> Differs(expected, actual, ignorePerspective, i);
          if PlaceOf(i) == PlaceOf(n - 1) { PlacesAreDistinct(i, n - 1); }
        }
      }
    }
  }

  /** The place names field `i`: one of the three header fields, or one of eight fields of a vehicle. */
  ghost predicate Denotes(p: Place, i: nat) {
    match p
    case FieldCount => false
    case Header(index) => index == i < 3
    case Vehicle(row, field) => field < 8 && i == 3 + 8 * row + field
  }

  /** The report lists, in order, exactly these fields below `n`, each with both values. */
  ghost predicate Lists(report: seq<Difference>, places: seq<nat>, expected: seq<int>, actual: seq<int>,
                        ignorePerspective: bool, n: nat)
    requires n <= |expected| && n <= |actual|
  {
    && Listing(places) && |report| == |places|
    && (forall i: nat :: i in places <==> i < n && expected[i] != actual[i] && !(ignorePerspective && i == 1))
    && forall k | 0 <= k < |places| ::
         && places[k] < n && Denotes(report[k].place, places[k])
         && report[k].expected == expected[places[k]] && report[k].actual == actual[places[k]]
  }

  lemma PlaceDenotes(i: nat)
    ensures Denotes(PlaceOf(i), i)
  {}

  lemma ListsNext(report: seq<Difference>, places: seq<nat>, expected: seq<int>, actual: seq<int>,
                  ignorePerspective: bool, n: nat)
    requires n < |expected| && n < |actual| && Lists(report, places, expected, actual, ignorePerspective, n)
    ensures Differs(expected, actual, ignorePerspective, n) ==>
      Lists(report + [Difference(PlaceOf(n), expected[n], actual[n])], places + [n], expected, actual,
            ignorePerspective, n + 1)
    ensures !Differs(expected, actual, ignorePerspective, n) ==>
      Lists(report, places, expected, actual, ignorePerspective, n + 1)
  {
    hide PlaceOf, Denotes;
    PlaceDenotes(n);
    var more := places + [n];
    assert forall i: nat :: i in more <==> i in places || i == n;
    assert forall k | 0 <= k < |places| :: places[k] in places;
  }

  lemma NothingListed(expected: seq<int>, actual: seq<int>, ignorePerspective: bool)
    ensures Lists([], [], expected, actual, ignorePerspective, 0)
  {}

  /** The differences are the fields with different values, in order, but for an ignored perspective. */
  lemma {:induction false} DifferingIs(expected: seq<int>, actual: seq<int>, ignorePerspective: bool, n: nat)
    requires n <= |expected| && n <= |actual|
    ensures exists places: seq<nat> ::
      Lists(Differing(expected, actual, ignorePerspective, n), places, expected, actual, ignorePerspective, n)
  {
    hide Lists, PlaceOf, Differs;
    if n == 0 {
      NothingListed(expected, actual, ignorePerspective);
      var all := Differing(expected, actual, ignorePerspective, 0);
      assert Lists(all, [], expected, actual, ignorePerspective, 0);
    } else {
      DifferingIs(expected, actual, ignorePerspective, n - 1);
      var front := Differing(expected, actual, ignorePerspective, n - 1);
      var places: seq<nat> :| Lists(front, places, expected, actual, ignorePerspective, n - 1);
      ListsNext(front, places, expected, actual, ignorePerspective, n - 1);
      var all := Differing(expected, actual, ignorePerspective, n);
      if Differs(expected, actual, ignorePerspective, n - 1) {
        assert Lists(all, places + [n - 1], expected, actual, ignorePerspective, n);
      } else {
        assert Lists(all, places, expected, actual, ignorePerspective, n);
      }
    }
  }

  ghost function CountRow(expected: seq<int>, actual: seq<int>): seq<Difference> {
    if |expected| == |actual| then [] else [Difference(FieldCount, |expected|, |actual|)]
  }

  lemma NothingDiffering(a: seq<int>, b: seq<int>, ignorePerspective: bool)
    ensures Differing(a, b, ignorePerspective, 0) == []
  {}

  lemma DifferingStep(a: seq<int>, b: seq<int>, ignorePerspective: bool, i: nat)
    requires i < |a| && i < |b|
    ensures Differing(a, b, ignorePerspective, i + 1) == Differing(a, b, ignorePerspective, i)
      + if Differs(a, b, ignorePerspective, i) then [Difference(PlaceOf(i), a[i], b[i])] else []
  {}

  lemma FullReport(count: seq<Difference>, some: seq<Difference>, all: seq<Difference>)
    requires some <= all && |count + some| == MOST_DIFFERENCES
    ensures count + some == if |count + all| <= MOST_DIFFERENCES then count + all else (count + all)[..MOST_DIFFERENCES]
  {
    assert count + all == count + some + all[|some|..];
  }

  lemma {:induction false} DifferingGrows(a: seq<int>, b: seq<int>, ignorePerspective: bool, i: nat, n: nat)
    requires i <= n <= |a| && n <= |b|
    ensures Differing(a, b, ignorePerspective, i) <= Differing(a, b, ignorePerspective, n)
    decreases n
  {
    if i == n {
    } else {
      DifferingGrows(a, b, ignorePerspective, i, n - 1);
    }
  }

  /** The report is a prefix of all differences, cut off at the cap; it is empty exactly when the lists
      are the same. Values that are not lists are never reported. */
  method IdentityDifferences(expected: Option<seq<int>>, actual: Option<seq<int>>, ignorePerspective: bool)
    returns (r: seq<Difference>)
    ensures expected.None? || actual.None? ==> r == []
    ensures expected.Some? && actual.Some? ==>
      var a, b := expected.value, actual.value;
      var n := if |a| <= |b| then |a| else |b|;
      var count := if |a| == |b| then [] else [Difference(FieldCount, |a|, |b|)];
      var all := count + Differing(a, b, ignorePerspective, n);
      r == if |all| <= 32 then all else all[..32]
  {
    hide Differing;
    if expected.None? || actual.None? { return []; }
    var a, b := expected.value, actual.value;
    var n := if |a| <= |b| then |a| else |b|;
    r := if |a| != |b| then [Difference(FieldCount, |a|, |b|)] else [];
    NothingDiffering(a, b, ignorePerspective);
    assert r + [] == r;
    var i := 0;
    while i < n
      invariant i <= n && |r| < MOST_DIFFERENCES
      invariant r == CountRow(a, b) + Differing(a, b, ignorePerspective, i)
    {
      DifferingStep(a, b, ignorePerspective, i);
      if Differs(a, b, ignorePerspective, i) {
        r := r + [Difference(PlaceOf(i), a[i], b[i])];
        assert r == CountRow(a, b) + Differing(a, b, ignorePerspective, i + 1);
        if |r| >= MOST_DIFFERENCES {
          DifferingGrows(a, b, ignorePerspective, i + 1, n);
          FullReport(CountRow(a, b), Differing(a, b, ignorePerspective, i + 1), Differing(a, b, ignorePerspective, n));
          return;
        }
      }
      i := i + 1;
    }
  }

  lemma {:induction false} NoneDiffering(a: seq<int>, b: seq<int>, ignorePerspective: bool, n: nat)
    requires n <= |a| && n <= |b|
    ensures Differing(a, b, ignorePerspective, n) == [] <==>
      forall i | 0 <= i < n :: !Differs(a, b, ignorePerspective, i)
  {
    if n == 0 {
    } else {
      NoneDiffering(a, b, ignorePerspective, n - 1);
    }
  }

  /** Peer validation and the difference report agree: two capsules share a layout exactly when ignoring
      the perspective leaves nothing to report. */
  lemma SameLayoutIffNoDifference(a: seq<int>, b: seq<int>)
    requires |a| >= HEADER && |b| >= HEADER
    ensures Canonical(a) == Canonical(b) <==> Same(a, b, true)
    ensures Same(a, b, true) <==>
      CountRow(a, b) + Differing(a, b, true, if |a| <= |b| then |a| else |b|) == []
  {
    NoneDiffering(a, b, true, if |a| <= |b| then |a| else |b|);
    if Same(a, b, true) {
      assert !Differs(a, b, true, 0);
      forall i | 2 <= i < |a| ensures a[i] == b[i] { assert !Differs(a, b, true, i); }
      assert a[2..] == b[2..];
    }
    if Canonical(a) == Canonical(b) {
      assert |a| == |Canonical(a)| + 1 == |b|;
      forall i | 0 <= i < |a| ensures !Differs(a, b, true, i) {
        if i >= 2 { assert Canonical(a)[i - 1] == a[i] && Canonical(b)[i - 1] == b[i]; }
        if i == 0 { assert Canonical(a)[0] == a[0] && Canonical(b)[0] == b[0]; }
      }
    }
  }
}
