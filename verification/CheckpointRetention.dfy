/** Which checkpoints are kept, and the slot a new native save may be staged in. */
module CheckpointRetention {
  import opened Listings
  import opened Wrappers

  /** A recorded checkpoint; absent and empty names count alike. */
  datatype Checkpoint = Checkpoint(id: string, native: string, slot: string, verified: bool, tested: bool)

  const LATEST := 3

  function OrElse(a: string, b: string): string {
    if a != "" then a else b
  }

  function Key(c: Checkpoint): string {
    OrElse(c.id, OrElse(c.native, c.slot))
  }

  function SaveSlot(c: Checkpoint): string {
    OrElse(c.native, c.slot)
  }

  ghost function Keys(items: seq<Checkpoint>): set<string> {
    set c | c in items :: Key(c)
  }

  ghost predicate DistinctKeys(items: seq<Checkpoint>) {
    forall i, j | 0 <= i < j < |items| :: Key(items[i]) != Key(items[j])
  }

  predicate Counts(item: Option<Checkpoint>) {
    item.Some? && item.value.verified
  }

  /** Some verified candidate before position `n` has the key of candidate `a`. */
  ghost predicate Repeats(candidates: seq<Option<Checkpoint>>, a: nat)
    requires a < |candidates| && candidates[a].Some?
  {
    exists b | 0 <= b < a :: Counts(candidates[b]) && Key(candidates[b].value) == Key(candidates[a].value)
  }

  /** The verified candidates before `n`, each key once, where it occurs first. */
  ghost function Proven(candidates: seq<Option<Checkpoint>>, n: nat): seq<Checkpoint>
    requires n <= |candidates|
  {
    if n == 0 then []
    else if Counts(candidates[n - 1]) && !Repeats(candidates, n - 1)
    then Proven(candidates, n - 1) + [candidates[n - 1].value]
    else Proven(candidates, n - 1)
  }

  ghost predicate Candidacy(candidates: seq<Option<Checkpoint>>, n: nat, c: Checkpoint)
    requires n <= |candidates|
  {
    c.verified && exists a | 0 <= a < n :: candidates[a] == Some(c)
  }

  lemma {:induction false} ProvenAreCandidates(candidates: seq<Option<Checkpoint>>, n: nat)
    requires n <= |candidates|
    ensures forall i | 0 <= i < |Proven(candidates, n)| :: Candidacy(candidates, n, Proven(candidates, n)[i])
  {
    if n == 0 {
    } else {
      ProvenAreCandidates(candidates, n - 1);
      var before, after := Proven(candidates, n - 1), Proven(candidates, n);
      forall i | 0 <= i < |after| ensures Candidacy(candidates, n, after[i]) {
        assert i < |before| ==> Candidacy(candidates, n - 1, before[i]);
      }
    }
  }

  ghost predicate Verified(candidates: seq<Option<Checkpoint>>, n: nat, k: string)
    requires n <= |candidates|
  {
    exists a | 0 <= a < n :: Counts(candidates[a]) && Key(candidates[a].value) == k
  }

  lemma KeysGrow(items: seq<Checkpoint>, c: Checkpoint)
    ensures Keys(items + [c]) == Keys(items) + {Key(c)}
  {
    assert (items + [c])[|items|] == c;
  }

  /** The proven keys are exactly those of the verified candidates. */
  lemma {:induction false} ProvenKeys(candidates: seq<Option<Checkpoint>>, n: nat, k: string)
    requires n <= |candidates|
    ensures k in Keys(Proven(candidates, n)) <==> Verified(candidates, n, k)
  {
    if n == 0 {
    } else {
      ProvenKeys(candidates, n - 1, k);
      if Counts(candidates[n - 1]) {
        KeysGrow(Proven(candidates, n - 1), candidates[n - 1].value);
      }
      assert Verified(candidates, n, k) <==>
        Verified(candidates, n - 1, k) || (Counts(candidates[n - 1]) && Key(candidates[n - 1].value) == k);
    }
  }

  lemma {:induction false} ProvenDistinct(candidates: seq<Option<Checkpoint>>, n: nat)
    requires n <= |candidates|
    ensures DistinctKeys(Proven(candidates, n))
  {
    if n == 0 {
    } else {
      ProvenDistinct(candidates, n - 1);
      var before := Proven(candidates, n - 1);
      if Counts(candidates[n - 1]) && !Repeats(candidates, n - 1) {
        var c := candidates[n - 1].value;
        ProvenKeys(candidates, n - 1, Key(c));
        forall i | 0 <= i < |before| ensures Key(before[i]) != Key(c) {
          assert Key(before[i]) in Keys(before);
        }
      }
    }
  }

  /** The latest three proven checkpoints, and the newest restore-tested one if it is older. */
  ghost predicate Retained(kept: seq<Checkpoint>, proven: seq<Checkpoint>) {
    var latest := if |proven| <= LATEST then proven else proven[..LATEST];
    || (kept == latest && forall c | c in proven && c.tested :: exists d | d in latest :: d.tested)
    || (exists t | LATEST <= t < |proven| ::
          kept == latest + [proven[t]] && proven[t].tested && forall i | 0 <= i < t :: !proven[i].tested)
  }

  /** The latest three, and the newest tested one unless it is among them. */
  method KeepTested(result: seq<Checkpoint>) returns (kept: seq<Checkpoint>)
    requires DistinctKeys(result)
    ensures Retained(kept, result)
  {
    kept := if |result| <= LATEST then result else result[..LATEST];
    var t := 0;
    while t < |result| && !result[t].tested
      invariant t <= |result| && forall i | 0 <= i < t :: !result[i].tested
    {
      t := t + 1;
    }
    assert forall i | 0 <= i < |kept| :: kept[i] == result[i] && kept[i] in kept;
    if t < |result| && result[t] !in kept {
      kept := kept + [result[t]];
    }
  }

  lemma KeptFromProven(kept: seq<Checkpoint>, proven: seq<Checkpoint>)
    requires Retained(kept, proven) && DistinctKeys(proven)
    ensures |kept| <= LATEST + 1 && DistinctKeys(kept)
    ensures forall i | 0 <= i < |kept| :: kept[i] in proven
    ensures (exists c :: c in proven && c.tested) ==> exists c :: c in kept && c.tested
  {
    var latest := if |proven| <= LATEST then proven else proven[..LATEST];
    assert forall i | 0 <= i < |latest| :: latest[i] == proven[i];
    if kept != latest {
      var t :| LATEST <= t < |proven| && kept == latest + [proven[t]] && proven[t].tested;
      assert kept[LATEST] == proven[t];
    }
  }

  /** Never more than four are kept, with distinct keys, and a restore-tested one whenever there is one. */
  lemma RetentionIsBounded(kept: seq<Checkpoint>, candidates: seq<Option<Checkpoint>>)
    requires Retained(kept, Proven(candidates, |candidates|))
    ensures |kept| <= LATEST + 1 && DistinctKeys(kept)
    ensures forall i | 0 <= i < |kept| :: Candidacy(candidates, |candidates|, kept[i])
    ensures (exists c :: c in Proven(candidates, |candidates|) && c.tested) ==> exists c :: c in kept && c.tested
  {
    ProvenAreCandidates(candidates, |candidates|);
    ProvenDistinct(candidates, |candidates|);
    KeptFromProven(kept, Proven(candidates, |candidates|));
  }

  // ----- What is kept, by position -----------------------------------------------------------

  /** The name a checkpoint goes by: its id, or else its native slot, or else its slot. */
  ghost predicate Named(c: Checkpoint, name: string) {
    && (c.id != "" ==> name == c.id)
    && (c.id == "" && c.native != "" ==> name == c.native)
    && (c.id == "" && c.native == "" ==> name == c.slot)
  }

  ghost predicate SameName(c: Checkpoint, d: Checkpoint) {
    exists name :: Named(c, name) && Named(d, name)
  }

  /** Candidate `a` is verified, and no verified candidate before it goes by its name. */
  ghost predicate Leads(candidates: seq<Option<Checkpoint>>, a: nat) {
    && a < |candidates| && candidates[a].Some? && candidates[a].value.verified
    && forall b | 0 <= b < a :: candidates[b].Some? && candidates[b].value.verified ==>
         !SameName(candidates[b].value, candidates[a].value)
  }

  ghost function LeadersBefore(candidates: seq<Option<Checkpoint>>, a: nat): set<nat> {
    set b | 0 <= b < a && Leads(candidates, b)
  }

  /** Candidate `a` is to be kept: it is one of the first three that lead, or the first restore-tested one. */
  ghost predicate IsKept(candidates: seq<Option<Checkpoint>>, a: nat) {
    && Leads(candidates, a)
    && (|LeadersBefore(candidates, a)| < 3
        || (candidates[a].value.tested
            && forall b | 0 <= b < a && Leads(candidates, b) :: !candidates[b].value.tested))
  }

  /** `kept` lists in order the candidates at these places, which are exactly those to be kept. */
  ghost predicate KeptAt(kept: seq<Checkpoint>, candidates: seq<Option<Checkpoint>>, places: seq<nat>) {
    && |places| == |kept|
    && (forall i | 0 <= i < |places| :: places[i] < |candidates| && candidates[places[i]] == Some(kept[i]))
    && (forall i, j | 0 <= i < j < |places| :: places[i] < places[j])
    && (forall a: nat :: a in places <==> IsKept(candidates, a))
  }

  lemma NameIsKey(c: Checkpoint, d: Checkpoint)
    ensures SameName(c, d) <==> Key(c) == Key(d)
  {
    assert Named(c, Key(c)) && Named(d, Key(d));
  }

  lemma LeadsIfProven(candidates: seq<Option<Checkpoint>>, a: nat)
    requires a < |candidates|
    ensures Leads(candidates, a) <==> Counts(candidates[a]) && !Repeats(candidates, a)
  {
    hide Named, Key, SameName;
    if Counts(candidates[a]) {
      forall b | 0 <= b < a && Counts(candidates[b])
        ensures SameName(candidates[b].value, candidates[a].value)
           <==> Key(candidates[b].value) == Key(candidates[a].value)
      {
        NameIsKey(candidates[b].value, candidates[a].value);
      }
    }
  }

  /** The places the proven ones are taken from. */
  ghost function Places(candidates: seq<Option<Checkpoint>>, n: nat): seq<nat> {
    if n == 0 then [] else Places(candidates, n - 1) + if Leads(candidates, n - 1) then [n - 1] else []
  }

  lemma {:induction false} PlacesLead(candidates: seq<Option<Checkpoint>>, n: nat, a: nat)
    ensures a in Places(candidates, n) <==> a < n && Leads(candidates, a)
  {
    hide Leads;
    if n == 0 {
    } else {
      PlacesLead(candidates, n - 1, a);
    }
  }

  lemma {:induction false} PlacesRise(candidates: seq<Option<Checkpoint>>, n: nat)
    ensures forall i | 0 <= i < |Places(candidates, n)| :: Places(candidates, n)[i] < n
    ensures forall i, j | 0 <= i < j < |Places(candidates, n)| :: Places(candidates, n)[i] < Places(candidates, n)[j]
  {
    hide Leads;
    if n == 0 {
    } else {
      PlacesRise(candidates, n - 1);
    }
  }

  lemma PlaceStep(candidates: seq<Option<Checkpoint>>, n: nat)
    requires 0 < n <= |candidates|
    ensures var places, proven := Places(candidates, n - 1), Proven(candidates, n - 1);
      if Leads(candidates, n - 1)
      then candidates[n - 1].Some? && Places(candidates, n) == places + [n - 1]
           && Proven(candidates, n) == proven + [candidates[n - 1].value]
      else Places(candidates, n) == places && Proven(candidates, n) == proven
  {
    LeadsIfProven(candidates, n - 1);
    hide Leads, Repeats;
  }

  ghost predicate Aligned(candidates: seq<Option<Checkpoint>>, n: nat, places: seq<nat>, items: seq<Checkpoint>) {
    && n <= |candidates| && |places| == |items|
    && forall i | 0 <= i < |places| :: places[i] < n && candidates[places[i]] == Some(items[i])
  }

  lemma AlignedGrows(candidates: seq<Option<Checkpoint>>, n: nat, places: seq<nat>, items: seq<Checkpoint>)
    requires 0 < n <= |candidates| && Aligned(candidates, n - 1, places, items)
    ensures Aligned(candidates, n, places, items)
    ensures candidates[n - 1].Some? ==>
      Aligned(candidates, n, places + [n - 1], items + [candidates[n - 1].value])
  {}

  lemma {:induction false} PlacesHold(candidates: seq<Option<Checkpoint>>, n: nat)
    requires n <= |candidates|
    ensures Aligned(candidates, n, Places(candidates, n), Proven(candidates, n))
  {
    if n == 0 {
    } else {
      hide Leads, Places, Proven, Aligned;
      PlacesHold(candidates, n - 1);
      PlaceStep(candidates, n);
      AlignedGrows(candidates, n, Places(candidates, n - 1), Proven(candidates, n - 1));
    }
  }

  lemma PlacesAre(candidates: seq<Option<Checkpoint>>, n: nat)
    requires n <= |candidates|
    ensures |Places(candidates, n)| == |Proven(candidates, n)|
    ensures forall i | 0 <= i < |Places(candidates, n)| ::
      Places(candidates, n)[i] < n && candidates[Places(candidates, n)[i]] == Some(Proven(candidates, n)[i])
    ensures forall i, j | 0 <= i < j < |Places(candidates, n)| :: Places(candidates, n)[i] < Places(candidates, n)[j]
    ensures forall a: nat :: a in Places(candidates, n) <==> a < n && Leads(candidates, a)
  {
    hide Leads, Proven, Places;
    PlacesHold(candidates, n);
    PlacesRise(candidates, n);
    forall a: nat ensures a in Places(candidates, n) <==> a < n && Leads(candidates, a) {
      PlacesLead(candidates, n, a);
    }
  }

  /** The place at index `i` has `i` leading ones before it. */
  lemma PlaceHasBefore(candidates: seq<Option<Checkpoint>>, n: nat, i: nat)
    requires n <= |candidates| && i < |Places(candidates, n)|
    ensures |LeadersBefore(candidates, Places(candidates, n)[i])| == i
  {
    hide Leads, Places;
    PlacesAre(candidates, n);
    var places := Places(candidates, n);
    BelowCount(places, i);
    assert Below(places, places[i]) == LeadersBefore(candidates, places[i]);
  }

  lemma KeptByIndex(candidates: seq<Option<Checkpoint>>, i: nat)
    requires i < |Places(candidates, |candidates|)|
    ensures var places := Places(candidates, |candidates|);
      && |Proven(candidates, |candidates|)| == |places|
      && (IsKept(candidates, places[i]) <==>
            i < 3 || (Proven(candidates, |candidates|)[i].tested
                      && forall j | 0 <= j < i :: !Proven(candidates, |candidates|)[j].tested))
  {
    hide Leads, Proven, Places, LeadersBefore;
    var n := |candidates|;
    PlacesAre(candidates, n);
    PlaceHasBefore(candidates, n, i);
    var places, proven := Places(candidates, n), Proven(candidates, n);
    assert places[i] in places;
    forall j | 0 <= j < i ensures Leads(candidates, places[j]) && places[j] < places[i] { assert places[j] in places; }
    forall b | 0 <= b < places[i] && Leads(candidates, b) ensures exists j | 0 <= j < i :: places[j] == b {
      assert b in places;
      var j :| 0 <= j < |places| && places[j] == b;
    }
  }

  /** The one at index `i` of the proven ones is to be kept. */
  ghost predicate KeptIndex(proven: seq<Checkpoint>, i: nat) {
    i < |proven| && (i < 3 || (proven[i].tested && forall j | 0 <= j < i :: !proven[j].tested))
  }

  ghost predicate IndexedBy(kept: seq<Checkpoint>, proven: seq<Checkpoint>, indices: seq<nat>) {
    && |indices| == |kept|
    && (forall k | 0 <= k < |indices| :: indices[k] < |proven| && proven[indices[k]] == kept[k])
    && (forall k, l | 0 <= k < l < |indices| :: indices[k] < indices[l])
    && (forall i: nat :: i in indices <==> KeptIndex(proven, i))
  }

  lemma LatestIndexed(kept: seq<Checkpoint>, proven: seq<Checkpoint>) returns (indices: seq<nat>)
    requires var latest := if |proven| <= LATEST then proven else proven[..LATEST];
      kept == latest && forall c | c in proven && c.tested :: exists d | d in latest :: d.tested
    ensures IndexedBy(kept, proven, indices)
  {
    indices := seq(|kept|, k => k);
    forall i: nat | KeptIndex(proven, i) ensures i < |kept| {
      assert proven[i] in proven;
      if proven[i].tested {
        var d :| d in kept && d.tested;
        var j :| 0 <= j < |kept| && kept[j] == d;
        assert proven[j].tested;
      }
    }
    forall i: nat ensures i in indices <==> KeptIndex(proven, i) {
      if i < |kept| { assert indices[i] == i; }
    }
  }

  lemma TestedIndexed(kept: seq<Checkpoint>, proven: seq<Checkpoint>, t: nat) returns (indices: seq<nat>)
    requires LATEST <= t < |proven| && kept == proven[..LATEST] + [proven[t]]
    requires proven[t].tested && forall i | 0 <= i < t :: !proven[i].tested
    ensures IndexedBy(kept, proven, indices)
  {
    indices := [0, 1, 2, t];
  }

  lemma RetainedIndexed(kept: seq<Checkpoint>, proven: seq<Checkpoint>) returns (indices: seq<nat>)
    requires Retained(kept, proven)
    ensures IndexedBy(kept, proven, indices)
  {
    hide IndexedBy;
    var latest := if |proven| <= LATEST then proven else proven[..LATEST];
    if kept == latest && forall c | c in proven && c.tested :: exists d | d in latest :: d.tested {
      indices := LatestIndexed(kept, proven);
    } else {
      var t :| LATEST <= t < |proven| && kept == latest + [proven[t]] && proven[t].tested
               && forall i | 0 <= i < t :: !proven[i].tested;
      indices := TestedIndexed(kept, proven, t);
    }
  }

  lemma Composed(places: seq<nat>, indices: seq<nat>) returns (at: seq<nat>)
    requires forall i, j | 0 <= i < j < |places| :: places[i] < places[j]
    requires forall k | 0 <= k < |indices| :: indices[k] < |places|
    requires forall k, l | 0 <= k < l < |indices| :: indices[k] < indices[l]
    ensures |at| == |indices| && forall k | 0 <= k < |indices| :: at[k] == places[indices[k]]
    ensures forall k, l | 0 <= k < l < |at| :: at[k] < at[l]
    ensures forall i | 0 <= i < |places| :: places[i] in at <==> i in indices
    ensures forall a | a in at :: a in places
  {
    at := seq(|indices|, k requires 0 <= k < |indices| => places[indices[k]]);
    forall i | 0 <= i < |places| ensures places[i] in at <==> i in indices {
      if i in indices {
        var k :| 0 <= k < |indices| && indices[k] == i;
        assert at[k] == places[i];
      }
      if places[i] in at {
        var k :| 0 <= k < |at| && at[k] == places[i];
        assert indices[k] == i;
      }
    }
  }

  lemma IndexKept(proven: seq<Checkpoint>, i: nat)
    requires i < |proven|
    ensures KeptIndex(proven, i) <==> i < 3 || (proven[i].tested && forall j | 0 <= j < i :: !proven[j].tested)
  {}

  lemma KeptLeads(candidates: seq<Option<Checkpoint>>, a: nat)
    requires IsKept(candidates, a)
    ensures a < |candidates| && Leads(candidates, a)
  {}

  /** What is kept stands at exactly the places to be kept, in the candidates' order. */
  lemma RetainedByPlace(kept: seq<Checkpoint>, candidates: seq<Option<Checkpoint>>) returns (at: seq<nat>)
    requires Retained(kept, Proven(candidates, |candidates|))
    ensures KeptAt(kept, candidates, at)
  {
    hide Leads, Proven, Places, IsKept, Retained, KeptIndex;
    var n := |candidates|;
    PlacesAre(candidates, n);
    var places, proven := Places(candidates, n), Proven(candidates, n);
    var indices := RetainedIndexed(kept, proven);
    at := Composed(places, indices);
    forall a: nat ensures a in at <==> IsKept(candidates, a) {
      if IsKept(candidates, a) { KeptLeads(candidates, a); }
      if a in places {
        var i :| 0 <= i < |places| && places[i] == a;
        KeptByIndex(candidates, i);
        IndexKept(proven, i);
      }
    }
  }

  /** The verified candidates with distinct names that are kept, in their order: the first three, and the first
      restore-tested one. */
  method RetainedCheckpoints(candidates: seq<Option<Checkpoint>>) returns (kept: seq<Checkpoint>)
    ensures Retained(kept, Proven(candidates, |candidates|))
    ensures exists places :: KeptAt(kept, candidates, places)
  {
    var result: seq<Checkpoint>, seen := [], {};
    for n := 0 to |candidates|
      invariant result == Proven(candidates, n) && seen == Keys(result)
    {
      if Counts(candidates[n]) {
        var item := candidates[n].value;
        ProvenKeys(candidates, n, Key(item));
        KeysGrow(result, item);
        if Key(item) !in seen {
          assert !Repeats(candidates, n);
          seen := seen + {Key(item)};
          result := result + [item];
        } else {
          assert Repeats(candidates, n);
        }
      }
    }
    ProvenDistinct(candidates, |candidates|);
    kept := KeepTested(result);
    hide Proven, Retained;
    ghost var places := RetainedByPlace(kept, candidates);
  }

  // ----- Staging -----------------------------------------------------------------------------

  const SUFFIXES := "abcde"

  function Candidate(prefix: string, k: nat): string
    requires k < |SUFFIXES|
  {
    prefix + "_" + [SUFFIXES[k]]
  }

  lemma CandidatesDiffer(prefix: string, j: nat, k: nat)
    requires j < k < |SUFFIXES|
    ensures Candidate(prefix, j) != Candidate(prefix, k)
  {
    assert Candidate(prefix, j)[|prefix| + 1] != Candidate(prefix, k)[|prefix| + 1];
  }

  ghost function Occupied(checkpoints: seq<Checkpoint>): set<string> {
    set c | c in checkpoints :: SaveSlot(c)
  }

  /** The first of five slots that no checkpoint occupies; none only when all five are taken. */
  method StagingSlot(prefix: string, checkpoints: seq<Checkpoint>) returns (r: Option<string>)
    ensures r.Some? ==> r.value !in Occupied(checkpoints) && exists k | 0 <= k < |SUFFIXES| ::
      r.value == Candidate(prefix, k) && forall j | 0 <= j < k :: Candidate(prefix, j) in Occupied(checkpoints)
    ensures r.None? <==> forall k | 0 <= k < |SUFFIXES| :: Candidate(prefix, k) in Occupied(checkpoints)
  {
    var occupied := set c | c in checkpoints :: SaveSlot(c);
    for k := 0 to |SUFFIXES|
      invariant forall j | 0 <= j < k :: Candidate(prefix, j) in Occupied(checkpoints)
    {
      if Candidate(prefix, k) !in occupied {
        return Some(Candidate(prefix, k));
      }
    }
    r := None;
  }

  lemma {:induction false} FewSlots(checkpoints: seq<Checkpoint>)
    ensures |Occupied(checkpoints)| <= |checkpoints|
  {
    if checkpoints == [] {
      assert Occupied(checkpoints) == {};
    } else {
      FewSlots(checkpoints[1..]);
      assert checkpoints == [checkpoints[0]] + checkpoints[1..];
      assert Occupied(checkpoints) == {SaveSlot(checkpoints[0])} + Occupied(checkpoints[1..]);
    }
  }

  lemma FiveDistinct(s: set<string>, a: string, b: string, c: string, d: string, e: string)
    requires a in s && b in s && c in s && d in s && e in s
    requires a != b && a != c && a != d && a != e && b != c && b != d && b != e && c != d && c != e && d != e
    ensures |s| >= 5
  {
    assert s == s - {a, b, c, d, e} + {a, b, c, d, e};
    assert |{a, b, c, d, e}| == 5;
  }

  /** Among up to four checkpoints one of the five slots is always free. */
  lemma FourLeaveOneFree(prefix: string, checkpoints: seq<Checkpoint>)
    requires |checkpoints| <= LATEST + 1
    ensures exists k | 0 <= k < |SUFFIXES| :: Candidate(prefix, k) !in Occupied(checkpoints)
  {
    FewSlots(checkpoints);
    if forall k | 0 <= k < |SUFFIXES| :: Candidate(prefix, k) in Occupied(checkpoints) {
      forall j, k | 0 <= j < k < |SUFFIXES| ensures Candidate(prefix, j) != Candidate(prefix, k) {
        CandidatesDiffer(prefix, j, k);
      }
      FiveDistinct(Occupied(checkpoints), Candidate(prefix, 0), Candidate(prefix, 1), Candidate(prefix, 2),
                   Candidate(prefix, 3), Candidate(prefix, 4));
    }
  }

  /** No checkpoint kept lies in this slot: neither its native slot nor, when it has none, its slot. */
  ghost predicate Untouched(kept: seq<Checkpoint>, slot: string) {
    forall i | 0 <= i < |kept| ::
      (kept[i].native != "" ==> kept[i].native != slot) && (kept[i].native == "" ==> kept[i].slot != slot)
  }

  lemma FreeIsUntouched(kept: seq<Checkpoint>, slot: string)
    ensures slot !in Occupied(kept) <==> Untouched(kept, slot)
  {
    if slot !in Occupied(kept) {
      forall i | 0 <= i < |kept| ensures SaveSlot(kept[i]) != slot { assert kept[i] in kept; }
    }
  }

  /** A new save is always staged, in the first of the five slots that holds none of what is kept. */
  method StageBeside(prefix: string, candidates: seq<Option<Checkpoint>>)
    returns (slot: string, kept: seq<Checkpoint>)
    ensures exists places :: KeptAt(kept, candidates, places)
    ensures Untouched(kept, slot)
    ensures exists k | 0 <= k < 5 ::
      slot == prefix + "_" + ["abcde"[k]] && forall j | 0 <= j < k :: !Untouched(kept, prefix + "_" + ["abcde"[j]])
  {
    hide KeptAt, Retained, Untouched;
    kept := RetainedCheckpoints(candidates);
    RetentionIsBounded(kept, candidates);
    FourLeaveOneFree(prefix, kept);
    var staged := StagingSlot(prefix, kept);
    slot := staged.value;
    FreeIsUntouched(kept, slot);
    ghost var k :| 0 <= k < |SUFFIXES| && slot == Candidate(prefix, k)
                   && forall j | 0 <= j < k :: Candidate(prefix, j) in Occupied(kept);
    forall j | 0 <= j < k ensures !Untouched(kept, prefix + "_" + ["abcde"[j]]) {
      FreeIsUntouched(kept, Candidate(prefix, j));
    }
  }
}
