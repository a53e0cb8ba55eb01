/** Rising listings of positions: how many stand below and above a member. */
module Listings {
  ghost predicate Listing(places: seq<nat>) {
    forall i, j | 0 <= i < j < |places| :: places[i] < places[j]
  }

  ghost function Below(places: seq<nat>, at: nat): set<nat> {
    set b | b in places && b < at
  }

  ghost function Above(places: seq<nat>, at: nat): set<nat> {
    set b | b in places && b > at
  }

  lemma {:induction false} BelowCount(places: seq<nat>, i: nat)
    requires Listing(places) && i < |places|
    ensures |Below(places, places[i])| == i
  {
    if i == 0 {
      assert Below(places, places[0]) == {};
    } else {
      BelowCount(places, i - 1);
      var before := Below(places, places[i - 1]);
      forall b ensures b in Below(places, places[i]) <==> b in before || b == places[i - 1] {
        if b in places {
          var k :| 0 <= k < |places| && places[k] == b;
        }
      }
      assert Below(places, places[i]) == before + {places[i - 1]};
    }
  }

  lemma {:induction false} AboveCount(places: seq<nat>, i: nat)
    requires Listing(places) && i < |places|
    ensures |Above(places, places[i])| == |places| - 1 - i
    decreases |places| - i
  {
    if i == |places| - 1 {
      assert Above(places, places[i]) == {};
    } else {
      AboveCount(places, i + 1);
      var rest := Above(places, places[i + 1]);
      forall b ensures b in Above(places, places[i]) <==> b in rest || b == places[i + 1] {
        if b in places {
          var k :| 0 <= k < |places| && places[k] == b;
        }
      }
      assert Above(places, places[i]) == rest + {places[i + 1]};
    }
  }
}
