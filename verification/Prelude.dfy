/** What several modules share. */
module Prelude {
  datatype Option<+T> = None | Some(value: T)

  function Filtered<T>(xs: seq<T>, keep: T -> bool): seq<T> {
    if xs == [] then []
    else Filtered(xs[..|xs| - 1], keep) + if keep(xs[|xs| - 1]) then [xs[|xs| - 1]] else []
  }

  /** Exactly these are the places where the predicate holds, in ascending order. */
  ghost predicate PlacesOf<T>(xs: seq<T>, keep: T -> bool, places: seq<nat>) {
    && (forall k :: 0 <= k < |places| ==> places[k] < |xs| && keep(xs[places[k]]))
    && (forall k :: 0 < k < |places| ==> places[k - 1] < places[k])
    && (forall i :: 0 <= i < |xs| && keep(xs[i]) ==> i in places)
  }

  lemma PlacesLonger<T>(xs: seq<T>, x: T, keep: T -> bool, places: seq<nat>)
    requires PlacesOf(xs, keep, places) && !keep(x)
    ensures PlacesOf(xs + [x], keep, places)
  {
    forall i | 0 <= i < |xs + [x]| && keep((xs + [x])[i]) ensures i in places {
      assert keep(xs[i]);
    }
  }

  lemma PlacesSnoc<T>(xs: seq<T>, x: T, keep: T -> bool, places: seq<nat>)
    requires PlacesOf(xs, keep, places) && keep(x)
    ensures PlacesOf(xs + [x], keep, places + [|xs|])
  {
    var all, places' := xs + [x], places + [|xs|];
    forall i | 0 <= i < |all| && keep(all[i]) ensures i in places' {
      if i < |xs| {
        assert keep(xs[i]) && i in places;
      } else {
        assert places'[|places|] == i;
      }
    }
  }

  /** The kept elements, in their order, are those at exactly the places where the predicate holds. */
  lemma {:induction false} FilteredPlaces<T>(xs: seq<T>, keep: T -> bool) returns (places: seq<nat>)
    ensures PlacesOf(xs, keep, places) && |places| == |Filtered(xs, keep)|
    ensures forall k :: 0 <= k < |places| ==> Filtered(xs, keep)[k] == xs[places[k]]
  {
    places := [];
    if xs != [] {
      var init, x := xs[..|xs| - 1], xs[|xs| - 1];
      assert xs == init + [x];
      places := FilteredPlaces(init, keep);
      if keep(x) {
        PlacesSnoc(init, x, keep, places);
        places := places + [|init|];
      } else {
        PlacesLonger(init, x, keep, places);
      }
    }
  }

  lemma FilteredHolds<T>(xs: seq<T>, keep: T -> bool, x: T)
    ensures x in Filtered(xs, keep) <==> x in xs && keep(x)
  {
    var places := FilteredPlaces(xs, keep);
    if i :| 0 <= i < |xs| && xs[i] == x && keep(x) {
      var k :| 0 <= k < |places| && places[k] == i;
      assert Filtered(xs, keep)[k] == x;
    }
  }

  lemma {:induction false} FilteredCounts<T>(xs: seq<T>, keep: T -> bool, x: T)
    ensures multiset(Filtered(xs, keep))[x] == if keep(x) then multiset(xs)[x] else 0
  {
    if xs != [] {
      var init := xs[..|xs| - 1];
      FilteredCounts(init, keep, x);
      assert xs == init + [xs[|xs| - 1]];
    }
  }

  /** The parts one after the other. */
  function Concatenated(parts: seq<string>): string {
    if parts == [] then "" else Concatenated(parts[..|parts| - 1]) + parts[|parts| - 1]
  }

  lemma Associative<T>(a: seq<T>, b: seq<T>, c: seq<T>)
    ensures a + (b + c) == (a + b) + c
  {
  }
}
