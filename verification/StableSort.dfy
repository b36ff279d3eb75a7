/** Stable sorting by a total preorder, and why its result is the only one. */
module StableSort {

  ghost predicate TotalPreorder<T(!new)>(le: (T, T) -> bool) {
    && (forall a, b :: le(a, b) || le(b, a))
    && (forall a, b, c :: le(a, b) && le(b, c) ==> le(a, c))
  }

  ghost predicate Sorted<T>(le: (T, T) -> bool, xs: seq<T>) {
    forall i, j :: 0 <= i < j < |xs| ==> le(xs[i], xs[j])
  }

  /** The elements of xs that rank with x, in their order. */
  function Peers<T>(le: (T, T) -> bool, xs: seq<T>, x: T): seq<T> {
    if xs == [] then []
    else (if le(x, xs[0]) && le(xs[0], x) then [xs[0]] else []) + Peers(le, xs[1..], x)
  }

  /** Sorted, with the elements of every rank in their order. */
  ghost predicate IsStableSort<T(!new)>(le: (T, T) -> bool, xs: seq<T>, sorted: seq<T>) {
    Sorted(le, sorted) && forall x :: Peers(le, sorted, x) == Peers(le, xs, x)
  }

  function Insert<T>(le: (T, T) -> bool, x: T, xs: seq<T>): seq<T> {
    if xs == [] || le(x, xs[0]) then [x] + xs else [xs[0]] + Insert(le, x, xs[1..])
  }

  function Sort<T>(le: (T, T) -> bool, xs: seq<T>): seq<T> {
    if xs == [] then [] else Insert(le, xs[0], Sort(le, xs[1..]))
  }

  lemma {:induction false} InsertKeepsSorted<T(!new)>(le: (T, T) -> bool, x: T, xs: seq<T>)
    requires TotalPreorder(le) && Sorted(le, xs)
    ensures Sorted(le, Insert(le, x, xs))
    ensures multiset(Insert(le, x, xs)) == multiset(xs) + multiset{x}
  {
    if xs == [] {
    } else if le(x, xs[0]) {
      assert forall j :: 0 <= j < |xs| ==> le(xs[0], xs[j]);
    } else {
      var rest := Insert(le, x, xs[1..]);
      InsertKeepsSorted(le, x, xs[1..]);
      assert xs == [xs[0]] + xs[1..];
      forall j | 0 <= j < |rest| ensures le(xs[0], rest[j]) {
        assert rest[j] in multiset(xs[1..]) + multiset{x};
      }
    }
  }

  lemma {:induction false} InsertKeepsPeers<T>(le: (T, T) -> bool, x: T, xs: seq<T>, y: T)
    requires forall a: T, b: T, c: T :: le(a, b) && le(b, c) ==> le(a, c)
    ensures Peers(le, Insert(le, x, xs), y) == Peers(le, [x] + xs, y)
  {
    if xs == [] || le(x, xs[0]) {
    } else {
      var rest := xs[1..];
      InsertKeepsPeers(le, x, rest, y);
      assert Insert(le, x, xs)[1..] == Insert(le, x, rest);
      assert ([x] + xs)[1..] == xs && ([x] + rest)[1..] == rest;
    }
  }

  /** The sort is a stable sorted permutation. */
  lemma {:induction false} SortIsStable<T(!new)>(le: (T, T) -> bool, xs: seq<T>)
    requires TotalPreorder(le)
    ensures IsStableSort(le, xs, Sort(le, xs))
    ensures multiset(Sort(le, xs)) == multiset(xs)
  {
    if xs != [] {
      var sorted := Sort(le, xs[1..]);
      SortIsStable(le, xs[1..]);
      InsertKeepsSorted(le, xs[0], sorted);
      assert xs == [xs[0]] + xs[1..];
      forall x ensures Peers(le, Sort(le, xs), x) == Peers(le, xs, x) {
        InsertKeepsPeers(le, xs[0], sorted, x);
        assert ([xs[0]] + sorted)[1..] == sorted;
      }
    }
  }

  // ---------- Where every element comes from ----------

  /** Indices into xs, each once, in which the places of a sort are filled. */
  ghost predicate IsOrder<T>(le: (T, T) -> bool, xs: seq<T>, order: seq<nat>) {
    && |order| == |xs| && (forall i :: 0 <= i < |order| ==> order[i] < |xs|)
    && (forall i, j :: 0 <= i < j < |order| ==> Precedes(le, xs, order[i], order[j]) && order[i] != order[j])
    && (forall k :: 0 <= k < |xs| ==> k in order)
  }

  /** Strictly less, or of one rank and earlier. */
  ghost predicate Precedes<T>(le: (T, T) -> bool, xs: seq<T>, i: nat, j: nat) {
    i < |xs| && j < |xs| && le(xs[i], xs[j]) && (le(xs[j], xs[i]) ==> i < j)
  }

  function Picked<T>(xs: seq<T>, order: seq<nat>): seq<T>
    requires forall i :: 0 <= i < |order| ==> order[i] < |xs|
  {
    seq(|order|, i requires 0 <= i < |order| => xs[order[i]])
  }

  /** The order of the tail with the index 0 put in its place. */
  function Placed<T>(le: (T, T) -> bool, xs: seq<T>, order: seq<nat>): (placed: seq<nat>)
    requires xs != [] && forall i :: 0 <= i < |order| ==> order[i] < |xs|
    ensures |placed| == |order| + 1 && forall i :: 0 <= i < |placed| ==> placed[i] < |xs|
  {
    if order == [] || le(xs[0], xs[order[0]]) then [0] + order else [order[0]] + Placed(le, xs, order[1..])
  }

  ghost predicate Ascending<T>(le: (T, T) -> bool, xs: seq<T>, order: seq<nat>) {
    forall i, j :: 0 <= i < j < |order| ==> Precedes(le, xs, order[i], order[j])
  }

  lemma {:induction false} PlacedPicks<T>(le: (T, T) -> bool, xs: seq<T>, order: seq<nat>)
    requires xs != [] && forall i :: 0 <= i < |order| ==> order[i] < |xs|
    ensures Picked(xs, Placed(le, xs, order)) == Insert(le, xs[0], Picked(xs, order))
  {
    if order == [] || le(xs[0], xs[order[0]]) {
      assert Picked(xs, [0] + order) == [xs[0]] + Picked(xs, order);
    } else {
      PlacedPicks(le, xs, order[1..]);
      assert Picked(xs, order)[1..] == Picked(xs, order[1..]);
      assert Picked(xs, Placed(le, xs, order)) == [xs[order[0]]] + Picked(xs, Placed(le, xs, order[1..]));
    }
  }

  lemma {:induction false} PlacedMembers<T>(le: (T, T) -> bool, xs: seq<T>, order: seq<nat>, i: nat)
    requires xs != [] && (forall i :: 0 <= i < |order| ==> order[i] < |xs|) && i <= |order|
    ensures Placed(le, xs, order)[i] == 0 || Placed(le, xs, order)[i] in order
  {
    if order != [] && !le(xs[0], xs[order[0]]) && i > 0 {
      PlacedMembers(le, xs, order[1..], i - 1);
    }
  }

  lemma {:induction false} PlacedHolds<T>(le: (T, T) -> bool, xs: seq<T>, order: seq<nat>, k: nat)
    requires xs != [] && forall i :: 0 <= i < |order| ==> order[i] < |xs|
    requires k == 0 || k in order
    ensures k in Placed(le, xs, order)
  {
    if order != [] && !le(xs[0], xs[order[0]]) && k != order[0] {
      PlacedHolds(le, xs, order[1..], k);
    }
  }

  lemma PrecedesChain<T(!new)>(le: (T, T) -> bool, xs: seq<T>, i: nat, j: nat, k: nat)
    requires TotalPreorder(le) && i < j < |xs| && le(xs[i], xs[j]) && Precedes(le, xs, j, k) && i < k
    ensures Precedes(le, xs, i, k)
  {
  }

  lemma {:induction false} PlacedAscends<T(!new)>(le: (T, T) -> bool, xs: seq<T>, order: seq<nat>)
    requires TotalPreorder(le) && xs != [] && Ascending(le, xs, order)
    requires forall i :: 0 <= i < |order| ==> 0 < order[i] < |xs|
    ensures Ascending(le, xs, Placed(le, xs, order))
  {
    var placed := Placed(le, xs, order);
    if order == [] {
    } else if le(xs[0], xs[order[0]]) {
      forall i, j | 0 <= i < j < |placed| ensures Precedes(le, xs, placed[i], placed[j]) {
        if i > 0 {
          assert Precedes(le, xs, order[i - 1], order[j - 1]);
        } else if j > 1 {
          assert Precedes(le, xs, order[0], order[j - 1]);
          PrecedesChain(le, xs, 0, order[0], order[j - 1]);
        }
      }
    } else {
      var rest := Placed(le, xs, order[1..]);
      PlacedAscends(le, xs, order[1..]);
      forall i, j | 0 <= i < j < |placed| ensures Precedes(le, xs, placed[i], placed[j]) {
        if i > 0 {
          assert Precedes(le, xs, rest[i - 1], rest[j - 1]);
        } else {
          PlacedMembers(le, xs, order[1..], j - 1);
          if rest[j - 1] != 0 {
            var k :| 0 <= k < |order[1..]| && order[1..][k] == rest[j - 1];
            assert Precedes(le, xs, order[0], order[k + 1]);
          }
        }
      }
    }
  }

  function Shifted(order: seq<nat>): seq<nat> {
    seq(|order|, i requires 0 <= i < |order| => order[i] + 1)
  }

  lemma ShiftedOrder<T>(le: (T, T) -> bool, xs: seq<T>, rest: seq<nat>)
    requires xs != [] && IsOrder(le, xs[1..], rest)
    ensures var shifted := Shifted(rest);
            && (forall i :: 0 <= i < |shifted| ==> 0 < shifted[i] < |xs|)
            && Ascending(le, xs, shifted) && Picked(xs, shifted) == Picked(xs[1..], rest)
            && (forall k :: 0 < k < |xs| ==> k in shifted)
  {
    var shifted := Shifted(rest);
    forall i, j | 0 <= i < j < |shifted| ensures Precedes(le, xs, shifted[i], shifted[j]) {
      assert Precedes(le, xs[1..], rest[i], rest[j]);
    }
    forall k | 0 < k < |xs| ensures k in shifted {
      var before := k - 1;
      assert before in rest;
      var i :| 0 <= i < |rest| && rest[i] == before;
      assert shifted[i] == k;
    }
    assert Picked(xs, shifted) == Picked(xs[1..], rest);
  }

  /** The sort fills its places from every index once, by rank and then by index. */
  lemma {:induction false} SortHasOrder<T(!new)>(le: (T, T) -> bool, xs: seq<T>) returns (order: seq<nat>)
    requires TotalPreorder(le)
    ensures IsOrder(le, xs, order) && Sort(le, xs) == Picked(xs, order)
  {
    if xs == [] {
      order := [];
    } else {
      var rest := SortHasOrder(le, xs[1..]);
      ShiftedOrder(le, xs, rest);
      var shifted := Shifted(rest);
      hide TotalPreorder, Shifted, Insert, Picked;
      order := Placed(le, xs, shifted);
      PlacedPicks(le, xs, shifted);
      PlacedAscends(le, xs, shifted);
      forall k | 0 <= k < |xs| ensures k in order {
        PlacedHolds(le, xs, shifted, k);
      }
    }
  }

  /** Two stable sorts of the same elements are the same, whatever algorithm
      made them. */
  lemma {:induction false} StableSortIsUnique<T(!new)>(le: (T, T) -> bool, a: seq<T>, b: seq<T>)
    requires TotalPreorder(le) && Sorted(le, a) && Sorted(le, b)
    requires forall x :: Peers(le, a, x) == Peers(le, b, x)
    ensures a == b
  {
    if a == [] || b == [] {
      if a != [] { HeadIsItsPeer(le, a); }
      if b != [] { HeadIsItsPeer(le, b); }
    } else {
      HeadsRankTogether(le, a, b);
      HeadsRankTogether(le, b, a);
      assert Peers(le, a, a[0])[0] == a[0] && Peers(le, b, a[0])[0] == b[0];
      forall x ensures Peers(le, a[1..], x) == Peers(le, b[1..], x) {
        var own := if le(x, a[0]) && le(a[0], x) then [a[0]] else [];
        assert Peers(le, a, x) == own + Peers(le, a[1..], x) && Peers(le, b, x) == own + Peers(le, b[1..], x);
        assert (own + Peers(le, a[1..], x))[|own|..] == Peers(le, a[1..], x);
        assert (own + Peers(le, b[1..], x))[|own|..] == Peers(le, b[1..], x);
      }
      StableSortIsUnique(le, a[1..], b[1..]);
      assert a == [a[0]] + a[1..] && b == [b[0]] + b[1..];
    }
  }

  lemma HeadIsItsPeer<T(!new)>(le: (T, T) -> bool, xs: seq<T>)
    requires TotalPreorder(le) && xs != []
    ensures Peers(le, xs, xs[0]) != []
  {
  }

  lemma HeadsRankTogether<T(!new)>(le: (T, T) -> bool, a: seq<T>, b: seq<T>)
    requires TotalPreorder(le) && a != [] && b != [] && Sorted(le, b)
    requires forall x :: Peers(le, a, x) == Peers(le, b, x)
    ensures le(b[0], a[0])
  {
    assert Peers(le, a, a[0]) != [];
    PeersAreInside(le, b, a[0]);
  }

  lemma {:induction false} PeersAreInside<T>(le: (T, T) -> bool, xs: seq<T>, x: T)
    ensures Peers(le, xs, x) != [] ==> exists i :: 0 <= i < |xs| && le(xs[i], x)
  {
    if xs != [] && !(le(x, xs[0]) && le(xs[0], x)) {
      PeersAreInside(le, xs[1..], x);
      if i :| 0 <= i < |xs| - 1 && le(xs[1..][i], x) {
        assert le(xs[i + 1], x);
      }
    }
  }
}
