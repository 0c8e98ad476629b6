/** Offset-set operations on ordered collections: the semantics of Swift's
    `remove(atOffsets:)` and `move(fromOffsets:toOffset:)` stated on sequences.
    An offset set is a set of positions (Foundation's IndexSet). */
module Offsets {

  /** Every offset is a valid position in a collection of n elements,
      which both Swift operations demand of their callers. */
  predicate InRange(offsets: set<int>, n: int) {
    forall k :: k in offsets ==> 0 <= k < n
  }

  /** The positions in [lo, hi) that are in `offsets` (chosen) or that are
      not (not chosen), in ascending order. */
  function Positions(offsets: set<int>, lo: nat, hi: nat, chosen: bool): seq<int>
    decreases hi - lo
  {
    if lo >= hi then []
    else (if (lo in offsets) == chosen then [lo] else []) + Positions(offsets, lo + 1, hi, chosen)
  }

  /** The elements of s[lo..hi] whose position is in `offsets` (chosen) or
      is not (not chosen), in their original order. */
  function Pick<T>(s: seq<T>, offsets: set<int>, lo: nat, hi: nat, chosen: bool): seq<T>
    requires hi <= |s|
    decreases hi - lo
  {
    if lo >= hi then []
    else (if (lo in offsets) == chosen then [s[lo]] else []) + Pick(s, offsets, lo + 1, hi, chosen)
  }

  /** The offsets that fall in [lo, hi). */
  ghost function Window(offsets: set<int>, lo: int, hi: int): set<int> {
    set k | k in offsets && lo <= k < hi
  }

  /** Positions lists, in strictly ascending order, exactly the positions of
      [lo, hi) whose membership in `offsets` is `chosen`. */
  lemma {:induction false} PositionsExact(offsets: set<int>, lo: nat, hi: nat, chosen: bool)
    ensures forall j :: 0 <= j < |Positions(offsets, lo, hi, chosen)| ==>
      lo <= Positions(offsets, lo, hi, chosen)[j] < hi
    ensures forall i, j :: 0 <= i < j < |Positions(offsets, lo, hi, chosen)| ==>
      Positions(offsets, lo, hi, chosen)[i] < Positions(offsets, lo, hi, chosen)[j]
    ensures forall k :: k in Positions(offsets, lo, hi, chosen) <==>
      lo <= k < hi && (k in offsets) == chosen
    decreases hi - lo
  {
    if lo < hi {
      PositionsExact(offsets, lo + 1, hi, chosen);
    }
  }

  /** Pick takes s at exactly the positions that Positions lists, one for one. */
  lemma {:induction false} PickAt<T>(s: seq<T>, offsets: set<int>, lo: nat, hi: nat, chosen: bool)
    requires hi <= |s|
    ensures |Pick(s, offsets, lo, hi, chosen)| == |Positions(offsets, lo, hi, chosen)|
    ensures forall j :: 0 <= j < |Pick(s, offsets, lo, hi, chosen)| ==>
      0 <= Positions(offsets, lo, hi, chosen)[j] < |s| &&
      Pick(s, offsets, lo, hi, chosen)[j] == s[Positions(offsets, lo, hi, chosen)[j]]
    decreases hi - lo
  {
    if lo < hi {
      PickAt(s, offsets, lo + 1, hi, chosen);
      PositionsExact(offsets, lo + 1, hi, chosen);
    }
  }

  /** Picking over [lo, hi) is picking over [lo, mid) followed by [mid, hi). */
  lemma {:induction false} PickSplit<T>(s: seq<T>, offsets: set<int>, lo: nat, mid: nat, hi: nat, chosen: bool)
    requires lo <= mid <= hi <= |s|
    ensures Pick(s, offsets, lo, hi, chosen) == Pick(s, offsets, lo, mid, chosen) + Pick(s, offsets, mid, hi, chosen)
    decreases mid - lo
  {
    if lo < mid {
      PickSplit(s, offsets, lo + 1, mid, hi, chosen);
    }
  }

  /** The chosen elements are as many as the offsets in the window, and the
      chosen and the unchosen ones together are as many as the window is wide. */
  lemma {:induction false} PickCount<T>(s: seq<T>, offsets: set<int>, lo: nat, hi: nat)
    requires lo <= hi <= |s|
    ensures |Pick(s, offsets, lo, hi, true)| == |Window(offsets, lo, hi)|
    ensures |Pick(s, offsets, lo, hi, true)| + |Pick(s, offsets, lo, hi, false)| == hi - lo
    decreases hi - lo
  {
    if lo == hi {
      assert Window(offsets, lo, hi) == {};
    } else {
      PickCount(s, offsets, lo + 1, hi);
      var rest := Window(offsets, lo + 1, hi);
      assert lo !in rest;
      if lo in offsets {
        assert Window(offsets, lo, hi) == {lo} + rest;
      } else {
        assert Window(offsets, lo, hi) == rest;
      }
    }
  }

  /** Adding one element in front of either part adds it in front of the whole. */
  lemma MultisetCons<T>(x: T, a: seq<T>, b: seq<T>, whole: seq<T>)
    requires multiset(a) + multiset(b) == multiset(whole)
    ensures multiset([x] + a) + multiset(b) == multiset([x] + whole)
    ensures multiset(a) + multiset([x] + b) == multiset([x] + whole)
  {
  }

  /** The chosen and the unchosen elements together are the elements of s[lo..hi]. */
  lemma {:induction false} PickMultiset<T>(s: seq<T>, offsets: set<int>, lo: nat, hi: nat)
    requires lo <= hi <= |s|
    ensures multiset(Pick(s, offsets, lo, hi, true)) + multiset(Pick(s, offsets, lo, hi, false))
         == multiset(s[lo..hi])
    decreases hi - lo
  {
    if lo < hi {
      var x, tail := s[lo], s[lo + 1..hi];
      assert multiset(s[lo..hi]) == multiset([x] + tail) by {
        assert s[lo..hi] == [x] + tail;
      }
      assert multiset(Pick(s, offsets, lo, hi, true)) + multiset(Pick(s, offsets, lo, hi, false))
          == multiset([x] + tail) by {
        PickMultiset(s, offsets, lo + 1, hi);
        MultisetCons(x, Pick(s, offsets, lo + 1, hi, true), Pick(s, offsets, lo + 1, hi, false), tail);
      }
    } else {
      assert s[lo..hi] == [];
    }
  }

  /** When every offset is in range, the window over the whole collection is the offset set. */
  lemma WindowAll(offsets: set<int>, n: nat)
    requires InRange(offsets, n)
    ensures Window(offsets, 0, n) == offsets
  {
  }

  /** The elements at the offsets, in their original order. */
  function Selected<T>(s: seq<T>, offsets: set<int>): (r: seq<T>)
    requires InRange(offsets, |s|)
    ensures |r| == |offsets|
  {
    PickCount(s, offsets, 0, |s|);
    WindowAll(offsets, |s|);
    Pick(s, offsets, 0, |s|, true)
  }

  /** Selected(s, offsets)[j] is s at the j-th smallest offset. */
  lemma SelectedAt<T>(s: seq<T>, offsets: set<int>)
    requires InRange(offsets, |s|)
    ensures |Selected(s, offsets)| == |Positions(offsets, 0, |s|, true)|
    ensures forall j :: 0 <= j < |Selected(s, offsets)| ==>
      0 <= Positions(offsets, 0, |s|, true)[j] < |s| &&
      Positions(offsets, 0, |s|, true)[j] in offsets &&
      Selected(s, offsets)[j] == s[Positions(offsets, 0, |s|, true)[j]]
    ensures forall i, j :: 0 <= i < j < |Selected(s, offsets)| ==>
      Positions(offsets, 0, |s|, true)[i] < Positions(offsets, 0, |s|, true)[j]
    ensures forall k :: k in offsets ==> k in Positions(offsets, 0, |s|, true)
  {
    PickAt(s, offsets, 0, |s|, true);
    PositionsExact(offsets, 0, |s|, true);
  }

  /** `remove(atOffsets:)`: keeps the elements whose position is not an
      offset, in their original order; one element fewer per offset. */
  function Remove<T>(s: seq<T>, offsets: set<int>): (r: seq<T>)
    requires InRange(offsets, |s|)
    ensures |r| == |s| - |offsets|
  {
    PickCount(s, offsets, 0, |s|);
    WindowAll(offsets, |s|);
    Pick(s, offsets, 0, |s|, false)
  }

  /** Remove(s, offsets)[j] is s at the j-th smallest position that is not an
      offset, and every such position is taken: the survivors, exactly, in
      their original order. */
  lemma RemoveAt<T>(s: seq<T>, offsets: set<int>)
    requires InRange(offsets, |s|)
    ensures |Remove(s, offsets)| == |Positions(offsets, 0, |s|, false)|
    ensures forall j :: 0 <= j < |Remove(s, offsets)| ==>
      0 <= Positions(offsets, 0, |s|, false)[j] < |s| &&
      Positions(offsets, 0, |s|, false)[j] !in offsets &&
      Remove(s, offsets)[j] == s[Positions(offsets, 0, |s|, false)[j]]
    ensures forall i, j :: 0 <= i < j < |Remove(s, offsets)| ==>
      Positions(offsets, 0, |s|, false)[i] < Positions(offsets, 0, |s|, false)[j]
    ensures forall k :: 0 <= k < |s| && k !in offsets ==> k in Positions(offsets, 0, |s|, false)
  {
    PickAt(s, offsets, 0, |s|, false);
    PositionsExact(offsets, 0, |s|, false);
  }

  /** What Remove takes out is exactly the elements at the offsets. */
  lemma RemoveMultiset<T>(s: seq<T>, offsets: set<int>)
    requires InRange(offsets, |s|)
    ensures multiset(Remove(s, offsets)) + multiset(Selected(s, offsets)) == multiset(s)
  {
    PickMultiset(s, offsets, 0, |s|);
    assert s[0..|s|] == s;
  }

  /** `move(fromOffsets:toOffset:)`: the elements that stay and lie before
      `destination`, then the moved elements in their original order, then the
      elements that stay and lie at or after `destination`. */
  function Move<T>(s: seq<T>, offsets: set<int>, destination: int): (r: seq<T>)
    requires InRange(offsets, |s|) && 0 <= destination <= |s|
    ensures |r| == |s|
  {
    PickCount(s, offsets, 0, destination);
    PickCount(s, offsets, destination, |s|);
    PickCount(s, offsets, 0, |s|);
    PickSplit(s, offsets, 0, destination, |s|, false);
    Pick(s, offsets, 0, destination, false) + Selected(s, offsets) + Pick(s, offsets, destination, |s|, false)
  }

  /** Move only rearranges: the result is a permutation of the input. */
  lemma MovePermutes<T>(s: seq<T>, offsets: set<int>, destination: int)
    requires InRange(offsets, |s|) && 0 <= destination <= |s|
    ensures multiset(Move(s, offsets, destination)) == multiset(s)
  {
    PickSplit(s, offsets, 0, destination, |s|, false);
    RemoveMultiset(s, offsets);
  }

  /** Where the moved block lands in the result of Move, and that both the
      moved and the staying elements keep their relative order: the block
      starts at `destination` less the number of moved elements before it,
      holds the moved elements in their original order, and cutting it out
      leaves exactly what Remove leaves. */
  lemma MoveBlocks<T>(s: seq<T>, offsets: set<int>, destination: int)
    requires InRange(offsets, |s|) && 0 <= destination <= |s|
    ensures var r := Move(s, offsets, destination);
      var p := destination - |Window(offsets, 0, destination)|;
      0 <= p && p + |offsets| <= |r| &&
      r[p..p + |offsets|] == Selected(s, offsets) &&
      r[..p] + r[p + |offsets|..] == Remove(s, offsets)
  {
    var r := Move(s, offsets, destination);
    var before := Pick(s, offsets, 0, destination, false);
    var after := Pick(s, offsets, destination, |s|, false);
    var moved := Selected(s, offsets);
    PickCount(s, offsets, 0, destination);
    PickSplit(s, offsets, 0, destination, |s|, false);
    var p := |before|;
    assert p == destination - |Window(offsets, 0, destination)|;
    assert r == before + moved + after;
    assert r[..p] == before;
    assert r[p..p + |moved|] == moved;
    assert r[p + |moved|..] == after;
  }

  /** Where no offset falls in [lo, hi), nothing there is dropped. */
  lemma {:induction false} PickUntouched<T>(s: seq<T>, offsets: set<int>, lo: nat, hi: nat)
    requires lo <= hi <= |s|
    requires forall k :: lo <= k < hi ==> k !in offsets
    ensures Pick(s, offsets, lo, hi, false) == s[lo..hi]
    decreases hi - lo
  {
    if lo < hi {
      PickUntouched(s, offsets, lo + 1, hi);
      assert s[lo..hi] == [s[lo]] + s[lo + 1..hi];
    }
  }

  /** Deleting a single offset i drops exactly the item at i. */
  lemma RemoveOne<T>(s: seq<T>, i: int)
    requires 0 <= i < |s|
    ensures Remove(s, {i}) == s[..i] + s[i + 1..]
  {
    PickSplit(s, {i}, 0, i, |s|, false);
    PickUntouched(s, {i}, 0, i);
    PickUntouched(s, {i}, i + 1, |s|);
  }

  /** Moving a single item to just before or just after itself changes nothing. */
  lemma MoveInPlace<T>(s: seq<T>, i: int)
    requires 0 <= i < |s|
    ensures Move(s, {i}, i) == s
    ensures Move(s, {i}, i + 1) == s
  {
    var front, back := s[..i], s[i + 1..];
    assert Selected(s, {i}) == [s[i]] by {
      SelectedAt(s, {i});
    }
    assert Pick(s, {i}, 0, i, false) == front by {
      PickUntouched(s, {i}, 0, i);
    }
    assert Pick(s, {i}, i, |s|, false) == back by {
      PickUntouched(s, {i}, i + 1, |s|);
    }
    assert Pick(s, {i}, 0, i + 1, false) == front by {
      PickSplit(s, {i}, 0, i, i + 1, false);
    }
    assert Pick(s, {i}, i + 1, |s|, false) == back by {
      PickUntouched(s, {i}, i + 1, |s|);
    }
    assert s == front + [s[i]] + back;
  }

  /** Moving the single item i to an earlier (or the same) offset j puts it
      just before the item that was at j. */
  lemma MoveOneBack<T>(s: seq<T>, i: int, j: int)
    requires 0 <= j <= i < |s|
    ensures Move(s, {i}, j) == s[..j] + [s[i]] + s[j..i] + s[i + 1..]
  {
    assert Selected(s, {i}) == [s[i]] by {
      SelectedAt(s, {i});
    }
    assert Pick(s, {i}, 0, j, false) == s[..j] by {
      PickUntouched(s, {i}, 0, j);
    }
    assert Pick(s, {i}, j, |s|, false) == s[j..i] + s[i + 1..] by {
      PickSplit(s, {i}, j, i, |s|, false);
      PickUntouched(s, {i}, j, i);
      PickUntouched(s, {i}, i + 1, |s|);
    }
  }

  /** Moving the single item i to a later offset j puts it just before the
      item that was at j, or at the end when j is the length. */
  lemma MoveOneForward<T>(s: seq<T>, i: int, j: int)
    requires 0 <= i < j <= |s|
    ensures Move(s, {i}, j) == s[..i] + s[i + 1..j] + [s[i]] + s[j..]
  {
    assert Selected(s, {i}) == [s[i]] by {
      SelectedAt(s, {i});
    }
    var front, middle := s[..i], s[i + 1..j];
    assert Pick(s, {i}, i, j, false) == middle by {
      PickUntouched(s, {i}, i + 1, j);
    }
    assert Pick(s, {i}, 0, j, false) == front + middle by {
      PickSplit(s, {i}, 0, i, j, false);
      PickUntouched(s, {i}, 0, i);
    }
    assert Pick(s, {i}, j, |s|, false) == s[j..] by {
      PickUntouched(s, {i}, j, |s|);
    }
  }

  /** Dragging one item from offset i to offset j: the item lands just before
      the item that was at j, and every other item keeps its order. */
  lemma MoveOne<T>(s: seq<T>, i: int, j: int)
    requires 0 <= i < |s| && 0 <= j <= |s|
    ensures j <= i ==> Move(s, {i}, j) == s[..j] + [s[i]] + s[j..i] + s[i + 1..]
    ensures i < j ==> Move(s, {i}, j) == s[..i] + s[i + 1..j] + [s[i]] + s[j..]
  {
    if j <= i {
      MoveOneBack(s, i, j);
    } else {
      MoveOneForward(s, i, j);
    }
  }

  /** With no offsets, neither operation changes the collection. */
  lemma NoOffsets<T>(s: seq<T>, destination: int)
    requires 0 <= destination <= |s|
    ensures Remove(s, {}) == s
    ensures Move(s, {}, destination) == s
  {
    PickUntouched(s, {}, 0, |s|);
    PickUntouched(s, {}, 0, destination);
    PickUntouched(s, {}, destination, |s|);
    assert s == s[..destination] + s[destination..];
  }
}
