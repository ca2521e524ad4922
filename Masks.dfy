/** Boolean masks over sequences, as numpy's `array[mask]` applies them: the
    positions of a mask's true entries, and the order-keeping selection of the
    elements at those positions. */
module Masks {
  /** `idx` lists the positions of a mask's true entries in increasing order:
      each is a true entry, they strictly increase, and every true entry is
      among them. */
  predicate Enumerates(mask: seq<bool>, idx: seq<nat>)
  {
    (forall k :: 0 <= k < |idx| ==> idx[k] < |mask| && mask[idx[k]])
    && (forall k, l :: 0 <= k < l < |idx| ==> idx[k] < idx[l])
    && (forall j :: 0 <= j < |mask| && mask[j] ==> j in idx)
  }

  /** The positions of a mask's true entries, in increasing order. */
  function TruePositions(mask: seq<bool>): (idx: seq<nat>)
    ensures Enumerates(mask, idx)
    decreases |mask|
  {
    if mask == [] then []
    else
      var n := |mask| - 1;
      var init := TruePositions(mask[..n]);
      assert forall k :: 0 <= k < |init| ==> mask[..n][init[k]] == mask[init[k]];
      assert forall j :: 0 <= j < n ==> mask[..n][j] == mask[j];
      if mask[n] then init + [n] else init
  }

  /** An enumeration of a mask whose last entry is false enumerates the mask
      without that entry. */
  lemma EnumeratesInitFalse(mask: seq<bool>, idx: seq<nat>)
    requires mask != [] && !mask[|mask| - 1] && Enumerates(mask, idx)
    ensures Enumerates(mask[..|mask| - 1], idx)
  {
    var n := |mask| - 1;
    forall k | 0 <= k < |idx| ensures idx[k] < n && mask[..n][idx[k]] {
      assert mask[idx[k]];
    }
    forall j | 0 <= j < n && mask[..n][j] ensures j in idx {
      assert mask[j];
    }
  }

  /** An enumeration of a mask whose last entry is true ends with that
      position, and the positions before it enumerate the rest of the mask. */
  lemma EnumeratesInitTrue(mask: seq<bool>, idx: seq<nat>)
    requires mask != [] && mask[|mask| - 1] && Enumerates(mask, idx)
    ensures idx != [] && idx == idx[..|idx| - 1] + [|mask| - 1]
    ensures Enumerates(mask[..|mask| - 1], idx[..|idx| - 1])
  {
    var n := |mask| - 1;
    assert n in idx;
    var last := |idx| - 1;
    assert idx[last] == n by {
      var p :| 0 <= p < |idx| && idx[p] == n;
      if p < last {
        assert idx[p] < idx[last];
      }
    }
    var front := idx[..last];
    assert idx == front + [n];
    forall k | 0 <= k < |front| ensures front[k] < n && mask[..n][front[k]] {
      assert front[k] == idx[k] < idx[last];
    }
    forall j | 0 <= j < n && mask[..n][j] ensures j in front {
      assert mask[j];
      var k :| 0 <= k < |idx| && idx[k] == j;
      assert front[k] == j;
    }
  }

  /** The enumeration is unique: any index sequence that enumerates the mask is
      `TruePositions(mask)`. */
  lemma {:induction false} TruePositionsUnique(mask: seq<bool>, idx: seq<nat>)
    requires Enumerates(mask, idx)
    ensures idx == TruePositions(mask)
    decreases |mask|
  {
    if mask == [] {
      PositionsBound(idx, 0);
    } else {
      var n := |mask| - 1;
      if mask[n] {
        EnumeratesInitTrue(mask, idx);
        TruePositionsUnique(mask[..n], idx[..|idx| - 1]);
        assert TruePositions(mask) == TruePositions(mask[..n]) + [n];
      } else {
        EnumeratesInitFalse(mask, idx);
        TruePositionsUnique(mask[..n], idx);
        assert TruePositions(mask) == TruePositions(mask[..n]);
      }
    }
  }

  /** The positions `0, 1, ..., m - 1`. */
  function Range(m: nat): (r: seq<nat>)
    ensures |r| == m && forall k :: 0 <= k < m ==> r[k] == k
  {
    seq(m, k requires 0 <= k < m => k)
  }

  /** A strictly increasing sequence of indices below `n` has at most `n` entries. */
  lemma {:induction false} PositionsBound(idx: seq<nat>, n: nat)
    requires forall k :: 0 <= k < |idx| ==> idx[k] < n
    requires forall k, l :: 0 <= k < l < |idx| ==> idx[k] < idx[l]
    ensures |idx| <= n
    decreases n
  {
    if idx != [] {
      var m := |idx| - 1;
      assert forall k :: 0 <= k < m ==> idx[..m][k] == idx[k] < idx[m];
      PositionsBound(idx[..m], idx[m]);
    }
  }

  /** `r` is the order-keeping selection of `s` by `mask`: its `k`-th element
      is the one at the `k`-th true position, and it has one element per true
      entry. */
  predicate Selects<T(==)>(r: seq<T>, s: seq<T>, mask: seq<bool>)
    requires |mask| == |s|
  {
    |r| == |TruePositions(mask)|
    && forall k :: 0 <= k < |r| ==> r[k] == s[TruePositions(mask)[k]]
  }

  /** `s[mask]`: the elements at the mask's true positions, once each and in
      their order; hence exactly the masked elements. */
  function Select<T(==)>(s: seq<T>, mask: seq<bool>): (r: seq<T>)
    requires |mask| == |s|
    ensures Selects(r, s, mask)
    ensures |r| <= |s|
    ensures forall x :: x in r ==> exists j :: 0 <= j < |s| && mask[j] && s[j] == x
    ensures forall j :: 0 <= j < |s| && mask[j] ==> s[j] in r
    decreases |s|
  {
    if s == [] then []
    else
      var n := |s| - 1;
      var init := Select(s[..n], mask[..n]);
      var r := if mask[n] then init + [s[n]] else init;
      SelectStep(s, mask, init, r);
      SelectionMembers(s, mask, r);
      r
  }

  /** The last element joins the selection of the others exactly when it is masked. */
  lemma SelectStep<T>(s: seq<T>, mask: seq<bool>, init: seq<T>, r: seq<T>)
    requires |mask| == |s| && s != []
    requires Selects(init, s[..|s| - 1], mask[..|s| - 1])
    requires r == if mask[|s| - 1] then init + [s[|s| - 1]] else init
    ensures Selects(r, s, mask)
  {
    var n := |s| - 1;
    var ti := TruePositions(mask[..n]);
    assert TruePositions(mask) == if mask[n] then ti + [n] else ti;
    forall k | 0 <= k < |init| ensures r[k] == s[TruePositions(mask)[k]] {
      assert r[k] == init[k] == s[..n][ti[k]];
    }
  }

  /** What a selection implies: membership in both directions and the size bound. */
  lemma SelectionMembers<T>(s: seq<T>, mask: seq<bool>, r: seq<T>)
    requires |mask| == |s| && Selects(r, s, mask)
    ensures |r| <= |s|
    ensures forall x :: x in r ==> exists j :: 0 <= j < |s| && mask[j] && s[j] == x
    ensures forall j :: 0 <= j < |s| && mask[j] ==> s[j] in r
  {
    var idx := TruePositions(mask);
    PositionsBound(idx, |s|);
    forall x | x in r ensures exists j :: 0 <= j < |s| && mask[j] && s[j] == x {
      var k :| 0 <= k < |r| && r[k] == x;
      assert mask[idx[k]] && s[idx[k]] == x;
    }
    forall j | 0 <= j < |s| && mask[j] ensures s[j] in r {
      var k :| 0 <= k < |idx| && idx[k] == j;
      assert r[k] == s[j];
    }
  }
}
