/**
 * numpy boolean-mask indexing, `a[mask]`, on sequences: the elements of `a`
 * at the positions where `mask` is true, in their original order. The GLUE
 * script uses it twice: to keep the behavioural parameter rows
 * (`params[behavioural, :]`) and to drop the time steps without an
 * observation (`flow[~np.isnan(obs)]`).
 */
module Masking {

  /** The positions where `mask` is true, in increasing order. */
  function TrueIndices(mask: seq<bool>): (idx: seq<nat>)
    ensures |idx| <= |mask|
    decreases |mask|
  {
    if mask == [] then []
    else
      var n := |mask| - 1;
      TrueIndices(mask[..n]) + (if mask[n] then [n] else [])
  }

  /**
   * `TrueIndices(mask)` lists exactly the true positions of `mask`, each
   * once, in increasing order.
   */
  lemma {:induction false} TrueIndicesSpec(mask: seq<bool>)
    ensures var idx := TrueIndices(mask);
            && (forall k :: 0 <= k < |idx| ==> idx[k] < |mask| && mask[idx[k]])
            && (forall k, l :: 0 <= k < l < |idx| ==> idx[k] < idx[l])
            && (forall i :: 0 <= i < |mask| && mask[i] ==> i in idx)
    decreases |mask|
  {
    if mask != [] {
      var n := |mask| - 1;
      TrueIndicesSpec(mask[..n]);
      assert forall i :: 0 <= i < n ==> mask[..n][i] == mask[i];
      var prefix, last := TrueIndices(mask[..n]), if mask[n] then [n] else [];
      assert TrueIndices(mask) == prefix + last;
      forall k | 0 <= k < |prefix| ensures prefix[k] < n && mask[prefix[k]] {
        assert prefix[k] < n && mask[..n][prefix[k]];
      }
    }
  }

  /** `s[mask]`: the elements of `s` at the true positions of `mask`, in order. */
  function Compress<T>(s: seq<T>, mask: seq<bool>): (r: seq<T>)
    requires |s| == |mask|
    ensures |r| == |TrueIndices(mask)| <= |s|
    decreases |s|
  {
    if s == [] then []
    else
      var n := |s| - 1;
      Compress(s[..n], mask[..n]) + (if mask[n] then [s[n]] else [])
  }

  /** Element k of `s[mask]` is the element of `s` at the k-th true position of `mask`. */
  lemma {:induction false} CompressSpec<T>(s: seq<T>, mask: seq<bool>)
    requires |s| == |mask|
    ensures forall k :: 0 <= k < |Compress(s, mask)| ==>
              TrueIndices(mask)[k] < |s| && Compress(s, mask)[k] == s[TrueIndices(mask)[k]]
    decreases |s|
  {
    TrueIndicesSpec(mask);
    if s != [] {
      var n := |s| - 1;
      CompressSpec(s[..n], mask[..n]);
    }
  }

  /** A position is selected by a mask exactly when it is in range and true there. */
  lemma Selected(mask: seq<bool>, i: int)
    ensures i in TrueIndices(mask) <==> 0 <= i < |mask| && mask[i]
  {
    TrueIndicesSpec(mask);
    if i in TrueIndices(mask) {
      var k :| 0 <= k < |TrueIndices(mask)| && TrueIndices(mask)[k] == i;
    }
  }

  /**
   * Element-wise `a & b` of two boolean arrays (numpy `a *= b` on bool):
   * the positions it selects are those selected by both masks.
   */
  function And(a: seq<bool>, b: seq<bool>): (r: seq<bool>)
    requires |a| == |b|
    ensures |r| == |a|
    ensures forall i :: i in TrueIndices(r) <==> i in TrueIndices(a) && i in TrueIndices(b)
  {
    var r := seq(|a|, i requires 0 <= i < |a| => a[i] && b[i]);
    assert forall i :: i in TrueIndices(r) <==> i in TrueIndices(a) && i in TrueIndices(b) by {
      forall i ensures i in TrueIndices(r) <==> i in TrueIndices(a) && i in TrueIndices(b) {
        Selected(r, i);
        Selected(a, i);
        Selected(b, i);
      }
    }
    r
  }

  /** An all-true mask keeps the sequence unchanged. */
  lemma {:induction false} CompressAllTrue<T>(s: seq<T>, mask: seq<bool>)
    requires |s| == |mask|
    requires forall i :: 0 <= i < |mask| ==> mask[i]
    ensures Compress(s, mask) == s
    decreases |s|
  {
    if s != [] {
      var n := |s| - 1;
      assert mask[n];
      assert Compress(s, mask) == Compress(s[..n], mask[..n]) + [s[n]];
      CompressAllTrue(s[..n], mask[..n]);
      assert s[..n] + [s[n]] == s;
    }
  }

  /** An all-false mask keeps nothing. */
  lemma CompressAllFalse<T>(s: seq<T>, mask: seq<bool>)
    requires |s| == |mask|
    requires forall i :: 0 <= i < |mask| ==> !mask[i]
    ensures Compress(s, mask) == []
  {
    TrueIndicesSpec(mask);
  }

  /**
   * Masks that agree everywhere select the same elements of sequences that
   * agree at the selected positions.
   */
  lemma {:induction false} CompressCongruent<T>(s: seq<T>, m: seq<bool>, s': seq<T>, m': seq<bool>)
    requires |s| == |m| == |s'| == |m'|
    requires forall i :: 0 <= i < |m| ==> (m[i] <==> m'[i])
    requires forall i :: 0 <= i < |m| && m[i] ==> s[i] == s'[i]
    ensures Compress(s, m) == Compress(s', m')
    decreases |s|
  {
    if s != [] {
      var n := |s| - 1;
      CompressCongruent(s[..n], m[..n], s'[..n], m'[..n]);
    }
  }

  /**
   * ANDing a further mask into a mask can only remove positions: every
   * position selected by `And(a, b)` is selected by `a`.
   */
  lemma AndNarrowsSelection(a: seq<bool>, b: seq<bool>)
    requires |a| == |b|
    ensures forall i :: i in TrueIndices(And(a, b)) ==> i in TrueIndices(a)
    ensures |TrueIndices(And(a, b))| <= |TrueIndices(a)|
  {
    var ab := And(a, b);
    TrueIndicesSpec(ab);
    TrueIndicesSpec(a);
    forall i | i in TrueIndices(ab) ensures i in TrueIndices(a) {
      var k :| 0 <= k < |TrueIndices(ab)| && TrueIndices(ab)[k] == i;
    }
    TrueIndicesSubsetShorter(ab, a);
  }

  /** A mask that selects a subset of the positions of another selects no more positions. */
  lemma {:induction false} TrueIndicesSubsetShorter(a: seq<bool>, b: seq<bool>)
    requires |a| == |b|
    requires forall i :: 0 <= i < |a| && a[i] ==> b[i]
    ensures |TrueIndices(a)| <= |TrueIndices(b)|
    decreases |a|
  {
    if a != [] {
      var n := |a| - 1;
      TrueIndicesSubsetShorter(a[..n], b[..n]);
    }
  }
}
