/** `Array.prototype.filter` and the notion of an order-preserving
    selection, shared by the 12-hour window and the day grouping. */
module Sequences {

  /** The elements of `s` that satisfy `keep`, in their original order. */
  function Filter<T(!new)>(s: seq<T>, keep: T -> bool): (r: seq<T>)
    ensures |r| <= |s|
    ensures forall x :: x in r <==> x in s && keep(x)
  {
    if s == [] then []
    else Filter(s[..|s| - 1], keep) + (if keep(s[|s| - 1]) then [s[|s| - 1]] else [])
  }

  /** Filtering a sequence extended by one element. */
  lemma FilterSnoc<T(!new)>(s: seq<T>, x: T, keep: T -> bool)
    ensures Filter(s + [x], keep) == Filter(s, keep) + (if keep(x) then [x] else [])
  {
    assert (s + [x])[..|s|] == s;
  }

  /** A non-empty sequence is its prefix followed by its last element. */
  lemma LastSplit<T>(s: seq<T>)
    requires s != []
    ensures s[..|s| - 1] + [s[|s| - 1]] == s
  {
  }

  /** Two maps with the same keys and the same value at each key are equal. */
  lemma MapsEqual<K, V>(a: map<K, V>, b: map<K, V>)
    requires a.Keys == b.Keys
    requires forall k :: k in a ==> a[k] == b[k]
    ensures a == b
  {
  }

  /** Appending after a concatenation extends its second part. */
  lemma AppendOneMore<T>(a: seq<T>, p: seq<T>, x: T)
    ensures a + p + [x] == a + (p + [x])
  {
  }

  /** A prefix agrees with the whole at each of its positions. */
  lemma PrefixIndex<T>(a: seq<T>, b: seq<T>, j: nat)
    requires a <= b && j < |a|
    ensures j < |b| && b[j] == a[j]
  {
  }

  /** Taking one more element of `s` appends it. */
  lemma TakeOneMore<T>(s: seq<T>, i: nat)
    requires i < |s|
    ensures s[..i + 1] == s[..i] + [s[i]]
  {
  }

  /** A filter that keeps every element returns the sequence itself. */
  lemma {:induction false} FilterKeepsAll<T(!new)>(s: seq<T>, keep: T -> bool)
    requires forall i :: 0 <= i < |s| ==> keep(s[i])
    ensures Filter(s, keep) == s
  {
    if s != [] {
      var n := |s| - 1;
      var p := s[..n];
      assert forall i :: 0 <= i < |p| ==> p[i] == s[i];
      FilterKeepsAll(p, keep);
      assert Filter(s, keep) == p + [s[n]];
      LastSplit(s);
    }
  }

  /** The positions of `s` whose element satisfies `keep`, in increasing
      order. */
  function Positions<T(!new)>(s: seq<T>, keep: T -> bool): (idx: seq<nat>)
    ensures |idx| == |Filter(s, keep)|
  {
    if s == [] then []
    else Positions(s[..|s| - 1], keep) + (if keep(s[|s| - 1]) then [|s| - 1] else [])
  }

  /** The k-th kept element comes from position `Positions(s, keep)[k]`. */
  lemma {:induction false} PositionsPick<T(!new)>(s: seq<T>, keep: T -> bool, k: nat)
    requires k < |Positions(s, keep)|
    ensures Positions(s, keep)[k] < |s| && Filter(s, keep)[k] == s[Positions(s, keep)[k]]
  {
    var n := |s| - 1;
    var p := s[..n];
    var prev := Positions(p, keep);
    if k < |prev| {
      PositionsPick(p, keep, k);
      assert Positions(s, keep)[k] == prev[k];
      assert Filter(s, keep)[k] == Filter(p, keep)[k];
      assert p[prev[k]] == s[prev[k]];
    } else {
      assert Positions(s, keep)[k] == n;
      assert Filter(s, keep)[k] == s[n];
    }
  }

  /** Every position is below `|s|`. */
  lemma {:induction false} PositionsBelow<T(!new)>(s: seq<T>, keep: T -> bool)
    ensures forall k :: 0 <= k < |Positions(s, keep)| ==> Positions(s, keep)[k] < |s|
  {
    if s != [] {
      PositionsBelow(s[..|s| - 1], keep);
    }
  }

  /** The positions strictly increase. */
  lemma {:induction false} PositionsIncreasing<T(!new)>(s: seq<T>, keep: T -> bool)
    ensures forall k, m :: 0 <= k < m < |Positions(s, keep)| ==> Positions(s, keep)[k] < Positions(s, keep)[m]
  {
    if s != [] {
      var n := |s| - 1;
      var prev := Positions(s[..n], keep);
      PositionsIncreasing(s[..n], keep);
      PositionsBelow(s[..n], keep);
      var idx := Positions(s, keep);
      forall k, m | 0 <= k < m < |idx|
        ensures idx[k] < idx[m]
      {
        assert idx[k] == prev[k];
        if m < |prev| {
          assert idx[m] == prev[m];
        } else {
          assert idx[m] == n;
        }
      }
    }
  }

  /** A position is taken exactly when its element is kept. */
  lemma {:induction false} PositionsExact<T(!new)>(s: seq<T>, keep: T -> bool, i: nat)
    requires i < |s|
    ensures i in Positions(s, keep) <==> keep(s[i])
  {
    var n := |s| - 1;
    var p := s[..n];
    var prev := Positions(p, keep);
    PositionsBelow(p, keep);
    assert n !in prev;
    if i < n {
      PositionsExact(p, keep, i);
      assert p[i] == s[i];
    }
  }

  /** The filter picks exactly the positions of `s` whose element satisfies
      `keep`, in increasing order: `idx[k]` is where the k-th kept element
      came from. */
  lemma FilterPositions<T(!new)>(s: seq<T>, keep: T -> bool) returns (idx: seq<nat>)
    ensures |idx| == |Filter(s, keep)|
    ensures forall k :: 0 <= k < |idx| ==> idx[k] < |s| && Filter(s, keep)[k] == s[idx[k]]
    ensures forall k, m :: 0 <= k < m < |idx| ==> idx[k] < idx[m]
    ensures forall i :: 0 <= i < |s| ==> (i in idx <==> keep(s[i]))
  {
    idx := Positions(s, keep);
    forall k | 0 <= k < |idx|
      ensures idx[k] < |s| && Filter(s, keep)[k] == s[idx[k]]
    {
      PositionsPick(s, keep, k);
    }
    PositionsIncreasing(s, keep);
    forall i | 0 <= i < |s|
      ensures i in idx <==> keep(s[i])
    {
      PositionsExact(s, keep, i);
    }
  }
}
