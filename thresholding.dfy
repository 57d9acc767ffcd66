/**
 * The threshold derived from the medians and the presence flags emitted
 * against it (PerformanceMetrics.adaptiveThresholding).
 */
module Thresholding {
  import opened Results
  import opened Sorting

  function Sum(s: seq<real>): real {
    if s == [] then 0.0 else s[0] + Sum(s[1..])
  }

  /** The threshold exactly as the source writes it, from the first four medians. */
  function Threshold(m: seq<real>): real
    requires |m| >= 4
  {
    (((m[1] + m[0]) / 2.0) + ((m[2] + m[3]) / 2.0)) / 2.0
  }

  /** 1 ("the object is present") when the median is strictly below the threshold, else 0. */
  function Flag(v: real, threshold: real): int {
    if v < threshold then 1 else 0
  }

  /** One flag per median, in input order. */
  function PresenceFlags(m: seq<real>, threshold: real): seq<int> {
    seq(|m|, i requires 0 <= i < |m| => Flag(m[i], threshold))
  }

  /** The whole of adaptiveThresholding: IndexError on fewer than four medians. */
  function ClassifyMedians(m: seq<real>): Result<seq<int>> {
    if |m| < 4 then Failure(IndexError) else Success(PresenceFlags(m, Threshold(m)))
  }

  lemma {:induction false} SumConcat(a: seq<real>, b: seq<real>)
    ensures Sum(a + b) == Sum(a) + Sum(b)
  {
    if a == [] {
      assert a + b == b;
    } else {
      assert (a + b)[1..] == a[1..] + b;
      SumConcat(a[1..], b);
    }
  }

  /** Taking out the entry at k leaves the other entries. */
  lemma RemoveAt(t: seq<real>, k: int)
    requires 0 <= k < |t|
    ensures multiset(t[..k] + t[k + 1..]) == multiset(t) - multiset{t[k]}
  {
    assert t[k..] == [t[k]] + t[k + 1..];
    assert t == t[..k] + t[k..];
  }

  /** A value of a list that is a permutation of s, and where it sits there. */
  lemma PositionOfHead(s: seq<real>, t: seq<real>) returns (k: int)
    requires s != [] && multiset(s) == multiset(t)
    ensures 0 <= k < |t| && t[k] == s[0]
    ensures multiset(s[1..]) == multiset(t[..k] + t[k + 1..])
  {
    assert s[0] in multiset(t);
    k :| 0 <= k < |t| && t[k] == s[0];
    RemoveAt(t, k);
    TailMultiset(s);
  }

  lemma SumRemoveAt(t: seq<real>, k: int)
    requires 0 <= k < |t|
    ensures Sum(t) == t[k] + Sum(t[..k] + t[k + 1..])
  {
    var pre, post := t[..k], t[k + 1..];
    assert Sum(t) == Sum(pre) + Sum(t[k..]) by {
      assert t == pre + t[k..];
      SumConcat(pre, t[k..]);
    }
    assert Sum(t[k..]) == t[k] + Sum(post) by {
      assert t[k..][1..] == post;
    }
    SumConcat(pre, post);
  }

  /** Summing does not depend on the order of the values. */
  lemma {:induction false} SumPermutation(s: seq<real>, t: seq<real>)
    requires multiset(s) == multiset(t)
    ensures Sum(s) == Sum(t)
  {
    assert |s| == |multiset(s)| == |multiset(t)| == |t|;
    if s != [] {
      var k := PositionOfHead(s, t);
      SumPermutation(s[1..], t[..k] + t[k + 1..]);
      SumRemoveAt(t, k);
    }
  }

  /** The nested average is the plain mean of the first four medians. */
  lemma ThresholdIsMean(m: seq<real>)
    requires |m| >= 4
    ensures Threshold(m) == (m[0] + m[1] + m[2] + m[3]) / 4.0
    ensures Threshold(m) == Sum(m[..4]) / 4.0
  {
    var f := m[..4];
    assert Sum(f[3..]) == m[3] by {
      assert f[3..][1..] == [];
    }
    assert Sum(f[2..]) == m[2] + m[3] by {
      assert f[2..][1..] == f[3..];
    }
    assert Sum(f[1..]) == m[1] + m[2] + m[3] by {
      assert f[1..][1..] == f[2..];
    }
  }

  /** The threshold does not depend on the order of the four medians it is taken from. */
  lemma ThresholdOrderIndependent(m: seq<real>, m': seq<real>)
    requires |m| >= 4 && |m'| >= 4
    requires multiset(m[..4]) == multiset(m'[..4])
    ensures Threshold(m) == Threshold(m')
  {
    ThresholdIsMean(m);
    ThresholdIsMean(m');
    SumPermutation(m[..4], m'[..4]);
  }

  /** The threshold lies between the smallest and the largest of the four medians. */
  lemma ThresholdBounds(m: seq<real>)
    requires |m| >= 4
    ensures exists i :: 0 <= i < 4 && m[i] <= Threshold(m)
    ensures exists i :: 0 <= i < 4 && Threshold(m) <= m[i]
    ensures forall i :: 0 <= i < 4 && (forall j :: 0 <= j < 4 ==> m[i] <= m[j]) ==> m[i] <= Threshold(m)
    ensures forall i :: 0 <= i < 4 && (forall j :: 0 <= j < 4 ==> m[j] <= m[i]) ==> Threshold(m) <= m[i]
  {
    ThresholdIsMean(m);
    var t := Threshold(m);
    if m[0] <= t { assert 0 <= 0 < 4 && m[0] <= t; }
    else if m[1] <= t { assert 0 <= 1 < 4 && m[1] <= t; }
    else if m[2] <= t { assert 0 <= 2 < 4 && m[2] <= t; }
    else { assert 0 <= 3 < 4 && m[3] <= t; }
    if t <= m[0] { assert 0 <= 0 < 4 && t <= m[0]; }
    else if t <= m[1] { assert 0 <= 1 < 4 && t <= m[1]; }
    else if t <= m[2] { assert 0 <= 2 < 4 && t <= m[2]; }
    else { assert 0 <= 3 < 4 && t <= m[3]; }
  }

  /** Among the first four medians at least one is flagged absent. */
  lemma NotAllPresent(m: seq<real>)
    requires |m| >= 4
    ensures exists i :: 0 <= i < 4 && PresenceFlags(m, Threshold(m))[i] == 0
  {
    ThresholdBounds(m);
    var i :| 0 <= i < 4 && Threshold(m) <= m[i];
    assert PresenceFlags(m, Threshold(m))[i] == 0;
  }

  /** Some one of the first four medians is flagged present exactly when they are not all equal. */
  lemma SomePresentIffUnequal(m: seq<real>)
    requires |m| >= 4
    ensures (exists i :: 0 <= i < 4 && PresenceFlags(m, Threshold(m))[i] == 1)
        <==> !(m[0] == m[1] == m[2] == m[3])
  {
    ThresholdIsMean(m);
    var t := Threshold(m);
    var e := PresenceFlags(m, t);
    if !(m[0] == m[1] == m[2] == m[3]) {
      var i := if m[0] < t then 0 else if m[1] < t then 1 else if m[2] < t then 2 else 3;
      assert e[i] == 1;
    }
  }

  /** On non-decreasing medians the flags are non-increasing: all the 1s come before all the 0s. */
  lemma FlagsOfSorted(m: seq<real>, threshold: real)
    requires Sorted(m)
    ensures forall i, j :: 0 <= i < j < |m| ==>
      PresenceFlags(m, threshold)[i] >= PresenceFlags(m, threshold)[j]
  {
  }

  lemma FlagsConcat(a: seq<real>, b: seq<real>, threshold: real)
    ensures PresenceFlags(a + b, threshold) == PresenceFlags(a, threshold) + PresenceFlags(b, threshold)
  {
  }

  lemma FlagsRemoveAt(t: seq<real>, k: int, threshold: real)
    requires 0 <= k < |t|
    ensures multiset(PresenceFlags(t, threshold))
         == multiset(PresenceFlags(t[..k] + t[k + 1..], threshold)) + multiset{Flag(t[k], threshold)}
  {
    var pre, post := t[..k], t[k + 1..];
    assert t[k..] == [t[k]] + post;
    assert t == pre + t[k..];
    FlagsConcat(pre, [t[k]] + post, threshold);
    FlagsConcat([t[k]], post, threshold);
    FlagsConcat(pre, post, threshold);
  }

  /**
   * Rearranging the medians (with the threshold fixed) rearranges the flags
   * the same way: the same number of 1s and of 0s come out.
   */
  lemma {:induction false} FlagsPermutation(m: seq<real>, m': seq<real>, threshold: real)
    requires multiset(m) == multiset(m')
    ensures multiset(PresenceFlags(m, threshold)) == multiset(PresenceFlags(m', threshold))
  {
    assert |m| == |multiset(m)| == |multiset(m')| == |m'|;
    if m != [] {
      var k := PositionOfHead(m, m');
      FlagsPermutation(m[1..], m'[..k] + m'[k + 1..], threshold);
      FlagsRemoveAt(m', k, threshold);
      FlagsRemoveAt(m, 0, threshold);
      assert m[..0] + m[1..] == m[1..];
    }
  }
}
