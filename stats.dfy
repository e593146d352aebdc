/**
 * The median of a non-empty sequence of reals, as `np.median` computes it:
 * sort, then take the middle element (odd length) or the mean of the two
 * middle elements (even length).
 */
module Stats {

  ghost predicate IsSorted(s: seq<real>)
  {
    forall i, j :: 0 <= i < j < |s| ==> s[i] <= s[j]
  }

  /** Inserts `x` into an ascending sequence. */
  function Insert(x: real, s: seq<real>): (r: seq<real>)
    ensures multiset(r) == multiset(s) + multiset{x}
  {
    if s == [] || x <= s[0] then [x] + s
    else
      assert s == [s[0]] + s[1..];
      [s[0]] + Insert(x, s[1..])
  }

  /** Insertion sort. */
  function SortAsc(s: seq<real>): (r: seq<real>)
    ensures multiset(r) == multiset(s)
    ensures |r| == |s|
  {
    if s == [] then []
    else
      assert s == [s[0]] + s[1..];
      Insert(s[0], SortAsc(s[1..]))
  }

  /** The middle element of `t`, or the mean of its two middle elements when `|t|` is even. */
  function Middle(t: seq<real>): real
    requires |t| > 0
  {
    var m := |t| / 2;
    if |t| % 2 == 1 then t[m] else (t[m - 1] + t[m]) / 2.0
  }

  /** `np.median`: the middle of the sorted samples. */
  function Median(s: seq<real>): real
    requires |s| > 0
  {
    Middle(SortAsc(s))
  }

  lemma {:induction false} InsertSorted(x: real, s: seq<real>)
    requires IsSorted(s)
    ensures IsSorted(Insert(x, s))
  {
    if s != [] && x > s[0] {
      var tail := Insert(x, s[1..]);
      InsertSorted(x, s[1..]);
      forall k | 0 <= k < |tail|
        ensures s[0] <= tail[k]
      {
        assert tail[k] in multiset(tail);
        assert tail[k] in multiset(s[1..]) + multiset{x};
        if tail[k] != x {
          assert tail[k] in s[1..];
        }
      }
    }
  }

  /** `SortAsc` returns an ascending permutation of its input. */
  lemma {:induction false} SortAscSorted(s: seq<real>)
    ensures IsSorted(SortAsc(s)) && multiset(SortAsc(s)) == multiset(s)
  {
    if s != [] {
      SortAscSorted(s[1..]);
      InsertSorted(s[0], SortAsc(s[1..]));
    }
  }

  /** The head of an ascending sequence is its least element. */
  lemma SortedHeadLeast(a: seq<real>, x: real)
    requires IsSorted(a) && x in a
    ensures a[0] <= x
  {
    var k :| 0 <= k < |a| && a[k] == x;
    if k > 0 {
      assert a[0] <= a[k];
    }
  }

  lemma SortedTail(a: seq<real>)
    requires IsSorted(a) && |a| > 0
    ensures IsSorted(a[1..])
  {
    forall i, j | 0 <= i < j < |a| - 1
      ensures a[1..][i] <= a[1..][j]
    {
      assert a[1..][i] == a[i + 1] && a[1..][j] == a[j + 1];
    }
  }

  /** An ascending sequence is determined by its multiset of elements. */
  lemma {:induction false} SortedUnique(a: seq<real>, b: seq<real>)
    requires IsSorted(a) && IsSorted(b)
    requires multiset(a) == multiset(b)
    ensures a == b
    decreases |a|
  {
    assert |a| == |multiset(a)| == |multiset(b)| == |b|;
    if |a| > 0 {
      assert a[0] in multiset(b) && b[0] in multiset(a);
      SortedHeadLeast(a, b[0]);
      SortedHeadLeast(b, a[0]);
      var a', b' := a[1..], b[1..];
      SortedTail(a);
      SortedTail(b);
      assert a == [a[0]] + a' && b == [b[0]] + b';
      assert multiset(a') == multiset(a) - multiset{a[0]};
      assert multiset(b') == multiset(b) - multiset{b[0]};
      assert a[0] == b[0];
      assert multiset(a') == multiset(b');
      SortedUnique(a', b');
    }
  }

  /** The median depends only on the multiset of samples, not on their order. */
  lemma MedianOrderIndependent(a: seq<real>, b: seq<real>)
    requires |a| > 0
    requires multiset(a) == multiset(b)
    ensures |b| > 0 && Median(a) == Median(b)
  {
    assert |a| == |multiset(a)| == |multiset(b)| == |b|;
    SortAscSorted(a);
    SortAscSorted(b);
    SortedUnique(SortAsc(a), SortAsc(b));
    assert Median(a) == Middle(SortAsc(a));
  }

  /** Every element of the sorted copy is one of the samples. */
  lemma SortedElementIsSample(s: seq<real>, k: nat)
    requires k < |s|
    ensures exists i :: 0 <= i < |s| && s[i] == SortAsc(s)[k]
  {
    var t := SortAsc(s);
    assert t[k] in multiset(t);
    assert t[k] in s;
  }

  /** The middle of an ascending sequence lies between its two middle elements. */
  lemma MiddleBetween(t: seq<real>)
    requires |t| > 0 && IsSorted(t)
    ensures var m := |t| / 2;
      t[if |t| % 2 == 1 then m else m - 1] <= Middle(t) <= t[m]
  {
    var m := |t| / 2;
    if |t| % 2 == 0 {
      assert t[m - 1] <= t[m];
    }
  }

  /** The median lies between two of the samples, hence between their minimum and maximum. */
  lemma MedianBetweenSamples(s: seq<real>)
    requires |s| > 0
    ensures exists i, j :: 0 <= i < |s| && 0 <= j < |s| && s[i] <= Median(s) <= s[j]
  {
    var t := SortAsc(s);
    SortAscSorted(s);
    var m := |t| / 2;
    var l := if |t| % 2 == 1 then m else m - 1;
    MiddleBetween(t);
    SortedElementIsSample(s, l);
    SortedElementIsSample(s, m);
    var i :| 0 <= i < |s| && s[i] == t[l];
    var j :| 0 <= j < |s| && s[j] == t[m];
    assert s[i] <= Median(s) <= s[j];
  }

  /** Any bounds that hold for every sample hold for the median. */
  lemma MedianWithin(s: seq<real>, lo: real, hi: real)
    requires |s| > 0
    requires forall k :: 0 <= k < |s| ==> lo <= s[k] <= hi
    ensures lo <= Median(s) <= hi
  {
    MedianBetweenSamples(s);
  }
}
