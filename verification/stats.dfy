/**
 The median pandas takes of the timestamp differences, kept in integers: the
 model computes twice the median, the sum of the two middle elements of the
 sorted values (twice the middle one when their count is odd).
 */
module Stats {

  predicate Sorted(s: seq<int>) {
    forall i, j :: 0 <= i < j < |s| ==> s[i] <= s[j]
  }

  function Insert(x: int, s: seq<int>): (r: seq<int>)
    requires Sorted(s)
    ensures Sorted(r)
    ensures multiset(r) == multiset(s) + multiset{x}
    ensures |r| == |s| + 1
    ensures r[0] == x || (|s| > 0 && r[0] == s[0])
  {
    if |s| == 0 || x <= s[0] then [x] + s
    else
      var tail := Insert(x, s[1..]);
      assert s == [s[0]] + s[1..];
      [s[0]] + tail
  }

  /** Insertion sort: a sorted permutation of the input. */
  function Sort(s: seq<int>): (r: seq<int>)
    ensures Sorted(r)
    ensures multiset(r) == multiset(s)
    ensures |r| == |s|
  {
    if |s| == 0 then []
    else
      assert s == [s[0]] + s[1..];
      Insert(s[0], Sort(s[1..]))
  }

  /** Twice the median of a non-empty sequence. */
  function TwiceMedian(s: seq<int>): int
    requires |s| > 0
  {
    var t := Sort(s);
    var m := |t| / 2;
    if |t| % 2 == 1 then 2 * t[m] else t[m - 1] + t[m]
  }

  /** The median lies between the smallest and the largest value. */
  lemma MedianBounds(s: seq<int>, lo: int, hi: int)
    requires |s| > 0
    requires forall i :: 0 <= i < |s| ==> lo <= s[i] <= hi
    ensures 2 * lo <= TwiceMedian(s) <= 2 * hi
  {
    var t := Sort(s);
    forall k | 0 <= k < |t|
      ensures lo <= t[k] <= hi
    {
      assert t[k] in multiset(s);
    }
  }

  /** A lower bound of every value bounds the median. */
  lemma MedianAtLeast(s: seq<int>, lo: int)
    requires |s| > 0
    requires forall i :: 0 <= i < |s| ==> lo <= s[i]
    ensures 2 * lo <= TwiceMedian(s)
  {
    var t := Sort(s);
    forall k | 0 <= k < |t|
      ensures lo <= t[k]
    {
      assert t[k] in multiset(s);
    }
  }

  /** A constant sequence has that constant as its median. */
  lemma MedianOfConstant(s: seq<int>, c: int)
    requires |s| > 0
    requires forall i :: 0 <= i < |s| ==> s[i] == c
    ensures TwiceMedian(s) == 2 * c
  {
    MedianBounds(s, c, c);
  }

  /** The median ignores the order of its input. */
  lemma MedianOfPermutation(a: seq<int>, b: seq<int>)
    requires |a| > 0 && multiset(a) == multiset(b)
    ensures |b| > 0 && TwiceMedian(a) == TwiceMedian(b)
  {
    assert |multiset(a)| == |a| && |multiset(b)| == |b|;
    SortUnique(Sort(a), Sort(b));
  }

  /** The median is read off any sorted arrangement of the values. */
  lemma MedianOfArrangement(s: seq<int>, t: seq<int>)
    requires |s| > 0 && Sorted(t) && multiset(s) == multiset(t)
    ensures |t| == |s|
    ensures TwiceMedian(s) == if |t| % 2 == 1 then 2 * t[|t| / 2] else t[|t| / 2 - 1] + t[|t| / 2]
  {
    assert |multiset(s)| == |s| && |multiset(t)| == |t|;
    SortUnique(Sort(s), t);
  }

  /** A value that makes up more than half of the sequence is its median. */
  lemma MajorityMedian(s: seq<int>, g: int)
    requires |s| > 0 && 2 * multiset(s)[g] > |s|
    ensures TwiceMedian(s) == 2 * g
  {
    var t := Sort(s);
    var m := |t| / 2;
    MiddleIsMajority(t, g, m);
    if |t| % 2 == 0 {
      MiddleIsMajority(t, g, m - 1);
    }
  }

  /**
   In a sorted sequence, a position near the middle holds the majority
   value: too few elements lie on either side of it to hold all the others.
   */
  lemma MiddleIsMajority(t: seq<int>, g: int, k: int)
    requires Sorted(t) && 0 <= k < |t|
    requires 2 * k <= |t| <= 2 * k + 2
    requires 2 * multiset(t)[g] > |t|
    ensures t[k] == g
  {
    if t[k] < g {
      CountAfter(t, g, k);
    } else if t[k] > g {
      CountBefore(t, g, k);
    }
  }

  /** Below a smaller element, `g` can occur only after it. */
  lemma CountAfter(t: seq<int>, g: int, k: int)
    requires Sorted(t) && 0 <= k < |t| && t[k] < g
    ensures multiset(t)[g] <= |t| - k - 1
  {
    var a, b := t[..k + 1], t[k + 1..];
    assert t == a + b;
    assert forall i :: 0 <= i < |a| ==> a[i] <= t[k];
    assert g !in a;
    CountAtMost(b, g);
  }

  /** Above a larger element, `g` can occur only before it. */
  lemma CountBefore(t: seq<int>, g: int, k: int)
    requires Sorted(t) && 0 <= k < |t| && t[k] > g
    ensures multiset(t)[g] <= k
  {
    var a, b := t[..k], t[k..];
    assert t == a + b;
    assert forall i :: 0 <= i < |b| ==> t[k] <= b[i];
    assert g !in b;
    CountAtMost(a, g);
  }

  /** No value occurs in a sequence more often than the sequence is long. */
  lemma {:induction false} CountAtMost(x: seq<int>, g: int)
    ensures multiset(x)[g] <= |x|
  {
    if |x| > 0 {
      CountAtMost(x[1..], g);
      assert x == [x[0]] + x[1..];
    }
  }

  /** Two sorted sequences with the same elements are equal. */
  lemma {:induction false} SortUnique(a: seq<int>, b: seq<int>)
    requires Sorted(a) && Sorted(b) && multiset(a) == multiset(b)
    ensures a == b
  {
    if |a| > 0 {
      assert |b| > 0 by {
        assert |multiset(a)| == |a|;
        assert |multiset(b)| == |b|;
      }
      assert a[0] in multiset(b);
      assert b[0] in multiset(a);
      assert a[0] == b[0];
      assert a == [a[0]] + a[1..];
      assert b == [b[0]] + b[1..];
      assert multiset(a) == multiset{a[0]} + multiset(a[1..]);
      assert multiset(b) == multiset{b[0]} + multiset(b[1..]);
      assert multiset(a[1..]) == multiset(a) - multiset{a[0]};
      assert multiset(b[1..]) == multiset(b) - multiset{b[0]};
      SortUnique(a[1..], b[1..]);
    } else {
      assert |multiset(b)| == |b|;
    }
  }
}
