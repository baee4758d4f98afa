/** `median` (helpers.js): sorts its array argument in place, ascending, and
    returns the middle element, or for an even number of elements the mean of
    the two middle elements rounded by `Math.round`. */
module Median {

  ghost predicate Sorted(s: seq<int>)
  {
    forall p, q :: 0 <= p < q < |s| ==> s[p] <= s[q]
  }

  /** Insert `x` into the ascending sequence `s`. */
  function Insert(x: int, s: seq<int>): (r: seq<int>)
    ensures |r| == |s| + 1
    ensures multiset(r) == multiset(s) + multiset{x}
    ensures r[0] == x || (s != [] && r[0] == s[0])
  {
    if s == [] then [x]
    else if x <= s[0] then [x] + s
    else
      assert s == [s[0]] + s[1..];
      [s[0]] + Insert(x, s[1..])
  }

  lemma {:induction false} InsertSorted(x: int, s: seq<int>)
    requires Sorted(s)
    ensures Sorted(Insert(x, s))
    decreases |s|
  {
    if s != [] && x > s[0] {
      InsertSorted(x, s[1..]);
      var r' := Insert(x, s[1..]);
      assert s[0] <= r'[0];
      assert forall q :: 0 <= q < |r'| ==> r'[0] <= r'[q];
    }
  }

  /** The values in ascending order: the reference the in-place sort is held to. */
  function SortedSeq(s: seq<int>): (r: seq<int>)
    ensures |r| == |s|
    ensures Sorted(r)
    ensures multiset(r) == multiset(s)
  {
    if s == [] then []
    else
      assert s == [s[0]] + s[1..];
      InsertSorted(s[0], SortedSeq(s[1..]));
      Insert(s[0], SortedSeq(s[1..]))
  }

  /** `Math.round((a + b) / 2)` for integers: `Math.round(x)` is `floor(x + 1/2)`,
      so halves round towards positive infinity. */
  function RoundedMean(a: int, b: int): (m: int)
    ensures 2 * m == a + b || 2 * m == a + b + 1
  {
    (a + b + 1) / 2
  }

  /** The median of values already in ascending order: the middle one, or
      the rounded mean of the two middle ones, so it lies between the first
      and the last. */
  function MedianOfSorted(t: seq<int>): (m: int)
    requires |t| > 0
    ensures Sorted(t) ==> t[0] <= m <= t[|t| - 1]
  {
    var half := |t| / 2;
    if |t| % 2 == 1 then t[half] else RoundedMean(t[half - 1], t[half])
  }

  /** The median of any values: that of their ascending arrangement, so it
      lies between the least and the greatest value. */
  function MedianOf(s: seq<int>): (m: int)
    requires |s| > 0
    ensures |SortedSeq(s)| == |s|
    ensures SortedSeq(s)[0] <= m <= SortedSeq(s)[|s| - 1]
  {
    var t := SortedSeq(s);
    SameLength(s, t);
    MedianOfSorted(t)
  }

  /** The first element of an ascending sequence is its least value. */
  lemma HeadIsLeast(a: seq<int>, x: int)
    requires Sorted(a) && x in multiset(a)
    ensures a[0] <= x
  {
    var k :| 0 <= k < |a| && a[k] == x;
  }

  lemma SortedTail(a: seq<int>)
    requires Sorted(a) && a != []
    ensures Sorted(a[1..])
  {
  }

  lemma TailsAgree(a: seq<int>, b: seq<int>)
    requires a != [] && b != [] && a[0] == b[0]
    requires multiset(a) == multiset(b)
    ensures multiset(a[1..]) == multiset(b[1..])
  {
    assert a == [a[0]] + a[1..];
    assert b == [b[0]] + b[1..];
    var ta, tb := multiset(a[1..]), multiset(b[1..]);
    assert multiset(a) == multiset{a[0]} + ta;
    assert multiset(b) == multiset{a[0]} + tb;
    forall x
      ensures ta[x] == tb[x]
    {
      assert multiset(a)[x] == multiset{a[0]}[x] + ta[x];
      assert multiset(b)[x] == multiset{a[0]}[x] + tb[x];
    }
    assert ta == tb;
  }

  /** Any two ascending arrangements of the same values are the same sequence,
      so which sorting algorithm runs does not change the median. */
  lemma {:induction false} SortedUnique(a: seq<int>, b: seq<int>)
    requires Sorted(a) && Sorted(b)
    requires multiset(a) == multiset(b)
    ensures a == b
    decreases |a|
  {
    if a != [] {
      assert a[0] in multiset(a);
      assert b[0] in multiset(b);
      HeadIsLeast(a, b[0]);
      HeadIsLeast(b, a[0]);
      TailsAgree(a, b);
      SortedTail(a);
      SortedTail(b);
      SortedUnique(a[1..], b[1..]);
      assert a == [a[0]] + a[1..];
      assert b == [b[0]] + b[1..];
    }
  }

  /** The median computed from any ascending arrangement is `MedianOf`. */
  lemma MedianOfArrangement(s: seq<int>, t: seq<int>)
    requires |s| > 0
    requires Sorted(t) && multiset(t) == multiset(s)
    ensures |t| == |s| && MedianOf(s) == MedianOfSorted(t)
  {
    assert |t| == |multiset(t)| == |multiset(s)| == |s|;
    SortedUnique(t, SortedSeq(s));
  }

  /** The median lies between the least and the greatest value; for an odd
      number of values it is one of them, for an even number it is the rounded
      mean of the two middle values of the ascending arrangement. */
  lemma MedianBounds(s: seq<int>)
    requires |s| > 0
    ensures exists i :: 0 <= i < |s| && s[i] <= MedianOf(s)
    ensures exists j :: 0 <= j < |s| && MedianOf(s) <= s[j]
    ensures |s| % 2 == 1 ==> MedianOf(s) in s
    ensures |s| % 2 == 0 ==>
              var t := SortedSeq(s);
              MedianOf(s) == (t[|s| / 2 - 1] + t[|s| / 2] + 1) / 2
  {
    var t := SortedSeq(s);
    SameLength(s, t);
    ArrangementBounds(s, t);
    assert MedianOf(s) == MedianOfSorted(t);
  }

  lemma ArrangementBounds(s: seq<int>, t: seq<int>)
    requires |t| > 0 && |t| == |s| && Sorted(t) && multiset(t) == multiset(s)
    ensures exists i :: 0 <= i < |s| && s[i] <= MedianOfSorted(t)
    ensures exists j :: 0 <= j < |s| && MedianOfSorted(t) <= s[j]
    ensures |s| % 2 == 1 ==> MedianOfSorted(t) in s
    ensures |s| % 2 == 0 ==> MedianOfSorted(t) == (t[|s| / 2 - 1] + t[|s| / 2] + 1) / 2
  {
    MedianBetween(s, t);
    MedianOddIn(s, t);
    MedianEvenMean(t);
  }

  lemma SameLength(s: seq<int>, t: seq<int>)
    requires multiset(t) == multiset(s)
    ensures |t| == |s|
  {
    assert |t| == |multiset(t)| == |multiset(s)| == |s|;
  }

  lemma MedianEvenMean(t: seq<int>)
    requires |t| > 0
    ensures |t| % 2 == 0 ==> MedianOfSorted(t) == (t[|t| / 2 - 1] + t[|t| / 2] + 1) / 2
  {
  }

  lemma MedianOddIn(s: seq<int>, t: seq<int>)
    requires |t| > 0 && multiset(t) == multiset(s)
    ensures |t| % 2 == 1 ==> MedianOfSorted(t) in s
  {
    if |t| % 2 == 1 {
      var k := Find(s, t, |t| / 2);
      assert s[k] == MedianOfSorted(t);
    }
  }

  lemma MedianBetween(s: seq<int>, t: seq<int>)
    requires |t| > 0 && Sorted(t) && multiset(t) == multiset(s)
    ensures exists i :: 0 <= i < |s| && s[i] <= MedianOfSorted(t)
    ensures exists j :: 0 <= j < |s| && MedianOfSorted(t) <= s[j]
  {
    var i := Find(s, t, 0);
    var j := Find(s, t, |t| - 1);
  }

  /** Where an element of a rearrangement sits in the original values. */
  lemma Find(s: seq<int>, t: seq<int>, p: int) returns (i: int)
    requires multiset(t) == multiset(s) && 0 <= p < |t|
    ensures 0 <= i < |s| && s[i] == t[p]
  {
    assert t[p] in multiset(t);
    i :| 0 <= i < |s| && s[i] == t[p];
  }

  /** Worked example: `[3,1,2]` has median 2. */
  lemma MedianOddExample(s: seq<int>)
    requires |s| == 3 && s[0] == 3 && s[1] == 1 && s[2] == 2
    ensures MedianOf(s) == 2
  {
    var t := [s[1], s[2], s[0]];
    assert Sorted(t);
    assert s == [s[0]] + [s[1], s[2]] && t == [s[1], s[2]] + [s[0]];
    assert multiset(s) == multiset(t);
    MedianOfArrangement(s, t);
  }

  /** Worked example: `[4,1,3,2]` has median `Math.round((2+3)/2)`, which is 3. */
  lemma MedianEvenExample(s: seq<int>)
    requires |s| == 4 && s[0] == 4 && s[1] == 1 && s[2] == 3 && s[3] == 2
    ensures MedianOf(s) == 3
  {
    var t := [s[1], s[3], s[2], s[0]];
    assert Sorted(t);
    assert s == [s[0]] + [s[1]] + [s[2]] + [s[3]];
    assert t == [s[1]] + [s[3]] + [s[2]] + [s[0]];
    assert multiset(s) == multiset(t);
    MedianOfArrangement(s, t);
  }

  ghost predicate SortedUpTo(a: array<int>, n: int)
    requires 0 <= n <= a.Length
    reads a
  {
    forall p, q :: 0 <= p < q < n ==> a[p] <= a[q]
  }

  method Swap(a: array<int>, i: int, j: int)
    requires 0 <= i < j < a.Length
    modifies a
    ensures a[i] == old(a[j]) && a[j] == old(a[i])
    ensures forall k :: 0 <= k < a.Length && k != i && k != j ==> a[k] == old(a[k])
    ensures multiset(a[..]) == multiset(old(a[..]))
  {
    a[i], a[j] := a[j], a[i];
  }

  /** One step of insertion sort: moves `a[i]` left into place within `a[..i+1]`. */
  method SiftDown(a: array<int>, i: int)
    requires 0 < i < a.Length
    requires SortedUpTo(a, i)
    modifies a
    ensures SortedUpTo(a, i + 1)
    ensures forall k :: i < k < a.Length ==> a[k] == old(a[k])
    ensures multiset(a[..i + 1]) == multiset(old(a[..i + 1]))
    ensures multiset(a[..]) == multiset(old(a[..]))
  {
    var j := i;
    while j > 0 && a[j - 1] > a[j]
      invariant 0 <= j <= i
      invariant forall p, q :: 0 <= p < q <= i && q != j ==> a[p] <= a[q]
      invariant 0 < j < i ==> a[j - 1] <= a[j + 1]
      invariant forall k :: i < k < a.Length ==> a[k] == old(a[k])
      invariant multiset(a[..]) == multiset(old(a[..]))
    {
      Swap(a, j - 1, j);
      j := j - 1;
    }
    PrefixMultiset(a[..], old(a[..]), i + 1);
  }

  /** Two sequences with the same multiset and the same elements from `n` on
      have the same multiset before `n`. */
  lemma PrefixMultiset(x: seq<int>, y: seq<int>, n: int)
    requires 0 <= n <= |x| == |y|
    requires multiset(x) == multiset(y)
    requires forall k :: n <= k < |x| ==> x[k] == y[k]
    ensures multiset(x[..n]) == multiset(y[..n])
  {
    assert x[n..] == y[n..];
    assert x == x[..n] + x[n..];
    assert y == y[..n] + y[n..];
    var px, py, c := multiset(x[..n]), multiset(y[..n]), multiset(x[n..]);
    assert multiset(x) == px + c && multiset(y) == py + c;
    forall e
      ensures px[e] == py[e]
    {
      assert multiset(x)[e] == px[e] + c[e];
      assert multiset(y)[e] == py[e] + c[e];
    }
    assert px == py;
  }

  /** `values.sort(function(a,b) {return a-b;})`: an ascending in-place sort
      (insertion sort here; the engine's algorithm is not observable). */
  method Sort(a: array<int>)
    modifies a
    ensures Sorted(a[..])
    ensures multiset(a[..]) == multiset(old(a[..]))
  {
    if a.Length == 0 {
      return;
    }
    var i := 1;
    while i < a.Length
      invariant 1 <= i <= a.Length
      invariant SortedUpTo(a, i)
      invariant multiset(a[..]) == multiset(old(a[..]))
    {
      SiftDown(a, i);
      i := i + 1;
    }
  }

  /** `median(values)`: leaves `values` sorted, a permutation of what it held,
      and returns the median of the original values. */
  method Median(values: array<int>) returns (m: int)
    requires values.Length > 0
    modifies values
    ensures Sorted(values[..])
    ensures multiset(values[..]) == multiset(old(values[..]))
    ensures m == MedianOf(old(values[..]))
  {
    Sort(values);
    var half := values.Length / 2;
    if values.Length % 2 == 1 {
      m := values[half];
    } else {
      m := (values[half - 1] + values[half] + 1) / 2;
    }
    MedianOfArrangement(old(values[..]), values[..]);
  }
}
