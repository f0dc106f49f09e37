/** In-place quicksort.  The sequential sort ends in the sorted permutation, whatever the pivots,
    and never touches an element outside its segment.  The fork-join sort partitions empty
    segments too, and keeps to its segment exactly when it meets none. */
module Quicksort {

  // ---------------------------------------------------------------------
  // The reference: insertion sort on values
  // ---------------------------------------------------------------------

  predicate Sorted(s: seq<real>) {
    forall i, j :: 0 <= i < j < |s| ==> s[i] <= s[j]
  }

  function Insert(x: real, s: seq<real>): seq<real> {
    if |s| == 0 || x <= s[0] then [x] + s else [s[0]] + Insert(x, s[1..])
  }

  function SortedOf(s: seq<real>): seq<real> {
    if |s| == 0 then [] else Insert(s[0], SortedOf(s[1..]))
  }

  lemma {:induction false} InsertAddsOne(x: real, s: seq<real>)
    ensures multiset(Insert(x, s)) == multiset(s) + multiset{x}
  {
    if |s| > 0 && x > s[0] {
      InsertAddsOne(x, s[1..]);
      assert s == [s[0]] + s[1..];
    }
  }

  lemma SortedFrom(x: real, s: seq<real>)
    requires Sorted(s) && forall k :: 0 <= k < |s| ==> x <= s[k]
    ensures Sorted([x] + s)
  {
  }

  lemma SortedParts(s: seq<real>)
    requires Sorted(s) && |s| > 0
    ensures Sorted(s[1..]) && forall x :: x in s ==> s[0] <= x
  {
  }

  lemma {:induction false} InsertIsSorted(x: real, s: seq<real>)
    requires Sorted(s)
    ensures Sorted(Insert(x, s))
  {
    if |s| == 0 {
    } else if x <= s[0] {
      SortedFrom(x, s);
    } else {
      SortedParts(s);
      InsertIsSorted(x, s[1..]);
      InsertAddsOne(x, s[1..]);
      var r := Insert(x, s[1..]);
      hide Sorted, Insert;
      forall k | 0 <= k < |r|
        ensures s[0] <= r[k]
      {
        assert r[k] in multiset(r);
        assert r[k] == x || r[k] in s[1..];
      }
      SortedFrom(s[0], r);
      assert Insert(x, s) == [s[0]] + r by { InsertBeyond(x, s); }
    }
  }

  lemma InsertBeyond(x: real, s: seq<real>)
    requires |s| > 0 && x > s[0]
    ensures Insert(x, s) == [s[0]] + Insert(x, s[1..])
  {
  }

  lemma {:induction false} SortedOfIsSorted(s: seq<real>)
    ensures Sorted(SortedOf(s)) && multiset(SortedOf(s)) == multiset(s) && |SortedOf(s)| == |s|
  {
    if |s| > 0 {
      SortedOfIsSorted(s[1..]);
      InsertIsSorted(s[0], SortedOf(s[1..]));
      InsertAddsOne(s[0], SortedOf(s[1..]));
      assert s == [s[0]] + s[1..];
      assert |SortedOf(s)| == |multiset(SortedOf(s))| == |multiset(s)| == |s|;
    }
  }

  lemma SameSize(a: seq<real>, b: seq<real>)
    requires multiset(a) == multiset(b)
    ensures |a| == |b|
  {
    assert |a| == |multiset(a)| && |b| == |multiset(b)|;
  }

  lemma FirstIsNoLarger(a: seq<real>, b: seq<real>)
    requires Sorted(a) && multiset(a) == multiset(b) && |a| > 0 && |b| > 0
    ensures a[0] <= b[0]
  {
    SortedParts(a);
    hide Sorted;
    assert b[0] in multiset(b);
    assert b[0] in a;
  }

  lemma RestIsSame(a: seq<real>, b: seq<real>)
    requires multiset(a) == multiset(b) && |a| > 0 && |b| > 0 && a[0] == b[0]
    ensures multiset(a[1..]) == multiset(b[1..])
  {
    assert a == [a[0]] + a[1..] && b == [b[0]] + b[1..];
    assert multiset(a[1..]) == multiset(a) - multiset{a[0]};
    assert multiset(b[1..]) == multiset(b) - multiset{b[0]};
  }

  /** There is only one sorted permutation. */
  lemma {:induction false} SortedIsUnique(a: seq<real>, b: seq<real>)
    requires Sorted(a) && Sorted(b) && multiset(a) == multiset(b)
    ensures a == b
  {
    SameSize(a, b);
    if |a| > 0 {
      FirstIsNoLarger(a, b);
      FirstIsNoLarger(b, a);
      RestIsSame(a, b);
      SortedParts(a);
      SortedParts(b);
      hide Sorted;
      SortedIsUnique(a[1..], b[1..]);
      assert a == [a[0]] + a[1..] && b == [b[0]] + b[1..];
    }
  }

  // ---------------------------------------------------------------------
  // Exchanges
  // ---------------------------------------------------------------------

  /** One exchange of two elements: the only way the array is ever written. */
  datatype Exchange = Exchange(i: nat, j: nat)

  function Exchanged(s: seq<real>, e: Exchange): (r: seq<real>)
    requires e.i < |s| && e.j < |s|
    ensures |r| == |s|
  {
    s[e.i := s[e.j]][e.j := s[e.i]]
  }

  predicate Within(trace: seq<Exchange>, lo: int, hi: int) {
    forall k :: 0 <= k < |trace| ==> lo <= trace[k].i <= hi && lo <= trace[k].j <= hi
  }

  function Applied(s: seq<real>, trace: seq<Exchange>): (r: seq<real>)
    requires Within(trace, 0, |s| - 1)
    ensures |r| == |s|
  {
    if |trace| == 0 then s
    else Exchanged(Applied(s, trace[..|trace| - 1]), trace[|trace| - 1])
  }

  lemma AppliedOneMore(s: seq<real>, trace: seq<Exchange>, e: Exchange)
    requires Within(trace, 0, |s| - 1) && e.i < |s| && e.j < |s|
    ensures Within(trace + [e], 0, |s| - 1)
    ensures Applied(s, trace + [e]) == Exchanged(Applied(s, trace), e)
  {
    assert (trace + [e])[..|trace|] == trace;
  }

  lemma {:induction false} AppliedInTwo(s: seq<real>, a: seq<Exchange>, b: seq<Exchange>)
    requires Within(a, 0, |s| - 1) && Within(b, 0, |s| - 1)
    ensures Within(a + b, 0, |s| - 1)
    ensures Applied(s, a + b) == Applied(Applied(s, a), b)
  {
    if |b| == 0 {
      assert a + b == a;
    } else {
      var n := |b| - 1;
      AppliedInTwo(s, a, b[..n]);
      assert (a + b)[..|a + b| - 1] == a + b[..n];
    }
  }

  /** Only the segment changes, and its elements are only moved. */
  ghost predicate Rearranged(s: seq<real>, t: seq<real>, lo: int, hi: int) {
    && 0 <= lo <= hi + 1 <= |s| == |t|
    && t[..lo] == s[..lo] && t[hi + 1..] == s[hi + 1..]
    && multiset(t[lo..hi + 1]) == multiset(s[lo..hi + 1])
  }

  lemma ExchangeKeepsElements(s: seq<real>, e: Exchange)
    requires e.i < |s| && e.j < |s|
    ensures multiset(Exchanged(s, e)) == multiset(s)
  {
  }

  lemma ExchangeInSegment(s: seq<real>, e: Exchange, lo: int, hi: int)
    requires 0 <= lo <= e.i <= hi < |s| && lo <= e.j <= hi
    ensures Exchanged(s, e)[lo..hi + 1] == Exchanged(s[lo..hi + 1], Exchange(e.i - lo, e.j - lo))
    ensures Exchanged(s, e)[..lo] == s[..lo] && Exchanged(s, e)[hi + 1..] == s[hi + 1..]
  {
  }

  lemma ExchangeRearranges(s: seq<real>, e: Exchange, lo: int, hi: int)
    requires 0 <= lo <= e.i <= hi < |s| && lo <= e.j <= hi
    ensures Rearranged(s, Exchanged(s, e), lo, hi)
  {
    ExchangeInSegment(s, e, lo, hi);
    ExchangeKeepsElements(s[lo..hi + 1], Exchange(e.i - lo, e.j - lo));
    hide Exchanged;
  }

  /** A trace within a segment rearranges only that segment. */
  lemma {:induction false} TraceRearranges(s: seq<real>, trace: seq<Exchange>, lo: int, hi: int)
    requires 0 <= lo <= hi + 1 <= |s| && Within(trace, lo, hi)
    ensures Within(trace, 0, |s| - 1) && Rearranged(s, Applied(s, trace), lo, hi)
  {
    if |trace| > 0 {
      var n := |trace| - 1;
      TraceRearranges(s, trace[..n], lo, hi);
      ExchangeRearranges(Applied(s, trace[..n]), trace[n], lo, hi);
    }
  }

  method Swap(lyst: array<real>, i: nat, j: nat)
    requires i < lyst.Length && j < lyst.Length
    modifies lyst
    ensures lyst[..] == Exchanged(old(lyst[..]), Exchange(i, j))
  {
    var temp := lyst[i];
    lyst[i] := lyst[j];
    lyst[j] := temp;
  }

  // ---------------------------------------------------------------------
  // Partition
  // ---------------------------------------------------------------------

  /** Smaller elements, the pivot, the rest. */
  ghost predicate Split(s: seq<real>, lo: int, b: int, hi: int, pivot: real) {
    && 0 <= lo <= b <= hi < |s| && s[b] == pivot
    && (forall k :: lo <= k < b ==> s[k] < pivot)
    && (forall k :: b < k <= hi ==> pivot <= s[k])
  }

  /** Midway: smaller elements up to `b`, the others up to `i`, the pivot last. */
  ghost predicate Splitting(s: seq<real>, lo: int, b: int, i: int, hi: int, pivot: real) {
    && 0 <= lo <= b <= i <= hi < |s| && s[hi] == pivot
    && (forall k :: lo <= k < b ==> s[k] < pivot)
    && (forall k :: b <= k < i ==> pivot <= s[k])
  }

  lemma SmallerGoesLeft(s: seq<real>, lo: int, b: int, i: int, hi: int, pivot: real)
    requires Splitting(s, lo, b, i, hi, pivot) && i < hi
    ensures if s[i] < pivot then Splitting(Exchanged(s, Exchange(i, b)), lo, b + 1, i + 1, hi, pivot)
            else Splitting(s, lo, b, i + 1, hi, pivot)
  {
  }

  lemma PivotGoesBetween(s: seq<real>, lo: int, b: int, hi: int, pivot: real)
    requires Splitting(s, lo, b, hi, hi, pivot)
    ensures Split(Exchanged(s, Exchange(hi, b)), lo, b, hi, pivot)
  {
  }

  /** `t` is what the exchanges of `trace`, all within `lo..hi`, make of `s`. */
  ghost predicate Reaches(s: seq<real>, trace: seq<Exchange>, lo: int, hi: int, t: seq<real>) {
    0 <= lo <= hi + 1 <= |s| && Within(trace, lo, hi) && t == Applied(s, trace)
  }

  lemma ReachesNothing(s: seq<real>, lo: int, hi: int)
    requires 0 <= lo <= hi + 1 <= |s|
    ensures Reaches(s, [], lo, hi, s)
  {
  }

  lemma ReachesOneMore(s: seq<real>, trace: seq<Exchange>, lo: int, hi: int, t: seq<real>, e: Exchange)
    requires Reaches(s, trace, lo, hi, t) && lo <= e.i <= hi && lo <= e.j <= hi
    ensures |t| == |s| && hi < |s|
    ensures Reaches(s, trace + [e], lo, hi, Exchanged(t, e))
  {
    AppliedOneMore(s, trace, e);
    hide Applied, Exchanged;
  }

  lemma ReachesInTwo(s: seq<real>, a: seq<Exchange>, t: seq<real>, b: seq<Exchange>, u: seq<real>, lo: int, hi: int)
    requires Reaches(s, a, lo, hi, t) && Reaches(t, b, lo, hi, u)
    ensures Reaches(s, a + b, lo, hi, u)
  {
    AppliedInTwo(s, a, b);
    hide Applied;
  }

  lemma ReachesWider(s: seq<real>, a: seq<Exchange>, t: seq<real>, lo: int, hi: int, lo': int, hi': int)
    requires Reaches(s, a, lo, hi, t) && 0 <= lo' <= lo && hi <= hi' < |s| && lo' <= hi' + 1
    ensures Reaches(s, a, lo', hi', t)
  {
    hide Applied;
  }

  method SwapTraced(lyst: array<real>, i: nat, j: nat, ghost lo: int, ghost hi: int, ghost s0: seq<real>, ghost trace0: seq<Exchange>)
    returns (ghost trace: seq<Exchange>)
    requires 0 <= lo <= i <= hi < lyst.Length && lo <= j <= hi && Reaches(s0, trace0, lo, hi, lyst[..])
    modifies lyst
    ensures lyst[..] == Exchanged(old(lyst[..]), Exchange(i, j))
    ensures Reaches(s0, trace, lo, hi, lyst[..])
  {
    ReachesOneMore(s0, trace0, lo, hi, lyst[..], Exchange(i, j));
    hide *;
    Swap(lyst, i, j);
    trace := trace0 + [Exchange(i, j)];
  }

  lemma PivotGoesLast(s: seq<real>, lo: int, r: int, hi: int)
    requires 0 <= lo <= r <= hi < |s|
    ensures Splitting(Exchanged(s, Exchange(r, hi)), lo, lo, lo, hi, s[r])
  {
  }

  lemma SplittingBounds(s: seq<real>, lo: int, b: int, i: int, hi: int, pivot: real)
    requires Splitting(s, lo, b, i, hi, pivot)
    ensures 0 <= lo <= b <= i <= hi < |s|
  {
  }

  function Min(a: int, b: int): int { if a < b then a else b }

  function Max(a: int, b: int): int { if a < b then b else a }

  /** The pivot positions `(int) (lo + (hi - lo + 1) * f)` for a random `f` from 0 up to,
      but not including, 1.  The segment may be empty, or end before it begins. */
  predicate PivotOf(lo: int, hi: int, r: int) {
    if lo <= hi then lo <= r <= hi else hi + 1 <= r <= lo
  }

  function Scaled(lo: int, hi: int, f: real): real {
    lo as real + (hi - lo + 1) as real * f
  }

  /** Scaling a draw below 1 reaches exactly these positions. */
  lemma PivotIsScaled(lo: int, hi: int, r: int)
    ensures PivotOf(lo, hi, r) <==> exists f: real :: 0.0 <= f < 1.0 && Scaled(lo, hi, f).Floor == r
  {
    hide PivotOf, Scaled;
    if PivotOf(lo, hi, r) {
      var f := DrawFor(lo, hi, r);
      assert 0.0 <= f < 1.0 && Scaled(lo, hi, f).Floor == r;
    }
    forall f: real | 0.0 <= f < 1.0 && Scaled(lo, hi, f).Floor == r
      ensures PivotOf(lo, hi, r)
    {
      DrawIsPivot(lo, hi, f);
    }
  }

  /** With elements in the segment the pivot is one of them if and only if the draw is below 1:
      the largest random number draws the element after the segment. */
  lemma PivotInSegmentIff(lo: int, hi: int, f: real)
    requires lo <= hi && 0.0 <= f <= 1.0
    ensures lo <= Scaled(lo, hi, f).Floor <= hi <==> f < 1.0
    ensures f == 1.0 ==> Scaled(lo, hi, f).Floor == hi + 1
  {
    if f < 1.0 {
      DrawIsPivot(lo, hi, f);
    } else {
      assert (hi - lo + 1) as real * f == (hi - lo + 1) as real;
    }
  }

  lemma DrawIsPivot(lo: int, hi: int, f: real)
    requires 0.0 <= f < 1.0
    ensures PivotOf(lo, hi, Scaled(lo, hi, f).Floor)
  {
    ScaledInRange((hi - lo + 1) as real, f);
  }

  lemma DrawFor(lo: int, hi: int, r: int) returns (f: real)
    requires PivotOf(lo, hi, r)
    ensures 0.0 <= f < 1.0 && Scaled(lo, hi, f).Floor == r
  {
    var n := hi - lo + 1;
    if n > 0 {
      f := Quotient((r - lo) as real, n as real);
    } else if r == lo {
      f := 0.0;
    } else {
      f := Quotient((lo - r) as real - 0.5, (-n) as real);
      assert (-n) as real * f == -(n as real * f);
    }
  }

  lemma ScaledInRange(n: real, f: real)
    requires 0.0 <= f < 1.0
    ensures n > 0.0 ==> 0.0 <= n * f < n
    ensures n < 0.0 ==> n < n * f <= 0.0
    ensures n == 0.0 ==> n * f == 0.0
  {
  }

  lemma Quotient(x: real, n: real) returns (q: real)
    requires 0.0 <= x < n
    ensures 0.0 <= q < 1.0 && n * q == x
  {
    q := x / n;
    assert n * q == x;
    BelowOne(x, n, q);
  }

  lemma BelowOne(x: real, n: real, q: real)
    requires 0.0 <= x < n && n * q == x
    ensures 0.0 <= q < 1.0
  {
    assert q < 0.0 ==> n * q < 0.0;
    assert q >= 1.0 ==> n * (q - 1.0) >= 0.0;
  }

  /** The elements a partition reads and writes first and last. */
  predicate InArray(size: nat, lo: int, hi: int) {
    0 <= Min(lo, hi) && Max(lo, hi) < size
  }

  datatype Parted = Parted(s: seq<real>, b: int)

  /** The partition's loop from `i` on, with `b` smaller elements found so far. */
  function Scan(s: seq<real>, b: int, i: int, hi: int, pivot: real): (p: Parted)
    requires 0 <= b <= i && b < |s| && hi < |s|
    ensures |p.s| == |s| && b <= p.b && p.b <= Max(i, hi)
    ensures hi <= i ==> p == Parted(s, b)
    ensures p.b < |s|
    decreases hi - i
  {
    if hi <= i then Parted(s, b)
    else if s[i] < pivot then Scan(Exchanged(s, Exchange(i, b)), b + 1, i + 1, hi, pivot)
    else Scan(s, b, i + 1, hi, pivot)
  }

  /** The array and the pivot's place after a partition around the element at `r`. */
  function PartitionEnd(s: seq<real>, lo: int, hi: int, r: int): (p: Parted)
    requires InArray(|s|, lo, hi) && PivotOf(lo, hi, r)
    ensures |p.s| == |s| && lo <= p.b <= Max(lo, hi)
  {
    var p := Scan(Exchanged(s, Exchange(r, hi)), lo, lo, hi, s[r]);
    Parted(Exchanged(p.s, Exchange(hi, p.b)), p.b)
  }

  lemma ScanUnfolds(s: seq<real>, b: int, i: int, hi: int, pivot: real)
    requires 0 <= b <= i < hi < |s|
    ensures Scan(s, b, i, hi, pivot) == if s[i] < pivot then Scan(Exchanged(s, Exchange(i, b)), b + 1, i + 1, hi, pivot)
                                        else Scan(s, b, i + 1, hi, pivot)
  {
  }

  lemma {:induction false} ScanSplits(s: seq<real>, lo: int, b: int, i: int, hi: int, pivot: real)
    requires Splitting(s, lo, b, i, hi, pivot)
    ensures 0 <= b <= i && b < |s| && hi < |s|
    ensures var p := Scan(s, b, i, hi, pivot); Splitting(p.s, lo, p.b, hi, hi, pivot) && Rearranged(s, p.s, lo, hi)
    decreases hi - i
  {
    hide *;
    SplittingBounds(s, lo, b, i, hi, pivot);
    if i == hi {
      SameRearranged(s, lo, hi);
    } else {
      SmallerGoesLeft(s, lo, b, i, hi, pivot);
      ScanUnfolds(s, b, i, hi, pivot);
      if s[i] < pivot {
        var t := Exchanged(s, Exchange(i, b));
        ExchangeRearranges(s, Exchange(i, b), lo, hi);
        ScanSplits(t, lo, b + 1, i + 1, hi, pivot);
        RearrangedAgain(s, t, Scan(s, b, i, hi, pivot).s, lo, hi);
      } else {
        ScanSplits(s, lo, b, i + 1, hi, pivot);
      }
    }
  }

  lemma SameRearranged(s: seq<real>, lo: int, hi: int)
    requires 0 <= lo <= hi + 1 <= |s|
    ensures Rearranged(s, s, lo, hi)
  {
  }

  lemma RearrangedAgain(s: seq<real>, t: seq<real>, u: seq<real>, lo: int, hi: int)
    requires Rearranged(s, t, lo, hi) && Rearranged(t, u, lo, hi)
    ensures Rearranged(s, u, lo, hi)
  {
  }

  /** On a segment with elements a partition splits it around the pivot and rearranges nothing else. */
  lemma PartitionSplits(s: seq<real>, lo: int, hi: int, r: int)
    requires 0 <= lo <= r <= hi < |s|
    ensures var p := PartitionEnd(s, lo, hi, r); Split(p.s, lo, p.b, hi, s[r]) && Rearranged(s, p.s, lo, hi)
  {
    var s1 := Exchanged(s, Exchange(r, hi));
    var p := Scan(s1, lo, lo, hi, s[r]);
    PivotGoesLast(s, lo, r, hi);
    ScanSplits(s1, lo, lo, lo, hi, s[r]);
    PivotGoesBetween(p.s, lo, p.b, hi, s[r]);
    hide Splitting, Exchanged, Scan, Split;
    ExchangeRearranges(s, Exchange(r, hi), lo, hi);
    ExchangeRearranges(p.s, Exchange(hi, p.b), lo, hi);
    hide Rearranged;
    RearrangedAgain(s, s1, p.s, lo, hi);
    RearrangedAgain(s, p.s, Exchanged(p.s, Exchange(hi, p.b)), lo, hi);
  }

  lemma PartitionBounds(size: nat, lo: int, hi: int, r: int)
    requires InArray(size, lo, hi) && PivotOf(lo, hi, r)
    ensures var from, to := Min(lo, hi), Max(lo, hi);
            0 <= from <= lo <= to < size && from <= hi <= to && from <= r <= to
  {
  }

  lemma ScanBegins(s: seq<real>, s1: seq<real>, lo: int, hi: int, r: int)
    requires InArray(|s|, lo, hi) && PivotOf(lo, hi, r) && s1 == Exchanged(s, Exchange(r, hi))
    ensures var p := Scan(s1, lo, lo, hi, s[r]); PartitionEnd(s, lo, hi, r) == Parted(Exchanged(p.s, Exchange(hi, p.b)), p.b)
  {
    hide Scan, Exchanged;
  }

  /** A partition of any two bounds inside the array, empty segments included; `trace` is
      every exchange made. */
  method Partition(lyst: array<real>, lo: int, hi: int, r: int) returns (b: int, ghost trace: seq<Exchange>)
    requires InArray(lyst.Length, lo, hi) && PivotOf(lo, hi, r)
    modifies lyst
    ensures Parted(lyst[..], b) == PartitionEnd(old(lyst[..]), lo, hi, r)
    ensures Reaches(old(lyst[..]), trace, Min(lo, hi), Max(lo, hi), lyst[..])
  {
    hide *;
    ghost var s0, from, to := lyst[..], Min(lo, hi), Max(lo, hi);
    PartitionBounds(lyst.Length, lo, hi, r);
    b := lo;
    var pivot := lyst[r];
    ReachesNothing(s0, from, to);
    trace := SwapTraced(lyst, r, hi, from, to, s0, []);
    ghost var s1 := lyst[..];
    ScanBegins(s0, s1, lo, hi, r);
    var i := lo;
    while i < hi
      invariant lo <= b <= i && (lo < i ==> i <= hi) && b <= to
      invariant Scan(lyst[..], b, i, hi, pivot) == Scan(s1, lo, lo, hi, pivot)
      invariant Reaches(s0, trace, from, to, lyst[..])
    {
      b, trace := PartitionStep(lyst, b, i, hi, pivot, from, to, s0, trace);
      i := i + 1;
    }
    assert Scan(s1, lo, lo, hi, pivot) == Parted(lyst[..], b);
    trace := SwapTraced(lyst, hi, b, from, to, s0, trace);
  }

  /** A smaller element is exchanged with the first of the others. */
  method PartitionStep(lyst: array<real>, b0: int, i: int, hi: int, pivot: real, ghost from: int, ghost to: int,
                       ghost s0: seq<real>, ghost trace0: seq<Exchange>)
    returns (b: int, ghost trace: seq<Exchange>)
    requires 0 <= from <= b0 <= i < hi <= to < lyst.Length && |s0| == lyst.Length && Reaches(s0, trace0, from, to, lyst[..])
    modifies lyst
    ensures b0 <= b <= b0 + 1
    ensures Scan(lyst[..], b, i + 1, hi, pivot) == Scan(old(lyst[..]), b0, i, hi, pivot)
    ensures Reaches(s0, trace, from, to, lyst[..])
  {
    b, trace := b0, trace0;
    assert lyst[..][i] == lyst[i];
    hide Exchanged, Reaches;
    if lyst[i] < pivot {
      trace := SwapTraced(lyst, i, b, from, to, s0, trace);
      b := b + 1;
    }
  }

  // ---------------------------------------------------------------------
  // Sequential and fork-join sort
  // ---------------------------------------------------------------------

  /** The array with the segment `lo..hi` sorted. */
  function SegmentSorted(s: seq<real>, lo: int, hi: int): (r: seq<real>)
    requires 0 <= lo <= hi + 1 <= |s|
    ensures |r| == |s|
  {
    SortedOfIsSorted(s[lo..hi + 1]);
    s[..lo] + SortedOf(s[lo..hi + 1]) + s[hi + 1..]
  }

  lemma ShortSegments(s: seq<real>, lo: int, hi: int)
    requires 0 <= lo <= hi + 1 <= |s| && hi <= lo
    ensures SegmentSorted(s, lo, hi) == s
  {
    if lo == hi {
      assert s[lo..hi + 1] == [s[lo]];
      assert SortedOf([s[lo]]) == [s[lo]];
    } else {
      assert s[lo..hi + 1] == [];
    }
  }

  lemma SortedJoin(a: seq<real>, pivot: real, b: seq<real>)
    requires Sorted(a) && Sorted(b)
    requires forall x :: x in a ==> x <= pivot
    requires forall x :: x in b ==> pivot <= x
    ensures Sorted(a + [pivot] + b)
  {
    assert forall k :: 0 <= k < |a| ==> a[k] in a;
    assert forall k :: 0 <= k < |b| ==> b[k] in b;
  }

  lemma SameMembers(a: seq<real>, b: seq<real>, x: real)
    requires multiset(a) == multiset(b) && x in a
    ensures x in b
  {
    assert x in multiset(a);
  }

  /** Sorting both sides of a split sorts the whole. */
  lemma SortsJoin(a: seq<real>, pivot: real, b: seq<real>)
    requires forall x :: x in a ==> x <= pivot
    requires forall x :: x in b ==> pivot <= x
    ensures SortedOf(a) + [pivot] + SortedOf(b) == SortedOf(a + [pivot] + b)
  {
    var x, y := SortedOf(a), SortedOf(b);
    SortedOfIsSorted(a);
    SortedOfIsSorted(b);
    SortedOfIsSorted(a + [pivot] + b);
    hide SortedOf, Sorted;
    forall v | v in x
      ensures v <= pivot
    {
      SameMembers(x, a, v);
    }
    forall v | v in y
      ensures pivot <= v
    {
      SameMembers(y, b, v);
    }
    SortedJoin(x, pivot, y);
    assert multiset(x + [pivot] + y) == multiset(a + [pivot] + b);
    SortedIsUnique(x + [pivot] + y, SortedOf(a + [pivot] + b));
  }

  /** A permutation has the same sorted form. */
  lemma SameSort(a: seq<real>, b: seq<real>)
    requires multiset(a) == multiset(b)
    ensures SortedOf(a) == SortedOf(b)
  {
    SortedOfIsSorted(a);
    SortedOfIsSorted(b);
    SortedIsUnique(SortedOf(a), SortedOf(b));
  }

  lemma SplitSides(s: seq<real>, lo: int, b: int, hi: int, pivot: real)
    requires Split(s, lo, b, hi, pivot)
    ensures s[lo..hi + 1] == s[lo..b] + [pivot] + s[b + 1..hi + 1]
    ensures forall x :: x in s[lo..b] ==> x <= pivot
    ensures var right := s[b + 1..hi + 1]; forall x :: x in right ==> pivot <= x
  {
  }

  /** The recursion's step: split, then sort left of the pivot, then right of it. */
  lemma SplitThenSort(s0: seq<real>, s: seq<real>, lo: int, b: int, hi: int, pivot: real)
    requires Rearranged(s0, s, lo, hi) && Split(s, lo, b, hi, pivot)
    ensures SegmentSorted(SegmentSorted(s, lo, b - 1), b + 1, hi) == SegmentSorted(s0, lo, hi)
    ensures SegmentSorted(SegmentSorted(s, b + 1, hi), lo, b - 1) == SegmentSorted(s0, lo, hi)
  {
    SplitSides(s, lo, b, hi, pivot);
    var l, r := s[lo..b], s[b + 1..hi + 1];
    SortsJoin(l, pivot, r);
    SameSort(s[lo..hi + 1], s0[lo..hi + 1]);
    SortedOfIsSorted(l);
    SortedOfIsSorted(r);
    assert s[b] == pivot;
    hide SortedOf, Sorted;
    TwoSegments(s, lo, b, hi);
  }

  lemma TwoSegments(s: seq<real>, lo: int, b: int, hi: int)
    requires 0 <= lo <= b <= hi < |s|
    requires |SortedOf(s[lo..b])| == b - lo && |SortedOf(s[b + 1..hi + 1])| == hi - b
    ensures var whole := s[..lo] + (SortedOf(s[lo..b]) + [s[b]] + SortedOf(s[b + 1..hi + 1])) + s[hi + 1..];
            && |SegmentSorted(s, lo, b - 1)| == |s| == |SegmentSorted(s, b + 1, hi)|
            && SegmentSorted(SegmentSorted(s, lo, b - 1), b + 1, hi) == whole
            && SegmentSorted(SegmentSorted(s, b + 1, hi), lo, b - 1) == whole
  {
    hide SortedOf;
    var x, y := SegmentSorted(s, lo, b - 1), SegmentSorted(s, b + 1, hi);
    assert x[b + 1..hi + 1] == s[b + 1..hi + 1] && x[..b + 1] == s[..lo] + SortedOf(s[lo..b]) + [s[b]];
    assert y[lo..b] == s[lo..b] && y[b..] == [s[b]] + SortedOf(s[b + 1..hi + 1]) + s[hi + 1..];
  }

  /** The segment is sorted, by exchanges within it. */
  ghost predicate SortsSegment(s: seq<real>, trace: seq<Exchange>, lo: int, hi: int, t: seq<real>) {
    Reaches(s, trace, lo, hi, t) && t == SegmentSorted(s, lo, hi)
  }

  lemma NothingToSort(s: seq<real>, lo: int, hi: int)
    requires 0 <= lo <= hi + 1 <= |s| && hi <= lo
    ensures SortsSegment(s, [], lo, hi, s)
  {
    ShortSegments(s, lo, hi);
    ReachesNothing(s, lo, hi);
  }

  /** The three parts of a sort together. */
  lemma PartsSort(s0: seq<real>, part: seq<Exchange>, s: seq<real>, left: seq<Exchange>, x: seq<real>, right: seq<Exchange>, y: seq<real>,
                  lo: int, b: int, hi: int, pivot: real)
    requires 0 <= lo <= b <= hi < |s0|
    requires Reaches(s0, part, lo, hi, s) && Split(s, lo, b, hi, pivot)
    requires SortsSegment(s, left, lo, b - 1, x) && SortsSegment(x, right, b + 1, hi, y)
    ensures SortsSegment(s0, part + left + right, lo, hi, y)
  {
    TraceRearranges(s0, part, lo, hi);
    SplitThenSort(s0, s, lo, b, hi, pivot);
    assert |s| == |s0| == |x|;
    hide Applied, SegmentSorted, Within, Rearranged, Split;
    ReachesWider(s, left, x, lo, b - 1, lo, hi);
    ReachesWider(x, right, y, b + 1, hi, lo, hi);
    ReachesInTwo(s0, part, s, left, x, lo, hi);
    ReachesInTwo(s0, part + left, x, right, y, lo, hi);
  }

  /** A random pivot, and the partition around it. */
  method SplitSegment(lyst: array<real>, lo: int, hi: int) returns (b: int, ghost pivot: real, ghost trace: seq<Exchange>)
    requires 0 <= lo <= hi < lyst.Length
    modifies lyst
    ensures lo <= b <= hi && Split(lyst[..], lo, b, hi, pivot)
    ensures Reaches(old(lyst[..]), trace, lo, hi, lyst[..])
  {
    var r: int :| lo <= r <= hi;
    pivot := lyst[r];
    PartitionSplits(lyst[..], lo, hi, r);
    hide PartitionEnd, Split, Rearranged, Reaches;
    b, trace := Partition(lyst, lo, hi, r);
  }

  /** Where the sequential helper's segment has two elements or more it lies in the array. */
  predicate Fits(size: nat, lo: int, hi: int) {
    lo < hi ==> 0 <= lo && hi < size
  }

  lemma LongSegmentFits(size: nat, lo: int, hi: int)
    requires Fits(size, lo, hi) && lo < hi
    ensures 0 <= lo && hi < size
  {
  }

  lemma PartsFit(size: nat, lo: int, b: int, hi: int)
    requires 0 <= lo <= b <= hi < size
    ensures Fits(size, lo, b - 1) && Fits(size, b + 1, hi)
  {
  }

  method QuicksortHelper(lyst: array<real>, lo: int, hi: int) returns (ghost trace: seq<Exchange>)
    requires Fits(lyst.Length, lo, hi)
    modifies lyst
    ensures lo >= hi ==> lyst[..] == old(lyst[..])
    ensures 0 <= lo <= hi + 1 <= lyst.Length ==> SortsSegment(old(lyst[..]), trace, lo, hi, lyst[..])
    decreases hi - lo + 1
  {
    hide *;
    ghost var s0 := lyst[..];
    if lo >= hi {
      if 0 <= lo <= hi + 1 <= lyst.Length {
        NothingToSort(s0, lo, hi);
      }
      return [];
    }
    LongSegmentFits(lyst.Length, lo, hi);
    var b: int;
    ghost var pivot, part;
    b, pivot, part := SplitSegment(lyst, lo, hi);
    PartsFit(lyst.Length, lo, b, hi);
    ghost var s := lyst[..];
    ghost var left := QuicksortHelper(lyst, lo, b - 1);
    ghost var x := lyst[..];
    ghost var right := QuicksortHelper(lyst, b + 1, hi);
    trace := part + left + right;
    PartsSort(s0, part, s, left, x, right, lyst[..], lo, b, hi, pivot);
  }

  method Quicksort(lyst: array<real>) returns (ghost trace: seq<Exchange>)
    modifies lyst
    ensures lyst[..] == SortedOf(old(lyst[..]))
    ensures Sorted(lyst[..]) && multiset(lyst[..]) == multiset(old(lyst[..]))
  {
    trace := QuicksortHelper(lyst, 0, lyst.Length - 1);
    WholeSegment(old(lyst[..]), trace, lyst[..]);
  }

  lemma WholeIsSorted(s: seq<real>)
    ensures SegmentSorted(s, 0, |s| - 1) == SortedOf(s)
  {
    hide SortedOf;
    assert s[0..|s| - 1 + 1] == s;
    assert s[..0] + SortedOf(s) + s[|s|..] == SortedOf(s);
  }

  lemma WholeSegment(s: seq<real>, trace: seq<Exchange>, t: seq<real>)
    requires SortsSegment(s, trace, 0, |s| - 1, t)
    ensures t == SortedOf(s) && Sorted(t) && multiset(t) == multiset(s)
  {
    WholeIsSorted(s);
    SortedOfIsSorted(s);
    hide SortedOf, Sorted, Reaches, SegmentSorted;
  }

  // ---------------------------------------------------------------------
  // Two threads on disjoint segments
  // ---------------------------------------------------------------------

  /** `z` runs the exchanges of `a` and of `b`, each in its own order. */
  ghost predicate Interleaves(a: seq<Exchange>, b: seq<Exchange>, z: seq<Exchange>)
    decreases |z|
  {
    if |z| == 0 then |a| == 0 && |b| == 0
    else
      || (|a| > 0 && a[|a| - 1] == z[|z| - 1] && Interleaves(a[..|a| - 1], b, z[..|z| - 1]))
      || (|b| > 0 && b[|b| - 1] == z[|z| - 1] && Interleaves(a, b[..|b| - 1], z[..|z| - 1]))
  }

  lemma {:induction false} OneAfterTheOther(a: seq<Exchange>, b: seq<Exchange>)
    ensures Interleaves(a, b, a + b)
    decreases |a| + |b|
  {
    if |b| > 0 {
      OneAfterTheOther(a, b[..|b| - 1]);
      assert (a + b)[..|a + b| - 1] == a + b[..|b| - 1];
    } else if |a| > 0 {
      OneAfterTheOther(a[..|a| - 1], b);
      assert (a + b)[..|a + b| - 1] == a[..|a| - 1] + b;
    }
  }

  lemma ExchangesCommute(s: seq<real>, e: Exchange, f: Exchange)
    requires e.i < |s| && e.j < |s| && f.i < |s| && f.j < |s|
    requires e.i != f.i && e.i != f.j && e.j != f.i && e.j != f.j
    ensures Exchanged(Exchanged(s, e), f) == Exchanged(Exchanged(s, f), e)
  {
  }

  lemma {:induction false} ExchangeOvertakes(s: seq<real>, e: Exchange, b: seq<Exchange>)
    requires e.i < |s| && e.j < |s| && Within(b, 0, |s| - 1)
    requires forall k :: 0 <= k < |b| ==> e.i != b[k].i && e.i != b[k].j && e.j != b[k].i && e.j != b[k].j
    ensures Exchanged(Applied(s, b), e) == Applied(Exchanged(s, e), b)
  {
    if |b| > 0 {
      var n := |b| - 1;
      ExchangeOvertakes(s, e, b[..n]);
      ExchangesCommute(Applied(s, b[..n]), b[n], e);
      hide Exchanged;
    }
  }

  lemma {:induction false} InterleavingIsWithin(a: seq<Exchange>, b: seq<Exchange>, z: seq<Exchange>, lo: int, hi: int)
    requires Within(a, lo, hi) && Within(b, lo, hi) && Interleaves(a, b, z)
    ensures Within(z, lo, hi)
    decreases |z|
  {
    if |z| > 0 {
      if |a| > 0 && a[|a| - 1] == z[|z| - 1] && Interleaves(a[..|a| - 1], b, z[..|z| - 1]) {
        InterleavingIsWithin(a[..|a| - 1], b, z[..|z| - 1], lo, hi);
      } else {
        InterleavingIsWithin(a, b[..|b| - 1], z[..|z| - 1], lo, hi);
      }
    }
  }

  ghost predicate Apart(a: seq<Exchange>, b: seq<Exchange>) {
    forall k, l :: 0 <= k < |a| && 0 <= l < |b| ==>
      a[k].i != b[l].i && a[k].i != b[l].j && a[k].j != b[l].i && a[k].j != b[l].j
  }

  /** On disjoint elements every interleaving does what one thread after the other does. */
  lemma {:induction false} InterleavingIsSequence(s: seq<real>, a: seq<Exchange>, b: seq<Exchange>, z: seq<Exchange>)
    requires Within(a, 0, |s| - 1) && Within(b, 0, |s| - 1) && Apart(a, b) && Interleaves(a, b, z)
    ensures Within(z, 0, |s| - 1) && Applied(s, z) == Applied(Applied(s, a), b)
    decreases |z|
  {
    InterleavingIsWithin(a, b, z, 0, |s| - 1);
    if |z| > 0 {
      var z', e := z[..|z| - 1], z[|z| - 1];
      if |a| > 0 && a[|a| - 1] == e && Interleaves(a[..|a| - 1], b, z') {
        InterleavingIsSequence(s, a[..|a| - 1], b, z');
        ExchangeOvertakes(Applied(s, a[..|a| - 1]), e, b);
      } else {
        InterleavingIsSequence(s, a, b[..|b| - 1], z');
      }
    }
  }

  /** The two children of a fork, interleaved in any way. */
  lemma ForkJoins(s0: seq<real>, part: seq<Exchange>, s: seq<real>, left: seq<Exchange>, x: seq<real>, right: seq<Exchange>, y: seq<real>,
                  lo: int, b: int, hi: int, pivot: real, z: seq<Exchange>)
    requires 0 <= lo <= b <= hi < |s0|
    requires Reaches(s0, part, lo, hi, s) && Split(s, lo, b, hi, pivot)
    requires SortsSegment(s, left, lo, b - 1, x) && SortsSegment(x, right, b + 1, hi, y)
    requires Interleaves(left, right, z)
    ensures SortsSegment(s0, part + z, lo, hi, y)
  {
    PartsSort(s0, part, s, left, x, right, y, lo, b, hi, pivot);
    hide Interleaves, SegmentSorted, Split, Applied;
    assert |s| == |s0| && Apart(left, right);
    InterleavingIsSequence(s, left, right, z);
    InterleavingIsWithin(left, right, z, lo, hi);
    ReachesInTwo(s0, part, s, z, y, lo, hi);
  }

  /** Some schedule of the two children after the partition: any interleaving will do. */
  lemma Schedule(s0: seq<real>, part: seq<Exchange>, s: seq<real>, left: seq<Exchange>, x: seq<real>, right: seq<Exchange>, y: seq<real>,
                 lo: int, b: int, hi: int, pivot: real) returns (trace: seq<Exchange>)
    requires 0 <= lo <= b <= hi < |s0|
    requires Reaches(s0, part, lo, hi, s) && Split(s, lo, b, hi, pivot)
    requires SortsSegment(s, left, lo, b - 1, x) && SortsSegment(x, right, b + 1, hi, y)
    ensures SortsSegment(s0, trace, lo, hi, y)
  {
    hide *;
    OneAfterTheOther(left, right);
    var z :| Interleaves(left, right, z);
    ForkJoins(s0, part, s, left, x, right, y, lo, b, hi, pivot, z);
    trace := part + z;
  }

  /** The fork-join helper with its guard repaired to `low >= high`: it never partitions an
      empty segment.  `trace` is one of all possible schedules. */
  method RepairedParallelHelper(lyst: array<real>, low: int, high: int, level: int) returns (ghost trace: seq<Exchange>)
    requires 0 <= low <= high + 1 <= lyst.Length
    modifies lyst
    ensures SortsSegment(old(lyst[..]), trace, low, high, lyst[..])
    decreases high - low + 1
  {
    hide *;
    ghost var s0 := lyst[..];
    if level <= 0 || low >= high {
      trace := RepairedLeaf(lyst, low, high);
      return;
    }
    var mid: int;
    ghost var pivot, part;
    mid, pivot, part := SplitSegment(lyst, low, high);
    ghost var s := lyst[..];
    ghost var left := RepairedParallelHelper(lyst, low, mid - 1, level - 1);
    ghost var x := lyst[..];
    ghost var right := RepairedParallelHelper(lyst, mid + 1, high, level - 1);
    trace := Schedule(s0, part, s, left, x, right, lyst[..], low, mid, high, pivot);
  }

  method RepairedLeaf(lyst: array<real>, low: int, high: int) returns (ghost trace: seq<Exchange>)
    requires 0 <= low <= high + 1 <= lyst.Length
    modifies lyst
    ensures SortsSegment(old(lyst[..]), trace, low, high, lyst[..])
  {
    trace := QuicksortHelper(lyst, low, high);
  }

  // ---------------------------------------------------------------------
  // The fork-join sort as it is written
  // ---------------------------------------------------------------------

  /** The pivots of a whole fork-join run; where none is chosen, the first position is taken. */
  datatype Choices = Default | Choose(r: int, left: Choices, right: Choices)
  {
    function Pivot(lo: int, hi: int): (p: int)
      ensures PivotOf(lo, hi, p)
    {
      if Choose? && PivotOf(lo, hi, r) then r else lo
    }

    function Left(): Choices { if Choose? then left else Default }

    function Right(): Choices { if Choose? then right else Default }
  }

  /** The array at the end, unless some access misses it. */
  datatype Outcome = Ends(s: seq<real>) | OutOfBounds

  function SequentialEnd(s: seq<real>, lo: int, hi: int): (t: seq<real>)
    requires Fits(|s|, lo, hi)
    ensures |t| == |s|
  {
    if lo < hi then SegmentSorted(s, lo, hi) else s
  }

  /** The helper's result when each left child runs before its sibling.  The guard lets empty
      segments through, so a partition may reach beyond its segment. */
  function Result(s: seq<real>, lo: int, hi: int, level: int, c: Choices): (o: Outcome)
    requires Fits(|s|, lo, hi)
    ensures o.Ends? ==> |o.s| == |s|
    decreases level
  {
    if level <= 0 || lo == hi then Ends(SequentialEnd(s, lo, hi))
    else if !InArray(|s|, lo, hi) then OutOfBounds
    else
      var p := PartitionEnd(s, lo, hi, c.Pivot(lo, hi));
      var left := Result(p.s, lo, p.b - 1, level - 1, c.Left());
      if left.OutOfBounds? then OutOfBounds
      else Result(left.s, p.b + 1, hi, level - 1, c.Right())
  }

  /** Some access of the run lies outside `from..to`. */
  predicate Strays(s: seq<real>, lo: int, hi: int, level: int, c: Choices, from: int, to: int)
    requires Fits(|s|, lo, hi)
    decreases level
  {
    if level <= 0 || lo == hi then lo < hi && (lo < from || to < hi)
    else
      || Min(lo, hi) < from || to < Max(lo, hi)
      || (InArray(|s|, lo, hi) &&
          var p := PartitionEnd(s, lo, hi, c.Pivot(lo, hi));
          var left := Result(p.s, lo, p.b - 1, level - 1, c.Left());
          || Strays(p.s, lo, p.b - 1, level - 1, c.Left(), from, to)
          || (left.Ends? && Strays(left.s, p.b + 1, hi, level - 1, c.Right(), from, to)))
  }

  /** The calls that never partition an empty segment. */
  predicate Confined(lo: int, hi: int, level: int) {
    level <= 0 || lo == hi || (level == 1 && lo <= hi)
  }

  /** The first of the least elements. */
  lemma {:induction false} LeastElement(s: seq<real>, lo: int, hi: int) returns (r: int)
    requires 0 <= lo <= hi < |s|
    ensures lo <= r <= hi && forall k :: lo <= k <= hi ==> s[r] <= s[k]
    decreases hi - lo
  {
    if lo == hi {
      r := lo;
    } else {
      r := LeastElement(s, lo, hi - 1);
      if s[hi] < s[r] {
        r := hi;
      }
    }
  }

  lemma {:induction false} NothingSmaller(s: seq<real>, b: int, i: int, hi: int, pivot: real)
    requires 0 <= b <= i && b < |s| && hi < |s| && forall k :: i <= k < hi ==> pivot <= s[k]
    ensures Scan(s, b, i, hi, pivot) == Parted(s, b)
    decreases hi - i
  {
    if i < hi {
      NothingSmaller(s, b, i + 1, hi, pivot);
    }
  }

  /** With a least element as pivot the left segment is empty. */
  lemma LeastPivotSplitsFirst(s: seq<real>, lo: int, hi: int, r: int)
    requires 0 <= lo <= r <= hi < |s| && forall k :: lo <= k <= hi ==> s[r] <= s[k]
    ensures PartitionEnd(s, lo, hi, r).b == lo
  {
    NothingSmaller(Exchanged(s, Exchange(r, hi)), lo, lo, hi, s[r]);
  }

  /** A least pivot at level 2 or more makes the left child look one element before the segment. */
  lemma LeastPivotStrays(s: seq<real>, lo: int, hi: int, level: int) returns (c: Choices)
    requires 0 <= lo < hi < |s| && 2 <= level
    ensures Strays(s, lo, hi, level, c, lo, hi)
    ensures lo == 0 ==> Result(s, lo, hi, level, c) == OutOfBounds
  {
    var r := LeastElement(s, lo, hi);
    c := Choose(r, Default, Default);
    LeastPivotSplitsFirst(s, lo, hi, r);
    hide PartitionEnd;
    assert c.Pivot(lo, hi) == r;
    var p := PartitionEnd(s, lo, hi, r);
    assert Strays(p.s, lo, lo - 1, level - 1, Default, lo, hi);
    assert lo == 0 ==> Result(p.s, lo, lo - 1, level - 1, Default) == OutOfBounds;
  }

  lemma SequentialIsSegment(s: seq<real>, lo: int, hi: int)
    requires 0 <= lo <= hi + 1 <= |s|
    ensures SequentialEnd(s, lo, hi) == SegmentSorted(s, lo, hi)
  {
    if hi <= lo {
      ShortSegments(s, lo, hi);
    }
  }

  /** One fork: partition, the left child, the right child. */
  lemma ResultOfFork(s: seq<real>, lo: int, hi: int, level: int, c: Choices, p: Parted, x: seq<real>)
    requires 0 < level && lo != hi && InArray(|s|, lo, hi) && p == PartitionEnd(s, lo, hi, c.Pivot(lo, hi))
    requires Fits(|s|, lo, hi) && Fits(|s|, lo, p.b - 1) && Fits(|s|, p.b + 1, hi)
    requires Result(p.s, lo, p.b - 1, level - 1, c.Left()) == Ends(x)
    ensures |x| == |s| && Result(s, lo, hi, level, c) == Result(x, p.b + 1, hi, level - 1, c.Right())
  {
    hide PartitionEnd, SequentialEnd;
  }

  /** A fork strays where its partition or one of its children does. */
  lemma ForkStrays(s: seq<real>, lo: int, hi: int, level: int, c: Choices, p: Parted, x: seq<real>, from: int, to: int)
    requires 0 < level && lo != hi && InArray(|s|, lo, hi) && p == PartitionEnd(s, lo, hi, c.Pivot(lo, hi))
    requires Fits(|s|, lo, hi) && Fits(|s|, lo, p.b - 1) && Fits(|s|, p.b + 1, hi)
    requires Result(p.s, lo, p.b - 1, level - 1, c.Left()) == Ends(x)
    ensures |x| == |s|
    ensures Strays(s, lo, hi, level, c, from, to) <==>
            || Min(lo, hi) < from || to < Max(lo, hi)
            || Strays(p.s, lo, p.b - 1, level - 1, c.Left(), from, to) || Strays(x, p.b + 1, hi, level - 1, c.Right(), from, to)
  {
    hide PartitionEnd, SequentialEnd;
  }

  lemma LeafStays(s: seq<real>, lo: int, hi: int, level: int, c: Choices, from: int, to: int)
    requires 0 <= lo <= hi + 1 <= |s| && (level <= 0 || lo == hi) && (lo < hi ==> from <= lo && hi <= to)
    ensures !Strays(s, lo, hi, level, c, from, to)
    ensures Result(s, lo, hi, level, c) == Ends(SegmentSorted(s, lo, hi))
  {
    hide SequentialEnd, SegmentSorted, PartitionEnd;
    SequentialIsSegment(s, lo, hi);
  }

  /** One level of threads on a segment with elements to split. */
  lemma ForkStays(s: seq<real>, lo: int, hi: int, c: Choices)
    requires 0 <= lo < hi < |s|
    ensures !Strays(s, lo, hi, 1, c, lo, hi)
    ensures Result(s, lo, hi, 1, c) == Ends(SegmentSorted(s, lo, hi))
  {
    hide *;
    var p := SplitByChoice(s, lo, hi, c);
    var left, t := PartsSorted(s, p.s, lo, p.b, hi, s[c.Pivot(lo, hi)]);
    LeafStays(p.s, lo, p.b - 1, 0, c.Left(), lo, hi);
    LeafStays(left, p.b + 1, hi, 0, c.Right(), lo, hi);
    ResultOfFork(s, lo, hi, 1, c, p, left);
    ForkStrays(s, lo, hi, 1, c, p, left, lo, hi);
  }

  lemma PartsSorted(s0: seq<real>, s: seq<real>, lo: int, b: int, hi: int, pivot: real) returns (left: seq<real>, t: seq<real>)
    requires 0 <= lo <= b <= hi < |s0| == |s| && Rearranged(s0, s, lo, hi) && Split(s, lo, b, hi, pivot)
    ensures left == SegmentSorted(s, lo, b - 1) && |left| == |s|
    ensures t == SegmentSorted(left, b + 1, hi) == SegmentSorted(s0, lo, hi)
  {
    SplitThenSort(s0, s, lo, b, hi, pivot);
    hide *;
    left := SegmentSorted(s, lo, b - 1);
    t := SegmentSorted(left, b + 1, hi);
  }

  lemma SplitByChoice(s: seq<real>, lo: int, hi: int, c: Choices) returns (p: Parted)
    requires 0 <= lo < hi < |s|
    ensures InArray(|s|, lo, hi) && Min(lo, hi) == lo && Max(lo, hi) == hi
    ensures Fits(|s|, lo, hi) && Fits(|s|, lo, p.b - 1) && Fits(|s|, p.b + 1, hi)
    ensures p == PartitionEnd(s, lo, hi, c.Pivot(lo, hi)) && |p.s| == |s| && lo <= p.b <= hi
    ensures var r := c.Pivot(lo, hi); lo <= r <= hi && Split(p.s, lo, p.b, hi, s[r]) && Rearranged(s, p.s, lo, hi)
  {
    var r := c.Pivot(lo, hi);
    hide PartitionEnd, Split, Rearranged;
    p := PartitionEnd(s, lo, hi, r);
    PartitionSplits(s, lo, hi, r);
  }

  lemma ConfinedStays(s: seq<real>, lo: int, hi: int, level: int, c: Choices)
    requires 0 <= lo <= hi + 1 <= |s| && Confined(lo, hi, level)
    ensures !Strays(s, lo, hi, level, c, lo, hi)
    ensures Result(s, lo, hi, level, c) == Ends(SegmentSorted(s, lo, hi))
  {
    hide Result, Strays, SequentialEnd, SegmentSorted, PartitionEnd;
    if level <= 0 || lo == hi {
      LeafStays(s, lo, hi, level, c, lo, hi);
    } else {
      ForkStays(s, lo, hi, c);
    }
  }

  lemma EmptyStrays(s: seq<real>, lo: int, hi: int, level: int)
    requires 0 <= lo == hi + 1 <= |s| && 1 <= level
    ensures Strays(s, lo, hi, level, Default, lo, hi)
    ensures lo == 0 ==> Result(s, lo, hi, level, Default) == OutOfBounds
  {
  }

  /** No choice of pivots makes an access outside the segment. */
  ghost predicate StaysInSegment(s: seq<real>, lo: int, hi: int, level: int)
    requires Fits(|s|, lo, hi)
  {
    forall c: Choices :: !Strays(s, lo, hi, level, c, lo, hi)
  }

  /** Every choice of pivots keeps all accesses within the segment if and only if no empty
      segment is ever partitioned. */
  lemma StaysInSegmentIff(s: seq<real>, lo: int, hi: int, level: int)
    requires 0 <= lo <= hi + 1 <= |s|
    ensures StaysInSegment(s, lo, hi, level) <==> Confined(lo, hi, level)
  {
    hide Strays, Result;
    if Confined(lo, hi, level) {
      forall c: Choices
        ensures !Strays(s, lo, hi, level, c, lo, hi)
      {
        ConfinedStays(s, lo, hi, level, c);
      }
    } else if lo < hi {
      var c := LeastPivotStrays(s, lo, hi, level);
    } else {
      EmptyStrays(s, lo, hi, level);
    }
  }

  /** The whole array ends up sorted, whatever the pivots. */
  ghost predicate AlwaysSorts(s: seq<real>, tlevel: int) {
    var last := |s| - 1;
    forall c: Choices :: Result(s, 0, last, tlevel, c) == Ends(SortedOf(s))
  }

  /** The whole array is sorted for every choice of pivots if and only if the sort is
      sequential, or the array has one element, or one level of threads has something to split. */
  lemma ParallelSortsIff(s: seq<real>, tlevel: int)
    ensures AlwaysSorts(s, tlevel) <==> tlevel <= 0 || |s| == 1 || (tlevel == 1 && |s| >= 1)
  {
    hide Strays, Result, SortedOf;
    var last := |s| - 1;
    if Confined(0, last, tlevel) {
      WholeIsSorted(s);
      forall c: Choices
        ensures Result(s, 0, last, tlevel, c) == Ends(SortedOf(s))
      {
        ConfinedStays(s, 0, last, tlevel, c);
      }
    } else if |s| >= 2 {
      var c := LeastPivotStrays(s, 0, last, tlevel);
    } else {
      EmptyStrays(s, 0, last, tlevel);
    }
  }

  lemma ResultOfNothing(s: seq<real>, lo: int, hi: int, level: int, c: Choices)
    requires lo == hi || (lo > hi && level <= 0)
    ensures Result(s, lo, hi, level, c) == Ends(s)
  {
  }

  /** A partition of an empty segment exchanges its two ends twice. */
  lemma EmptyPartition(s: seq<real>, lo: int)
    requires 0 < lo < |s|
    ensures PartitionEnd(s, lo, lo - 1, lo) == Parted(s, lo)
  {
  }

  const TAIL := Choose(2, Default, Default)

  const EMPTY_PART := Choose(2, Default, TAIL)

  const RIGHT_PART := Choose(2, EMPTY_PART, Default)

  /** Pivots 1 on the whole array, 2 on its right part, and 2 on the empty segments after that. */
  const UNLUCKY := Choose(1, Default, RIGHT_PART)

  lemma TailResult()
    ensures Result([0.0, 1.0, 2.0, 3.0], 3, 1, 1, TAIL) == Ends([0.0, 3.0, 1.0, 2.0])
  {
    var s, t := [0.0, 1.0, 2.0, 3.0], [0.0, 3.0, 1.0, 2.0];
    StrayingPartition();
    ResultOfNothing(t, 3, 2, 0, Default);
    ResultOfNothing(t, 4, 1, 0, Default);
    hide PartitionEnd, Result, SequentialEnd;
    ResultOfFork(s, 3, 1, 1, TAIL, Parted(t, 3), t);
  }

  lemma EmptyPartResult()
    ensures Result([0.0, 1.0, 2.0, 3.0], 2, 1, 2, EMPTY_PART) == Ends([0.0, 3.0, 1.0, 2.0])
  {
    var s := [0.0, 1.0, 2.0, 3.0];
    EmptyPartition(s, 2);
    ResultOfNothing(s, 2, 1, 0, Default);
    ResultOfNothing(s, 3, 1, 0, Default);
    hide PartitionEnd, Result, SequentialEnd;
    ResultOfFork(s, 2, 1, 1, Default, Parted(s, 2), s);
    TailResult();
    ResultOfFork(s, 2, 1, 2, EMPTY_PART, Parted(s, 2), s);
  }

  lemma RightPartResult()
    ensures Result([0.0, 1.0, 2.0, 3.0], 2, 3, 3, RIGHT_PART) == Ends([0.0, 3.0, 1.0, 2.0])
  {
    var s, t := [0.0, 1.0, 2.0, 3.0], [0.0, 3.0, 1.0, 2.0];
    TwoElementPartition();
    ResultOfNothing(t, 3, 3, 2, Default);
    hide PartitionEnd, Result, SequentialEnd;
    EmptyPartResult();
    ResultOfFork(s, 2, 3, 3, RIGHT_PART, Parted(s, 2), t);
  }

  /** Even when every access hits the array the result need not be sorted. */
  lemma UnsortedExample()
    ensures Result([0.0, 1.0, 2.0, 3.0], 0, 3, 4, UNLUCKY) == Ends([0.0, 3.0, 1.0, 2.0])
    ensures !Sorted([0.0, 3.0, 1.0, 2.0])
  {
    var s, t := [0.0, 1.0, 2.0, 3.0], [0.0, 3.0, 1.0, 2.0];
    assert t[1] > t[2];
    FirstPartition();
    ResultOfNothing(s, 0, 0, 3, Default);
    hide PartitionEnd, Result, SequentialEnd;
    RightPartResult();
    ResultOfFork(s, 0, 3, 4, UNLUCKY, Parted(s, 1), s);
  }

  lemma FirstPartition()
    ensures PartitionEnd([0.0, 1.0, 2.0, 3.0], 0, 3, 1) == Parted([0.0, 1.0, 2.0, 3.0], 1)
  {
    var s, t := [0.0, 1.0, 2.0, 3.0], [0.0, 3.0, 2.0, 1.0];
    assert Exchanged(s, Exchange(1, 3)) == t;
    assert Exchanged(t, Exchange(0, 0)) == t;
    NothingSmaller(t, 1, 1, 3, 1.0);
    assert Scan(t, 0, 0, 3, 1.0) == Parted(t, 1);
    assert Exchanged(t, Exchange(3, 1)) == s;
  }

  lemma TwoElementPartition()
    ensures PartitionEnd([0.0, 1.0, 2.0, 3.0], 2, 3, 2) == Parted([0.0, 1.0, 2.0, 3.0], 2)
  {
    var s, t := [0.0, 1.0, 2.0, 3.0], [0.0, 1.0, 3.0, 2.0];
    assert Exchanged(s, Exchange(2, 3)) == t;
    NothingSmaller(t, 2, 2, 3, 2.0);
    assert Exchanged(t, Exchange(3, 2)) == s;
  }

  lemma StrayingPartition()
    ensures PartitionEnd([0.0, 1.0, 2.0, 3.0], 3, 1, 2) == Parted([0.0, 3.0, 1.0, 2.0], 3)
  {
    var s := [0.0, 1.0, 2.0, 3.0];
    assert Exchanged(s, Exchange(2, 1)) == [0.0, 2.0, 1.0, 3.0];
    assert Exchanged([0.0, 2.0, 1.0, 3.0], Exchange(1, 3)) == [0.0, 3.0, 1.0, 2.0];
  }

  lemma LeafResult(s: seq<real>, lo: int, hi: int, level: int, c: Choices, trace: seq<Exchange>, t: seq<real>)
    requires (level <= 0 || lo == hi) && Fits(|s|, lo, hi) && (lo >= hi ==> t == s)
    requires 0 <= lo <= hi + 1 <= |s| ==> SortsSegment(s, trace, lo, hi, t)
    ensures Result(s, lo, hi, level, c) == Ends(t)
  {
    hide Reaches, SegmentSorted;
  }

  lemma MissedResult(s: seq<real>, lo: int, hi: int, level: int, c: Choices)
    requires 0 < level && lo != hi && Fits(|s|, lo, hi) && !InArray(|s|, lo, hi)
    ensures Result(s, lo, hi, level, c) == OutOfBounds
    ensures 0 <= lo <= hi + 1 <= |s| ==> !Confined(lo, hi, level)
  {
  }

  /** A fork whose pivot is `r` and whose children make the choices `cl` and `cr`. */
  lemma ForkChoices(lo: int, hi: int, r: int, cl: Choices, cr: Choices)
    requires PivotOf(lo, hi, r)
    ensures Choose(r, cl, cr).Pivot(lo, hi) == r
    ensures Choose(r, cl, cr).Left() == cl && Choose(r, cl, cr).Right() == cr
  {
  }

  lemma ResultOfFailedFork(s: seq<real>, lo: int, hi: int, level: int, r: int, cl: Choices, p: Parted)
    requires 0 < level && lo != hi && InArray(|s|, lo, hi) && PivotOf(lo, hi, r) && p == PartitionEnd(s, lo, hi, r)
    requires Fits(|s|, lo, hi) && Fits(|s|, lo, p.b - 1)
    requires Result(p.s, lo, p.b - 1, level - 1, cl) == OutOfBounds
    ensures Result(s, lo, hi, level, Choose(r, cl, Default)) == OutOfBounds
  {
    hide PartitionEnd, SequentialEnd;
    ForkChoices(lo, hi, r, cl, Default);
  }

  /** A child with two elements or more lies in the array; the only confined forks have elements
      to split and sequential children. */
  lemma ChildrenFit(s: seq<real>, lo: int, hi: int, r: int, level: int)
    requires 0 < level && lo != hi && InArray(|s|, lo, hi) && PivotOf(lo, hi, r)
    ensures var b := PartitionEnd(s, lo, hi, r).b;
            && Fits(|s|, lo, hi) && Fits(|s|, lo, b - 1) && Fits(|s|, b + 1, hi)
            && (Confined(lo, hi, level) ==>
                && 0 <= lo <= r <= hi < |s| && lo <= b <= hi
                && Confined(lo, b - 1, level - 1) && Confined(b + 1, hi, level - 1))
  {
    hide PartitionEnd;
  }

  /** A schedule of the two children after the partition. */
  lemma ScheduledFork(s0: seq<real>, lo: int, hi: int, r: int, part: seq<Exchange>, s: seq<real>, b: int,
                      left: seq<Exchange>, x: seq<real>, right: seq<Exchange>, y: seq<real>) returns (trace: seq<Exchange>)
    requires 0 <= lo <= r <= hi < |s0| && Parted(s, b) == PartitionEnd(s0, lo, hi, r)
    requires Reaches(s0, part, Min(lo, hi), Max(lo, hi), s)
    requires SortsSegment(s, left, lo, b - 1, x) && SortsSegment(x, right, b + 1, hi, y)
    ensures SortsSegment(s0, trace, lo, hi, y)
  {
    PartitionSplits(s0, lo, hi, r);
    hide PartitionEnd, Reaches, Split, SortsSegment, Rearranged;
    trace := Schedule(s0, part, s, left, x, right, y, lo, b, hi, s0[r]);
  }

  /** A thread's work as written: partition unless the level is used up or the segment has
      exactly one element, then two children.  `c` records the pivots.  On a confined segment
      `trace` is one of all possible schedules; otherwise the left child runs first. */
  method ParallelQuicksortHelper(lyst: array<real>, low: int, high: int, level: int)
    returns (ok: bool, ghost c: Choices, ghost trace: seq<Exchange>)
    requires Fits(lyst.Length, low, high)
    modifies lyst
    ensures (if ok then Ends(lyst[..]) else OutOfBounds) == Result(old(lyst[..]), low, high, level, c)
    ensures 0 <= low <= high + 1 <= lyst.Length && Confined(low, high, level)
            ==> ok && SortsSegment(old(lyst[..]), trace, low, high, lyst[..])
    decreases level, 1
  {
    hide *;
    ok, c, trace := true, Default, [];
    ghost var s0 := lyst[..];
    if level <= 0 || low == high {
      trace := QuicksortHelper(lyst, low, high);
      LeafResult(s0, low, high, level, c, trace, lyst[..]);
    } else if !InArray(lyst.Length, low, high) {
      // The partition's first and last accesses miss the array.
      ok := false;
      MissedResult(s0, low, high, level, c);
    } else {
      ok, c, trace := Fork(lyst, low, high, level);
    }
  }

  /** The partition and the two children. */
  method Fork(lyst: array<real>, low: int, high: int, level: int)
    returns (ok: bool, ghost c: Choices, ghost trace: seq<Exchange>)
    requires 0 < level && low != high && InArray(lyst.Length, low, high)
    modifies lyst
    ensures Fits(lyst.Length, low, high)
    ensures (if ok then Ends(lyst[..]) else OutOfBounds) == Result(old(lyst[..]), low, high, level, c)
    ensures 0 <= low <= high + 1 <= lyst.Length && Confined(low, high, level)
            ==> ok && SortsSegment(old(lyst[..]), trace, low, high, lyst[..])
    decreases level, 0
  {
    hide *;
    ghost var s0, confined := lyst[..], 0 <= low <= high + 1 <= lyst.Length && Confined(low, high, level);
    var r := AnyPivot(low, high);
    var mid: int;
    ghost var part, left, right, cl, cr;
    mid, part := Partition(lyst, low, high, r);
    ghost var s := lyst[..];
    ChildrenFit(s0, low, high, r, level);
    ok, cl, left := ParallelQuicksortHelper(lyst, low, mid - 1, level - 1);
    ghost var x := lyst[..];
    if !ok {
      c, trace := Choose(r, cl, Default), [];
      ResultOfFailedFork(s0, low, high, level, r, cl, Parted(s, mid));
    } else {
      ok, cr, right := ParallelQuicksortHelper(lyst, mid + 1, high, level - 1);
      c, trace := Choose(r, cl, cr), [];
      ForkChoices(low, high, r, cl, cr);
      ResultOfFork(s0, low, high, level, c, Parted(s, mid), x);
      if confined {
        trace := ScheduledFork(s0, low, high, r, part, s, mid, left, x, right, lyst[..]);
      }
    }
  }

  method AnyPivot(lo: int, hi: int) returns (r: int)
    ensures PivotOf(lo, hi, r)
  {
    r :| PivotOf(lo, hi, r) by {
      assert PivotOf(lo, hi, lo);
    }
  }

  /** The whole array, on one top-level thread. */
  method ParallelQuicksort(lyst: array<real>, tlevel: int) returns (ok: bool, ghost c: Choices)
    modifies lyst
    ensures (if ok then Ends(lyst[..]) else OutOfBounds) == Result(old(lyst[..]), 0, lyst.Length - 1, tlevel, c)
    ensures tlevel <= 0 || lyst.Length == 1 || (tlevel == 1 && lyst.Length >= 1)
            ==> ok && lyst[..] == SortedOf(old(lyst[..])) && Sorted(lyst[..])
  {
    ghost var trace;
    ghost var s0 := lyst[..];
    ok, c, trace := ParallelQuicksortHelper(lyst, 0, lyst.Length - 1, tlevel);
    if Confined(0, lyst.Length - 1, tlevel) {
      WholeSegment(s0, trace, lyst[..]);
    }
  }
}
