/**
 Quantiles and fractions of classic histograms (promql/quantile.go), over exact
 reals. Upper bounds are finite or +Inf.
 */
module Quantile {
  import opened Prelude

  datatype Bucket = Bucket(le: Float, count: real)

  predicate Le(a: Float, b: Float) {
    Lt(a, b) || a == b
  }

  ghost predicate Bounded(s: seq<Bucket>) {
    forall i | 0 <= i < |s| :: s[i].le.Finite? || s[i].le.PosInf?
  }

  ghost predicate SortedBounds(s: seq<Bucket>) {
    forall i, j | 0 <= i < j < |s| :: Le(s[i].le, s[j].le)
  }

  ghost predicate StrictBounds(s: seq<Bucket>) {
    forall i, j | 0 <= i < j < |s| :: Lt(s[i].le, s[j].le)
  }

  ghost predicate Monotone(s: seq<Bucket>) {
    forall i, j | 0 <= i < j < |s| :: s[i].count <= s[j].count
  }

  /** The sum of the counts with one upper bound. */
  function SumAt(s: seq<Bucket>, le: Float): real {
    if s == [] then 0.0
    else SumAt(s[..|s| - 1], le) + if s[|s| - 1].le == le then s[|s| - 1].count else 0.0
  }

  // ---------------------------------------------------------------- sorting in place

  lemma {:induction false} SumAppend(s: seq<Bucket>, t: seq<Bucket>, le: Float)
    ensures SumAt(s + t, le) == SumAt(s, le) + SumAt(t, le)
  {
    if t == [] {
      assert s + t == s;
    } else {
      assert (s + t)[..|s + t| - 1] == s + t[..|t| - 1];
      SumAppend(s, t[..|t| - 1], le);
    }
  }

  /** Swapping two neighbours keeps the sums. */
  lemma SumSwap(s: seq<Bucket>, j: nat, le: Float)
    requires 0 < j < |s|
    ensures SumAt(s[j - 1 := s[j]][j := s[j - 1]], le) == SumAt(s, le)
  {
    var a, b, pre, post := s[j - 1], s[j], s[..j - 1], s[j + 1..];
    assert s == pre + [a, b] + post && s[j - 1 := b][j := a] == pre + [b, a] + post;
    SumAppend(pre + [a, b], post, le);
    SumAppend(pre + [b, a], post, le);
    SumAppend(pre, [a, b], le);
    SumAppend(pre, [b, a], le);
    SumPair(a, b, le);
  }

  lemma SumPair(a: Bucket, b: Bucket, le: Float)
    ensures SumAt([a, b], le) == SumAt([b, a], le)
  {
    assert [a, b] == [a] + [b] && [b, a] == [b] + [a];
    SumAppend([a], [b], le);
    SumAppend([b], [a], le);
  }

  ghost predicate SameSums(s: seq<Bucket>, t: seq<Bucket>) {
    forall le :: SumAt(s, le) == SumAt(t, le)
  }

  /** The buckets are the same, in another order. */
  ghost predicate Rearranged(s: seq<Bucket>, t: seq<Bucket>) {
    multiset(s) == multiset(t) && SameSums(s, t)
  }

  method SwapDown(a: array<Bucket>, j: nat)
    requires 0 < j < a.Length
    modifies a
    ensures a[..] == old(a[..])[j - 1 := old(a[j])][j := old(a[j - 1])]
    ensures Rearranged(a[..], old(a[..]))
  {
    ghost var before := a[..];
    forall le ensures SumAt(before[j - 1 := before[j]][j := before[j - 1]], le) == SumAt(before, le) {
      SumSwap(before, j, le);
    }
    a[j - 1], a[j] := a[j], a[j - 1];
    assert a[..] == before[j - 1 := before[j]][j := before[j - 1]];
  }

  /** Sorted up to i, but for the bucket at j. */
  ghost predicate SortedBut(s: seq<Bucket>, i: nat, j: nat) {
    j <= i < |s| && forall x, y | 0 <= x < y <= i && y != j :: Le(s[x].le, s[y].le)
  }

  lemma SwapKeepsSorted(s: seq<Bucket>, i: nat, j: nat)
    requires Bounded(s) && SortedBut(s, i, j) && 0 < j && Lt(s[j].le, s[j - 1].le)
    ensures var t := s[j - 1 := s[j]][j := s[j - 1]]; Bounded(t) && SortedBut(t, i, j - 1)
  {
    var t := s[j - 1 := s[j]][j := s[j - 1]];
    forall x, y | 0 <= x < y <= i && y != j - 1 ensures Le(t[x].le, t[y].le) {
      assert y != j ==> Le(s[if x == j - 1 then j else if x == j then j - 1 else x].le, s[y].le);
    }
  }

  /** Move a[i] down to its place among the sorted buckets before it. */
  method InsertDown(a: array<Bucket>, i: nat)
    requires i < a.Length && Bounded(a[..]) && SortedBounds(a[..i])
    modifies a
    ensures Bounded(a[..]) && SortedBounds(a[..i + 1])
    ensures Rearranged(a[..], old(a[..]))
  {
    var j := i;
    while j > 0 && Lt(a[j].le, a[j - 1].le)
      invariant 0 <= j <= i
      invariant Bounded(a[..]) && SortedBut(a[..], i, j)
      invariant Rearranged(a[..], old(a[..]))
    {
      SwapKeepsSorted(a[..], i, j);
      SwapDown(a, j);
      j := j - 1;
    }
    InPlace(a[..], i, j);
  }

  lemma InPlace(s: seq<Bucket>, i: nat, j: nat)
    requires Bounded(s) && SortedBut(s, i, j) && (j == 0 || !Lt(s[j].le, s[j - 1].le))
    ensures SortedBounds(s[..i + 1])
  {
    forall x, y | 0 <= x < y <= i ensures Le(s[x].le, s[y].le) {
      if y == j && x < j - 1 { assert Le(s[x].le, s[j - 1].le); }
    }
  }

  /** slices.SortFunc, as an insertion sort. */
  method SortBuckets(a: array<Bucket>)
    requires Bounded(a[..])
    modifies a
    ensures Bounded(a[..]) && SortedBounds(a[..])
    ensures Rearranged(a[..], old(a[..]))
  {
    var i := 0;
    while i < a.Length
      invariant 0 <= i <= a.Length
      invariant Bounded(a[..]) && SortedBounds(a[..i])
      invariant Rearranged(a[..], old(a[..]))
    {
      InsertDown(a, i);
      i := i + 1;
    }
    assert a[..] == a[..i];
  }

  // ---------------------------------------------------------------- merging buckets with one bound

  ghost predicate HasBound(s: seq<Bucket>, le: Float) {
    exists i :: 0 <= i < |s| && s[i].le == le
  }

  /** `w` has each bound of the sorted `s` once, with the sum of its counts. */
  ghost predicate Coalesced(w: seq<Bucket>, s: seq<Bucket>) {
    && w != [] && s != [] && w[|w| - 1].le == s[|s| - 1].le
    && StrictBounds(w) && Bounded(w) && SameSums(w, s)
    && forall le :: HasBound(w, le) <==> HasBound(s, le)
  }

  lemma Snoc(s: seq<Bucket>, b: Bucket, le: Float)
    ensures SumAt(s + [b], le) == SumAt(s, le) + if b.le == le then b.count else 0.0
    ensures HasBound(s + [b], le) <==> HasBound(s, le) || b.le == le
  {
    assert (s + [b])[..|s|] == s;
    assert (s + [b])[|s|] == b;
    if HasBound(s, le) {
      var i :| 0 <= i < |s| && s[i].le == le;
      assert (s + [b])[i].le == le;
    }
  }

  lemma CoalesceNew(done: seq<Bucket>, last: Bucket, s: seq<Bucket>, b: Bucket)
    requires Coalesced(done + [last], s) && Lt(last.le, b.le) && (b.le.Finite? || b.le.PosInf?)
    ensures Coalesced(done + [last] + [b], s + [b])
  {
    var w := done + [last];
    forall le ensures SumAt(w + [b], le) == SumAt(s + [b], le) && (HasBound(w + [b], le) <==> HasBound(s + [b], le)) {
      Snoc(w, b, le);
      Snoc(s, b, le);
    }
    forall i | 0 <= i < |w| ensures Lt(w[i].le, b.le) {
      assert i < |w| - 1 ==> Lt(w[i].le, last.le);
    }
  }

  lemma CoalesceSame(done: seq<Bucket>, last: Bucket, s: seq<Bucket>, b: Bucket)
    requires Coalesced(done + [last], s) && b.le == last.le
    ensures Coalesced(done + [Bucket(last.le, last.count + b.count)], s + [b])
  {
    var last' := Bucket(last.le, last.count + b.count);
    forall le
      ensures SumAt(done + [last'], le) == SumAt(s + [b], le)
      ensures HasBound(done + [last'], le) <==> HasBound(s + [b], le)
    {
      Snoc(done, last, le);
      Snoc(done, last', le);
      Snoc(s, b, le);
    }
    assert forall i | 0 <= i < |done| :: (done + [last'])[i] == (done + [last])[i];
  }

  /** coalesceBuckets: merge in place; the first `n` buckets are the result. */
  method CoalesceBuckets(a: array<Bucket>) returns (n: nat)
    requires a.Length > 0 && Bounded(a[..]) && SortedBounds(a[..])
    modifies a
    ensures 0 < n <= a.Length && Coalesced(a[..n], old(a[..]))
  {
    ghost var s := a[..];
    var last, i, k := a[0], 0, 1;
    ghost var w := [last];
    assert s[..1] == w;
    while k < a.Length
      invariant 0 <= i < k <= a.Length
      invariant w == a[..i] + [last] && Coalesced(w, s[..k])
      invariant a[k..] == s[k..]
    {
      var b := a[k];
      assert b == s[k] && Le(last.le, b.le) by {
        assert a[k..][0] == s[k..][0];
        assert last.le == s[..k][k - 1].le == s[k - 1].le;
      }
      assert s[..k + 1] == s[..k] + [b];
      assert a[k + 1..] == a[k..][1..] && s[k + 1..] == s[k..][1..];
      if b.le == last.le {
        CoalesceSame(a[..i], last, s[..k], b);
        last := Bucket(last.le, last.count + b.count);
        w := a[..i] + [last];
      } else {
        CoalesceNew(a[..i], last, s[..k], b);
        a[i] := last;
        assert a[..i + 1] == w;
        last := b;
        i := i + 1;
        w := w + [b];
      }
      k := k + 1;
    }
    a[i] := last;
    n := i + 1;
    assert a[..n] == w && s[..k] == s;
  }

  // ---------------------------------------------------------------- repairing the counts

  /** Any relation may stand for "almost equal". */
  type AlmostEqual = (real, real) -> bool

  /** The count of bucket i after the repair: never below that of the bucket before. */
  function Level(s: seq<Bucket>, i: nat, almost: AlmostEqual): real
    requires i < |s|
  {
    if i == 0 then s[0].count
    else
      var prev, curr := Level(s, i - 1, almost), s[i].count;
      if curr < prev || almost(prev, curr) then prev else curr
  }

  lemma {:induction false} LevelsRise(s: seq<Bucket>, i: nat, j: nat, almost: AlmostEqual)
    requires i <= j < |s|
    ensures Level(s, i, almost) <= Level(s, j, almost)
    decreases j
  {
    if i < j { LevelsRise(s, i, j - 1, almost); }
  }

  /** Counts that already rise and are nowhere almost equal stay as they are. */
  lemma {:induction false} LevelsOfMonotone(s: seq<Bucket>, i: nat, almost: AlmostEqual)
    requires Monotone(s) && i < |s|
    requires forall x, y | 0 <= x < y < |s| && s[x].count != s[y].count :: !almost(s[x].count, s[y].count)
    ensures Level(s, i, almost) == s[i].count
  {
    if i > 0 { LevelsOfMonotone(s, i - 1, almost); }
  }

  /** Same bounds, repaired counts. */
  ghost predicate Repaired(t: seq<Bucket>, s: seq<Bucket>, n: nat, almost: AlmostEqual) {
    && |t| == |s| && n <= |s|
    && (forall i: nat | i < n :: t[i] == Bucket(s[i].le, Level(s, i, almost)))
    && (forall i | n <= i < |s| :: t[i] == s[i])
  }

  /** A count fell below that of the bucket before and was raised to it. */
  predicate ForcedAt(s: seq<Bucket>, i: nat, almost: AlmostEqual) {
    0 < i < |s| && s[i].count < Level(s, i - 1, almost) && !almost(Level(s, i - 1, almost), s[i].count)
  }

  ghost predicate Forced(s: seq<Bucket>, n: nat, almost: AlmostEqual) {
    exists i: nat :: i < n && ForcedAt(s, i, almost)
  }

  /** A count was almost that of the bucket before and was set to it. */
  predicate IgnoredAt(s: seq<Bucket>, i: nat, almost: AlmostEqual) {
    0 < i < |s| && s[i].count != Level(s, i - 1, almost) && almost(Level(s, i - 1, almost), s[i].count)
  }

  ghost predicate Ignored(s: seq<Bucket>, n: nat, almost: AlmostEqual) {
    exists i: nat :: i < n && IgnoredAt(s, i, almost)
  }

  /** After the repair a count is that of the bucket before, or its own and larger by more than the tolerance. */
  lemma StepsAreLarge(s: seq<Bucket>, i: nat, almost: AlmostEqual)
    requires 0 < i < |s|
    ensures var prev, level := Level(s, i - 1, almost), Level(s, i, almost);
            level == prev || (prev < level && !almost(prev, level) && level == s[i].count)
  {
  }

  /** The repair changes nothing exactly when it raises no flag. */
  lemma UnchangedExactly(s: seq<Bucket>, n: nat, almost: AlmostEqual)
    requires n <= |s|
    ensures (forall i: nat | i < n :: Level(s, i, almost) == s[i].count) <==>
            !Forced(s, n, almost) && !Ignored(s, n, almost)
  {
    forall i: nat | i < n
      ensures Level(s, i, almost) != s[i].count <==> ForcedAt(s, i, almost) || IgnoredAt(s, i, almost)
    {
    }
  }

  lemma RepairedNext(t: seq<Bucket>, s: seq<Bucket>, i: nat, almost: AlmostEqual)
    requires Repaired(t, s, i, almost) && i < |s|
    ensures Repaired(t[i := Bucket(s[i].le, Level(s, i, almost))], s, i + 1, almost)
  {
  }

  lemma FlagsNext(s: seq<Bucket>, i: nat, almost: AlmostEqual)
    ensures Forced(s, i + 1, almost) <==> Forced(s, i, almost) || ForcedAt(s, i, almost)
    ensures Ignored(s, i + 1, almost) <==> Ignored(s, i, almost) || IgnoredAt(s, i, almost)
  {
  }

  /** The correction of one bucket against the level before it. */
  method Correct(b: Bucket, prev: real, almost: AlmostEqual) returns (b': Bucket, forced: bool, fixed: bool)
    ensures b' == Bucket(b.le, if b.count < prev || almost(prev, b.count) then prev else b.count)
    ensures forced <==> b.count < prev && !almost(prev, b.count)
    ensures fixed <==> b.count != prev && almost(prev, b.count)
  {
    b', forced, fixed := b, false, false;
    if b.count == prev {
    } else if almost(prev, b.count) {
      b', fixed := b.(count := prev), true;
    } else if b.count < prev {
      b', forced := b.(count := prev), true;
    }
  }

  method EnsureMonotonic(a: array<Bucket>, n: nat, almost: AlmostEqual) returns (forced: bool, fixed: bool)
    requires 0 < n <= a.Length
    modifies a
    ensures Repaired(a[..n], old(a[..n]), n, almost)
    ensures forced <==> Forced(old(a[..n]), n, almost)
    ensures fixed <==> Ignored(old(a[..n]), n, almost)
  {
    ghost var s := a[..n];
    forced, fixed := false, false;
    var prev, i: nat := a[0].count, 1;
    while i < n
      invariant 1 <= i <= n
      invariant Repaired(a[..n], s, i, almost) && prev == Level(s, i - 1, almost)
      invariant forced <==> Forced(s, i, almost)
      invariant fixed <==> Ignored(s, i, almost)
    {
      assert a[..n][i] == s[i];
      RepairedNext(a[..n], s, i, almost);
      FlagsNext(s, i, almost);
      ghost var before := a[..n];
      var b, forcedHere, fixedHere := Correct(a[i], prev, almost);
      a[i] := b;
      assert a[..n] == before[i := b];
      forced, fixed, prev := forced || forcedHere, fixed || fixedHere, b.count;
      i := i + 1;
    }
  }

  // ---------------------------------------------------------------- the quantile

  /** Sorted, merged and repaired buckets with some observations. */
  ghost predicate Proper(bs: seq<Bucket>) {
    && |bs| >= 2 && Bounded(bs) && StrictBounds(bs) && bs[|bs| - 1].le == PosInf
    && Monotone(bs) && 0.0 <= bs[0].count && 0.0 < bs[|bs| - 1].count
  }

  /** The first bucket but the last that reaches the rank, or the last. */
  ghost predicate Reaches(bs: seq<Bucket>, rank: real, b: nat) {
    && b < |bs|
    && (forall i | 0 <= i < b :: bs[i].count < rank)
    && (b < |bs| - 1 ==> rank <= bs[b].count)
  }

  /** sort.Search. */
  method Search(a: array<Bucket>, n: nat, rank: real) returns (b: nat)
    requires 0 < n <= a.Length && Monotone(a[..n])
    ensures Reaches(a[..n], rank, b)
  {
    var i, j: nat := 0, n - 1;
    while i < j
      invariant 0 <= i <= j <= n - 1
      invariant forall k | 0 <= k < i :: a[k].count < rank
      invariant j < n - 1 ==> rank <= a[j].count
    {
      var h := (i + j) / 2;
      if !(a[h].count >= rank) {
        assert forall k | 0 <= k <= h :: a[..n][k].count <= a[..n][h].count;
        i := h + 1;
      } else {
        j := h;
      }
    }
    b := i;
  }

  /** The value for a rank that bucket b is the first to reach. */
  function ValueIn(bs: seq<Bucket>, b: nat, rank: real): Float
    requires |bs| >= 2 && b < |bs| && (forall i | 0 <= i < |bs| - 1 :: bs[i].le.Finite?)
  {
    if b == |bs| - 1 then bs[|bs| - 2].le
    else if b == 0 && bs[0].le.x <= 0.0 then bs[0].le
    else
      var start := if b > 0 then bs[b - 1].le.x else 0.0;
      var before := if b > 0 then bs[b - 1].count else 0.0;
      var count := bs[b].count - before;
      if count == 0.0 then NaN(false) else Finite(Interpolate(start, bs[b].le.x, rank - before, count))
  }

  /** The part r / c of the way from `start` to `end`. */
  function Interpolate(start: real, end: real, r: real, c: real): real
    requires c != 0.0
  {
    start + (end - start) * (r / c)
  }

  // Arithmetic of ratios and products.

  lemma ProductRises(d: real, x: real, y: real)
    requires 0.0 <= d && x <= y
    ensures d * x <= d * y
  {
    assert 0.0 <= d * (y - x);
  }

  lemma ProductStrict(d: real, x: real, y: real)
    requires 0.0 < d && x < y
    ensures d * x < d * y
  {
    assert 0.0 < d * (y - x);
  }

  lemma Ratio(r: real, c: real)
    requires c != 0.0
    ensures c * (r / c) == r
  {
  }

  /** Ratios with one denominator are ordered as their numerators. */
  lemma RatioOrder(r: real, r': real, c: real)
    requires 0.0 < c
    ensures r <= r' <==> r / c <= r' / c
    ensures r < r' <==> r / c < r' / c
  {
    Ratio(r, c);
    Ratio(r', c);
    if r / c < r' / c { ProductStrict(c, r / c, r' / c); }
    if r' / c < r / c { ProductStrict(c, r' / c, r / c); }
  }

  /** The ratio of a part to the whole. */
  lemma PartOfWhole(r: real, c: real)
    requires 0.0 <= r <= c && 0.0 < c
    ensures 0.0 <= r / c <= 1.0
    ensures 0.0 < r ==> 0.0 < r / c
    ensures r < c ==> r / c < 1.0
  {
    WholeRatio(c);
    RatioOrder(0.0, r, c);
    RatioOrder(r, c, c);
  }

  /** A way of length d, of which the part x is gone. */
  lemma PartOfWay(d: real, x: real)
    requires 0.0 <= d && 0.0 <= x <= 1.0
    ensures 0.0 <= d * x <= d
    ensures 0.0 < d && 0.0 < x ==> 0.0 < d * x
    ensures 0.0 < d && x < 1.0 ==> d * x < d
  {
    ProductRises(d, 0.0, x);
    ProductRises(d, x, 1.0);
    if 0.0 < d && 0.0 < x { ProductStrict(d, 0.0, x); }
    if 0.0 < d && x < 1.0 { ProductStrict(d, x, 1.0); }
  }

  lemma WholeRatio(c: real)
    requires c != 0.0
    ensures c / c == 1.0 && 0.0 / c == 0.0
  {
  }

  lemma InterpolateBetween(start: real, end: real, r: real, c: real)
    requires start <= end && 0.0 <= r <= c && 0.0 < c
    ensures start <= Interpolate(start, end, r, c) <= end
  {
    PartOfWhole(r, c);
    PartOfWay(end - start, r / c);
  }

  lemma InterpolateRises(start: real, end: real, r: real, r': real, c: real)
    requires start <= end && r <= r' && 0.0 < c
    ensures Interpolate(start, end, r, c) <= Interpolate(start, end, r', c)
  {
    RatioOrder(r, r', c);
    ProductRises(end - start, r / c, r' / c);
  }

  lemma FiniteBounds(bs: seq<Bucket>)
    requires |bs| >= 1 && Bounded(bs) && StrictBounds(bs)
    ensures forall i | 0 <= i < |bs| - 1 :: bs[i].le.Finite?
  {
    forall i | 0 <= i < |bs| - 1 ensures bs[i].le.Finite? {
      assert Lt(bs[i].le, bs[|bs| - 1].le);
    }
  }

  /** The value lies in its bucket. */
  lemma ValueInBucket(bs: seq<Bucket>, b: nat, rank: real)
    requires Proper(bs) && Reaches(bs, rank, b) && 0.0 < rank
    ensures forall i | 0 <= i < |bs| - 1 :: bs[i].le.Finite?
    ensures var v := ValueIn(bs, b, rank);
            && v.Finite?
            && (b > 0 ==> bs[b - 1].le.x <= v.x)
            && (b < |bs| - 1 ==> v.x <= bs[b].le.x)
            && v.x <= bs[|bs| - 2].le.x
  {
    FiniteBounds(bs);
    if b < |bs| - 1 {
      var start := if b > 0 then bs[b - 1].le.x else 0.0;
      var before := if b > 0 then bs[b - 1].count else 0.0;
      assert b > 0 ==> Lt(bs[b - 1].le, bs[b].le);
      if b > 0 || bs[0].le.x > 0.0 {
        InterpolateBetween(start, bs[b].le.x, rank - before, bs[b].count - before);
      }
      assert b < |bs| - 2 ==> Lt(bs[b].le, bs[|bs| - 2].le);
    }
  }

  /** The quantile never falls when the rank rises. */
  lemma ValueRises(bs: seq<Bucket>, b: nat, rank: real, b': nat, rank': real)
    requires Proper(bs) && Reaches(bs, rank, b) && Reaches(bs, rank', b') && 0.0 < rank <= rank'
    ensures forall i | 0 <= i < |bs| - 1 :: bs[i].le.Finite?
    ensures ValueIn(bs, b, rank).Finite? && ValueIn(bs, b', rank').Finite?
    ensures ValueIn(bs, b, rank).x <= ValueIn(bs, b', rank').x
  {
    ValueInBucket(bs, b, rank);
    ValueInBucket(bs, b', rank');
    if b == b' {
      if b < |bs| - 1 && (b > 0 || bs[0].le.x > 0.0) {
        var start := if b > 0 then bs[b - 1].le.x else 0.0;
        var before := if b > 0 then bs[b - 1].count else 0.0;
        assert b > 0 ==> Lt(bs[b - 1].le, bs[b].le);
        InterpolateRises(start, bs[b].le.x, rank - before, rank' - before, bs[b].count - before);
      }
    } else {
      assert b < b';
      assert b < b' - 1 ==> Lt(bs[b].le, bs[b' - 1].le);
    }
  }

  /** The result for proper buckets. */
  ghost function QuantileOf(bs: seq<Bucket>, q: real): Float
    requires Proper(bs)
  {
    FiniteBounds(bs);
    var rank := Rank(q, bs[|bs| - 1].count);
    ValueIn(bs, FirstReaching(bs, rank, 0), rank)
  }

  ghost function FirstReaching(bs: seq<Bucket>, rank: real, i: nat): (b: nat)
    requires i < |bs| && forall k | 0 <= k < i :: bs[k].count < rank
    ensures Reaches(bs, rank, b)
    decreases |bs| - i
  {
    if i == |bs| - 1 || rank <= bs[i].count then i else FirstReaching(bs, rank, i + 1)
  }

  /** Only one bucket is the first to reach a rank. */
  lemma ReachesOnce(bs: seq<Bucket>, rank: real, b: nat, b': nat)
    requires Reaches(bs, rank, b) && Reaches(bs, rank, b')
    ensures b == b'
  {
  }

  function Rank(q: real, observations: real): real {
    q * observations
  }

  lemma RankRises(q: real, q': real, n: real)
    requires q <= q' && 0.0 < n
    ensures Rank(q, n) <= Rank(q', n) && (0.0 < q ==> 0.0 < Rank(q, n)) && (q == 0.0 ==> Rank(q, n) == 0.0)
  {
    ProductRises(n, q, q');
    if 0.0 < q { ProductStrict(n, 0.0, q); }
  }

  /** On (0, 1] the quantile is finite, never falls, and is never above the second-highest bound. */
  lemma QuantileRises(bs: seq<Bucket>, q: real, q': real)
    requires Proper(bs) && 0.0 < q <= q' <= 1.0
    ensures QuantileOf(bs, q).Finite? && QuantileOf(bs, q').Finite?
    ensures QuantileOf(bs, q).x <= QuantileOf(bs, q').x
    ensures bs[|bs| - 2].le.Finite? && QuantileOf(bs, q').x <= bs[|bs| - 2].le.x
  {
    var n := bs[|bs| - 1].count;
    RankRises(q, q', n);
    var rank, rank' := Rank(q, n), Rank(q', n);
    ValueRises(bs, FirstReaching(bs, rank, 0), rank, FirstReaching(bs, rank', 0), rank');
    ValueInBucket(bs, FirstReaching(bs, rank', 0), rank');
  }

  /** Above all bounds the quantile is the highest bound. */
  lemma QuantileAbove(bs: seq<Bucket>, q: real)
    requires Proper(bs) && bs[|bs| - 2].count < q * bs[|bs| - 1].count
    ensures QuantileOf(bs, q) == bs[|bs| - 2].le
  {
    FiniteBounds(bs);
    var rank := Rank(q, bs[|bs| - 1].count);
    ReachesOnce(bs, rank, |bs| - 1, FirstReaching(bs, rank, 0));
  }

  lemma QuantileIs(bs: seq<Bucket>, q: real, rank: real, b: nat)
    requires Proper(bs) && rank == Rank(q, bs[|bs| - 1].count) && Reaches(bs, rank, b)
    ensures (forall i | 0 <= i < |bs| - 1 :: bs[i].le.Finite?) && QuantileOf(bs, q) == ValueIn(bs, b, rank)
  {
    FiniteBounds(bs);
    ReachesOnce(bs, rank, b, FirstReaching(bs, rank, 0));
  }

  /** In the lowest bucket observations lie evenly between zero and its bound, or at the bound if that is not
      positive. */
  lemma QuantileInLowest(bs: seq<Bucket>, q: real, rank: real)
    requires Proper(bs) && rank == Rank(q, bs[|bs| - 1].count) && bs[0].le.Finite? && rank <= bs[0].count
    ensures bs[0].le.x <= 0.0 ==> QuantileOf(bs, q) == bs[0].le
    ensures bs[0].le.x > 0.0 && bs[0].count > 0.0 ==>
              QuantileOf(bs, q) == Finite(Interpolate(0.0, bs[0].le.x, rank, bs[0].count))
  {
    QuantileIs(bs, q, rank, 0);
  }

  /** In any other bucket they lie evenly between its bounds. */
  lemma QuantileInside(bs: seq<Bucket>, q: real, rank: real, b: nat)
    requires Proper(bs) && rank == Rank(q, bs[|bs| - 1].count) && 0 < b < |bs| - 1
    requires bs[b - 1].count < rank <= bs[b].count
    ensures bs[b - 1].le.Finite? && bs[b].le.Finite?
    ensures QuantileOf(bs, q) ==
            Finite(Interpolate(bs[b - 1].le.x, bs[b].le.x, rank - bs[b - 1].count, bs[b].count - bs[b - 1].count))
  {
    assert Reaches(bs, rank, b) by {
      forall i | 0 <= i < b ensures bs[i].count < rank {
        assert bs[i].count <= bs[b - 1].count;
      }
    }
    QuantileIs(bs, q, rank, b);
  }

  /** At q = 0 there is a number exactly unless the lowest bucket has a positive bound and no observations. */
  lemma QuantileAtZero(bs: seq<Bucket>)
    requires Proper(bs)
    ensures QuantileOf(bs, 0.0).Finite? <==> !(bs[0].le.Finite? && bs[0].le.x > 0.0 && bs[0].count == 0.0)
  {
    FiniteBounds(bs);
    RankRises(0.0, 0.0, bs[|bs| - 1].count);
    assert FirstReaching(bs, 0.0, 0) == 0;
  }

  /** One observation above an empty lowest bucket: there is no quantile at 0. */
  lemma NoQuantileAtZero()
    ensures var bs := [Bucket(Finite(1.0), 0.0), Bucket(PosInf, 1.0)];
            Proper(bs) && QuantileOf(bs, 0.0) == NaN(false)
  {
    var bs := [Bucket(Finite(1.0), 0.0), Bucket(PosInf, 1.0)];
    QuantileAtZero(bs);
    assert FirstReaching(bs, 0.0, 0) == 0;
  }

  // ---------------------------------------------------------------- BucketQuantile

  /** `w` has each bound of `s` once, in order, with the sum of its counts. */
  ghost predicate Prepared(w: seq<Bucket>, s: seq<Bucket>) {
    && w != [] && StrictBounds(w) && Bounded(w) && SameSums(w, s)
    && forall le :: HasBound(w, le) <==> HasBound(s, le)
  }

  lemma SameBounds(s: seq<Bucket>, t: seq<Bucket>, le: Float)
    requires multiset(s) == multiset(t)
    ensures HasBound(s, le) <==> HasBound(t, le)
  {
    if HasBound(s, le) {
      var i :| 0 <= i < |s| && s[i].le == le;
      assert s[i] in multiset(t);
    }
    if HasBound(t, le) {
      var i :| 0 <= i < |t| && t[i].le == le;
      assert t[i] in multiset(s);
    }
  }

  /** Sort and merge; None when the highest bucket is not +Inf. */
  method Prepare(a: array<Bucket>) returns (n: Option<nat>)
    requires a.Length > 0 && Bounded(a[..])
    modifies a
    ensures n.Some? <==> HasBound(old(a[..]), PosInf)
    ensures n.Some? ==> 0 < n.value <= a.Length && Prepared(a[..n.value], old(a[..])) && a[n.value - 1].le == PosInf
  {
    ghost var s := a[..];
    SortBuckets(a);
    ghost var t := a[..];
    forall le ensures HasBound(s, le) <==> HasBound(t, le) {
      SameBounds(s, t, le);
    }
    if a[a.Length - 1].le != PosInf {
      forall i | 0 <= i < |t| ensures t[i].le != PosInf {
        assert i < |t| - 1 ==> Le(t[i].le, t[|t| - 1].le);
      }
      return None;
    }
    assert t[|t| - 1].le == PosInf;
    var m := CoalesceBuckets(a);
    n := Some(m);
  }

  lemma {:induction false} SumNotNegative(s: seq<Bucket>, le: Float)
    requires forall i | 0 <= i < |s| :: 0.0 <= s[i].count
    ensures 0.0 <= SumAt(s, le)
  {
    if s != [] { SumNotNegative(s[..|s| - 1], le); }
  }

  lemma {:induction false} SumOfOne(w: seq<Bucket>, i: nat)
    requires StrictBounds(w) && Bounded(w) && i < |w|
    ensures SumAt(w, w[i].le) == w[i].count
  {
    var w' := w[..|w| - 1];
    if i < |w| - 1 {
      SumOfOne(w', i);
      assert Lt(w[i].le, w[|w| - 1].le);
    } else {
      NoSum(w', w[i].le);
    }
  }

  lemma {:induction false} NoSum(w: seq<Bucket>, le: Float)
    requires forall i | 0 <= i < |w| :: w[i].le != le
    ensures SumAt(w, le) == 0.0
  {
    if w != [] { NoSum(w[..|w| - 1], le); }
  }

  lemma RepairedIsProper(bs: seq<Bucket>, w: seq<Bucket>, s: seq<Bucket>, almost: AlmostEqual)
    requires Prepared(w, s) && w[|w| - 1].le == PosInf && Repaired(bs, w, |w|, almost)
    requires forall i | 0 <= i < |s| :: 0.0 <= s[i].count
    ensures Monotone(bs) && 0.0 <= bs[0].count
    ensures |bs| >= 2 && bs[|bs| - 1].count != 0.0 ==> Proper(bs)
  {
    forall i: nat, j: nat | i < j < |bs| ensures bs[i].count <= bs[j].count {
      LevelsRise(w, i, j, almost);
    }
    SumOfOne(w, 0);
    SumNotNegative(s, w[0].le);
    assert bs[0].count == Level(w, 0, almost) == w[0].count;
    assert |bs| > 1 ==> bs[0].count <= bs[|bs| - 1].count;
  }

  ghost predicate NotNegative(s: seq<Bucket>) {
    forall i | 0 <= i < |s| :: 0.0 <= s[i].count
  }

  /** `w` are the merged buckets of `s`, `bs` the repaired ones. */
  ghost predicate Stages(s: seq<Bucket>, w: seq<Bucket>, bs: seq<Bucket>, almost: AlmostEqual) {
    Prepared(w, s) && w[|w| - 1].le == PosInf && Repaired(bs, w, |w|, almost)
  }

  /** The result for q in [0, 1]. */
  ghost predicate IsQuantile(v: Float, q: real, s: seq<Bucket>, w: seq<Bucket>, bs: seq<Bucket>, almost: AlmostEqual) {
    if !HasBound(s, PosInf) then v == NaN(false)
    else
      && Stages(s, w, bs, almost)
      && if |bs| < 2 || bs[|bs| - 1].count == 0.0 then v == NaN(false) else Proper(bs) && v == QuantileOf(bs, q)
  }

  /** What is reported about the repair: nothing unless there is a quantile. */
  ghost predicate Reported(forced: bool, fixed: bool, s: seq<Bucket>, w: seq<Bucket>, bs: seq<Bucket>,
                           almost: AlmostEqual) {
    if !HasBound(s, PosInf) || |bs| < 2 || bs[|bs| - 1].count == 0.0 then !forced && !fixed
    else (forced <==> Forced(w, |w|, almost)) && (fixed <==> Ignored(w, |w|, almost))
  }

  /** Sort, merge and repair. */
  method Normalize(a: array<Bucket>, almost: AlmostEqual)
    returns (n: Option<nat>, forced: bool, fixed: bool, ghost w: seq<Bucket>)
    requires a.Length > 0 && Bounded(a[..])
    modifies a
    ensures n.Some? <==> HasBound(old(a[..]), PosInf)
    ensures n.Some? ==> 0 < n.value <= a.Length && Stages(old(a[..]), w, a[..n.value], almost)
    ensures n.Some? ==> (forced <==> Forced(w, |w|, almost)) && (fixed <==> Ignored(w, |w|, almost))
  {
    ghost var s := a[..];
    w, forced, fixed := [], false, false;
    n := Prepare(a);
    if n.None? {
      return;
    }
    var m := n.value;
    w := a[..m];
    assert Prepared(w, s) && w[m - 1].le == PosInf;
    forced, fixed := EnsureMonotonic(a, m, almost);
    assert Repaired(a[..m], w, m, almost);
  }

  method QuantileInRange(q: real, a: array<Bucket>, almost: AlmostEqual)
    returns (v: Float, forced: bool, fixed: bool, ghost w: seq<Bucket>, ghost bs: seq<Bucket>)
    requires a.Length > 0 && Bounded(a[..]) && NotNegative(a[..])
    modifies a
    ensures IsQuantile(v, q, old(a[..]), w, bs, almost) && Reported(forced, fixed, old(a[..]), w, bs, almost)
  {
    ghost var s := a[..];
    bs := [];
    var n;
    n, forced, fixed, w := Normalize(a, almost);
    if n.None? {
      return NaN(false), false, false, w, bs;
    }
    bs := a[..n.value];
    StagesProper(s, w, bs, almost);
    if n.value < 2 || a[n.value - 1].count == 0.0 {
      return NaN(false), false, false, w, bs;
    }
    v := Interpolated(q, a, n.value);
  }

  lemma StagesProper(s: seq<Bucket>, w: seq<Bucket>, bs: seq<Bucket>, almost: AlmostEqual)
    requires Stages(s, w, bs, almost) && NotNegative(s)
    ensures |bs| >= 2 && bs[|bs| - 1].count != 0.0 ==> Proper(bs)
  {
    RepairedIsProper(bs, w, s, almost);
  }

  /** BucketQuantile. The array is sorted, merged and repaired in place. */
  method BucketQuantile(q: Float, a: array<Bucket>, almost: AlmostEqual)
    returns (v: Float, forced: bool, fixed: bool, ghost w: seq<Bucket>, ghost bs: seq<Bucket>)
    requires a.Length > 0 && Bounded(a[..]) && NotNegative(a[..])
    modifies a
    ensures q.NaN? ==> v == NaN(false)
    ensures Lt(q, Finite(0.0)) ==> v == NegInf
    ensures Lt(Finite(1.0), q) ==> v == PosInf
    ensures Le(Finite(0.0), q) && Le(q, Finite(1.0)) ==> q.Finite? && IsQuantile(v, q.x, old(a[..]), w, bs, almost)
    ensures if Le(Finite(0.0), q) && Le(q, Finite(1.0)) then Reported(forced, fixed, old(a[..]), w, bs, almost)
            else !forced && !fixed
  {
    w, bs, forced, fixed := [], [], false, false;
    v := NaN(false);
    if q.NaN? {
      return;
    }
    if Lt(q, Finite(0.0)) {
      v := NegInf;
      return;
    }
    if Lt(Finite(1.0), q) {
      v := PosInf;
      return;
    }
    v, forced, fixed, w, bs := QuantileInRange(q.x, a, almost);
  }

  method Interpolated(q: real, a: array<Bucket>, n: nat) returns (v: Float)
    requires n <= a.Length && Proper(a[..n])
    ensures v == QuantileOf(a[..n], q)
  {
    ghost var bs := a[..n];
    FiniteBounds(bs);
    var rank := Rank(q, a[n - 1].count);
    var b := Search(a, n, rank);
    ReachesOnce(bs, rank, b, FirstReaching(bs, rank, 0));
    if b == n - 1 {
      return a[n - 2].le;
    }
    assert bs[b].le.Finite?;
    if b == 0 && a[0].le.x <= 0.0 {
      return a[0].le;
    }
    var bucketStart, bucketEnd, count := 0.0, a[b].le.x, a[b].count;
    if b > 0 {
      assert bs[b - 1].le.Finite?;
      bucketStart := a[b - 1].le.x;
      count := count - a[b - 1].count;
      rank := rank - a[b - 1].count;
    }
    if count == 0.0 {
      return NaN(false);
    }
    v := Finite(Interpolate(bucketStart, bucketEnd, rank, count));
  }

  // ---------------------------------------------------------------- BucketFraction

  /** A rank, or None for not a number. */
  type MaybeRank = Option<real>

  function LowerBound(bs: seq<Bucket>, i: nat): Float
    requires i < |bs|
  {
    if i > 0 then bs[i - 1].le else NegInf
  }

  function RankBefore(bs: seq<Bucket>, i: nat): real
    requires i <= |bs|
  {
    if i > 0 then bs[i - 1].count else 0.0
  }

  /** interpolateLinearly: not a number from -Inf, and the rank before when the bucket is open above. */
  function RankWithin(bs: seq<Bucket>, i: nat, v: real): MaybeRank
    requires i < |bs|
  {
    var lo, hi, rank := LowerBound(bs, i), bs[i].le, RankBefore(bs, i);
    if !lo.Finite? then None
    else if !hi.Finite? then Some(rank)
    else if hi.x == lo.x then None
    else Some(rank + Share(bs[i].count - rank, v, lo.x, hi.x))
  }

  /** The part of a bucket's count that lies below `v`. */
  function Share(c: real, v: real, lo: real, hi: real): real
    requires lo != hi
  {
    c * (v - lo) / (hi - lo)
  }

  /** The rank of a value, from bucket i on; the total when no bucket decides. */
  function RankFrom(bs: seq<Bucket>, i: nat, v: Float): MaybeRank
    requires i <= |bs| && bs != []
    decreases |bs| - i
  {
    if i == |bs| then Some(bs[|bs| - 1].count)
    else if Le(v, LowerBound(bs, i)) then Some(RankBefore(bs, i))
    else if Lt(LowerBound(bs, i), v) && Lt(v, bs[i].le) then if v.Finite? then RankWithin(bs, i, v.x) else None
    else RankFrom(bs, i + 1, v)
  }

  function Capped(r: MaybeRank, total: real): MaybeRank {
    if r.Some? && r.value > total then Some(total) else r
  }

  ghost function FractionOf(bs: seq<Bucket>, lower: Float, upper: Float): MaybeRank
    requires bs != [] && bs[|bs| - 1].count != 0.0
  {
    var total := bs[|bs| - 1].count;
    var lo, hi := Capped(RankFrom(bs, 0, lower), total), Capped(RankFrom(bs, 0, upper), total);
    if lo.None? || hi.None? then None else Some((hi.value - lo.value) / total)
  }

  /** One of the two ranks the loop looks for: None while it is not set. */
  method LookAt(a: array<Bucket>, n: nat, i: nat, rank: real, v: Float, found: Option<MaybeRank>)
    returns (found': Option<MaybeRank>)
    requires i < n <= a.Length && rank == RankBefore(a[..n], i)
    ensures found.Some? ==> found' == found
    ensures found.None? ==>
              found' == if Le(v, LowerBound(a[..n], i)) then Some(Some(RankBefore(a[..n], i)))
                        else if Lt(LowerBound(a[..n], i), v) && Lt(v, a[i].le)
                             then Some(if v.Finite? then RankWithin(a[..n], i, v.x) else None)
                        else None
  {
    found' := found;
    if found.Some? {
      return;
    }
    var lowerBound := if i > 0 then a[i - 1].le else NegInf;
    if Le(v, lowerBound) {
      found' := Some(Some(rank));
    } else if Lt(lowerBound, v) && Lt(v, a[i].le) {
      found' := Some(if v.Finite? then RankWithin(a[..n], i, v.x) else None);
    }
  }

  /** What is still to be found after the first `i` buckets. */
  ghost predicate Searching(bs: seq<Bucket>, i: nat, v: Float, found: Option<MaybeRank>)
    requires bs != [] && i <= |bs|
  {
    RankFrom(bs, 0, v) == if found.Some? then found.value else RankFrom(bs, i, v)
  }

  /** The loop of BucketFraction over the merged buckets. */
  method FindRanks(a: array<Bucket>, n: nat, lower: Float, upper: Float) returns (lo: MaybeRank, hi: MaybeRank)
    requires 0 < n <= a.Length
    ensures lo == RankFrom(a[..n], 0, lower) && hi == RankFrom(a[..n], 0, upper)
  {
    ghost var bs := a[..n];
    var foundLower: Option<MaybeRank>, foundUpper: Option<MaybeRank> := None, None;
    var rank := 0.0;
    var i: nat := 0;
    while i < n && !(foundLower.Some? && foundUpper.Some?)
      invariant i <= n && (i < n ==> rank == RankBefore(bs, i))
      invariant Searching(bs, i, lower, foundLower) && Searching(bs, i, upper, foundUpper)
    {
      foundLower := LookAt(a, n, i, rank, lower, foundLower);
      foundUpper := LookAt(a, n, i, rank, upper, foundUpper);
      rank := a[i].count;
      i := i + 1;
    }
    lo := if foundLower.Some? then foundLower.value else Some(a[n - 1].count);
    hi := if foundUpper.Some? then foundUpper.value else Some(a[n - 1].count);
  }

  /** The fraction between two values, of the merged buckets `w` of `s`. */
  ghost predicate IsFraction(v: MaybeRank, lower: Float, upper: Float, s: seq<Bucket>, w: seq<Bucket>) {
    if !HasBound(s, PosInf) then v == None
    else
      && Prepared(w, s)
      && if w[|w| - 1].count == 0.0 || lower.NaN? || upper.NaN? then v == None
         else if Le(upper, lower) then v == Some(0.0)
         else v == FractionOf(w, lower, upper)
  }

  /** BucketFraction. Here the counts are merged but not repaired. */
  method BucketFraction(lower: Float, upper: Float, a: array<Bucket>) returns (v: MaybeRank, ghost w: seq<Bucket>)
    requires a.Length > 0 && Bounded(a[..])
    modifies a
    ensures IsFraction(v, lower, upper, old(a[..]), w)
  {
    w := [];
    var prepared := Prepare(a);
    if prepared.None? {
      return None, w;
    }
    var n := prepared.value;
    w := a[..n];
    var count := a[n - 1].count;
    if count == 0.0 || lower.NaN? || upper.NaN? {
      return None, w;
    }
    if Le(upper, lower) {
      return Some(0.0), w;
    }
    var lo, hi := FindRanks(a, n, lower, upper);
    if lo.Some? && lo.value > count {
      lo := Some(count);
    }
    if hi.Some? && hi.value > count {
      hi := Some(count);
    }
    v := if lo.None? || hi.None? then None else Some((hi.value - lo.value) / count);
  }

  // ---------------------------------------------------------------- quantile and fraction are inverse

  lemma RankOfLowest(bs: seq<Bucket>)
    requires bs != []
    ensures RankFrom(bs, 0, NegInf) == Some(0.0)
  {
  }

  /** Buckets whose upper bound is not above the value decide nothing. */
  lemma {:induction false} RankSkips(bs: seq<Bucket>, i: nat, b: nat, v: real)
    requires i <= b < |bs| && bs != [] && Bounded(bs) && StrictBounds(bs)
    requires forall k | 0 <= k < b :: bs[k].le.Finite? && bs[k].le.x < v
    ensures RankFrom(bs, i, Finite(v)) == RankFrom(bs, b, Finite(v))
    decreases b - i
  {
    if i < b {
      assert i > 0 ==> bs[i - 1].le.x < v;
      assert bs[i].le.x < v;
      RankSkips(bs, i + 1, b, v);
    }
  }

  /** No rank is above that of the last bucket. */
  function AtMost(x: real, total: real): real {
    if x > total then total else x
  }

  lemma {:induction false} RankOfHighest(bs: seq<Bucket>, i: nat)
    requires i <= |bs| && bs != [] && forall k | 0 <= k < |bs| - 1 :: bs[k].le.Finite?
    ensures RankFrom(bs, i, PosInf) == Some(bs[|bs| - 1].count)
    decreases |bs| - i
  {
    if i < |bs| { RankOfHighest(bs, i + 1); }
  }

  /** Below everything lies nothing, below +Inf all. */
  lemma WholeFraction(bs: seq<Bucket>)
    requires bs != [] && Bounded(bs) && StrictBounds(bs) && bs[|bs| - 1].count != 0.0
    ensures 0.0 <= bs[|bs| - 1].count ==> FractionOf(bs, NegInf, PosInf) == Some(1.0)
  {
    FiniteBounds(bs);
    RankOfLowest(bs);
    RankOfHighest(bs, 0);
    WholeRatio(bs[|bs| - 1].count);
  }

  lemma RatioSum(x: real, y: real, total: real)
    requires total != 0.0
    ensures x / total + y / total == (x + y) / total
  {
    Ratio(x, total);
    Ratio(y, total);
    var sum := x / total + y / total;
    assert total * sum == total * (x / total) + total * (y / total);
    ProductOver(sum, total);
  }

  /** Fractions of adjacent ranges add up. */
  lemma FractionsAdd(bs: seq<Bucket>, lower: Float, middle: Float, upper: Float)
    requires bs != [] && bs[|bs| - 1].count != 0.0
    requires FractionOf(bs, lower, middle).Some? && FractionOf(bs, middle, upper).Some?
    ensures FractionOf(bs, lower, upper) ==
            Some(FractionOf(bs, lower, middle).value + FractionOf(bs, middle, upper).value)
  {
    var total := bs[|bs| - 1].count;
    var l, m, u := Capped(RankFrom(bs, 0, lower), total).value, Capped(RankFrom(bs, 0, middle), total).value,
      Capped(RankFrom(bs, 0, upper), total).value;
    RatioSum(m - l, u - m, total);
  }

  /** Between two bounds lie the observations of the buckets between them. */
  lemma FractionAtBounds(bs: seq<Bucket>, i: nat, j: nat)
    requires Bounded(bs) && StrictBounds(bs) && i < |bs| - 1 && j < |bs| - 1 && bs[|bs| - 1].count != 0.0
    ensures var total := bs[|bs| - 1].count;
            FractionOf(bs, bs[i].le, bs[j].le) ==
            Some((AtMost(bs[j].count, total) - AtMost(bs[i].count, total)) / total)
  {
    RankAtBound(bs, i);
    RankAtBound(bs, j);
  }

  /** Between the lower bound of a bucket and a value in it lies the part of its observations that the value is of
      the way. */
  lemma FractionInBucket(bs: seq<Bucket>, b: nat, v: real)
    requires Bounded(bs) && StrictBounds(bs) && 0 < b < |bs| - 1 && bs[b - 1].le.Finite? && bs[b].le.Finite?
    requires bs[b - 1].le.x < v < bs[b].le.x && 0.0 < bs[|bs| - 1].count
    requires bs[b - 1].count <= bs[b].count <= bs[|bs| - 1].count
    ensures var lo, hi, c := bs[b - 1].le.x, bs[b].le.x, bs[b].count - bs[b - 1].count;
            FractionOf(bs, bs[b - 1].le, Finite(v)) == Some(Share(c, v, lo, hi) / bs[|bs| - 1].count)
  {
    FiniteBounds(bs);
    var lo, hi, c := bs[b - 1].le.x, bs[b].le.x, bs[b].count - bs[b - 1].count;
    forall k | 0 <= k < b ensures bs[k].le.x < v {
      assert k < b - 1 ==> Lt(bs[k].le, bs[b - 1].le);
    }
    RankSkips(bs, 0, b, v);
    assert RankFrom(bs, b, Finite(v)) == Some(bs[b - 1].count + Share(c, v, lo, hi));
    RankAtBound(bs, b - 1);
    ShareAtMost(c, v, lo, hi);
  }

  lemma ShareAtMost(c: real, v: real, lo: real, hi: real)
    requires 0.0 <= c && lo < v < hi
    ensures 0.0 <= Share(c, v, lo, hi) <= c
  {
    var d := hi - lo;
    ProductRises(c, 0.0, v - lo);
    ProductRises(c, v - lo, d);
    RatioOrder(0.0, c * (v - lo), d);
    RatioOrder(c * (v - lo), c * d, d);
    ProductOver(c, d);
    WholeRatio(d);
  }

  /** Below the lowest bound, of which no observation is known to lie below, and above the highest. */
  lemma FractionOutside(bs: seq<Bucket>, v: real)
    requires Bounded(bs) && StrictBounds(bs) && |bs| >= 2 && bs[0].le.Finite? && bs[|bs| - 2].le.Finite?
    requires bs[|bs| - 1].le == PosInf && bs[|bs| - 1].count != 0.0
    ensures v < bs[0].le.x ==> FractionOf(bs, NegInf, Finite(v)).None?
    ensures v > bs[|bs| - 2].le.x ==>
              FractionOf(bs, bs[|bs| - 2].le, Finite(v)) == Some(0.0 / bs[|bs| - 1].count)
  {
    FiniteBounds(bs);
    var n := |bs| - 1;
    if v > bs[n - 1].le.x {
      forall k | 0 <= k < n ensures bs[k].le.x < v {
        assert k < n - 1 ==> Lt(bs[k].le, bs[n - 1].le);
      }
      RankSkips(bs, 0, n, v);
      RankAtBound(bs, n - 1);
      assert RankFrom(bs, n, Finite(v)) == Some(bs[n - 1].count);
    }
  }

  /** The part r / c of a count. */
  function Portion(k: real, r: real, c: real): real
    requires c != 0.0
  {
    k * (r / c)
  }

  /** Interpolating in a bucket of count `c` and reading back in one of count `k`. */
  lemma ReadBack(lo: real, hi: real, r: real, c: real, k: real)
    requires lo < hi && c != 0.0
    ensures Share(k, Interpolate(lo, hi, r, c), lo, hi) == Portion(k, r, c)
  {
    var d, x := hi - lo, r / c;
    Swapped(k, d, x);
    ProductOver(k * x, d);
  }

  lemma Swapped(c: real, d: real, x: real)
    ensures c * (d * x) == (c * x) * d
  {
  }

  lemma ProductOver(r: real, d: real)
    requires d != 0.0
    ensures r * d / d == r
  {
  }

  /** A value equal to the bound of a bucket has the rank of that bucket. */
  lemma RankAtBound(bs: seq<Bucket>, b: nat)
    requires Bounded(bs) && StrictBounds(bs) && b < |bs| - 1
    ensures bs[b].le.Finite? && RankFrom(bs, 0, bs[b].le) == Some(bs[b].count)
  {
    FiniteBounds(bs);
    forall k | 0 <= k < b ensures bs[k].le.x < bs[b].le.x {
      assert Lt(bs[k].le, bs[b].le);
    }
    RankSkips(bs, 0, b, bs[b].le.x);
    assert RankFrom(bs, b, bs[b].le) == RankFrom(bs, b + 1, bs[b].le);
  }

  /** The same bounds in order, whatever the counts. */
  ghost predicate SameBoundsAs(w: seq<Bucket>, bs: seq<Bucket>) {
    |w| == |bs| && Bounded(w) && StrictBounds(w) && forall i | 0 <= i < |w| :: w[i].le == bs[i].le
  }

  /** A value strictly inside a bucket that is neither the lowest nor the highest. */
  lemma RankInside(w: seq<Bucket>, b: nat, r: real, c: real)
    requires Bounded(w) && StrictBounds(w) && 0 < b < |w| - 1 && 0.0 < r < c
    ensures w[b - 1].le.Finite? && w[b].le.Finite?
    ensures RankFrom(w, 0, Finite(Interpolate(w[b - 1].le.x, w[b].le.x, r, c))) ==
            Some(w[b - 1].count + Portion(w[b].count - w[b - 1].count, r, c))
  {
    FiniteBounds(w);
    var lo, hi := w[b - 1].le.x, w[b].le.x;
    assert Lt(w[b - 1].le, w[b].le);
    var v := Interpolate(lo, hi, r, c);
    StrictlyBetween(lo, hi, r, c);
    forall k | 0 <= k < b ensures w[k].le.x < v {
      assert k < b - 1 ==> Lt(w[k].le, w[b - 1].le);
    }
    RankSkips(w, 0, b, v);
    ReadBack(lo, hi, r, c, w[b].count - w[b - 1].count);
    assert RankFrom(w, b, Finite(v)) == RankWithin(w, b, v);
  }

  lemma StrictlyBetween(lo: real, hi: real, r: real, c: real)
    requires lo < hi && 0.0 < r < c
    ensures lo < Interpolate(lo, hi, r, c) < hi
  {
    PartOfWhole(r, c);
    PartOfWay(hi - lo, r / c);
  }

  /** At the end of its bucket a rank is interpolated to the bound. */
  lemma AtTheEnd(lo: real, hi: real, c: real)
    requires c != 0.0
    ensures Interpolate(lo, hi, c, c) == hi
  {
    WholeRatio(c);
  }

  lemma RankBack(q: real, n: real)
    requires 0.0 < n
    ensures Rank(q, n) / n == q
    ensures q <= 1.0 ==> Rank(q, n) <= n
  {
    ProductOver(q, n);
    if q <= 1.0 { ProductRises(n, q, 1.0); }
  }

  /** What is read back from the counts of `w` for a rank that bucket `b` of `bs` is the first to reach. */
  function ReadRank(w: seq<Bucket>, bs: seq<Bucket>, b: nat, rank: real): MaybeRank
    requires |w| == |bs| >= 2 && b < |bs| && (b == 0 ==> bs[0].le.Finite?)
    requires 0 < b < |bs| - 1 ==> bs[b - 1].count != bs[b].count
  {
    if b == |bs| - 1 then Some(w[b - 1].count)
    else if b > 0 then
      Some(w[b - 1].count +
           Portion(w[b].count - w[b - 1].count, rank - bs[b - 1].count, bs[b].count - bs[b - 1].count))
    else if bs[0].le.x <= 0.0 || rank == bs[0].count then Some(w[0].count)
    else None
  }

  lemma RankInMiddle(w: seq<Bucket>, bs: seq<Bucket>, b: nat, rank: real)
    requires Proper(bs) && SameBoundsAs(w, bs) && Reaches(bs, rank, b) && 0 < b < |bs| - 1
    ensures forall i | 0 <= i < |bs| - 1 :: bs[i].le.Finite?
    ensures RankFrom(w, 0, ValueIn(bs, b, rank)) == ReadRank(w, bs, b, rank)
  {
    FiniteBounds(bs);
    var r, c := rank - bs[b - 1].count, bs[b].count - bs[b - 1].count;
    if r == c {
      AtTheEnd(bs[b - 1].le.x, bs[b].le.x, c);
      WholeRatio(c);
      RankAtBound(w, b);
    } else {
      RankInside(w, b, r, c);
    }
  }

  lemma RankInLowest(w: seq<Bucket>, bs: seq<Bucket>, rank: real)
    requires Proper(bs) && SameBoundsAs(w, bs) && Reaches(bs, rank, 0) && 0.0 < rank
    ensures forall i | 0 <= i < |bs| - 1 :: bs[i].le.Finite?
    ensures RankFrom(w, 0, ValueIn(bs, 0, rank)) == ReadRank(w, bs, 0, rank)
  {
    FiniteBounds(bs);
    RankAtBound(w, 0);
    if bs[0].le.x > 0.0 {
      if rank == bs[0].count {
        AtTheEnd(0.0, bs[0].le.x, rank);
      } else {
        StrictlyBetween(0.0, bs[0].le.x, rank, bs[0].count);
      }
    }
  }

  /** The rank of a quantile of `bs` among buckets with the same bounds and counts of their own. */
  lemma RankAmong(w: seq<Bucket>, bs: seq<Bucket>, b: nat, rank: real)
    requires Proper(bs) && SameBoundsAs(w, bs) && Reaches(bs, rank, b) && 0.0 < rank
    ensures forall i | 0 <= i < |bs| - 1 :: bs[i].le.Finite?
    ensures RankFrom(w, 0, ValueIn(bs, b, rank)) == ReadRank(w, bs, b, rank)
  {
    FiniteBounds(bs);
    if b == |bs| - 1 {
      RankAtBound(w, b - 1);
    } else if b > 0 {
      RankInMiddle(w, bs, b, rank);
    } else {
      RankInLowest(w, bs, rank);
    }
  }

  /** The rank of the quantile is the quantile's rank, unless that falls into the lowest bucket, before its end, or into
      the highest. */
  lemma RankOfQuantile(bs: seq<Bucket>, b: nat, rank: real)
    requires Proper(bs) && Reaches(bs, rank, b) && 0.0 < rank
    ensures forall i | 0 <= i < |bs| - 1 :: bs[i].le.Finite?
    ensures RankFrom(bs, 0, ValueIn(bs, b, rank)) == Some(rank) <==> 0 < b < |bs| - 1 || (b == 0 && rank == bs[0].count)
    ensures b == |bs| - 1 ==> RankFrom(bs, 0, ValueIn(bs, b, rank)) == Some(bs[|bs| - 2].count)
  {
    RankAmong(bs, bs, b, rank);
    if 0 < b < |bs| - 1 { Ratio(rank - bs[b - 1].count, bs[b].count - bs[b - 1].count); }
  }

  /** The quantile falls neither into the highest bucket nor into the lowest before its end. */
  ghost predicate FallsInside(bs: seq<Bucket>, q: real)
    requires bs != []
  {
    var rank := Rank(q, bs[|bs| - 1].count);
    var b := FirstReaching(bs, rank, 0);
    0 < b < |bs| - 1 || (b == 0 && rank == bs[0].count)
  }

  /** The rank read back from the counts of `w` is the part q of their total. */
  ghost predicate Recovers(w: seq<Bucket>, bs: seq<Bucket>, q: real)
    requires |w| == |bs| && Proper(bs) && 0.0 < q
  {
    var total := w[|w| - 1].count;
    var rank := Rank(q, bs[|bs| - 1].count);
    RankRises(q, q, bs[|bs| - 1].count);
    FiniteBounds(bs);
    var r := Capped(ReadRank(w, bs, FirstReaching(bs, rank, 0), rank), total);
    0.0 < total && r == Some(Rank(q, total))
  }

  /** The fraction of `w` below the quantile of `bs` is q exactly when the rank read back is that part of the total. */
  lemma FractionAmong(w: seq<Bucket>, bs: seq<Bucket>, q: real)
    requires Proper(bs) && SameBoundsAs(w, bs) && 0.0 < q <= 1.0 && 0.0 < w[|w| - 1].count
    ensures FractionOf(w, NegInf, QuantileOf(bs, q)) == Some(q) <==> Recovers(w, bs, q)
  {
    var n, total := bs[|bs| - 1].count, w[|w| - 1].count;
    var rank := Rank(q, n);
    RankRises(q, q, n);
    RankOfLowest(w);
    RankAmong(w, bs, FirstReaching(bs, rank, 0), rank);
    var r := Capped(RankFrom(w, 0, QuantileOf(bs, q)), total);
    RankBack(q, total);
    if r.Some? { SameShare(r.value, Rank(q, total), total); }
  }

  /** Counts that are the same at the bucket and at the one below give the rank back, but for the lowest and the highest
      bucket. */
  lemma SameReadRank(w: seq<Bucket>, bs: seq<Bucket>, b: nat, rank: real)
    requires Proper(bs) && |w| == |bs| && Reaches(bs, rank, b)
    requires w[b].count == bs[b].count && (b > 0 ==> w[b - 1].count == bs[b - 1].count)
    ensures b == 0 ==> bs[0].le.Finite?
    ensures var r := ReadRank(w, bs, b, rank);
            if b == |bs| - 1 then r == Some(bs[b - 1].count)
            else if b > 0 then r == Some(rank)
            else r == Some(bs[0].count) || (r == None && rank != bs[0].count)
  {
    FiniteBounds(bs);
    if 0 < b < |bs| - 1 {
      var r, c := rank - bs[b - 1].count, bs[b].count - bs[b - 1].count;
      Ratio(r, c);
      assert Portion(w[b].count - w[b - 1].count, r, c) == r;
    }
  }

  /** Where the counts of the bucket it falls in, of the one below and of the last are the same, the quantile is
      recovered exactly when it falls inside. */
  lemma RecoversInside(w: seq<Bucket>, bs: seq<Bucket>, q: real)
    requires Proper(bs) && |w| == |bs| && 0.0 < q <= 1.0
    requires var b := FirstReaching(bs, Rank(q, bs[|bs| - 1].count), 0);
             w[b].count == bs[b].count && (b > 0 ==> w[b - 1].count == bs[b - 1].count)
    requires w[|w| - 1].count == bs[|bs| - 1].count
    ensures Recovers(w, bs, q) <==> FallsInside(bs, q)
  {
    var n := bs[|bs| - 1].count;
    var rank := Rank(q, n);
    RankRises(q, q, n);
    RankBack(q, n);
    SameReadRank(w, bs, FirstReaching(bs, rank, 0), rank);
  }

  /** On one list of buckets, the fraction below the quantile is q exactly when the quantile falls inside. */
  lemma FractionOfQuantile(bs: seq<Bucket>, q: real)
    requires Proper(bs) && 0.0 < q <= 1.0
    ensures FractionOf(bs, NegInf, QuantileOf(bs, q)) == Some(q) <==> FallsInside(bs, q)
  {
    FractionAmong(bs, bs, q);
    RecoversInside(bs, bs, q);
  }

  lemma SameShare(x: real, y: real, n: real)
    requires 0.0 < n
    ensures (x - 0.0) / n == y / n <==> x == y
  {
    RatioOrder(x, y, n);
    RatioOrder(y, x, n);
  }

  lemma HasBoundButLast(w: seq<Bucket>, le: Float)
    requires StrictBounds(w) && w != []
    ensures HasBound(w[..|w| - 1], le) <==> HasBound(w, le) && le != w[|w| - 1].le
  {
    if HasBound(w[..|w| - 1], le) {
      var i :| 0 <= i < |w| - 1 && w[..|w| - 1][i].le == le;
      assert w[i].le == le && Lt(w[i].le, w[|w| - 1].le);
    }
    if HasBound(w, le) && le != w[|w| - 1].le {
      var i :| 0 <= i < |w| && w[i].le == le;
      assert w[..|w| - 1][i].le == le;
    }
  }

  /** The highest bound is not below any other. */
  lemma HighestBound(w: seq<Bucket>, le: Float)
    requires StrictBounds(w) && HasBound(w, le)
    ensures w != [] && Le(le, w[|w| - 1].le)
  {
    var i :| 0 <= i < |w| && w[i].le == le;
    assert i < |w| - 1 ==> Lt(w[i].le, w[|w| - 1].le);
  }

  lemma {:induction false} SameBoundList(w: seq<Bucket>, w': seq<Bucket>)
    requires StrictBounds(w) && StrictBounds(w') && forall le :: HasBound(w, le) <==> HasBound(w', le)
    ensures |w| == |w'| && forall i | 0 <= i < |w| :: w[i].le == w'[i].le
  {
    if w == [] {
      assert w' != [] ==> HasBound(w', w'[0].le);
    } else {
      assert HasBound(w, w[|w| - 1].le);
      HighestBound(w', w[|w| - 1].le);
      assert HasBound(w', w'[|w'| - 1].le);
      HighestBound(w, w'[|w'| - 1].le);
      var u, u' := w[..|w| - 1], w'[..|w'| - 1];
      forall le ensures HasBound(u, le) <==> HasBound(u', le) {
        HasBoundButLast(w, le);
        HasBoundButLast(w', le);
      }
      SameBoundList(u, u');
    }
  }

  /** The merged buckets are determined by the given ones. */
  lemma PreparedOnce(w: seq<Bucket>, w': seq<Bucket>, s: seq<Bucket>)
    requires Prepared(w, s) && Prepared(w', s)
    ensures w == w'
  {
    SameBoundList(w, w');
    forall i: nat | i < |w| ensures w[i] == w'[i] {
      SumOfOne(w, i);
      SumOfOne(w', i);
    }
  }

  /** The merged counts already rise and are nowhere almost equal: there is nothing to repair. */
  ghost predicate Settled(w: seq<Bucket>, almost: AlmostEqual) {
    Monotone(w) && forall x, y | 0 <= x < y < |w| && w[x].count != w[y].count :: !almost(w[x].count, w[y].count)
  }

  lemma NothingToRepair(bs: seq<Bucket>, w: seq<Bucket>, almost: AlmostEqual)
    requires Repaired(bs, w, |w|, almost) && Settled(w, almost)
    ensures bs == w
  {
    forall i: nat | i < |w| ensures bs[i] == w[i] {
      LevelsOfMonotone(w, i, almost);
    }
  }

  /** For the same buckets, BucketFraction gives for the part below the quantile q, and nothing else, exactly when
      there is a quantile and the merged counts give back the rank of the repaired ones. */
  lemma FractionBelowQuantile(s: seq<Bucket>, q: real, v: Float, w: seq<Bucket>, bs: seq<Bucket>, almost: AlmostEqual,
                              f: MaybeRank, w': seq<Bucket>)
    requires 0.0 < q <= 1.0 && NotNegative(s) && IsQuantile(v, q, s, w, bs, almost) && IsFraction(f, NegInf, v, s, w')
    ensures f == Some(q) <==>
            && HasBound(s, PosInf) && |bs| >= 2 && bs[|bs| - 1].count != 0.0
            && |w| == |bs| && Proper(bs) && Recovers(w, bs, q)
  {
    if HasBound(s, PosInf) {
      PreparedOnce(w, w', s);
      if |bs| >= 2 && bs[|bs| - 1].count != 0.0 {
        var total := w[|w| - 1].count;
        SumOfOne(w, |w| - 1);
        SumNotNegative(s, w[|w| - 1].le);
        QuantileRises(bs, q, q);
        if total != 0.0 { FractionAmong(w, bs, q); }
      }
    }
  }

  /** When there is nothing to repair, exactly the quantiles that fall inside are recovered. */
  lemma SettledRecovers(w: seq<Bucket>, bs: seq<Bucket>, q: real, almost: AlmostEqual)
    requires Repaired(bs, w, |w|, almost) && Settled(w, almost) && Proper(bs) && 0.0 < q <= 1.0
    ensures Recovers(w, bs, q) <==> FallsInside(w, q)
  {
    NothingToRepair(bs, w, almost);
    RecoversInside(w, bs, q);
  }

  /** Cumulative counts of which the third falls, and what the repair makes of them. */
  const FALLING: seq<Bucket> :=
      [Bucket(Finite(1.0), 1.0), Bucket(Finite(2.0), 5.0), Bucket(Finite(3.0), 3.0), Bucket(Finite(4.0), 7.0),
                                 Bucket(PosInf, 8.0)]
  const RAISED: seq<Bucket> := FALLING[2 := Bucket(Finite(3.0), 5.0)]

  lemma RaisedQuantile()
    ensures Proper(RAISED) && FallsInside(RAISED, 0.75) && QuantileOf(RAISED, 0.75) == Finite(3.5)
  {
    ReachesOnce(RAISED, 6.0, 3, FirstReaching(RAISED, 6.0, 0));
    FiniteBounds(RAISED);
    assert ValueIn(RAISED, 3, 6.0) == Finite(3.5);
  }

  /** Counts that fall break it: the quantile is that of the repaired counts, the fraction that of the given ones. */
  lemma RepairedIsNotInverse(almost: AlmostEqual)
    requires !almost(1.0, 5.0) && !almost(5.0, 3.0) && !almost(5.0, 7.0) && !almost(7.0, 8.0)
    ensures Repaired(RAISED, FALLING, |FALLING|, almost) && Proper(RAISED) && FallsInside(RAISED, 0.75)
    ensures FractionOf(FALLING, NegInf, QuantileOf(RAISED, 0.75)) == Some(0.625)
  {
    assert Level(FALLING, 1, almost) == 5.0 && Level(FALLING, 2, almost) == 5.0;
    assert Level(FALLING, 3, almost) == 7.0 && Level(FALLING, 4, almost) == 8.0;
    RaisedQuantile();
    RankOfLowest(FALLING);
    RankSkips(FALLING, 0, 3, 3.5);
    assert RankWithin(FALLING, 3, 3.5) == Some(5.0);
  }

  /** Of the same counts a lower quantile is recovered: its bucket, the one below and the last need no repair. */
  lemma LowerIsRecovered()
    ensures Proper(RAISED) && Recovers(FALLING, RAISED, 0.375)
  {
    RaisedQuantile();
    ReachesOnce(RAISED, 3.0, 1, FirstReaching(RAISED, 3.0, 0));
    RecoversInside(FALLING, RAISED, 0.375);
  }
}
