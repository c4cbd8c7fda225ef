/**
 A query that shows a wrong histogram, because inner points of a subquery share
 their objects (promql/engine.go, matrixIterSlice).

 A gauge histogram is scraped at 0, 120 and 240 s, and queried by
 sum_over_time(h[2m:15s]) at 180, 225, 270 and 315 s. Times are in units of 15 s:
 the inner steps are 5, 6, ..., 21, the outer ones 12, 15, 18 and 21, and the range
 is 8. An inner step at a scrape reads that sample; the steps after it get the
 object that is kept for the sample before them.
 */
module SharedScrapes {
  import opened Prelude
  import opened SampleBuffer
  import opened Windows
  import opened Slots
  import opened SharedSlots

  /** The inner points of the query, and the numbers of their objects. */
  ghost predicate Queried(series: seq<Sample>, inner: seq<nat>, x: Histogram, y: Histogram, z: Histogram) {
    && |series| == |inner| == 17 && !IsStaleNaN(x.sum) && !IsStaleNaN(y.sum) && !IsStaleNaN(z.sum)
    && (forall k | 0 <= k < 17 :: series[k] == HistogramSample(5 + k, if k < 3 then x else if k < 11 then y else z))
    && (forall k | 0 <= k < 17 ::
          inner[k] == if k < 3 then 0 else if k == 3 then 1 else if k < 11 then 2 else if k == 11 then 3 else 4)
  }

  lemma {:induction false} CopiedSkips(m: Mem, run: seq<Sample>, n: nat, mint: int)
    requires WellFormed(m) && n <= |run| && forall i | 0 <= i < n :: run[i].t <= mint
    ensures Copied(m, run, n, mint) == m
  {
    if n > 0 { CopiedSkips(m, run, n - 1, mint); }
  }

  /** Without spare slots every copy gets a new object. */
  lemma {:induction false} CopiedAnew(heap: seq<Histogram>, run: seq<Sample>, n: nat, mint: int)
    requires n <= |run| && NoneStale(run) && forall i | 0 <= i < n :: run[i].HistogramSample? && mint < run[i].t
    ensures Copied(Mem([], 0, heap), run, n, mint) ==
            Mem(seq(n, i requires 0 <= i < n => Slot(run[i].t, |heap| + i)), n,
                heap + seq(n, i requires 0 <= i < n => run[i].h))
  {
    if n > 0 {
      CopiedAnew(heap, run, n - 1, mint);
      assert !Stale(run[n - 1]);
    }
  }

  /** The slots of eight points up to `t`. */
  ghost predicate EightUpTo(r: Run, t: int) {
    && |r.m.slots| == r.m.len == 8 && (forall i | 0 <= i < 8 :: r.m.slots[i].t == t - 7 + i)
    && 0 <= t - 5 == |r.seen| && (forall i | 0 <= i < |r.seen| :: r.seen[i].t == 5 + i)
  }

  lemma {:induction false} ThreeMakeRoom(m: Mem, t: int)
    requires WellFormed(m) && |m.slots| == m.len == 8 && forall i | 0 <= i < 8 :: m.slots[i].t == t - 7 + i
    ensures Kept(m, t - 5) == Mem(m.slots[3..] + m.slots[..3], 5, m.heap)
  {
    var d := Older(m, t - 5, 0);
    OlderIs(m, t - 5, 0);
    assert d < 8 by { assert m.slots[7].t > t - 5; }
    assert d == 3 by { assert m.slots[2].t <= t - 5 < m.slots[3].t; }
    assert Rotated(m, 3).slots == m.slots[3..] + m.slots[..3];
  }

  lemma {:induction false} ThreeSeen(series: seq<Sample>, inner: seq<nat>, r: Run)
    requires Sorted(series) && InRun(r, series, inner) && |r.seen| + 3 < |series|
    ensures var n, heap := |r.seen|, r.m.heap;
            SeenBefore(series, inner, r, series[n + 3].t) ==
            r.seen + [Shown(series, inner, heap, n), Shown(series, inner, heap, n + 1),
                      Shown(series, inner, heap, n + 2)]
  {
    SeekFinds(series, |r.seen|, |r.seen| + 3);
    assert ReadOn(series, inner, r.m.heap, r.seen, |r.seen| + 1) == r.seen + [Shown(series, inner, r.m.heap, |r.seen|)];
    assert ReadOn(series, inner, r.m.heap, r.seen, |r.seen| + 2) ==
           r.seen + [Shown(series, inner, r.m.heap, |r.seen|), Shown(series, inner, r.m.heap, |r.seen| + 1)];
  }

  /** Two histograms go into the first two of the spare slots. */
  lemma {:induction false} TwoCopied(m: Mem, run: seq<Sample>, n: nat, t: int)
    requires WellFormed(m) && m.len + 2 <= |m.slots| && |run| == n + 2 && NoneStale(run)
    requires (forall i | 0 <= i < n :: run[i].t <= t)
    requires (forall i | n <= i < n + 2 :: run[i].HistogramSample? && t < run[i].t)
    ensures var a, b := m.slots[m.len].ref, m.slots[m.len + 1].ref;
            Copied(m, run, n + 2, t) ==
            Mem(m.slots[m.len := Slot(run[n].t, a)][m.len + 1 := Slot(run[n + 1].t, b)], m.len + 2,
                m.heap[a := run[n].h][b := run[n + 1].h])
  {
    CopiedSkips(m, run, n, t);
    assert !Stale(run[n]) && !Stale(run[n + 1]);
    assert Copied(m, run, n + 1, t) == PushCopy(m, run[n].t, run[n].h);
  }

  ghost predicate EachUnit(series: seq<Sample>) {
    forall k | 0 <= k < |series| :: series[k].HistogramSample? && series[k].t == 5 + k
  }

  /** The slots three inner steps later: the objects of the two oldest points are overwritten with the two histograms
      read. */
  ghost predicate Overwritten(inner: seq<nat>, m: Mem, t: int, m': Mem)
    requires WellFormed(m) && |m.slots| == 8 && 4 <= t && t - 2 < |inner|
  {
    var a, b := m.slots[0].ref, m.slots[1].ref;
    && m'.slots == m.slots[3..] + [Slot(t + 1, a), Slot(t + 2, b), Slot(t + 3, inner[t - 2])] && m'.len == 8
    && inner[t - 4] < |m.heap| && inner[t - 3] < |m.heap|
    && m'.heap == m.heap[a := m.heap[inner[t - 4]]][b := m.heap[inner[t - 3]]]
  }

  lemma {:induction false} CopiedThree(series: seq<Sample>, inner: seq<nat>, r: Run, t: int)
    requires EachUnit(series) && Clean(series, inner, r) && EightUpTo(r, t) && t - 2 < |series|
    ensures var kept := Kept(r.m, t - 5);
            var seen := SeenBefore(series, inner, r.(m := kept), t + 3);
            var a, b := r.m.slots[0].ref, r.m.slots[1].ref;
            && |seen| == t - 2 && (forall i | 0 <= i < |seen| :: seen[i].t == 5 + i) && NoneStale(seen) &&
               Given(kept, series, inner)
            && Copied(kept, seen, t - 2, t) ==
               Mem(r.m.slots[3..] + [Slot(t + 1, a), Slot(t + 2, b), r.m.slots[2]], 7,
                   r.m.heap[a := r.m.heap[inner[t - 4]]][b := r.m.heap[inner[t - 3]]])
  {
    var kept := Kept(r.m, t - 5);
    ThreeMakeRoom(r.m, t);
    ThreeSeen(series, inner, r.(m := kept));
    var seen := SeenBefore(series, inner, r.(m := kept), t + 3);
    KeptIsClean(series, inner, r, t - 5);
    SeenNotStale(series, inner, r.(m := kept), t + 3);
    TwoCopied(kept, seen, t - 4, t);
  }

  lemma {:induction false} LoadedThree(series: seq<Sample>, inner: seq<nat>, r: Run, t: int)
    requires EachUnit(series) && Clean(series, inner, r) && EightUpTo(r, t) && t - 2 < |series|
    ensures var kept := Kept(r.m, t - 5);
            var seen := SeenBefore(series, inner, r.(m := kept), t + 3);
            && |seen| == t - 2 && (forall i | 0 <= i < |seen| :: seen[i].t == 5 + i)
            && Overwritten(inner, r.m, t, Loaded(series, inner, kept, seen, t, t + 3))
  {
    var kept := Kept(r.m, t - 5);
    var seen := SeenBefore(series, inner, r.(m := kept), t + 3);
    CopiedThree(series, inner, r, t);
    KeptIsClean(series, inner, r, t - 5);
    CopiedNotStale(series, inner, kept, seen, t - 2, t);
    assert !Stale(Shown(series, inner, Copied(kept, seen, t - 2, t).heap, t - 2));
  }

  lemma {:induction false} ThreeLater(series: seq<Sample>, inner: seq<nat>, r: Run, t: int)
    requires EachUnit(series) && Clean(series, inner, r) && EightUpTo(r, t) && t - 2 < |series|
    ensures var r' := Moved(series, inner, r, 8, t + 3);
            EightUpTo(r', t + 3) && Clean(series, inner, r') && Overwritten(inner, r.m, t, r'.m)
  {
    MovedEnds(series, inner, r, 8, t - 2, t + 3);
    LoadedThree(series, inner, r, t);
    ThreeMakeRoom(r.m, t);
  }

  lemma {:induction false} QueryBegins(series: seq<Sample>, inner: seq<nat>, x: Histogram, y: Histogram, z: Histogram)
    requires Queried(series, inner, x, y, z)
    ensures Sorted(series) && NoneStale(series) && EachUnit(series)
    ensures var m := Mem([], 0, [x, y, y, z, z]);
            Begins(m, series, inner) && Clean(series, inner, Run(m, []))
  {
  }

  /** The objects of the eight points up to `t`. */
  ghost predicate HasObjects(r: Run, t: int, refs: seq<nat>) {
    EightUpTo(r, t) && |refs| == 8 && forall i | 0 <= i < 8 :: r.m.slots[i].ref == refs[i]
  }

  /** The samples before 180 s, copied into slots with new objects. */
  lemma {:induction false} FirstCopies(series: seq<Sample>, inner: seq<nat>, x: Histogram, y: Histogram, z: Histogram,
                                       r: Run)
    requires Queried(series, inner, x, y, z) && Clean(series, inner, r) && r == Run(Mem([], 0, [x, y, y, z, z]), [])
    requires SeekIndex(series, 0, 12) == 7
    ensures var seen := SeenBefore(series, inner, r, 12);
            var m := Copied(r.m, seen, 7, 4);
            && |m.slots| == m.len == 7 && (forall i | 0 <= i < 7 :: m.slots[i] == Slot(5 + i, 5 + i))
            && |m.heap| == 12 && m.heap[..5] == r.m.heap && (forall i | 0 <= i < 7 :: seen[i].t == 5 + i) &&
               !IsStaleNaN(m.heap[2].sum)
  {
    var seen := SeenBefore(series, inner, r, 12);
    SeenNotStale(series, inner, r, 12);
    forall i | 0 <= i < 7 ensures seen[i] == series[i] {
      ReadOnAt(series, inner, r.m.heap, [], 7, i);
    }
    CopiedAnew(r.m.heap, seen, 7, 4);
  }

  /** The point at 180 s comes with the object of the series. */
  lemma {:induction false} FirstLoaded(series: seq<Sample>, inner: seq<nat>, x: Histogram, y: Histogram, z: Histogram,
                                       r: Run)
    requires Queried(series, inner, x, y, z) && Clean(series, inner, r) && r == Run(Mem([], 0, [x, y, y, z, z]), [])
    requires SeekIndex(series, 0, 12) == 7
    ensures var seen := SeenBefore(series, inner, r, 12);
            var m := Loaded(series, inner, r.m, seen, 4, 12);
            HasObjects(Run(m, seen), 12, [5, 6, 7, 8, 9, 10, 11, 2]) && |m.heap| == 12 && m.heap[4] == z
  {
    FirstCopies(series, inner, x, y, z, r);
  }

  /** At 180 s there are no slots yet: seven copies get new objects. */
  lemma {:induction false} FirstWindow(series: seq<Sample>, inner: seq<nat>, x: Histogram, y: Histogram, z: Histogram,
                                       r: Run)
    requires Queried(series, inner, x, y, z) && r == Run(Mem([], 0, [x, y, y, z, z]), [])
    ensures InRun(r, series, inner)
    ensures var r' := Moved(series, inner, r, 8, 12);
            Clean(series, inner, r') && HasObjects(r', 12, [5, 6, 7, 8, 9, 10, 11, 2]) && |r'.m.heap| == 12 &&
              r'.m.heap[4] == z
  {
    QueryBegins(series, inner, x, y, z);
    MovedEnds(series, inner, r, 8, 7, 12);
    SeekFinds(series, 0, 7);
    assert Kept(r.m, 4) == r.m && LastTime(r.m, 4) == 4;
    FirstLoaded(series, inner, x, y, z, r);
  }

  /** The objects three inner steps later, and what the first two of them then hold. */
  lemma {:induction false} ObjectsLater(series: seq<Sample>, inner: seq<nat>, r: Run, t: int, refs: seq<nat>)
    requires EachUnit(series) && Clean(series, inner, r) && HasObjects(r, t, refs) && t - 2 < |series|
    ensures var r' := Moved(series, inner, r, 8, t + 3);
            && Clean(series, inner, r') && HasObjects(r', t + 3, refs[3..] + [refs[0], refs[1], inner[t - 2]])
            && r'.m.heap == r.m.heap[refs[0] := r.m.heap[inner[t - 4]]][refs[1] := r.m.heap[inner[t - 3]]]
  {
    ThreeLater(series, inner, r, t);
  }

  /** At 225 s the points of 180 s and 225 s have one object. */
  lemma {:induction false} WindowAt225(series: seq<Sample>, inner: seq<nat>, x: Histogram, y: Histogram, z: Histogram,
                                       r: Run)
    requires Queried(series, inner, x, y, z) && EachUnit(series) && Clean(series, inner, r)
    requires HasObjects(r, 12, [5, 6, 7, 8, 9, 10, 11, 2]) && |r.m.heap| == 12 && r.m.heap[4] == z
    ensures var r' := Moved(series, inner, r, 8, 15);
            Clean(series, inner, r') && HasObjects(r', 15, [8, 9, 10, 11, 2, 5, 6, 2]) && |r'.m.heap| == 12 &&
              r'.m.heap[4] == z
  {
    ObjectsLater(series, inner, r, 12, [5, 6, 7, 8, 9, 10, 11, 2]);
  }

  lemma {:induction false} WindowAt270(series: seq<Sample>, inner: seq<nat>, x: Histogram, y: Histogram, z: Histogram,
                                       r: Run)
    requires Queried(series, inner, x, y, z) && EachUnit(series) && Clean(series, inner, r)
    requires HasObjects(r, 15, [8, 9, 10, 11, 2, 5, 6, 2]) && |r.m.heap| == 12 && r.m.heap[4] == z
    ensures var r' := Moved(series, inner, r, 8, 18);
            Clean(series, inner, r') && HasObjects(r', 18, [11, 2, 5, 6, 2, 8, 9, 4]) && |r'.m.heap| == 12 &&
              r'.m.heap[4] == z
  {
    ObjectsLater(series, inner, r, 15, [8, 9, 10, 11, 2, 5, 6, 2]);
  }

  /** At 315 s the point of 300 s is copied into the object of the point of 180 s, which the point of 225 s still
      has. */
  lemma {:induction false} WindowAt315(series: seq<Sample>, inner: seq<nat>, x: Histogram, y: Histogram, z: Histogram,
                                       r: Run)
    requires Queried(series, inner, x, y, z) && EachUnit(series) && Clean(series, inner, r)
    requires HasObjects(r, 18, [11, 2, 5, 6, 2, 8, 9, 4]) && |r.m.heap| == 12 && r.m.heap[4] == z
    ensures var r' := Moved(series, inner, r, 8, 21);
            InRun(r', series, inner) && HasObjects(r', 21, [6, 2, 8, 9, 4, 11, 2, 4]) && |r'.m.heap| == 12 &&
              r'.m.heap[2] == z
  {
    ObjectsLater(series, inner, r, 18, [11, 2, 5, 6, 2, 8, 9, 4]);
  }

  lemma {:induction false} FourWindows(series: seq<Sample>, inner: seq<nat>, x: Histogram, y: Histogram, z: Histogram,
                                       r: Run)
    returns (r': Run)
    requires Queried(series, inner, x, y, z) && r == Run(Mem([], 0, [x, y, y, z, z]), [])
    ensures InRun(r, series, inner) && r' == After(series, inner, r, 8, 12, 3, 4)
    ensures InRun(r', series, inner) && HasObjects(r', 21, [6, 2, 8, 9, 4, 11, 2, 4]) && r'.m.heap[2] == z
  {
    QueryBegins(series, inner, x, y, z);
    FirstWindow(series, inner, x, y, z, r);
    var r12 := Moved(series, inner, r, 8, 12);
    WindowAt225(series, inner, x, y, z, r12);
    var r15 := Moved(series, inner, r12, 8, 15);
    WindowAt270(series, inner, x, y, z, r15);
    var r18 := Moved(series, inner, r15, 8, 18);
    WindowAt315(series, inner, x, y, z, r18);
    r' := Moved(series, inner, r18, 8, 21);
    TwoSteps(series, inner, r, 8, 12, 15);
    assert After(series, inner, r, 8, 12, 3, 3) == r18;
  }

  lemma {:induction false} ShouldShow(series: seq<Sample>, inner: seq<nat>, x: Histogram, y: Histogram, z: Histogram)
    requires Queried(series, inner, x, y, z)
    ensures Point(15, y) in Window(series, PickHistogram, 13, 21)
  {
    WindowIsPrefix(series, 17, 17, PickHistogram, 13, 21);
    PointsComplete(series, 17, PickHistogram, 13, 10);
  }

  lemma {:induction false} ShowsInstead(r: Run, y: Histogram, z: Histogram)
    requires WellFormed(r.m) && HasObjects(r, 21, [6, 2, 8, 9, 4, 11, 2, 4]) && 2 < |r.m.heap| && r.m.heap[2] == z != y
    ensures Point(15, z) in Points(r.m) && Point(15, y) !in Points(r.m)
  {
    assert Points(r.m)[1] == Point(15, z);
  }

  /** At 315 s the point of 225 s shows the scrape of 240 s. */
  lemma {:induction false} WrongHistogram(series: seq<Sample>, inner: seq<nat>, x: Histogram, y: Histogram,
                                          z: Histogram)
    requires Queried(series, inner, x, y, z) && y != z
    ensures var m := Mem([], 0, [x, y, y, z, z]);
            && Sorted(series) && NoneStale(series) && Begins(m, series, inner)
            && var shown := After(series, inner, Run(m, []), 8, 12, 3, 4).m;
            && WellFormed(shown)
            && var points := Points(shown);
            Point(15, y) in Window(series, PickHistogram, 13, 21) && Point(15, z) in points && Point(15, y) !in points
  {
    QueryBegins(series, inner, x, y, z);
    var r' := FourWindows(series, inner, x, y, z, Run(Mem([], 0, [x, y, y, z, z]), []));
    ShouldShow(series, inner, x, y, z);
    ShowsInstead(r', y, z);
  }
}
