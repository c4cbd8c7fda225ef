/**
 The slots of a range selector over a series that hands out the histogram objects
 it holds, as the result of a subquery does (promql/value.go, storageSeriesIterator):
 the slots keep objects of their own through every query exactly when no two
 histograms of the series have one object.
 */
module SharedSlots {
  import opened Prelude
  import opened SampleBuffer
  import opened Windows
  import opened Slots

  // ---------------------------------------------------------------- the steps of a query

  /** The slots, and the samples before the iterator as they were when it went past them. The ring forgets only samples
      that are too old to be copied. */
  datatype Run = Run(m: Mem, seen: seq<Sample>)

  /** The objects of a series' histograms exist. */
  ghost predicate Given(m: Mem, series: seq<Sample>, inner: seq<nat>) {
    |inner| == |series| && forall k | 0 <= k < |series| && series[k].HistogramSample? :: inner[k] < |m.heap|
  }

  ghost predicate InRun(r: Run, series: seq<Sample>, inner: seq<nat>) {
    WellFormed(r.m) && Given(r.m, series, inner) && |r.seen| <= |series|
  }

  /** The first sample at or after `maxt`, from `pos` on. */
  function SeekIndex(series: seq<Sample>, pos: nat, maxt: int): (p: nat)
    requires pos <= |series|
    ensures pos <= p <= |series|
    decreases |series| - pos
  {
    if pos < |series| && series[pos].t < maxt then SeekIndex(series, pos + 1, maxt) else pos
  }

  lemma {:induction false} SeekIs(series: seq<Sample>, pos: nat, maxt: int)
    requires pos <= |series|
    ensures var p := SeekIndex(series, pos, maxt);
            (forall k | pos <= k < p :: series[k].t < maxt) && (p < |series| ==> maxt <= series[p].t)
    decreases |series| - pos
  {
    if pos < |series| && series[pos].t < maxt { SeekIs(series, pos + 1, maxt); }
  }

  /** The sample at `k`, as its object shows it. */
  function Shown(series: seq<Sample>, inner: seq<nat>, heap: seq<Histogram>, k: nat): Sample
    requires k < |series| == |inner| && (series[k].HistogramSample? ==> inner[k] < |heap|)
  {
    if series[k].HistogramSample? then HistogramSample(series[k].t, heap[inner[k]]) else series[k]
  }

  /** The number of points up to `mint`. */
  function Older(m: Mem, mint: int, d: nat): (n: nat)
    requires WellFormed(m) && d <= m.len
    ensures d <= n <= m.len
    decreases m.len - d
  {
    if d < m.len && m.slots[d].t <= mint then Older(m, mint, d + 1) else d
  }

  lemma {:induction false} OlderIs(m: Mem, mint: int, d: nat)
    requires WellFormed(m) && d <= m.len
    ensures var n := Older(m, mint, d);
            (forall i | d <= i < n :: m.slots[i].t <= mint) && (n < m.len ==> mint < m.slots[n].t)
    decreases m.len - d
  {
    if d < m.len && m.slots[d].t <= mint { OlderIs(m, mint, d + 1); }
  }

  /** The points left when those up to `mint` have made room. */
  function Kept(m: Mem, mint: int): (kept: Mem)
    requires WellFormed(m)
    ensures WellFormed(kept) && kept.heap == m.heap
  {
    Rotated(m, Older(m, mint, 0))
  }

  /** The lower bound for the histograms still to be collected. */
  function LastTime(m: Mem, mint: int): int
    requires WellFormed(m)
  {
    if m.len == 0 then mint else m.slots[m.len - 1].t
  }

  /** `seen` followed by the samples up to `pos`, as their objects show them. */
  function ReadOn(series: seq<Sample>, inner: seq<nat>, heap: seq<Histogram>, seen: seq<Sample>,
                  pos: nat): (s: seq<Sample>)
    requires |inner| == |series| && forall k | 0 <= k < |series| && series[k].HistogramSample? :: inner[k] < |heap|
    requires |seen| <= pos <= |series|
    ensures |s| == pos
  {
    if |seen| == pos then seen else ReadOn(series, inner, heap, seen, pos - 1) + [Shown(series, inner, heap, pos - 1)]
  }

  lemma {:induction false} ReadOnAt(series: seq<Sample>, inner: seq<nat>, heap: seq<Histogram>, seen: seq<Sample>,
                                    pos: nat, i: nat)
    requires |inner| == |series| && forall k | 0 <= k < |series| && series[k].HistogramSample? :: inner[k] < |heap|
    requires |seen| <= pos <= |series| && i < pos
    ensures ReadOn(series, inner, heap, seen, pos)[i] == if i < |seen| then seen[i] else Shown(series, inner, heap, i)
  {
    if |seen| < pos && i < pos - 1 { ReadOnAt(series, inner, heap, seen, pos - 1, i); }
  }

  /** The samples read by the time the iterator stands at the first one at or after `maxt`. */
  function SeenBefore(series: seq<Sample>, inner: seq<nat>, r: Run, maxt: int): (seen: seq<Sample>)
    requires InRun(r, series, inner)
    ensures |seen| == SeekIndex(series, |r.seen|, maxt)
  {
    ReadOn(series, inner, r.m.heap, r.seen, SeekIndex(series, |r.seen|, maxt))
  }

  /** The histograms read are copied in, the one at `maxt` is stored as the object handed out. */
  function Loaded(series: seq<Sample>, inner: seq<nat>, m: Mem, seen: seq<Sample>, mint: int, maxt: int): (m': Mem)
    requires WellFormed(m) && Given(m, series, inner) && |seen| <= |series|
    ensures WellFormed(m') && Given(m', series, inner)
  {
    CopiedGrows(m, seen, |seen|, mint);
    var copied := Copied(m, seen, |seen|, mint);
    if |seen| < |series| then Sought(copied, series[|seen|], OwnOf(series, inner, |seen|), maxt) else copied
  }

  /** The window (maxt - span, maxt]: points up to its start make room for the others. */
  function Moved(series: seq<Sample>, inner: seq<nat>, r: Run, span: int, maxt: int): (r': Run)
    requires InRun(r, series, inner)
    ensures InRun(r', series, inner)
  {
    var kept := Kept(r.m, maxt - span);
    if span == 0 then r.(m := kept)
    else
      var seen := SeenBefore(series, inner, r.(m := kept), maxt);
      Run(Loaded(series, inner, kept, seen, LastTime(kept, maxt - span), maxt), seen)
  }

  /** The end of the window of the step after `n` others. */
  function Nth(maxt: int, interval: int, n: nat): int {
    if n == 0 then maxt else Nth(maxt, interval, n - 1) + interval
  }

  /** A step of a query over the series. */
  ghost function StepOf(series: seq<Sample>, inner: seq<nat>, span: int): (Run, int) -> Run {
    (r: Run, maxt: int) => if InRun(r, series, inner) then Moved(series, inner, r, span, maxt) else r
  }

  ghost function Steps(step: (Run, int) -> Run, r: Run, maxt: int, interval: int, n: nat): Run {
    if n == 0 then r else step(Steps(step, r, maxt, interval, n - 1), Nth(maxt, interval, n - 1))
  }

  /** The first `n` steps of a query, of which the first has the window that ends at `maxt`. */
  ghost function After(series: seq<Sample>, inner: seq<nat>, r: Run, span: int, maxt: int, interval: int, n: nat): Run {
    Steps(StepOf(series, inner, span), r, maxt, interval, n)
  }

  /** What holds before the first step, and is kept by each, holds before every step. */
  lemma {:induction false} StepsKeep(step: (Run, int) -> Run, inv: (Run, int) -> bool, r: Run, maxt: int, interval: int,
                                     n: nat)
    requires inv(r, maxt) && forall r', t | inv(r', t) :: inv(step(r', t), t + interval)
    ensures inv(Steps(step, r, maxt, interval, n), Nth(maxt, interval, n))
  {
    if n > 0 { StepsKeep(step, inv, r, maxt, interval, n - 1); }
  }

  /** The points of `m` are still there, in the same slots. */
  ghost predicate Grown(m: Mem, m': Mem) {
    && m.len <= m'.len && m.len <= |m.slots| && m'.len <= |m'.slots| && |m.heap| <= |m'.heap|
    && forall i | 0 <= i < m.len :: m'.slots[i] == m.slots[i]
  }

  lemma {:induction false} TakeCopyGrows(m: Mem, t: int, h: Histogram)
    requires WellFormed(m)
    ensures Grown(m, TakeCopy(m, t, h))
  {
  }

  /** Copying does not touch the points already there. */
  lemma {:induction false} CopiedGrows(m: Mem, run: seq<Sample>, n: nat, mint: int)
    requires WellFormed(m) && n <= |run|
    ensures Grown(m, Copied(m, run, n, mint))
  {
    if n > 0 {
      CopiedGrows(m, run, n - 1, mint);
      if run[n - 1].HistogramSample? { TakeCopyGrows(Copied(m, run, n - 1, mint), run[n - 1].t, run[n - 1].h); }
    }
  }

  // ---------------------------------------------------------------- objects apart

  /** Before the window that ends at `maxt`: `read` samples have been handed out or gone past. */
  ghost predicate Keeps(series: seq<Sample>, inner: seq<nat>, r: Run, read: nat, maxt: int) {
    && InRun(r, series, inner) && Unshared(r.m)
    && read <= |series| && EarlierThan(series, |r.seen|, maxt) && EarlierThan(series, read, maxt)
    && Aside(r.m, series, inner, |r.seen|, read)
  }

  lemma {:induction false} CopiedAside(series: seq<Sample>, inner: seq<nat>, m: Mem, run: seq<Sample>, mint: int,
                                       from: nat)
    requires WellFormed(m) && Unshared(m) && Aside(m, series, inner, from, from)
    ensures var m' := Copied(m, run, |run|, mint);
            Unshared(m') && Aside(m', series, inner, from, from) &&
              Points(m') == Collect(Points(m), run, |run|, PickHistogram, mint)
  {
    CopiedKeeps(m, run, |run|, mint);
    AsideSpared(m, Copied(m, run, |run|, mint), series, inner, from, from);
  }

  lemma {:induction false} LoadedKeeps(series: seq<Sample>, inner: seq<nat>, m: Mem, seen: seq<Sample>, mint: int,
                                       maxt: int)
    returns (read: nat)
    requires Apart(series, inner) && WellFormed(m) && Unshared(m) && Given(m, series, inner)
    requires |seen| <= |series| && Aside(m, series, inner, |seen|, |seen|) && EarlierThan(series, |seen|, maxt)
    ensures var m' := Loaded(series, inner, m, seen, mint, maxt);
            && Unshared(m') && read <= |series| && EarlierThan(series, read, maxt + 1)
            && Aside(m', series, inner, |seen|, read)
  {
    CopiedAside(series, inner, m, seen, mint, |seen|);
    read := |seen|;
    if |seen| < |series| {
      SoughtKeeps(Copied(m, seen, |seen|, mint), series, inner, |seen|, maxt);
      read := if series[|seen|].t == maxt then |seen| + 1 else |seen|;
    }
  }

  /** The iterator goes past everything that has been handed out. */
  lemma {:induction false} SeekGoesPast(series: seq<Sample>, inner: seq<nat>, m: Mem, from: nat, read: nat, maxt: int)
    requires from <= |series| && read <= |series| && EarlierThan(series, from, maxt) && EarlierThan(series, read, maxt)
    requires Aside(m, series, inner, from, read)
    ensures var pos := SeekIndex(series, from, maxt);
            EarlierThan(series, pos, maxt) && Aside(m, series, inner, pos, pos)
  {
    var pos := SeekIndex(series, from, maxt);
    SeekIs(series, from, maxt);
    assert read <= pos;
  }

  /** When old points have made room, the objects still hold what is to be read. */
  lemma {:induction false} KeptKeeps(series: seq<Sample>, inner: seq<nat>, r: Run, read: nat, mint: int, maxt: int)
    requires Keeps(series, inner, r, read, maxt)
    ensures Keeps(series, inner, r.(m := Kept(r.m, mint)), read, maxt)
  {
    RotatedKeeps(r.m, Older(r.m, mint, 0));
    AsideRotated(r.m, Older(r.m, mint, 0), series, inner, |r.seen|, read);
  }

  lemma {:induction false} KeepsLater(series: seq<Sample>, inner: seq<nat>, r: Run, read: nat, maxt: int, next: int)
    requires Keeps(series, inner, r, read, maxt) && maxt <= next
    ensures Keeps(series, inner, r, read, next)
  {
  }

  lemma {:induction false} RestKeeps(series: seq<Sample>, inner: seq<nat>, r: Run, read: nat, mint: int, maxt: int)
    returns (read': nat)
    requires Apart(series, inner) && Keeps(series, inner, r, read, maxt)
    ensures var seen := SeenBefore(series, inner, r, maxt);
            Keeps(series, inner, Run(Loaded(series, inner, r.m, seen, mint, maxt), seen), read', maxt + 1)
  {
    SeekGoesPast(series, inner, r.m, |r.seen|, read, maxt);
    read' := LoadedKeeps(series, inner, r.m, SeenBefore(series, inner, r, maxt), mint, maxt);
  }

  lemma {:induction false} MovedKeeps(series: seq<Sample>, inner: seq<nat>, r: Run, read: nat, span: int, maxt: int)
    returns (read': nat)
    requires Apart(series, inner) && Keeps(series, inner, r, read, maxt)
    ensures Keeps(series, inner, Moved(series, inner, r, span, maxt), read', maxt + 1)
  {
    var kept := Kept(r.m, maxt - span);
    KeptKeeps(series, inner, r, read, maxt - span, maxt);
    if span == 0 {
      read' := read;
      KeepsLater(series, inner, r.(m := kept), read, maxt, maxt + 1);
    } else {
      read' := RestKeeps(series, inner, r.(m := kept), read, LastTime(kept, maxt - span), maxt);
    }
  }

  ghost predicate KeepsSome(series: seq<Sample>, inner: seq<nat>, r: Run, maxt: int) {
    exists read :: Keeps(series, inner, r, read, maxt)
  }

  lemma {:induction false} StepKeepsSome(series: seq<Sample>, inner: seq<nat>, r: Run, span: int, maxt: int,
                                         interval: int)
    requires Apart(series, inner) && KeepsSome(series, inner, r, maxt) && 0 < interval
    ensures KeepsSome(series, inner, StepOf(series, inner, span)(r, maxt), maxt + interval)
  {
    var read :| Keeps(series, inner, r, read, maxt);
    var read' := MovedKeeps(series, inner, r, read, span, maxt);
    KeepsLater(series, inner, Moved(series, inner, r, span, maxt), read', maxt + 1, maxt + interval);
  }

  lemma {:induction false} AfterKeeps(series: seq<Sample>, inner: seq<nat>, r: Run, span: int, maxt: int, interval: int,
                                      n: nat)
    requires Apart(series, inner) && Keeps(series, inner, r, 0, maxt) && 0 < interval
    ensures KeepsSome(series, inner, After(series, inner, r, span, maxt, interval, n), Nth(maxt, interval, n))
  {
    var step, inv := StepOf(series, inner, span), (r', t) => KeepsSome(series, inner, r', t);
    forall r', t | inv(r', t) ensures inv(step(r', t), t + interval) {
      StepKeepsSome(series, inner, r', span, t, interval);
    }
    StepsKeep(step, inv, r, maxt, interval, n);
  }

  // ---------------------------------------------------------------- objects shared

  predicate Stale(s: Sample) {
    s.HistogramSample? && IsStaleNaN(s.h.sum)
  }

  /** Evaluating an expression leaves stale markers out, so the series of a subquery has none. */
  ghost predicate NoneStale(samples: seq<Sample>) {
    forall k | 0 <= k < |samples| :: !Stale(samples[k])
  }

  ghost predicate NoneShownStale(series: seq<Sample>, inner: seq<nat>, m: Mem)
    requires Given(m, series, inner)
  {
    forall k | 0 <= k < |series| :: !Stale(Shown(series, inner, m.heap, k))
  }

  lemma {:induction false} TakeCopyNotStale(series: seq<Sample>, inner: seq<nat>, m: Mem, t: int, h: Histogram)
    requires WellFormed(m) && Given(m, series, inner) && NoneShownStale(series, inner, m) && !IsStaleNaN(h.sum)
    ensures var m' := TakeCopy(m, t, h);
            Given(m', series, inner) && NoneShownStale(series, inner, m')
  {
    var m' := TakeCopy(m, t, h);
    forall k | 0 <= k < |series|
      ensures (series[k].HistogramSample? ==> inner[k] < |m'.heap|) && !Stale(Shown(series, inner, m'.heap, k))
    {
      assert !Stale(Shown(series, inner, m.heap, k));
    }
  }

  /** Copying writes no stale marker into an object. */
  lemma {:induction false} CopiedNotStale(series: seq<Sample>, inner: seq<nat>, m: Mem, run: seq<Sample>, n: nat,
                                          mint: int)
    requires WellFormed(m) && Given(m, series, inner) && NoneShownStale(series, inner, m) && NoneStale(run)
    requires n <= |run|
    ensures var m' := Copied(m, run, n, mint);
            Given(m', series, inner) && NoneShownStale(series, inner, m')
  {
    if n > 0 {
      CopiedNotStale(series, inner, m, run, n - 1, mint);
      assert !Stale(run[n - 1]);
      if run[n - 1].HistogramSample? {
        TakeCopyNotStale(series, inner, Copied(m, run, n - 1, mint), run[n - 1].t, run[n - 1].h);
      }
    }
  }

  ghost predicate EndsWith(m: Mem, last: Slot) {
    0 < m.len <= |m.slots| && m.slots[m.len - 1] == last
  }

  /** The sought histogram is the last point, with the object handed out. */
  lemma {:induction false} LoadedEnds(series: seq<Sample>, inner: seq<nat>, m: Mem, seen: seq<Sample>, mint: int,
                                      k: nat, maxt: int)
    requires WellFormed(m) && Given(m, series, inner) && NoneShownStale(series, inner, m) && NoneStale(seen)
    requires |seen| == k < |series| && series[k].HistogramSample? && series[k].t == maxt
    ensures var m' := Loaded(series, inner, m, seen, mint, maxt);
            OneMore(m, m', Slot(maxt, inner[k])) && NoneShownStale(series, inner, m')
  {
    CopiedGrows(m, seen, k, mint);
    CopiedNotStale(series, inner, m, seen, k, mint);
    assert !Stale(Shown(series, inner, Copied(m, seen, k, mint).heap, k));
  }

  lemma {:induction false} SeekFinds(series: seq<Sample>, pos: nat, k: nat)
    requires Sorted(series) && pos <= k < |series|
    ensures SeekIndex(series, pos, series[k].t) == k
  {
    SeekIs(series, pos, series[k].t);
  }

  /** No stale marker has been read, and none is left to read. */
  ghost predicate Clean(series: seq<Sample>, inner: seq<nat>, r: Run) {
    InRun(r, series, inner) && NoneShownStale(series, inner, r.m) && NoneStale(r.seen)
  }

  lemma {:induction false} KeptIsClean(series: seq<Sample>, inner: seq<nat>, r: Run, mint: int)
    requires Clean(series, inner, r)
    ensures Clean(series, inner, r.(m := Kept(r.m, mint)))
  {
    forall k | 0 <= k < |series| ensures !Stale(Shown(series, inner, Kept(r.m, mint).heap, k)) {
      assert !Stale(Shown(series, inner, r.m.heap, k));
    }
  }

  lemma {:induction false} SeenNotStale(series: seq<Sample>, inner: seq<nat>, r: Run, maxt: int)
    requires Clean(series, inner, r)
    ensures NoneStale(SeenBefore(series, inner, r, maxt))
  {
    var seen := SeenBefore(series, inner, r, maxt);
    forall i | 0 <= i < |seen| ensures !Stale(seen[i]) {
      ReadOnAt(series, inner, r.m.heap, r.seen, |seen|, i);
    }
  }

  /** One more histogram behind the points that are kept. */
  ghost predicate OneMore(kept: Mem, m: Mem, last: Slot) {
    Grown(kept, m) && kept.len < m.len && EndsWith(m, last)
  }

  lemma {:induction false} RestEnds(series: seq<Sample>, inner: seq<nat>, r: Run, mint: int, k: nat, maxt: int)
    requires Sorted(series) && Clean(series, inner, r) && |r.seen| <= k < |series| && series[k].HistogramSample?
    requires series[k].t == maxt
    ensures var seen := SeenBefore(series, inner, r, maxt);
            var m := Loaded(series, inner, r.m, seen, mint, maxt);
            |seen| == k && Clean(series, inner, Run(m, seen)) && OneMore(r.m, m, Slot(maxt, inner[k]))
  {
    SeekFinds(series, |r.seen|, k);
    SeenNotStale(series, inner, r, maxt);
    LoadedEnds(series, inner, r.m, SeenBefore(series, inner, r, maxt), mint, k, maxt);
  }

  /** Seeking a histogram makes it the last point. */
  lemma {:induction false} MovedEnds(series: seq<Sample>, inner: seq<nat>, r: Run, span: int, k: nat, maxt: int)
    requires Sorted(series) && Clean(series, inner, r) && |r.seen| <= k < |series| && series[k].HistogramSample?
    requires series[k].t == maxt
    requires 0 < span
    ensures var r' := Moved(series, inner, r, span, maxt);
            Clean(series, inner, r') && |r'.seen| == k && OneMore(Kept(r.m, maxt - span), r'.m, Slot(maxt, inner[k]))
  {
    var kept := Kept(r.m, maxt - span);
    KeptIsClean(series, inner, r, maxt - span);
    RestEnds(series, inner, r.(m := kept), LastTime(kept, maxt - span), k, maxt);
  }

  /** A last point after `mint` stays the last one when points up to `mint` make room. */
  lemma {:induction false} LastStays(m: Mem, mint: int, last: Slot)
    requires WellFormed(m) && EndsWith(m, last) && mint < last.t
    ensures EndsWith(Kept(m, mint), last)
  {
    OlderIs(m, mint, 0);
  }

  lemma {:induction false} TwoSteps(series: seq<Sample>, inner: seq<nat>, r: Run, span: int, maxt: int, next: int)
    requires InRun(r, series, inner)
    ensures After(series, inner, r, span, maxt, next - maxt, 2) ==
            Moved(series, inner, Moved(series, inner, r, span, maxt), span, next)
  {
    var step, interval := StepOf(series, inner, span), next - maxt;
    assert Steps(step, r, maxt, interval, 1) == step(r, maxt);
    assert Nth(maxt, interval, 1) == next;
  }

  lemma {:induction false} SharedAfterTwo(series: seq<Sample>, inner: seq<nat>, r: Run, span: int, maxt: int, next: int)
    requires InRun(r, series, inner)
    requires !Unshared(Moved(series, inner, Moved(series, inner, r, span, maxt), span, next).m)
    ensures !Unshared(After(series, inner, r, span, maxt, next - maxt, 2).m)
  {
    TwoSteps(series, inner, r, span, maxt, next);
  }

  lemma {:induction false} SameObject(kept: Mem, m: Mem, first: Slot, last: Slot)
    requires EndsWith(kept, first) && OneMore(kept, m, last) && first.ref == last.ref
    ensures !Unshared(m)
  {
    assert m.slots[kept.len - 1].ref == m.slots[m.len - 1].ref;
  }

  /** A window with one more histogram, of the same object as its last point. */
  lemma {:induction false} MeetsAgain(series: seq<Sample>, inner: seq<nat>, r: Run, span: int, first: Slot, n: nat,
                                      maxt: int)
    requires Sorted(series) && Clean(series, inner, r) && |r.seen| <= n < |series| && series[n].HistogramSample?
    requires series[n].t == maxt
    requires EndsWith(r.m, first) && first.ref == inner[n] && maxt - first.t < span && 0 < span
    ensures !Unshared(Moved(series, inner, r, span, maxt).m)
  {
    LastStays(r.m, maxt - span, first);
    MovedEnds(series, inner, r, span, n, maxt);
    SameObject(Kept(r.m, maxt - span), Moved(series, inner, r, span, maxt).m, first, Slot(maxt, inner[n]));
  }

  /** Two histograms with one object, and two windows of which the second has both. */
  lemma {:induction false} SharedMeet(series: seq<Sample>, inner: seq<nat>, r: Run, span: int, k: nat, n: nat,
                                      maxt: int, next: int)
    requires Sorted(series) && Clean(series, inner, r) && r.seen == [] && k < n < |series| && inner[k] == inner[n]
    requires series[k].HistogramSample? && series[k].t == maxt && series[n].HistogramSample? && series[n].t == next
    requires next - maxt < span && 0 < span
    ensures !Unshared(Moved(series, inner, Moved(series, inner, r, span, maxt), span, next).m)
  {
    MovedEnds(series, inner, r, span, k, maxt);
    MeetsAgain(series, inner, Moved(series, inner, r, span, maxt), span, Slot(maxt, inner[k]), n, next);
  }

  // ---------------------------------------------------------------- exactly

  /** Slots before a query: no points yet, spare slots with objects of their own, and none of them an object of the
      series. */
  ghost predicate Begins(m: Mem, series: seq<Sample>, inner: seq<nat>) {
    WellFormed(m) && m.len == 0 && Unshared(m) && Given(m, series, inner) && Aside(m, series, inner, 0, 0)
  }

  /** After any number of steps of any query, no two slots have one object. The window of the first step ends at
      `maxt`. */
  ghost predicate StaysUnshared(series: seq<Sample>, inner: seq<nat>, m: Mem)
    requires Begins(m, series, inner)
  {
    forall span: nat, maxt, interval, n: nat | 0 < interval ::
      Unshared(After(series, inner, Run(m, []), span, maxt, interval, n).m)
  }

  /** The slots have objects of their own through every query exactly when the histograms of the series have. */
  lemma {:induction false} UnsharedExactly(series: seq<Sample>, inner: seq<nat>, m: Mem)
    requires Sorted(series) && NoneStale(series) && Begins(m, series, inner)
    ensures StaysUnshared(series, inner, m) <==> Apart(series, inner)
  {
    var r := Run(m, []);
    if Apart(series, inner) {
      forall span: nat, maxt, interval, n: nat | 0 < interval
        ensures Unshared(After(series, inner, r, span, maxt, interval, n).m)
      {
        AfterKeeps(series, inner, r, span, maxt, interval, n);
      }
    } else {
      var k, n :| 0 <= k < n < |series| && series[k].HistogramSample? && series[n].HistogramSample? &&
        inner[k] == inner[n];
      forall i | 0 <= i < |series| ensures !Stale(Shown(series, inner, m.heap, i)) {
        assert !Stale(series[i]);
      }
      SharedMeet(series, inner, r, series[n].t - series[k].t + 1, k, n, series[k].t, series[n].t);
      SharedAfterTwo(series, inner, r, series[n].t - series[k].t + 1, series[k].t, series[n].t);
    }
  }

  // ---------------------------------------------------------------- objects apart show the windows

  /** The slots show the histograms after `m0` of the first `q` samples, and what was read is what the series holds. */
  ghost predicate ShowsUpTo(series: seq<Sample>, r: Run, q: nat, m0: int, maxt: int) {
    && WellFormed(r.m) && q <= |series| && EarlierThan(series, q, maxt) &&
       Points(r.m) == PointsUpTo(series, q, PickHistogram, m0)
    && r.seen <= series
  }

  lemma {:induction false} KeptShows(series: seq<Sample>, r: Run, q: nat, m0: int, maxt: int, mint: int)
    requires Sorted(series) && Unshared(r.m) && ShowsUpTo(series, r, q, m0, maxt) && m0 <= mint
    ensures ShowsUpTo(series, r.(m := Kept(r.m, mint)), q, mint, maxt)
  {
    var d, ps := Older(r.m, mint, 0), Points(r.m);
    PointsInOrder(series, q, PickHistogram, m0);
    OlderIs(r.m, mint, 0);
    forall i | 0 <= i < |ps| ensures ps[i].t == r.m.slots[i].t {
    }
    LaterStart(series, q, PickHistogram, m0, mint, d);
    RotatedKeeps(r.m, d);
  }

  lemma {:induction false} SeenIsSeries(series: seq<Sample>, inner: seq<nat>, r: Run, read: nat, maxt: int)
    requires Keeps(series, inner, r, read, maxt) && r.seen <= series
    ensures var pos := SeekIndex(series, |r.seen|, maxt);
            SeenBefore(series, inner, r, maxt) == series[..pos] && EarlierThan(series, pos, maxt)
  {
    var seen := SeenBefore(series, inner, r, maxt);
    SeekIs(series, |r.seen|, maxt);
    forall i | 0 <= i < |seen| ensures seen[i] == series[i] {
      ReadOnAt(series, inner, r.m.heap, r.seen, |seen|, i);
    }
  }

  lemma {:induction false} LoadedShows(series: seq<Sample>, inner: seq<nat>, m: Mem, pos: nat, q: nat, mint: int,
                                       maxt: int)
    requires Sorted(series) && Apart(series, inner) && WellFormed(m) && Unshared(m) && Given(m, series, inner)
    requires q <= pos <= |series| && Aside(m, series, inner, pos, pos) && EarlierThan(series, pos, maxt) && mint < maxt
    requires pos < |series| ==> maxt <= series[pos].t
    requires Points(m) == PointsUpTo(series, q, PickHistogram, mint)
    ensures Points(Loaded(series, inner, m, series[..pos], LastTime(m, mint), maxt)) ==
            Window(series, PickHistogram, mint, maxt)
  {
    var seen, last := series[..pos], LastTime(m, mint);
    assert last == Resume(Points(m), mint);
    CompleteWindow(series, q, 0, pos, seen, PickHistogram, mint, maxt);
    CopiedAside(series, inner, m, seen, last, pos);
    if pos < |series| { SoughtKeeps(Copied(m, seen, pos, last), series, inner, pos, maxt); }
  }

  /** The window, once old points have made room. */
  lemma {:induction false} RestShows(series: seq<Sample>, inner: seq<nat>, r: Run, read: nat, q: nat, mint: int,
                                     maxt: int)
    requires Sorted(series) && Apart(series, inner) && Keeps(series, inner, r, read, maxt) && mint < maxt
    requires ShowsUpTo(series, r, q, mint, maxt)
    ensures var seen := SeenBefore(series, inner, r, maxt);
            seen <= series &&
              Points(Loaded(series, inner, r.m, seen, LastTime(r.m, mint), maxt)) ==
              Window(series, PickHistogram, mint, maxt)
  {
    var pos := SeekIndex(series, |r.seen|, maxt);
    SeekIs(series, |r.seen|, maxt);
    SeenIsSeries(series, inner, r, read, maxt);
    SeekGoesPast(series, inner, r.m, |r.seen|, read, maxt);
    assert q <= pos;
    LoadedShows(series, inner, r.m, pos, q, mint, maxt);
  }

  /** One window after another: the slots show exactly the histograms of the window. */
  lemma {:induction false} MovedShows(series: seq<Sample>, inner: seq<nat>, r: Run, read: nat, q: nat, m0: int,
                                      span: nat, maxt: int)
    requires Sorted(series) && Apart(series, inner) && Keeps(series, inner, r, read, maxt)
    requires ShowsUpTo(series, r, q, m0, maxt) && m0 <= maxt - span
    ensures var r' := Moved(series, inner, r, span, maxt);
            Points(r'.m) == Window(series, PickHistogram, maxt - span, maxt) && r'.seen <= series
  {
    var mint := maxt - span;
    KeptShows(series, r, q, m0, maxt, mint);
    if span == 0 {
      EmptyWindow(series, q, PickHistogram, maxt);
    } else {
      KeptKeeps(series, inner, r, read, mint, maxt);
      RestShows(series, inner, r.(m := Kept(r.m, mint)), read, q, mint, maxt);
    }
  }

  /** A window is the histograms after its start among the samples up to its end. */
  lemma {:induction false} WindowShows(series: seq<Sample>, n: nat, r: Run, mint: int, maxt: int, next: int)
    returns (q: nat)
    requires Sorted(series) && n <= |series| && (forall k | n <= k < |series| :: maxt < series[k].t) && maxt < next
    requires WellFormed(r.m) && Points(r.m) == Window(series, PickHistogram, mint, maxt) && r.seen <= series
    ensures ShowsUpTo(series, r, q, mint, next)
  {
    if n == 0 || series[n - 1].t <= maxt {
      q := n;
      WindowIsPrefix(series, |series|, n, PickHistogram, mint, maxt);
    } else {
      q := WindowShows(series, n - 1, r, mint, maxt, next);
    }
  }

  /** Both the objects and what they show, from one step to the next. */
  ghost predicate OnTrack(series: seq<Sample>, inner: seq<nat>, r: Run, read: nat, q: nat, m0: int, maxt: int) {
    Keeps(series, inner, r, read, maxt) && ShowsUpTo(series, r, q, m0, maxt)
  }

  lemma {:induction false} MovedOnTrack(series: seq<Sample>, inner: seq<nat>, r: Run, read: nat, q: nat, m0: int,
                                        span: nat, maxt: int, next: int)
    returns (read': nat, q': nat)
    requires Sorted(series) && Apart(series, inner) && OnTrack(series, inner, r, read, q, m0, maxt)
    requires m0 <= maxt - span && maxt < next
    ensures OnTrack(series, inner, Moved(series, inner, r, span, maxt), read', q', maxt - span, next)
  {
    var r' := Moved(series, inner, r, span, maxt);
    MovedShows(series, inner, r, read, q, m0, span, maxt);
    read' := MovedKeeps(series, inner, r, read, span, maxt);
    KeepsLater(series, inner, r', read', maxt + 1, next);
    q' := WindowShows(series, |series|, r', maxt - span, maxt, next);
  }

  ghost predicate OnSomeTrack(series: seq<Sample>, inner: seq<nat>, r: Run, span: nat, maxt: int) {
    exists read, q, m0 :: OnTrack(series, inner, r, read, q, m0, maxt) && m0 <= maxt - span
  }

  lemma {:induction false} StepOnSomeTrack(series: seq<Sample>, inner: seq<nat>, r: Run, span: nat, maxt: int,
                                           interval: int)
    requires Sorted(series) && Apart(series, inner) && OnSomeTrack(series, inner, r, span, maxt) && 0 < interval
    ensures OnSomeTrack(series, inner, StepOf(series, inner, span)(r, maxt), span, maxt + interval)
  {
    var read, q, m0 :| OnTrack(series, inner, r, read, q, m0, maxt) && m0 <= maxt - span;
    var read', q' := MovedOnTrack(series, inner, r, read, q, m0, span, maxt, maxt + interval);
    assert OnTrack(series, inner, StepOf(series, inner, span)(r, maxt), read', q', maxt - span, maxt + interval);
  }

  ghost function Track(series: seq<Sample>, inner: seq<nat>, span: nat): (Run, int) -> bool {
    (r: Run, maxt: int) => OnSomeTrack(series, inner, r, span, maxt)
  }

  lemma {:induction false} StepsOnTrack(series: seq<Sample>, inner: seq<nat>, span: nat, interval: int)
    requires Sorted(series) && Apart(series, inner) && 0 < interval
    ensures var step, inv := StepOf(series, inner, span), Track(series, inner, span);
            forall r, t | inv(r, t) :: inv(step(r, t), t + interval)
  {
    var step, inv := StepOf(series, inner, span), Track(series, inner, span);
    forall r, t | inv(r, t) ensures inv(step(r, t), t + interval) {
      StepOnSomeTrack(series, inner, r, span, t, interval);
    }
  }

  lemma {:induction false} AfterOnTrack(series: seq<Sample>, inner: seq<nat>, r: Run, span: nat, maxt: int,
                                        interval: int, n: nat)
    requires Sorted(series) && Apart(series, inner) && Track(series, inner, span)(r, maxt) && 0 < interval
    ensures Track(series, inner, span)(After(series, inner, r, span, maxt, interval, n), Nth(maxt, interval, n))
  {
    StepsOnTrack(series, inner, span, interval);
    StepsKeep(StepOf(series, inner, span), Track(series, inner, span), r, maxt, interval, n);
  }

  /** The slots show the window that ends at `maxt`. */
  ghost predicate AtWindow(series: seq<Sample>, r: Run, span: nat, maxt: int) {
    WellFormed(r.m) && Points(r.m) == Window(series, PickHistogram, maxt - span, maxt)
  }

  lemma {:induction false} StepAtWindow(series: seq<Sample>, inner: seq<nat>, r: Run, span: nat, maxt: int)
    requires Sorted(series) && Apart(series, inner) && OnSomeTrack(series, inner, r, span, maxt)
    ensures AtWindow(series, StepOf(series, inner, span)(r, maxt), span, maxt)
  {
    var read, q, m0 :| OnTrack(series, inner, r, read, q, m0, maxt) && m0 <= maxt - span;
    MovedShows(series, inner, r, read, q, m0, span, maxt);
  }

  /** When no two histograms have one object, every step of every query shows the histograms of its window. */
  lemma {:induction false} ApartShowsWindows(series: seq<Sample>, inner: seq<nat>, m: Mem, span: nat, maxt: int,
                                             interval: int, n: nat)
    requires Sorted(series) && Begins(m, series, inner) && Apart(series, inner) && 0 < interval
    ensures AtWindow(series, After(series, inner, Run(m, []), span, maxt, interval, n + 1), span,
                     Nth(maxt, interval, n))
  {
    assert OnTrack(series, inner, Run(m, []), 0, 0, maxt - span, maxt);
    AfterOnTrack(series, inner, Run(m, []), span, maxt, interval, n);
    StepAtWindow(series, inner, After(series, inner, Run(m, []), span, maxt, interval, n), span,
                 Nth(maxt, interval, n));
  }
}
