/**
 The sliding window of range selectors (promql/engine.go, matrixIterSlice and
 the per-series loop that calls it).

 A Go slice of histogram points is a backing sequence of slots together with a
 length; the slots past the length keep their histogram objects for reuse. What
 happens to slots and objects is followed in the numbered objects of Slots.
 */
module SlidingWindow {
  import opened Prelude
  import opened SampleBuffer
  import opened Slots
  import opened Windows

  // ---------------------------------------------------------------- histogram slots

  datatype HSlot = HSlot(t: int, h: FloatHistogram?)

  /** A slice of histogram points: the first `len` slots are its points, the rest is spare capacity. */
  datatype HSlice = HSlice(slots: seq<HSlot>, len: nat)

  /** The slots have the objects that `m` says, where `table` are the objects by number. */
  ghost predicate Matches(hs: HSlice, table: seq<FloatHistogram>, m: Mem) {
    && WellFormed(m) && |table| == |m.heap| && hs.len == m.len && |m.slots| <= |hs.slots|
    && (forall i | 0 <= i < |m.slots| :: hs.slots[i] == HSlot(m.slots[i].t, table[m.slots[i].ref]))
    && (forall i | |m.slots| <= i < |hs.slots| :: hs.slots[i].h == null)
  }

  ghost predicate Holds(table: seq<FloatHistogram>, heap: seq<Histogram>)
    reads table
  {
    && |table| == |heap|
    && (forall a, b | 0 <= a < b < |table| :: table[a] != table[b])
    && (forall r | 0 <= r < |table| :: table[r].content == heap[r])
  }

  ghost predicate Mirrors(hs: HSlice, table: seq<FloatHistogram>, m: Mem)
    reads table
  {
    Matches(hs, table, m) && Holds(table, m.heap)
  }

  /** The objects of a series are in the table under the numbers `inner`. */
  ghost predicate Linked(own: seq<FloatHistogram?>, inner: seq<nat>, table: seq<FloatHistogram>) {
    |inner| == |own| && forall k | 0 <= k < |own| && own[k] != null :: inner[k] < |table| && table[inner[k]] == own[k]
  }

  /** What a histogram adds to the sample count: it weighs as many float samples as it takes memory. */
  function SampleSize(h: Histogram): int {
    (h.size + 8) / 16
  }

  /** The sample count of histogram points. */
  function SizeOf(ps: seq<HPoint>): int {
    if ps == [] then 0 else SizeOf(ps[..|ps| - 1]) + SampleSize(ps[|ps| - 1].v)
  }

  /** The points after `mint`, of points in time order. */
  function After<V>(ps: seq<Point<V>>, mint: int): seq<Point<V>> {
    if ps != [] && ps[0].t <= mint then After(ps[1..], mint) else ps
  }

  lemma {:induction false} AfterIsSuffix<V(!new)>(ps: seq<Point<V>>, mint: int, drop: nat)
    requires drop <= |ps|
    requires forall x | 0 <= x < drop :: ps[x].t <= mint
    requires drop < |ps| ==> mint < ps[drop].t
    ensures After(ps, mint) == ps[drop..]
  {
    if drop > 0 { AfterIsSuffix(ps[1..], mint, drop - 1); }
  }

  /** The sample count of a pair of slices. */
  ghost function Weight(floats: seq<FPoint>, ps: seq<HPoint>): int {
    |floats| + SizeOf(ps)
  }

  /** How far the sample count moves away from the weight of the slices when a window starts after `mint`: nothing
      when no histogram of the previous window is retained, else the retained size is taken off where the dropped
      size should be. */
  ghost function Drift(ps: seq<HPoint>, mint: int): int {
    if After(ps, mint) == [] then 0 else SizeOf(ps) - 2 * SizeOf(After(ps, mint))
  }

  lemma SizeOfMore(ps: seq<HPoint>, p: HPoint)
    ensures SizeOf(ps + [p]) == SizeOf(ps) + SampleSize(p.v)
  {
    assert (ps + [p])[..|ps|] == ps;
  }

  /** The slots with an object in the next one: that of a spare slot, or a new one. */
  method NextSlot(hs: HSlice, ghost table: seq<FloatHistogram>, ghost m: Mem) returns (slots: seq<HSlot>, isNew: bool)
    requires Mirrors(hs, table, m)
    ensures hs.len < |slots| && slots[hs.len].h != null && |hs.slots| <= |slots|
    ensures forall i | 0 <= i < |m.slots| :: slots[i] == hs.slots[i]
    ensures forall i | |m.slots| <= i < |slots| && i != hs.len :: slots[i].h == null
    ensures if isNew then hs.len == |m.slots| && fresh(slots[hs.len].h) else hs.len < |m.slots|
  {
    slots, isNew := hs.slots, true;
    if hs.len == |slots| {
      var h := new FloatHistogram(Histogram(Finite(0.0), 0, 0));
      // append may over-allocate
      var extra: nat :| true;
      slots := slots + [HSlot(0, h)] + seq(extra, _ => HSlot(0, null));
    } else if slots[hs.len].h == null {
      var h := new FloatHistogram(Histogram(Finite(0.0), 0, 0));
      slots := slots[hs.len := HSlot(0, h)];
    } else {
      isNew := false;
    }
  }

  /** Append a point by copying it into the object of the next slot. */
  method PushHistogram(hs: HSlice, t: int, content: Histogram, ghost table: seq<FloatHistogram>, ghost m: Mem)
    returns (hs': HSlice, ghost table': seq<FloatHistogram>)
    requires Mirrors(hs, table, m)
    modifies table
    ensures Mirrors(hs', table', PushCopy(m, t, content))
    ensures table <= table' && forall r | |table| <= r < |table'| :: fresh(table'[r])
  {
    var slots, isNew := NextSlot(hs, table, m);
    var h := slots[hs.len].h;
    h.content := content;
    hs' := HSlice(slots[hs.len := HSlot(t, h)], hs.len + 1);
    table' := if isNew then table + [h] else table;
  }

  /** Append the current sample of an iterator, in the object that the iterator returns. */
  method PushCurrent(it: BufferedSeriesIterator, hs: HSlice, ghost table: seq<FloatHistogram>, ghost m: Mem,
                     ghost inner: seq<nat>)
    returns (hs': HSlice, ghost table': seq<FloatHistogram>)
    requires Owned(it.series, it.own) && it.pos < |it.series| && it.series[it.pos].HistogramSample?
    requires Mirrors(hs, table, m) && Linked(it.own, inner, table)
    modifies table
    ensures var s := it.series[it.pos];
            Mirrors(hs', table', if it.own == [] then PushCopy(m, s.t, s.h) else PushRef(m, s.t, inner[it.pos]))
    ensures table <= table' && forall r | |table| <= r < |table'| :: fresh(table'[r])
  {
    var t := it.series[it.pos].t;
    var slots, isNew := NextSlot(hs, table, m);
    var h := it.AtFloatHistogram(slots[hs.len].h);
    hs' := HSlice(slots[hs.len := HSlot(t, h)], hs.len + 1);
    table' := table;
    if it.own == [] {
      if isNew { table' := table + [h]; }
      assert Matches(hs', table', PushCopy(m, t, it.series[it.pos].h));
    } else {
      assert Matches(hs', table', PushRef(m, t, inner[it.pos]));
    }
  }

  lemma {:induction false} RotationMatches(hs: HSlice, table: seq<FloatHistogram>, m: Mem, d: nat, slots: seq<HSlot>)
    requires Matches(hs, table, m) && d <= hs.len && slots == hs.slots[d..hs.len] + hs.slots[..d] + hs.slots[hs.len..]
    ensures Matches(HSlice(slots, hs.len - d), table, Rotated(m, d))
  {
    var m' := Rotated(m, d);
    forall i | 0 <= i < |m'.slots| ensures slots[i] == HSlot(m'.slots[i].t, table[m'.slots[i].ref]) {
      var o := Origin(m, d, i);
      assert slots[i] == hs.slots[o];
    }
  }

  /** Drop the first points by rotating them behind the others, so that their objects become spare. */
  method RotateOut(hs: HSlice, drop: nat, ghost table: seq<FloatHistogram>, ghost m: Mem) returns (hs': HSlice)
    requires Matches(hs, table, m) && drop <= hs.len
    ensures Matches(hs', table, Rotated(m, drop))
  {
    var tail := hs.slots[..drop];
    var slots := hs.slots[drop..hs.len] + hs.slots[hs.len - drop..];
    slots := slots[..hs.len - drop] + tail + slots[hs.len..];
    assert slots == hs.slots[drop..hs.len] + hs.slots[..drop] + hs.slots[hs.len..];
    hs' := HSlice(slots, hs.len - drop);
    RotationMatches(hs, table, m, drop, slots);
  }

  method TotalHPointSize(hs: HSlice, ghost table: seq<FloatHistogram>, ghost m: Mem) returns (total: int)
    requires Mirrors(hs, table, m)
    ensures total == SizeOf(Points(m))
  {
    total := 0;
    ghost var ps := Points(m);
    for k := 0 to hs.len
      invariant total == SizeOf(ps[..k])
    {
      assert ps[..k + 1] == ps[..k] + [ps[k]];
      SizeOfMore(ps[..k], ps[k]);
      total := total + SampleSize(hs.slots[k].h.content);
    }
    assert ps[..hs.len] == ps;
  }

  /** The first point after `mint`, which the last point is. */
  method FirstAfter(hs: HSlice, mint: int) returns (d: nat)
    requires 0 < hs.len <= |hs.slots| && mint < hs.slots[hs.len - 1].t
    ensures d < hs.len && mint < hs.slots[d].t
    ensures forall x | 0 <= x < d :: hs.slots[x].t <= mint
  {
    d := 0;
    while hs.slots[d].t <= mint
      invariant 0 <= d < hs.len
      invariant forall x | 0 <= x < d :: hs.slots[x].t <= mint
      decreases hs.len - d
    {
      d := d + 1;
    }
  }

  /** The first `d` points are those up to `mint`. */
  ghost predicate Drops(m: Mem, mint: int, d: nat)
    requires WellFormed(m)
  {
    && d <= m.len
    && (forall x | 0 <= x < d :: Points(m)[x].t <= mint)
    && (forall x | d <= x < m.len :: mint < Points(m)[x].t)
  }

  lemma {:induction false} FirstAfterDrops(hs: HSlice, table: seq<FloatHistogram>, m: Mem, mint: int, d: nat)
    requires Matches(hs, table, m) && InOrder(Points(m)) && d < hs.len && mint < hs.slots[d].t
    requires forall x | 0 <= x < d :: hs.slots[x].t <= mint
    ensures Drops(m, mint, d)
  {
    assert Points(m)[d].t == hs.slots[d].t;
    forall x | 0 <= x < m.len ensures Points(m)[x].t == hs.slots[x].t {
    }
  }

  lemma {:induction false} ResumeRotated(m: Mem, d: nat, mint: int)
    requires WellFormed(m) && d < m.len
    ensures var m' := Rotated(m, d);
            0 < m'.len && Resume(Points(m'), mint) == m'.slots[m'.len - 1].t
  {
  }

  lemma WholeRotated(m: Mem)
    requires WellFormed(m)
    ensures Rotated(m, m.len) == m.(len := 0) && Points(m.(len := 0)) == []
  {
    assert m.slots[m.len..m.len] + m.slots[..m.len] + m.slots[m.len..] == m.slots;
  }

  lemma {:induction false} NoneAfterDrops(hs: HSlice, table: seq<FloatHistogram>, m: Mem, mint: int)
    requires Matches(hs, table, m) && InOrder(Points(m)) && (hs.len > 0 ==> hs.slots[hs.len - 1].t <= mint)
    ensures Drops(m, mint, m.len)
  {
    if m.len > 0 { assert Points(m)[m.len - 1].t == hs.slots[m.len - 1].t; }
  }

  /** Keep the histograms of the previous window that are still in this one. `charge` is what the sample count is
      reduced by: the overlapping case takes off the size of the retained points, not that of the dropped ones. */
  method KeepHistograms(hs: HSlice, mint: int, ghost table: seq<FloatHistogram>, ghost m: Mem)
    returns (kept: HSlice, mintHistograms: int, charge: int, ghost drop: nat)
    requires Mirrors(hs, table, m) && InOrder(Points(m))
    ensures drop <= m.len && Matches(kept, table, Rotated(m, drop)) && Drops(m, mint, drop)
    ensures mintHistograms == Resume(Points(Rotated(m, drop)), mint)
    ensures charge == SizeOf(if drop < m.len then Points(Rotated(m, drop)) else Points(m))
  {
    if hs.len > 0 && hs.slots[hs.len - 1].t > mint {
      var d := FirstAfter(hs, mint);
      FirstAfterDrops(hs, table, m, mint, d);
      ResumeRotated(m, d, mint);
      kept := RotateOut(hs, d, table, m);
      drop := d;
      charge := TotalHPointSize(kept, table, Rotated(m, d));
      mintHistograms := kept.slots[kept.len - 1].t;
    } else {
      NoneAfterDrops(hs, table, m, mint);
      WholeRotated(m);
      charge := TotalHPointSize(hs, table, m);
      kept, mintHistograms, drop := HSlice(hs.slots, 0), mint, hs.len;
    }
  }

  method ReadPoints(hs: HSlice, ghost table: seq<FloatHistogram>, ghost m: Mem) returns (points: seq<HPoint>)
    requires Mirrors(hs, table, m)
    ensures points == Points(m)
  {
    points := [];
    for k := 0 to hs.len
      invariant points == Points(m)[..k]
    {
      points := points + [Point(hs.slots[k].t, hs.slots[k].h.content)];
    }
  }

  // ---------------------------------------------------------------- the steps of a range query

  /** `fixed` is set when the selector has an `@` modifier. */
  datatype RangeSelector = RangeSelector(offset: int, span: int, fixed: bool)

  datatype CallResult = NoResult | FloatResult(f: Float) | HistogramResult(h: Histogram)

  /** A range function: it sees the points of the window and the step's timestamp. */
  type RangeFunction = (seq<FPoint>, seq<HPoint>, int) -> CallResult

  /** The end of the window of the step at `ts`. */
  function WindowEnd(sel: RangeSelector, grid: Grid, ts: int): int {
    (if sel.fixed then grid.start else ts) - sel.offset
  }

  /** The window of the step at `ts`, from scratch. */
  ghost function StepWindow<V>(sel: RangeSelector, grid: Grid, series: seq<Sample>, pick: Pick<V>,
                               ts: int): seq<Point<V>> {
    var maxt := WindowEnd(sel, grid, ts);
    Window(series, pick, maxt - sel.span, maxt)
  }

  /** What the range function gives at `ts`; it is not called on an empty window. */
  ghost function StepResult(sel: RangeSelector, grid: Grid, series: seq<Sample>, call: RangeFunction,
                            ts: int): CallResult {
    var floats := StepWindow(sel, grid, series, PickFloat, ts);
    var histograms := StepWindow(sel, grid, series, PickHistogram, ts);
    if floats == [] && histograms == [] then NoResult else call(floats, histograms, ts)
  }

  /** The output series. */
  datatype Output = Output(floats: seq<FPoint>, histograms: seq<HPoint>)

  ghost function StepResults(sel: RangeSelector, grid: Grid, series: seq<Sample>,
                             call: RangeFunction): int -> CallResult {
    ts => StepResult(sel, grid, series, call, ts)
  }

  /** The output has at `t` the result `r` and nothing else. */
  ghost predicate ShowsResult(out: Output, t: int, r: CallResult) {
    && (forall f :: Point(t, f) in out.floats <==> r == FloatResult(f))
    && (forall h :: Point(t, h) in out.histograms <==> r == HistogramResult(h))
  }

  /** The times of points are steps before `past`, in order. */
  ghost predicate AtSteps<V(!new)>(ps: seq<Point<V>>, grid: Grid, past: int)
    requires 0 < grid.interval
  {
    InOrder(ps) && forall p | p in ps :: OnGrid(p.t, grid.start, grid.interval) && p.t < past
  }

  /** The output has the results of the steps before `past`, each at its step, and no other points. */
  ghost predicate ShowsResults(out: Output, results: int -> CallResult, grid: Grid, past: int)
    requires 0 < grid.interval
  {
    && AtSteps(out.floats, grid, past) && AtSteps(out.histograms, grid, past)
    && forall t | OnGrid(t, grid.start, grid.interval) && t < past :: ShowsResult(out, t, results(t))
  }

  /** The output is determined by the results. */
  lemma {:induction false} OneOutput(a: Output, b: Output, results: int -> CallResult, grid: Grid, past: int)
    requires 0 < grid.interval && ShowsResults(a, results, grid, past) && ShowsResults(b, results, grid, past)
    ensures a == b
  {
    forall p ensures p in a.floats <==> p in b.floats {
      if p in a.floats || p in b.floats {
        assert ShowsResult(a, p.t, results(p.t)) && ShowsResult(b, p.t, results(p.t));
        assert p == Point(p.t, p.v);
      }
    }
    forall p ensures p in a.histograms <==> p in b.histograms {
      if p in a.histograms || p in b.histograms {
        assert ShowsResult(a, p.t, results(p.t)) && ShowsResult(b, p.t, results(p.t));
        assert p == Point(p.t, p.v);
      }
    }
    SamePoints(a.floats, b.floats);
    SamePoints(a.histograms, b.histograms);
  }

  /** What a step gives is told by the samples in its window: the call on them, or nothing when there are none. */
  lemma {:induction false} StepResultIs(sel: RangeSelector, grid: Grid, series: seq<Sample>, call: RangeFunction,
                                        ts: int, fs: seq<FPoint>, hs: seq<HPoint>)
    requires Sorted(series)
    requires var end := (if sel.fixed then grid.start else ts) - sel.offset;
             IsFloatWindow(series, end - sel.span, end, fs) && IsHistogramWindow(series, end - sel.span, end, hs)
    ensures StepResult(sel, grid, series, call, ts) == if fs == [] && hs == [] then NoResult else call(fs, hs, ts)
  {
    var end := WindowEnd(sel, grid, ts);
    FloatWindow(series, end - sel.span, end, fs);
    HistogramWindow(series, end - sel.span, end, hs);
  }

  lemma AtStepsMore<V(!new)>(ps: seq<Point<V>>, v: V, grid: Grid, ts: int, next: int)
    requires 0 < grid.interval && AtSteps(ps, grid, ts) && OnGrid(ts, grid.start, grid.interval) && ts < next
    ensures AtSteps(ps, grid, next) && AtSteps(ps + [Point(ts, v)], grid, next)
    ensures forall p :: p in ps + [Point(ts, v)] <==> p in ps || p == Point(ts, v)
    ensures forall v' :: Point(ts, v') !in ps
  {
    forall x | 0 <= x < |ps| ensures ps[x].t < ts {
      assert ps[x] in ps;
    }
  }

  /** The output with the result of the step at `ts`. */
  ghost predicate Appends(out: Output, ts: int, r: CallResult, out': Output) {
    match r
    case NoResult => out' == out
    case FloatResult(f) => out' == Output(out.floats + [Point(ts, f)], out.histograms)
    case HistogramResult(h) => out' == Output(out.floats, out.histograms + [Point(ts, h)])
  }

  /** The output with the result of one more step. */
  lemma {:induction false} ShowsMore(out: Output, out': Output, results: int -> CallResult, grid: Grid, ts: int,
                                     next: int)
    requires 0 < grid.interval && OnGrid(ts, grid.start, grid.interval) && next == ts + grid.interval
    requires ShowsResults(out, results, grid, ts)
    requires Appends(out, ts, results(ts), out')
    ensures ShowsResults(out', results, grid, next)
  {
    var r := results(ts);
    AtStepsMore(out.floats, if r.FloatResult? then r.f else NegInf, grid, ts, next);
    AtStepsMore(out.histograms, if r.HistogramResult? then r.h else Histogram(NegInf, 0, 0), grid, ts, next);
    forall t | OnGrid(t, grid.start, grid.interval) && t < next ensures ShowsResult(out', t, results(t)) {
      NoStepBetween(t, ts, grid.start, grid.interval);
      if t < ts { assert ShowsResult(out, t, results(t)); }
    }
  }

  /** A call on the window of its step gives the result of the step. */
  lemma {:induction false} CallShows(sel: RangeSelector, grid: Grid, series: seq<Sample>, call: RangeFunction, ts: int,
                                     next: int, floats: seq<FPoint>, m: Mem, out: Output, out': Output)
    requires 0 < grid.interval && OnGrid(ts, grid.start, grid.interval) && next == ts + grid.interval
    requires ShowsResults(out, StepResults(sel, grid, series, call), grid, ts)
    requires WellFormed(m) && SlicesAt(sel, grid, series, floats, m, ts)
    requires Appends(out, ts, if |floats| + m.len == 0 then NoResult else call(floats, Points(m), ts), out')
    ensures ShowsResults(out', StepResults(sel, grid, series, call), grid, next)
  {
    var results := StepResults(sel, grid, series, call);
    assert results(ts) == StepResult(sel, grid, series, call, ts);
    ShowsMore(out, out', results, grid, ts, next);
  }

  /** The output before the step at `ts`. */
  ghost predicate ShownBefore(sel: RangeSelector, grid: Grid, series: seq<Sample>, call: RangeFunction, ts: int,
                              out: Output)
    requires 0 < grid.interval
  {
    && OnGrid(ts, grid.start, grid.interval) && WithinEnd(grid, ts)
    && ShowsResults(out, StepResults(sel, grid, series, call), grid, ts)
  }

  lemma BeforeFirstStep(sel: RangeSelector, grid: Grid, series: seq<Sample>, call: RangeFunction)
    requires 0 < grid.interval
    ensures ShownBefore(sel, grid, series, call, grid.start, Output([], []))
  {
    forall t | OnGrid(t, grid.start, grid.interval) ensures grid.start <= t {
      StartsNoLater(t, grid.start, grid.interval);
    }
  }

  lemma ShownUpToEnd(sel: RangeSelector, grid: Grid, series: seq<Sample>, call: RangeFunction, ts: int, out: Output)
    requires 0 < grid.interval && grid.end < ts && ShownBefore(sel, grid, series, call, ts, out)
    ensures ShowsResults(out, StepResults(sel, grid, series, call), grid, grid.end + 1)
  {
  }

  /** The number of samples up to `t`. */
  lemma {:induction false} SamplesUpTo(series: seq<Sample>, m: nat, t: int) returns (q: nat)
    requires Sorted(series) && m <= |series|
    requires forall k | m <= k < |series| :: t < series[k].t
    ensures q <= m
    ensures forall k | 0 <= k < q :: series[k].t <= t
    ensures forall k | q <= k < |series| :: t < series[k].t
  {
    if m == 0 || series[m - 1].t <= t {
      q := m;
    } else {
      q := SamplesUpTo(series, m - 1, t);
    }
  }

  /** Every sample of the window (mint, maxt) beyond the first `q` is within `delta` of its end. */
  ghost predicate Reached(series: seq<Sample>, q: nat, mint: int, maxt: int, delta: int) {
    forall k | q <= k < |series| && mint < series[k].t < maxt :: maxt - delta <= series[k].t
  }

  /** Before the step at `ts` the slices are the points of some first `q` samples, and a buffer that goes one
      interval back, or the whole range, reaches all other samples of the new window. */
  lemma {:induction false} ReadyForStep(sel: RangeSelector, grid: Grid, series: seq<Sample>, ts: int, delta: int)
    returns (q: nat, m0: int)
    requires Sorted(series) && 0 <= sel.span && 0 < grid.interval && (ts == grid.start || !sel.fixed)
    requires Min(sel.span, grid.interval) <= delta && (ts == grid.start ==> delta == sel.span)
    ensures q <= |series| && m0 <= ts - sel.offset - sel.span
    ensures if ts == grid.start then q == 0
            else
              && StepWindow(sel, grid, series, PickFloat, ts - grid.interval) == PointsUpTo(series, q, PickFloat, m0)
              && StepWindow(sel, grid, series, PickHistogram, ts - grid.interval) ==
                 PointsUpTo(series, q, PickHistogram, m0)
    ensures EarlierThan(series, q, ts - sel.offset)
    ensures Reached(series, q, ts - sel.offset - sel.span, ts - sel.offset, delta)
  {
    if ts == grid.start {
      q, m0 := 0, ts - sel.offset - sel.span;
    } else {
      var maxt := ts - grid.interval - sel.offset;
      q := SamplesUpTo(series, |series|, maxt);
      m0 := maxt - sel.span;
      WindowIsPrefix(series, |series|, q, PickFloat, m0, maxt);
      WindowIsPrefix(series, |series|, q, PickHistogram, m0, maxt);
    }
  }

  /** The slices before the step at `ts` are the window of the step before it. */
  ghost predicate SlicesBefore(sel: RangeSelector, grid: Grid, series: seq<Sample>, floats: seq<FPoint>, m: Mem,
                               ts: int)
    requires WellFormed(m)
  {
    if ts == grid.start then floats == [] && Points(m) == []
    else SlicesAt(sel, grid, series, floats, m, ts - grid.interval)
  }

  /** The slices are the window of the step at `ts`. */
  ghost predicate SlicesAt(sel: RangeSelector, grid: Grid, series: seq<Sample>, floats: seq<FPoint>, m: Mem, ts: int)
    requires WellFormed(m)
  {
    && floats == StepWindow(sel, grid, series, PickFloat, ts)
    && Points(m) == StepWindow(sel, grid, series, PickHistogram, ts)
  }

  /** The iterator before the step at `ts`: it has not been sought past the step before, and its buffer reaches back
      at least one interval, or the whole range. */
  ghost predicate Progress(it: BufferedSeriesIterator, sel: RangeSelector, grid: Grid, ts: int)
    reads it, it.ring, it.ring.buf
  {
    && it.Valid()
    && it.ring.delta <= sel.span
    && Min(sel.span, grid.interval) <= it.ring.delta
    && (ts == grid.start ==> it.sought == MIN_INT64 && it.ring.delta == sel.span)
    && (ts != grid.start ==> it.sought <= ts - grid.interval - sel.offset)
  }

  // ---------------------------------------------------------------- the evaluator

  /** The floats after the first `k` samples of the buffer. */
  ghost predicate Collected(buf: seq<Sample>, k: nat, mintFloats: int, floats: seq<FPoint>, floats0: seq<FPoint>)
    requires k <= |buf|
  {
    floats == Collect(floats0, buf, k, PickFloat, mintFloats)
  }

  lemma {:induction false} CollectedNext(buf: seq<Sample>, k: nat, mintFloats: int, floats: seq<FPoint>,
                                         floats0: seq<FPoint>)
    requires k < |buf| && Collected(buf, k, mintFloats, floats, floats0)
    ensures Collected(buf, k + 1, mintFloats,
                      if mintFloats < buf[k].t then Grow(floats, buf[k], PickFloat) else floats, floats0)
  {
  }

  /** The sample count follows the weight of the slices, as long as no two slots have one object. */
  ghost predicate Accounted(floats: seq<FPoint>, m: Mem, count: int, floats': seq<FPoint>, m': Mem, count': int)
    requires WellFormed(m) && WellFormed(m')
  {
    Unshared(m) ==> Unshared(m') && count' - Weight(floats', Points(m')) == count - Weight(floats, Points(m))
  }

  lemma {:induction false} CopyIsAccounted(floats: seq<FPoint>, m: Mem, t: int, h: Histogram, count: int)
    requires WellFormed(m)
    ensures Accounted(floats, m, count, floats, TakeCopy(m, t, h),
                      count + if IsStaleNaN(h.sum) then 0 else SampleSize(h))
  {
    if Unshared(m) {
      TakeCopyKeeps(m, t, h);
      SizeOfMore(Points(m), Point(t, h));
    }
  }

  /** What is left of the points, and how far the sample count moves away from their weight. */
  lemma {:induction false} RetainedPoints(series: seq<Sample>, q: nat, m0: int, mint: int, m: Mem, drop: nat)
    requires WellFormed(m) && Unshared(m) && q <= |series| && m0 <= mint && Drops(m, mint, drop)
    requires Points(m) == PointsUpTo(series, q, PickHistogram, m0)
    ensures var m' := Rotated(m, drop);
            && Unshared(m') && Points(m') == PointsUpTo(series, q, PickHistogram, mint)
            && Drift(Points(m), mint) ==
               SizeOf(Points(m)) - SizeOf(Points(m')) - SizeOf(if drop < m.len then Points(m') else Points(m))
  {
    RotatedKeeps(m, drop);
    LaterStart(series, q, PickHistogram, m0, mint, drop);
    AfterIsSuffix(Points(m), mint, drop);
  }

  /** The slices before a step, as points of the first samples. */
  lemma {:induction false} BeforeStep(sel: RangeSelector, grid: Grid, series: seq<Sample>, ts: int, delta: int,
                                      floats: seq<FPoint>, m: Mem)
    returns (q: nat, m0: int)
    requires Sorted(series) && 0 <= sel.span && 0 < grid.interval && (ts == grid.start || !sel.fixed)
    requires Min(sel.span, grid.interval) <= delta && (ts == grid.start ==> delta == sel.span)
    requires WellFormed(m) && SlicesBefore(sel, grid, series, floats, m, ts)
    ensures q <= |series| && m0 <= ts - sel.offset - sel.span && EarlierThan(series, q, ts - sel.offset)
    ensures floats == PointsUpTo(series, q, PickFloat, m0) && Points(m) == PointsUpTo(series, q, PickHistogram, m0)
    ensures Reached(series, q, ts - sel.offset - sel.span, ts - sel.offset, delta)
  {
    q, m0 := ReadyForStep(sel, grid, series, ts, delta);
  }

  lemma {:induction false} WindowIsStep(sel: RangeSelector, grid: Grid, series: seq<Sample>, ts: int,
                                        floats: seq<FPoint>, r: Refs, pos: nat, read: nat)
    requires ts == grid.start || !sel.fixed
    requires AtWindow(series, floats, r, pos, read, ts - sel.offset - sel.span, ts - sel.offset)
    ensures SlicesAt(sel, grid, series, floats, r.m, ts)
  {
  }

  lemma StillLinked(own: seq<FloatHistogram?>, r: Refs, r': Refs)
    requires Linked(own, r.inner, r.table) && r'.inner == r.inner && r.table <= r'.table
    ensures Linked(own, r'.inner, r'.table)
  {
  }

  lemma EmptiedIsReady(series: seq<Sample>, r: Refs, maxt: int)
    requires Sound(series, r, 0, 0)
    ensures Ready(series, r.(m := r.m.(len := 0)), 0, 0, maxt) && Points(r.m.(len := 0)) == []
  {
  }

  /** The objects by number, the slots in those numbers, and the numbers of the objects of the series. */
  datatype Refs = Refs(table: seq<FloatHistogram>, m: Mem, inner: seq<nat>)

  /** Slots and the histograms of the series have objects of their own, as far as they have not been read. */
  ghost predicate Sound(series: seq<Sample>, r: Refs, from: nat, read: nat) {
    WellFormed(r.m) && Unshared(r.m) && Apart(series, r.inner) && Aside(r.m, series, r.inner, from, read)
  }

  /** How far the samples are read when the iterator stands at `pos`, the first at or after `maxt`. */
  ghost function ReadTo(series: seq<Sample>, pos: nat, maxt: int): nat {
    if pos < |series| && series[pos].t == maxt then pos + 1 else pos
  }

  /** The samples read so far are before `maxt`, and no other object of the series is in a slot. */
  ghost predicate Ready(series: seq<Sample>, r: Refs, pos: nat, read: nat, maxt: int) {
    Sound(series, r, pos, read) && read <= |series| && EarlierThan(series, read, maxt)
  }

  /** The slices are the window (mint, maxt]. */
  ghost predicate AtWindow(series: seq<Sample>, floats: seq<FPoint>, r: Refs, pos: nat, read: nat, mint: int,
                           maxt: int) {
    && Ready(series, r, pos, read, maxt + 1)
    && floats == Window(series, PickFloat, mint, maxt) && Points(r.m) == Window(series, PickHistogram, mint, maxt)
  }

  /** The slots after the sought sample, with the object that the series hands out for it. */
  ghost predicate SoughtInto(series: seq<Sample>, pos: nat, maxt: int, m: Mem, inner: seq<nat>, m': Mem)
    requires WellFormed(m) && pos <= |series|
  {
    if pos == |series| then m' == m
    else
      var own := OwnOf(series, inner, pos);
      (own.Some? ==> own.value < |m.heap|) && m' == Sought(m, series[pos], own, maxt)
  }

  /** The slices after buffer and sought sample. */
  ghost predicate Filled(series: seq<Sample>, pos: nat, maxt: int, floats: seq<FPoint>, m: Mem, inner: seq<nat>,
                         floats': seq<FPoint>, m': Mem)
    requires WellFormed(m) && pos <= |series|
  {
    floats' == WithSought(floats, series, pos, PickFloat, maxt) && SoughtInto(series, pos, maxt, m, inner, m')
  }

  lemma {:induction false} CopiedIsSound(series: seq<Sample>, pos: nat, buf: seq<Sample>, r: Refs, mint: int)
    requires Sound(series, r, pos, pos)
    ensures var m' := Copied(r.m, buf, |buf|, mint);
            Sound(series, r.(m := m'), pos, pos) && Points(m') == Collect(Points(r.m), buf, |buf|, PickHistogram, mint)
  {
    CopiedKeeps(r.m, buf, |buf|, mint);
    AsideSpared(r.m, Copied(r.m, buf, |buf|, mint), series, r.inner, pos, pos);
  }

  lemma {:induction false} SoughtIsReady(series: seq<Sample>, r: Refs, pos: nat, maxt: int, m': Mem)
    requires pos <= |series| && Sound(series, r, pos, pos) && EarlierThan(series, pos, maxt)
    requires SoughtInto(series, pos, maxt, r.m, r.inner, m')
    ensures Ready(series, r.(m := m'), pos, ReadTo(series, pos, maxt), maxt + 1)
    ensures Points(m') == WithSought(Points(r.m), series, pos, PickHistogram, maxt)
  {
    if pos < |series| {
      SoughtKeeps(r.m, series, r.inner, pos, maxt);
    }
  }

  /** Buffered samples and the sought one complete the window. */
  lemma {:induction false} FillIsWindow(series: seq<Sample>, lo: nat, pos: nat, buf: seq<Sample>, floats: seq<FPoint>,
                                        r: Refs, mint: int, maxt: int, q: nat, floats': seq<FPoint>, m': Mem)
    requires Sorted(series) && Sound(series, r, pos, pos) && mint < maxt
    requires q <= pos <= |series| && lo <= pos && buf == series[lo..pos]
    requires floats == PointsUpTo(series, q, PickFloat, mint)
    requires Points(r.m) == PointsUpTo(series, q, PickHistogram, mint)
    requires EarlierThan(series, pos, maxt)
    requires forall k | pos <= k < |series| :: maxt <= series[k].t
    requires forall k | q <= k < lo :: series[k].t <= mint
    requires Filled(series, pos, maxt, Collect(floats, buf, |buf|, PickFloat, Resume(floats, mint)),
                    Copied(r.m, buf, |buf|, Resume(Points(r.m), mint)), r.inner, floats', m')
    ensures AtWindow(series, floats', r.(m := m'), pos, ReadTo(series, pos, maxt), mint, maxt)
  {
    CompleteWindow(series, q, lo, pos, buf, PickFloat, mint, maxt);
    CompleteWindow(series, q, lo, pos, buf, PickHistogram, mint, maxt);
    var mintH := Resume(Points(r.m), mint);
    CopiedIsSound(series, pos, buf, r, mintH);
    SoughtIsReady(series, r.(m := Copied(r.m, buf, |buf|, mintH)), pos, maxt, m');
  }

  lemma {:induction false} SoughtIsAccounted(floats: seq<FPoint>, m: Mem, series: seq<Sample>, inner: seq<nat>, k: nat,
                                             maxt: int, count: int, floats': seq<FPoint>, count': int)
    requires WellFormed(m) && Unshared(m) && k < |series| && Apart(series, inner) && Aside(m, series, inner, k, k)
    requires OwnOf(series, inner, k).Some? ==> OwnOf(series, inner, k).value < |m.heap|
    requires var m' := Sought(m, series[k], OwnOf(series, inner, k), maxt);
             count' ==
               count + |floats'| - |floats| + if m'.len == m.len then 0 else SampleSize(m'.heap[m'.slots[m.len].ref])
    ensures Accounted(floats, m, count, floats', Sought(m, series[k], OwnOf(series, inner, k), maxt), count')
  {
    var m' := Sought(m, series[k], OwnOf(series, inner, k), maxt);
    SoughtKeeps(m, series, inner, k, maxt);
    if m'.len != m.len {
      SizeOfMore(Points(m), Points(m')[m.len]);
    }
  }

  lemma {:induction false} SoundIsIntact(it: BufferedSeriesIterator, r: Refs, read: nat)
    requires Owned(it.series, it.own) && Linked(it.own, r.inner, r.table) && Holds(r.table, r.m.heap)
    requires Sound(it.series, r, it.pos, read)
    ensures it.Intact()
  {
  }

  /** After a Seek nothing at or after the iterator has been read, and the samples that the buffer lacks are old. */
  lemma {:induction false} SoughtIsSound(series: seq<Sample>, r: Refs, before: nat, read: nat, pos: nat, lo: nat,
                                         q: nat, mint: int, maxt: int, delta: int)
    requires Ready(series, r, before, read, maxt) && before <= pos <= |series| && lo <= pos && q <= |series|
    requires EarlierThan(series, q, maxt) && Reached(series, q, mint, maxt, delta)
    requires forall k | pos <= k < |series| :: maxt <= series[k].t
    requires EarlierThan(series, pos, maxt)
    requires forall k | 0 <= k < |series| && maxt - delta <= series[k].t < maxt :: lo <= k < pos
    ensures read <= pos && q <= pos && Sound(series, r, pos, pos)
    ensures forall k | q <= k < lo :: series[k].t <= mint
  {
    assert pos < |series| ==> maxt <= series[pos].t;
  }

  class Evaluator {
    var currentSamples: int
    const maxSamples: int

    constructor (maxSamples: int)
      ensures this.maxSamples == maxSamples && currentSamples == 0
    {
      this.maxSamples := maxSamples;
      currentSamples := 0;
    }

    /** Keep the floats of the previous window that are still in this one. */
    method KeepFloats(floats: seq<FPoint>, mint: int) returns (kept: seq<FPoint>, mintFloats: int, ghost drop: nat)
      requires InOrder(floats)
      modifies this`currentSamples
      ensures drop <= |floats| && kept == floats[drop..]
      ensures forall x | 0 <= x < drop :: floats[x].t <= mint
      ensures forall x | drop <= x < |floats| :: mint < floats[x].t
      ensures mintFloats == Resume(kept, mint)
      ensures currentSamples == old(currentSamples) - drop
    {
      if |floats| > 0 && floats[|floats| - 1].t > mint {
        var d := 0;
        while floats[d].t <= mint
          invariant 0 <= d < |floats|
          invariant forall x | 0 <= x < d :: floats[x].t <= mint
          decreases |floats| - d
        {
          d := d + 1;
        }
        currentSamples := currentSamples - d;
        kept, drop := floats[d..], d;
        mintFloats := kept[|kept| - 1].t;
      } else {
        currentSamples := currentSamples - |floats|;
        kept, mintFloats, drop := [], mint, |floats|;
      }
    }

    method AddFloat(floats: seq<FPoint>, t: int, f: Float) returns (ok: bool, floats': seq<FPoint>)
      modifies this`currentSamples
      ensures currentSamples == old(currentSamples) + 1
      ensures ok == (currentSamples <= maxSamples)
      ensures floats' == floats + [Point(t, f)]
    {
      currentSamples := currentSamples + 1;
      ok := currentSamples <= maxSamples;
      floats' := floats + [Point(t, f)];
    }

    /** Give the slot of a stale marker back, and count any other point. */
    method Settle(pushed: HSlice, ghost table: seq<FloatHistogram>, ghost m: Mem) returns (ok: bool, hs': HSlice)
      requires Mirrors(pushed, table, m) && m.len > 0
      modifies this`currentSamples
      ensures var h := m.heap[m.slots[m.len - 1].ref];
              && Mirrors(hs', table, if IsStaleNaN(h.sum) then m.(len := m.len - 1) else m)
              && currentSamples == old(currentSamples) + if IsStaleNaN(h.sum) then 0 else SampleSize(h)
      ensures !ok ==> currentSamples > maxSamples
    {
      var h := pushed.slots[pushed.len - 1].h.content;
      if IsStaleNaN(h.sum) {
        return true, HSlice(pushed.slots, pushed.len - 1);
      }
      currentSamples := currentSamples + SampleSize(h);
      ok, hs' := currentSamples <= maxSamples, pushed;
    }

    /** Copy a histogram into the next slot. */
    method AddHistogram(hs: HSlice, t: int, h: Histogram, ghost table: seq<FloatHistogram>, ghost m: Mem)
      returns (ok: bool, hs': HSlice, ghost table': seq<FloatHistogram>)
      requires Mirrors(hs, table, m)
      modifies this`currentSamples, table
      ensures Mirrors(hs', table', TakeCopy(m, t, h))
      ensures table <= table' && forall r | |table| <= r < |table'| :: fresh(table'[r])
      ensures !ok ==> currentSamples > maxSamples
      ensures currentSamples == old(currentSamples) + if IsStaleNaN(h.sum) then 0 else SampleSize(h)
    {
      hs', table' := PushHistogram(hs, t, h, table, m);
      ok, hs' := Settle(hs', table', PushCopy(m, t, h));
    }

    /** One sample of the buffer. */
    method TakeBuffered(s: Sample, mintFloats: int, mintHistograms: int, floats: seq<FPoint>, hs: HSlice,
                        ghost table: seq<FloatHistogram>, ghost m: Mem)
      returns (ok: bool, floats': seq<FPoint>, hs': HSlice, ghost table': seq<FloatHistogram>, ghost m': Mem)
      requires Mirrors(hs, table, m)
      modifies this`currentSamples, table
      ensures Mirrors(hs', table', m')
      ensures m' == if s.HistogramSample? && mintHistograms < s.t then TakeCopy(m, s.t, s.h) else m
      ensures table <= table' && forall r | |table| <= r < |table'| :: fresh(table'[r])
      ensures floats' == if mintFloats < s.t then Grow(floats, s, PickFloat) else floats
      ensures !ok ==> currentSamples > maxSamples
      ensures Accounted(floats, m, old(currentSamples), floats', m', currentSamples)
    {
      ok, floats', hs', table', m' := true, floats, hs, table, m;
      match s
      case HistogramSample(t, h) =>
        if t > mintHistograms {
          ok, hs', table' := AddHistogram(hs, t, h, table, m);
          m' := TakeCopy(m, t, h);
          CopyIsAccounted(floats, m, t, h, old(currentSamples));
        }
      case FloatSample(t, f) =>
        if IsStaleNaN(f) {
        } else if t > mintFloats {
          ok, floats' := AddFloat(floats, t, f);
        }
    }

    /** The next sample of the buffer. */
    method TakeNext(buf: seq<Sample>, k: nat, mintFloats: int, mintHistograms: int, floats: seq<FPoint>, hs: HSlice,
                    ghost table: seq<FloatHistogram>, ghost m: Mem, ghost floats0: seq<FPoint>, ghost m0: Mem,
                    ghost count0: int)
      returns (ok: bool, next: nat, floats': seq<FPoint>, hs': HSlice, ghost table': seq<FloatHistogram>, ghost m': Mem)
      requires k < |buf| && Mirrors(hs, table, m) && WellFormed(m0) && m == Copied(m0, buf, k, mintHistograms)
      requires Collected(buf, k, mintFloats, floats, floats0)
      requires Accounted(floats0, m0, count0, floats, m, currentSamples)
      modifies this`currentSamples, table
      ensures next == k + 1 && Mirrors(hs', table', m') && m' == Copied(m0, buf, next, mintHistograms)
      ensures table <= table' && forall r | |table| <= r < |table'| :: fresh(table'[r])
      ensures Collected(buf, next, mintFloats, floats', floats0)
      ensures !ok ==> currentSamples > maxSamples
      ensures Accounted(floats0, m0, count0, floats', m', currentSamples)
    {
      CollectedNext(buf, k, mintFloats, floats, floats0);
      ok, floats', hs', table', m' := TakeBuffered(buf[k], mintFloats, mintHistograms, floats, hs, table, m);
      next := k + 1;
    }

    /** The loop over the buffer. */
    method CollectBuffered(buf: seq<Sample>, mintFloats: int, mintHistograms: int, floats: seq<FPoint>, hs: HSlice,
                           ghost table: seq<FloatHistogram>, ghost m: Mem)
      returns (ok: bool, floats': seq<FPoint>, hs': HSlice, ghost table': seq<FloatHistogram>, ghost m': Mem)
      requires Mirrors(hs, table, m)
      modifies this`currentSamples, table
      ensures Mirrors(hs', table', m') && (ok ==> m' == Copied(m, buf, |buf|, mintHistograms))
      ensures table <= table' && forall r | |table| <= r < |table'| :: fresh(table'[r])
      ensures ok ==> Collected(buf, |buf|, mintFloats, floats', floats)
      ensures !ok ==> currentSamples > maxSamples
      ensures Accounted(floats, m, old(currentSamples), floats', m', currentSamples)
    {
      ok, floats', hs', table', m' := true, floats, hs, table, m;
      var k: nat := 0;
      while k < |buf|
        invariant k <= |buf| && Mirrors(hs', table', m') && m' == Copied(m, buf, k, mintHistograms)
        invariant table <= table' && forall r | |table| <= r < |table'| :: fresh(table'[r])
        invariant Collected(buf, k, mintFloats, floats', floats)
        invariant Accounted(floats, m, old(currentSamples), floats', m', currentSamples)
        decreases |buf| - k
      {
        ok, k, floats', hs', table', m' :=
          TakeNext(buf, k, mintFloats, mintHistograms, floats', hs', table', m', floats, m, old(currentSamples));
        if !ok { return; }
      }
    }

    /** The sample the iterator was sought to is in the window when it lies exactly at its end. */
    method TakeSought(it: BufferedSeriesIterator, maxt: int, floats: seq<FPoint>, hs: HSlice,
                      ghost table: seq<FloatHistogram>, ghost m: Mem, ghost inner: seq<nat>)
      returns (ok: bool, floats': seq<FPoint>, hs': HSlice, ghost table': seq<FloatHistogram>)
      requires Owned(it.series, it.own) && it.pos < |it.series| && Mirrors(hs, table, m) && Linked(it.own, inner, table)
      modifies this`currentSamples, table
      ensures Mirrors(hs', table', Sought(m, it.series[it.pos], OwnOf(it.series, inner, it.pos), maxt))
      ensures table <= table' && forall r | |table| <= r < |table'| :: fresh(table'[r])
      ensures floats' == if it.series[it.pos].t == maxt then Grow(floats, it.series[it.pos], PickFloat) else floats
      ensures !ok ==> currentSamples > maxSamples
      ensures var m' := Sought(m, it.series[it.pos], OwnOf(it.series, inner, it.pos), maxt);
              currentSamples == old(currentSamples) + |floats'| - |floats| +
                                if m'.len == m.len then 0 else SampleSize(m'.heap[m'.slots[m.len].ref])
    {
      ok, floats', hs', table' := true, floats, hs, table;
      match it.series[it.pos]
      case HistogramSample(t, h) =>
        if t == maxt {
          ghost var pushed := if it.own == [] then PushCopy(m, t, h) else PushRef(m, t, inner[it.pos]);
          hs', table' := PushCurrent(it, hs, table, m, inner);
          ok, hs' := Settle(hs', table', pushed);
        }
      case FloatSample(t, f) =>
        if t == maxt && !IsStaleNaN(f) {
          ok, floats' := AddFloat(floats, t, f);
        }
    }

    /** The sought sample, if there is one at the end of the window. */
    method TakeLast(it: BufferedSeriesIterator, maxt: int, floats: seq<FPoint>, hs: HSlice, ghost r: Refs)
      returns (ok: bool, floats': seq<FPoint>, hs': HSlice, ghost r': Refs)
      requires Owned(it.series, it.own) && it.pos <= |it.series| && Sound(it.series, r, it.pos, it.pos)
      requires Mirrors(hs, r.table, r.m) && Linked(it.own, r.inner, r.table)
      modifies this`currentSamples, r.table
      ensures Mirrors(hs', r'.table, r'.m) && r'.inner == r.inner
      ensures r.table <= r'.table && forall x | |r.table| <= x < |r'.table| :: fresh(r'.table[x])
      ensures Filled(it.series, it.pos, maxt, floats, r.m, r.inner, floats', r'.m)
      ensures !ok ==> currentSamples > maxSamples
      ensures Accounted(floats, r.m, old(currentSamples), floats', r'.m, currentSamples)
    {
      ok, floats', hs', r' := true, floats, hs, r;
      if it.pos < |it.series| {
        ghost var table;
        ok, floats', hs', table := TakeSought(it, maxt, floats, hs, r.table, r.m, r.inner);
        r' := Refs(table, Sought(r.m, it.series[it.pos], OwnOf(it.series, r.inner, it.pos), maxt), r.inner);
        SoughtIsAccounted(floats, r.m, it.series, r.inner, it.pos, maxt, old(currentSamples), floats', currentSamples);
      }
    }

    /** Buffered samples first, then the sought one. The buffer is the run of the series from `lo` to `pos`. */
    method Fill(it: BufferedSeriesIterator, buf: seq<Sample>, maxt: int, mintFloats: int, mintHistograms: int,
                floats: seq<FPoint>, hs: HSlice, ghost mint: int, ghost q: nat, ghost r: Refs)
      returns (ok: bool, floats': seq<FPoint>, hs': HSlice, ghost r': Refs)
      requires it.Valid() && Owned(it.series, it.own) && mint < maxt
      requires Mirrors(hs, r.table, r.m) && Linked(it.own, r.inner, r.table) && Sound(it.series, r, it.pos, it.pos)
      requires q <= it.pos && buf == it.series[it.lo..it.pos]
      requires floats == PointsUpTo(it.series, q, PickFloat, mint)
      requires Points(r.m) == PointsUpTo(it.series, q, PickHistogram, mint)
      requires mintFloats == Resume(floats, mint) && mintHistograms == Resume(Points(r.m), mint)
      requires EarlierThan(it.series, it.pos, maxt)
      requires forall k | it.pos <= k < |it.series| :: maxt <= it.series[k].t
      requires forall k | q <= k < it.lo :: it.series[k].t <= mint
      modifies this`currentSamples, r.table
      ensures Mirrors(hs', r'.table, r'.m) && r'.inner == r.inner
      ensures r.table <= r'.table && forall x | |r.table| <= x < |r'.table| :: fresh(r'.table[x])
      ensures ok ==> AtWindow(it.series, floats', r', it.pos, ReadTo(it.series, it.pos, maxt), mint, maxt)
      ensures !ok ==> currentSamples > maxSamples
      ensures Accounted(floats, r.m, old(currentSamples), floats', r'.m, currentSamples)
    {
      ghost var table, m;
      ok, floats', hs', table, m := CollectBuffered(buf, mintFloats, mintHistograms, floats, hs, r.table, r.m);
      r' := Refs(table, m, r.inner);
      if ok {
        CopiedIsSound(it.series, it.pos, buf, r, mintHistograms);
        StillLinked(it.own, r, r');
        ok, floats', hs', r' := TakeLast(it, maxt, floats', hs', r');
        FillIsWindow(it.series, it.lo, it.pos, buf, floats, r, mint, maxt, q, floats', r'.m);
      }
    }

    /** What is left of the slices of an earlier window, which hold the points after `m0` of the first `q` samples. */
    method Retain(mint: int, floats: seq<FPoint>, hs: HSlice, ghost series: seq<Sample>, ghost q: nat, ghost m0: int,
                  ghost r: Refs)
      returns (floats': seq<FPoint>, mintFloats: int, hs': HSlice, mintHistograms: int, ghost drop: nat)
      requires Sorted(series) && Mirrors(hs, r.table, r.m) && Unshared(r.m) && q <= |series| && m0 <= mint
      requires floats == PointsUpTo(series, q, PickFloat, m0) && Points(r.m) == PointsUpTo(series, q, PickHistogram, m0)
      modifies this`currentSamples
      ensures drop <= r.m.len && Mirrors(hs', r.table, Rotated(r.m, drop)) && Unshared(Rotated(r.m, drop))
      ensures floats' == PointsUpTo(series, q, PickFloat, mint)
      ensures Points(Rotated(r.m, drop)) == PointsUpTo(series, q, PickHistogram, mint)
      ensures mintFloats == Resume(floats', mint) && mintHistograms == Resume(Points(Rotated(r.m, drop)), mint)
      ensures currentSamples - Weight(floats', Points(Rotated(r.m, drop))) ==
              old(currentSamples) - Weight(floats, Points(r.m)) + Drift(Points(r.m), mint)
    {
      PointsInOrder(series, q, PickFloat, m0);
      PointsInOrder(series, q, PickHistogram, m0);
      ghost var dropFloats;
      floats', mintFloats, dropFloats := KeepFloats(floats, mint);
      LaterStart(series, q, PickFloat, m0, mint, dropFloats);
      var charge;
      hs', mintHistograms, charge, drop := KeepHistograms(hs, mint, r.table, r.m);
      RetainedPoints(series, q, m0, mint, r.m, drop);
      currentSamples := currentSamples - charge;
    }

    /** Seek the end of the window and fill the slices up from what is retained. */
    method SeekAndFill(it: BufferedSeriesIterator, mint: int, maxt: int, floats: seq<FPoint>, mintFloats: int,
                       hs: HSlice, mintHistograms: int, ghost q: nat, ghost r: Refs, ghost read: nat)
      returns (ok: bool, floats': seq<FPoint>, hs': HSlice, ghost r': Refs, ghost read': nat)
      requires it.Valid() && Owned(it.series, it.own) && q <= |it.series| && mint < maxt
      requires Mirrors(hs, r.table, r.m) && Linked(it.own, r.inner, r.table) && Ready(it.series, r, it.pos, read, maxt)
      requires floats == PointsUpTo(it.series, q, PickFloat, mint)
      requires Points(r.m) == PointsUpTo(it.series, q, PickHistogram, mint)
      requires mintFloats == Resume(floats, mint) && mintHistograms == Resume(Points(r.m), mint)
      requires EarlierThan(it.series, q, maxt)
      requires it.sought <= maxt && MIN_INT64 < maxt - it.ring.delta
      requires Reached(it.series, q, mint, maxt, it.ring.delta)
      modifies this`currentSamples, it, it.ring, it.ring.buf, r.table
      ensures it.Valid() && it.ring.delta == old(it.ring.delta) && it.sought <= maxt
      ensures it.ring.buf == old(it.ring.buf) || fresh(it.ring.buf)
      ensures Mirrors(hs', r'.table, r'.m) && Unshared(r'.m) && r'.inner == r.inner
      ensures r.table <= r'.table && forall x | |r.table| <= x < |r'.table| :: fresh(r'.table[x])
      ensures ok ==> AtWindow(it.series, floats', r', it.pos, read', mint, maxt)
      ensures !ok ==> currentSamples > maxSamples
      ensures Accounted(floats, r.m, old(currentSamples), floats', r'.m, currentSamples)
    {
      SoundIsIntact(it, r, read);
      ghost var before := it.pos;
      it.Seek(maxt);
      SoughtIsSound(it.series, r, before, read, it.pos, it.lo, q, mint, maxt, it.ring.delta);
      var buf := it.Buffer();
      ok, floats', hs', r' := Fill(it, buf, maxt, mintFloats, mintHistograms, floats, hs, mint, q, r);
      read' := ReadTo(it.series, it.pos, maxt);
    }

    /** Move the slices of an earlier window to the window (mint, maxt]. They are the points after `m0` of the first
        `q` samples, and every other sample of the new window lies within the reach of the buffer. */
    method MatrixIterSlice(it: BufferedSeriesIterator, mint: int, maxt: int, floats: seq<FPoint>, hs: HSlice,
                           ghost q: nat, ghost m0: int, ghost r: Refs, ghost read: nat)
      returns (ok: bool, floats': seq<FPoint>, hs': HSlice, ghost r': Refs, ghost read': nat)
      requires it.Valid() && Owned(it.series, it.own) && q <= |it.series| && m0 <= mint <= maxt
      requires Mirrors(hs, r.table, r.m) && Linked(it.own, r.inner, r.table) && Ready(it.series, r, it.pos, read, maxt)
      requires floats == PointsUpTo(it.series, q, PickFloat, m0)
      requires Points(r.m) == PointsUpTo(it.series, q, PickHistogram, m0)
      requires EarlierThan(it.series, q, maxt)
      requires it.sought <= maxt && MIN_INT64 < maxt - it.ring.delta
      requires Reached(it.series, q, mint, maxt, it.ring.delta)
      modifies this`currentSamples, it, it.ring, it.ring.buf, r.table
      ensures it.Valid() && it.ring.delta == old(it.ring.delta) && it.sought <= maxt
      ensures it.ring.buf == old(it.ring.buf) || fresh(it.ring.buf)
      ensures Mirrors(hs', r'.table, r'.m) && Unshared(r'.m) && r'.inner == r.inner
      ensures r.table <= r'.table && forall x | |r.table| <= x < |r'.table| :: fresh(r'.table[x])
      ensures ok ==> AtWindow(it.series, floats', r', it.pos, read', mint, maxt)
      ensures !ok ==> currentSamples > maxSamples
      ensures currentSamples - Weight(floats', Points(r'.m)) ==
              old(currentSamples) - Weight(floats, Points(r.m)) + Drift(Points(r.m), mint)
    {
      var mintFloats, mintHistograms;
      ghost var drop;
      floats', mintFloats, hs', mintHistograms, drop := Retain(mint, floats, hs, it.series, q, m0, r);
      AsideRotated(r.m, drop, it.series, r.inner, it.pos, read);
      r', read' := r.(m := Rotated(r.m, drop)), read;
      if mint == maxt {
        EmptyWindow(it.series, q, PickFloat, mint);
        EmptyWindow(it.series, q, PickHistogram, mint);
        ok := true;
        return;
      }
      ok, floats', hs', r', read' := SeekAndFill(it, mint, maxt, floats', mintFloats, hs', mintHistograms, q, r', read);
    }

    /** Bring the slices to the step at `ts`. With an `@` modifier only the first step evaluates the selector. */
    method MoveWindow(it: BufferedSeriesIterator, sel: RangeSelector, grid: Grid, ts: int, floats: seq<FPoint>,
                      hs: HSlice, ghost r: Refs, ghost read: nat)
      returns (ok: bool, floats': seq<FPoint>, hs': HSlice, ghost r': Refs, ghost read': nat)
      requires Progress(it, sel, grid, ts) && Owned(it.series, it.own) && Mirrors(hs, r.table, r.m)
      requires Linked(it.own, r.inner, r.table)
      requires 0 <= sel.span && 0 < grid.interval && MIN_INT64 < grid.start - sel.offset - sel.span
      requires grid.start <= ts && SlicesBefore(sel, grid, it.series, floats, r.m, ts)
      requires Unshared(r.m) && (ts == grid.start || !sel.fixed ==> Ready(it.series, r, it.pos, read, ts - sel.offset))
      modifies this`currentSamples, it, it.ring, it.ring.buf, r.table
      ensures it.Valid() && it.ring.delta == old(it.ring.delta) && it.sought <= ts - sel.offset
      ensures it.ring.buf == old(it.ring.buf) || fresh(it.ring.buf)
      ensures Mirrors(hs', r'.table, r'.m) && Unshared(r'.m) && r'.inner == r.inner
      ensures r.table <= r'.table && forall x | |r.table| <= x < |r'.table| :: fresh(r'.table[x])
      ensures ok ==> SlicesAt(sel, grid, it.series, floats', r'.m, ts)
      ensures ok && !sel.fixed ==> Ready(it.series, r', it.pos, read', ts - sel.offset + 1)
      ensures !ok ==> currentSamples > maxSamples
    {
      if ts == grid.start || !sel.fixed {
        var maxt := ts - sel.offset;
        var mint := maxt - sel.span;
        ghost var q, m0 := BeforeStep(sel, grid, it.series, ts, it.ring.delta, floats, r.m);
        ok, floats', hs', r', read' := MatrixIterSlice(it, mint, maxt, floats, hs, q, m0, r, read);
        if ok { WindowIsStep(sel, grid, it.series, ts, floats', r', it.pos, read'); }
      } else {
        ok, floats', hs', r', read' := true, floats, hs, r, read;
      }
    }

    /** The function is called on a window that is not empty; from then on a buffer of no more than an interval will
        do. */
    method Call(it: BufferedSeriesIterator, sel: RangeSelector, grid: Grid, call: RangeFunction, ts: int,
                floats: seq<FPoint>, hs: HSlice, out: Output, ghost r: Refs, ghost next: int)
      returns (out': Output)
      requires it.Valid() && it.ring.delta <= sel.span && Min(sel.span, grid.interval) <= it.ring.delta
      requires Mirrors(hs, r.table, r.m) && SlicesAt(sel, grid, it.series, floats, r.m, ts)
      requires 0 < grid.interval && OnGrid(ts, grid.start, grid.interval) && next == ts + grid.interval
      requires ShowsResults(out, StepResults(sel, grid, it.series, call), grid, ts)
      modifies it, it.ring
      ensures it.Valid() && it.ring.delta <= sel.span && Min(sel.span, grid.interval) <= it.ring.delta
      ensures it.ring.buf == old(it.ring.buf) && it.pos == old(it.pos) && it.sought == old(it.sought)
      ensures ShowsResults(out', StepResults(sel, grid, it.series, call), grid, next)
    {
      out' := out;
      if |floats| + hs.len == 0 {
        CallShows(sel, grid, it.series, call, ts, next, floats, r.m, out, out');
        return;
      }
      var histograms := ReadPoints(hs, r.table, r.m);
      match call(floats, histograms, ts) {
        case NoResult =>
        case FloatResult(f) => out' := Output(out.floats + [Point(ts, f)], out.histograms);
        case HistogramResult(h) => out' := Output(out.floats, out.histograms + [Point(ts, h)]);
      }
      CallShows(sel, grid, it.series, call, ts, next, floats, r.m, out, out');
      it.ReduceDelta(if sel.span > grid.interval then grid.interval else sel.span);
    }

    /** One step: the window, the call, and from then on a buffer of no more than an interval. */
    method Step(it: BufferedSeriesIterator, sel: RangeSelector, grid: Grid, call: RangeFunction, ts: int,
                floats: seq<FPoint>, hs: HSlice, out: Output, ghost r: Refs, ghost read: nat)
      returns (ok: bool, next: int, floats': seq<FPoint>, hs': HSlice, out': Output, ghost r': Refs, ghost read': nat)
      requires Progress(it, sel, grid, ts) && Owned(it.series, it.own) && Mirrors(hs, r.table, r.m)
      requires Linked(it.own, r.inner, r.table)
      requires 0 <= sel.span && 0 < grid.interval && MIN_INT64 < grid.start - sel.offset - sel.span
      requires grid.start <= ts <= grid.end && SlicesBefore(sel, grid, it.series, floats, r.m, ts)
      requires Unshared(r.m) && (ts == grid.start || !sel.fixed ==> Ready(it.series, r, it.pos, read, ts - sel.offset))
      requires ShownBefore(sel, grid, it.series, call, ts, out)
      modifies this`currentSamples, it, it.ring, it.ring.buf, r.table
      ensures next == ts + grid.interval && Progress(it, sel, grid, next)
      ensures it.ring.buf == old(it.ring.buf) || fresh(it.ring.buf)
      ensures Mirrors(hs', r'.table, r'.m) && Unshared(r'.m) && Linked(it.own, r'.inner, r'.table)
      ensures r.table <= r'.table && forall x | |r.table| <= x < |r'.table| :: fresh(r'.table[x])
      ensures ok ==> SlicesBefore(sel, grid, it.series, floats', r'.m, next)
      ensures ok && !sel.fixed ==> Ready(it.series, r', it.pos, read', next - sel.offset)
      ensures ok ==> ShownBefore(sel, grid, it.series, call, next, out')
      ensures !ok ==> currentSamples > maxSamples
    {
      ok, floats', hs', r', read' := MoveWindow(it, sel, grid, ts, floats, hs, r, read);
      next, out' := ts + grid.interval, out;
      StillLinked(it.own, r, r');
      StepMade(grid, ts, next);
      if ok {
        out' := Call(it, sel, grid, call, ts, floats', hs', out, r', next);
      }
    }

    /** The slices left over from the series before are emptied, and their slots kept. */
    method Empty(floats: seq<FPoint>, hs: HSlice, ghost series: seq<Sample>, ghost r: Refs, ghost maxt: int)
      returns (hs': HSlice, ghost r': Refs)
      requires Mirrors(hs, r.table, r.m) && Sound(series, r, 0, 0)
      modifies this`currentSamples
      ensures currentSamples == old(currentSamples) - Weight(floats, Points(r.m))
      ensures Mirrors(hs', r'.table, r'.m) && r'.table == r.table && r'.inner == r.inner
      ensures Ready(series, r', 0, 0, maxt) && Points(r'.m) == []
    {
      var total := TotalHPointSize(hs, r.table, r.m);
      currentSamples := currentSamples - (|floats| + total);
      EmptiedIsReady(series, r, maxt);
      hs', r' := HSlice(hs.slots, 0), r.(m := r.m.(len := 0));
    }

    /** A range function over one series, for every step of the grid. The slices left over from the series before are
        emptied and their slots reused. The series' own objects, if it hands any out, are not in these slots and not
        shared. */
    method EvalSeries(sel: RangeSelector, grid: Grid, series: seq<Sample>, own: seq<FloatHistogram?>,
                      call: RangeFunction, floats0: seq<FPoint>, hs0: HSlice, ghost r0: Refs)
      returns (ok: bool, out: Output, floats: seq<FPoint>, hs: HSlice, ghost r: Refs)
      requires Sorted(series) && Owned(series, own) && Mirrors(hs0, r0.table, r0.m) && Linked(own, r0.inner, r0.table)
      requires Sound(series, r0, 0, 0)
      requires 0 <= sel.span && 0 < grid.interval
      requires MIN_INT64 < grid.start - sel.offset - sel.span
      modifies this`currentSamples, r0.table
      ensures ok ==> ShowsResults(out, StepResults(sel, grid, series, call), grid, grid.end + 1)
      ensures !ok ==> currentSamples > maxSamples
      ensures Mirrors(hs, r.table, r.m) && Unshared(r.m)
    {
      floats, out, ok := [], Output([], []), true;
      hs, r := Empty(floats0, hs0, series, r0, grid.start - sel.offset);
      var it := new BufferedSeriesIterator(series, own, sel.span);
      ghost var read: nat := 0;
      var ts := grid.start;
      BeforeFirstStep(sel, grid, series, call);
      while ts <= grid.end
        invariant grid.start <= ts && ok
        invariant ShownBefore(sel, grid, series, call, ts, out)
        invariant Progress(it, sel, grid, ts) && fresh(it.ring.buf)
        invariant Mirrors(hs, r.table, r.m) && Unshared(r.m) && Linked(own, r.inner, r.table)
        invariant r0.table <= r.table && forall x | |r0.table| <= x < |r.table| :: fresh(r.table[x])
        invariant SlicesBefore(sel, grid, series, floats, r.m, ts)
        invariant ts == grid.start || !sel.fixed ==> Ready(series, r, it.pos, read, ts - sel.offset)
        decreases grid.end - ts
      {
        ok, ts, floats, hs, out, r, read := Step(it, sel, grid, call, ts, floats, hs, out, r, read);
        if !ok { return; }
      }
      ShownUpToEnd(sel, grid, series, call, ts, out);
    }
  }
}
