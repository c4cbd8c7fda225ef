/**
 Subqueries (promql/engine.go, the SubqueryExpr case of eval and evalSubquery):
 one pass over an absolutely aligned grid serves all steps of the outer query.
 Its result is read back through storageSeriesIterator (promql/value.go).
 */
module Subquery {
  import opened Prelude
  import opened SampleBuffer
  import opened SlidingWindow
  import opened Windows
  import opened RangeEval

  // ---------------------------------------------------------------- the aligned grid

  /** Division as in Go: truncated toward zero. */
  function GoDiv(a: int, b: int): int
    requires 0 < b
  {
    if 0 <= a then a / b else -((-a) / b)
  }

  /** The start of the inner evaluation, for an outer window that starts after `x`. */
  function AlignedStart(x: int, step: int): int
    requires 0 < step
  {
    var s := step * GoDiv(x, step);
    if s <= x then s + step else s
  }

  ghost predicate Multiple(u: int, step: int) {
    exists k :: u == step * k
  }

  /** Two different multiples of the step are at least a step apart. */
  lemma {:induction false} MultiplesApart(u: int, v: int, step: int)
    requires 0 < step && Multiple(u, step) && Multiple(v, step) && u < v
    ensures u + step <= v
  {
    var j :| u == step * j;
    var k :| v == step * k;
    if k < j + 1 {
      Ordered(step, k, j);
      assert false;
    }
    Ordered(step, j + 1, k);
    assert step * (j + 1) == step * j + step;
  }

  lemma {:induction false} Ordered(step: int, j: int, k: int)
    requires 0 < step && j <= k
    ensures step * j <= step * k
  {
  }

  lemma {:induction false} NextMultiple(u: int, step: int)
    requires Multiple(u, step)
    ensures Multiple(u + step, step)
  {
    var k :| u == step * k;
    assert u + step == step * (k + 1);
  }

  /** The least multiple of the step after `x`, whatever the sign of `x`. */
  lemma {:induction false} AlignedStartIsLeast(x: int, step: int)
    requires 0 < step
    ensures Multiple(AlignedStart(x, step), step)
    ensures x < AlignedStart(x, step)
    ensures forall u | Multiple(u, step) && x < u :: AlignedStart(x, step) <= u
  {
    var s := AlignedStart(x, step);
    var q := GoDiv(x, step);
    assert s == step * if step * q <= x then q + 1 else q;
    assert x < s <= x + step;
    forall u | Multiple(u, step) && x < u ensures s <= u {
      if u < s { MultiplesApart(u, s, step); }
    }
  }

  /** The grid from an aligned start holds exactly the multiples from there on. */
  lemma {:induction false} GridOfMultiples(u: int, s: int, step: int)
    requires 0 < step && Multiple(s, step)
    ensures OnGrid(u, s, step) <==> s <= u && Multiple(u, step)
    decreases u - s
  {
    if s < u {
      NextMultiple(s, step);
      GridOfMultiples(u, s + step, step);
      if Multiple(u, step) { MultiplesApart(s, u, step); }
    }
  }

  /** The inner evaluation of a subquery for outer steps from `start` to `end`. */
  function SubqueryGrid(start: int, end: int, offset: int, span: int, step: int): Grid
    requires 0 < step
  {
    Grid(AlignedStart(start - offset - span, step), end - offset, step)
  }

  /** Every outer step finds in the one pass exactly the inner steps it would evaluate by itself. */
  lemma {:induction false} SameInnerSteps(start: int, end: int, t: int, offset: int, span: int, step: int, u: int)
    requires 0 < step && start <= t <= end
    ensures t - offset - span < u <= t - offset ==>
              (OnGrid(u, SubqueryGrid(start, end, offset, span, step).start, step) <==>
               OnGrid(u, SubqueryGrid(t, t, offset, span, step).start, step))
    ensures OnGrid(u, SubqueryGrid(t, t, offset, span, step).start, step) ==> t - offset - span < u
  {
    var pass, own := start - offset - span, t - offset - span;
    AlignedStartIsLeast(pass, step);
    AlignedStartIsLeast(own, step);
    GridOfMultiples(u, AlignedStart(pass, step), step);
    GridOfMultiples(u, AlignedStart(own, step), step);
  }

  // ---------------------------------------------------------------- reading a series back

  /** The points of a series as one run of samples, in time order; at one time the float comes first. */
  function Merge(fs: seq<FPoint>, hs: seq<HPoint>): seq<Sample>
    decreases |fs| + |hs|
  {
    if fs == [] && hs == [] then []
    else if fs == [] || (hs != [] && hs[0].t < fs[0].t) then [HistogramSample(hs[0].t, hs[0].v)] + Merge(fs, hs[1..])
    else [FloatSample(fs[0].t, fs[0].v)] + Merge(fs[1..], hs)
  }

  /** The next sample of a merge, and what is left of it then. */
  lemma {:induction false} MergeNext(fs: seq<FPoint>, hs: seq<HPoint>, nf: nat, nh: nat)
    requires nf <= |fs| && nh <= |hs| && (nf < |fs| || nh < |hs|)
    ensures var pickH := nf == |fs| || (nh < |hs| && hs[nh].t < fs[nf].t);
            Merge(fs[nf..], hs[nh..]) ==
            if pickH then [HistogramSample(hs[nh].t, hs[nh].v)] + Merge(fs[nf..], hs[nh + 1..])
            else [FloatSample(fs[nf].t, fs[nf].v)] + Merge(fs[nf + 1..], hs[nh..])
  {
    if nf < |fs| { assert fs[nf..][1..] == fs[nf + 1..]; }
    if nh < |hs| { assert hs[nh..][1..] == hs[nh + 1..]; }
  }

  datatype ValueType = ValNone | ValFloat | ValFloatHistogram

  class StorageSeriesIterator {
    const floats: seq<FPoint>
    const histograms: seq<HPoint>
    var iFloats: int
    var iHistograms: int
    var currT: int
    var currF: Float
    var currH: Option<Histogram>
    ghost var nf: nat  // the points yielded so far
    ghost var nh: nat
    ghost var yielded: seq<Sample>

    ghost function Ahead(): seq<Sample>
      requires nf <= |floats| && nh <= |histograms|
      reads this
    {
      Merge(floats[nf..], histograms[nh..])
    }

    predicate Exhausted()
      reads this
    {
      iFloats >= |floats| && iHistograms >= |histograms|
    }

    ghost predicate Valid()
      reads this
    {
      && nf <= |floats| && nh <= |histograms|
      && (if Exhausted() then nf == |floats| && nh == |histograms|
          else iFloats == (if currH.None? then nf - 1 else nf) && iHistograms == (if currH.Some? then nh - 1 else nh))
      && yielded + Ahead() == Merge(floats, histograms)
      && (if yielded == [] then currT == MIN_INT64 && currH.None? else Current() == yielded[|yielded| - 1])
    }

    function Current(): Sample
      reads this
    {
      if currH.Some? then HistogramSample(currT, currH.value) else FloatSample(currT, currF)
    }

    constructor (series: Series)
      ensures Valid() && floats == series.floats && histograms == series.histograms && yielded == [] && !Exhausted()
    {
      floats, histograms := series.floats, series.histograms;
      iFloats, iHistograms := -1, 0;
      currT, currF, currH := MIN_INT64, Finite(0.0), None;
      nf, nh, yielded := 0, 0, [];
    }

    /** The state of Next once it has moved past the current sample: both cursors stand on points not yet yielded. */
    ghost predicate Between()
      reads this
    {
      && nf <= |floats| && nh <= |histograms|
      && iFloats == nf && iHistograms == nh
      && yielded + Ahead() == Merge(floats, histograms)
    }

    /** One sample more is yielded and one fewer is ahead. */
    lemma YieldNext(before: seq<Sample>, x: Sample, rest: seq<Sample>)
      ensures before + [x] + rest == before + ([x] + rest)
    {
    }

    method YieldFloat()
      requires Between() && nf < |floats| && (nh == |histograms| || floats[nf].t <= histograms[nh].t)
      modifies this
      ensures Valid() && !Exhausted() && Current().FloatSample?
      ensures yielded == old(yielded) + [old(Ahead())[0]] && Ahead() == old(Ahead())[1..]
    {
      MergeNext(floats, histograms, nf, nh);
      var p := floats[iFloats];
      currT, currF, currH := p.t, p.v, None;
      YieldNext(yielded, Current(), Merge(floats[nf + 1..], histograms[nh..]));
      yielded, nf := yielded + [Current()], nf + 1;
    }

    method YieldHistogram()
      requires Between() && nh < |histograms| && (nf == |floats| || histograms[nh].t < floats[nf].t)
      modifies this
      ensures Valid() && !Exhausted() && Current().HistogramSample?
      ensures yielded == old(yielded) + [old(Ahead())[0]] && Ahead() == old(Ahead())[1..]
    {
      MergeNext(floats, histograms, nf, nh);
      var p := histograms[iHistograms];
      currT, currF, currH := p.t, Finite(0.0), Some(p.v);
      YieldNext(yielded, Current(), Merge(floats[nf..], histograms[nh + 1..]));
      yielded, nh := yielded + [Current()], nh + 1;
    }

    method Next() returns (kind: ValueType)
      requires Valid()
      modifies this
      ensures Valid()
      ensures kind == ValNone <==> old(Ahead()) == []
      ensures kind == ValNone ==> Exhausted() && yielded == old(yielded)
      ensures kind != ValNone ==>
                !Exhausted() && yielded == old(yielded) + [old(Ahead())[0]] && Ahead() == old(Ahead())[1..]
      ensures kind == ValFloat <==> kind != ValNone && Current().FloatSample?
    {
      if currH.Some? {
        iHistograms := iHistograms + 1;
      } else {
        iFloats := iFloats + 1;
      }
      var floatsExhausted := iFloats >= |floats|;
      var histogramsExhausted := iHistograms >= |histograms|;
      if floatsExhausted && histogramsExhausted {
        return ValNone;
      }
      MergeNext(floats, histograms, nf, nh);
      if floatsExhausted || (!histogramsExhausted && histograms[iHistograms].t < floats[iFloats].t) {
        YieldHistogram();
        kind := ValFloatHistogram;
      } else {
        YieldFloat();
        kind := ValFloat;
      }
    }

    /** Advance to the first sample at or after `t`, staying where it is when the current one is. */
    method Seek(t: int) returns (kind: ValueType)
      requires Valid() && MIN_INT64 < t
      modifies this
      ensures Valid() && old(yielded) <= yielded
      ensures kind == ValNone ==> Exhausted()
      ensures kind == ValNone && !old(Exhausted()) ==> forall k | |old(yielded)| <= k < |yielded| :: yielded[k].t < t
      ensures kind != ValNone ==> yielded != [] && !Exhausted() && t <= yielded[|yielded| - 1].t
      ensures kind != ValNone ==> forall k | |old(yielded)| <= k < |yielded| - 1 :: yielded[k].t < t
      ensures kind == ValFloat <==> kind != ValNone && Current().FloatSample?
    {
      if iFloats >= |floats| && iHistograms >= |histograms| {
        return ValNone;
      }
      while currT < t
        invariant Valid() && !Exhausted() && old(yielded) <= yielded
        invariant forall k | |old(yielded)| <= k < |yielded| - 1 :: yielded[k].t < t
        decreases |Ahead()|
      {
        kind := Next();
        if kind == ValNone {
          return ValNone;
        }
      }
      kind := if currH.Some? then ValFloatHistogram else ValFloat;
    }
  }

  // ---------------------------------------------------------------- windows of what is read back

  ghost predicate InOrderDisjoint(s: Series) {
    && InOrder(s.floats) && InOrder(s.histograms)
    && forall x, y | 0 <= x < |s.floats| && 0 <= y < |s.histograms| :: s.floats[x].t != s.histograms[y].t
  }

  /** No point of the series is at or before `t`. */
  ghost predicate NoneUpTo(s: Series, t: int) {
    && (forall x | 0 <= x < |s.floats| :: t < s.floats[x].t)
    && (forall y | 0 <= y < |s.histograms| :: t < s.histograms[y].t)
  }

  /** The series without the point that is read back first. */
  function Rest(s: Series): (r: Series)
    requires s.floats != [] || s.histograms != []
    ensures |r.floats| + |r.histograms| < |s.floats| + |s.histograms|
    ensures Merge(s.floats, s.histograms)[1..] == Merge(r.floats, r.histograms)
  {
    if s.floats == [] || (s.histograms != [] && s.histograms[0].t < s.floats[0].t)
    then s.(histograms := s.histograms[1..])
    else s.(floats := s.floats[1..])
  }

  lemma {:induction false} MergeAfter(s: Series, t: int)
    requires NoneUpTo(s, t)
    ensures forall k | 0 <= k < |Merge(s.floats, s.histograms)| :: t < Merge(s.floats, s.histograms)[k].t
    decreases |s.floats| + |s.histograms|
  {
    if s.floats != [] || s.histograms != [] {
      MergeAfter(Rest(s), t);
      var all := Merge(s.floats, s.histograms);
      assert all == [all[0]] + all[1..];
    }
  }

  lemma {:induction false} SortedFromFront(x: Sample, rest: seq<Sample>)
    requires Sorted(rest) && forall k | 0 <= k < |rest| :: x.t < rest[k].t
    ensures Sorted([x] + rest)
  {
  }

  /** The point read back first is before all others. */
  lemma {:induction false} RestIsLater(s: Series)
    requires InOrderDisjoint(s) && (s.floats != [] || s.histograms != [])
    ensures InOrderDisjoint(Rest(s)) && NoneUpTo(Rest(s), Merge(s.floats, s.histograms)[0].t)
  {
  }

  /** The samples of a series whose points are in order and disjoint are sorted, as the buffered iterator wants them. */
  lemma {:induction false} MergeSorted(s: Series)
    requires InOrderDisjoint(s)
    ensures Sorted(Merge(s.floats, s.histograms))
    decreases |s.floats| + |s.histograms|
  {
    if s.floats != [] || s.histograms != [] {
      var all := Merge(s.floats, s.histograms);
      RestIsLater(s);
      MergeSorted(Rest(s));
      MergeAfter(Rest(s), all[0].t);
      assert all == [all[0]] + all[1..];
      SortedFromFront(all[0], all[1..]);
    }
  }

  /** The points of (mint, maxt] that are not stale markers. */
  function Within<V>(ps: seq<Point<V>>, stale: V -> bool, mint: int, maxt: int): seq<Point<V>> {
    if ps == [] then []
    else if mint < ps[0].t <= maxt && !stale(ps[0].v) then [ps[0]] + Within(ps[1..], stale, mint, maxt)
    else Within(ps[1..], stale, mint, maxt)
  }

  lemma {:induction false} WindowFromFront<V>(x: Sample, rest: seq<Sample>, n: nat, pick: Pick<V>, mint: int, maxt: int)
    requires n <= |rest|
    ensures WindowUpTo([x] + rest, n + 1, pick, mint, maxt) ==
            if mint < x.t <= maxt && pick(x).Some?
            then [Point(x.t, pick(x).value)] + WindowUpTo(rest, n, pick, mint, maxt)
              else WindowUpTo(rest, n, pick, mint, maxt)
  {
    var all := [x] + rest;
    if n == 0 {
      assert WindowUpTo(all, 0, pick, mint, maxt) == [];
    } else {
      WindowFromFront(x, rest, n - 1, pick, mint, maxt);
      assert all[n] == rest[n - 1];
    }
  }

  function StaleHistogram(h: Histogram): bool {
    IsStaleNaN(h.sum)
  }

  lemma {:induction false} WindowsFromFront(x: Sample, rest: seq<Sample>, mint: int, maxt: int)
    ensures var at := mint < x.t <= maxt;
            && Window([x] + rest, PickFloat, mint, maxt) ==
               (if at && PickFloat(x).Some? then [Point(x.t, x.f)] else []) + Window(rest, PickFloat, mint, maxt)
            && Window([x] + rest, PickHistogram, mint, maxt) ==
               (if at && PickHistogram(x).Some? then [Point(x.t, x.h)] else []) +
                 Window(rest, PickHistogram, mint, maxt)
  {
    WindowFromFront(x, rest, |rest|, PickFloat, mint, maxt);
    WindowFromFront(x, rest, |rest|, PickHistogram, mint, maxt);
  }

  /** The window of what is read back is made of the points of the series in it. */
  lemma {:induction false} WindowOfMerge(fs: seq<FPoint>, hs: seq<HPoint>, mint: int, maxt: int)
    ensures Window(Merge(fs, hs), PickFloat, mint, maxt) == Within(fs, IsStaleNaN, mint, maxt)
    ensures Window(Merge(fs, hs), PickHistogram, mint, maxt) == Within(hs, StaleHistogram, mint, maxt)
    decreases |fs| + |hs|
  {
    if fs == [] && hs == [] {
    } else if fs == [] || (hs != [] && hs[0].t < fs[0].t) {
      WindowOfMerge(fs, hs[1..], mint, maxt);
      WindowsFromFront(HistogramSample(hs[0].t, hs[0].v), Merge(fs, hs[1..]), mint, maxt);
    } else {
      WindowOfMerge(fs[1..], hs, mint, maxt);
      WindowsFromFront(FloatSample(fs[0].t, fs[0].v), Merge(fs[1..], hs), mint, maxt);
    }
  }

  lemma {:induction false} FindAfter<V(!new)>(ps: seq<Point<V>>, t: int)
    requires forall x | 0 <= x < |ps| :: t < ps[x].t
    ensures Find(ps, t).None?
  {
    if ps != [] { FindAfter(ps[1..], t); }
  }

  /** Points in order that agree at every time of a window have the same window. */
  lemma {:induction false} SameWithin<V(!new)>(ps: seq<Point<V>>, qs: seq<Point<V>>, stale: V -> bool, mint: int,
                                        maxt: int)
    requires InOrder(ps) && InOrder(qs)
    requires forall t | mint < t <= maxt :: Find(ps, t) == Find(qs, t)
    ensures Within(ps, stale, mint, maxt) == Within(qs, stale, mint, maxt)
    decreases |ps| + |qs|
  {
    if ps != [] && !(mint < ps[0].t <= maxt) {
      SameWithin(ps[1..], qs, stale, mint, maxt);
    } else if qs != [] && !(mint < qs[0].t <= maxt) {
      SameWithin(ps, qs[1..], stale, mint, maxt);
    } else if ps != [] && (qs == [] || ps[0].t < qs[0].t) {
      FindAfter(qs, ps[0].t);
    } else if qs != [] && (ps == [] || qs[0].t < ps[0].t) {
      FindAfter(ps, qs[0].t);
    } else if ps != [] {
      var t0 := ps[0].t;
      assert Find(ps, t0) == Find(qs, t0);
      FindAfter(ps[1..], t0);
      FindAfter(qs[1..], t0);
      forall t | mint < t <= maxt ensures Find(ps[1..], t) == Find(qs[1..], t) {
        assert Find(ps, t) == Find(qs, t);
      }
      SameWithin(ps[1..], qs[1..], stale, mint, maxt);
    }
  }

  // ---------------------------------------------------------------- one pass serves all steps

  /** A series that shows `shown` on a grid has a value exactly at the grid's times. */
  lemma {:induction false} ShowsOnlySteps(s: Series, shown: int -> Option<Value>, grid: Grid, past: int, t: int)
    requires 0 < grid.interval && Shows(s, shown, grid, past) && t < past
    ensures ValueAt(s, t) == if OnGrid(t, grid.start, grid.interval) then shown(t) else None
    ensures Find(s.floats, t) ==
            if ValueAt(s, t).Some? && ValueAt(s, t).value.F? then Some(ValueAt(s, t).value.f) else None
    ensures Find(s.histograms, t) ==
            if ValueAt(s, t).Some? && ValueAt(s, t).value.H? then Some(ValueAt(s, t).value.h) else None
  {
    if Find(s.floats, t).Some? { var x := FindIn(s.floats, t); }
    if Find(s.histograms, t).Some? { var x := FindIn(s.histograms, t); }
  }

  /** What the subquery's range function sees at an outer step: the window of the inner result, read back. */
  ghost function FloatsSeen(s: Series, t: int, offset: int, span: int): seq<FPoint> {
    Window(Merge(s.floats, s.histograms), PickFloat, t - offset - span, t - offset)
  }

  ghost function HistogramsSeen(s: Series, t: int, offset: int, span: int): seq<HPoint> {
    Window(Merge(s.floats, s.histograms), PickHistogram, t - offset - span, t - offset)
  }

  /** The pass for all outer steps has in the window of a step what the subquery for that step alone has there. */
  lemma {:induction false} SameInWindow(pass: Series, own: Series, shown: int -> Option<Value>, start: int, end: int,
                                        t: int, offset: int, span: int, step: int, u: int)
    requires 0 < step && start <= t <= end && t - offset - span < u <= t - offset
    requires Shows(pass, shown, SubqueryGrid(start, end, offset, span, step), end - offset + 1)
    requires Shows(own, shown, SubqueryGrid(t, t, offset, span, step), t - offset + 1)
    ensures Find(pass.floats, u) == Find(own.floats, u) && Find(pass.histograms, u) == Find(own.histograms, u)
  {
    SameInnerSteps(start, end, t, offset, span, step, u);
    ShowsOnlySteps(pass, shown, SubqueryGrid(start, end, offset, span, step), end - offset + 1, u);
    ShowsOnlySteps(own, shown, SubqueryGrid(t, t, offset, span, step), t - offset + 1, u);
  }

  /** The points that are not stale markers. */
  function Live<V>(ps: seq<Point<V>>, stale: V -> bool): seq<Point<V>> {
    if ps == [] then [] else (if stale(ps[0].v) then [] else [ps[0]]) + Live(ps[1..], stale)
  }

  lemma {:induction false} AllWithin<V(!new)>(ps: seq<Point<V>>, stale: V -> bool, mint: int, maxt: int)
    requires forall x | 0 <= x < |ps| :: mint < ps[x].t <= maxt
    ensures Within(ps, stale, mint, maxt) == Live(ps, stale)
  {
    if ps != [] { AllWithin(ps[1..], stale, mint, maxt); }
  }

  /** At a step, the subquery for that step alone is seen as a whole. */
  lemma {:induction false} OwnIsSeen(own: Series, shown: int -> Option<Value>, t: int, offset: int, span: int,
                                     step: int)
    requires 0 < step && Shows(own, shown, SubqueryGrid(t, t, offset, span, step), t - offset + 1)
    ensures FloatsSeen(own, t, offset, span) == Live(own.floats, IsStaleNaN)
    ensures HistogramsSeen(own, t, offset, span) == Live(own.histograms, StaleHistogram)
  {
    forall u | OnGrid(u, SubqueryGrid(t, t, offset, span, step).start, step) ensures t - offset - span < u {
      SameInnerSteps(t, t, t, offset, span, step, u);
    }
    WindowOfMerge(own.floats, own.histograms, t - offset - span, t - offset);
    AllWithin(own.floats, IsStaleNaN, t - offset - span, t - offset);
    AllWithin(own.histograms, StaleHistogram, t - offset - span, t - offset);
  }

  /** `pass` is a labelset's series in the inner result for all outer steps, `own` that of the subquery evaluated for
      the outer step `t` alone; both show the values of the inner expression. */
  lemma {:induction false} OnePassServesAllSteps(pass: Series, own: Series, shown: int -> Option<Value>,
                              start: int, end: int, t: int, offset: int, span: int, step: int)
    requires 0 < step && start <= t <= end
    requires Shows(pass, shown, SubqueryGrid(start, end, offset, span, step), end - offset + 1)
    requires Shows(own, shown, SubqueryGrid(t, t, offset, span, step), t - offset + 1)
    ensures FloatsSeen(pass, t, offset, span) == FloatsSeen(own, t, offset, span)
    ensures HistogramsSeen(pass, t, offset, span) == HistogramsSeen(own, t, offset, span)
  {
    var mint, maxt := t - offset - span, t - offset;
    forall u | mint < u <= maxt
      ensures Find(pass.floats, u) == Find(own.floats, u) && Find(pass.histograms, u) == Find(own.histograms, u)
    {
      SameInWindow(pass, own, shown, start, end, t, offset, span, step, u);
    }
    SameWithin(pass.floats, own.floats, IsStaleNaN, mint, maxt);
    SameWithin(pass.histograms, own.histograms, StaleHistogram, mint, maxt);
    WindowOfMerge(pass.floats, pass.histograms, mint, maxt);
    WindowOfMerge(own.floats, own.histograms, mint, maxt);
  }

  /** What a subquery reads back satisfies the input condition of the sliding window. */
  lemma {:induction false} ReadBackIsSorted(s: Series, shown: int -> Option<Value>, grid: Grid, past: int)
    requires 0 < grid.interval && Shows(s, shown, grid, past)
    ensures Sorted(Merge(s.floats, s.histograms))
  {
    forall x, y | 0 <= x < |s.floats| && 0 <= y < |s.histograms| ensures s.floats[x].t != s.histograms[y].t {
      FindsEach(s.floats, x);
      FindsEach(s.histograms, y);
    }
    MergeSorted(s);
  }

  lemma {:induction false} FindsEach<V(!new)>(ps: seq<Point<V>>, x: nat)
    requires x < |ps|
    ensures Find(ps, ps[x].t).Some?
  {
    if x > 0 { FindsEach(ps[1..], x - 1); }
  }

  // ---------------------------------------------------------------- a range function over a subquery

  /** The step whose window the selector takes at `ts`. */
  function WindowStep(sel: RangeSelector, grid: Grid, ts: int): int {
    if sel.fixed then grid.start else ts
  }

  /** For every outer step there is the subquery evaluated for that step alone. */
  ghost predicate OwnAt(own: int -> Series, shown: int -> Option<Value>, sel: RangeSelector, step: int, t: int)
    requires 0 < step
  {
    Shows(own(t), shown, SubqueryGrid(t, t, sel.offset, sel.span, step), t - sel.offset + 1)
  }

  /** The range function on the subquery of the step alone. */
  ghost function OwnResult(sel: RangeSelector, grid: Grid, own: int -> Series, call: RangeFunction,
                           ts: int): CallResult {
    var t := WindowStep(sel, grid, ts);
    var floats := Live(own(t).floats, IsStaleNaN);
    var histograms := Live(own(t).histograms, StaleHistogram);
    if floats == [] && histograms == [] then NoResult else call(floats, histograms, ts)
  }

  ghost function OwnResults(sel: RangeSelector, grid: Grid, own: int -> Series,
                            call: RangeFunction): int -> CallResult {
    ts => OwnResult(sel, grid, own, call, ts)
  }

  lemma {:induction false} SeenIsOwn(pass: Series, own: Series, shown: int -> Option<Value>, grid: Grid, t: int,
                                     offset: int, span: int, step: int)
    returns (fs: seq<FPoint>, hs: seq<HPoint>)
    requires 0 < step && grid.start <= t <= grid.end
    requires Shows(pass, shown, SubqueryGrid(grid.start, grid.end, offset, span, step), grid.end - offset + 1)
    requires Shows(own, shown, SubqueryGrid(t, t, offset, span, step), t - offset + 1)
    ensures fs == FloatsSeen(pass, t, offset, span) && fs == Live(own.floats, IsStaleNaN)
    ensures hs == HistogramsSeen(pass, t, offset, span) && hs == Live(own.histograms, StaleHistogram)
  {
    OnePassServesAllSteps(pass, own, shown, grid.start, grid.end, t, offset, span, step);
    OwnIsSeen(own, shown, t, offset, span, step);
    fs, hs := Live(own.floats, IsStaleNaN), Live(own.histograms, StaleHistogram);
  }

  lemma {:induction false} ResultOfSeen(pass: Series, sel: RangeSelector, grid: Grid, call: RangeFunction, ts: int,
                                        fs: seq<FPoint>, hs: seq<HPoint>)
    requires fs == FloatsSeen(pass, WindowStep(sel, grid, ts), sel.offset, sel.span)
    requires hs == HistogramsSeen(pass, WindowStep(sel, grid, ts), sel.offset, sel.span)
    ensures StepResult(sel, grid, Merge(pass.floats, pass.histograms), call, ts) ==
            if fs == [] && hs == [] then NoResult else call(fs, hs, ts)
  {
  }

  lemma {:induction false} ResultOverSubquery(pass: Series, own: int -> Series, shown: int -> Option<Value>,
                                              sel: RangeSelector, grid: Grid, step: int, call: RangeFunction, ts: int)
    requires 0 < step && grid.start <= ts <= grid.end
    requires Shows(pass, shown, SubqueryGrid(grid.start, grid.end, sel.offset, sel.span, step),
                   grid.end - sel.offset + 1)
    requires OwnAt(own, shown, sel, step, WindowStep(sel, grid, ts))
    ensures StepResult(sel, grid, Merge(pass.floats, pass.histograms), call, ts) == OwnResult(sel, grid, own, call, ts)
  {
    var t := WindowStep(sel, grid, ts);
    var fs, hs := SeenIsOwn(pass, own(t), shown, grid, t, sel.offset, sel.span, step);
    ResultOfSeen(pass, sel, grid, call, ts, fs, hs);
  }

  /** A range function over the one pass has at every step what it gives over the step's own subquery, and no other
      points: the output over the pass is the output over the subqueries of the steps. */
  lemma {:induction false} OutputOverSubquery(pass: Series, own: int -> Series, shown: int -> Option<Value>,
                                              sel: RangeSelector, grid: Grid, step: int, call: RangeFunction,
                                              out: Output)
    requires 0 < step && 0 < grid.interval
    requires Shows(pass, shown, SubqueryGrid(grid.start, grid.end, sel.offset, sel.span, step),
                   grid.end - sel.offset + 1)
    requires forall t | grid.start <= t <= grid.end :: OwnAt(own, shown, sel, step, t)
    ensures ShowsResults(out, OwnResults(sel, grid, own, call), grid, grid.end + 1) <==>
            ShowsResults(out, StepResults(sel, grid, Merge(pass.floats, pass.histograms), call), grid, grid.end + 1)
  {
    var over, alone := StepResults(sel, grid, Merge(pass.floats, pass.histograms), call),
      OwnResults(sel, grid, own, call);
    forall ts | OnGrid(ts, grid.start, grid.interval) && ts < grid.end + 1 ensures over(ts) == alone(ts) {
      StartsNoLater(ts, grid.start, grid.interval);
      ResultOverSubquery(pass, own, shown, sel, grid, step, call, ts);
    }
  }

  /** A series of the subquery's matrix is read back by the sliding window, for all steps of the outer query: the
      output is that of the function on the subquery of each step alone. */
  method EvalOverSubquery(ev: Evaluator, pass: Series, objects: seq<FloatHistogram?>, sel: RangeSelector, grid: Grid,
                          call: RangeFunction, ghost own: int -> Series, ghost shown: int -> Option<Value>,
                          ghost step: int, floats0: seq<FPoint>, hs0: HSlice, ghost r0: Refs)
    returns (ok: bool, out: Output, floats: seq<FPoint>, hs: HSlice, ghost r: Refs)
    requires 0 < step && 0 < grid.interval && 0 <= sel.span && MIN_INT64 < grid.start - sel.offset - sel.span
    requires Shows(pass, shown, SubqueryGrid(grid.start, grid.end, sel.offset, sel.span, step),
                   grid.end - sel.offset + 1)
    requires forall t | grid.start <= t <= grid.end :: OwnAt(own, shown, sel, step, t)
    requires var samples := Merge(pass.floats, pass.histograms);
             && Owned(samples, objects) && Mirrors(hs0, r0.table, r0.m) && Linked(objects, r0.inner, r0.table)
             && Sound(samples, r0, 0, 0)
    modifies ev`currentSamples, r0.table
    ensures ok ==> ShowsResults(out, OwnResults(sel, grid, own, call), grid, grid.end + 1)
    ensures !ok ==> ev.currentSamples > ev.maxSamples
  {
    ReadBackIsSorted(pass, shown, SubqueryGrid(grid.start, grid.end, sel.offset, sel.span, step),
                     grid.end - sel.offset + 1);
    ok, out, floats, hs,
      r := ev.EvalSeries(sel, grid, Merge(pass.floats, pass.histograms), objects, call, floats0, hs0, r0);
    OutputOverSubquery(pass, own, shown, sel, grid, step, call, out);
  }
}
