/**
 The window of a range selector, computed from scratch, and how it can be put
 together from what an earlier window has left and what a buffer holds
 (promql/engine.go, matrixIterSlice).
 */
module Windows {
  import opened Prelude
  import opened SampleBuffer

  // ---------------------------------------------------------------- the window, from scratch

  /** The value a sample contributes to a slice of points; stale markers contribute none. */
  type Pick<!V> = Sample -> Option<V>

  function PickFloat(s: Sample): Option<Float> {
    if s.FloatSample? && !IsStaleNaN(s.f) then Some(s.f) else None
  }

  function PickHistogram(s: Sample): Option<Histogram> {
    if s.HistogramSample? && !IsStaleNaN(s.h.sum) then Some(s.h) else None
  }

  /** The points `ps` followed by that of sample `s`, if it has one. */
  function Grow<V>(ps: seq<Point<V>>, s: Sample, pick: Pick<V>): seq<Point<V>> {
    if pick(s).Some? then ps + [Point(s.t, pick(s).value)] else ps
  }

  /** The points with `mint < t <= maxt` among the first `n` samples, in order. */
  function WindowUpTo<V>(series: seq<Sample>, n: nat, pick: Pick<V>, mint: int, maxt: int): seq<Point<V>>
    requires n <= |series|
  {
    if n == 0 then []
    else
      var ps := WindowUpTo(series, n - 1, pick, mint, maxt);
      if mint < series[n - 1].t <= maxt then Grow(ps, series[n - 1], pick) else ps
  }

  /** The window (mint, maxt] of a series, computed from scratch. */
  function Window<V>(series: seq<Sample>, pick: Pick<V>, mint: int, maxt: int): seq<Point<V>> {
    WindowUpTo(series, |series|, pick, mint, maxt)
  }

  // ---------------------------------------------------------------- collecting points

  /** `ps` followed by the points after `mint` of the first `n` samples of `run`. */
  function Collect<V>(ps: seq<Point<V>>, run: seq<Sample>, n: nat, pick: Pick<V>, mint: int): seq<Point<V>>
    requires n <= |run|
  {
    if n == 0 then ps
    else
      var before := Collect(ps, run, n - 1, pick, mint);
      if mint < run[n - 1].t then Grow(before, run[n - 1], pick) else before
  }

  /** The points after `mint` among the first `n` samples. */
  function PointsUpTo<V>(series: seq<Sample>, n: nat, pick: Pick<V>, mint: int): seq<Point<V>>
    requires n <= |series|
  {
    Collect([], series, n, pick, mint)
  }

  ghost predicate InOrder<V(!new)>(ps: seq<Point<V>>) {
    forall x, y | 0 <= x < y < |ps| :: ps[x].t < ps[y].t
  }

  /** The window's points are those after `mint` among the samples up to `maxt`. */
  lemma {:induction false} WindowIsPrefix<V>(series: seq<Sample>, m: nat, n: nat, pick: Pick<V>, mint: int, maxt: int)
    requires n <= m <= |series|
    requires forall k | 0 <= k < n :: series[k].t <= maxt
    requires forall k | n <= k < m :: maxt < series[k].t
    ensures WindowUpTo(series, m, pick, mint, maxt) == PointsUpTo(series, n, pick, mint)
  {
    if m > 0 {
      WindowIsPrefix(series, m - 1, if n < m then n else n - 1, pick, mint, maxt);
    }
  }

  /** The points of a sorted series are in order, after `mint` and before the samples not yet looked at. */
  lemma {:induction false} PointsInOrder<V(!new)>(series: seq<Sample>, n: nat, pick: Pick<V>, mint: int)
    requires Sorted(series) && n <= |series|
    ensures var ps := PointsUpTo(series, n, pick, mint);
            && InOrder(ps)
            && forall x | 0 <= x < |ps| :: mint < ps[x].t && forall k | n <= k < |series| :: ps[x].t < series[k].t
  {
    if n > 0 { PointsInOrder(series, n - 1, pick, mint); }
  }

  /** Every sample after `mint` with a value is a point. */
  lemma {:induction false} PointsComplete<V(!new)>(series: seq<Sample>, n: nat, pick: Pick<V>, mint: int, k: nat)
    requires k < n <= |series| && mint < series[k].t && pick(series[k]).Some?
    ensures Point(series[k].t, pick(series[k]).value) in PointsUpTo(series, n, pick, mint)
  {
    if k < n - 1 { PointsComplete(series, n - 1, pick, mint, k); }
  }

  /** Starting the window later drops the points up to its start. */
  lemma {:induction false} LaterStart<V(!new)>(series: seq<Sample>, n: nat, pick: Pick<V>, m0: int, mint: int,
                                        drop: nat)
    requires n <= |series| && m0 <= mint && drop <= |PointsUpTo(series, n, pick, m0)|
    requires forall x | 0 <= x < drop :: PointsUpTo(series, n, pick, m0)[x].t <= mint
    requires forall x | drop <= x < |PointsUpTo(series, n, pick, m0)| :: mint < PointsUpTo(series, n, pick, m0)[x].t
    ensures PointsUpTo(series, n, pick, mint) == PointsUpTo(series, n, pick, m0)[drop..]
  {
    if n > 0 {
      var before := PointsUpTo(series, n - 1, pick, m0);
      var ps := PointsUpTo(series, n, pick, m0);
      assert forall x | 0 <= x < |before| :: before[x] == ps[x];
      assert |ps| > |before| ==> ps[|before|].t == series[n - 1].t && ps == before + [ps[|before|]];
      LaterStart(series, n - 1, pick, m0, mint, if drop <= |before| then drop else |before|);
    }
  }

  /** Samples up to `mint` add nothing. */
  lemma {:induction false} SkipOld<V>(series: seq<Sample>, n: nat, n': nat, pick: Pick<V>, mint: int)
    requires n <= n' <= |series|
    requires forall k | n <= k < n' :: series[k].t <= mint
    ensures PointsUpTo(series, n', pick, mint) == PointsUpTo(series, n, pick, mint)
  {
    if n < n' { SkipOld(series, n, n' - 1, pick, mint); }
  }

  /** The lower bound for points still to be collected: the last point already there, or the start of the window. */
  function Resume<V>(ps: seq<Point<V>>, mint: int): int {
    if ps == [] then mint else ps[|ps| - 1].t
  }

  /** Collecting, after the points of the first `q` samples, from a run of the series that may overlap them. */
  lemma {:induction false} CollectedIsComplete<V(!new)>(series: seq<Sample>, q: nat, lo: nat, m: nat, run: seq<Sample>,
                                                  pick: Pick<V>, mint: int)
    requires Sorted(series) && q <= |series|
    requires lo + m <= |series| && m <= |run| && forall k | 0 <= k < m :: run[k] == series[lo + k]
    requires forall k | q <= k < lo :: series[k].t <= mint
    ensures var ps := PointsUpTo(series, q, pick, mint);
            Collect(ps, run, m, pick, Resume(ps, mint)) ==
              PointsUpTo(series, if lo + m < q then q else lo + m, pick, mint)
  {
    var ps := PointsUpTo(series, q, pick, mint);
    if m == 0 {
      if q < lo { SkipOld(series, q, lo, pick, mint); }
    } else {
      CollectedIsComplete(series, q, lo, m - 1, run, pick, mint);
      var k := lo + m - 1;
      PointsInOrder(series, q, pick, mint);
      if k < q && mint < series[k].t && pick(series[k]).Some? {
        PointsComplete(series, q, pick, mint, k);
      }
    }
  }

  /** `ps` followed by the point of the sample at `pos`, if that lies at `maxt`. */
  function WithSought<V>(ps: seq<Point<V>>, series: seq<Sample>, pos: nat, pick: Pick<V>, maxt: int): seq<Point<V>> {
    if pos < |series| && series[pos].t == maxt then Grow(ps, series[pos], pick) else ps
  }

  /** The points of the first `q` samples, those of the buffer and that of the sought sample are the window. */
  lemma {:induction false} CompleteWindow<V(!new)>(series: seq<Sample>, q: nat, lo: nat, pos: nat, buf: seq<Sample>,
                                            pick: Pick<V>, mint: int, maxt: int)
    requires Sorted(series) && mint < maxt
    requires q <= pos <= |series| && lo <= pos && buf == series[lo..pos]
    requires forall k | 0 <= k < pos :: series[k].t < maxt
    requires forall k | pos <= k < |series| :: maxt <= series[k].t
    requires forall k | q <= k < lo :: series[k].t <= mint
    ensures var ps := PointsUpTo(series, q, pick, mint);
            Window(series, pick, mint, maxt) ==
            WithSought(Collect(ps, buf, |buf|, pick, Resume(ps, mint)), series, pos, pick, maxt)
  {
    CollectedIsComplete(series, q, lo, pos - lo, buf, pick, mint);
    WindowIsPrefix(series, |series|,
                   if pos < |series| && series[pos].t == maxt then pos + 1 else pos, pick, mint, maxt);
  }

  /** A window of length zero is empty. */
  lemma {:induction false} EmptyWindow<V>(series: seq<Sample>, q: nat, pick: Pick<V>, maxt: int)
    requires q <= |series| && forall k | 0 <= k < q :: series[k].t < maxt
    ensures Window(series, pick, maxt, maxt) == [] == PointsUpTo(series, q, pick, maxt)
  {
    SkipOld(series, 0, q, pick, maxt);
    NoWindow(series, |series|, pick, maxt);
  }

  lemma {:induction false} NoWindow<V>(series: seq<Sample>, n: nat, pick: Pick<V>, maxt: int)
    requires n <= |series|
    ensures WindowUpTo(series, n, pick, maxt, maxt) == []
  {
    if n > 0 { NoWindow(series, n - 1, pick, maxt); }
  }

  // ---------------------------------------------------------------- the window, told by its points

  /** The floats in (mint, maxt]: every one that is not a stale marker, in time order. */
  ghost predicate IsFloatWindow(series: seq<Sample>, mint: int, maxt: int, fs: seq<FPoint>) {
    && InOrder(fs)
    && forall t, f :: Point(t, f) in fs <==> mint < t <= maxt && FloatSample(t, f) in series && !IsStaleNaN(f)
  }

  /** The histograms in (mint, maxt]: every one that is not a stale marker, in time order. */
  ghost predicate IsHistogramWindow(series: seq<Sample>, mint: int, maxt: int, hs: seq<HPoint>) {
    && InOrder(hs)
    && forall t, h :: Point(t, h) in hs <==> mint < t <= maxt && HistogramSample(t, h) in series && !IsStaleNaN(h.sum)
  }

  lemma {:induction false} WindowInOrder<V(!new)>(series: seq<Sample>, n: nat, pick: Pick<V>, mint: int, maxt: int)
    requires Sorted(series) && n <= |series|
    ensures var ps := WindowUpTo(series, n, pick, mint, maxt);
            InOrder(ps) && forall x, k | 0 <= x < |ps| && n <= k < |series| :: ps[x].t < series[k].t
  {
    if n > 0 { WindowInOrder(series, n - 1, pick, mint, maxt); }
  }

  lemma {:induction false} WindowMembers<V(!new)>(series: seq<Sample>, n: nat, pick: Pick<V>, mint: int, maxt: int,
                                                  p: Point<V>)
    requires n <= |series|
    ensures p in WindowUpTo(series, n, pick, mint, maxt) <==>
            mint < p.t <= maxt && exists k :: 0 <= k < n && series[k].t == p.t && pick(series[k]) == Some(p.v)
  {
    if n > 0 { WindowMembers(series, n - 1, pick, mint, maxt, p); }
  }

  /** Points in time order are determined by which points there are. */
  lemma {:induction false} SamePoints<V(!new)>(ps: seq<Point<V>>, qs: seq<Point<V>>)
    requires InOrder(ps) && InOrder(qs) && forall p :: p in ps <==> p in qs
    ensures ps == qs
  {
    if ps == [] {
      assert forall x | 0 <= x < |qs| :: qs[x] in ps;
    } else {
      assert ps[0] in qs && qs[0] in ps;
      forall p ensures p in ps[1..] <==> p in qs[1..] {
        assert p in ps <==> p in qs;
        assert ps == [ps[0]] + ps[1..] && qs == [qs[0]] + qs[1..];
      }
      SamePoints(ps[1..], qs[1..]);
    }
  }

  lemma {:induction false} FloatWindow(series: seq<Sample>, mint: int, maxt: int, fs: seq<FPoint>)
    requires Sorted(series)
    ensures IsFloatWindow(series, mint, maxt, fs) <==> fs == Window(series, PickFloat, mint, maxt)
  {
    var ps := Window(series, PickFloat, mint, maxt);
    WindowInOrder(series, |series|, PickFloat, mint, maxt);
    forall t, f
      ensures Point(t, f) in ps <==> mint < t <= maxt && FloatSample(t, f) in series && !IsStaleNaN(f)
    {
      WindowMembers(series, |series|, PickFloat, mint, maxt, Point(t, f));
    }
    if IsFloatWindow(series, mint, maxt, fs) {
      forall p ensures p in fs <==> p in ps {
        assert p == Point(p.t, p.v);
      }
      SamePoints(fs, ps);
    }
  }

  lemma {:induction false} HistogramWindow(series: seq<Sample>, mint: int, maxt: int, hs: seq<HPoint>)
    requires Sorted(series)
    ensures IsHistogramWindow(series, mint, maxt, hs) <==> hs == Window(series, PickHistogram, mint, maxt)
  {
    var ps := Window(series, PickHistogram, mint, maxt);
    WindowInOrder(series, |series|, PickHistogram, mint, maxt);
    forall t, h
      ensures Point(t, h) in ps <==> mint < t <= maxt && HistogramSample(t, h) in series && !IsStaleNaN(h.sum)
    {
      WindowMembers(series, |series|, PickHistogram, mint, maxt, Point(t, h));
    }
    if IsHistogramWindow(series, mint, maxt, hs) {
      forall p ensures p in hs <==> p in ps {
        assert p == Point(p.t, p.v);
      }
      SamePoints(hs, ps);
    }
  }
}
