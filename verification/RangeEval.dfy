/**
 Range evaluation of functions over vectors (promql/engine.go, rangeEval and
 gatherVector): the input series are read through cursors that pop their heads,
 and the results of all steps are put together into output series by labelset.
 Samples in memory are counted against a limit.

 Labelset hashes are taken to be injective, so output series are keyed by the
 labelset itself.
 */
module RangeEval {
  import opened Prelude

  datatype Value = F(f: Float) | H(h: Histogram)

  /** A sample of an instant vector. */
  datatype VectorSample = VectorSample(metric: Labels, v: Value, dropName: bool)

  type Vector = seq<VectorSample>

  datatype Series = Series(metric: Labels, floats: seq<FPoint>, histograms: seq<HPoint>, dropName: bool)

  // ---------------------------------------------------------------- the pointwise view

  function Find<V>(ps: seq<Point<V>>, t: int): Option<V> {
    if ps == [] then None else if ps[0].t == t then Some(ps[0].v) else Find(ps[1..], t)
  }

  /** The value of a series at `t`. */
  function ValueAt(s: Series, t: int): Option<Value> {
    if Find(s.floats, t).Some? then Some(F(Find(s.floats, t).value))
    else if Find(s.histograms, t).Some? then Some(H(Find(s.histograms, t).value))
    else None
  }

  /** The samples at `t` of the first `n` series. */
  function VectorUpTo(input: seq<Series>, n: nat, t: int): Vector
    requires n <= |input|
  {
    if n == 0 then []
    else
      var before, v := VectorUpTo(input, n - 1, t), ValueAt(input[n - 1], t);
      if v.Some? then before + [VectorSample(input[n - 1].metric, v.value, input[n - 1].dropName)] else before
  }

  function VectorAt(input: seq<Series>, t: int): Vector {
    VectorUpTo(input, |input|, t)
  }

  /** A function over vectors, called once per step. */
  type VectorFunction = (seq<Vector>, int) -> Vector

  /** The result at `t` alone. */
  function ResultAt(inputs: seq<seq<Series>>, call: VectorFunction, t: int): Vector {
    call(seq(|inputs|, i requires 0 <= i < |inputs| => VectorAt(inputs[i], t)), t)
  }

  /** The sample with the given labelset in a vector. */
  function Lookup(vec: Vector, metric: Labels): Option<VectorSample> {
    if vec == [] then None
    else if vec[|vec| - 1].metric == metric then Some(vec[|vec| - 1])
    else Lookup(vec[..|vec| - 1], metric)
  }

  function LookupValue(vec: Vector, metric: Labels): Option<Value> {
    if Lookup(vec, metric).Some? then Some(Lookup(vec, metric).value.v) else None
  }

  ghost predicate SameLabelset(vec: Vector) {
    exists i, j :: 0 <= i < j < |vec| && vec[i].metric == vec[j].metric
  }

  // ---------------------------------------------------------------- series on the grid

  ghost predicate PointsOnGrid<V(!new)>(ps: seq<Point<V>>, ts: int, interval: int)
    requires 0 < interval
  {
    && (forall x, y | 0 <= x < y < |ps| :: ps[x].t < ps[y].t)
    && (forall x | 0 <= x < |ps| :: OnGrid(ps[x].t, ts, interval))
  }

  /** Sorted, on the grid from `ts` on, and never a float and a histogram at one time. */
  ghost predicate OnSteps(s: Series, ts: int, interval: int)
    requires 0 < interval
  {
    && PointsOnGrid(s.floats, ts, interval)
    && PointsOnGrid(s.histograms, ts, interval)
    && forall t :: Find(s.floats, t).None? || Find(s.histograms, t).None?
  }

  lemma {:induction false} FindIn<V>(ps: seq<Point<V>>, t: int) returns (x: nat)
    requires Find(ps, t).Some?
    ensures x < |ps| && ps[x].t == t && Find(ps, t) == Some(ps[x].v)
  {
    if ps[0].t == t {
      x := 0;
    } else {
      x := FindIn(ps[1..], t);
      x := x + 1;
    }
  }

  /** In points on the grid, the point at `ts` can only be the head, and the rest is on the grid from the next step
      on. */
  lemma HeadIsFound<V(!new)>(ps: seq<Point<V>>, ts: int, interval: int)
    requires 0 < interval && PointsOnGrid(ps, ts, interval)
    ensures Find(ps, ts) == if ps != [] && ps[0].t == ts then Some(ps[0].v) else None
    ensures var rest := if ps != [] && ps[0].t == ts then ps[1..] else ps;
            PointsOnGrid(rest, ts + interval, interval) && forall t | t != ts :: Find(rest, t) == Find(ps, t)
  {
    if Find(ps, ts).Some? {
      var x := FindIn(ps, ts);
    }
    forall x | 0 <= x < |ps| && ps[x].t != ts ensures OnGrid(ps[x].t, ts + interval, interval) {
      assert OnGrid(ps[x].t, ts, interval);
    }
  }

  // ---------------------------------------------------------------- the cursors

  /** What gatherVector reads from one series at `ts`, and what it leaves. */
  function Head(s: Series, ts: int): Option<Value> {
    if s.floats != [] && s.floats[0].t == ts then Some(F(s.floats[0].v))
    else if s.histograms != [] && s.histograms[0].t == ts then Some(H(s.histograms[0].v))
    else None
  }

  function Pop(s: Series, ts: int): Series {
    if s.floats != [] && s.floats[0].t == ts then s.(floats := s.floats[1..])
    else if s.histograms != [] && s.histograms[0].t == ts then s.(histograms := s.histograms[1..])
    else s
  }

  lemma HeadIsValueAt(s: Series, ts: int, interval: int)
    requires 0 < interval && OnSteps(s, ts, interval)
    ensures Head(s, ts) == ValueAt(s, ts)
    ensures OnSteps(Pop(s, ts), ts + interval, interval)
    ensures forall t | t != ts :: ValueAt(Pop(s, ts), t) == ValueAt(s, t)
  {
    HeadIsFound(s.floats, ts, interval);
    HeadIsFound(s.histograms, ts, interval);
  }

  /** The cursors over `orig` before the step at `ts`: they still show every value from `ts` on. */
  ghost predicate Tracks(cursors: seq<Series>, orig: seq<Series>, ts: int, interval: int)
    requires 0 < interval
  {
    && |cursors| == |orig|
    && forall i | 0 <= i < |orig| :: TracksSeries(cursors[i], orig[i], ts, interval)
  }

  ghost predicate TracksSeries(cursor: Series, orig: Series, ts: int, interval: int)
    requires 0 < interval
  {
    && cursor.metric == orig.metric && cursor.dropName == orig.dropName
    && OnSteps(cursor, ts, interval)
    && forall t | ts <= t :: ValueAt(cursor, t) == ValueAt(orig, t)
  }

  lemma PopTracks(cursor: Series, orig: Series, ts: int, next: int, interval: int)
    requires 0 < interval && next == ts + interval && TracksSeries(cursor, orig, ts, interval)
    ensures Head(cursor, ts) == ValueAt(orig, ts)
    ensures TracksSeries(Pop(cursor, ts), orig, next, interval)
  {
    HeadIsValueAt(cursor, ts, interval);
  }

  /** Read one series and move its cursor forward. */
  method GatherSeries(ts: int, series: Series, output: Vector) returns (output': Vector, series': Series)
    ensures series' == Pop(series, ts)
    ensures output' == if Head(series, ts).None? then output
                       else output + [VectorSample(series.metric, Head(series, ts).value, series.dropName)]
  {
    output', series' := output, series;
    if |series.floats| > 0 && series.floats[0].t == ts {
      var s := series.floats[0];
      output' := output + [VectorSample(series.metric, F(s.v), series.dropName)];
      series' := series.(floats := series.floats[1..]);
    } else if |series.histograms| > 0 && series.histograms[0].t == ts {
      var s := series.histograms[0];
      output' := output + [VectorSample(series.metric, H(s.v), series.dropName)];
      series' := series.(histograms := series.histograms[1..]);
    }
  }

  /** What gatherVector reads from the first `n` series at `ts`. */
  function HeadsUpTo(input: seq<Series>, n: nat, ts: int): Vector
    requires n <= |input|
  {
    if n == 0 then []
    else
      var before, v := HeadsUpTo(input, n - 1, ts), Head(input[n - 1], ts);
      if v.Some? then before + [VectorSample(input[n - 1].metric, v.value, input[n - 1].dropName)] else before
  }

  // Samples in memory: a histogram counts for as many floats as it takes memory, in a vector a little differently
  // than in a matrix.

  function ValueSize(v: Value): nat {
    if v.F? then 1 else 1 + v.h.size / 16
  }

  function VectorSize(vec: Vector): nat {
    if vec == [] then 0 else VectorSize(vec[..|vec| - 1]) + ValueSize(vec[|vec| - 1].v)
  }

  function PointSize(p: HPoint): nat {
    (p.v.size + 8) / 16
  }

  function PointsSize(ps: seq<HPoint>): nat {
    if ps == [] then 0 else PointsSize(ps[..|ps| - 1]) + PointSize(ps[|ps| - 1])
  }

  function SeriesSize(s: Series): nat {
    |s.floats| + PointsSize(s.histograms)
  }

  function MatrixSize(mat: seq<Series>): nat {
    if mat == [] then 0 else MatrixSize(mat[..|mat| - 1]) + SeriesSize(mat[|mat| - 1])
  }

  /** Vector.TotalSamples. */
  method TotalSamples(vec: Vector) returns (n: nat)
    ensures n == VectorSize(vec)
  {
    n := 0;
    var i := 0;
    while i < |vec|
      invariant 0 <= i <= |vec| && n == VectorSize(vec[..i])
    {
      assert vec[..i + 1][..i] == vec[..i];
      n := n + 1;
      if vec[i].v.H? {
        n := n + vec[i].v.h.size / 16;
      }
      i := i + 1;
    }
    assert vec[..i] == vec;
  }

  /** totalHPointSize. */
  method TotalPoints(ps: seq<HPoint>) returns (n: nat)
    ensures n == PointsSize(ps)
  {
    n := 0;
    var i := 0;
    while i < |ps|
      invariant 0 <= i <= |ps| && n == PointsSize(ps[..i])
    {
      assert ps[..i + 1][..i] == ps[..i];
      n := n + (ps[i].v.size + 8) / 16;
      i := i + 1;
    }
    assert ps[..i] == ps;
  }

  /** Matrix.TotalSamples. */
  method MatrixSamples(mat: seq<Series>) returns (n: nat)
    ensures n == MatrixSize(mat)
  {
    n := 0;
    var i := 0;
    while i < |mat|
      invariant 0 <= i <= |mat| && n == MatrixSize(mat[..i])
    {
      assert mat[..i + 1][..i] == mat[..i];
      var points := TotalPoints(mat[i].histograms);
      n := n + |mat[i].floats| + points;
      i := i + 1;
    }
    assert mat[..i] == mat;
  }

  lemma {:induction false} MatrixSizeMore(mat: seq<Series>, s: Series)
    ensures MatrixSize(mat + [s]) == MatrixSize(mat) + SeriesSize(s)
  {
    assert (mat + [s])[..|mat|] == mat;
  }

  /** A point added to a series counts for no more than its sample did in the vector. */
  lemma {:induction false} SeriesSizeMore(s: Series, t: int, v: Value)
    ensures SeriesSize(AddToSeries(s, t, v)) <= SeriesSize(s) + ValueSize(v)
  {
    if v.H? {
      var ps, p := s.histograms, Point(t, v.h);
      assert (ps + [p])[..|ps|] == ps;
    }
  }

  /** Matrix.TotalSamples, of the output series. */
  ghost function EntriesSize(m: Seriess, keys: set<Labels>): nat
    requires keys <= m.Keys
  {
    if keys == {} then 0 else var k :| k in keys; SeriesSize(m[k].series) + EntriesSize(m, keys - {k})
  }

  lemma {:induction false} EntriesSizeOne(m: Seriess, keys: set<Labels>, k: Labels)
    requires keys <= m.Keys && k in keys
    ensures EntriesSize(m, keys) == SeriesSize(m[k].series) + EntriesSize(m, keys - {k})
    decreases |keys|
  {
    var j :| j in keys && EntriesSize(m, keys) == SeriesSize(m[j].series) + EntriesSize(m, keys - {j});
    if j != k {
      EntriesSizeOne(m, keys - {j}, k);
      EntriesSizeOne(m, keys - {k}, j);
      assert keys - {j} - {k} == keys - {k} - {j};
    }
  }

  lemma {:induction false} EntriesSizeSame(m: Seriess, m': Seriess, keys: set<Labels>)
    requires keys <= m.Keys && keys <= m'.Keys && forall k | k in keys :: m[k] == m'[k]
    ensures EntriesSize(m, keys) == EntriesSize(m', keys)
    decreases |keys|
  {
    if keys != {} {
      var k :| k in keys;
      EntriesSizeOne(m, keys, k);
      EntriesSizeOne(m', keys, k);
      EntriesSizeSame(m, m', keys - {k});
    }
  }

  lemma {:induction false} EntriesSizeMore(m: Seriess, sample: VectorSample, ts: int)
    ensures var m' := m[sample.metric := Added(m, sample, ts)];
            EntriesSize(m', m'.Keys) <= EntriesSize(m, m.Keys) + ValueSize(sample.v)
  {
    var k := sample.metric;
    var m' := m[k := Added(m, sample, ts)];
    var others := m.Keys - {k};
    assert m'.Keys - {k} == others;
    EntriesSizeOne(m', m'.Keys, k);
    EntriesSizeSame(m, m', others);
    SeriesSizeMore(if k in m then m[k].series else Series(k, [], [], sample.dropName), ts, sample.v);
    if k in m { EntriesSizeOne(m, m.Keys, k); } else { assert m.Keys == others; }
  }

  /** The evaluator's count of samples in memory, and its limit. */
  class Budget {
    var current: int
    const max: int

    constructor (max: int)
      ensures this.max == max && current == 0
    {
      this.max, current := max, 0;
    }
  }

  lemma {:induction false} HeadsGrow(input: seq<Series>, m: nat, n: nat, ts: int)
    requires m <= n <= |input|
    ensures |HeadsUpTo(input, m, ts)| <= |HeadsUpTo(input, n, ts)|
  {
    if m < n { HeadsGrow(input, m, n - 1, ts); }
  }

  /** The heads of the first `n` series have been popped. */
  ghost predicate PoppedUpTo(input: seq<Series>, before: seq<Series>, n: nat, ts: int) {
    && |input| == |before|
    && forall k | 0 <= k < |input| :: input[k] == if k < n then Pop(before[k], ts) else before[k]
  }

  /** One series, and its sample counted. */
  method CountSeries(ev: Budget, ts: int, series: Series, output: Vector)
    returns (ok: bool, output': Vector, series': Series)
    modifies ev`current
    ensures series' == Pop(series, ts)
    ensures output' == if Head(series, ts).None? then output
                       else output + [VectorSample(series.metric, Head(series, ts).value, series.dropName)]
    ensures ev.current == old(ev.current) + |output'| - |output| && (ok <==> output' == output || ev.current <= ev.max)
  {
    output', series' := GatherSeries(ts, series, output);
    ok := true;
    if |output'| > |output| {
      ev.current := ev.current + 1;
      ok := ev.current <= ev.max;
    }
  }

  method GatherVector(ev: Budget, ts: int, input: array<Series>) returns (ok: bool, output: Vector)
    modifies ev`current, input
    ensures ok <==> HeadsUpTo(old(input[..]), input.Length, ts) == [] ||
                    old(ev.current) + |HeadsUpTo(old(input[..]), input.Length, ts)| <= ev.max
    ensures ok ==> output == HeadsUpTo(old(input[..]), input.Length, ts) && ev.current == old(ev.current) + |output|
    ensures ok ==> forall k | 0 <= k < input.Length :: input[k] == Pop(old(input[k]), ts)
  {
    ghost var before := input[..];
    ok, output := true, [];
    var i := 0;
    while i < input.Length
      invariant 0 <= i <= input.Length && ok
      invariant output == HeadsUpTo(before, i, ts)
      invariant ev.current == old(ev.current) + |output| && (output == [] || ev.current <= ev.max)
      invariant PoppedUpTo(input[..], before, i, ts)
    {
      assert input[..][i] == before[i];
      var series;
      ok, output, series := CountSeries(ev, ts, input[i], output);
      if !ok {
        HeadsGrow(before, i + 1, input.Length, ts);
        return;
      }
      ghost var half := input[..];
      input[i] := series;
      assert input[..] == half[i := series];
      i := i + 1;
    }
  }

  /** Cursors that track their series give the samples at `ts`, ... */
  lemma {:induction false} HeadsAreVector(cursors: seq<Series>, orig: seq<Series>, n: nat, ts: int, interval: int)
    requires 0 < interval && Tracks(cursors, orig, ts, interval) && n <= |orig|
    ensures HeadsUpTo(cursors, n, ts) == VectorUpTo(orig, n, ts)
  {
    if n > 0 {
      HeadsAreVector(cursors, orig, n - 1, ts, interval);
      PopTracks(cursors[n - 1], orig[n - 1], ts, ts + interval, interval);
    }
  }

  /** ... and track them at the next step once their heads are popped. */
  lemma PopsTrack(cursors: seq<Series>, cursors': seq<Series>, orig: seq<Series>, ts: int, next: int, interval: int)
    requires 0 < interval && next == ts + interval && Tracks(cursors, orig, ts, interval)
    requires |cursors'| == |cursors| && forall k | 0 <= k < |cursors| :: cursors'[k] == Pop(cursors[k], ts)
    ensures Tracks(cursors', orig, next, interval)
  {
    forall i | 0 <= i < |orig| ensures TracksSeries(cursors'[i], orig[i], next, interval) {
      PopTracks(cursors[i], orig[i], ts, next, interval);
    }
  }

  // ---------------------------------------------------------------- the output series

  /** An output series and the last step that gave it a point. */
  datatype Entry = Entry(series: Series, ts: int)

  type Seriess = map<Labels, Entry>

  function AddToSeries(s: Series, t: int, v: Value): Series {
    match v
    case F(f) => s.(floats := s.floats + [Point(t, f)])
    case H(h) => s.(histograms := s.histograms + [Point(t, h)])
  }

  /** The entry of a sample's series once the sample is added to it. */
  function Added(m: Seriess, sample: VectorSample, ts: int): Entry {
    var before :=
        if sample.metric in m then m[sample.metric].series else Series(sample.metric, [], [], sample.dropName);
    Entry(AddToSeries(before, ts, sample.v), ts)
  }

  /** `m'` is `m` with a vector added at `ts`. */
  ghost predicate VectorAdded(m: Seriess, vec: Vector, ts: int, m': Seriess) {
    && (forall k :: k in m' <==> k in m || Lookup(vec, k).Some?)
    && (forall k | k in m' :: m'[k] == if Lookup(vec, k).Some? then Added(m, Lookup(vec, k).value, ts) else m[k])
  }

  lemma {:induction false} LookupIn(vec: Vector, metric: Labels) returns (i: nat)
    ensures Lookup(vec, metric).Some? ==> i < |vec| && vec[i].metric == metric && Lookup(vec, metric) == Some(vec[i])
    ensures Lookup(vec, metric).None? ==> forall x | 0 <= x < |vec| :: vec[x].metric != metric
  {
    if vec == [] || vec[|vec| - 1].metric == metric {
      i := if vec == [] then 0 else |vec| - 1;
    } else {
      i := LookupIn(vec[..|vec| - 1], metric);
    }
  }

  lemma SampleAdded(m: Seriess, vec: Vector, j: nat, ts: int, m': Seriess)
    requires j < |vec| && VectorAdded(m, vec[..j], ts, m') && Lookup(vec[..j], vec[j].metric).None?
    ensures VectorAdded(m, vec[..j + 1], ts, m'[vec[j].metric := Added(m', vec[j], ts)])
  {
    assert vec[..j + 1][..j] == vec[..j];
    assert forall k :: Lookup(vec[..j + 1], k) == if k == vec[j].metric then Some(vec[j]) else Lookup(vec[..j], k);
  }

  /** The first `j` samples of a vector have been added, none of them twice. */
  ghost predicate AddedUpTo(m: Seriess, vec: Vector, j: nat, ts: int, m': Seriess)
    requires j <= |vec|
  {
    && VectorAdded(m, vec[..j], ts, m') && !SameLabelset(vec[..j])
    && EntriesSize(m', m'.Keys) <= EntriesSize(m, m.Keys) + VectorSize(vec[..j])
  }

  lemma {:induction false} AddedNext(m: Seriess, vec: Vector, j: nat, ts: int, m': Seriess)
    requires j < |vec| && AddedUpTo(m, vec, j, ts, m') && Lookup(vec[..j], vec[j].metric).None?
    ensures AddedUpTo(m, vec, j + 1, ts, m'[vec[j].metric := Added(m', vec[j], ts)])
  {
    SampleAdded(m, vec, j, ts, m');
    EntriesSizeMore(m', vec[j], ts);
    assert vec[..j + 1][..j] == vec[..j];
    var _ := LookupIn(vec[..j], vec[j].metric);
  }

  /** Add the samples of one step; a labelset met twice at this step is an error. */
  method AddVector(m: Seriess, vec: Vector, ts: int) returns (ok: bool, m': Seriess)
    requires forall k | k in m :: m[k].ts < ts
    ensures ok <==> !SameLabelset(vec)
    ensures ok ==> VectorAdded(m, vec, ts, m')
    ensures ok ==> EntriesSize(m', m'.Keys) <= EntriesSize(m, m.Keys) + VectorSize(vec)
  {
    ok, m' := true, m;
    var j := 0;
    while j < |vec|
      invariant 0 <= j <= |vec| && ok && AddedUpTo(m, vec, j, ts, m')
    {
      var sample := vec[j];
      ghost var i := LookupIn(vec[..j], sample.metric);
      if sample.metric in m' && m'[sample.metric].ts == ts {
        assert vec[i].metric == vec[j].metric;
        return false, m';
      }
      AddedNext(m, vec, j, ts, m');
      m' := m'[sample.metric := Added(m', sample, ts)];
      j := j + 1;
    }
    assert vec[..j] == vec;
  }

  method ContainsSameLabelset(vec: Vector) returns (same: bool)
    ensures same <==> SameLabelset(vec)
  {
    if |vec| <= 1 {
      return false;
    }
    if |vec| == 2 {
      return vec[0].metric == vec[1].metric;
    }
    var seen: set<Labels> := {};
    var j := 0;
    while j < |vec|
      invariant 0 <= j <= |vec|
      invariant forall k :: k in seen <==> exists x :: 0 <= x < j && vec[x].metric == k
      invariant forall x, y | 0 <= x < y < j :: vec[x].metric != vec[y].metric
    {
      if vec[j].metric in seen {
        return true;
      }
      seen := seen + {vec[j].metric};
      j := j + 1;
    }
    same := false;
  }

  // ---------------------------------------------------------------- the output shows the results of all steps

  lemma {:induction false} FindAppend<V>(ps: seq<Point<V>>, p: Point<V>, t: int)
    ensures Find(ps + [p], t) == if Find(ps, t).Some? then Find(ps, t) else if p.t == t then Some(p.v) else None
  {
    if ps != [] {
      assert (ps + [p])[1..] == ps[1..] + [p];
      FindAppend(ps[1..], p, t);
    }
  }

  lemma {:induction false} FindBefore<V>(ps: seq<Point<V>>, t: int)
    requires forall x | 0 <= x < |ps| :: ps[x].t < t
    ensures Find(ps, t).None?
  {
    if ps != [] { FindBefore(ps[1..], t); }
  }

  /** All points of a series are before `t`. */
  ghost predicate Before(s: Series, t: int) {
    && (forall x | 0 <= x < |s.floats| :: s.floats[x].t < t)
    && (forall x | 0 <= x < |s.histograms| :: s.histograms[x].t < t)
  }

  /** A series that shows the values `shown` at the steps before `ts`. */
  ghost predicate Shows(s: Series, shown: int -> Option<Value>, grid: Grid, ts: int)
    requires 0 < grid.interval
  {
    && OnSteps(s, grid.start, grid.interval)
    && Before(s, ts)
    && forall t | OnGrid(t, grid.start, grid.interval) && t < ts :: ValueAt(s, t) == shown(t)
  }

  lemma AppendOnGrid<V(!new)>(ps: seq<Point<V>>, p: Point<V>, grid: Grid)
    requires 0 < grid.interval && PointsOnGrid(ps, grid.start, grid.interval) && OnGrid(p.t, grid.start, grid.interval)
    requires forall x | 0 <= x < |ps| :: ps[x].t < p.t
    ensures PointsOnGrid(ps + [p], grid.start, grid.interval)
  {
  }

  /** Adding the point of a step. */
  lemma AddShows(s: Series, v: Value, shown: int -> Option<Value>, grid: Grid, ts: int, next: int)
    requires 0 < grid.interval && next == ts + grid.interval && OnGrid(ts, grid.start, grid.interval)
    requires Shows(s, shown, grid, ts) && shown(ts) == Some(v)
    ensures Shows(AddToSeries(s, ts, v), shown, grid, next)
  {
    var s' := AddToSeries(s, ts, v);
    FindBefore(s.floats, ts);
    FindBefore(s.histograms, ts);
    forall t ensures ValueAt(s', t) == if t == ts then Some(v) else ValueAt(s, t)
             ensures Find(s'.floats, t).None? || Find(s'.histograms, t).None?
    {
      if v.F? { FindAppend(s.floats, Point(ts, v.f), t); } else { FindAppend(s.histograms, Point(ts, v.h), t); }
    }
    if v.F? { AppendOnGrid(s.floats, Point(ts, v.f), grid); } else { AppendOnGrid(s.histograms, Point(ts, v.h), grid); }
    forall t | OnGrid(t, grid.start, grid.interval) && t < next ensures t <= ts {
      NoStepBetween(t, ts, grid.start, grid.interval);
    }
  }

  /** A series without a point at `ts` shows the same before the next step. */
  lemma StillShows(s: Series, shown: int -> Option<Value>, grid: Grid, ts: int, next: int)
    requires 0 < grid.interval && next == ts + grid.interval && OnGrid(ts, grid.start, grid.interval)
    requires Shows(s, shown, grid, ts) && shown(ts).None?
    ensures Shows(s, shown, grid, next)
  {
    FindBefore(s.floats, ts);
    FindBefore(s.histograms, ts);
    forall t | OnGrid(t, grid.start, grid.interval) && t < next ensures t <= ts {
      NoStepBetween(t, ts, grid.start, grid.interval);
    }
  }

  /** What a labelset's output series has to show. */
  ghost function Shown(results: int -> Vector, metric: Labels): int -> Option<Value> {
    t => LookupValue(results(t), metric)
  }

  /** The entries before the step at `ts` show the results of the steps before it, and miss none. */
  ghost predicate Built(m: Seriess, results: int -> Vector, grid: Grid, ts: int)
    requires 0 < grid.interval
  {
    && (forall k | k in m :: m[k].series.metric == k && m[k].ts < ts && Shows(m[k].series, Shown(results, k), grid, ts))
    && (forall k, t | k !in m && OnGrid(t, grid.start, grid.interval) && t < ts :: Lookup(results(t), k).None?)
    && (forall k | k in m :: SeenBefore(results, k, grid, ts) && NamedAsFirst(m[k].series, k, results, grid, ts))
  }

  /** The step at `t` is the first that gave a sample with this labelset. */
  ghost predicate FirstSeen(results: int -> Vector, metric: Labels, grid: Grid, t: int)
    requires 0 < grid.interval
  {
    && OnGrid(t, grid.start, grid.interval) && Lookup(results(t), metric).Some?
    && forall u | OnGrid(u, grid.start, grid.interval) && u < t :: Lookup(results(u), metric).None?
  }

  /** Whether the name is to be dropped is taken from the first sample of the series. */
  ghost predicate NamedAsFirst(s: Series, metric: Labels, results: int -> Vector, grid: Grid, past: int)
    requires 0 < grid.interval
  {
    forall t | FirstSeen(results, metric, grid, t) && t < past ::
      s.dropName == Lookup(results(t), metric).value.dropName
  }

  /** Some step before `ts` gave a sample with this labelset. */
  ghost predicate SeenBefore(results: int -> Vector, metric: Labels, grid: Grid, ts: int)
    requires 0 < grid.interval
  {
    exists t :: OnGrid(t, grid.start, grid.interval) && t < ts && Lookup(results(t), metric).Some?
  }

  /** A labelset that has not been seen has an empty series to show. */
  lemma NothingToShow(metric: Labels, dropName: bool, results: int -> Vector, grid: Grid, ts: int)
    requires 0 < grid.interval
    requires forall t | OnGrid(t, grid.start, grid.interval) && t < ts :: Lookup(results(t), metric).None?
    ensures Shows(Series(metric, [], [], dropName), Shown(results, metric), grid, ts)
  {
  }

  lemma StepBuilds(m: Seriess, m': Seriess, results: int -> Vector, grid: Grid, ts: int, next: int)
    requires 0 < grid.interval && next == ts + grid.interval && OnGrid(ts, grid.start, grid.interval)
    requires Built(m, results, grid, ts) && VectorAdded(m, results(ts), ts, m')
    ensures Built(m', results, grid, next)
  {
    forall k | k in m'
      ensures m'[k].series.metric == k && m'[k].ts < next && Shows(m'[k].series, Shown(results, k), grid, next)
      ensures SeenBefore(results, k, grid, next) && NamedAsFirst(m'[k].series, k, results, grid, next)
    {
      FirstNames(m, m', results, grid, ts, next, k);
      KeyBuilds(m, m', results, grid, ts, next, k);
    }
    forall k, t | k !in m' && OnGrid(t, grid.start, grid.interval) && t < next ensures Lookup(results(t), k).None? {
      NoStepBetween(t, ts, grid.start, grid.interval);
    }
  }

  lemma FirstNames(m: Seriess, m': Seriess, results: int -> Vector, grid: Grid, ts: int, next: int, k: Labels)
    requires 0 < grid.interval && next == ts + grid.interval && OnGrid(ts, grid.start, grid.interval)
    requires Built(m, results, grid, ts) && VectorAdded(m, results(ts), ts, m') && k in m'
    ensures NamedAsFirst(m'[k].series, k, results, grid, next)
  {
    var i := LookupIn(results(ts), k);
    forall t | FirstSeen(results, k, grid, t) && t < next
      ensures m'[k].series.dropName == Lookup(results(t), k).value.dropName
    {
      NoStepBetween(t, ts, grid.start, grid.interval);
      if k in m {
        var u :| OnGrid(u, grid.start, grid.interval) && u < ts && Lookup(results(u), k).Some?;
        assert t <= u;
      }
    }
  }

  lemma KeyBuilds(m: Seriess, m': Seriess, results: int -> Vector, grid: Grid, ts: int, next: int, k: Labels)
    requires 0 < grid.interval && next == ts + grid.interval && OnGrid(ts, grid.start, grid.interval)
    requires Built(m, results, grid, ts) && VectorAdded(m, results(ts), ts, m') && k in m'
    ensures m'[k].series.metric == k && m'[k].ts < next && Shows(m'[k].series, Shown(results, k), grid, next)
    ensures SeenBefore(results, k, grid, next)
  {
    var sample := Lookup(results(ts), k);
    if sample.Some? {
      var i := LookupIn(results(ts), k);
      if k !in m { NothingToShow(k, sample.value.dropName, results, grid, ts); }
      var before := if k in m then m[k].series else Series(k, [], [], sample.value.dropName);
      AddShows(before, sample.value.v, Shown(results, k), grid, ts, next);
    } else {
      StillShows(m[k].series, Shown(results, k), grid, ts, next);
    }
  }

  // ---------------------------------------------------------------- rangeEval

  ghost predicate MatrixTracks(matrix: array<Series>, input: seq<Series>, ts: int, interval: int)
    requires 0 < interval
    reads matrix
  {
    Tracks(matrix[..], input, ts, interval)
  }

  ghost predicate AllTrack(matrixes: seq<array<Series>>, inputs: seq<seq<Series>>, ts: int, interval: int)
    requires 0 < interval
    reads matrixes
  {
    && |matrixes| == |inputs|
    && (forall i, j | 0 <= i < j < |matrixes| :: matrixes[i] != matrixes[j])
    && (forall i | 0 <= i < |inputs| :: MatrixTracks(matrixes[i], inputs[i], ts, interval))
  }

  /** Gather the input vector of one argument. */
  method GatherInput(ev: Budget, ts: int, matrix: array<Series>, ghost input: seq<Series>, ghost next: int,
                     ghost interval: int)
    returns (ok: bool, vec: Vector)
    requires 0 < interval && next == ts + interval && MatrixTracks(matrix, input, ts, interval)
    modifies ev`current, matrix
    ensures ok <==> VectorAt(input, ts) == [] || old(ev.current) + |VectorAt(input, ts)| <= ev.max
    ensures ok ==> vec == VectorAt(input, ts) && ev.current == old(ev.current) + |vec|
    ensures ok ==> MatrixTracks(matrix, input, next, interval)
  {
    ghost var cursors := matrix[..];
    ok, vec := GatherVector(ev, ts, matrix);
    HeadsAreVector(cursors, input, |cursors|, ts, interval);
    if ok { PopsTrack(cursors, matrix[..], input, ts, next, interval); }
  }

  /** The vectors of the first arguments. */
  ghost predicate Gathered(vectors: seq<Vector>, inputs: seq<seq<Series>>, ts: int) {
    |vectors| <= |inputs| && forall k | 0 <= k < |vectors| :: vectors[k] == VectorAt(inputs[k], ts)
  }

  lemma GatheredMore(vectors: seq<Vector>, inputs: seq<seq<Series>>, ts: int, vec: Vector)
    requires Gathered(vectors, inputs, ts) && |vectors| < |inputs| && vec == VectorAt(inputs[|vectors|], ts)
    ensures Gathered(vectors + [vec], inputs, ts)
  {
  }

  /** The number of samples the first `n` arguments have at `t`. */
  function CountUpTo(inputs: seq<seq<Series>>, n: nat, t: int): nat
    requires n <= |inputs|
  {
    if n == 0 then 0 else CountUpTo(inputs, n - 1, t) + |VectorAt(inputs[n - 1], t)|
  }

  lemma {:induction false} CountNext(inputs: seq<seq<Series>>, i: nat, t: int, total: nat)
    requires i < |inputs| && total == CountUpTo(inputs, |inputs|, t)
    ensures CountUpTo(inputs, i + 1, t) == CountUpTo(inputs, i, t) + |VectorAt(inputs[i], t)| <= total
  {
    CountGrows(inputs, i + 1, |inputs|, t);
  }

  lemma {:induction false} CountGrows(inputs: seq<seq<Series>>, m: nat, n: nat, t: int)
    requires m <= n <= |inputs|
    ensures CountUpTo(inputs, m, t) <= CountUpTo(inputs, n, t)
  {
    if m < n { CountGrows(inputs, m, n - 1, t); }
  }

  /** The first `i` arguments have been gathered. */
  ghost predicate Halfway(matrixes: seq<array<Series>>, inputs: seq<seq<Series>>, i: nat, ts: int, next: int,
                          interval: int)
    requires 0 < interval
    reads matrixes
  {
    && i <= |matrixes| == |inputs|
    && (forall x, y | 0 <= x < y < |matrixes| :: matrixes[x] != matrixes[y])
    && (forall k | 0 <= k < |matrixes| :: MatrixTracks(matrixes[k], inputs[k], if k < i then next else ts, interval))
  }

  method GatherNext(ev: Budget, ts: int, matrixes: seq<array<Series>>, i: nat, ghost inputs: seq<seq<Series>>,
                    ghost next: int, ghost interval: int)
    returns (ok: bool, vec: Vector)
    requires 0 < interval && next == ts + interval && i < |matrixes| && Halfway(matrixes, inputs, i, ts, next, interval)
    modifies ev`current, matrixes[i]
    ensures ok <==> VectorAt(inputs[i], ts) == [] || old(ev.current) + |VectorAt(inputs[i], ts)| <= ev.max
    ensures ok ==> vec == VectorAt(inputs[i], ts) && ev.current == old(ev.current) + |vec|
    ensures ok ==> Halfway(matrixes, inputs, i + 1, ts, next, interval)
  {
    ok, vec := GatherInput(ev, ts, matrixes[i], inputs[i], next, interval);
  }

  /** Gather the input vectors of one step. */
  method GatherInputs(ev: Budget, ts: int, matrixes: seq<array<Series>>, ghost inputs: seq<seq<Series>>,
                      ghost next: int, ghost interval: int)
    returns (ok: bool, vectors: seq<Vector>)
    requires 0 < interval && next == ts + interval && AllTrack(matrixes, inputs, ts, interval)
    modifies ev`current, matrixes
    ensures ok <==> CountUpTo(inputs, |inputs|, ts) == 0 || old(ev.current) + CountUpTo(inputs, |inputs|, ts) <= ev.max
    ensures ok ==> |vectors| == |inputs| && Gathered(vectors, inputs, ts)
    ensures ok ==> ev.current == old(ev.current) + CountUpTo(inputs, |inputs|, ts)
    ensures ok ==> AllTrack(matrixes, inputs, next, interval)
  {
    ok, vectors := true, [];
    var i: nat := 0;
    ghost var total, count := CountUpTo(inputs, |inputs|, ts), 0;
    while i < |matrixes|
      invariant i <= |matrixes| && |vectors| == i && Gathered(vectors, inputs, ts) && ok
      invariant count == CountUpTo(inputs, i, ts) <= total && ev.current == old(ev.current) + count
      invariant (count == 0 || ev.current <= ev.max)
      invariant Halfway(matrixes, inputs, i, ts, next, interval)
    {
      CountNext(inputs, i, ts, total);
      var vec;
      ok, vec := GatherNext(ev, ts, matrixes, i, inputs, next, interval);
      if !ok {
        return;
      }
      GatheredMore(vectors, inputs, ts, vec);
      vectors, i, count := vectors + [vec], i + 1, count + |vec|;
    }
  }

  ghost function Results(inputs: seq<seq<Series>>, call: VectorFunction): int -> Vector {
    t => ResultAt(inputs, call, t)
  }

  /** The output matrix of a range query: one series per labelset, on the steps again, showing the result of every
      step up to `end` and nothing else, and named as its first sample. */
  ghost predicate Represents(mat: seq<Series>, results: int -> Vector, grid: Grid)
    requires 0 < grid.interval
  {
    && (forall i, j | 0 <= i < j < |mat| :: mat[i].metric != mat[j].metric)
    && var past := grid.end + 1;
    && (forall s | s in mat ::
          Shows(s, Shown(results, s.metric), grid, past) && NamedAsFirst(s, s.metric, results, grid, past))
    && (forall k :: SeenBefore(results, k, grid, past) <==> HasSeries(mat, k))
  }

  ghost predicate HasSeries(mat: seq<Series>, metric: Labels) {
    exists s :: s in mat && s.metric == metric
  }

  /** Each entry but those of `rest` is in the matrix, once. */
  ghost predicate AssembledBut(mat: seq<Series>, m: Seriess, rest: set<Labels>) {
    && (forall i, j | 0 <= i < j < |mat| :: mat[i].metric != mat[j].metric)
    && (forall s | s in mat :: s.metric in m && s.metric !in rest && m[s.metric].series == s)
    && (forall k | k in m && k !in rest :: m[k].series in mat)
  }

  lemma {:induction false} AssembledMore(mat: seq<Series>, m: Seriess, rest: set<Labels>, k: Labels)
    requires AssembledBut(mat, m, rest) && k in rest && k in m && m[k].series.metric == k
    ensures AssembledBut(mat + [m[k].series], m, rest - {k})
  {
    var mat' := mat + [m[k].series];
    forall i | 0 <= i < |mat| ensures mat[i].metric != k {
      assert mat[i] in mat;
    }
    forall s | s in mat' ensures s.metric in m && s.metric !in rest - {k} && m[s.metric].series == s {
      assert s in mat || s == m[k].series;
    }
    forall k' | k' in m && k' !in rest - {k} ensures m[k'].series in mat' {
      assert k' == k ==> mat'[|mat|] == m[k].series;
    }
  }

  /** Put the output series into a matrix, in any order. */
  method Assemble(m: Seriess) returns (mat: seq<Series>)
    requires forall k | k in m :: m[k].series.metric == k
    ensures AssembledBut(mat, m, {}) && MatrixSize(mat) == EntriesSize(m, m.Keys)
  {
    mat := [];
    var rest := m.Keys;
    while rest != {}
      invariant rest <= m.Keys && AssembledBut(mat, m, rest)
      invariant MatrixSize(mat) + EntriesSize(m, rest) == EntriesSize(m, m.Keys)
      decreases |rest|
    {
      var k :| k in rest;
      EntriesSizeOne(m, rest, k);
      MatrixSizeMore(mat, m[k].series);
      AssembledMore(mat, m, rest, k);
      mat := mat + [m[k].series];
      rest := rest - {k};
    }
  }

  function SingletonSeries(s: VectorSample, ts: int): Series {
    if s.v.F? then Series(s.metric, [Point(ts, s.v.f)], [], s.dropName)
    else Series(s.metric, [], [Point(ts, s.v.h)], s.dropName)
  }

  lemma FindSingle<V>(p: Point<V>, t: int)
    ensures Find([p], t) == if t == p.t then Some(p.v) else None
  {
    assert [p][1..] == [];
    assert Find([p], t) == if p.t == t then Some(p.v) else Find([p][1..], t);
  }

  lemma SingletonShows(s: VectorSample, ts: int, t: int)
    ensures ValueAt(SingletonSeries(s, ts), t) == if t == ts then Some(s.v) else None
  {
    if s.v.F? {
      FindSingle(Point(ts, s.v.f), t);
    } else {
      FindSingle(Point(ts, s.v.h), t);
    }
  }

  lemma {:induction false} SingletonSize(s: VectorSample, ts: int)
    ensures SeriesSize(SingletonSeries(s, ts)) <= ValueSize(s.v)
  {
    SeriesSizeMore(Series(s.metric, [], [], s.dropName), ts, s.v);
  }

  /** The single-step matrix: one series per sample, in the order of the result. */
  ghost predicate RepresentsStep(mat: seq<Series>, result: Vector, ts: int) {
    && |mat| == |result|
    && forall i | 0 <= i < |mat| ::
         && mat[i].metric == result[i].metric && mat[i].dropName == result[i].dropName
         && (forall t :: ValueAt(mat[i], t) == if t == ts then Some(result[i].v) else None)
  }

  method InstantMatrix(result: Vector, ts: int) returns (mat: seq<Series>)
    ensures RepresentsStep(mat, result, ts) && MatrixSize(mat) <= VectorSize(result)
  {
    mat := [];
    var i := 0;
    while i < |result|
      invariant 0 <= i <= |result| && |mat| == i && MatrixSize(mat) <= VectorSize(result[..i])
      invariant forall k | 0 <= k < i :: mat[k] == SingletonSeries(result[k], ts)
    {
      SingletonSize(result[i], ts);
      MatrixSizeMore(mat, SingletonSeries(result[i], ts));
      assert result[..i + 1][..i] == result[..i];
      mat := mat + [SingletonSeries(result[i], ts)];
      i := i + 1;
    }
    assert result[..i] == result;
    forall k, t | 0 <= k < |mat| ensures ValueAt(mat[k], t) == if t == ts then Some(result[k].v) else None {
      SingletonShows(result[k], ts, t);
    }
  }

  lemma ShowsUpToEnd(s: Series, shown: int -> Option<Value>, grid: Grid, ts: int)
    requires 0 < grid.interval && grid.end < ts && WithinEnd(grid, ts) && Shows(s, shown, grid, ts)
    ensures Shows(s, shown, grid, grid.end + 1)
  {
  }

  lemma SeenUpToEnd(m: Seriess, results: int -> Vector, grid: Grid, ts: int, k: Labels)
    requires 0 < grid.interval && grid.end < ts && WithinEnd(grid, ts) && Built(m, results, grid, ts)
    ensures SeenBefore(results, k, grid, grid.end + 1) <==> k in m
  {
  }

  /** The end of the loop: all steps up to `end` have been made. */
  lemma AllStepsMade(m: Seriess, mat: seq<Series>, results: int -> Vector, grid: Grid, ts: int)
    requires 0 < grid.interval && grid.end < ts && WithinEnd(grid, ts)
    requires Built(m, results, grid, ts) && AssembledBut(mat, m, {})
    ensures Represents(mat, results, grid)
  {
    var past := grid.end + 1;
    forall s | s in mat
      ensures Shows(s, Shown(results, s.metric), grid, past) && NamedAsFirst(s, s.metric, results, grid, past)
    {
      ShowsUpToEnd(s, Shown(results, s.metric), grid, ts);
    }
    forall k ensures SeenBefore(results, k, grid, past) <==> HasSeries(mat, k) {
      SeenUpToEnd(m, results, grid, ts, k);
      if k in m { assert m[k].series in mat; }
    }
  }

  datatype EvalError = TooManySamples | DuplicateLabelset

  ghost function Counts(inputs: seq<seq<Series>>): int -> nat {
    t => CountUpTo(inputs, |inputs|, t)
  }

  /** What is wrong at `ts`: too many samples in memory, or two with one labelset. `held` are those of inputs and
      earlier results. */
  ghost function ErrorAt(results: int -> Vector, counts: int -> nat, ts: int, held: int, max: int): Option<EvalError> {
    if held + counts(ts) + VectorSize(results(ts)) > max then Some(TooManySamples)
    else if SameLabelset(results(ts)) then Some(DuplicateLabelset)
    else None
  }

  /** The first error of the steps from `ts` on. */
  ghost function FirstError(results: int -> Vector, counts: int -> nat, grid: Grid, ts: int, held: int,
                            max: int): Option<EvalError>
    requires 0 < grid.interval
    decreases grid.end - ts
  {
    if grid.end < ts then None
    else if ErrorAt(results, counts, ts, held, max).Some? then ErrorAt(results, counts, ts, held, max)
    else FirstError(results, counts, grid, ts + grid.interval, held + VectorSize(results(ts)), max)
  }

  /** The first error of a query from the step at `ts` on. */
  ghost function ErrorFrom(inputs: seq<seq<Series>>, call: VectorFunction, grid: Grid, ts: int, held: int,
                           max: int): Option<EvalError>
    requires 0 < grid.interval
  {
    FirstError(Results(inputs, call), Counts(inputs), grid, ts, held, max)
  }

  lemma {:induction false} ErrorAtStep(inputs: seq<seq<Series>>, call: VectorFunction, grid: Grid, ts: int, held: int,
                                       max: int)
    requires 0 < grid.interval && ts <= grid.end
    ensures held + CountUpTo(inputs, |inputs|, ts) + VectorSize(ResultAt(inputs, call, ts)) > max ==>
              ErrorFrom(inputs, call, grid, ts, held, max) == Some(TooManySamples)
    ensures held + CountUpTo(inputs, |inputs|, ts) + VectorSize(ResultAt(inputs, call, ts)) <= max &&
            SameLabelset(ResultAt(inputs, call, ts)) ==>
              ErrorFrom(inputs, call, grid, ts, held, max) == Some(DuplicateLabelset)
  {
    assert Results(inputs, call)(ts) == ResultAt(inputs, call, ts) &&
           Counts(inputs)(ts) == CountUpTo(inputs, |inputs|, ts);
  }

  lemma {:induction false} NoErrorAtStep(inputs: seq<seq<Series>>, call: VectorFunction, grid: Grid, ts: int, held: int,
                                         max: int, next: int, held': int)
    requires 0 < grid.interval && ts <= grid.end && next == ts + grid.interval
    requires held' == held + VectorSize(ResultAt(inputs, call, ts))
    requires held' + CountUpTo(inputs, |inputs|, ts) <= max && !SameLabelset(ResultAt(inputs, call, ts))
    ensures ErrorFrom(inputs, call, grid, ts, held, max) == ErrorFrom(inputs, call, grid, next, held', max)
  {
    assert Results(inputs, call)(ts) == ResultAt(inputs, call, ts) &&
           Counts(inputs)(ts) == CountUpTo(inputs, |inputs|, ts);
  }

  /** Gather, call and count. */
  method CallStep(ev: Budget, matrixes: seq<array<Series>>, call: VectorFunction, ts: int, held: int,
                  ghost inputs: seq<seq<Series>>, ghost next: int, ghost interval: int)
    returns (ok: bool, result: Vector, held': int)
    requires 0 < interval && next == ts + interval && AllTrack(matrixes, inputs, ts, interval)
    modifies ev`current, matrixes
    ensures ok <==> held + CountUpTo(inputs, |inputs|, ts) + VectorSize(ResultAt(inputs, call, ts)) <= ev.max
    ensures ok ==> result == ResultAt(inputs, call, ts) && held' == held + VectorSize(result)
    ensures ok ==> AllTrack(matrixes, inputs, next, interval)
  {
    ev.current := held;
    var vectors;
    ok, vectors := GatherInputs(ev, ts, matrixes, inputs, next, interval);
    result, held' := [], held;
    if !ok {
      return;
    }
    assert vectors == seq(|inputs|, i requires 0 <= i < |inputs| => VectorAt(inputs[i], ts));
    result := call(vectors, ts);
    var n := TotalSamples(result);
    ev.current, held' := ev.current + n, held + n;
    ok := ev.current <= ev.max;
  }

  /** Make one step of a range query. */
  method Step(ev: Budget, grid: Grid, matrixes: seq<array<Series>>, call: VectorFunction, seriess: Seriess, ts: int,
              held: int, ghost inputs: seq<seq<Series>>)
    returns (err: Option<EvalError>, next: int, seriess': Seriess, held': int)
    requires 0 < grid.interval && ts <= grid.end && OnGrid(ts, grid.start, grid.interval) && WithinEnd(grid, ts)
    requires AllTrack(matrixes, inputs, ts, grid.interval)
    requires Built(seriess, Results(inputs, call), grid, ts)
    modifies ev`current, matrixes
    ensures next == ts + grid.interval
    ensures err.Some? ==> err == ErrorFrom(inputs, call, grid, ts, held, ev.max)
    ensures err.None? ==>
              ErrorFrom(inputs, call, grid, ts, held, ev.max) == ErrorFrom(inputs, call, grid, next, held', ev.max)
    ensures err.None? ==> held' <= ev.max && OnGrid(next, grid.start, grid.interval) && WithinEnd(grid, next)
    ensures err.None? ==> AllTrack(matrixes, inputs, next, grid.interval)
    ensures err.None? ==> Built(seriess', Results(inputs, call), grid, next)
    ensures err.None? ==> EntriesSize(seriess', seriess'.Keys) + held <= EntriesSize(seriess, seriess.Keys) + held'
  {
    next, seriess' := ts + grid.interval, seriess;
    ErrorAtStep(inputs, call, grid, ts, held, ev.max);
    var ok, result;
    ok, result, held' := CallStep(ev, matrixes, call, ts, held, inputs, next, grid.interval);
    if !ok {
      return Some(TooManySamples), next, seriess', held';
    }
    ok, seriess' := AddVector(seriess, result, ts);
    if !ok {
      return Some(DuplicateLabelset), next, seriess', held';
    }
    StepBuilds(seriess, seriess', Results(inputs, call), grid, ts, next);
    StepMade(grid, ts, next);
    NoErrorAtStep(inputs, call, grid, ts, held, ev.max, next, held');
    err := None;
  }

  /** The steps of a range query. `held` are the samples of the inputs. */
  method AllSteps(ev: Budget, grid: Grid, matrixes: seq<array<Series>>, call: VectorFunction,
                  ghost inputs: seq<seq<Series>>)
    returns (r: Result<seq<Series>, EvalError>)
    requires 0 < grid.interval && AllTrack(matrixes, inputs, grid.start, grid.interval)
    modifies ev`current, matrixes
    ensures var e := ErrorFrom(inputs, call, grid, grid.start, old(ev.current), ev.max);
            if e.Some? then r == Err(e.value) else r.Ok? && Represents(r.value, Results(inputs, call), grid)
    ensures r.Ok? && grid.start <= grid.end ==> old(ev.current) + MatrixSize(r.value) <= ev.max
  {
    ghost var results := Results(inputs, call);
    var seriess: Seriess, held, ts := map[], ev.current, grid.start;
    forall t | OnGrid(t, grid.start, grid.interval) ensures grid.start <= t {
      StartsNoLater(t, grid.start, grid.interval);
    }
    while ts <= grid.end
      invariant OnGrid(ts, grid.start, grid.interval) && WithinEnd(grid, ts)
      invariant AllTrack(matrixes, inputs, ts, grid.interval)
      invariant Built(seriess, results, grid, ts)
      invariant ErrorFrom(inputs, call, grid, ts, held, ev.max) ==
                ErrorFrom(inputs, call, grid, grid.start, old(ev.current), ev.max)
      invariant old(ev.current) + EntriesSize(seriess, seriess.Keys) <= held && (ts == grid.start || held <= ev.max)
      decreases grid.end - ts
    {
      var err;
      err, ts, seriess, held := Step(ev, grid, matrixes, call, seriess, ts, held, inputs);
      if err.Some? {
        return Err(err.value);
      }
    }
    var mat := Assemble(seriess);
    AllStepsMade(seriess, mat, results, grid, ts);
    r := Ok(mat);
  }

  /** A query of one step keeps the order of the result. */
  method OneStep(ev: Budget, grid: Grid, delayedNameRemoval: bool, matrixes: seq<array<Series>>, call: VectorFunction,
                 ghost inputs: seq<seq<Series>>)
    returns (r: Result<seq<Series>, EvalError>)
    requires 0 < grid.interval && AllTrack(matrixes, inputs, grid.start, grid.interval)
    modifies ev`current, matrixes
    ensures var e := ErrorAt(Results(inputs, call), Counts(inputs), grid.start, old(ev.current), ev.max);
            if e.Some? && (e.value.TooManySamples? || !delayedNameRemoval) then r == Err(e.value)
            else r.Ok? && RepresentsStep(r.value, ResultAt(inputs, call, grid.start), grid.start)
    ensures r.Ok? ==> old(ev.current) + MatrixSize(r.value) <= ev.max
  {
    ghost var results, counts := Results(inputs, call), Counts(inputs);
    var ok, result, _ :=
        CallStep(ev, matrixes, call, grid.start, ev.current, inputs, grid.start + grid.interval, grid.interval);
    assert results(grid.start) == ResultAt(inputs, call, grid.start) &&
           counts(grid.start) == CountUpTo(inputs, |inputs|, grid.start);
    if !ok {
      return Err(TooManySamples);
    }
    if !delayedNameRemoval {
      var same := ContainsSameLabelset(result);
      if same {
        return Err(DuplicateLabelset);
      }
    }
    var mat := InstantMatrix(result, grid.start);
    r := Ok(mat);
  }

  /** Evaluate a function over vectors for every step. It fails exactly with the first error of its steps; duplicates
      are left in a query of one step when name removal is delayed. Afterwards only the output is counted, on top of
      the `original` count, and it keeps to the limit. */
  method RangeEval(ev: Budget, grid: Grid, delayedNameRemoval: bool, matrixes: seq<array<Series>>, call: VectorFunction,
                   original: int, ghost inputs: seq<seq<Series>>)
    returns (r: Result<seq<Series>, EvalError>)
    requires 0 < grid.interval && AllTrack(matrixes, inputs, grid.start, grid.interval)
    modifies ev`current, matrixes
    ensures grid.start != grid.end ==>
              var e := ErrorFrom(inputs, call, grid, grid.start, old(ev.current), ev.max);
              if e.Some? then r == Err(e.value) else r.Ok? && Represents(r.value, Results(inputs, call), grid)
    ensures grid.start == grid.end ==>
              var e := ErrorAt(Results(inputs, call), Counts(inputs), grid.start, old(ev.current), ev.max);
              if e.Some? && (e.value.TooManySamples? || !delayedNameRemoval) then r == Err(e.value)
              else r.Ok? && RepresentsStep(r.value, ResultAt(inputs, call, grid.start), grid.start)
    ensures r.Ok? ==> ev.current == original + MatrixSize(r.value)
    ensures r.Ok? && original <= old(ev.current) && grid.start <= grid.end ==> ev.current <= ev.max
  {
    if grid.start == grid.end {
      r := OneStep(ev, grid, delayedNameRemoval, matrixes, call, inputs);
    } else {
      r := AllSteps(ev, grid, matrixes, call, inputs);
    }
    if r.Ok? {
      var n := MatrixSamples(r.value);
      ev.current := original + n;
    }
  }

  // ---------------------------------------------------------------- when there is an error

  /** The samples held before the step at `t`: those of the inputs and of all earlier results. */
  ghost function HeldAt(results: int -> Vector, ts: int, interval: int, held: int, t: int): int
    requires 0 < interval
    decreases t - ts
  {
    if t <= ts then held else HeldAt(results, ts + interval, interval, held + VectorSize(results(ts)), t)
  }

  /** There is no error exactly when every step fits into memory and has no two samples with one labelset. */
  lemma {:induction false} NoErrorExactly(results: int -> Vector, counts: int -> nat, grid: Grid, ts: int, held: int,
                                          max: int)
    requires 0 < grid.interval
    ensures FirstError(results, counts, grid, ts, held, max) == None <==>
            forall t | OnGrid(t, ts, grid.interval) && t <= grid.end ::
              !SameLabelset(results(t)) &&
                HeldAt(results, ts, grid.interval, held, t) + counts(t) + VectorSize(results(t)) <= max
    decreases grid.end - ts
  {
    if grid.end < ts {
      forall t | OnGrid(t, ts, grid.interval) ensures grid.end < t {
        StartsNoLater(t, ts, grid.interval);
      }
    } else {
      var next, held' := ts + grid.interval, held + VectorSize(results(ts));
      NoErrorExactly(results, counts, grid, next, held', max);
      assert OnGrid(ts, ts, grid.interval);
      forall t ensures OnGrid(t, ts, grid.interval) <==> t == ts || OnGrid(t, next, grid.interval) {
        if OnGrid(t, next, grid.interval) { StartsNoLater(t, next, grid.interval); }
      }
      forall t | OnGrid(t, next, grid.interval)
        ensures HeldAt(results, ts, grid.interval, held, t) == HeldAt(results, next, grid.interval, held', t)
      {
        StartsNoLater(t, next, grid.interval);
      }
    }
  }
}
