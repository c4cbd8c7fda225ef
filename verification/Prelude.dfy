/** Datatypes shared by the other modules. */
module Prelude {

  datatype Option<+T> = None | Some(value: T)

  datatype Result<+T, +E> = Ok(value: T) | Err(error: E)

  /** A float64 without rounding. The stale marker is one particular NaN. */
  datatype Float = Finite(x: real) | PosInf | NegInf | NaN(staleMarker: bool)

  predicate IsStaleNaN(f: Float) {
    f == NaN(true)
  }

  /** `a < b` of float64: false when either is not a number. */
  predicate Lt(a: Float, b: Float) {
    match (a, b)
    case (Finite(x), Finite(y)) => x < y
    case (NegInf, Finite(_)) => true
    case (NegInf, PosInf) => true
    case (Finite(_), PosInf) => true
    case _ => false
  }

  function Max(a: int, b: int): int {
    if a < b then b else a
  }

  function Min(a: int, b: int): int {
    if a < b then a else b
  }

  function Truncate(x: real): int {
    if x >= 0.0 then x.Floor else -((-x).Floor)
  }

  /** A native histogram: the parts the engine looks at, and `rest` for everything else. */
  datatype Histogram = Histogram(sum: Float, size: nat, rest: int)

  /** A point of a series: FPoint and HPoint of the source. */
  datatype Point<V> = Point(t: int, v: V)

  type FPoint = Point<Float>

  type HPoint = Point<Histogram>

  /** The steps start, start + interval, ... up to end of a range query. */
  datatype Grid = Grid(start: int, end: int, interval: int)

  type Labels = map<string, string>

  // ---------------------------------------------------------------- the steps of a grid

  /** `t` is one of ts, ts + interval, ... */
  predicate OnGrid(t: int, ts: int, interval: int)
    requires 0 < interval
    decreases t - ts
  {
    t == ts || (ts < t && OnGrid(t, ts + interval, interval))
  }

  /** No step lies strictly between `ts` and the next one. */
  lemma {:induction false} NoStepBetween(t: int, ts: int, start: int, interval: int)
    requires 0 < interval && OnGrid(t, start, interval) && OnGrid(ts, start, interval)
    ensures ts < t ==> ts + interval <= t && OnGrid(t, ts + interval, interval)
    decreases ts - start
  {
    if start < ts {
      if start < t { NoStepBetween(t, ts, start + interval, interval); }
    } else if start < t {
      StartsNoLater(t, start + interval, interval);
    }
  }

  lemma {:induction false} StartsNoLater(t: int, start: int, interval: int)
    requires 0 < interval && OnGrid(t, start, interval)
    ensures start <= t
    decreases t - start
  {
  }

  lemma {:induction false} NextOnGrid(ts: int, start: int, interval: int)
    requires 0 < interval && OnGrid(ts, start, interval)
    ensures OnGrid(ts + interval, start, interval)
    decreases ts - start
  {
    if start < ts { NextOnGrid(ts, start + interval, interval); }
  }

  /** The steps before `ts` are steps up to `end`. */
  ghost predicate WithinEnd(grid: Grid, ts: int)
    requires 0 < grid.interval
  {
    forall t | OnGrid(t, grid.start, grid.interval) && t < ts :: t <= grid.end
  }

  /** The loop's bookkeeping from one step to the next. */
  lemma StepMade(grid: Grid, ts: int, next: int)
    requires 0 < grid.interval && next == ts + grid.interval && OnGrid(ts, grid.start, grid.interval) && ts <= grid.end
    requires WithinEnd(grid, ts)
    ensures OnGrid(next, grid.start, grid.interval) && WithinEnd(grid, next)
  {
    NextOnGrid(ts, grid.start, grid.interval);
    forall t | OnGrid(t, grid.start, grid.interval) && t < next ensures t <= ts {
      NoStepBetween(t, ts, grid.start, grid.interval);
    }
  }
}
