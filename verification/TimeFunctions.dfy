/**
 The functions that look at the time they are called at (promql/functions.go,
 promql/info.go): every other function depends on its arguments alone, rate and
 its like on the window they are given.

 Numbers are exact. What time.Time says about a date, the info series at a time,
 and all other functions are parameters.
 */
module TimeFunctions {
  import opened Prelude

  /** An element of an instant vector, without its labels; a histogram has no number. A sample's own timestamp is
      there only in a selector that `timestamp` is called on directly: other vectors carry the evaluation time. */
  datatype Element = Element(x: Option<real>, stamp: Option<int>)

  datatype Value = Vector(elements: seq<Element>) | Matrix(points: seq<Point<real>>) | Text(s: string)

  /** `calendar` gives, for a date function, the number of a Unix time. */
  datatype Library = Library(
    calendar: (string, int) -> real,
    infoAt: int -> Value,
    join: (seq<Value>, Value) -> Value,
    other: (string, seq<Value>) -> Value)

  const DATE_FUNCTIONS: set<string> :=
    {"days_in_month", "day_of_month", "day_of_week", "day_of_year", "hour", "minute", "month", "year"}

  function Number(x: real): Value {
    Vector([Element(Some(x), None)])
  }

  /** A timestamp in seconds, rounded toward zero. */
  function UnixSeconds(ts: int): int {
    if 0 <= ts then ts / 1000 else -(-ts / 1000)
  }

  function Seconds(ts: int): real {
    ts as real / 1000.0
  }

  // ---------------------------------------------------------------- implementations

  function Dates(date: int -> real, es: seq<Element>): seq<Element> {
    if es == [] then []
    else if es[0].x.None? then Dates(date, es[1..])
    else [Element(Some(date(Truncate(es[0].x.value))), None)] + Dates(date, es[1..])
  }

  /** A date function: of its argument, or of the evaluation time when it has none. */
  function DateWrapper(lib: Library, f: string, args: seq<Value>, ts: int): Value {
    if args == [] then Number(lib.calendar(f, UnixSeconds(ts)))
    else if args[0].Vector? then Vector(Dates(t => lib.calendar(f, t), args[0].elements))
    else Vector([])
  }

  function Timestamps(es: seq<Element>, ts: int): seq<Element> {
    if es == [] then []
    else [Element(Some(Seconds(if es[0].stamp.Some? then es[0].stamp.value else ts)), None)] + Timestamps(es[1..], ts)
  }

  /** The sum of `g` over the points, whose times are taken in seconds from `t0`. */
  function Total(ps: seq<Point<real>>, t0: int, g: (real, real) -> real): real {
    if ps == [] then 0.0 else g(Seconds(ps[0].t - t0), ps[0].v) + Total(ps[1..], t0, g)
  }

  function X(x: real, y: real): real { x }

  function Y(x: real, y: real): real { y }

  function XY(x: real, y: real): real { x * y }

  function XX(x: real, y: real): real { x * x }

  /** The value at `t0` of the line through the points, and its slope; nothing when all are at one time. */
  function LinearRegression(ps: seq<Point<real>>, t0: int): Option<(real, real)>
    requires ps != []
  {
    if forall i | 0 <= i < |ps| :: ps[i].v == ps[0].v then Some((0.0, ps[0].v))
    else
      var n := |ps| as real;
      var x, y := Total(ps, t0, X), Total(ps, t0, Y);
      var covariance := Total(ps, t0, XY) - x * y / n;
      var variance := Total(ps, t0, XX) - x * x / n;
      if variance == 0.0 then None
      else
        var slope := covariance / variance;
        Some((slope, y / n - slope * x / n))
  }

  function PredictLinear(ps: seq<Point<real>>, duration: real, ts: int): Value {
    if |ps| < 2 then Vector([])
    else
      var line := LinearRegression(ps, ts);
      if line.None? then Vector([Element(None, None)]) else Number(line.value.0 * duration + line.value.1)
  }

  predicate IsNumber(v: Value) {
    v.Vector? && v.elements != [] && v.elements[0].x.Some?
  }

  /** What a function gives when it is called at `ts`. */
  function FunctionCall(lib: Library, f: string, args: seq<Value>, ts: int): Value {
    if f == "time" then Number(Seconds(ts))
    else if f in DATE_FUNCTIONS then DateWrapper(lib, f, args, ts)
    else if f == "timestamp" && args != [] && args[0].Vector? then Vector(Timestamps(args[0].elements, ts))
    else if f == "predict_linear" && |args| >= 2 && args[0].Matrix? && IsNumber(args[1])
         then PredictLinear(args[0].points, args[1].elements[0].x.value, ts)
    else if f == "info" && args != [] then lib.join(args, lib.infoAt(ts))
    else lib.other(f, args)
  }

  // ---------------------------------------------------------------- which of them look at the time

  /** Called with `n` arguments, the function can give different results at different times for the same arguments. */
  ghost predicate LooksAtTime(f: string, n: nat) {
    exists lib, args, t, u :: |args| == n && FunctionCall(lib, f, args, t) != FunctionCall(lib, f, args, u)
  }

  /** The names of such functions, by their number of arguments. */
  predicate OfTime(f: string, n: nat) {
    || f == "time"
    || (f in DATE_FUNCTIONS && n == 0)
    || (f == "predict_linear" && n >= 2)
    || (f == "timestamp" && n >= 1)
    || (f == "info" && n >= 1)
  }

  /** A library in which dates are Unix times and the info series tell the time. */
  const CLOCK: Library :=
    Library((f, t) => t as real, t => Number(t as real), (args: seq<Value>, info: Value) => info,
            (f: string, args: seq<Value>) => Vector([]))

  lemma TotalOfTwo(p: Point<real>, q: Point<real>, t0: int, g: (real, real) -> real)
    ensures Total([p, q], t0, g) == g(Seconds(p.t - t0), p.v) + g(Seconds(q.t - t0), q.v)
  {
    assert [p, q][1..] == [q] && [q][1..] == [];
    assert Total([q], t0, g) == g(Seconds(q.t - t0), q.v) + Total([], t0, g);
  }

  lemma LineOfTwo(ps: seq<Point<real>>, t0: int, x: real)
    requires ps == [Point(0, 0.0), Point(1000, 1.0)] && x == Seconds(-t0)
    ensures Total(ps, t0, X) == x + x + 1.0 && Total(ps, t0, Y) == 1.0
    ensures Total(ps, t0, XY) == x + 1.0 && Total(ps, t0, XX) == x * x + (x + 1.0) * (x + 1.0)
  {
    assert Seconds(1000 - t0) == x + 1.0;
    TotalOfTwo(ps[0], ps[1], t0, X);
    TotalOfTwo(ps[0], ps[1], t0, Y);
    TotalOfTwo(ps[0], ps[1], t0, XY);
    TotalOfTwo(ps[0], ps[1], t0, XX);
  }

  /** The line through (0, 0) and (1000 ms, 1) is at 0 at the first, at 1 at the second. */
  lemma LineMoves(ps: seq<Point<real>>)
    requires ps == [Point(0, 0.0), Point(1000, 1.0)]
    ensures LinearRegression(ps, 0) == Some((1.0, 0.0)) && LinearRegression(ps, 1000) == Some((1.0, 1.0))
  {
    assert ps[1].v != ps[0].v && |ps| as real == 2.0;
    LineOfTwo(ps, 0, 0.0);
    LineOfTwo(ps, 1000, -1.0);
  }

  lemma PredictionMoves(lib: Library, args: seq<Value>)
    requires |args| >= 2 && args[0] == Matrix([Point(0, 0.0), Point(1000, 1.0)]) && args[1] == Number(0.0)
    ensures FunctionCall(lib, "predict_linear", args, 0) == Number(0.0)
    ensures FunctionCall(lib, "predict_linear", args, 1000) == Number(1.0)
  {
    LineMoves(args[0].points);
  }

  lemma TimestampMoves(lib: Library, args: seq<Value>)
    requires args != [] && args[0] == Number(0.0)
    ensures FunctionCall(lib, "timestamp", args, 0) == Number(0.0)
    ensures FunctionCall(lib, "timestamp", args, 1000) == Number(1.0)
  {
    var es := args[0].elements;
    assert es[1..] == [] && forall ts :: Timestamps([], ts) == [];
  }

  /** Arguments for which the function gives different results at two times. */
  lemma TellsTime(f: string, n: nat) returns (args: seq<Value>)
    requires OfTime(f, n)
    ensures |args| == n && FunctionCall(CLOCK, f, args, 0) != FunctionCall(CLOCK, f, args, 1000)
  {
    args := seq(n, i => Number(0.0));
    if f == "predict_linear" {
      args := args[0 := Matrix([Point(0, 0.0), Point(1000, 1.0)])];
      PredictionMoves(CLOCK, args);
    } else if f == "timestamp" {
      TimestampMoves(CLOCK, args);
    } else if f in DATE_FUNCTIONS {
      assert FunctionCall(CLOCK, f, args, 0) == Number(0.0) && FunctionCall(CLOCK, f, args, 1000) == Number(1.0);
    } else if f == "info" {
      assert FunctionCall(CLOCK, f, args, 0) == Number(0.0) && FunctionCall(CLOCK, f, args, 1000) == Number(1000.0);
    }
  }

  /** The functions that look at the time are exactly these. */
  lemma OfTimeExactly(f: string, n: nat)
    ensures OfTime(f, n) <==> LooksAtTime(f, n)
  {
    if OfTime(f, n) {
      var args := TellsTime(f, n);
    }
  }
}
