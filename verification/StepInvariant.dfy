/**
 Step-invariant sub-expressions (promql/engine.go): PreprocessExpr wraps what
 cannot change from step to step, and the evaluator computes wrapped nodes once,
 at its first step, and copies them. A selector with an `@` modifier has its
 offset set against that first step, so it would be wrong at any other.

 Values are abstract: an interpretation says what selectors, functions and
 operators give.
 */
module StepInvariant {
  import opened Prelude
  import opened Subquery
  import R = RangeEval
  import T = TimeFunctions

  type Pos = x: int | 0 < x witness 1

  datatype At = NoAt | AtTime(ts: int) | AtStart | AtEnd

  datatype Expr =
    | Number(x: real)
    | Str(s: string)
    | VectorSelector(sel: int, offset: int, at: At)
    | MatrixSelector(sel: int, span: Pos, offset: int, at: At)
    | SubqueryExpr(e: Expr, span: Pos, offset: int, step: Pos, at: At)
    | Aggregate(op: string, e: Expr, param: Option<Expr>)
    | Binary(op: string, lhs: Expr, rhs: Expr)
    | Call(f: string, args: seq<Expr>)
    | Paren(e: Expr)
    | Unary(e: Expr)
    | Wrapped(e: Expr)

  /** The query's own start and end. */
  datatype Query = Query(start: int, end: int)

  // ---------------------------------------------------------------- the rewrite

  const AT_MODIFIER_UNSAFE: set<string> :=
    {"days_in_month", "day_of_month", "day_of_week", "day_of_year", "hour", "minute", "month", "year",
     "predict_linear", "time", "timestamp"}

  function Resolve(at: At, q: Query): At {
    match at
    case AtStart => AtTime(q.start)
    case AtEnd => AtTime(q.end)
    case _ => at
  }

  function Wrap(e: Expr, invariant_: bool): Expr {
    if invariant_ then Wrapped(e) else e
  }

  /** Whether an expression qualifies to be wrapped. */
  predicate Qualifies(e: Expr) {
    match e
    case Number(_) => true
    case Str(_) => true
    case VectorSelector(_, _, at) => !at.NoAt?
    case MatrixSelector(_, _, _, at) => !at.NoAt?
    case SubqueryExpr(_, _, _, _, at) => !at.NoAt?
    case Aggregate(_, e', _) => Qualifies(e')
    case Binary(_, lhs, rhs) => Qualifies(lhs) && Qualifies(rhs)
    case Call(f, args) => f !in AT_MODIFIER_UNSAFE && forall i | 0 <= i < |args| :: Qualifies(args[i])
    case Paren(e') => Qualifies(e')
    case Unary(e') => Qualifies(e')
    case Wrapped(_) => true
  }

  /** preprocessExprHelper: the tree it leaves behind. */
  function Preprocess(e: Expr, q: Query): Expr {
    match e
    case VectorSelector(sel, offset, at) => VectorSelector(sel, offset, Resolve(at, q))
    case MatrixSelector(sel, span, offset, at) => MatrixSelector(sel, span, offset, Resolve(at, q))
    case SubqueryExpr(e', span, offset, step, at) =>
      SubqueryExpr(Wrap(Preprocess(e', q), Qualifies(e')), span, offset, step, Resolve(at, q))
    case Aggregate(op, e', param) => Aggregate(op, Preprocess(e', q), param)
    case Binary(op, lhs, rhs) =>
      var both := Qualifies(lhs) && Qualifies(rhs);
      Binary(op, Wrap(Preprocess(lhs, q), Qualifies(lhs) && !both), Wrap(Preprocess(rhs, q), Qualifies(rhs) && !both))
    case Call(f, args) =>
      Call(f, seq(|args|, i requires 0 <= i < |args| =>
                  Wrap(Preprocess(args[i], q), Qualifies(args[i]) && !Qualifies(e))))
    case Paren(e') => Paren(Preprocess(e', q))
    case Unary(e') => Unary(Preprocess(e', q))
    case _ => e
  }

  function PreprocessExpr(e: Expr, q: Query): Expr {
    Wrap(Preprocess(e, q), Qualifies(e))
  }

  // ---------------------------------------------------------------- meaning

  datatype Interp<!V> = Interp(
    number: real -> V,
    str: string -> V,
    instant: (int, int) -> V,
    range: (int, int, int) -> V,
    subquery: seq<(int, V)> -> V,
    aggregate: (string, V, Option<V>) -> V,
    binary: (string, V, V) -> V,
    call: (string, seq<V>, int) -> V,
    unary: V -> V)

  /** Only functions of time look at the evaluation time. */
  ghost predicate SafeCalls<V(!new)>(I: Interp<V>) {
    forall f, args, t, u | !T.OfTime(f, |args|) :: I.call(f, args, t) == I.call(f, args, u)
  }

  /** The functions are those of the engine. */
  ghost predicate EngineCalls(I: Interp<T.Value>, lib: T.Library) {
    forall f, args, t :: I.call(f, args, t) == T.FunctionCall(lib, f, args, t)
  }

  lemma EngineIsSafe(I: Interp<T.Value>, lib: T.Library)
    requires EngineCalls(I, lib)
    ensures SafeCalls(I)
  {
    forall f, args, t, u | !T.OfTime(f, |args|) ensures I.call(f, args, t) == I.call(f, args, u) {
      T.OfTimeExactly(f, |args|);
      assert T.FunctionCall(lib, f, args, t) == T.FunctionCall(lib, f, args, u);
    }
  }

  /** The table has the functions that can look at the time, except for `info`. */
  lemma UnsafeExactly(f: string)
    ensures f in AT_MODIFIER_UNSAFE <==> f != "info" && exists n :: T.LooksAtTime(f, n)
  {
    forall n ensures T.OfTime(f, n) <==> T.LooksAtTime(f, n) {
      T.OfTimeExactly(f, n);
    }
    if f in AT_MODIFIER_UNSAFE {
      assert T.OfTime(f, 0) || T.OfTime(f, 2);
    }
  }

  /** A call that looks at the time is never wrapped, except for one of `info`. */
  lemma {:induction false} CallsOfTime(f: string, args: seq<Expr>)
    requires T.OfTime(f, |args|) && f != "info"
    ensures !Qualifies(Call(f, args))
  {
    T.OfTimeExactly(f, |args|);
    UnsafeExactly(f);
  }

  /** The inner steps of a subquery whose window is (mint, maxt]. */
  function InnerTimes(mint: int, maxt: int, step: Pos): seq<int> {
    var first := AlignedStart(mint, step);
    if maxt < first then [] else seq((maxt - first) / step + 1, k requires 0 <= k => first + k * step)
  }

  lemma DivAtLeast(k: int, step: Pos, d: int)
    requires step * k <= d
    ensures k <= d / step
  {
    if d / step < k {
      Ordered(step, d / step + 1, k);
    }
  }

  lemma DivAtMost(k: int, step: Pos, d: int)
    requires k <= d / step
    ensures step * k <= d
  {
    Ordered(step, k, d / step);
  }

  /** They are the multiples of the step in the window. */
  lemma InnerTimesExactly(mint: int, maxt: int, step: Pos, u: int)
    ensures u in InnerTimes(mint, maxt, step) <==> mint < u <= maxt && Multiple(u, step)
  {
    var first, times := AlignedStart(mint, step), InnerTimes(mint, maxt, step);
    AlignedStartIsLeast(mint, step);
    if u in times {
      var k :| 0 <= k < |times| && u == times[k];
      IsInnerTime(first, maxt, step, k);
    }
    if mint < u <= maxt && Multiple(u, step) {
      var k := InnerIndex(first, maxt, step, u);
      assert times[k] == u;
    }
  }

  lemma IsInnerTime(first: int, maxt: int, step: Pos, k: int)
    requires Multiple(first, step) && 0 <= k <= (maxt - first) / step
    ensures first <= first + k * step <= maxt && Multiple(first + k * step, step)
  {
    DivAtMost(k, step, maxt - first);
    var b :| first == step * b;
    assert first + k * step == step * (b + k);
  }

  lemma InnerIndex(first: int, maxt: int, step: Pos, u: int) returns (k: int)
    requires Multiple(first, step) && Multiple(u, step) && first <= u <= maxt
    ensures 0 <= k <= (maxt - first) / step && u == first + k * step
  {
    var a :| u == step * a;
    var b :| first == step * b;
    if a < b { Ordered(step, a + 1, b); }
    k := a - b;
    assert step * k == u - first;
    DivAtLeast(k, step, maxt - first);
  }

  /** The time `@` stands for; without it, the evaluation time. */
  function Anchor(at: At, q: Query, t: int): int {
    match at
    case NoAt => t
    case AtTime(ts) => ts
    case AtStart => q.start
    case AtEnd => q.end
  }

  /** What an expression means at time `t`: `@ ts` reads at `ts` minus the offset, at every step. */
  ghost function Means<V>(I: Interp<V>, q: Query, e: Expr, t: int): V {
    match e
    case Number(x) => I.number(x)
    case Str(s) => I.str(s)
    case VectorSelector(sel, offset, at) => I.instant(sel, Anchor(at, q, t) - offset)
    case MatrixSelector(sel, span, offset, at) => I.range(sel, span, Anchor(at, q, t) - offset)
    case SubqueryExpr(e', span, offset, step, at) =>
      var maxt := Anchor(at, q, t) - offset;
      var times := InnerTimes(maxt - span, maxt, step);
      I.subquery(seq(|times|, i requires 0 <= i < |times| => (times[i], Means(I, q, e', times[i]))))
    case Aggregate(op, e', param) =>
      I.aggregate(op, Means(I, q, e', t), if param.None? then None else Some(Means(I, q, param.value, t)))
    case Binary(op, lhs, rhs) => I.binary(op, Means(I, q, lhs, t), Means(I, q, rhs, t))
    case Call(f, args) => I.call(f, seq(|args|, i requires 0 <= i < |args| => Means(I, q, args[i], t)), t)
    case Paren(e') => Means(I, q, e', t)
    case Unary(e') => I.unary(Means(I, q, e', t))
    case Wrapped(e') => Means(I, q, e', t)
  }

  // ---------------------------------------------------------------- what the evaluator computes

  /** Where offsets stand: they were last set against the time `base`, at a node whose enclosing subqueries (up to the
      expression they were set in) have offsets that add up to `path`. */
  datatype Basis = Basis(base: int, path: int)

  /** The offset of a selector or subquery, as setOffsetForAtModifier leaves it. */
  function EffectiveOffset(offset: int, at: At, b: Basis): int {
    if at.AtTime? then offset + (b.base - at.ts) - b.path else offset
  }

  /** Offsets inside a subquery are set again only if its evaluation starts at another time. */
  function InnerBasis(b: Basis, start: int, innerStart: int, offset: int): Basis {
    if innerStart != start then Basis(innerStart, 0) else Basis(b.base, b.path + offset)
  }

  /** The value at `t` from an evaluator that starts at `start`. */
  ghost function Computes<V>(I: Interp<V>, e: Expr, b: Basis, start: int, t: int): V {
    match e
    case Number(x) => I.number(x)
    case Str(s) => I.str(s)
    case VectorSelector(sel, offset, at) => I.instant(sel, t - EffectiveOffset(offset, at, b))
    case MatrixSelector(sel, span, offset, at) => I.range(sel, span, t - EffectiveOffset(offset, at, b))
    case SubqueryExpr(e', span, offset, step, at) =>
      var off := EffectiveOffset(offset, at, b);
      var innerStart := AlignedStart(start - off - span, step);
      var times := InnerTimes(t - off - span, t - off, step);
      I.subquery(seq(|times|, i requires 0 <= i < |times| =>
        (times[i], Computes(I, e', InnerBasis(b, start, innerStart, off), innerStart, times[i]))))
    case Aggregate(op, e', param) =>
      I.aggregate(op, Computes(I, e', b, start, t),
                  if param.None? then None else Some(Computes(I, param.value, b, start, t)))
    case Binary(op, lhs, rhs) => I.binary(op, Computes(I, lhs, b, start, t), Computes(I, rhs, b, start, t))
    case Call(f, args) => I.call(f, seq(|args|, i requires 0 <= i < |args| => Computes(I, args[i], b, start, t)), t)
    case Paren(e') => Computes(I, e', b, start, t)
    case Unary(e') => I.unary(Computes(I, e', b, start, t))
    case Wrapped(e') => Computes(I, e', b, start, start)
  }

  // ---------------------------------------------------------------- computed in time

  /** The time at which a node has to be computed to read what it means at `t`: with a timestamp, the start its
      offset was set against; an `@ start()` or `@ end()` that is not resolved reads as if it were not there. */
  function TimeFor(at: At, q: Query, b: Basis, t: int): int {
    match at
    case NoAt => t
    case AtTime(_) => b.base - b.path
    case AtStart => q.start
    case AtEnd => q.end
  }

  lemma ReadsInTime(offset: int, at: At, q: Query, b: Basis, u: int, t: int)
    ensures u - EffectiveOffset(offset, at, b) == Anchor(at, q, t) - offset <==> u == TimeFor(at, q, b, t)
  {
  }

  /** All that a tree looks at when it is computed at `u`, by an evaluator that starts at `start`, it looks at when
      it is meant at `t`: every selector and function of time the same time, every subquery the same inner times. */
  predicate InTime(e: Expr, q: Query, b: Basis, start: int, u: int, t: int)
    decreases e
  {
    match e
    case Number(_) => true
    case Str(_) => true
    case VectorSelector(_, _, at) => u == TimeFor(at, q, b, t)
    case MatrixSelector(_, _, _, at) => u == TimeFor(at, q, b, t)
    case SubqueryExpr(e', span, offset, step, at) =>
      var off := EffectiveOffset(offset, at, b);
      var innerStart := AlignedStart(start - off - span, step);
      var inner := InnerBasis(b, start, innerStart, off);
      var maxt := Anchor(at, q, t) - offset;
      var times := InnerTimes(u - off - span, u - off, step);
      && times == InnerTimes(maxt - span, maxt, step)
      && forall i | 0 <= i < |times| :: InTime(e', q, inner, innerStart, times[i], times[i])
    case Aggregate(_, e', param) =>
      InTime(e', q, b, start, u, t) && (param.None? || InTime(param.value, q, b, start, u, t))
    case Binary(_, lhs, rhs) => InTime(lhs, q, b, start, u, t) && InTime(rhs, q, b, start, u, t)
    case Call(f, args) =>
      (T.OfTime(f, |args|) ==> u == t) && forall i | 0 <= i < |args| :: InTime(args[i], q, b, start, u, t)
    case Paren(e') => InTime(e', q, b, start, u, t)
    case Unary(e') => InTime(e', q, b, start, u, t)
    case Wrapped(e') => InTime(e', q, b, start, start, t)
  }

  /** What is computed in time is what is meant, whatever the functions do. */
  lemma {:induction false} InTimeValue<V(!new)>(I: Interp<V>, q: Query, e: Expr, b: Basis, start: int, u: int, t: int)
    requires SafeCalls(I) && InTime(e, q, b, start, u, t)
    ensures Computes(I, e, b, start, u) == Means(I, q, e, t)
    decreases e
  {
    match e
    case VectorSelector(_, offset, at) => ReadsInTime(offset, at, q, b, u, t);
    case MatrixSelector(_, _, offset, at) => ReadsInTime(offset, at, q, b, u, t);
    case SubqueryExpr(_, _, _, _, _) => SubqueryValue(I, q, e, b, start, u, t);
    case Aggregate(_, e', param) =>
      InTimeValue(I, q, e', b, start, u, t);
      if param.Some? { InTimeValue(I, q, param.value, b, start, u, t); }
    case Binary(_, lhs, rhs) =>
      InTimeValue(I, q, lhs, b, start, u, t);
      InTimeValue(I, q, rhs, b, start, u, t);
    case Call(_, _) => CallValue(I, q, e, b, start, u, t);
    case Paren(e') => InTimeValue(I, q, e', b, start, u, t);
    case Unary(e') => InTimeValue(I, q, e', b, start, u, t);
    case Wrapped(e') => InTimeValue(I, q, e', b, start, start, t);
    case _ =>
  }

  lemma {:induction false} SubqueryValue<V(!new)>(I: Interp<V>, q: Query, e: Expr, b: Basis, start: int, u: int, t: int)
    requires e.SubqueryExpr? && SafeCalls(I) && InTime(e, q, b, start, u, t)
    ensures Computes(I, e, b, start, u) == Means(I, q, e, t)
    decreases e, 0
  {
    var off := EffectiveOffset(e.offset, e.at, b);
    var innerStart := AlignedStart(start - off - e.span, e.step);
    var inner := InnerBasis(b, start, innerStart, off);
    var times := InnerTimes(u - off - e.span, u - off, e.step);
    forall i | 0 <= i < |times| ensures Computes(I, e.e, inner, innerStart, times[i]) == Means(I, q, e.e, times[i]) {
      InTimeValue(I, q, e.e, inner, innerStart, times[i], times[i]);
    }
    assert seq(|times|, i requires 0 <= i < |times| => (times[i], Computes(I, e.e, inner, innerStart, times[i])))
        == seq(|times|, i requires 0 <= i < |times| => (times[i], Means(I, q, e.e, times[i])));
  }

  lemma {:induction false} CallValue<V(!new)>(I: Interp<V>, q: Query, e: Expr, b: Basis, start: int, u: int, t: int)
    requires e.Call? && SafeCalls(I) && InTime(e, q, b, start, u, t)
    ensures Computes(I, e, b, start, u) == Means(I, q, e, t)
    decreases e, 0
  {
    var args := e.args;
    forall i | 0 <= i < |args| ensures Computes(I, args[i], b, start, u) == Means(I, q, args[i], t) {
      InTimeValue(I, q, args[i], b, start, u, t);
    }
    assert seq(|args|, i requires 0 <= i < |args| => Computes(I, args[i], b, start, u))
        == seq(|args|, i requires 0 <= i < |args| => Means(I, q, args[i], t));
  }

  // ---------------------------------------------------------------- the free interpretation

  /** Values that show how they came about. */
  datatype Term =
    | Literal(x: real)
    | Text(s: string)
    | Instant(sel: int, t: int)
    | Window(sel: int, span: int, t: int)
    | Inner(values: seq<(int, Term)>)
    | Aggregated(op: string, v: Term, param: Option<Term>)
    | Operation(op: string, l: Term, r: Term)
    | Applied(f: string, args: seq<Term>, at: Option<int>)
    | Negated(v: Term)

  /** Only functions of time show the time. */
  function ApplyFree(f: string, args: seq<Term>, t: int): Term {
    Applied(f, args, if T.OfTime(f, |args|) then Some(t) else None)
  }

  const FREE: Interp<Term> := Interp(
    x => Literal(x), s => Text(s), (sel, t) => Instant(sel, t), (sel, span, t) => Window(sel, span, t),
    (values: seq<(int, Term)>) => Inner(values),
    (op: string, v: Term, param: Option<Term>) => Aggregated(op, v, param),
    (op, l, r) => Operation(op, l, r), (f, args, t) => ApplyFree(f, args, t), v => Negated(v))

  lemma FreeIsSafe()
    ensures SafeCalls(FREE)
  {
  }

  /** In the free interpretation nothing else gives the value that is meant. */
  lemma {:induction false} FreeIsInTime(q: Query, e: Expr, b: Basis, start: int, u: int, t: int)
    requires Computes(FREE, e, b, start, u) == Means(FREE, q, e, t)
    ensures InTime(e, q, b, start, u, t)
    decreases e
  {
    match e
    case VectorSelector(_, offset, at) => ReadsInTime(offset, at, q, b, u, t);
    case MatrixSelector(_, _, offset, at) => ReadsInTime(offset, at, q, b, u, t);
    case SubqueryExpr(_, _, _, _, _) => FreeSubquery(q, e, b, start, u, t);
    case Aggregate(_, e', param) =>
      FreeIsInTime(q, e', b, start, u, t);
      if param.Some? { FreeIsInTime(q, param.value, b, start, u, t); }
    case Binary(_, lhs, rhs) =>
      FreeIsInTime(q, lhs, b, start, u, t);
      FreeIsInTime(q, rhs, b, start, u, t);
    case Call(_, _) => FreeCall(q, e, b, start, u, t);
    case Paren(e') => FreeIsInTime(q, e', b, start, u, t);
    case Unary(e') => FreeIsInTime(q, e', b, start, u, t);
    case Wrapped(e') => FreeIsInTime(q, e', b, start, start, t);
    case _ =>
  }

  lemma {:induction false} FreeCall(q: Query, e: Expr, b: Basis, start: int, u: int, t: int)
    requires e.Call? && Computes(FREE, e, b, start, u) == Means(FREE, q, e, t)
    ensures InTime(e, q, b, start, u, t)
    decreases e, 0
  {
    var f, args := e.f, e.args;
    var computed := seq(|args|, i requires 0 <= i < |args| => Computes(FREE, args[i], b, start, u));
    var meant := seq(|args|, i requires 0 <= i < |args| => Means(FREE, q, args[i], t));
    assert Computes(FREE, e, b, start, u) == ApplyFree(f, computed, u);
    assert Means(FREE, q, e, t) == ApplyFree(f, meant, t);
    forall i | 0 <= i < |args| ensures InTime(args[i], q, b, start, u, t) {
      assert computed[i] == meant[i];
      FreeIsInTime(q, args[i], b, start, u, t);
    }
  }

  lemma {:induction false} FreeSubquery(q: Query, e: Expr, b: Basis, start: int, u: int, t: int)
    requires e.SubqueryExpr? && Computes(FREE, e, b, start, u) == Means(FREE, q, e, t)
    ensures InTime(e, q, b, start, u, t)
    decreases e, 0
  {
    var off := EffectiveOffset(e.offset, e.at, b);
    var innerStart := AlignedStart(start - off - e.span, e.step);
    var inner := InnerBasis(b, start, innerStart, off);
    var maxt := Anchor(e.at, q, t) - e.offset;
    var times := InnerTimes(u - off - e.span, u - off, e.step);
    var meantTimes := InnerTimes(maxt - e.span, maxt, e.step);
    var computed :=
        seq(|times|, i requires 0 <= i < |times| => (times[i], Computes(FREE, e.e, inner, innerStart, times[i])));
    var meant :=
        seq(|meantTimes|, i requires 0 <= i < |meantTimes| => (meantTimes[i], Means(FREE, q, e.e, meantTimes[i])));
    assert Inner(computed) == Inner(meant);
    assert |times| == |computed| == |meant| == |meantTimes|;
    forall i | 0 <= i < |times|
      ensures times[i] == meantTimes[i] && InTime(e.e, q, inner, innerStart, times[i], times[i])
    {
      assert computed[i] == meant[i];
      FreeIsInTime(q, e.e, inner, innerStart, times[i], times[i]);
    }
    assert times == meantTimes;
  }

  // ---------------------------------------------------------------- the rewrite, exactly

  /** The rewrite changes when a tree is computed, not what it means. */
  lemma {:induction false} RewriteMeansSame<V(!new)>(I: Interp<V>, q: Query, e: Expr, t: int)
    ensures Means(I, q, Preprocess(e, q), t) == Means(I, q, e, t)
    decreases e
  {
    match e
    case SubqueryExpr(_, _, _, _, _) => SubqueryMeansSame(I, q, e, t);
    case Aggregate(_, e', _) => RewriteMeansSame(I, q, e', t);
    case Binary(_, lhs, rhs) =>
      RewriteMeansSame(I, q, lhs, t);
      RewriteMeansSame(I, q, rhs, t);
    case Call(_, _) => CallMeansSame(I, q, e, t);
    case Paren(e') => RewriteMeansSame(I, q, e', t);
    case Unary(e') => RewriteMeansSame(I, q, e', t);
    case _ =>
  }

  lemma {:induction false} SubqueryMeansSame<V(!new)>(I: Interp<V>, q: Query, e: Expr, t: int)
    requires e.SubqueryExpr?
    ensures Means(I, q, Preprocess(e, q), t) == Means(I, q, e, t)
    decreases e, 0
  {
    var maxt := Anchor(e.at, q, t) - e.offset;
    var times := InnerTimes(maxt - e.span, maxt, e.step);
    var e' := Preprocess(e, q).e;
    forall i | 0 <= i < |times| ensures Means(I, q, e', times[i]) == Means(I, q, e.e, times[i]) {
      RewriteMeansSame(I, q, e.e, times[i]);
    }
    assert seq(|times|, i requires 0 <= i < |times| => (times[i], Means(I, q, e', times[i])))
        == seq(|times|, i requires 0 <= i < |times| => (times[i], Means(I, q, e.e, times[i])));
  }

  lemma {:induction false} CallMeansSame<V(!new)>(I: Interp<V>, q: Query, e: Expr, t: int)
    requires e.Call?
    ensures Means(I, q, Preprocess(e, q), t) == Means(I, q, e, t)
    decreases e, 0
  {
    var args, args' := e.args, Preprocess(e, q).args;
    forall i | 0 <= i < |args| ensures Means(I, q, args'[i], t) == Means(I, q, args[i], t) {
      RewriteMeansSame(I, q, args[i], t);
    }
    assert seq(|args'|, i requires 0 <= i < |args'| => Means(I, q, args'[i], t))
        == seq(|args|, i requires 0 <= i < |args| => Means(I, q, args[i], t));
  }

  /** The steps of a range query. */
  predicate IsStep(q: Query, interval: Pos, t: int) {
    OnGrid(t, q.start, interval) && t <= q.end
  }

  /** The rewritten query computes at `t` what the query means there. */
  ghost predicate RightAt<V>(I: Interp<V>, q: Query, e: Expr, t: int) {
    Computes(I, PreprocessExpr(e, q), Basis(q.start, 0), q.start, t) == Means(I, q, e, t)
  }

  /** The rewrite preserves the meaning of the query at every step, whatever the functions do. */
  ghost predicate RewriteIsRight(q: Query, interval: Pos, e: Expr) {
    forall I: Interp<Term>, t | SafeCalls(I) && IsStep(q, interval, t) :: RightAt(I, q, e, t)
  }

  /** The rewritten query looks at `t` at what the query is about there. */
  predicate RewriteInTime(q: Query, e: Expr, t: int) {
    InTime(PreprocessExpr(e, q), q, Basis(q.start, 0), q.start, t, t)
  }

  /** For every query whatsoever: at a step at which the rewritten tree is computed in time its value is the one
      meant, for values of any type. */
  lemma RewriteRightInTime<V(!new)>(I: Interp<V>, q: Query, e: Expr, t: int)
    requires SafeCalls(I) && RewriteInTime(q, e, t)
    ensures RightAt(I, q, e, t)
  {
    InTimeValue(I, q, PreprocessExpr(e, q), Basis(q.start, 0), q.start, t, t);
    RewriteMeansSame(I, q, e, t);
  }

  /** And only then: the rewrite preserves the meaning of a query if and only if the rewritten tree is computed in
      time at every step. */
  lemma RewriteExactly(q: Query, interval: Pos, e: Expr)
    ensures RewriteIsRight(q, interval, e) <==> forall t | IsStep(q, interval, t) :: RewriteInTime(q, e, t)
  {
    if RewriteIsRight(q, interval, e) {
      forall t | IsStep(q, interval, t) ensures RewriteInTime(q, e, t) {
        FreeIsSafe();
        assert RightAt(FREE, q, e, t);
        RewriteMeansSame(FREE, q, e, t);
        FreeIsInTime(q, PreprocessExpr(e, q), Basis(q.start, 0), q.start, t, t);
      }
    }
    if forall t | IsStep(q, interval, t) :: RewriteInTime(q, e, t) {
      forall I: Interp<Term>, t | SafeCalls(I) && IsStep(q, interval, t) ensures RightAt(I, q, e, t) {
        RewriteRightInTime(I, q, e, t);
      }
    }
  }

  // ---------------------------------------------------------------- queries for which it is right

  /** No `@` modifier anywhere, and nothing wrapped. */
  predicate AtFree(e: Expr) {
    match e
    case Number(_) => true
    case Str(_) => true
    case VectorSelector(_, _, at) => at.NoAt?
    case MatrixSelector(_, _, _, at) => at.NoAt?
    case SubqueryExpr(e', _, _, _, at) => at.NoAt? && AtFree(e')
    case Aggregate(_, e', param) => AtFree(e') && (param.None? || AtFree(param.value))
    case Binary(_, lhs, rhs) => AtFree(lhs) && AtFree(rhs)
    case Call(f, args) => forall i | 0 <= i < |args| :: AtFree(args[i])
    case Paren(e') => AtFree(e')
    case Unary(e') => AtFree(e')
    case Wrapped(_) => false
  }

  /** Every selector and subquery outside a subquery has an `@` modifier that is right at `start`, and no function
      depends on time. */
  predicate Pinned(e: Expr, q: Query, b: Basis, start: int) {
    match e
    case Number(_) => true
    case Str(_) => true
    case VectorSelector(_, _, at) => !at.NoAt? && start == TimeFor(at, q, b, start)
    case MatrixSelector(_, _, _, at) => !at.NoAt? && start == TimeFor(at, q, b, start)
    case SubqueryExpr(e', _, _, _, at) => !at.NoAt? && start == TimeFor(at, q, b, start) && AtFree(e')
    case Aggregate(_, e', param) => Pinned(e', q, b, start) && (param.None? || Pinned(param.value, q, b, start))
    case Binary(_, lhs, rhs) => Pinned(lhs, q, b, start) && Pinned(rhs, q, b, start)
    case Call(f, args) => !T.OfTime(f, |args|) && forall i | 0 <= i < |args| :: Pinned(args[i], q, b, start)
    case Paren(e') => Pinned(e', q, b, start)
    case Unary(e') => Pinned(e', q, b, start)
    case Wrapped(_) => false
  }

  /** The rewrite does not look at an aggregation's parameter: one that is computed along with a wrapped aggregation
      must be pinned, and no other may have an `@` modifier. */
  predicate ParamFits(e: Expr, param: Expr, q: Query, b: Basis, start: int) {
    if Qualifies(e) then Pinned(param, q, b, start) else AtFree(param)
  }

  /** Offsets set against `b` are right for an evaluation that starts at `start`. */
  predicate Fits(b: Basis, start: int) {
    start == b.base - b.path
  }

  /** The expression has no wrapped node yet, its parameters fit, no call of `info` is to be wrapped, and wherever an
      `@` modifier stands, its offset has been set against the start of the evaluation it is in. */
  predicate Sound(e: Expr, q: Query, b: Basis, start: int) {
    match e
    case Number(_) => true
    case Str(_) => true
    case VectorSelector(_, _, at) => at.NoAt? || Fits(b, start)
    case MatrixSelector(_, _, _, at) => at.NoAt? || Fits(b, start)
    case SubqueryExpr(e', span, offset, step, at) =>
      && (at.NoAt? || Fits(b, start))
      && var off := EffectiveOffset(offset, Resolve(at, q), b);
         var innerStart := AlignedStart(start - off - span, step);
         Sound(e', q, InnerBasis(b, start, innerStart, off), innerStart)
    case Aggregate(_, e', param) => Sound(e', q, b, start) && (param.None? || ParamFits(e', param.value, q, b, start))
    case Binary(_, lhs, rhs) => Sound(lhs, q, b, start) && Sound(rhs, q, b, start)
    case Call(f, args) => (f == "info" ==> !Qualifies(e)) && forall i | 0 <= i < |args| :: Sound(args[i], q, b, start)
    case Paren(e') => Sound(e', q, b, start)
    case Unary(e') => Sound(e', q, b, start)
    case Wrapped(_) => false
  }

  /** Without `@` modifiers the start of the evaluation does not matter. */
  lemma {:induction false} AtFreeInTime(q: Query, e: Expr, b: Basis, start: int, t: int)
    requires AtFree(e)
    ensures InTime(e, q, b, start, t, t)
    decreases e
  {
    match e
    case SubqueryExpr(e', span, offset, step, at) =>
      var innerStart := AlignedStart(start - offset - span, step);
      var times := InnerTimes(t - offset - span, t - offset, step);
      forall i | 0 <= i < |times|
        ensures InTime(e', q, InnerBasis(b, start, innerStart, offset), innerStart, times[i], times[i])
      {
        AtFreeInTime(q, e', InnerBasis(b, start, innerStart, offset), innerStart, times[i]);
      }
    case Aggregate(_, e', param) =>
      AtFreeInTime(q, e', b, start, t);
      if param.Some? { AtFreeInTime(q, param.value, b, start, t); }
    case Binary(_, lhs, rhs) =>
      AtFreeInTime(q, lhs, b, start, t);
      AtFreeInTime(q, rhs, b, start, t);
    case Call(_, args) =>
      forall i | 0 <= i < |args| ensures InTime(args[i], q, b, start, t, t) {
        AtFreeInTime(q, args[i], b, start, t);
      }
    case Paren(e') => AtFreeInTime(q, e', b, start, t);
    case Unary(e') => AtFreeInTime(q, e', b, start, t);
    case _ =>
  }

  /** What is pinned can be computed at the start for every time. */
  lemma {:induction false} PinnedInTime(q: Query, e: Expr, b: Basis, start: int, t: int)
    requires Pinned(e, q, b, start)
    ensures InTime(e, q, b, start, start, t)
    decreases e
  {
    match e
    case SubqueryExpr(e', span, offset, step, at) =>
      ReadsInTime(offset, at, q, b, start, t);
      var off := EffectiveOffset(offset, at, b);
      var innerStart := AlignedStart(start - off - span, step);
      var times := InnerTimes(start - off - span, start - off, step);
      forall i | 0 <= i < |times|
        ensures InTime(e', q, InnerBasis(b, start, innerStart, off), innerStart, times[i], times[i])
      {
        AtFreeInTime(q, e', InnerBasis(b, start, innerStart, off), innerStart, times[i]);
      }
    case Aggregate(_, e', param) =>
      PinnedInTime(q, e', b, start, t);
      if param.Some? { PinnedInTime(q, param.value, b, start, t); }
    case Binary(_, lhs, rhs) =>
      PinnedInTime(q, lhs, b, start, t);
      PinnedInTime(q, rhs, b, start, t);
    case Call(_, args) =>
      forall i | 0 <= i < |args| ensures InTime(args[i], q, b, start, start, t) {
        PinnedInTime(q, args[i], b, start, t);
      }
    case Paren(e') => PinnedInTime(q, e', b, start, t);
    case Unary(e') => PinnedInTime(q, e', b, start, t);
    case _ =>
  }

  /** The time at which the rewritten expression has to be computed for step `t`: once for all steps, or at the step. */
  function EvalTime(e: Expr, start: int, t: int): int {
    if Qualifies(e) then start else t
  }

  /** A sound expression, rewritten and wrapped or not, is computed in time at every step. */
  lemma {:induction false} SoundInTime(q: Query, e: Expr, b: Basis, start: int, t: int)
    requires Sound(e, q, b, start)
    ensures InTime(Preprocess(e, q), q, b, start, EvalTime(e, start, t), t)
    decreases e
  {
    match e
    case SubqueryExpr(_, _, _, _, _) => SoundSubquery(q, e, b, start, t);
    case Aggregate(_, e', param) =>
      SoundInTime(q, e', b, start, t);
      if param.Some? {
        if Qualifies(e') {
          PinnedInTime(q, param.value, b, start, t);
        } else {
          AtFreeInTime(q, param.value, b, start, t);
        }
      }
    case Binary(_, lhs, rhs) =>
      SoundInTime(q, lhs, b, start, t);
      SoundInTime(q, rhs, b, start, t);
    case Call(f, args) =>
      if T.OfTime(f, |args|) && f != "info" { CallsOfTime(f, args); }
      var args' := Preprocess(e, q).args;
      forall i | 0 <= i < |args'| ensures InTime(args'[i], q, b, start, EvalTime(e, start, t), t) {
        SoundInTime(q, args[i], b, start, t);
      }
    case Paren(e') => SoundInTime(q, e', b, start, t);
    case Unary(e') => SoundInTime(q, e', b, start, t);
    case _ =>
  }

  lemma {:induction false} SoundSubquery(q: Query, e: Expr, b: Basis, start: int, t: int)
    requires Sound(e, q, b, start) && e.SubqueryExpr?
    ensures InTime(Preprocess(e, q), q, b, start, EvalTime(e, start, t), t)
    decreases e, 0
  {
    var at, u := Resolve(e.at, q), EvalTime(e, start, t);
    var off := EffectiveOffset(e.offset, at, b);
    var innerStart := AlignedStart(start - off - e.span, e.step);
    var inner := InnerBasis(b, start, innerStart, off);
    var e' := Preprocess(e, q).e;
    ReadsInTime(e.offset, at, q, b, u, t);
    var times := InnerTimes(u - off - e.span, u - off, e.step);
    forall i | 0 <= i < |times| ensures InTime(e', q, inner, innerStart, times[i], times[i]) {
      SoundInTime(q, e.e, inner, innerStart, times[i]);
    }
  }

  /** The rewritten expression, wrapped or not, computes the meaning at every step. */
  lemma {:induction false} RewritePreserves<V(!new)>(I: Interp<V>, q: Query, e: Expr, b: Basis, start: int, t: int)
    requires SafeCalls(I) && Sound(e, q, b, start)
    ensures Computes(I, Preprocess(e, q), b, start, EvalTime(e, start, t)) == Means(I, q, e, t)
  {
    SoundInTime(q, e, b, start, t);
    InTimeValue(I, q, Preprocess(e, q), b, start, EvalTime(e, start, t), t);
    RewriteMeansSame(I, q, e, t);
  }

  /** PreprocessExpr preserves meaning: the tree it returns, evaluated from the query's start, gives every step the
      value of the original expression. */
  lemma StepInvariantRewriteIsSound<V(!new)>(I: Interp<V>, q: Query, e: Expr, t: int)
    requires SafeCalls(I) && Sound(e, q, Basis(q.start, 0), q.start)
    ensures Computes(I, PreprocessExpr(e, q), Basis(q.start, 0), q.start, t) == Means(I, q, e, t)
  {
    RewritePreserves(I, q, e, Basis(q.start, 0), q.start, t);
  }

  /** With the engine's functions: a sound expression, rewritten, gives every step its own value. */
  lemma EngineRewriteIsSound(I: Interp<T.Value>, lib: T.Library, q: Query, e: Expr, t: int)
    requires EngineCalls(I, lib) && Sound(e, q, Basis(q.start, 0), q.start)
    ensures RightAt(I, q, e, t)
  {
    EngineIsSafe(I, lib);
    StepInvariantRewriteIsSound(I, q, e, t);
  }

  /** Every selector has a timestamp, and there are no subqueries and no functions of time. */
  predicate Timed(e: Expr) {
    match e
    case Number(_) => true
    case Str(_) => true
    case VectorSelector(_, _, at) => at.AtTime?
    case MatrixSelector(_, _, _, at) => at.AtTime?
    case Aggregate(_, e', param) => Timed(e') && (param.None? || Timed(param.value))
    case Binary(_, lhs, rhs) => Timed(lhs) && Timed(rhs)
    case Call(f, args) => !T.OfTime(f, |args|) && forall i | 0 <= i < |args| :: Timed(args[i])
    case Paren(e') => Timed(e')
    case Unary(e') => Timed(e')
    case _ => false
  }

  lemma {:induction false} TimedIsPinned(e: Expr, q: Query, b: Basis, start: int)
    requires Timed(e) && (Fits(b, start) || AtFree(e))
    ensures Pinned(e, q, b, start)
  {
    match e
    case Aggregate(_, e', param) =>
      TimedIsPinned(e', q, b, start);
      if param.Some? { TimedIsPinned(param.value, q, b, start); }
    case Binary(_, lhs, rhs) =>
      TimedIsPinned(lhs, q, b, start);
      TimedIsPinned(rhs, q, b, start);
    case Call(_, args) =>
      forall i | 0 <= i < |args| ensures Pinned(args[i], q, b, start) { TimedIsPinned(args[i], q, b, start); }
    case Paren(e') => TimedIsPinned(e', q, b, start);
    case Unary(e') => TimedIsPinned(e', q, b, start);
    case _ =>
  }

  /** `@` modifiers only outside subqueries, parameters with timestamps in what is wrapped and without elsewhere,
      no call of `info` to be wrapped, and nothing wrapped yet. */
  predicate Plain(e: Expr) {
    match e
    case Number(_) => true
    case Str(_) => true
    case VectorSelector(_, _, _) => true
    case MatrixSelector(_, _, _, _) => true
    case SubqueryExpr(e', _, _, _, _) => AtFree(e') && Plain(e')
    case Aggregate(_, e', param) =>
      Plain(e') && (param.None? || if Qualifies(e') then Timed(param.value) else AtFree(param.value))
    case Binary(_, lhs, rhs) => Plain(lhs) && Plain(rhs)
    case Call(f, args) => (f == "info" ==> !Qualifies(e)) && forall i | 0 <= i < |args| :: Plain(args[i])
    case Paren(e') => Plain(e')
    case Unary(e') => Plain(e')
    case Wrapped(_) => false
  }

  lemma {:induction false} PlainIsSound(e: Expr, q: Query, b: Basis, start: int)
    requires Plain(e) && (Fits(b, start) || AtFree(e))
    ensures Sound(e, q, b, start)
  {
    match e
    case SubqueryExpr(e', span, offset, step, at) =>
      var off := EffectiveOffset(offset, Resolve(at, q), b);
      var innerStart := AlignedStart(start - off - span, step);
      PlainIsSound(e', q, InnerBasis(b, start, innerStart, off), innerStart);
    case Aggregate(_, e', param) =>
      PlainIsSound(e', q, b, start);
      if param.Some? && Qualifies(e') { TimedIsPinned(param.value, q, b, start); }
    case Binary(_, lhs, rhs) =>
      PlainIsSound(lhs, q, b, start);
      PlainIsSound(rhs, q, b, start);
    case Call(_, args) =>
      forall i | 0 <= i < |args| ensures Sound(args[i], q, b, start) {
        PlainIsSound(args[i], q, b, start);
      }
    case Paren(e') => PlainIsSound(e', q, b, start);
    case Unary(e') => PlainIsSound(e', q, b, start);
    case _ =>
  }

  // ---------------------------------------------------------------- `@` inside a subquery

  /** Going into a subquery keeps offsets right exactly when they are set again there, or the subquery has no offset. */
  lemma FitsInside(b: Basis, start: int, innerStart: int, off: int)
    requires Fits(b, start)
    ensures Fits(InnerBasis(b, start, innerStart, off), innerStart) <==> innerStart != start || off == 0
  {
  }

  function AtSubquery(sel: int, offset: int, ts: int, span: Pos, subOffset: int, step: Pos): Expr {
    SubqueryExpr(VectorSelector(sel, offset, AtTime(ts)), span, subOffset, step, NoAt)
  }

  /** Some step of the query has an inner step in its window. */
  ghost predicate LooksInside(q: Query, interval: Pos, span: Pos, subOffset: int, step: Pos) {
    exists t :: IsStep(q, interval, t) && InnerTimes(t - subOffset - span, t - subOffset, step) != []
  }

  lemma AtSubqueryInTime(sel: int, offset: int, ts: int, span: Pos, subOffset: int, step: Pos, q: Query, t: int)
    ensures var e := AtSubquery(sel, offset, ts, span, subOffset, step);
            RewriteInTime(q, e, t) <==>
            || AlignedStart(q.start - subOffset - span, step) != q.start
            || subOffset == 0
            || InnerTimes(t - subOffset - span, t - subOffset, step) == []
  {
    var b, innerStart := Basis(q.start, 0), AlignedStart(q.start - subOffset - span, step);
    var e := AtSubquery(sel, offset, ts, span, subOffset, step);
    var inner, basis := Wrapped(VectorSelector(sel, offset, AtTime(ts))), InnerBasis(b, q.start, innerStart, subOffset);
    FitsInside(b, q.start, innerStart, subOffset);
    assert Preprocess(inner.e, q) == inner.e && Qualifies(inner.e) && !Qualifies(e);
    assert PreprocessExpr(e, q) == SubqueryExpr(inner, span, subOffset, step, NoAt);
    var times := InnerTimes(t - subOffset - span, t - subOffset, step);
    forall i | 0 <= i < |times|
      ensures InTime(inner, q, basis, innerStart, times[i], times[i]) <==> Fits(basis, innerStart)
    {
      assert InTime(inner.e, q, basis, innerStart, innerStart, times[i]) <==>
             innerStart == TimeFor(AtTime(ts), q, basis, times[i]);
    }
    if times != [] { assert InTime(inner, q, basis, innerStart, times[0], times[0]) <==> Fits(basis, innerStart); }
  }

  /** A subquery over one selector with `@`: the rewrite is right at every step of the query exactly when the subquery's
      evaluation starts elsewhere, it has no offset, or no step looks at an inner step at all. */
  lemma AtSubqueryExactly(sel: int, offset: int, ts: int, span: Pos, subOffset: int, step: Pos, q: Query, interval: Pos)
    ensures RewriteIsRight(q, interval, AtSubquery(sel, offset, ts, span, subOffset, step)) <==>
            || AlignedStart(q.start - subOffset - span, step) != q.start
            || subOffset == 0
            || !LooksInside(q, interval, span, subOffset, step)
  {
    var e := AtSubquery(sel, offset, ts, span, subOffset, step);
    RewriteExactly(q, interval, e);
    forall t ensures RewriteInTime(q, e, t) <==>
                       || AlignedStart(q.start - subOffset - span, step) != q.start
                       || subOffset == 0
                       || InnerTimes(t - subOffset - span, t - subOffset, step) == []
    {
      AtSubqueryInTime(sel, offset, ts, span, subOffset, step, q, t);
    }
  }

  /** An interpretation that shows at which time a selector was read. */
  const READ_TIMES: Interp<int> := Interp(
    _ => 0, _ => 0, (sel, t) => t, (sel, span, t) => t,
    (values: seq<(int, int)>) => if |values| == 0 then 0 else values[0].1,
    (op: string, v: int, param: Option<int>) => if param.Some? then param.value else v,
    (op, l, r) => l, (f, args, t) => if |args| == 0 then 0 else args[0], v => v)

  lemma SubqueryMeansFirst(e: Expr, q: Query, t: int)
    requires e.SubqueryExpr? && e.at.NoAt?
    ensures var times := InnerTimes(t - e.offset - e.span, t - e.offset, e.step);
            times != [] ==> Means(READ_TIMES, q, e, t) == Means(READ_TIMES, q, e.e, times[0])
  {
  }

  lemma SubqueryComputesFirst(e: Expr, b: Basis, start: int, t: int)
    requires e.SubqueryExpr? && e.at.NoAt?
    ensures var innerStart := AlignedStart(start - e.offset - e.span, e.step);
            var times := InnerTimes(t - e.offset - e.span, t - e.offset, e.step);
            times != [] ==>
              Computes(READ_TIMES, e, b, start, t) ==
              Computes(READ_TIMES, e.e, InnerBasis(b, start, innerStart, e.offset), innerStart, times[0])
  {
  }

  /** What such a subquery reads at a step whose window has an inner step, if its offsets are not set again. */
  lemma AtSubqueryReads(sel: int, offset: int, ts: int, span: Pos, subOffset: int, step: Pos, q: Query, t: int)
    requires AlignedStart(q.start - subOffset - span, step) == q.start
    requires InnerTimes(t - subOffset - span, t - subOffset, step) != []
    ensures var e := AtSubquery(sel, offset, ts, span, subOffset, step);
            && Means(READ_TIMES, q, e, t) == ts - offset
            && Computes(READ_TIMES, PreprocessExpr(e, q), Basis(q.start, 0), q.start, t) == ts - offset + subOffset
  {
    var inner := VectorSelector(sel, offset, AtTime(ts));
    SubqueryMeansFirst(AtSubquery(sel, offset, ts, span, subOffset, step), q, t);
    SubqueryComputesFirst(SubqueryExpr(Wrapped(inner), span, subOffset, step, NoAt), Basis(q.start, 0), q.start, t);
    assert Qualifies(inner) && Preprocess(inner, q) == inner;
  }

  /** One that starts where the query does, with an offset: at the second step m @ ts is read five late. */
  lemma AtSubqueryMisreads(sel: int, ts: int)
    ensures var q, e := Query(0, 15), AtSubquery(sel, 0, ts, 5, 5, 10);
            && IsStep(q, 15, 15)
            && Means(READ_TIMES, q, e, 15) == ts
            && Computes(READ_TIMES, PreprocessExpr(e, q), Basis(q.start, 0), q.start, 15) == ts + 5
  {
    assert OnGrid(15, 15, 15);
    AtSubqueryReads(sel, 0, ts, 5, 5, 10, Query(0, 15), 15);
  }

  // ---------------------------------------------------------------- parameters of aggregations

  /** A parameter that is read from a series. */
  lemma ScalarReads(q: Query, b: Basis, start: int, offset: int, at: At, t: int)
    ensures var param := Call("scalar", [VectorSelector(1, offset, at)]);
            && Means(READ_TIMES, q, param, t) == Anchor(at, q, t) - offset
            && Computes(READ_TIMES, param, b, start, t) == t - EffectiveOffset(offset, at, b)
  {
    var args := [VectorSelector(1, offset, at)];
    var meant := seq(|args|, i requires 0 <= i < |args| => Means(READ_TIMES, q, args[i], t));
    assert meant[0] == Anchor(at, q, t) - offset;
    var computed := seq(|args|, i requires 0 <= i < |args| => Computes(READ_TIMES, args[i], b, start, t));
    assert computed[0] == t - EffectiveOffset(offset, at, b);
  }

  lemma {:induction false} WrappedAggregate<V(!new)>(I: Interp<V>, op: string, e: Expr, param: Expr, q: Query, b: Basis,
                                                     start: int, t: int)
    requires Qualifies(e)
    ensures Computes(I, PreprocessExpr(Aggregate(op, e, Some(param)), q), b, start, t) ==
            I.aggregate(op, Computes(I, Preprocess(e, q), b, start, start), Some(Computes(I, param, b, start, start)))
  {
    var agg := Aggregate(op, Preprocess(e, q), Some(param));
    assert PreprocessExpr(Aggregate(op, e, Some(param)), q) == Wrapped(agg);
    assert Computes(I, Wrapped(agg), b, start, t) == Computes(I, agg, b, start, start);
  }

  /** An aggregation over a selector with `@` whose parameter is read from a series: the parameter is frozen at the
      first step. */
  lemma FrozenParameter(q: Query, t: int)
    ensures var e := Aggregate("topk", VectorSelector(0, 0, AtStart),
                               Some(Call("scalar", [VectorSelector(1, 0, NoAt)])));
            && Computes(READ_TIMES, PreprocessExpr(e, q), Basis(q.start, 0), q.start, t) == q.start
            && Means(READ_TIMES, q, e, t) == t
  {
    var b, param := Basis(q.start, 0), Call("scalar", [VectorSelector(1, 0, NoAt)]);
    ScalarReads(q, b, q.start, 0, NoAt, t);
    ScalarReads(q, b, q.start, 0, NoAt, q.start);
    WrappedAggregate(READ_TIMES, "topk", VectorSelector(0, 0, AtStart), param, q, b, q.start, t);
  }

  /** An aggregation that is not wrapped, with a parameter read from a series at a fixed time: since the parameter is
      not looked at, it moves along with the steps, and is right at one step only. */
  lemma MovingParameter(q: Query, offset: int, at: At, t: int)
    requires !at.NoAt?
    ensures var e := Aggregate("topk", VectorSelector(0, 0, NoAt),
                               Some(Call("scalar", [VectorSelector(1, offset, at)])));
            Computes(READ_TIMES, PreprocessExpr(e, q), Basis(q.start, 0), q.start, t) == Means(READ_TIMES, q, e, t) <==>
            t == if at.AtEnd? then q.end else q.start
  {
    var b, param := Basis(q.start, 0), Call("scalar", [VectorSelector(1, offset, at)]);
    ScalarReads(q, b, q.start, offset, at, t);
    var e := Aggregate("topk", VectorSelector(0, 0, NoAt), Some(param));
    assert Preprocess(e.e, q) == e.e && !Qualifies(e.e);
    assert Preprocess(e, q) == e && !Qualifies(e);
    assert Computes(READ_TIMES, e, b, q.start, t) == Computes(READ_TIMES, param, b, q.start, t);
    assert Means(READ_TIMES, q, e, t) == Means(READ_TIMES, q, param, t);
  }

  /** No subquery, and nothing wrapped. */
  predicate Direct(e: Expr) {
    match e
    case SubqueryExpr(_, _, _, _, _) => false
    case Aggregate(_, e', param) => Direct(e') && (param.None? || Direct(param.value))
    case Binary(_, lhs, rhs) => Direct(lhs) && Direct(rhs)
    case Call(_, args) => forall i | 0 <= i < |args| :: Direct(args[i])
    case Paren(e') => Direct(e')
    case Unary(e') => Direct(e')
    case Wrapped(_) => false
    case _ => true
  }

  /** Every part of a parameter meets its condition: `moving` for selectors without `@` and functions of time,
      `atEnd` for selectors with `@ end()`. */
  predicate PartsMeet(e: Expr, moving: bool, atEnd: bool) {
    match e
    case VectorSelector(_, _, at) => (at.NoAt? ==> moving) && (at.AtEnd? ==> atEnd)
    case MatrixSelector(_, _, _, at) => (at.NoAt? ==> moving) && (at.AtEnd? ==> atEnd)
    case Aggregate(_, e', param) => PartsMeet(e', moving, atEnd) &&
      (param.None? || PartsMeet(param.value, moving, atEnd))
    case Binary(_, lhs, rhs) => PartsMeet(lhs, moving, atEnd) && PartsMeet(rhs, moving, atEnd)
    case Call(f, args) =>
      (T.OfTime(f, |args|) ==> moving) && forall i | 0 <= i < |args| :: PartsMeet(args[i], moving, atEnd)
    case Paren(e') => PartsMeet(e', moving, atEnd)
    case Unary(e') => PartsMeet(e', moving, atEnd)
    case _ => true
  }

  /** Computed at the start of the query, a parameter is in time for `t` exactly when it has no part that moves, or
      `t` is the start, and none at the end, or that is the start. */
  lemma {:induction false} DirectInTime(e: Expr, q: Query, t: int)
    requires Direct(e)
    ensures InTime(e, q, Basis(q.start, 0), q.start, q.start, t) <==> PartsMeet(e, q.start == t, q.start == q.end)
  {
    match e
    case Aggregate(_, e', param) =>
      DirectInTime(e', q, t);
      if param.Some? { DirectInTime(param.value, q, t); }
    case Binary(_, lhs, rhs) =>
      DirectInTime(lhs, q, t);
      DirectInTime(rhs, q, t);
    case Call(_, args) =>
      forall i | 0 <= i < |args|
        ensures InTime(args[i], q, Basis(q.start, 0), q.start, q.start, t) <==>
                PartsMeet(args[i], q.start == t, q.start == q.end)
      {
        DirectInTime(args[i], q, t);
      }
    case Paren(e') => DirectInTime(e', q, t);
    case Unary(e') => DirectInTime(e', q, t);
    case _ =>
  }

  /** A parameter without moving parts meets the weaker condition too. */
  lemma {:induction false} StillMeets(e: Expr, atEnd: bool)
    ensures PartsMeet(e, false, atEnd) ==> PartsMeet(e, true, atEnd)
  {
    match e
    case Aggregate(_, e', param) =>
      StillMeets(e', atEnd);
      if param.Some? { StillMeets(param.value, atEnd); }
    case Binary(_, lhs, rhs) =>
      StillMeets(lhs, atEnd);
      StillMeets(rhs, atEnd);
    case Call(_, args) =>
      forall i | 0 <= i < |args| ensures PartsMeet(args[i], false, atEnd) ==> PartsMeet(args[i], true, atEnd) {
        StillMeets(args[i], atEnd);
      }
    case Paren(e') => StillMeets(e', atEnd);
    case Unary(e') => StillMeets(e', atEnd);
    case _ =>
  }

  /** The query has no step but its start. */
  predicate OneStep(q: Query, interval: Pos) {
    q.end < q.start + interval
  }

  lemma StepsOf(q: Query, interval: Pos)
    requires q.start <= q.end
    ensures IsStep(q, interval, q.start)
    ensures OneStep(q, interval) ==> forall t | IsStep(q, interval, t) :: t == q.start
    ensures !OneStep(q, interval) ==> IsStep(q, interval, q.start + interval)
  {
    forall t | IsStep(q, interval, t) && t != q.start ensures q.start + interval <= t {
      StartsNoLater(t, q.start + interval, interval);
    }
    assert OnGrid(q.start + interval, q.start + interval, interval);
  }

  lemma {:induction false} WrappedInTime(op: string, e: Expr, param: Expr, q: Query, t: int)
    requires Qualifies(e)
    ensures RewriteInTime(q, Aggregate(op, e, Some(param)), t) <==>
            InTime(Preprocess(e, q), q, Basis(q.start, 0), q.start, q.start, t) &&
            InTime(param, q, Basis(q.start, 0), q.start, q.start, t)
  {
    var agg, b := Aggregate(op, Preprocess(e, q), Some(param)), Basis(q.start, 0);
    assert PreprocessExpr(Aggregate(op, e, Some(param)), q) == Wrapped(agg);
    assert InTime(Wrapped(agg), q, b, q.start, t, t) <==> InTime(agg, q, b, q.start, q.start, t);
  }

  /** In an aggregation that is wrapped, a parameter without subqueries keeps its meaning at every step of the query
      if and only if it has neither selectors without `@` nor functions of time, or the query has one step only, and
      it has no selectors with `@ end()`, or that is the start. */
  lemma {:induction false} ParameterExactly(op: string, e: Expr, param: Expr, q: Query, interval: Pos)
    requires Qualifies(e) && Sound(e, q, Basis(q.start, 0), q.start) && Direct(param) && q.start <= q.end
    ensures RewriteIsRight(q, interval, Aggregate(op, e, Some(param))) <==>
            PartsMeet(param, OneStep(q, interval), q.start == q.end)
  {
    var agg := Aggregate(op, e, Some(param));
    RewriteExactly(q, interval, agg);
    StepsOf(q, interval);
    forall t ensures RewriteInTime(q, agg, t) <==> PartsMeet(param, q.start == t, q.start == q.end) {
      SoundInTime(q, e, Basis(q.start, 0), q.start, t);
      DirectInTime(param, q, t);
      WrappedInTime(op, e, param, q, t);
    }
    if OneStep(q, interval) {
      assert RewriteInTime(q, agg, q.start) <==> PartsMeet(param, true, q.start == q.end);
    } else {
      var next := q.start + interval;
      assert RewriteInTime(q, agg, next) <==> PartsMeet(param, false, q.start == q.end);
      StillMeets(param, q.start == q.end);
    }
  }

  // ---------------------------------------------------------------- what is wrapped

  /** No parameters but numbers, no `info`, no date function of an argument, functions with their arguments, and
      nothing wrapped yet. */
  predicate Regular(e: Expr) {
    match e
    case Aggregate(_, e', param) => Regular(e') && (param.None? || param.value.Number?)
    case Binary(_, lhs, rhs) => Regular(lhs) && Regular(rhs)
    case Call(f, args) =>
      && f != "info" && (f in T.DATE_FUNCTIONS ==> args == [])
      && (f == "predict_linear" ==> |args| >= 2) && (f == "timestamp" ==> args != [])
      && forall i | 0 <= i < |args| :: Regular(args[i])
    case Paren(e') => Regular(e')
    case Unary(e') => Regular(e')
    case Wrapped(_) => false
    case _ => true
  }

  /** It means the same at all times, whatever the functions do. */
  ghost predicate Steady(q: Query, e: Expr) {
    forall I: Interp<Term>, t, u | SafeCalls(I) :: Means(I, q, e, t) == Means(I, q, e, u)
  }

  lemma TableOf(f: string, args: seq<Expr>)
    requires Regular(Call(f, args))
    ensures f in AT_MODIFIER_UNSAFE <==> T.OfTime(f, |args|)
  {
    UnsafeExactly(f);
    T.OfTimeExactly(f, |args|);
    if f in AT_MODIFIER_UNSAFE {
      var n :| T.LooksAtTime(f, n);
      T.OfTimeExactly(f, n);
    }
  }

  lemma {:induction false} QualifiedIsSteady<V(!new)>(I: Interp<V>, q: Query, e: Expr, t: int, u: int)
    requires SafeCalls(I) && Regular(e) && Qualifies(e)
    ensures Means(I, q, e, t) == Means(I, q, e, u)
  {
    match e
    case Aggregate(_, e', _) => QualifiedIsSteady(I, q, e', t, u);
    case Binary(_, lhs, rhs) =>
      QualifiedIsSteady(I, q, lhs, t, u);
      QualifiedIsSteady(I, q, rhs, t, u);
    case Call(f, args) =>
      TableOf(f, args);
      forall i | 0 <= i < |args| ensures Means(I, q, args[i], t) == Means(I, q, args[i], u) {
        QualifiedIsSteady(I, q, args[i], t, u);
      }
      assert seq(|args|, i requires 0 <= i < |args| => Means(I, q, args[i], t))
          == seq(|args|, i requires 0 <= i < |args| => Means(I, q, args[i], u));
    case Paren(e') => QualifiedIsSteady(I, q, e', t, u);
    case Unary(e') => QualifiedIsSteady(I, q, e', t, u);
    case _ =>
  }

  /** Two times at which an expression that does not qualify is computed differently. */
  lemma {:induction false} OthersVary(q: Query, e: Expr) returns (t: int, u: int)
    requires Regular(e) && !Qualifies(e)
    ensures Means(FREE, q, e, t) != Means(FREE, q, e, u)
  {
    t, u := 0, 1;
    match e
    case SubqueryExpr(_, _, _, _, _) => t, u := SubqueryVaries(q, e);
    case Aggregate(_, e', _) => t, u := OthersVary(q, e');
    case Binary(_, lhs, rhs) =>
      if Qualifies(lhs) {
        t, u := OthersVary(q, rhs);
      } else {
        t, u := OthersVary(q, lhs);
      }
    case Call(f, args) =>
      TableOf(f, args);
      if !T.OfTime(f, |args|) {
        var i :| 0 <= i < |args| && !Qualifies(args[i]);
        t, u := OthersVary(q, args[i]);
        CallVaries(q, e, i, t, u);
      }
    case Paren(e') => t, u := OthersVary(q, e');
    case Unary(e') => t, u := OthersVary(q, e');
    case _ =>
  }

  lemma CallVaries(q: Query, e: Expr, i: nat, t: int, u: int)
    requires e.Call? && i < |e.args| && Means(FREE, q, e.args[i], t) != Means(FREE, q, e.args[i], u)
    ensures Means(FREE, q, e, t) != Means(FREE, q, e, u)
  {
    var args := e.args;
    var at := seq(|args|, j requires 0 <= j < |args| => Means(FREE, q, args[j], t));
    var later := seq(|args|, j requires 0 <= j < |args| => Means(FREE, q, args[j], u));
    assert at[i] != later[i];
    assert Means(FREE, q, e, t) == ApplyFree(e.f, at, t) && Means(FREE, q, e, u) == ApplyFree(e.f, later, u);
  }

  /** Zero is an inner time of one window and not of another. */
  lemma SubqueryVaries(q: Query, e: Expr) returns (t: int, u: int)
    requires e.SubqueryExpr? && e.at.NoAt?
    ensures Means(FREE, q, e, t) != Means(FREE, q, e, u)
  {
    var span: int := e.span;
    t, u := e.offset, e.offset + span;
    var times, times' := InnerTimes(-span, 0, e.step), InnerTimes(0, span, e.step);
    assert 0 == e.step * 0;
    InnerTimesExactly(-span, 0, e.step, 0);
    InnerTimesExactly(0, span, e.step, 0);
    var i :| 0 <= i < |times| && times[i] == 0;
    var values := seq(|times|, i requires 0 <= i < |times| => (times[i], Means(FREE, q, e.e, times[i])));
    var values' := seq(|times'|, i requires 0 <= i < |times'| => (times'[i], Means(FREE, q, e.e, times'[i])));
    assert values[i].0 == 0 && (i < |times'| ==> values'[i].0 != 0);
    assert Means(FREE, q, e, t) == Inner(values) && Means(FREE, q, e, u) == Inner(values');
  }

  /** What is wrapped is exactly what means the same at all times. */
  lemma QualifiesExactly(q: Query, e: Expr)
    requires Regular(e)
    ensures Qualifies(e) <==> Steady(q, e)
  {
    if Qualifies(e) {
      forall I: Interp<Term>, t, u | SafeCalls(I) ensures Means(I, q, e, t) == Means(I, q, e, u) {
        QualifiedIsSteady(I, q, e, t, u);
      }
    } else {
      var t, u := OthersVary(q, e);
      FreeIsSafe();
    }
  }

  // ---------------------------------------------------------------- info

  lemma {:induction false} InfoInTime(e: Expr, q: Query, t: int)
    requires Qualifies(e)
    ensures RewriteInTime(q, Call("info", [e]), t) <==>
            t == q.start && InTime(Preprocess(e, q), q, Basis(q.start, 0), q.start, q.start, t)
  {
    var call, b, args := Call("info", [e]), Basis(q.start, 0), [Preprocess(e, q)];
    assert "info" !in AT_MODIFIER_UNSAFE && Qualifies(call);
    assert Preprocess(call, q) == Call("info", args);
    assert PreprocessExpr(call, q) == Wrapped(Call("info", args));
    assert InTime(Wrapped(Call("info", args)), q, b, q.start, t, t) <==>
           InTime(Call("info", args), q, b, q.start, q.start, t);
    assert args[0] == Preprocess(e, q);
  }

  /** `info` joins the info series of the evaluation time, but is missing from the table: over an argument that is
      the same at every step it is called once, and is right exactly when the query has one step. */
  lemma {:induction false} InfoExactly(e: Expr, q: Query, interval: Pos)
    requires Qualifies(e) && Sound(e, q, Basis(q.start, 0), q.start) && q.start <= q.end
    ensures RewriteIsRight(q, interval, Call("info", [e])) <==> OneStep(q, interval)
  {
    var call := Call("info", [e]);
    RewriteExactly(q, interval, call);
    StepsOf(q, interval);
    forall t ensures RewriteInTime(q, call, t) <==> t == q.start {
      InfoInTime(e, q, t);
      SoundInTime(q, e, Basis(q.start, 0), q.start, t);
    }
  }

  /** The engine's functions over info series that tell the time. */
  const ON_CLOCK: Interp<T.Value> := Interp(
    x => T.Number(x), s => T.Text(s), (sel, t) => T.Number(0.0), (sel, span, t) => T.Matrix([]),
    (values: seq<(int, T.Value)>) => T.Matrix([]),
    (op: string, v: T.Value, param: Option<T.Value>) => v,
    (op, l, r) => l, (f, args, t) => T.FunctionCall(T.CLOCK, f, args, t), v => v)

  /** info(m @ 10), from 0 to 60: at 60 it is given the info series of 0. */
  lemma InfoIsFrozen()
    ensures var q, e := Query(0, 60), Call("info", [VectorSelector(0, 0, AtTime(10))]);
            && EngineCalls(ON_CLOCK, T.CLOCK)
            && Means(ON_CLOCK, q, e, 60) == T.Number(60.0)
            && Computes(ON_CLOCK, PreprocessExpr(e, q), Basis(q.start, 0), q.start, 60) == T.Number(0.0)
  {
    var q, e := Query(0, 60), Call("info", [VectorSelector(0, 0, AtTime(10))]);
    assert "info" !in AT_MODIFIER_UNSAFE && Qualifies(e);
    assert Preprocess(e, q) == e;
    assert Computes(ON_CLOCK, Wrapped(e), Basis(0, 0), 0, 60) == Computes(ON_CLOCK, e, Basis(0, 0), 0, 0);
  }

  // ---------------------------------------------------------------- copying the value to every step

  ghost function Constant(v: R.Value): int -> Option<R.Value> {
    t => Some(v)
  }

  /** A single point at the first step. */
  lemma SinglePointShows(s: R.Series, v: R.Value, grid: Grid)
    requires 0 < grid.interval && |s.floats| + |s.histograms| == 1 && R.ValueAt(s, grid.start) == Some(v)
    ensures R.Shows(s, Constant(v), grid, grid.start + grid.interval)
    ensures if v.F? then s.floats == [Point(grid.start, v.f)]
            else s.floats == [] && s.histograms == [Point(grid.start, v.h)]
  {
    if s.floats == [] {
      var x := R.FindIn(s.histograms, grid.start);
    } else {
      var x := R.FindIn(s.floats, grid.start);
    }
    var empty := R.Series(s.metric, [], [], s.dropName);
    forall t | OnGrid(t, grid.start, grid.interval) ensures grid.start <= t {
      StartsNoLater(t, grid.start, grid.interval);
    }
    R.AddShows(empty, v, Constant(v), grid, grid.start, grid.start + grid.interval);
    assert s == R.AddToSeries(empty, grid.start, v);
  }

  /** One more copy. */
  lemma CopyShows(r: R.Series, v: R.Value, grid: Grid, ts: int, next: int)
    requires 0 < grid.interval && next == ts + grid.interval && ts <= grid.end
    requires OnGrid(ts, grid.start, grid.interval) && WithinEnd(grid, ts) && R.Shows(r, Constant(v), grid, ts)
    ensures R.Shows(R.AddToSeries(r, ts, v), Constant(v), grid, next)
    ensures OnGrid(next, grid.start, grid.interval) && WithinEnd(grid, next)
  {
    R.AddShows(r, v, Constant(v), grid, ts, next);
    StepMade(grid, ts, next);
  }

  /** The one point of a wrapped node's series, at the first step, is repeated at every other step. */
  method CopyToSteps(s: R.Series, grid: Grid) returns (r: R.Series)
    requires 0 < grid.interval && |s.floats| + |s.histograms| == 1 && R.ValueAt(s, grid.start).Some?
    requires grid.start <= grid.end
    ensures R.Shows(r, Constant(R.ValueAt(s, grid.start).value), grid, grid.end + 1)
  {
    r := s;
    ghost var v := R.ValueAt(s, grid.start).value;
    SinglePointShows(s, v, grid);
    StepMade(grid, grid.start, grid.start + grid.interval);
    var ts := grid.start + grid.interval;
    while ts <= grid.end
      invariant OnGrid(ts, grid.start, grid.interval) && WithinEnd(grid, ts)
      invariant R.Shows(r, Constant(v), grid, ts)
      invariant if v.F? then r.floats != [] && r.floats[0].v == v.f
                else r.floats == [] && r.histograms != [] && r.histograms[0].v == v.h
      decreases grid.end - ts
    {
      var next := ts + grid.interval;
      CopyShows(r, v, grid, ts, next);
      if |r.floats| > 0 {
        r := r.(floats := r.floats + [Point(ts, r.floats[0].v)]);
      } else {
        r := r.(histograms := r.histograms + [Point(ts, r.histograms[0].v)]);
      }
      ts := next;
    }
    R.ShowsUpToEnd(r, Constant(v), grid, ts);
  }
}
