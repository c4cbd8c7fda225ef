/**
 The time range a query reads (promql/engine.go, FindMinMaxTime): the querier is
 opened for it before evaluation, so every sample that evaluation can use must
 lie in it. Durations are whole milliseconds.
 */
module TimeRange {
  import opened Prelude
  import opened SampleBuffer
  import opened Subquery
  import opened StepInvariant

  const MAX_INT64: int := 0x7FFF_FFFF_FFFF_FFFF

  datatype Stmt = Stmt(start: int, end: int, lookback: int)

  /** What the traversal updates. */
  datatype State = State(mint: int, maxt: int, evalRange: int)

  // ---------------------------------------------------------------- the traversal

  /** Sums over the subqueries of a path; an `@` modifier on one starts them afresh. */
  datatype PathTimes = PathTimes(offset: int, span: int, ts: Option<int>)

  function TimesOf(path: seq<Expr>): PathTimes {
    if path == [] then PathTimes(0, 0, None)
    else
      var before, node := TimesOf(path[..|path| - 1]), path[|path| - 1];
      if !node.SubqueryExpr? then before
      else if node.at.AtTime? then PathTimes(node.offset, node.span, Some(node.at.ts))
      else PathTimes(before.offset + node.offset, before.span + node.span, before.ts)
  }

  method SubqueryTimes(path: seq<Expr>) returns (offset: int, span: int, ts: Option<int>)
    ensures PathTimes(offset, span, ts) == TimesOf(path)
  {
    offset, span, ts := 0, 0, None;
    var i := 0;
    while i < |path|
      invariant 0 <= i <= |path|
      invariant PathTimes(offset, span, ts) == TimesOf(path[..i])
    {
      assert path[..i + 1][..i] == path[..i];
      var node := path[i];
      if node.SubqueryExpr? {
        offset, span := offset + node.offset, span + node.span;
        if node.at.AtTime? {
          offset, span, ts := node.offset, node.span, Some(node.at.ts);
        }
      }
      i := i + 1;
    }
    assert path[..i] == path;
  }

  /** The range a selector needs. */
  function SelectorRange(s: Stmt, offset: int, at: At, times: PathTimes, evalRange: int): (int, int) {
    var start0 := if times.ts.Some? then times.ts.value else s.start;
    var end0 := if times.ts.Some? then times.ts.value else s.end;
    var start1 := if at.AtTime? then at.ts else start0 - times.offset - times.span;
    var end1 := if at.AtTime? then at.ts else end0 - times.offset;
    var reach := if evalRange == 0 then s.lookback - 1 else evalRange - 1;
    (start1 - reach - offset, end1 - offset)
  }

  method GetTimeRangesForSelector(s: Stmt, sel: Expr, path: seq<Expr>, evalRange: int) returns (start: int, end: int)
    requires sel.VectorSelector?
    ensures (start, end) == SelectorRange(s, sel.offset, sel.at, TimesOf(path), evalRange)
  {
    start, end := s.start, s.end;
    var subqOffset, subqRange, subqTs := SubqueryTimes(path);
    if subqTs.Some? {
      start, end := subqTs.value, subqTs.value;
    }
    if sel.at.AtTime? {
      start, end := sel.at.ts, sel.at.ts;
    } else {
      start, end := start - subqOffset - subqRange, end - subqOffset;
    }
    if evalRange == 0 {
      start := start - (s.lookback - 1);
    } else {
      start := start - (evalRange - 1);
    }
    start, end := start - sel.offset, end - sel.offset;
  }

  function Widen(st: State, start: int, end: int): State {
    State(if start < st.mint then start else st.mint, if end > st.maxt then end else st.maxt, 0)
  }

  /** The traversal as a function. `times` are the sums over the path. */
  function Visit(s: Stmt, e: Expr, times: PathTimes, st: State): State
    decreases e, 0
  {
    match e
    case VectorSelector(_, offset, at) =>
      var r := SelectorRange(s, offset, at, times, st.evalRange);
      Widen(st, r.0, r.1)
    case MatrixSelector(_, span, offset, at) =>
      var r := SelectorRange(s, offset, at, times, span);
      Widen(st, r.0, r.1)
    case SubqueryExpr(e', _, _, _, _) => Visit(s, e', Below(times, e), st)
    case Aggregate(_, e', param) =>
      var st' := Visit(s, e', times, st);
      if param.None? then st' else Visit(s, param.value, times, st')
    case Binary(_, lhs, rhs) => Visit(s, rhs, times, Visit(s, lhs, times, st))
    case Call(_, args) => VisitUpTo(s, e, |args|, times, st)
    case Paren(e') => Visit(s, e', times, st)
    case Unary(e') => Visit(s, e', times, st)
    case Wrapped(e') => Visit(s, e', times, st)
    case _ => st
  }

  /** The first `n` arguments of a call. */
  function VisitUpTo(s: Stmt, e: Expr, n: nat, times: PathTimes, st: State): State
    requires e.Call? && n <= |e.args|
    decreases e, 0, n
  {
    if n == 0 then st else Visit(s, e.args[n - 1], times, VisitUpTo(s, e, n - 1, times, st))
  }

  /** The sums below a node. */
  function Below(times: PathTimes, node: Expr): PathTimes {
    if !node.SubqueryExpr? then times
    else if node.at.AtTime? then PathTimes(node.offset, node.span, Some(node.at.ts))
    else PathTimes(times.offset + node.offset, times.span + node.span, times.ts)
  }

  lemma TimesBelow(path: seq<Expr>, node: Expr)
    ensures TimesOf(path + [node]) == Below(TimesOf(path), node)
  {
    assert (path + [node])[..|path|] == path;
  }

  method VisitSelector(s: Stmt, sel: Expr, path: seq<Expr>, st: State) returns (st': State)
    requires sel.VectorSelector?
    ensures st' == Visit(s, sel, TimesOf(path), st)
  {
    var start, end := GetTimeRangesForSelector(s, sel, path, st.evalRange);
    st' := st;
    if start < st'.mint {
      st' := st'.(mint := start);
    }
    if end > st'.maxt {
      st' := st'.(maxt := end);
    }
    st' := st'.(evalRange := 0);
  }

  /** Inspect with FindMinMaxTime's callback: the node, then its children with the node added to the path. */
  method Walk(s: Stmt, e: Expr, path: seq<Expr>, st: State) returns (st': State)
    ensures st' == Visit(s, e, TimesOf(path), st)
    decreases e
  {
    TimesBelow(path, e);
    st' := st;
    match e
    case VectorSelector(_, _, _) => st' := VisitSelector(s, e, path, st);
    case MatrixSelector(sel, span, offset, at) =>
      st' := st'.(evalRange := span);
      st' := VisitSelector(s, VectorSelector(sel, offset, at), path + [e], st');
    case SubqueryExpr(e', _, _, _, _) => st' := Walk(s, e', path + [e], st);
    case Aggregate(_, e', param) =>
      st' := Walk(s, e', path + [e], st);
      if param.Some? { st' := Walk(s, param.value, path + [e], st'); }
    case Binary(_, lhs, rhs) =>
      st' := Walk(s, lhs, path + [e], st);
      st' := Walk(s, rhs, path + [e], st');
    case Call(_, args) =>
      var i := 0;
      while i < |args|
        invariant 0 <= i <= |args| && st' == VisitUpTo(s, e, i, TimesOf(path), st)
      {
        st' := Walk(s, args[i], path + [e], st');
        i := i + 1;
      }
    case Paren(e') => st' := Walk(s, e', path + [e], st);
    case Unary(e') => st' := Walk(s, e', path + [e], st);
    case Wrapped(e') => st' := Walk(s, e', path + [e], st);
    case Number(_) =>
    case Str(_) =>
  }

  ghost function Visited(s: Stmt, e: Expr): State {
    Visit(s, e, PathTimes(0, 0, None), State(MAX_INT64, MIN_INT64, 0))
  }

  // ---------------------------------------------------------------- what evaluation reads

  /** The steps at which a selector or subquery is evaluated: all of them at its timestamp, if it has one. `@
      start()` and `@ end()` have a timestamp once they are resolved. */
  function AtGrid(at: At, grid: Grid): Grid {
    if at.AtTime? then Grid(at.ts, at.ts, grid.interval) else grid
  }

  /** Some step of the grid has the timestamp x in (step - offset - reach, step - offset]. */
  ghost predicate UsedAtStep(grid: Grid, offset: int, reach: int, x: int)
    requires 0 < grid.interval
  {
    exists t :: OnGrid(t, grid.start, grid.interval) && t <= grid.end && t - offset - reach < x <= t - offset
  }

  /** Evaluating the expression at the steps of the grid can use a sample with timestamp x. */
  ghost predicate Reads(s: Stmt, e: Expr, grid: Grid, x: int)
    requires 0 < grid.interval
    decreases e
  {
    match e
    case Number(_) => false
    case Str(_) => false
    case VectorSelector(_, offset, at) => UsedAtStep(AtGrid(at, grid), offset, s.lookback, x)
    case MatrixSelector(_, span, offset, at) => UsedAtStep(AtGrid(at, grid), offset, span, x)
    case SubqueryExpr(e', span, offset, step, at) =>
      var outer := AtGrid(at, grid);
      Reads(s, e', SubqueryGrid(outer.start, outer.end, offset, span, step), x)
    case Aggregate(_, e', param) => Reads(s, e', grid, x) || (param.Some? && Reads(s, param.value, grid, x))
    case Binary(_, lhs, rhs) => Reads(s, lhs, grid, x) || Reads(s, rhs, grid, x)
    case Call(_, args) => exists i :: 0 <= i < |args| && Reads(s, args[i], grid, x)
    case Paren(e') => Reads(s, e', grid, x)
    case Unary(e') => Reads(s, e', grid, x)
    case Wrapped(e') => grid.start <= grid.end && Reads(s, e', Grid(grid.start, grid.start, grid.interval), x)
  }

  predicate Within(st: State, x: int) {
    st.mint <= x <= st.maxt
  }

  /** Visiting only widens the range, and leaves no range behind for the next selector. */
  lemma {:induction false} VisitWidens(s: Stmt, e: Expr, times: PathTimes, st: State)
    ensures Visit(s, e, times, st).mint <= st.mint && st.maxt <= Visit(s, e, times, st).maxt
    ensures st.evalRange == 0 ==> Visit(s, e, times, st).evalRange == 0
    decreases e, 0
  {
    match e
    case SubqueryExpr(e', _, _, _, _) => VisitWidens(s, e', Below(times, e), st);
    case Aggregate(_, e', param) =>
      VisitWidens(s, e', times, st);
      if param.Some? { VisitWidens(s, param.value, times, Visit(s, e', times, st)); }
    case Binary(_, lhs, rhs) =>
      VisitWidens(s, lhs, times, st);
      VisitWidens(s, rhs, times, Visit(s, lhs, times, st));
    case Call(_, args) => VisitArgsWidens(s, e, 0, |args|, times, st);
    case Paren(e') => VisitWidens(s, e', times, st);
    case Unary(e') => VisitWidens(s, e', times, st);
    case Wrapped(e') => VisitWidens(s, e', times, st);
    case _ =>
  }

  lemma {:induction false} VisitArgsWidens(s: Stmt, e: Expr, m: nat, n: nat, times: PathTimes, st: State)
    requires e.Call? && m <= n <= |e.args|
    ensures var before, after := VisitUpTo(s, e, m, times, st), VisitUpTo(s, e, n, times, st);
            && after.mint <= before.mint && before.maxt <= after.maxt
            && (before.evalRange == 0 ==> after.evalRange == 0)
    decreases e, 0, n
  {
    if m < n {
      VisitArgsWidens(s, e, m, n - 1, times, st);
      VisitWidens(s, e.args[n - 1], times, VisitUpTo(s, e, n - 1, times, st));
    }
  }

  /** The steps of the evaluation below a path lie within the statement's range, or at the timestamp of a subquery,
      moved and extended by the subqueries. */
  predicate Covers(s: Stmt, times: PathTimes, grid: Grid) {
    var start := if times.ts.Some? then times.ts.value else s.start;
    var end := if times.ts.Some? then times.ts.value else s.end;
    start - times.offset - times.span <= grid.start && grid.end <= end - times.offset
  }

  lemma CoversBelow(s: Stmt, times: PathTimes, grid: Grid, e: Expr)
    requires Covers(s, times, grid) && e.SubqueryExpr?
    ensures var outer := AtGrid(e.at, grid);
            Covers(s, Below(times, e), SubqueryGrid(outer.start, outer.end, e.offset, e.span, e.step))
  {
    AlignedStartIsLeast(AtGrid(e.at, grid).start - e.offset - e.span, e.step);
  }

  /** A selector's reads lie in its range. */
  lemma SelectorCovered(s: Stmt, offset: int, at: At, times: PathTimes, evalRange: int, grid: Grid, x: int)
    requires 0 < grid.interval && Covers(s, times, grid)
    requires UsedAtStep(AtGrid(at, grid), offset, if evalRange == 0 then s.lookback else evalRange, x)
    ensures var r := SelectorRange(s, offset, at, times, evalRange); r.0 <= x <= r.1
  {
    var steps := AtGrid(at, grid);
    var t :| OnGrid(t, steps.start, steps.interval) && t <= steps.end &&
             t - offset - (if evalRange == 0 then s.lookback else evalRange) < x <= t - offset;
    StartsNoLater(t, steps.start, steps.interval);
  }

  /** Every read of an expression lies in the range the traversal finds. */
  lemma {:induction false} VisitCovers(s: Stmt, e: Expr, times: PathTimes, st: State, grid: Grid, x: int)
    requires 0 < grid.interval && Covers(s, times, grid) && st.evalRange == 0
    requires Reads(s, e, grid, x)
    ensures Within(Visit(s, e, times, st), x)
    decreases e, 0
  {
    match e
    case VectorSelector(_, offset, at) => SelectorCovered(s, offset, at, times, 0, grid, x);
    case MatrixSelector(_, span, offset, at) => SelectorCovered(s, offset, at, times, span, grid, x);
    case SubqueryExpr(e', span, offset, step, at) =>
      var outer := AtGrid(at, grid);
      CoversBelow(s, times, grid, e);
      VisitCovers(s, e', Below(times, e), st, SubqueryGrid(outer.start, outer.end, offset, span, step), x);
    case Aggregate(_, e', param) =>
      var st' := Visit(s, e', times, st);
      VisitWidens(s, e', times, st);
      if Reads(s, e', grid, x) {
        VisitCovers(s, e', times, st, grid, x);
        if param.Some? { VisitWidens(s, param.value, times, st'); }
      } else {
        VisitCovers(s, param.value, times, st', grid, x);
      }
    case Binary(_, lhs, rhs) =>
      var st' := Visit(s, lhs, times, st);
      VisitWidens(s, lhs, times, st);
      if Reads(s, lhs, grid, x) {
        VisitCovers(s, lhs, times, st, grid, x);
        VisitWidens(s, rhs, times, st');
      } else {
        VisitCovers(s, rhs, times, st', grid, x);
      }
    case Call(_, args) =>
      var i :| 0 <= i < |args| && Reads(s, args[i], grid, x);
      var before := VisitUpTo(s, e, i, times, st);
      VisitArgsWidens(s, e, 0, i, times, st);
      VisitCovers(s, args[i], times, before, grid, x);
      VisitArgsWidens(s, e, i + 1, |args|, times, st);
    case Paren(e') => VisitCovers(s, e', times, st, grid, x);
    case Unary(e') => VisitCovers(s, e', times, st, grid, x);
    case Wrapped(e') => VisitCovers(s, e', times, st, Grid(grid.start, grid.start, grid.interval), x);
  }

  /** FindMinMaxTime covers every read: for any steps from the statement's start up to its end. */
  lemma RangeCoversReads(s: Stmt, e: Expr, interval: Pos, x: int)
    requires Reads(s, e, Grid(s.start, s.end, interval), x)
    ensures Within(Visited(s, e), x)
  {
    VisitCovers(s, e, PathTimes(0, 0, None), State(MAX_INT64, MIN_INT64, 0), Grid(s.start, s.end, interval), x);
  }

  method FindMinMaxTime(s: Stmt, e: Expr) returns (mint: int, maxt: int)
    ensures var st := Visited(s, e);
              if st.maxt == MIN_INT64 then mint == 0 == maxt else mint == st.mint && maxt == st.maxt
    ensures forall interval: Pos, x | MIN_INT64 < x && Reads(s, e, Grid(s.start, s.end, interval), x) ::
              mint <= x <= maxt
  {
    var st := Walk(s, e, [], State(MAX_INT64, MIN_INT64, 0));
    mint, maxt := st.mint, st.maxt;
    if maxt == MIN_INT64 {
      mint, maxt := 0, 0;
    }
    forall interval: Pos, x | MIN_INT64 < x && Reads(s, e, Grid(s.start, s.end, interval), x)
      ensures mint <= x <= maxt
    {
      RangeCoversReads(s, e, interval, x);
    }
  }

  // ---------------------------------------------------------------- the range is not too wide

  /** No subquery has steps that are longer than its range. */
  predicate StepsFit(e: Expr) {
    match e
    case SubqueryExpr(e', span, _, step, _) => step <= span && StepsFit(e')
    case Aggregate(_, e', param) => StepsFit(e') && (param.None? || StepsFit(param.value))
    case Binary(_, lhs, rhs) => StepsFit(lhs) && StepsFit(rhs)
    case Call(_, args) => forall i | 0 <= i < |args| :: StepsFit(args[i])
    case Paren(e') => StepsFit(e')
    case Unary(e') => StepsFit(e')
    case Wrapped(e') => StepsFit(e')
    case _ => true
  }

  predicate NothingWrapped(e: Expr) {
    match e
    case SubqueryExpr(e', _, _, _, _) => NothingWrapped(e')
    case Aggregate(_, e', param) => NothingWrapped(e') && (param.None? || NothingWrapped(param.value))
    case Binary(_, lhs, rhs) => NothingWrapped(lhs) && NothingWrapped(rhs)
    case Call(_, args) => forall i | 0 <= i < |args| :: NothingWrapped(args[i])
    case Paren(e') => NothingWrapped(e')
    case Unary(e') => NothingWrapped(e')
    case Wrapped(_) => false
    case _ => true
  }

  /** The steps of all subqueries, together. */
  function Steps(e: Expr): nat
    decreases e, 0
  {
    match e
    case SubqueryExpr(e', _, _, step, _) => step + Steps(e')
    case Aggregate(_, e', param) => Steps(e') + if param.None? then 0 else Steps(param.value)
    case Binary(_, lhs, rhs) => Steps(lhs) + Steps(rhs)
    case Call(_, args) => StepsUpTo(e, |args|)
    case Paren(e') => Steps(e')
    case Unary(e') => Steps(e')
    case Wrapped(e') => Steps(e')
    case _ => 0
  }

  function StepsUpTo(e: Expr, n: nat): nat
    requires e.Call? && n <= |e.args|
    decreases e, 0, n
  {
    if n == 0 then 0 else StepsUpTo(e, n - 1) + Steps(e.args[n - 1])
  }

  /** Where the evaluation below a path starts and ends, but for the alignment of the subqueries' steps. */
  function PathStart(s: Stmt, times: PathTimes): int {
    (if times.ts.Some? then times.ts.value else s.start) - times.offset - times.span
  }

  function PathEnd(s: Stmt, times: PathTimes): int {
    (if times.ts.Some? then times.ts.value else s.end) - times.offset
  }

  /** Some read is at most `d` after `x`. */
  ghost predicate ReadSoonAfter(s: Stmt, e: Expr, grid: Grid, x: int, d: nat)
    requires 0 < grid.interval
  {
    exists y :: Reads(s, e, grid, y) && y <= x + d
  }

  /** Some read is at most `d` before `x`. */
  ghost predicate ReadShortlyBefore(s: Stmt, e: Expr, grid: Grid, x: int, d: nat)
    requires 0 < grid.interval
  {
    exists y :: Reads(s, e, grid, y) && x - d <= y
  }

  /** What a part of an expression reads, the expression reads. */
  lemma PartReads(s: Stmt, part: Expr, e: Expr, inner: Grid, grid: Grid, x: int, d: nat, d': nat)
    requires 0 < inner.interval && 0 < grid.interval && d <= d'
    requires forall y | Reads(s, part, inner, y) :: Reads(s, e, grid, y)
    ensures ReadSoonAfter(s, part, inner, x, d) ==> ReadSoonAfter(s, e, grid, x, d')
    ensures ReadShortlyBefore(s, part, inner, x, d) ==> ReadShortlyBefore(s, e, grid, x, d')
  {
    if ReadSoonAfter(s, part, inner, x, d) {
      var y :| Reads(s, part, inner, y) && y <= x + d;
      assert Reads(s, e, grid, y) && y <= x + d';
    }
    if ReadShortlyBefore(s, part, inner, x, d) {
      var y :| Reads(s, part, inner, y) && x - d <= y;
      assert Reads(s, e, grid, y) && x - d' <= y;
    }
  }

  lemma FirstStepUses(offset: int, at: At, reach: int, grid: Grid)
    requires 0 < grid.interval && grid.start <= grid.end && 0 < reach
    ensures var first := if at.AtTime? then at.ts else grid.start;
            UsedAtStep(AtGrid(at, grid), offset, reach, first - offset - (reach - 1))
  {
    var first := if at.AtTime? then at.ts else grid.start;
    assert OnGrid(first, first, grid.interval);
  }

  lemma AlignedSoon(x: int, step: Pos)
    ensures x < AlignedStart(x, step) <= x + step
  {
    AlignedStartIsLeast(x, step);
  }

  /** The earliest time found is that of a read, but for the steps of the subqueries: without any it is exactly the
      earliest read. `d` is how much later than the path says the evaluation starts. */
  lemma {:induction false} EarliestIsRead(s: Stmt, e: Expr, times: PathTimes, st: State, grid: Grid, d: nat)
    requires StepsFit(e) && 0 < s.lookback && st.evalRange == 0
    requires 0 < grid.interval && grid.start <= grid.end && grid.start <= PathStart(s, times) + d
    ensures var x := Visit(s, e, times, st).mint;
            x == st.mint || ReadSoonAfter(s, e, grid, x, d + Steps(e))
    decreases e, 0
  {
    match e
    case VectorSelector(_, offset, at) =>
      FirstStepUses(offset, at, s.lookback, grid);
      var first := if at.AtTime? then at.ts else grid.start;
      assert Reads(s, e, grid, first - offset - (s.lookback - 1));
    case MatrixSelector(_, span, offset, at) =>
      FirstStepUses(offset, at, span, grid);
      var first := if at.AtTime? then at.ts else grid.start;
      assert Reads(s, e, grid, first - offset - (span - 1));
    case SubqueryExpr(e', span, offset, step, at) =>
      var outer := AtGrid(at, grid);
      var inner := SubqueryGrid(outer.start, outer.end, offset, span, step);
      AlignedSoon(outer.start - offset - span, step);
      EarliestIsRead(s, e', Below(times, e), st, inner, d + step);
      assert forall y | Reads(s, e', inner, y) :: Reads(s, e, grid, y);
    case Aggregate(_, e', param) =>
      var st' := Visit(s, e', times, st);
      EarliestIsRead(s, e', times, st, grid, d);
      VisitWidens(s, e', times, st);
      assert forall y | Reads(s, e', grid, y) :: Reads(s, e, grid, y);
      if param.Some? {
        EarliestIsRead(s, param.value, times, st', grid, d);
        assert forall y | Reads(s, param.value, grid, y) :: Reads(s, e, grid, y);
      }
    case Binary(_, lhs, rhs) =>
      var st' := Visit(s, lhs, times, st);
      EarliestIsRead(s, lhs, times, st, grid, d);
      VisitWidens(s, lhs, times, st);
      EarliestIsRead(s, rhs, times, st', grid, d);
      assert forall y | Reads(s, lhs, grid, y) || Reads(s, rhs, grid, y) :: Reads(s, e, grid, y);
    case Call(_, args) => EarliestArgIsRead(s, e, |args|, times, st, grid, d);
    case Paren(e') =>
      EarliestIsRead(s, e', times, st, grid, d);
      assert forall y | Reads(s, e', grid, y) :: Reads(s, e, grid, y);
    case Unary(e') =>
      EarliestIsRead(s, e', times, st, grid, d);
      assert forall y | Reads(s, e', grid, y) :: Reads(s, e, grid, y);
    case Wrapped(e') =>
      var once := Grid(grid.start, grid.start, grid.interval);
      EarliestIsRead(s, e', times, st, once, d);
      assert forall y | Reads(s, e', once, y) :: Reads(s, e, grid, y);
    case _ =>
  }

  lemma {:induction false} EarliestArgIsRead(s: Stmt, e: Expr, n: nat, times: PathTimes, st: State, grid: Grid, d: nat)
    requires e.Call? && n <= |e.args| && (forall i | 0 <= i < |e.args| :: StepsFit(e.args[i]))
    requires 0 < s.lookback && st.evalRange == 0
    requires 0 < grid.interval && grid.start <= grid.end && grid.start <= PathStart(s, times) + d
    ensures var x := VisitUpTo(s, e, n, times, st).mint;
            x == st.mint || ReadSoonAfter(s, e, grid, x, d + StepsUpTo(e, n))
    decreases e, 0, n
  {
    if n > 0 {
      var arg, before := e.args[n - 1], VisitUpTo(s, e, n - 1, times, st);
      var x := VisitUpTo(s, e, n, times, st).mint;
      EarliestArgIsRead(s, e, n - 1, times, st, grid, d);
      VisitArgsWidens(s, e, 0, n - 1, times, st);
      EarliestIsRead(s, arg, times, before, grid, d);
      PartReads(s, arg, e, grid, grid, x, d + Steps(arg), d + StepsUpTo(e, n));
      PartReads(s, e, e, grid, grid, x, d + StepsUpTo(e, n - 1), d + StepsUpTo(e, n));
    }
  }

  lemma LastStepUses(offset: int, at: At, reach: int, grid: Grid, t: int)
    requires 0 < grid.interval && OnGrid(t, grid.start, grid.interval) && t <= grid.end && 0 < reach
    ensures var last := if at.AtTime? then at.ts else t;
            UsedAtStep(AtGrid(at, grid), offset, reach, last - offset)
  {
    var last := if at.AtTime? then at.ts else t;
    assert at.AtTime? ==> OnGrid(last, last, grid.interval);
  }

  /** The last inner step of a subquery, for outer steps the last of which is `t`. */
  lemma LastInnerStep(outer: Grid, t: int, offset: int, span: Pos, step: Pos) returns (u: int)
    requires 0 < outer.interval && outer.start <= t <= outer.end && step <= span
    ensures var inner := SubqueryGrid(outer.start, outer.end, offset, span, step);
            OnGrid(u, inner.start, step) && u <= inner.end
    ensures t - offset - step < u <= t - offset
  {
    var first := AlignedStart(outer.start - offset - span, step);
    AlignedStartIsLeast(outer.start - offset - span, step);
    AlignedSoon(outer.start - offset - span, step);
    AlignedStartIsLeast(t - offset - step, step);
    AlignedSoon(t - offset - step, step);
    u := AlignedStart(t - offset - step, step);
    if u < first { MultiplesApart(u, first, step); }
    GridOfMultiples(u, first, step);
  }

  /** The latest time found is that of a read as well, but for these steps and the last step `t` of the query, which
      may be `d` before its end. */
  lemma {:induction false} LatestIsRead(s: Stmt, e: Expr, times: PathTimes, st: State, grid: Grid, t: int, d: nat)
    requires StepsFit(e) && NothingWrapped(e) && 0 < s.lookback && st.evalRange == 0
    requires 0 < grid.interval && OnGrid(t, grid.start, grid.interval) && PathEnd(s, times) - d <= t <= grid.end
    ensures var x := Visit(s, e, times, st).maxt;
            x == st.maxt || ReadShortlyBefore(s, e, grid, x, d + Steps(e))
    decreases e, 0
  {
    match e
    case VectorSelector(_, offset, at) =>
      LastStepUses(offset, at, s.lookback, grid, t);
      assert Reads(s, e, grid, (if at.AtTime? then at.ts else t) - offset);
    case MatrixSelector(_, span, offset, at) =>
      LastStepUses(offset, at, span, grid, t);
      assert Reads(s, e, grid, (if at.AtTime? then at.ts else t) - offset);
    case SubqueryExpr(e', span, offset, step, at) =>
      var outer, t' := AtGrid(at, grid), if at.AtTime? then at.ts else t;
      var inner := SubqueryGrid(outer.start, outer.end, offset, span, step);
      StartsNoLater(t, grid.start, grid.interval);
      var u := LastInnerStep(outer, t', offset, span, step);
      LatestIsRead(s, e', Below(times, e), st, inner, u, d + step);
      assert forall y | Reads(s, e', inner, y) :: Reads(s, e, grid, y);
    case Aggregate(_, e', param) =>
      LatestIsRead(s, e', times, st, grid, t, d);
      VisitWidens(s, e', times, st);
      assert forall y | Reads(s, e', grid, y) :: Reads(s, e, grid, y);
      if param.Some? {
        LatestIsRead(s, param.value, times, Visit(s, e', times, st), grid, t, d);
        assert forall y | Reads(s, param.value, grid, y) :: Reads(s, e, grid, y);
      }
    case Binary(_, lhs, rhs) =>
      LatestIsRead(s, lhs, times, st, grid, t, d);
      VisitWidens(s, lhs, times, st);
      LatestIsRead(s, rhs, times, Visit(s, lhs, times, st), grid, t, d);
      assert forall y | Reads(s, lhs, grid, y) || Reads(s, rhs, grid, y) :: Reads(s, e, grid, y);
    case Call(_, args) => LatestArgIsRead(s, e, |args|, times, st, grid, t, d);
    case Paren(e') =>
      LatestIsRead(s, e', times, st, grid, t, d);
      assert forall y | Reads(s, e', grid, y) :: Reads(s, e, grid, y);
    case Unary(e') =>
      LatestIsRead(s, e', times, st, grid, t, d);
      assert forall y | Reads(s, e', grid, y) :: Reads(s, e, grid, y);
    case _ =>
  }

  lemma {:induction false} LatestArgIsRead(s: Stmt, e: Expr, n: nat, times: PathTimes, st: State, grid: Grid, t: int,
                                           d: nat)
    requires e.Call? && n <= |e.args|
    requires forall i | 0 <= i < |e.args| :: StepsFit(e.args[i]) && NothingWrapped(e.args[i])
    requires 0 < s.lookback && st.evalRange == 0
    requires 0 < grid.interval && OnGrid(t, grid.start, grid.interval) && PathEnd(s, times) - d <= t <= grid.end
    ensures var x := VisitUpTo(s, e, n, times, st).maxt;
            x == st.maxt || ReadShortlyBefore(s, e, grid, x, d + StepsUpTo(e, n))
    decreases e, 0, n
  {
    if n > 0 {
      var arg, before := e.args[n - 1], VisitUpTo(s, e, n - 1, times, st);
      var x := VisitUpTo(s, e, n, times, st).maxt;
      LatestArgIsRead(s, e, n - 1, times, st, grid, t, d);
      VisitArgsWidens(s, e, 0, n - 1, times, st);
      LatestIsRead(s, arg, times, before, grid, t, d);
      PartReads(s, arg, e, grid, grid, x, d + Steps(arg), d + StepsUpTo(e, n));
      PartReads(s, e, e, grid, grid, x, d + StepsUpTo(e, n - 1), d + StepsUpTo(e, n));
    }
  }
}
