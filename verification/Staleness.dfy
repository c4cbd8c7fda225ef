/**
 Staleness tracking of a rule group (rules/group.go): which series the group has
 written and must one day mark as stale. Commits are atomic. What a query returns,
 which appends the storage accepts and whether a commit succeeds come from outside.
 */
module Staleness {
  import opened Prelude

  // ---------------------------------------------------------------- the storage

  /** An appended sample: a value or a stale marker. */
  datatype Append = Append(series: Labels, stale: bool)

  /** The series whose last committed sample is not a stale marker, after a commit. */
  function Committed(live: set<Labels>, app: seq<Append>): set<Labels> {
    if app == [] then live
    else
      var before, a := Committed(live, app[..|app| - 1]), app[|app| - 1];
      if a.stale then before - {a.series} else before + {a.series}
  }

  /** The storage's answer to an append: accepted or not. */
  type Accepts = Append -> bool

  // ---------------------------------------------------------------- tracking

  /** Some rule's last series include it. */
  ghost predicate InSome(prev: seq<set<Labels>>, s: Labels) {
    exists i :: 0 <= i < |prev| && s in prev[i]
  }

  /** Every live series is known to the group. */
  ghost predicate Tracked(live: set<Labels>, prev: seq<set<Labels>>, queue: seq<Labels>) {
    forall s | s in live :: InSome(prev, s) || s in queue
  }

  lemma Snoc(live: set<Labels>, app: seq<Append>, a: Append)
    ensures Committed(live, app + [a]) ==
            if a.stale then Committed(live, app) - {a.series} else Committed(live, app) + {a.series}
  {
    assert (app + [a])[..|app|] == app;
  }

  /** Append the samples of a result; those the storage does not take are dropped. */
  method AppendResult(vector: seq<Labels>, accepts: Accepts, ghost live: set<Labels>)
    returns (app: seq<Append>, returned: set<Labels>)
    ensures Committed(live, app) == live + returned
    ensures forall s :: s in returned <==> s in vector && accepts(Append(s, false))
  {
    app, returned := [], {};
    var i := 0;
    while i < |vector|
      invariant 0 <= i <= |vector|
      invariant Committed(live, app) == live + returned
      invariant forall s :: s in returned <==> s in vector[..i] && accepts(Append(s, false))
    {
      var a := Append(vector[i], false);
      if accepts(a) {
        Snoc(live, app, a);
        app, returned := app + [a], returned + {vector[i]};
      }
      i := i + 1;
    }
  }

  /** Append stale markers for the given series. */
  method AppendStale(series: set<Labels>, accepts: Accepts, app: seq<Append>, ghost live: set<Labels>)
    returns (app': seq<Append>, ghost marked: set<Labels>)
    ensures Committed(live, app') == Committed(live, app) - marked
    ensures forall s :: s in marked <==> s in series && accepts(Append(s, true))
  {
    app', marked := app, {};
    var rest := series;
    while rest != {}
      invariant rest <= series
      invariant Committed(live, app') == Committed(live, app) - marked
      invariant forall s :: s in marked <==> s in series && s !in rest && accepts(Append(s, true))
      decreases |rest|
    {
      var s :| s in rest;
      var a := Append(s, true);
      if accepts(a) {
        Snoc(live, app', a);
        app', marked := app' + [a], marked + {s};
      }
      rest := rest - {s};
    }
  }

  // ---------------------------------------------------------------- runs

  /** What is live in the storage, and what the group remembers. */
  datatype State = State(live: set<Labels>, prev: seq<set<Labels>>, queue: seq<Labels>)

  /** Steps that change something. `marked` are the series whose stale markers the storage took. */
  datatype Event =
    | Evaluated(i: nat, returned: set<Labels>, marked: set<Labels>)
    | CleanedUp(marked: set<Labels>)
    | Reloaded(prev': seq<set<Labels>>, queue': seq<Labels>)

  function Remembered(queue: seq<Labels>): set<Labels> {
    set s | s in queue
  }

  ghost predicate Possible(st: State, ev: Event) {
    match ev
    case Evaluated(i, returned, marked) => i < |st.prev| && marked <= st.prev[i] - returned
    case CleanedUp(marked) => marked <= Remembered(st.queue)
    case Reloaded(prev', queue') => CarriesOver(st.prev, st.queue, prev', queue')
  }

  function Next(st: State, ev: Event): State
    requires Possible(st, ev)
  {
    match ev
    case Evaluated(i, returned, marked) => State(st.live + returned - marked, st.prev[i := returned], st.queue)
    case CleanedUp(marked) => State(st.live - marked, st.prev, [])
    case Reloaded(prev', queue') => State(st.live, prev', queue')
  }

  /** A reload hands every series over: each rule's series as they are to a new rule, or to the queue. */
  ghost predicate CarriesOver(prev: seq<set<Labels>>, queue: seq<Labels>, prev': seq<set<Labels>>,
                              queue': seq<Labels>) {
    && (forall s | s in queue :: s in queue')
    && (forall fi | 0 <= fi < |prev| :: prev[fi] in prev' || forall s | s in prev[fi] :: s in queue')
  }

  /** Another rule has it, or it is queued. */
  ghost predicate KnownOtherwise(st: State, i: nat, s: Labels) {
    s in st.queue || exists j :: 0 <= j < |st.prev| && j != i && s in st.prev[j]
  }

  /** Every live series whose stale marker was refused is known otherwise. */
  ghost predicate Careful(st: State, ev: Event)
    requires Possible(st, ev)
  {
    match ev
    case Evaluated(i, returned, marked) =>
      forall s | s in st.live && s in st.prev[i] - returned - marked :: KnownOtherwise(st, i, s)
    case CleanedUp(marked) => forall s | s in st.live && s in Remembered(st.queue) - marked :: InSome(st.prev, s)
    case Reloaded(_, _) => true
  }

  ghost predicate Good(st: State) {
    Tracked(st.live, st.prev, st.queue)
  }

  /** A step forgets no live series, exactly when every refused stale marker was for a series known otherwise. */
  lemma StepKeepsTrack(st: State, ev: Event)
    requires Good(st) && Possible(st, ev)
    ensures Good(Next(st, ev)) <==> Careful(st, ev)
  {
    match ev
    case Evaluated(i, returned, marked) => EvaluationKeepsTrack(st, i, returned, marked);
    case CleanedUp(marked) =>
    case Reloaded(prev', queue') =>
      forall s | s in st.live ensures InSome(prev', s) || s in queue' {
        if s !in st.queue {
          var fi :| 0 <= fi < |st.prev| && s in st.prev[fi];
          if prev' != [] && st.prev[fi] in prev' {
            var i :| 0 <= i < |prev'| && prev'[i] == st.prev[fi];
          }
        }
      }
  }

  lemma EvaluationKeepsTrack(st: State, i: nat, returned: set<Labels>, marked: set<Labels>)
    requires Good(st) && Possible(st, Evaluated(i, returned, marked))
    ensures Good(Next(st, Evaluated(i, returned, marked))) <==> Careful(st, Evaluated(i, returned, marked))
  {
    var st' := Next(st, Evaluated(i, returned, marked));
    forall s | s in st'.live
      ensures InSome(st'.prev, s) || s in st'.queue <==> s in returned || KnownOtherwise(st, i, s)
    {
      if s in returned {
        assert s in st'.prev[i];
      } else if KnownOtherwise(st, i, s) && s !in st.queue {
        var j :| 0 <= j < |st.prev| && j != i && s in st.prev[j];
        assert s in st'.prev[j];
      }
    }
    forall s | s in st.live && s in st.prev[i] - returned - marked ensures s in st'.live {
    }
    if Careful(st, Evaluated(i, returned, marked)) {
      forall s | s in st'.live && s !in returned ensures KnownOtherwise(st, i, s) {
        assert InSome(st.prev, s) || s in st.queue;
      }
    }
  }

  ghost predicate Run(sts: seq<State>, evs: seq<Event>) {
    && |sts| == |evs| + 1
    && forall n | 0 <= n < |evs| :: Possible(sts[n], evs[n]) && sts[n + 1] == Next(sts[n], evs[n])
  }

  /** Over any run in which refused stale markers are only for series known otherwise, no live series is ever
      forgotten. */
  lemma {:induction false} NoSeriesForgotten(sts: seq<State>, evs: seq<Event>)
    requires Run(sts, evs) && sts[0].live == {}
    requires forall n | 0 <= n < |evs| :: Careful(sts[n], evs[n])
    ensures forall n | 0 <= n < |sts| :: Good(sts[n])
  {
    var n := 0;
    while n < |evs|
      invariant 0 <= n <= |evs| && forall k | 0 <= k <= n :: Good(sts[k])
    {
      StepKeepsTrack(sts[n], evs[n]);
      n := n + 1;
    }
  }

  // ---------------------------------------------------------------- the group

  class Storage {
    var live: set<Labels>

    /** All of an appender's samples become visible, or none. */
    method Commit(app: seq<Append>, ok: bool)
      modifies this
      ensures live == if ok then Committed(old(live), app) else old(live)
    {
      if ok {
        var i := 0;
        ghost var before := live;
        while i < |app|
          invariant 0 <= i <= |app| && live == Committed(before, app[..i])
        {
          Snoc(before, app[..i], app[i]);
          assert app[..i + 1] == app[..i] + [app[i]];
          live := if app[i].stale then live - {app[i].series} else live + {app[i].series};
          i := i + 1;
        }
        assert app[..i] == app;
      }
    }
  }

  datatype Rule = Rule(name: string, labels: Labels)

  /** The rules with this name and labels among the first `n`. */
  function Count(rules: seq<Rule>, n: nat, r: Rule): nat
    requires n <= |rules|
  {
    if n == 0 then 0 else Count(rules, n - 1, r) + if rules[n - 1] == r then 1 else 0
  }

  // Rules are matched by name and labels across a reload, the n-th of a kind with the n-th.

  /** The positions of a rule among the first `n`. */
  function Indexes(rules: seq<Rule>, n: nat, r: Rule): (s: seq<nat>)
    requires n <= |rules|
    ensures |s| == Count(rules, n, r)
  {
    if n == 0 then [] else if rules[n - 1] == r then Indexes(rules, n - 1, r) + [n - 1] else Indexes(rules, n - 1, r)
  }

  lemma {:induction false} IndexesFind(rules: seq<Rule>, n: nat, fi: nat)
    requires fi < n <= |rules|
    ensures var r := rules[fi];
              Count(rules, fi, r) < Count(rules, n, r) && Indexes(rules, n, r)[Count(rules, fi, r)] == fi
  {
    if fi < n - 1 { IndexesFind(rules, n - 1, fi); }
  }

  lemma {:induction false} Nth(rules: seq<Rule>, n: nat, r: Rule, c: nat) returns (i: nat)
    requires n <= |rules| && c < Count(rules, n, r)
    ensures i < n && rules[i] == r && Count(rules, i, r) == c
  {
    if rules[n - 1] == r && Count(rules, n - 1, r) == c {
      i := n - 1;
    } else {
      i := Nth(rules, n - 1, r, c);
    }
  }

  /** What rule i takes over from the old group. */
  ghost function Inherited(rules: seq<Rule>, i: nat, from: seq<Rule>, prev: seq<set<Labels>>): set<Labels>
    requires i < |rules| && |prev| == |from|
  {
    var r := rules[i];
    var c := Count(rules, i, r);
    if c < Count(from, |from|, r) && Indexes(from, |from|, r)[c] < |prev| then prev[Indexes(from, |from|, r)[c]] else {}
  }

  /** There are more rules like this one in the old group than in the new. */
  predicate Surplus(rules: seq<Rule>, from: seq<Rule>, r: Rule) {
    Count(from, |from|, r) > Count(rules, |rules|, r)
  }

  /** A series is queued on a reload exactly if it already was, or some rule that had it is one of a surplus. */
  ghost predicate QueuedExactly(rules: seq<Rule>, from: seq<Rule>, prev: seq<set<Labels>>, n: nat, queue: seq<Labels>,
                                queue': seq<Labels>)
    requires n <= |prev| == |from|
  {
    forall s :: s in queue' <==>
      s in queue || exists fi :: 0 <= fi < n && s in prev[fi] && Surplus(rules, from, from[fi])
  }

  lemma ReloadCarriesOver(rules: seq<Rule>, from: seq<Rule>, prev: seq<set<Labels>>, queue: seq<Labels>,
                          prev': seq<set<Labels>>, queue': seq<Labels>)
    requires |prev| == |from| && |prev'| == |rules|
    requires forall i: nat | i < |rules| :: prev'[i] == Inherited(rules, i, from, prev)
    requires QueuedExactly(rules, from, prev, |from|, queue, queue')
    ensures CarriesOver(prev, queue, prev', queue')
  {
    forall fi: nat | fi < |prev| ensures prev[fi] in prev' || forall s | s in prev[fi] :: s in queue' {
      var r := from[fi];
      IndexesFind(from, |from|, fi);
      if Count(from, fi, r) < Count(rules, |rules|, r) {
        var i := Nth(rules, |rules|, r, Count(from, fi, r));
        assert prev'[i] == prev[fi];
      } else {
        assert Surplus(rules, from, r);
      }
    }
  }

  type RuleMap = map<Rule, seq<nat>>

  function At(m: RuleMap, r: Rule): seq<nat> {
    if r in m then m[r] else []
  }

  method IndexRules(rules: seq<Rule>) returns (m: RuleMap)
    ensures forall r :: At(m, r) == Indexes(rules, |rules|, r)
  {
    m := map[];
    var fi := 0;
    while fi < |rules|
      invariant 0 <= fi <= |rules|
      invariant forall r :: At(m, r) == Indexes(rules, fi, r)
    {
      m := m[rules[fi] := At(m, rules[fi]) + [fi]];
      fi := fi + 1;
    }
  }

  /** The positions not yet taken once the first `i` rules have been matched. */
  ghost predicate NotTaken(m: RuleMap, rules: seq<Rule>, i: nat, from: seq<Rule>)
    requires i <= |rules|
  {
    forall r :: At(m, r) == Indexes(from, |from|, r)[Min(Count(rules, i, r), Count(from, |from|, r))..]
  }

  lemma NoneTaken(m: RuleMap, rules: seq<Rule>, from: seq<Rule>)
    requires forall r :: At(m, r) == Indexes(from, |from|, r)
    ensures NotTaken(m, rules, 0, from)
  {
  }

  lemma TakeFirst(m: RuleMap, rules: seq<Rule>, i: nat, from: seq<Rule>, prev: seq<set<Labels>>)
    requires i < |rules| && NotTaken(m, rules, i, from) && |prev| == |from|
    ensures var indexes := At(m, rules[i]);
            if indexes == [] then NotTaken(m, rules, i + 1, from) && Inherited(rules, i, from, prev) == {}
            else
              && NotTaken(m[rules[i] := indexes[1..]], rules, i + 1, from)
              && indexes[0] < |prev| && Inherited(rules, i, from, prev) == prev[indexes[0]]
  {
    var r := rules[i];
    var c, all := Count(rules, i, r), Indexes(from, |from|, r);
    InRange(from, |from|, r);
    assert At(m, r) == all[Min(c, |all|)..];
    forall r' | r' != r ensures Count(rules, i + 1, r') == Count(rules, i, r') {
    }
    if c < |all| { assert all[c..][1..] == all[c + 1..]; }
  }

  /** Match rule i with the first of its kind not yet taken. */
  method MatchRule(rules: seq<Rule>, i: nat, from: seq<Rule>, prev: seq<set<Labels>>, m: RuleMap)
    returns (series: set<Labels>, m': RuleMap, next: nat)
    requires i < |rules| && |prev| == |from| && NotTaken(m, rules, i, from)
    ensures next == i + 1 && NotTaken(m', rules, next, from) && series == Inherited(rules, i, from, prev)
  {
    TakeFirst(m, rules, i, from, prev);
    next, series, m' := i + 1, {}, m;
    var indexes := At(m, rules[i]);
    if |indexes| != 0 {
      series := prev[indexes[0]];
      m' := m[rules[i] := indexes[1..]];
    }
  }

  method MatchRules(rules: seq<Rule>, from: seq<Rule>, prev: seq<set<Labels>>, m0: RuleMap)
    returns (prev': seq<set<Labels>>, m: RuleMap)
    requires |prev| == |from| && NotTaken(m0, rules, 0, from)
    ensures NotTaken(m, rules, |rules|, from) && InheritedUpTo(prev', rules, |rules|, from, prev)
  {
    prev', m := [], m0;
    var i: nat := 0;
    while i < |rules|
      invariant i <= |rules| && NotTaken(m, rules, i, from)
      invariant InheritedUpTo(prev', rules, i, from, prev)
    {
      var series;
      series, m, i := MatchRule(rules, i, from, prev, m);
      InheritsNext(prev', series, rules, i, from, prev);
      prev' := prev' + [series];
    }
  }

  ghost predicate InheritedUpTo(prev': seq<set<Labels>>, rules: seq<Rule>, n: nat, from: seq<Rule>,
                                prev: seq<set<Labels>>)
    requires n <= |rules| && |prev| == |from|
  {
    |prev'| == n && forall k: nat | k < n :: prev'[k] == Inherited(rules, k, from, prev)
  }

  lemma InheritsNext(prev': seq<set<Labels>>, series: set<Labels>, rules: seq<Rule>, n: nat, from: seq<Rule>,
                     prev: seq<set<Labels>>)
    requires 0 < n <= |rules| && |prev| == |from|
    requires InheritedUpTo(prev', rules, n - 1, from, prev) && series == Inherited(rules, n - 1, from, prev)
    ensures InheritedUpTo(prev' + [series], rules, n, from, prev)
  {
  }

  lemma {:induction false} InRange(rules: seq<Rule>, n: nat, r: Rule)
    requires n <= |rules|
    ensures forall k | 0 <= k < |Indexes(rules, n, r)| :: Indexes(rules, n, r)[k] < n
  {
    if n > 0 { InRange(rules, n - 1, r); }
  }

  class Group {
    const rules: seq<Rule>
    var seriesInPreviousEval: seq<set<Labels>>
    var staleSeries: seq<Labels>

    ghost function StateWith(storage: Storage): State
      reads this, storage
    {
      State(storage.live, seriesInPreviousEval, staleSeries)
    }

    constructor (rules: seq<Rule>)
      ensures this.rules == rules && staleSeries == [] && |seriesInPreviousEval| == |rules|
      ensures forall i | 0 <= i < |seriesInPreviousEval| :: seriesInPreviousEval[i] == {}
    {
      this.rules := rules;
      seriesInPreviousEval := seq(|rules|, _ => {});
      staleSeries := [];
    }

    /** Evaluate rule i. `vector` is its result, None when the evaluation fails. A failed commit changes nothing. */
    method EvalRule(i: nat, vector: Option<seq<Labels>>, accepts: Accepts, commits: bool, storage: Storage)
      returns (ghost ev: Option<Event>)
      requires i < |seriesInPreviousEval|
      modifies this`seriesInPreviousEval, storage
      ensures ev.Some? <==> vector.Some? && commits
      ensures ev.None? ==> StateWith(storage) == old(StateWith(storage))
      ensures ev.Some? ==>
                && Possible(old(StateWith(storage)), ev.value) &&
                   StateWith(storage) == Next(old(StateWith(storage)), ev.value)
                && ev.value.Evaluated? && ev.value.i == i
                && (forall s :: s in ev.value.returned <==> s in vector.value && accepts(Append(s, false)))
                && (forall s :: s in ev.value.marked <==>
                      s in old(seriesInPreviousEval)[i] - ev.value.returned && accepts(Append(s, true)))
    {
      ev := None;
      if vector.None? {
        return;
      }
      ghost var live := storage.live;
      var app, returned := AppendResult(vector.value, accepts, live);
      ghost var marked;
      app, marked := AppendStale(seriesInPreviousEval[i] - returned, accepts, app, live);
      storage.Commit(app, commits);
      if commits {
        ev := Some(Evaluated(i, returned, marked));
        seriesInPreviousEval := seriesInPreviousEval[i := returned];
      }
    }

    /** Mark the queued series as stale; they stay queued if the commit fails. */
    method CleanupStaleSeries(accepts: Accepts, commits: bool, storage: Storage) returns (ghost ev: Option<Event>)
      modifies this`staleSeries, storage
      ensures ev.Some? <==> old(staleSeries) != [] && commits
      ensures ev.None? ==> StateWith(storage) == old(StateWith(storage))
      ensures ev.Some? ==>
                && Possible(old(StateWith(storage)), ev.value) &&
                   StateWith(storage) == Next(old(StateWith(storage)), ev.value)
                && ev.value.CleanedUp?
                && (forall s :: s in ev.value.marked <==> s in old(staleSeries) && accepts(Append(s, true)))
    {
      ev := None;
      if |staleSeries| == 0 {
        return;
      }
      ghost var live := storage.live;
      var app: seq<Append> := [];
      ghost var marked: set<Labels> := {};
      var i := 0;
      while i < |staleSeries|
        invariant 0 <= i <= |staleSeries|
        invariant Committed(live, app) == live - marked
        invariant forall s :: s in marked <==> s in staleSeries[..i] && accepts(Append(s, true))
        modifies {}
      {
        var a := Append(staleSeries[i], true);
        if accepts(a) {
          Snoc(live, app, a);
          app, marked := app + [a], marked + {staleSeries[i]};
        }
        i := i + 1;
      }
      assert staleSeries[..i] == staleSeries;
      storage.Commit(app, commits);
      if commits {
        ev := Some(CleanedUp(marked));
        staleSeries := [];
      }
    }

    /** Take over from the group this one replaces. Each rule takes the series of the rule it is matched with; those
        of the rules with a surplus are queued. */
    method CopyState(from: Group, storage: Storage) returns (ghost ev: Event)
      requires |from.seriesInPreviousEval| == |from.rules|
      modifies this
      ensures |seriesInPreviousEval| == |rules|
      ensures forall i: nat | i < |rules| ::
                seriesInPreviousEval[i] == Inherited(rules, i, from.rules, old(from.seriesInPreviousEval))
      ensures QueuedExactly(rules, from.rules, old(from.seriesInPreviousEval), |from.rules|, old(from.staleSeries),
                            staleSeries)
      ensures Possible(old(from.StateWith(storage)), ev) && StateWith(storage) == Next(old(from.StateWith(storage)), ev)
    {
      var prev, queue := from.seriesInPreviousEval, from.staleSeries;
      var ruleMap := IndexRules(from.rules);
      NoneTaken(ruleMap, rules, from.rules);
      var prev';
      prev', ruleMap := MatchRules(rules, from.rules, prev, ruleMap);
      var queue' := QueueSurplus(rules, from.rules, prev, queue, ruleMap);
      ReloadCarriesOver(rules, from.rules, prev, queue, prev', queue');
      seriesInPreviousEval, staleSeries := prev', queue';
      ev := Reloaded(prev', queue');
    }

    /** When a removed group's loop ends: all its series are queued. */
    method MarkStale(storage: Storage) returns (ghost ev: Event)
      modifies this
      ensures Possible(old(StateWith(storage)), ev) && StateWith(storage) == Next(old(StateWith(storage)), ev)
      ensures seriesInPreviousEval == []
    {
      ghost var prev, queue := seriesInPreviousEval, staleSeries;
      var i := 0;
      while i < |seriesInPreviousEval|
        invariant 0 <= i <= |seriesInPreviousEval| && seriesInPreviousEval == prev
        invariant forall s | s in queue :: s in staleSeries
        invariant forall fi, s | 0 <= fi < i && s in prev[fi] :: s in staleSeries
        modifies this`staleSeries
      {
        staleSeries := Queued(staleSeries, seriesInPreviousEval[i]);
        i := i + 1;
      }
      seriesInPreviousEval := [];
      ev := Reloaded([], staleSeries);
    }
  }

  /** Append a rule's series to the queue. */
  method Queued(queue: seq<Labels>, series: set<Labels>) returns (queue': seq<Labels>)
    ensures queue <= queue' && forall s :: s in queue' <==> s in queue || s in series
  {
    queue' := queue;
    var rest := series;
    while rest != {}
      invariant rest <= series && queue <= queue'
      invariant forall s :: s in queue' <==> s in queue || (s in series && s !in rest)
      decreases |rest|
    {
      var s :| s in rest;
      queue' := queue' + [s];
      rest := rest - {s};
    }
  }

  /** Deleted and unmatched duplicate rules. */
  method QueueSurplus(rules: seq<Rule>, from: seq<Rule>, prev: seq<set<Labels>>, queue: seq<Labels>, m: RuleMap)
    returns (queue': seq<Labels>)
    requires |prev| == |from| && NotTaken(m, rules, |rules|, from)
    ensures QueuedExactly(rules, from, prev, |from|, queue, queue')
  {
    queue' := queue;
    var fi: nat := 0;
    while fi < |from|
      invariant fi <= |from| && QueuedExactly(rules, from, prev, fi, queue, queue')
    {
      assert |At(m, from[fi])| != 0 <==> Surplus(rules, from, from[fi]);
      if |At(m, from[fi])| != 0 {
        queue' := Queued(queue', prev[fi]);
      }
      fi := fi + 1;
    }
  }

  /** A rule writes a series, then returns nothing, and the storage refuses the stale marker: the series stays live,
      and the group no longer knows it. */
  method RefusedMarker(rule: Rule, series: Labels) returns (group: Group, storage: Storage)
    ensures fresh(group) && fresh(storage)
    ensures series in storage.live && group.seriesInPreviousEval == [{}] && group.staleSeries == []
    ensures !Good(group.StateWith(storage))
  {
    group := new Group([rule]);
    storage := new Storage;
    storage.live := {};
    ghost var st := group.StateWith(storage);
    ghost var ev := group.EvalRule(0, Some([series]), (_: Append) => true, true, storage);
    StepKeepsTrack(st, ev.value);
    st := group.StateWith(storage);
    assert series in ev.value.returned;
    ev := group.EvalRule(0, Some([]), (a: Append) => !a.stale, true, storage);
    assert ev.value.returned == {} && ev.value.marked == {};
    StepKeepsTrack(st, ev.value);
  }
}
