/**
 Running the batches of a rule group concurrently (rules/group.go, Group.Eval)
 against running its rules one after the other.

 All samples of one evaluation have the same timestamp. Of two samples for one
 series the storage keeps the one committed first (tsdb/head_append.go).
 */
module RuleExecution {
  import opened RuleDependencies
  import opened RuleSeries

  /** The latest sample of each series; a stale marker is one of the values. */
  type Store = map<Series, int>

  /** The evaluation of a rule: from the series it can see to the samples (and stale markers) it appends. */
  type RuleFunction = Store -> Store

  ghost predicate Reads(r: Rule, s: Series) {
    exists k :: 0 <= k < |r.selectors| && Selects(r.selectors[k], s)
  }

  ghost function Visible(r: Rule, st: Store): Store {
    map s | s in st && Reads(r, s) :: st[s]
  }

  /** Each rule writes series it can write. */
  ghost predicate WellBehaved(rules: seq<Rule>, evals: seq<RuleFunction>) {
    && |evals| == |rules|
    && forall i, v, s | 0 <= i < |rules| && s in evals[i](v) :: CanWrite(rules[i], s)
  }

  // ---------------------------------------------------------------- one after the other

  /** What the first `n` rules have written when they have run in the order of the group. */
  ghost function Sequential(rules: seq<Rule>, evals: seq<RuleFunction>, base: Store, n: nat): Store
    requires |evals| == |rules| && n <= |rules|
  {
    if n == 0 then map[]
    else
      var written := Sequential(rules, evals, base, n - 1);
      evals[n - 1](Visible(rules[n - 1], base + written)) + written
  }

  /** What rule `i` appends in the sequential run. */
  ghost function Output(rules: seq<Rule>, evals: seq<RuleFunction>, base: Store, i: nat): Store
    requires |evals| == |rules| && i < |rules|
  {
    evals[i](Visible(rules[i], base + Sequential(rules, evals, base, i)))
  }

  // ---------------------------------------------------------------- the batches, concurrently

  /** A moment of Group.Eval: `written` are the samples committed in this evaluation, batch `current` is running,
      `pending` holds the results of rules that have queried but not committed, `done` the rules that have committed. */
  datatype State = State(written: Store, pending: map<nat, Store>, done: set<nat>, current: nat)

  ghost function Init(): State {
    State(map[], map[], {}, 0)
  }

  /** A rule of the current batch runs its query. */
  ghost predicate Query(rules: seq<Rule>, evals: seq<RuleFunction>, order: seq<seq<nat>>, base: Store, s: State,
                        s': State, i: nat)
    requires |evals| == |rules|
  {
    && InBatch(order, s.current, i) && i < |rules| && i !in s.pending && i !in s.done
    && s' == s.(pending := s.pending[i := evals[i](Visible(rules[i], base + s.written))])
  }

  /** A rule that has run its query commits its samples; those for series that have one already are dropped. */
  ghost predicate Commit(s: State, s': State, i: nat) {
    && i in s.pending
    && s' == s.(written := s.pending[i] + s.written, pending := s.pending - {i}, done := s.done + {i})
  }

  /** All rules of the current batch have finished. */
  ghost predicate NextBatch(order: seq<seq<nat>>, s: State, s': State) {
    && s.current < |order|
    && (forall k | 0 <= k < |order[s.current]| :: order[s.current][k] in s.done)
    && s' == s.(current := s.current + 1)
  }

  ghost predicate Step(rules: seq<Rule>, evals: seq<RuleFunction>, order: seq<seq<nat>>, base: Store, s: State,
                       s': State)
    requires |evals| == |rules|
  {
    || (exists i: nat :: Query(rules, evals, order, base, s, s', i))
    || (exists i: nat :: Commit(s, s', i))
    || NextBatch(order, s, s')
  }

  ghost predicate Run(rules: seq<Rule>, evals: seq<RuleFunction>, order: seq<seq<nat>>, base: Store, ss: seq<State>)
    requires |evals| == |rules|
  {
    && |ss| > 0 && ss[0] == Init()
    && forall k | 0 <= k < |ss| - 1 :: Step(rules, evals, order, base, ss[k], ss[k + 1])
  }

  ghost predicate Finished(order: seq<seq<nat>>, s: State) {
    s.current == |order|
  }

  // ---------------------------------------------------------------- when the two agree

  /** A rule that can read the output of a later rule has dependents, and the later rule has dependencies, so that both
      run in batches of their own. */
  ghost predicate BackwardReadsAreSerial(rules: seq<Rule>) {
    forall i, j | 0 <= i < j < |rules| && CanRead(rules, i, j) ::
      !KnownWithoutDependents(rules, i) && !KnownWithoutDependencies(rules, j)
  }

  ghost predicate ShareSeries(rules: seq<Rule>, i: nat, j: nat)
    requires i < |rules| && j < |rules|
  {
    exists s :: CanWrite(rules[i], s) && CanWrite(rules[j], s)
  }

  /** Of two rules that can write one series the earlier one runs in an earlier batch. */
  ghost predicate WritersKeepOrder(rules: seq<Rule>) {
    forall i, j | 0 <= i < j < |rules| && ShareSeries(rules, i, j) :: RunsBefore(Places(rules), i, j)
  }

  /** Two rules can write one series exactly when they write under one metric name and no label has to have two values
      for it. */
  lemma ShareExactly(rules: seq<Rule>, i: nat, j: nat)
    requires i < |rules| && j < |rules|
    ensures ShareSeries(rules, i, j) <==> exists name :: SharedName(rules[i], rules[j], name)
  {
    if ShareSeries(rules, i, j) {
      var s :| CanWrite(rules[i], s) && CanWrite(rules[j], s);
      SharedNameOf(rules[i], rules[j], s);
    }
    if name :| SharedName(rules[i], rules[j], name) {
      var s := SharedSeries(rules[i], rules[j], name);
    }
  }

  /** Running the batches always gives the result of running the rules in order. */
  ghost predicate BatchesAgree(rules: seq<Rule>) {
    forall evals: seq<RuleFunction>, base: Store, ss: seq<State> |
      WellBehaved(rules, evals) && Run(rules, evals, BatchesOf(Places(rules)), base, ss) &&
      Finished(BatchesOf(Places(rules)), ss[|ss| - 1]) ::
      ss[|ss| - 1].written == Sequential(rules, evals, base, |rules|)
  }

  /** `i` is the first of the rules in `done` that writes `s`. */
  ghost predicate FirstWriter(outs: seq<Store>, done: set<nat>, s: Series, i: nat) {
    && i in done && i < |outs| && s in outs[i]
    && forall j | j in done && j < |outs| && s in outs[j] :: i <= j
  }

  /** What is written is, for each series, the output of the first rule in `done` that writes it. */
  ghost predicate Reflects(written: Store, outs: seq<Store>, done: set<nat>) {
    && (forall i | i in done :: i < |outs|)
    && (forall i, s | i in done && s in outs[i] :: s in written)
    && (forall s | s in written :: exists i: nat :: FirstWriter(outs, done, s, i) && written[s] == outs[i][s])
  }

  ghost function Below(n: nat): (below: set<nat>)
    ensures forall i: nat :: i in below <==> i < n
  {
    if n == 0 then {} else Below(n - 1) + {n - 1}
  }

  /** The outputs of all rules in the sequential run. */
  ghost function Outputs(rules: seq<Rule>, evals: seq<RuleFunction>, base: Store): seq<Store>
    requires |evals| == |rules|
  {
    seq(|rules|, i requires 0 <= i < |rules| => Output(rules, evals, base, i))
  }

  ghost predicate OwnSeries(rules: seq<Rule>, outs: seq<Store>) {
    |outs| == |rules| && forall j, s | 0 <= j < |rules| && s in outs[j] :: CanWrite(rules[j], s)
  }

  lemma OutputsAreOwn(rules: seq<Rule>, evals: seq<RuleFunction>, base: Store)
    requires WellBehaved(rules, evals)
    ensures OwnSeries(rules, Outputs(rules, evals, base))
  {
  }

  /** A series that only rules in both sets or in neither write has one value. */
  lemma SameIn(outs: seq<Store>, written: Store, done: set<nat>, written': Store, done': set<nat>, s: Series)
    requires Reflects(written, outs, done) && Reflects(written', outs, done')
    requires forall j: nat | j < |outs| && s in outs[j] :: j in done <==> j in done'
    ensures (s in written <==> s in written') && (s in written ==> written[s] == written'[s])
  {
    if s in written {
      var i: nat :| FirstWriter(outs, done, s, i) && written[s] == outs[i][s];
      assert i in done';
      var i': nat :| FirstWriter(outs, done', s, i') && written'[s] == outs[i'][s];
      assert i' in done;
    }
  }

  lemma ReflectsUnique(written: Store, written': Store, outs: seq<Store>, done: set<nat>)
    requires Reflects(written, outs, done) && Reflects(written', outs, done)
    ensures written == written'
  {
    forall s ensures (s in written <==> s in written') && (s in written ==> written[s] == written'[s]) {
      SameIn(outs, written, done, written', done, s);
    }
  }

  /** One more rule commits, after all earlier rules that write a series of its. */
  lemma ReflectsAdd(written: Store, outs: seq<Store>, done: set<nat>, i: nat)
    requires Reflects(written, outs, done) && i < |outs|
    requires forall j, s | j in done && s in outs[j] && s in outs[i] :: j <= i
    ensures Reflects(outs[i] + written, outs, done + {i})
  {
    var written', done' := outs[i] + written, done + {i};
    forall s | s in written' ensures exists k: nat :: FirstWriter(outs, done', s, k) && written'[s] == outs[k][s] {
      if s in written {
        var k: nat :| FirstWriter(outs, done, s, k) && written[s] == outs[k][s];
        assert FirstWriter(outs, done', s, k);
      } else {
        assert FirstWriter(outs, done', s, i);
      }
    }
  }

  lemma {:induction false} SequentialReflects(rules: seq<Rule>, evals: seq<RuleFunction>, base: Store, n: nat)
    requires |evals| == |rules| && n <= |rules|
    ensures Reflects(Sequential(rules, evals, base, n), Outputs(rules, evals, base), Below(n))
  {
    if n > 0 {
      SequentialReflects(rules, evals, base, n - 1);
      var written, outs := Sequential(rules, evals, base, n - 1), Outputs(rules, evals, base);
      ReflectsAdd(written, outs, Below(n - 1), n - 1);
      assert Below(n - 1) + {n - 1} == Below(n);
      assert Sequential(rules, evals, base, n) == outs[n - 1] + written;
    }
  }

  lemma VisibleExtends(r: Rule, st: Store, st': Store)
    requires forall s | Reads(r, s) :: (s in st <==> s in st') && (s in st ==> st[s] == st'[s])
    ensures Visible(r, st) == Visible(r, st')
  {
  }

  /** Two stores that differ only in outputs rule `i` cannot read look the same to rule `i`. */
  lemma VisibleSame(rules: seq<Rule>, i: nat, base: Store, outs: seq<Store>,
                    written: Store, done: set<nat>, written': Store, done': set<nat>)
    requires i < |rules| == |outs|
    requires OwnSeries(rules, outs)
    requires Reflects(written, outs, done) && Reflects(written', outs, done')
    requires forall j: nat | j < |rules| && CanRead(rules, i, j) :: j in done <==> j in done'
    ensures Visible(rules[i], base + written) == Visible(rules[i], base + written')
  {
    forall s | Reads(rules[i], s)
      ensures (s in written <==> s in written') && (s in written ==> written[s] == written'[s])
    {
      var k :| 0 <= k < |rules[i].selectors| && Selects(rules[i].selectors[k], s);
      forall j: nat | j < |rules| && s in outs[j] ensures j in done <==> j in done' {
        assert CanWrite(rules[j], s) && Selects(rules[i].selectors[k], s);
        assert CanRead(rules, i, j);
      }
      SameIn(outs, written, done, written', done', s);
    }
    VisibleExtends(rules[i], base + written, base + written');
  }

  // ---------------------------------------------------------------- agreement

  /** An order of batches in which every rule has one batch, a rule runs after the rules it can read exactly when it
      comes after them in the group, and rules that can write one series run in the order of the group. */
  ghost predicate KeepsOrder(rules: seq<Rule>, order: seq<seq<nat>>) {
    && (forall i: nat | i < |rules| :: Scheduled(order, i))
    && (forall b: nat, c: nat, i: nat, j: nat | InBatch(order, b, i) && InBatch(order, c, j) ::
          && i < |rules| && j < |rules|
          && (i == j ==> b == c)
          && (i != j && CanRead(rules, i, j) ==> b != c && (c < b <==> j < i))
          && (i < j && ShareSeries(rules, i, j) ==> b < c))
  }

  lemma BatchesKeepOrder(rules: seq<Rule>)
    requires BackwardReadsAreSerial(rules) && WritersKeepOrder(rules)
    ensures KeepsOrder(rules, BatchesOf(Places(rules)))
  {
    var places, order := Places(rules), BatchesOf(Places(rules));
    BatchesPartition(places);
    forall b: nat, c: nat, i: nat, j: nat | InBatch(order, b, i) && InBatch(order, c, j) && i != j
      ensures CanRead(rules, i, j) ==> b != c && (c < b <==> j < i)
      ensures i < j && ShareSeries(rules, i, j) ==> b < c
    {
      BatchOrder(places, i, j, b, c);
      BatchOrder(places, j, i, c, b);
      if CanRead(rules, i, j) && !Indeterminate(rules) {
        AnalysisIsSound(rules, i, j);
      }
    }
  }

  ghost predicate Inv(rules: seq<Rule>, outs: seq<Store>, order: seq<seq<nat>>, s: State) {
    && s.current <= |order|
    && Reflects(s.written, outs, s.done)
    && (forall i | i in s.pending :: i < |outs| && s.pending[i] == outs[i] && i !in s.done &&
          InBatch(order, s.current, i))
    && (forall i | i in s.done :: exists b: nat :: b <= s.current && InBatch(order, b, i))
    && (forall b: nat, i: nat | b < s.current && InBatch(order, b, i) :: i in s.done)
  }

  /** Of the rules that rule `i`, whose batch is running, can read, those before it have committed. */
  lemma ReadersAreBefore(rules: seq<Rule>, outs: seq<Store>, order: seq<seq<nat>>, s: State, i: nat, j: nat)
    requires KeepsOrder(rules, order) && Inv(rules, outs, order, s)
    requires InBatch(order, s.current, i) && i < |rules| && i !in s.done && j < |rules| && CanRead(rules, i, j)
    ensures j in s.done <==> j < i
  {
    if j != i {
      assert Scheduled(order, j);
      var b: nat :| InBatch(order, b, j);
    }
  }

  /** A rule of the current batch computes what it computes in the sequential run. */
  lemma QuerySeesSequential(rules: seq<Rule>, evals: seq<RuleFunction>, order: seq<seq<nat>>, base: Store, s: State,
                            i: nat)
    requires WellBehaved(rules, evals) && KeepsOrder(rules, order)
    requires Inv(rules, Outputs(rules, evals, base), order, s)
    requires InBatch(order, s.current, i) && i < |rules| && i !in s.done
    ensures evals[i](Visible(rules[i], base + s.written)) == Outputs(rules, evals, base)[i]
  {
    forall j: nat | j < |rules| && CanRead(rules, i, j) ensures j in s.done <==> j in Below(i) {
      ReadersAreBefore(rules, Outputs(rules, evals, base), order, s, i, j);
    }
    SequentialReflects(rules, evals, base, i);
    OutputsAreOwn(rules, evals, base);
    VisibleSame(rules, i, base, Outputs(rules, evals, base), s.written, s.done, Sequential(rules, evals, base, i),
                Below(i));
  }

  /** The rules that write a series of rule `i`, whose batch is running, and have committed are earlier ones. */
  lemma EarlierWriters(rules: seq<Rule>, outs: seq<Store>, order: seq<seq<nat>>, s: State, i: nat, j: nat, x: Series)
    requires KeepsOrder(rules, order) && |outs| == |rules| && Inv(rules, outs, order, s) && i in s.pending
    requires OwnSeries(rules, outs)
    requires j in s.done && x in outs[j] && x in outs[i]
    ensures j <= i
  {
    var b: nat :| b <= s.current && InBatch(order, b, j);
    assert ShareSeries(rules, i, j);
  }

  lemma CommitKeepsInv(rules: seq<Rule>, outs: seq<Store>, order: seq<seq<nat>>, s: State, s': State, i: nat)
    requires KeepsOrder(rules, order) && |outs| == |rules| && Inv(rules, outs, order, s) && Commit(s, s', i)
    requires OwnSeries(rules, outs)
    ensures Inv(rules, outs, order, s')
  {
    forall j, x | j in s.done && x in outs[j] && x in outs[i] ensures j <= i {
      EarlierWriters(rules, outs, order, s, i, j, x);
    }
    ReflectsAdd(s.written, outs, s.done, i);
  }

  lemma NextBatchKeepsInv(rules: seq<Rule>, outs: seq<Store>, order: seq<seq<nat>>, s: State, s': State)
    requires KeepsOrder(rules, order) && Inv(rules, outs, order, s) && NextBatch(order, s, s')
    ensures Inv(rules, outs, order, s')
  {
    assert s.pending == map[] by {
      forall i | i in s.pending ensures false { }
    }
  }

  lemma InitHasInv(rules: seq<Rule>, outs: seq<Store>, order: seq<seq<nat>>)
    ensures Inv(rules, outs, order, Init())
  {
  }

  lemma QueryKeepsInv(rules: seq<Rule>, outs: seq<Store>, order: seq<seq<nat>>, s: State, s': State, i: nat)
    requires Inv(rules, outs, order, s) && InBatch(order, s.current, i) && i < |outs| && i !in s.done
    requires s' == s.(pending := s.pending[i := outs[i]])
    ensures Inv(rules, outs, order, s')
  {
  }

  lemma StepKeepsInv(rules: seq<Rule>, evals: seq<RuleFunction>, order: seq<seq<nat>>, base: Store, s: State, s': State)
    requires WellBehaved(rules, evals) && KeepsOrder(rules, order)
    requires Inv(rules, Outputs(rules, evals, base), order, s)
    requires Step(rules, evals, order, base, s, s')
    ensures Inv(rules, Outputs(rules, evals, base), order, s')
  {
    var outs := Outputs(rules, evals, base);
    if i: nat :| Query(rules, evals, order, base, s, s', i) {
      QuerySeesSequential(rules, evals, order, base, s, i);
      QueryKeepsInv(rules, outs, order, s, s', i);
    } else if i: nat :| Commit(s, s', i) {
      OutputsAreOwn(rules, evals, base);
      CommitKeepsInv(rules, outs, order, s, s', i);
    } else {
      NextBatchKeepsInv(rules, outs, order, s, s');
    }
  }

  lemma RunStep(rules: seq<Rule>, evals: seq<RuleFunction>, order: seq<seq<nat>>, base: Store, ss: seq<State>, k: nat)
    requires |evals| == |rules| && Run(rules, evals, order, base, ss) && k < |ss| - 1
    ensures Step(rules, evals, order, base, ss[k], ss[k + 1])
  {
  }

  lemma {:induction false} RunKeepsInv(rules: seq<Rule>, evals: seq<RuleFunction>, order: seq<seq<nat>>, base: Store,
                                       ss: seq<State>, k: nat)
    requires WellBehaved(rules, evals) && KeepsOrder(rules, order)
    requires Run(rules, evals, order, base, ss) && k < |ss|
    ensures Inv(rules, Outputs(rules, evals, base), order, ss[k])
  {
    if k == 0 {
      InitHasInv(rules, Outputs(rules, evals, base), order);
    } else {
      RunKeepsInv(rules, evals, order, base, ss, k - 1);
      RunStep(rules, evals, order, base, ss, k - 1);
      StepKeepsInv(rules, evals, order, base, ss[k - 1], ss[k]);
    }
  }

  /** Every run of the batches, whatever its interleaving, leaves the outputs of the sequential evaluation. */
  lemma BatchesRefineSequential(rules: seq<Rule>, evals: seq<RuleFunction>, base: Store, ss: seq<State>)
    requires WellBehaved(rules, evals) && BackwardReadsAreSerial(rules) && WritersKeepOrder(rules)
    requires Run(rules, evals, BatchesOf(Places(rules)), base, ss) && Finished(BatchesOf(Places(rules)), ss[|ss| - 1])
    ensures ss[|ss| - 1].written == Sequential(rules, evals, base, |rules|)
  {
    var last := ss[|ss| - 1];
    BatchesKeepOrder(rules);
    RunKeepsInv(rules, evals, BatchesOf(Places(rules)), base, ss, |ss| - 1);
    var all := Below(|rules|);
    forall i: nat | i < |rules| ensures i in last.done {
      assert Scheduled(BatchesOf(Places(rules)), i);
    }
    assert last.done == all;
    SequentialReflects(rules, evals, base, |rules|);
    ReflectsUnique(last.written, Sequential(rules, evals, base, |rules|), Outputs(rules, evals, base), all);
  }

  // ---------------------------------------------------------------- a complete run exists

  /** Every batch before `b`, and the first `k` rules of batch `b`, have committed; no other rule has, and none is
      pending. */
  ghost predicate RanUpTo(order: seq<seq<nat>>, s: State, b: nat, k: nat) {
    && b <= |order| && (if b < |order| then k <= |order[b]| else k == 0)
    && s.current == b && s.pending == map[]
    && (forall i: nat :: i in s.done <==>
          (exists c: nat :: c < b && InBatch(order, c, i)) || (b < |order| && i in order[b][..k]))
  }

  ghost predicate Simple(order: seq<seq<nat>>, n: nat) {
    && (forall b: nat, i: nat | InBatch(order, b, i) :: i < n)
    && (forall b: nat, c: nat, i: nat | InBatch(order, b, i) && InBatch(order, c, i) :: b == c)
    && (forall b, x, y | 0 <= b < |order| && 0 <= x < y < |order[b]| :: order[b][x] != order[b][y])
  }

  /** The next rule of the batch queries and commits. */
  lemma RunNextRule(rules: seq<Rule>, evals: seq<RuleFunction>, order: seq<seq<nat>>, base: Store, s: State, b: nat,
                    k: nat)
    returns (queried: State, committed: State)
    requires |evals| == |rules| && Simple(order, |rules|)
    requires RanUpTo(order, s, b, k) && b < |order| && k < |order[b]|
    ensures Step(rules, evals, order, base, s, queried) && Step(rules, evals, order, base, queried, committed)
    ensures RanUpTo(order, committed, b, k + 1)
    ensures order[b][k] < |rules| && order[b][k] !in s.done
    ensures committed.written == evals[order[b][k]](Visible(rules[order[b][k]], base + s.written)) + s.written
  {
    var i := order[b][k];
    assert InBatch(order, b, i);
    assert i !in s.done by {
      forall c: nat | c < b ensures !InBatch(order, c, i) { }
    }
    queried := s.(pending := s.pending[i := evals[i](Visible(rules[i], base + s.written))]);
    assert Query(rules, evals, order, base, s, queried, i);
    committed :=
        queried.(written := queried.pending[i] + queried.written, pending := queried.pending - {i},
                 done := queried.done + {i});
    assert Commit(queried, committed, i);
    assert order[b][..k + 1] == order[b][..k] + [i];
  }

  lemma {:induction false} NextBatchRuns(order: seq<seq<nat>>, s: State, b: nat)
    requires b < |order| && RanUpTo(order, s, b, |order[b]|)
    ensures NextBatch(order, s, s.(current := b + 1)) && RanUpTo(order, s.(current := b + 1), b + 1, 0)
  {
    assert order[b][..|order[b]|] == order[b];
    forall i: nat ensures (exists c: nat :: c < b + 1 && InBatch(order, c, i)) <==>
                          ((exists c: nat :: c < b && InBatch(order, c, i)) || i in order[b]) {
      if i in order[b] { assert InBatch(order, b, i); }
    }
  }

  lemma {:induction false} RunOn(rules: seq<Rule>, evals: seq<RuleFunction>, order: seq<seq<nat>>, base: Store,
                                 ss: seq<State>, s: State)
    requires |evals| == |rules| && Run(rules, evals, order, base, ss)
    requires Step(rules, evals, order, base, ss[|ss| - 1], s)
    ensures Run(rules, evals, order, base, ss + [s])
  {
  }

  /** Every run that has got so far can be carried on to the start of any later batch, and to the end. */
  lemma {:induction false} CompleteRun(rules: seq<Rule>, evals: seq<RuleFunction>, order: seq<seq<nat>>, base: Store,
                                       ss: seq<State>, b: nat, k: nat, to: nat)
    returns (whole: seq<State>)
    requires |evals| == |rules| && Simple(order, |rules|) && b <= to <= |order| && (b == to ==> k == 0)
    requires Run(rules, evals, order, base, ss) && RanUpTo(order, ss[|ss| - 1], b, k)
    ensures Run(rules, evals, order, base, whole) && ss <= whole && RanUpTo(order, whole[|whole| - 1], to, 0)
    decreases |order| - b, if b < |order| then |order[b]| - k else 0
  {
    var s := ss[|ss| - 1];
    if b == to {
      whole := ss;
    } else if k == |order[b]| {
      NextBatchRuns(order, s, b);
      RunOn(rules, evals, order, base, ss, s.(current := b + 1));
      whole := CompleteRun(rules, evals, order, base, ss + [s.(current := b + 1)], b + 1, 0, to);
    } else {
      var queried, committed := RunNextRule(rules, evals, order, base, s, b, k);
      RunOn(rules, evals, order, base, ss, queried);
      RunOn(rules, evals, order, base, ss + [queried], committed);
      whole := CompleteRun(rules, evals, order, base, ss + [queried] + [committed], b, k + 1, to);
    }
  }

  lemma PlacesAreSimple(rules: seq<Rule>)
    ensures Simple(BatchesOf(Places(rules)), |rules|)
  {
    BatchesPartition(Places(rules));
  }

  // ---------------------------------------------------------------- disagreement: a backward read

  lemma {:induction false} LongerThanAll(keys: set<string>) returns (n: nat)
    ensures forall k | k in keys :: |k| < n
  {
    if keys == {} {
      n := 0;
    } else {
      var k :| k in keys;
      n := LongerThanAll(keys - {k});
      n := if |k| < n then n else |k| + 1;
    }
  }

  /** A series the rule can write, different from `avoid`. */
  lemma {:induction false} Writable(r: Rule, avoid: Series) returns (w: Series)
    ensures CanWrite(r, w) && w != avoid
  {
    var keys := r.labels.Keys + avoid.labels.Keys + {METRIC_NAME, ALERT_NAME, ALERT_STATE};
    var n := LongerThanAll(keys);
    var key := seq(n, i => 'x');
    assert key !in keys;
    PlainIsWritable(r);
    AnotherLabel(r, PlainSeries(r), key);
    w := Series(PlainSeries(r).name, PlainSeries(r).labels[key := "other"]);
    assert key in w.labels;
  }

  /** Rule `j` writes `s`, rule `i` writes `w` when it sees `s`, and no other rule writes anything. */
  ghost function TellingEvals(n: nat, i: nat, j: nat, s: Series, w: Series): (evals: seq<RuleFunction>)
    requires i < n && j < n && i != j
    ensures |evals| == n
    ensures forall v, k | 0 <= k < n && k != i && k != j :: evals[k](v) == map[]
    ensures forall v :: evals[j](v) == map[s := 1]
    ensures forall v :: evals[i](v) == if s in v then map[w := 1] else map[]
  {
    seq(n, k requires 0 <= k < n => (v: Store) =>
      if k == j then map[s := 1] else if k == i && s in v then map[w := 1] else map[])
  }

  lemma {:induction false} SequentialDoesNotTell(rules: seq<Rule>, i: nat, j: nat, s: Series, w: Series, n: nat)
    requires i < j < |rules| && w != s && n <= |rules|
    ensures var evals := TellingEvals(|rules|, i, j, s, w);
            Sequential(rules, evals, map[], n) == if n <= j then map[] else map[s := 1]
  {
    if n > 0 { SequentialDoesNotTell(rules, i, j, s, w, n - 1); }
  }

  /** In every run of batches in which `j` runs before `i`, rule `i` sees the output of `j`. */
  lemma {:induction false} RunTells(rules: seq<Rule>, order: seq<seq<nat>>, i: nat, j: nat, s: Series, w: Series,
                                    ss: seq<State>, at: nat)
    requires i < |rules| && j < |rules| && i != j && w != s
    requires Reads(rules[i], s)
    requires forall b: nat, c: nat | InBatch(order, b, i) && InBatch(order, c, j) :: c < b
    requires Scheduled(order, j)
    requires Run(rules, TellingEvals(|rules|, i, j, s, w), order, map[], ss) && at < |ss|
    ensures Told(rules, order, i, j, s, w, ss[at])
  {
    if at > 0 {
      var evals := TellingEvals(|rules|, i, j, s, w);
      RunTells(rules, order, i, j, s, w, ss, at - 1);
      RunStep(rules, evals, order, map[], ss, at - 1);
      StepTells(rules, order, i, j, s, w, ss[at - 1], ss[at]);
    }
  }

  ghost predicate Told(rules: seq<Rule>, order: seq<seq<nat>>, i: nat, j: nat, s: Series, w: Series, st: State) {
    && (forall k | k in st.pending :: InBatch(order, st.current, k) && k < |rules| && k !in st.done)
    && (forall b: nat, k: nat | b < st.current && InBatch(order, b, k) :: k in st.done)
    && (j in st.pending ==> s in st.pending[j])
    && (i in st.pending ==> w in st.pending[i])
    && (j in st.done ==> s in st.written)
    && (i in st.done ==> w in st.written)
  }

  lemma {:induction false} QueryTells(rules: seq<Rule>, order: seq<seq<nat>>, i: nat, j: nat, s: Series, w: Series,
                                      st: State, st': State, k: nat)
    requires i < |rules| && j < |rules| && i != j && w != s && Reads(rules[i], s) && Scheduled(order, j)
    requires forall b: nat, c: nat | InBatch(order, b, i) && InBatch(order, c, j) :: c < b
    requires Told(rules, order, i, j, s, w, st)
    requires Query(rules, TellingEvals(|rules|, i, j, s, w), order, map[], st, st', k)
    ensures Told(rules, order, i, j, s, w, st')
  {
    if k == i {
      var c: nat :| InBatch(order, c, j);
      assert j in st.done;
      assert s in Visible(rules[i], map[] + st.written);
    }
  }

  lemma {:induction false} StepTells(rules: seq<Rule>, order: seq<seq<nat>>, i: nat, j: nat, s: Series, w: Series,
                                     st: State, st': State)
    requires i < |rules| && j < |rules| && i != j && w != s && Reads(rules[i], s) && Scheduled(order, j)
    requires forall b: nat, c: nat | InBatch(order, b, i) && InBatch(order, c, j) :: c < b
    requires Told(rules, order, i, j, s, w, st) && Step(rules, TellingEvals(|rules|, i, j, s, w), order, map[], st, st')
    ensures Told(rules, order, i, j, s, w, st')
  {
    var evals := TellingEvals(|rules|, i, j, s, w);
    if k: nat :| Query(rules, evals, order, map[], st, st', k) {
      QueryTells(rules, order, i, j, s, w, st, st', k);
    } else if k: nat :| Commit(st, st', k) {
    } else {
      assert NextBatch(order, st, st');
      assert st.pending == map[] by {
        forall k | k in st.pending ensures false { }
      }
    }
  }

  /** A later rule that is read backwards outside the serial part runs first. */
  lemma ReadRunsFirst(rules: seq<Rule>, i: nat, j: nat)
    requires i < j < |rules| && CanRead(rules, i, j)
    requires KnownWithoutDependents(rules, i) || KnownWithoutDependencies(rules, j)
    ensures forall b: nat, c: nat | InBatch(BatchesOf(Places(rules)), b, i) &&
              InBatch(BatchesOf(Places(rules)), c, j) :: c < b
    ensures Scheduled(BatchesOf(Places(rules)), i) && Scheduled(BatchesOf(Places(rules)), j)
  {
    var places, order := Places(rules), BatchesOf(Places(rules));
    AnalysisIsSound(rules, i, j);
    assert RunsBefore(places, j, i);
    forall b: nat, c: nat | InBatch(order, b, i) && InBatch(order, c, j) ensures c < b {
      BatchOrder(places, j, i, c, b);
    }
    var bi := Located(places, i);
    var bj := Located(places, j);
  }

  lemma StartsAtNothing(rules: seq<Rule>, evals: seq<RuleFunction>, order: seq<seq<nat>>)
    requires |evals| == |rules|
    ensures Run(rules, evals, order, map[], [Init()]) && RanUpTo(order, Init(), 0, 0)
  {
  }

  /** A run in which rule `i` sees what it does not see in the sequential evaluation. */
  lemma TellingRun(rules: seq<Rule>, i: nat, j: nat, s: Series, w: Series) returns (ss: seq<State>)
    requires i < j < |rules| && w != s && Reads(rules[i], s)
    requires var order := BatchesOf(Places(rules));
             && Scheduled(order, i) && Scheduled(order, j)
             && forall b: nat, c: nat | InBatch(order, b, i) && InBatch(order, c, j) :: c < b
    ensures var evals, order := TellingEvals(|rules|, i, j, s, w), BatchesOf(Places(rules));
            && Run(rules, evals, order, map[], ss) && Finished(order, ss[|ss| - 1])
            && ss[|ss| - 1].written != Sequential(rules, evals, map[], |rules|)
  {
    var evals, order := TellingEvals(|rules|, i, j, s, w), BatchesOf(Places(rules));
    PlacesAreSimple(rules);
    StartsAtNothing(rules, evals, order);
    ss := CompleteRun(rules, evals, order, map[], [Init()], 0, 0, |order|);
    RunTells(rules, order, i, j, s, w, ss, |ss| - 1);
    SequentialDoesNotTell(rules, i, j, s, w, |rules|);
    assert w in ss[|ss| - 1].written;
  }

  lemma TellingIsWellBehaved(rules: seq<Rule>, i: nat, j: nat, s: Series, w: Series)
    requires i < |rules| && j < |rules| && i != j && CanWrite(rules[i], w) && CanWrite(rules[j], s)
    ensures WellBehaved(rules, TellingEvals(|rules|, i, j, s, w))
  {
  }

  /** One backward read outside the serial part is enough for some run to differ from the sequential evaluation. */
  lemma BackwardReadBreaks(rules: seq<Rule>, i: nat, j: nat)
    requires i < j < |rules| && CanRead(rules, i, j)
    requires KnownWithoutDependents(rules, i) || KnownWithoutDependencies(rules, j)
    ensures !BatchesAgree(rules)
  {
    ReadRunsFirst(rules, i, j);
    var k: int, s: Series :| 0 <= k < |rules[i].selectors| && CanWrite(rules[j], s) &&
      Selects(rules[i].selectors[k], s);
    var w := Writable(rules[i], s);
    TellingIsWellBehaved(rules, i, j, s, w);
    var ss := TellingRun(rules, i, j, s, w);
  }

  // ---------------------------------------------------------------- disagreement: two writers

  /** Rule `i` writes 1 for `s`, rule `j` writes 2, and no other rule writes anything. */
  ghost function RacingEvals(n: nat, i: nat, j: nat, s: Series): (evals: seq<RuleFunction>)
    requires i < n && j < n && i != j
    ensures |evals| == n
    ensures forall v, k | 0 <= k < n && k != i && k != j :: evals[k](v) == map[]
    ensures forall v :: evals[i](v) == map[s := 1] && evals[j](v) == map[s := 2]
  {
    seq(n, k requires 0 <= k < n => (v: Store) => if k == i then map[s := 1] else if k == j then map[s := 2] else map[])
  }

  lemma {:induction false} SequentialRace(rules: seq<Rule>, i: nat, j: nat, s: Series, n: nat)
    requires i < j < |rules| && n <= |rules|
    ensures Sequential(rules, RacingEvals(|rules|, i, j, s), map[], n) == if n <= i then map[] else map[s := 1]
  {
    if n > 0 { SequentialRace(rules, i, j, s, n - 1); }
  }

  /** What is written stays as it is. */
  lemma {:induction false} WrittenStays(rules: seq<Rule>, evals: seq<RuleFunction>, order: seq<seq<nat>>, base: Store,
                                        ss: seq<State>, k: nat, m: nat, s: Series)
    requires |evals| == |rules| && Run(rules, evals, order, base, ss) && k <= m < |ss| && s in ss[k].written
    ensures s in ss[m].written && ss[m].written[s] == ss[k].written[s]
    decreases m
  {
    if k < m {
      WrittenStays(rules, evals, order, base, ss, k, m - 1, s);
      RunStep(rules, evals, order, base, ss, m - 1);
    }
  }

  /** The same batches, with the rules of a batch listed in another order. */
  ghost predicate SameBatches(order: seq<seq<nat>>, order': seq<seq<nat>>) {
    |order'| == |order| && forall b | 0 <= b < |order| :: multiset(order'[b]) == multiset(order[b])
  }

  lemma {:induction false} SameMembers(order: seq<seq<nat>>, order': seq<seq<nat>>, b: nat, i: nat)
    requires SameBatches(order, order')
    ensures InBatch(order', b, i) <==> InBatch(order, b, i)
  {
    if b < |order| {
      assert i in order[b] <==> i in multiset(order[b]);
      assert i in order'[b] <==> i in multiset(order'[b]);
    }
  }

  lemma {:induction false} SameStep(rules: seq<Rule>, evals: seq<RuleFunction>, order: seq<seq<nat>>,
                                    order': seq<seq<nat>>, base: Store, s: State, s': State)
    requires |evals| == |rules| && SameBatches(order, order') && Step(rules, evals, order', base, s, s')
    ensures Step(rules, evals, order, base, s, s')
  {
    if i: nat :| Query(rules, evals, order', base, s, s', i) {
      SameMembers(order, order', s.current, i);
      assert Query(rules, evals, order, base, s, s', i);
    } else if i: nat :| Commit(s, s', i) {
    } else {
      forall k | 0 <= k < |order[s.current]| ensures order[s.current][k] in s.done {
        SameMembers(order, order', s.current, order[s.current][k]);
        assert order[s.current][k] in order'[s.current];
      }
      assert NextBatch(order, s, s');
    }
  }

  /** A run of batches that start with rule `j`: its sample is the one that stays, unless rule `i` has committed
      before. */
  lemma {:induction false} RacingRun(rules: seq<Rule>, order: seq<seq<nat>>, i: nat, j: nat, s: Series, c: nat)
    returns (ss: seq<State>)
    requires i < |rules| && j < |rules| && i != j && Simple(order, |rules|)
    requires c < |order| && |order[c]| > 0 && order[c][0] == j && forall b: nat | InBatch(order, b, i) :: c <= b
    ensures Run(rules, RacingEvals(|rules|, i, j, s), order, map[], ss) && Finished(order, ss[|ss| - 1])
    ensures s in ss[|ss| - 1].written && ss[|ss| - 1].written[s] == 2
  {
    var evals := RacingEvals(|rules|, i, j, s);
    StartsAtNothing(rules, evals, order);
    var first := CompleteRun(rules, evals, order, map[], [Init()], 0, 0, c);
    var st := first[|first| - 1];
    assert i !in st.done && j !in st.done by {
      assert InBatch(order, c, j);
      assert order[c][..0] == [];
    }
    OnlyWritersWrite(rules, order, i, j, s, first, |first| - 1);
    var queried, committed := RunNextRule(rules, evals, order, map[], st, c, 0);
    RunOn(rules, evals, order, map[], first, queried);
    RunOn(rules, evals, order, map[], first + [queried], committed);
    var ss' := first + [queried] + [committed];
    ss := CompleteRun(rules, evals, order, map[], ss', c, 1, |order|);
    assert ss[|ss'| - 1] == committed;
    WrittenStays(rules, evals, order, map[], ss, |ss'| - 1, |ss| - 1, s);
  }

  /** Nothing is written before one of the two has committed. */
  lemma {:induction false} OnlyWritersWrite(rules: seq<Rule>, order: seq<seq<nat>>, i: nat, j: nat, s: Series,
                                            ss: seq<State>, k: nat)
    requires i < |rules| && j < |rules| && i != j && Run(rules, RacingEvals(|rules|, i, j, s), order, map[], ss)
    requires k < |ss|
    ensures forall x | x in ss[k].pending && x != i && x != j :: ss[k].pending[x] == map[]
    ensures i !in ss[k].done && j !in ss[k].done ==> ss[k].written == map[]
  {
    if k > 0 {
      OnlyWritersWrite(rules, order, i, j, s, ss, k - 1);
      RunStep(rules, RacingEvals(|rules|, i, j, s), order, map[], ss, k - 1);
    }
  }

  function MovedFirst(xs: seq<nat>, n: nat): seq<nat>
    requires n < |xs|
  {
    [xs[n]] + xs[..n] + xs[n + 1..]
  }

  lemma {:induction false} MovedFirstSame(xs: seq<nat>, n: nat)
    requires n < |xs|
    ensures multiset(MovedFirst(xs, n)) == multiset(xs)
    ensures (forall x, y | 0 <= x < y < |xs| :: xs[x] != xs[y]) ==>
              forall x, y | 0 <= x < y < |xs| :: MovedFirst(xs, n)[x] != MovedFirst(xs, n)[y]
  {
    assert xs == xs[..n] + [xs[n]] + xs[n + 1..];
  }

  lemma {:induction false} SimpleToo(order: seq<seq<nat>>, c: nat, n: nat, count: nat)
    requires c < |order| && n < |order[c]| && Simple(order, count)
    ensures SameBatches(order, order[c := MovedFirst(order[c], n)])
    ensures Simple(order[c := MovedFirst(order[c], n)], count)
  {
    var order' := order[c := MovedFirst(order[c], n)];
    MovedFirstSame(order[c], n);
    forall b: nat, i: nat ensures InBatch(order', b, i) <==> InBatch(order, b, i) {
      SameMembers(order, order', b, i);
    }
  }

  /** Two rules that can write one series and do not run in the order of the group: there is a run in which the
      sample of the later one is kept. */
  lemma {:induction false} WritersOutOfOrderBreak(rules: seq<Rule>, i: nat, j: nat)
    requires i < j < |rules| && ShareSeries(rules, i, j) && !RunsBefore(Places(rules), i, j)
    ensures !BatchesAgree(rules)
  {
    var s :| CanWrite(rules[i], s) && CanWrite(rules[j], s);
    var places, order := Places(rules), BatchesOf(Places(rules));
    var c := Located(places, j);
    forall b: nat | InBatch(order, b, i) ensures c <= b {
      BatchOrder(places, i, j, b, c);
    }
    var n :| 0 <= n < |order[c]| && order[c][n] == j;
    PlacesAreSimple(rules);
    SimpleToo(order, c, n, |rules|);
    RaceIsLost(rules, order, i, j, s, c, order[c := MovedFirst(order[c], n)]);
  }

  lemma {:induction false} RaceIsLost(rules: seq<Rule>, order: seq<seq<nat>>, i: nat, j: nat, s: Series, c: nat,
                                      order': seq<seq<nat>>)
    requires i < j < |rules| && CanWrite(rules[i], s) && CanWrite(rules[j], s) && order == BatchesOf(Places(rules))
    requires SameBatches(order, order') && Simple(order', |rules|)
    requires c < |order| && |order'[c]| > 0 && order'[c][0] == j && forall b: nat | InBatch(order, b, i) :: c <= b
    ensures !BatchesAgree(rules)
  {
    forall b: nat | InBatch(order', b, i) ensures c <= b {
      SameMembers(order, order', b, i);
    }
    var evals := RacingEvals(|rules|, i, j, s);
    var ss := RacingRun(rules, order', i, j, s, c);
    forall k | 0 <= k < |ss| - 1 ensures Step(rules, evals, order, map[], ss[k], ss[k + 1]) {
      RunStep(rules, evals, order', map[], ss, k);
      SameStep(rules, evals, order, order', map[], ss[k], ss[k + 1]);
    }
    SequentialRace(rules, i, j, s, |rules|);
    assert Run(rules, evals, order, map[], ss) && WellBehaved(rules, evals);
  }

  // ---------------------------------------------------------------- exactly

  /** The batches agree with the sequential evaluation for all rule functions, stores and interleavings if and only
      if every rule that can read a later rule's output, and that later rule, run in batches of their own, and rules
      that can write one series run in the order of the group. */
  lemma BatchesAgreeExactly(rules: seq<Rule>)
    ensures BatchesAgree(rules) <==> BackwardReadsAreSerial(rules) && WritersKeepOrder(rules)
  {
    if BackwardReadsAreSerial(rules) && WritersKeepOrder(rules) {
      forall evals: seq<RuleFunction>, base: Store, ss: seq<State> |
        WellBehaved(rules, evals) && Run(rules, evals, BatchesOf(Places(rules)), base, ss) &&
        Finished(BatchesOf(Places(rules)), ss[|ss| - 1])
        ensures ss[|ss| - 1].written == Sequential(rules, evals, base, |rules|)
      {
        BatchesRefineSequential(rules, evals, base, ss);
      }
    } else if !BackwardReadsAreSerial(rules) {
      var i: nat, j: nat :| i < j < |rules| && CanRead(rules, i, j) &&
        (KnownWithoutDependents(rules, i) || KnownWithoutDependencies(rules, j));
      BackwardReadBreaks(rules, i, j);
    } else {
      var i: nat, j: nat :| i < j < |rules| && ShareSeries(rules, i, j) && !RunsBefore(Places(rules), i, j);
      WritersOutOfOrderBreak(rules, i, j);
    }
  }

  /** If rules depend only on rules before them, writers that keep their order are all that is needed. */
  lemma OrderedGroupAgrees(rules: seq<Rule>)
    requires forall i, j | 0 <= i < |rules| && 0 <= j < |rules| && DependsOn(rules, i, j) :: j < i
    ensures BatchesAgree(rules) <==> WritersKeepOrder(rules)
  {
    forall i, j | 0 <= i < j < |rules| && CanRead(rules, i, j)
      ensures !KnownWithoutDependents(rules, i) && !KnownWithoutDependencies(rules, j)
    {
      if !Indeterminate(rules) { AnalysisIsSound(rules, i, j); }
    }
    BatchesAgreeExactly(rules);
  }

  /** Two rules that read nothing run in one batch, and agree with the sequential evaluation exactly when they cannot
      write one series. */
  lemma PairAgrees(r: Rule, q: Rule)
    requires r.selectors == [] && q.selectors == []
    ensures BackwardReadsAreSerial([r, q])
    ensures BatchesAgree([r, q]) <==> !exists name :: SharedName(r, q, name)
  {
    var rules := [r, q];
    ShareExactly(rules, 0, 1);
    assert forall i | 0 <= i < 2 :: !IndeterminateRule(rules[i]);
    assert KnownWithoutDependencies(rules, 0) && KnownWithoutDependencies(rules, 1);
    assert !RunsBefore(Places(rules), 0, 1);
    BatchesAgreeExactly(rules);
  }

  /** Two rules that record under one name. */
  lemma TwoWritersDisagree()
    ensures var rules := [Rule(Recording, "a", map[], []), Rule(Recording, "a", map[], [])];
            !BatchesAgree(rules) && BackwardReadsAreSerial(rules)
  {
    var r := Rule(Recording, "a", map[], []);
    SharedByKind(r, r);
    PairAgrees(r, r);
  }

  /** An alert at two severities: the rules share a batch, but no series. */
  lemma SeveritiesAgree()
    ensures BatchesAgree([Rule(Alerting, "X", map["severity" := "warning"], []),
                          Rule(Alerting, "X", map["severity" := "critical"], [])])
  {
    var r := Rule(Alerting, "X", map["severity" := "warning"], []);
    var q := Rule(Alerting, "X", map["severity" := "critical"], []);
    assert "severity" in OwnLabels(r) && "severity" in OwnLabels(q) && !LabelAgrees(r, q, "severity");
    SharedByKind(r, q);
    PairAgrees(r, q);
  }

  /** With one severity taken from the query's result they can share a series. */
  lemma TemplatesDisagree()
    ensures var rules := [Rule(Alerting, "X", map["severity" := "warning"], []),
                          Rule(Alerting, "X", map["severity" := "{{ $labels.severity }}"], [])];
            !BatchesAgree(rules) && BackwardReadsAreSerial(rules)
  {
    var r := Rule(Alerting, "X", map["severity" := "warning"], []);
    var text := "{{ $labels.severity }}";
    var q := Rule(Alerting, "X", map["severity" := text], []);
    assert HasTemplate(text) by { assert text[0] == '{' && text[1] == '{'; }
    SharedByKind(r, q);
    PairAgrees(r, q);
  }

  /** A rule that reads what the next one records: the next one runs first. */
  lemma BackwardReadDisagrees()
    ensures var rules := [Rule(Recording, "a", map[], [Selector("b", [])]), Rule(Recording, "b", map[], [])];
            !BatchesAgree(rules) && WritersKeepOrder(rules)
  {
    var rules := [Rule(Recording, "a", map[], [Selector("b", [])]), Rule(Recording, "b", map[], [])];
    var s := Series("b", map[]);
    assert CanWrite(rules[1], s) && Selects(rules[0].selectors[0], s);
    assert CanRead(rules, 0, 1);
    assert KnownWithoutDependencies(rules, 1) by {
      assert forall i | 0 <= i < |rules| :: !IndeterminateRule(rules[i]);
    }
    BatchesAgreeExactly(rules);
  }
}
