/**
 Dependency analysis between the rules of one group and the concurrent batches
 computed from it (rules/group.go, rules/manager.go).

 A rule is identified by its index in the group, as the source identifies it by
 its pointer.
 */
module RuleDependencies {
  import opened Prelude
  import opened RuleSeries

  /** Rule `i` can read a series that rule `j` can write. */
  ghost predicate CanRead(rules: seq<Rule>, i: nat, j: nat)
    requires i < |rules| && j < |rules|
  {
    exists k: int, s: Series :: 0 <= k < |rules[i].selectors| && CanWrite(rules[j], s) &&
      Selects(rules[i].selectors[k], s)
  }

  // ---------------------------------------------------------------- name matchers

  /** The first matcher on the metric name, from index `from` on. */
  function FirstNameMatcher(ms: seq<LabelMatcher>, from: nat): Option<string -> bool>
    requires from <= |ms|
    decreases |ms| - from
  {
    if from == |ms| then None
    else if ms[from].labelName == METRIC_NAME then Some(ms[from].matches)
    else FirstNameMatcher(ms, from + 1)
  }

  /** The name matcher the analysis uses for a selector. */
  function NameMatcherOf(sel: Selector): Option<string -> bool> {
    if sel.name != "" then Some(n => n == sel.name) else FirstNameMatcher(sel.matchers, 0)
  }

  lemma {:induction false} FirstNameMatcherAccepts(sel: Selector, s: Series, from: nat)
    requires from <= |sel.matchers|
    requires Selects(sel, s)
    ensures FirstNameMatcher(sel.matchers, from).Some? ==> FirstNameMatcher(sel.matchers, from).value(s.name)
    decreases |sel.matchers| - from
  {
    if from < |sel.matchers| {
      assert sel.matchers[from].matches(LabelValue(s, sel.matchers[from].labelName));
      if sel.matchers[from].labelName != METRIC_NAME {
        FirstNameMatcherAccepts(sel, s, from + 1);
      }
    }
  }

  /** The one name matcher looked at never rejects a name the selector reads. */
  lemma NameMatcherAccepts(sel: Selector, s: Series)
    requires Selects(sel, s)
    ensures NameMatcherOf(sel).Some? ==> NameMatcherOf(sel).value(s.name)
  {
    FirstNameMatcherAccepts(sel, s, 0);
  }

  method NameMatcher(sel: Selector) returns (m: Option<string -> bool>)
    ensures m == NameMatcherOf(sel)
  {
    if sel.name != "" {
      return NameMatcherOf(sel);
    }
    m := None;
    var k := 0;
    while k < |sel.matchers|
      invariant 0 <= k <= |sel.matchers|
      invariant m == None && FirstNameMatcher(sel.matchers, 0) == FirstNameMatcher(sel.matchers, k)
    {
      if sel.matchers[k].labelName == METRIC_NAME {
        return Some(sel.matchers[k].matches);
      }
      k := k + 1;
    }
  }

  // ---------------------------------------------------------------- the dependency map

  /** A selector for which no dependency can be inferred: a wildcard, or one reading the alert series. */
  predicate IndeterminateSelector(sel: Selector) {
    var m := NameMatcherOf(sel);
    m.None? || m.value(ALERTS) || m.value(ALERTS_FOR_STATE)
  }

  ghost predicate IndeterminateRule(r: Rule) {
    exists k :: 0 <= k < |r.selectors| && IndeterminateSelector(r.selectors[k])
  }

  ghost predicate Indeterminate(rules: seq<Rule>) {
    |rules| > 1 && exists i :: 0 <= i < |rules| && IndeterminateRule(rules[i])
  }

  /** Some selector of `r` among the first `upTo` accepts the name `name`. */
  ghost predicate MatchesName(r: Rule, upTo: nat, name: string)
    requires upTo <= |r.selectors|
  {
    exists k :: 0 <= k < upTo && NameMatcherOf(r.selectors[k]).Some? && NameMatcherOf(r.selectors[k]).value(name)
  }

  /** What the analysis records: rule `i` names rule `j`, and they are different rules. */
  ghost predicate DependsOn(rules: seq<Rule>, i: nat, j: nat)
    requires i < |rules| && j < |rules|
  {
    i != j && MatchesName(rules[i], |rules[i].selectors|, rules[j].name)
  }

  type DependencyMap = map<nat, seq<nat>>

  function Dependents(m: DependencyMap, r: nat): seq<nat> {
    if r in m then m[r] else []
  }

  /** The map holds exactly the dependencies of the rules before `done` and of the first `upTo` selectors of rule
      `done`. */
  ghost predicate Records(rules: seq<Rule>, m: DependencyMap, done: nat, upTo: nat)
    requires done <= |rules|
    requires if done < |rules| then upTo <= |rules[done].selectors| else upTo == 0
  {
    forall i, j | 0 <= i < |rules| && 0 <= j < |rules| ::
      i in Dependents(m, j) <==>
      (i < done && DependsOn(rules, i, j)) || (i == done && i != j && MatchesName(rules[i], upTo, rules[j].name))
  }

  /** Keys and entries of the map are rules of the group. */
  ghost predicate WithinGroup(rules: seq<Rule>, m: DependencyMap) {
    forall j | j in m :: j < |rules| && m[j] != [] && forall k | 0 <= k < |m[j]| :: m[j][k] < |rules|
  }

  lemma MatchesNameNext(r: Rule, upTo: nat, name: string)
    requires upTo < |r.selectors|
    ensures MatchesName(r, upTo + 1, name) <==>
            MatchesName(r, upTo, name) ||
            (NameMatcherOf(r.selectors[upTo]).Some? && NameMatcherOf(r.selectors[upTo]).value(name))
  {
  }

  /** The inner loop of buildDependencyMap: `rule` becomes a dependent of every other rule the matcher names. */
  method AddDependents(rules: seq<Rule>, rule: nat, nameMatcher: string -> bool, m: DependencyMap)
    returns (m': DependencyMap)
    requires rule < |rules|
    ensures WithinGroup(rules, m) ==> WithinGroup(rules, m')
    ensures forall j | 0 <= j < |rules| ::
              Dependents(m', j) == Dependents(m, j) + if j != rule && nameMatcher(rules[j].name) then [rule] else []
  {
    m' := m;
    var other := 0;
    while other < |rules|
      invariant 0 <= other <= |rules|
      invariant WithinGroup(rules, m) ==> WithinGroup(rules, m')
      invariant forall j | other <= j < |rules| :: Dependents(m', j) == Dependents(m, j)
      invariant forall j | 0 <= j < other ::
                  Dependents(m', j) == Dependents(m, j) + if j != rule && nameMatcher(rules[j].name) then [rule] else []
    {
      if other != rule && nameMatcher(rules[other].name) {
        m' := m'[other := Dependents(m', other) + [rule]];
      }
      other := other + 1;
    }
  }

  /** One more selector of rule `i` has been looked at. */
  lemma RecordsNext(rules: seq<Rule>, m: DependencyMap, m': DependencyMap, i: nat, k: nat)
    requires i < |rules| && k < |rules[i].selectors|
    requires NameMatcherOf(rules[i].selectors[k]).Some?
    requires Records(rules, m, i, k)
    requires var matcher := NameMatcherOf(rules[i].selectors[k]).value;
             forall j | 0 <= j < |rules| ::
               Dependents(m', j) == Dependents(m, j) + if j != i && matcher(rules[j].name) then [i] else []
    ensures Records(rules, m', i, k + 1)
  {
    forall j | 0 <= j < |rules| { MatchesNameNext(rules[i], k, rules[j].name); }
  }

  lemma RecordsStart(rules: seq<Rule>, m: DependencyMap)
    requires |rules| > 0 && m.Keys == {}
    ensures Records(rules, m, 0, 0)
  {
    forall i: nat, j: nat | i < |rules| && j < |rules| ensures i !in Dependents(m, j) {
      assert Dependents(m, j) == [];
    }
  }

  /** All selectors of rule `i` have been looked at. */
  lemma RecordsNextRule(rules: seq<Rule>, m: DependencyMap, i: nat)
    requires i < |rules| && Records(rules, m, i, |rules[i].selectors|)
    ensures Records(rules, m, i + 1, 0)
  {
  }

  /** One selector of a rule's query. */
  method InspectSelector(rules: seq<Rule>, i: nat, k: nat, m: DependencyMap, indeterminate: bool)
    returns (next: nat, m': DependencyMap, indeterminate': bool)
    requires i < |rules| && k < |rules[i].selectors|
    requires !indeterminate ==> WithinGroup(rules, m) && Records(rules, m, i, k)
    ensures next == k + 1
    ensures indeterminate' <==> indeterminate || IndeterminateSelector(rules[i].selectors[k])
    ensures !indeterminate' ==> WithinGroup(rules, m') && Records(rules, m', i, next)
  {
    m', indeterminate', next := m, indeterminate, k + 1;
    var nameMatcher := NameMatcher(rules[i].selectors[k]);
    if nameMatcher.None? || nameMatcher.value(ALERTS) || nameMatcher.value(ALERTS_FOR_STATE) {
      indeterminate' := true;
    } else {
      m' := AddDependents(rules, i, nameMatcher.value, m);
      if !indeterminate { RecordsNext(rules, m, m', i, k); }
    }
  }

  ghost predicate IndeterminateBelow(r: Rule, k: nat)
    requires k <= |r.selectors|
  {
    exists s :: 0 <= s < k && IndeterminateSelector(r.selectors[s])
  }

  lemma IndeterminateNext(r: Rule, k: nat)
    requires k < |r.selectors|
    ensures IndeterminateBelow(r, k + 1) <==> IndeterminateBelow(r, k) || IndeterminateSelector(r.selectors[k])
  {
  }

  /** The traversal of one rule's query. */
  method InspectRule(rules: seq<Rule>, i: nat, m: DependencyMap) returns (m': DependencyMap, indeterminate: bool)
    requires i < |rules|
    requires WithinGroup(rules, m) && Records(rules, m, i, 0)
    ensures indeterminate <==> IndeterminateRule(rules[i])
    ensures !indeterminate ==> WithinGroup(rules, m') && Records(rules, m', i + 1, 0)
  {
    m', indeterminate := m, false;
    var k: nat := 0;
    while k < |rules[i].selectors|
      invariant k <= |rules[i].selectors|
      invariant indeterminate <==> IndeterminateBelow(rules[i], k)
      invariant !indeterminate ==> WithinGroup(rules, m') && Records(rules, m', i, k)
      decreases |rules[i].selectors| - k
    {
      IndeterminateNext(rules[i], k);
      k, m', indeterminate := InspectSelector(rules, i, k, m', indeterminate);
    }
    if !indeterminate { RecordsNextRule(rules, m', i); }
  }

  method BuildDependencyMap(rules: seq<Rule>) returns (m: Option<DependencyMap>)
    ensures m.None? <==> Indeterminate(rules)
    ensures m.Some? ==> WithinGroup(rules, m.value)
    ensures m.Some? && |rules| > 1 ==>
              forall i, j | 0 <= i < |rules| && 0 <= j < |rules| :: i in Dependents(m.value, j) <==>
                DependsOn(rules, i, j)
    ensures m.Some? && |rules| <= 1 ==> m.value == map[]
  {
    var dependencies: DependencyMap := map[];
    if |rules| <= 1 {
      return Some(dependencies);
    }
    RecordsStart(rules, dependencies);
    var indeterminate := false;
    var i := 0;
    while i < |rules| && !indeterminate
      invariant 0 <= i <= |rules|
      invariant indeterminate <==> exists r :: 0 <= r < i && IndeterminateRule(rules[r])
      invariant !indeterminate ==> WithinGroup(rules, dependencies) && Records(rules, dependencies, i, 0)
    {
      dependencies, indeterminate := InspectRule(rules, i, dependencies);
      i := i + 1;
    }
    if indeterminate {
      return None;
    }
    return Some(dependencies);
  }

  /** The rules on which `r` depends: every rule whose list of dependents holds `r`. */
  method Dependencies(m: DependencyMap, r: nat) returns (ds: seq<nat>)
    ensures forall j: nat :: j in ds <==> r in Dependents(m, j)
  {
    ds := [];
    var todo := m.Keys;
    while todo != {}
      invariant todo <= m.Keys
      invariant forall j: nat :: j in ds <==> j in m.Keys - todo && r in m[j]
      decreases |todo|
    {
      var rule :| rule in todo;
      if r in m[rule] {
        ds := ds + [rule];
      }
      todo := todo - {rule};
    }
  }

  // ---------------------------------------------------------------- what the rules learn

  /** No rule of the group feeds rule `i`, and the analysis could tell. */
  ghost predicate KnownWithoutDependencies(rules: seq<Rule>, i: nat)
    requires i < |rules|
  {
    !Indeterminate(rules) && forall j | 0 <= j < |rules| :: !DependsOn(rules, i, j)
  }

  /** Rule `i` feeds no rule of the group, and the analysis could tell. */
  ghost predicate KnownWithoutDependents(rules: seq<Rule>, i: nat)
    requires i < |rules|
  {
    !Indeterminate(rules) && forall j | 0 <= j < |rules| :: !DependsOn(rules, j, i)
  }

  /** Which of the three lists SplitGroupIntoBatches puts a rule in. */
  datatype Place = First | Middle | Last

  function PlaceOf(noDependencies: bool, noDependents: bool): Place {
    if noDependencies then First else if noDependents then Last else Middle
  }

  ghost function RulePlace(rules: seq<Rule>, i: nat): Place
    requires i < |rules|
  {
    PlaceOf(KnownWithoutDependencies(rules, i), KnownWithoutDependents(rules, i))
  }

  /** The places of all rules of a group. */
  ghost function Places(rules: seq<Rule>): seq<Place> {
    seq(|rules|, i requires 0 <= i < |rules| => RulePlace(rules, i))
  }

  // ---------------------------------------------------------------- the batches

  /** The indexes below `n` at place `p`, in increasing order. */
  function At(places: seq<Place>, p: Place, n: nat): seq<nat>
    requires n <= |places|
  {
    if n == 0 then [] else At(places, p, n - 1) + if places[n - 1] == p then [n - 1] else []
  }

  function Singles(xs: seq<nat>): seq<seq<nat>> {
    seq(|xs|, k requires 0 <= k < |xs| => [xs[k]])
  }

  function NonEmpty(xs: seq<nat>): seq<seq<nat>> {
    if xs == [] then [] else [xs]
  }

  /** The ordered batches: one of all First rules, one per Middle rule, one of all Last rules. */
  function BatchesOf(places: seq<Place>): seq<seq<nat>> {
    var n := |places|;
    NonEmpty(At(places, First, n)) + Singles(At(places, Middle, n)) + NonEmpty(At(places, Last, n))
  }

  lemma {:induction false} AtSorted(places: seq<Place>, p: Place, n: nat)
    requires n <= |places|
    ensures forall i: nat :: i in At(places, p, n) <==> i < n && places[i] == p
    ensures forall a, b | 0 <= a < b < |At(places, p, n)| :: At(places, p, n)[a] < At(places, p, n)[b]
  {
    if n > 0 {
      AtSorted(places, p, n - 1);
      var before := At(places, p, n - 1);
      assert forall a | 0 <= a < |before| :: before[a] in before;
    }
  }

  /** `i` runs in batch `b`. */
  predicate InBatch(order: seq<seq<nat>>, b: nat, i: nat) {
    b < |order| && i in order[b]
  }

  ghost predicate Scheduled(order: seq<seq<nat>>, i: nat) {
    exists b: nat :: InBatch(order, b, i)
  }

  /** The batch of a rule. */
  lemma Located(places: seq<Place>, i: nat) returns (b: nat)
    requires i < |places|
    ensures InBatch(BatchesOf(places), b, i)
  {
    var n := |places|;
    var first, middle, last := At(places, First, n), At(places, Middle, n), At(places, Last, n);
    AtSorted(places, places[i], n);
    match places[i]
    case First => b := 0;
    case Middle =>
      var k :| 0 <= k < |middle| && middle[k] == i;
      b := |NonEmpty(first)| + k;
      assert BatchesOf(places)[b] == Singles(middle)[k];
    case Last =>
      b := |BatchesOf(places)| - 1;
      assert BatchesOf(places)[b] == last;
  }

  /** What a batch holds, from its position. */
  lemma BatchAt(places: seq<Place>, b: nat)
    requires b < |BatchesOf(places)|
    ensures var n := |places|;
            var nf, middle := |NonEmpty(At(places, First, n))|, At(places, Middle, n);
            BatchesOf(places)[b] ==
              if b < nf then At(places, First, n)
              else if b - nf < |middle| then [middle[b - nf]]
              else At(places, Last, n)
  {
  }

  /** A rule running before another one finishes before the other starts: the order of the batches. */
  predicate RunsBefore(places: seq<Place>, i: nat, j: nat)
    requires i < |places| && j < |places|
  {
    match (places[i], places[j])
    case (First, First) => false
    case (First, _) => true
    case (Middle, Middle) => i < j
    case (Middle, Last) => true
    case _ => false
  }

  /** The batch of a rule, from its place. */
  lemma {:induction false} WhereIs(places: seq<Place>, i: nat, b: nat)
    requires InBatch(BatchesOf(places), b, i)
    ensures i < |places|
    ensures var n := |places|;
            var nf, middle := |NonEmpty(At(places, First, n))|, At(places, Middle, n);
            match places[i]
            case First => b < nf
            case Middle => nf <= b < nf + |middle| && middle[b - nf] == i
            case Last => b == nf + |middle|
  {
    var n := |places|;
    BatchAt(places, b);
    AtSorted(places, First, n);
    AtSorted(places, Middle, n);
    AtSorted(places, Last, n);
    var nf, middle := |NonEmpty(At(places, First, n))|, At(places, Middle, n);
    if nf <= b < nf + |middle| { assert i == middle[b - nf] && i in middle; }
  }

  /** The position of the batches is exactly the order RunsBefore. */
  lemma {:induction false} BatchOrder(places: seq<Place>, i: nat, j: nat, b: nat, c: nat)
    requires InBatch(BatchesOf(places), b, i) && InBatch(BatchesOf(places), c, j)
    ensures i < |places| && j < |places|
    ensures b < c <==> RunsBefore(places, i, j)
  {
    WhereIs(places, i, b);
    WhereIs(places, j, c);
    AtSorted(places, Middle, |places|);
  }

  /** The batches partition the rule indexes: each occurs in exactly one batch, and once. */
  lemma BatchesPartition(places: seq<Place>)
    ensures forall b: nat, i: nat | InBatch(BatchesOf(places), b, i) :: i < |places|
    ensures forall i: nat | i < |places| :: Scheduled(BatchesOf(places), i)
    ensures forall b: nat, c: nat, i: nat | InBatch(BatchesOf(places), b, i) && InBatch(BatchesOf(places), c, i) ::
              b == c
    ensures forall b | 0 <= b < |BatchesOf(places)| ::
              BatchesOf(places)[b] != [] &&
              forall x, y | 0 <= x < y < |BatchesOf(places)[b]| :: BatchesOf(places)[b][x] != BatchesOf(places)[b][y]
  {
    forall b: nat, c: nat, i: nat | InBatch(BatchesOf(places), b, i) && InBatch(BatchesOf(places), c, i)
      ensures i < |places| && b == c
    {
      BatchOrder(places, i, i, b, c);
      BatchOrder(places, i, i, c, b);
    }
    forall i: nat | i < |places| ensures Scheduled(BatchesOf(places), i) {
      var b := Located(places, i);
    }
    var n := |places|;
    AtSorted(places, First, n);
    AtSorted(places, Last, n);
    forall b | 0 <= b < |BatchesOf(places)|
      ensures BatchesOf(places)[b] != [] &&
              forall x, y | 0 <= x < y < |BatchesOf(places)[b]| :: BatchesOf(places)[b][x] != BatchesOf(places)[b][y]
    {
      BatchAt(places, b);
    }
  }

  /** The analysis misses no read: unless it gives up, a rule that can read another one's output is recorded as
      depending on it. */
  lemma AnalysisIsSound(rules: seq<Rule>, i: nat, j: nat)
    requires i < |rules| && j < |rules| && i != j
    requires !Indeterminate(rules)
    requires CanRead(rules, i, j)
    ensures DependsOn(rules, i, j)
  {
    var k: int, s: Series :| 0 <= k < |rules[i].selectors| && CanWrite(rules[j], s) &&
      Selects(rules[i].selectors[k], s);
    NameMatcherAccepts(rules[i].selectors[k], s);
    assert !IndeterminateRule(rules[i]);
  }

  /** No batch holds two rules of which one can read the other's output. */
  lemma BatchesIndependent(rules: seq<Rule>, b: nat, i: nat, j: nat)
    requires InBatch(BatchesOf(Places(rules)), b, i) && InBatch(BatchesOf(Places(rules)), b, j) && i != j
    ensures i < |rules| && j < |rules| && !CanRead(rules, i, j)
  {
    var places := Places(rules);
    BatchOrder(places, i, j, b, b);
    BatchOrder(places, j, i, b, b);
    if CanRead(rules, i, j) && !Indeterminate(rules) {
      AnalysisIsSound(rules, i, j);
    }
  }

  // ---------------------------------------------------------------- the group

  /** The part of a rule group that the dependency controller and the concurrency controller work on. */
  class Group {
    const rules: seq<Rule>
    var dependentRules: seq<Option<seq<nat>>>
    var dependencyRules: seq<Option<seq<nat>>>

    ghost predicate Valid()
      reads this
    {
      |dependentRules| == |dependencyRules| == |rules|
    }

    /** A group as it is loaded: nothing is known about its rules. */
    constructor (rules: seq<Rule>)
      ensures this.rules == rules && Valid()
      ensures forall i | 0 <= i < |rules| :: dependentRules[i].None? && dependencyRules[i].None?
    {
      this.rules := rules;
      dependentRules := seq(|rules|, _ => None);
      dependencyRules := seq(|rules|, _ => None);
    }

    predicate NoDependentRules(i: nat)
      requires i < |dependentRules|
      reads this
    {
      dependentRules[i].Some? && dependentRules[i].value == []
    }

    predicate NoDependencyRules(i: nat)
      requires i < |dependencyRules|
      reads this
    {
      dependencyRules[i].Some? && dependencyRules[i].value == []
    }

    ghost function CurrentPlaces(): (places: seq<Place>)
      requires Valid()
      reads this
      ensures |places| == |rules|
      ensures forall i | 0 <= i < |rules| :: places[i] == PlaceOf(NoDependencyRules(i), NoDependentRules(i))
    {
      seq(|rules|, i requires 0 <= i < |rules| &&
          Valid() reads this => PlaceOf(NoDependencyRules(i), NoDependentRules(i)))
    }

    /** The rules know exactly what the analysis of their selectors says. */
    ghost predicate Analysed()
      reads this
    {
      && Valid()
      && forall i | 0 <= i < |rules| ::
           && NoDependencyRules(i) == KnownWithoutDependencies(rules, i)
           && NoDependentRules(i) == KnownWithoutDependents(rules, i)
    }

    method AnalyseRules()
      requires Valid()
      requires forall i | 0 <= i < |rules| :: dependentRules[i].None? && dependencyRules[i].None?
      modifies this
      ensures Analysed()
      ensures Indeterminate(rules) ==> unchanged(this)
      ensures !Indeterminate(rules) ==> forall i | 0 <= i < |rules| ::
                && dependentRules[i].Some? && dependencyRules[i].Some?
                && (forall j: nat | j < |rules| :: j in dependentRules[i].value <==> DependsOn(rules, j, i))
                && (forall j: nat | j < |rules| :: j in dependencyRules[i].value <==> DependsOn(rules, i, j))
    {
      var depMap := BuildDependencyMap(rules);
      if depMap.None? {
        return;
      }
      var m := depMap.value;
      var i := 0;
      while i < |rules|
        invariant 0 <= i <= |rules|
        invariant Valid()
        invariant forall r | 0 <= r < i :: dependentRules[r] == Some(Dependents(m, r)) && dependencyRules[r].Some?
        invariant forall r: nat, j: nat | r < i :: j in dependencyRules[r].value <==> r in Dependents(m, j)
      {
        dependentRules := dependentRules[i := Some(Dependents(m, i))];
        var ds := Dependencies(m, i);
        dependencyRules := dependencyRules[i := Some(ds)];
        i := i + 1;
      }
      forall i: nat | i < |rules|
        ensures NoDependencyRules(i) == KnownWithoutDependencies(rules, i)
        ensures NoDependentRules(i) == KnownWithoutDependents(rules, i)
      {
        if !NoDependencyRules(i) {
          var j := dependencyRules[i].value[0];
          assert j in dependencyRules[i].value;
          assert i in Dependents(m, j) && j in m;
        }
        if !NoDependentRules(i) { assert dependentRules[i].value[0] in dependentRules[i].value; }
      }
    }

    /** The loop of SplitGroupIntoBatches that sorts the rules into three lists. */
    method Classify() returns (noDependencies: seq<nat>, dependenciesAndDependants: seq<nat>, noDependants: seq<nat>)
      requires Valid()
      ensures noDependencies == At(CurrentPlaces(), First, |rules|)
      ensures dependenciesAndDependants == At(CurrentPlaces(), Middle, |rules|)
      ensures noDependants == At(CurrentPlaces(), Last, |rules|)
    {
      ghost var places := CurrentPlaces();
      noDependencies, dependenciesAndDependants, noDependants := [], [], [];
      var i := 0;
      while i < |rules|
        invariant 0 <= i <= |rules|
        invariant noDependencies == At(places, First, i)
        invariant dependenciesAndDependants == At(places, Middle, i)
        invariant noDependants == At(places, Last, i)
      {
        if NoDependencyRules(i) {
          noDependencies := noDependencies + [i];
        } else if !NoDependentRules(i) && !NoDependencyRules(i) {
          dependenciesAndDependants := dependenciesAndDependants + [i];
        } else if NoDependentRules(i) {
          noDependants := noDependants + [i];
        }
        i := i + 1;
      }
    }

    method SplitGroupIntoBatches() returns (order: seq<seq<nat>>)
      requires Valid()
      ensures order == BatchesOf(CurrentPlaces())
      ensures Analysed() ==> order == BatchesOf(Places(rules))
    {
      var noDependencies, dependenciesAndDependants, noDependants := Classify();
      order := [];
      if |noDependencies| > 0 {
        order := order + [noDependencies];
      }
      var k := 0;
      while k < |dependenciesAndDependants|
        invariant 0 <= k <= |dependenciesAndDependants|
        invariant order == NonEmpty(noDependencies) + Singles(dependenciesAndDependants[..k])
      {
        assert Singles(dependenciesAndDependants[..k + 1]) ==
               Singles(dependenciesAndDependants[..k]) + [[dependenciesAndDependants[k]]];
        order := order + [[dependenciesAndDependants[k]]];
        k := k + 1;
      }
      assert dependenciesAndDependants[..k] == dependenciesAndDependants;
      if |noDependants| > 0 {
        order := order + [noDependants];
      }
      assert Analysed() ==> CurrentPlaces() == Places(rules);
    }
  }
}
