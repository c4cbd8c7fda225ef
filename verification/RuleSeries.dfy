/**
 The series that the rules of a group write (rules/recording.go, rules/alerting.go):
 the labels of a sample as the rules build them, and exactly which series can come
 out of that.
 */
module RuleSeries {
  const METRIC_NAME := "__name__"
  const ALERTS := "ALERTS"
  const ALERTS_FOR_STATE := "ALERTS_FOR_STATE"
  const ALERT_NAME := "alertname"
  const ALERT_STATE := "alertstate"

  /** A label matcher of any type (equal, not-equal, regular expression): a label and the values it accepts. */
  datatype LabelMatcher = LabelMatcher(labelName: string, matches: string -> bool)

  /** A vector selector. `name` is empty for selectors written without a metric name. */
  datatype Selector = Selector(name: string, matchers: seq<LabelMatcher>)

  datatype RuleKind = Recording | Alerting

  /** A rule: `labels` are those it sets itself, with templates in the values of an alerting rule; `selectors` are the
      vector selectors of its query, in the order a traversal visits them. */
  datatype Rule = Rule(kind: RuleKind, name: string, labels: map<string, string>, selectors: seq<Selector>)

  /** An empty value is no label. */
  type LabelMap = m: map<string, string> | METRIC_NAME !in m && forall k | k in m :: m[k] != ""

  datatype Series = Series(name: string, labels: LabelMap)

  function ValueOf(labels: map<string, string>, name: string): string {
    if name in labels then labels[name] else ""
  }

  function LabelValue(s: Series, name: string): string {
    if name == METRIC_NAME then s.name else ValueOf(s.labels, name)
  }

  /** What a selector reads: the series accepted by its name and by every one of its matchers. */
  ghost predicate Selects(sel: Selector, s: Series) {
    && (sel.name != "" ==> s.name == sel.name)
    && forall k | 0 <= k < |sel.matchers| :: sel.matchers[k].matches(LabelValue(s, sel.matchers[k].labelName))
  }

  // ---------------------------------------------------------------- what a rule can write

  /** The metric names under which a rule writes. */
  predicate Produces(r: Rule, name: string) {
    match r.kind
    case Recording => name == r.name
    case Alerting => name == ALERTS || name == ALERTS_FOR_STATE
  }

  /** Text with an action in it; any other expands to itself. */
  predicate HasTemplate(text: string) {
    exists i :: 0 <= i < |text| - 1 && text[i] == '{' && text[i + 1] == '{'
  }

  /** What is asked of the value of a label; an empty value stands for no label. */
  datatype Demand = Anything | NotEmpty | OneOf(values: set<string>)

  predicate Meets(v: string, d: Demand) {
    match d
    case Anything => true
    case NotEmpty => v != ""
    case OneOf(values) => v in values
  }

  /** What a rule asks of a label of the series it writes under a metric name. A recording rule sets its labels as they
      are. An alerting rule expands templates; one that expands to nothing leaves its own text. It sets the alertname
      and, in ALERTS, the state. */
  function DemandOf(r: Rule, name: string, label_: string): Demand {
    if r.kind.Alerting? && label_ == ALERT_NAME then OneOf({r.name})
    else if r.kind.Alerting? && label_ == ALERT_STATE && name == ALERTS then OneOf({"pending", "firing"})
    else if label_ !in r.labels then Anything
    else if r.kind.Alerting? && HasTemplate(r.labels[label_]) then NotEmpty
    else OneOf({r.labels[label_]})
  }

  /** The series a rule can write. */
  ghost predicate CanWrite(r: Rule, s: Series) {
    Produces(r, s.name) && forall k | k != METRIC_NAME :: Meets(LabelValue(s, k), DemandOf(r, s.name, k))
  }

  // ---------------------------------------------------------------- the samples as they are built

  /** labels.Builder.Set: an empty value deletes the label. */
  function Set(labels: map<string, string>, name: string, value: string): map<string, string> {
    if value == "" then labels - {name} else labels[name := value]
  }

  /** Labels set over others, each with its own value; the order does not matter. */
  function SetAll(base: map<string, string>, over: map<string, string>): map<string, string> {
    map k | k in base.Keys + over.Keys && (if k in over then over[k] else base[k]) != "" ::
      if k in over then over[k] else base[k]
  }

  /** What the labels of a rule become for one element of the result: label by label, as the templates expand. */
  type Expansion = (string, string) -> string

  /** Text without an action is left as it is. */
  ghost predicate KeepsText(expand: Expansion) {
    forall k, text | !HasTemplate(text) :: expand(k, text) == text
  }

  function Expanded(r: Rule, expand: Expansion): map<string, string> {
    map k | k in r.labels :: expand(k, r.labels[k])
  }

  /** The sample of a recording rule for an element with the given labels. */
  function Recorded(r: Rule, metric: LabelMap): Series {
    Series(r.name, SetAll(metric, r.labels) - {METRIC_NAME})
  }

  /** The labels of an alert. */
  function AlertLabels(r: Rule, metric: LabelMap, expand: Expansion): map<string, string> {
    Set(SetAll(metric, Expanded(r, expand)), ALERT_NAME, r.name)
  }

  /** The sample for ALERTS: the rule's own labels, over them those of the alert, then name and state. */
  function AlertSample(r: Rule, labels: map<string, string>, state: string): Series {
    Series(ALERTS, Set(Set(SetAll(r.labels, labels), ALERT_NAME, r.name), ALERT_STATE, state) - {METRIC_NAME})
  }

  function ForStateSample(r: Rule, labels: map<string, string>): Series {
    Series(ALERTS_FOR_STATE, Set(SetAll(r.labels, labels), ALERT_NAME, r.name) - {METRIC_NAME})
  }

  /** The series comes from some element of a result, some expansion of the templates and some state of the alert. */
  ghost predicate Built(r: Rule, s: Series, metric: LabelMap, expand: Expansion, state: string) {
    match r.kind
    case Recording => s == Recorded(r, metric)
    case Alerting =>
      var labels := AlertLabels(r, metric, expand);
      s == ForStateSample(r, labels) || (state in {"pending", "firing"} && s == AlertSample(r, labels, state))
  }

  lemma SetValue(labels: map<string, string>, name: string, value: string, k: string)
    ensures ValueOf(Set(labels, name, value), k) == if k == name then value else ValueOf(labels, k)
  {
  }

  lemma SetAllValue(base: map<string, string>, over: map<string, string>, k: string)
    ensures ValueOf(SetAll(base, over), k) == if k in over then over[k] else ValueOf(base, k)
  {
  }

  /** The value of a label of an alert's labels, and of its samples. */
  lemma AlertLabelValue(r: Rule, metric: LabelMap, expand: Expansion, k: string)
    ensures ValueOf(AlertLabels(r, metric, expand), k) ==
            if k == ALERT_NAME then r.name
            else if k in r.labels then expand(k, r.labels[k])
            else ValueOf(metric, k)
  {
    SetAllValue(metric, Expanded(r, expand), k);
    SetValue(SetAll(metric, Expanded(r, expand)), ALERT_NAME, r.name, k);
  }

  lemma ForStateValue(r: Rule, metric: LabelMap, expand: Expansion, k: string)
    requires k != METRIC_NAME
    ensures var labels := AlertLabels(r, metric, expand);
            LabelValue(ForStateSample(r, labels), k) ==
            if k == ALERT_NAME then r.name
            else if k in r.labels then (if expand(k, r.labels[k]) != "" then expand(k, r.labels[k]) else r.labels[k])
            else ValueOf(metric, k)
  {
    var labels := AlertLabels(r, metric, expand);
    AlertLabelValue(r, metric, expand, k);
    SetAllValue(r.labels, labels, k);
    SetValue(SetAll(r.labels, labels), ALERT_NAME, r.name, k);
  }

  lemma AlertValue(r: Rule, metric: LabelMap, expand: Expansion, state: string, k: string)
    requires k != METRIC_NAME
    ensures var labels := AlertLabels(r, metric, expand);
            LabelValue(AlertSample(r, labels, state), k) ==
            if k == ALERT_STATE then state else LabelValue(ForStateSample(r, labels), k)
  {
    var labels := AlertLabels(r, metric, expand);
    SetValue(Set(SetAll(r.labels, labels), ALERT_NAME, r.name), ALERT_STATE, state, k);
  }

  /** Series are determined by the values of their labels. */
  lemma SameSeries(s: Series, t: Series)
    requires s.name == t.name && forall k | k != METRIC_NAME :: LabelValue(s, k) == LabelValue(t, k)
    ensures s == t
  {
    forall k ensures k in s.labels <==> k in t.labels {
      if k != METRIC_NAME { assert LabelValue(s, k) == LabelValue(t, k); }
    }
    forall k | k in s.labels ensures s.labels[k] == t.labels[k] {
      assert LabelValue(s, k) == LabelValue(t, k);
    }
  }

  /** What is built can be written. */
  lemma BuiltIsWritten(r: Rule, s: Series, metric: LabelMap, expand: Expansion, state: string)
    requires KeepsText(expand) && Built(r, s, metric, expand, state)
    ensures CanWrite(r, s)
  {
    forall k | k != METRIC_NAME ensures Meets(LabelValue(s, k), DemandOf(r, s.name, k)) {
      if r.kind.Recording? {
        SetAllValue(metric, r.labels, k);
      } else {
        ForStateValue(r, metric, expand, k);
        AlertValue(r, metric, expand, state, k);
      }
    }
  }

  /** Templates that expand to what the series has. */
  function Towards(s: Series): Expansion {
    (k, text) => if HasTemplate(text) then LabelValue(s, k) else text
  }

  lemma RecordedAgain(r: Rule, s: Series)
    requires r.kind.Recording? && CanWrite(r, s)
    ensures s == Recorded(r, s.labels)
  {
    forall k | k != METRIC_NAME ensures LabelValue(s, k) == LabelValue(Recorded(r, s.labels), k) {
      assert Meets(LabelValue(s, k), DemandOf(r, s.name, k));
      SetAllValue(s.labels, r.labels, k);
    }
    SameSeries(s, Recorded(r, s.labels));
  }

  lemma ForStateAgain(r: Rule, s: Series, k: string)
    requires r.kind.Alerting? && CanWrite(r, s) && k != METRIC_NAME && !(s.name == ALERTS && k == ALERT_STATE)
    ensures LabelValue(ForStateSample(r, AlertLabels(r, s.labels, Towards(s))), k) == LabelValue(s, k)
  {
    assert Meets(LabelValue(s, k), DemandOf(r, s.name, k));
    ForStateValue(r, s.labels, Towards(s), k);
  }

  lemma AlertedAgain(r: Rule, s: Series)
    requires r.kind.Alerting? && CanWrite(r, s)
    ensures var labels := AlertLabels(r, s.labels, Towards(s));
            s == if s.name == ALERTS then AlertSample(r, labels, LabelValue(s, ALERT_STATE))
                 else ForStateSample(r, labels)
  {
    var labels, state := AlertLabels(r, s.labels, Towards(s)), LabelValue(s, ALERT_STATE);
    var t := if s.name == ALERTS then AlertSample(r, labels, state) else ForStateSample(r, labels);
    forall k | k != METRIC_NAME ensures LabelValue(s, k) == LabelValue(t, k) {
      if !(s.name == ALERTS && k == ALERT_STATE) { ForStateAgain(r, s, k); }
      AlertValue(r, s.labels, Towards(s), state, k);
    }
    SameSeries(s, t);
  }

  lemma StateOfAlert(r: Rule, s: Series)
    requires r.kind.Alerting? && CanWrite(r, s)
    ensures s.name == ALERTS_FOR_STATE || (s.name == ALERTS && LabelValue(s, ALERT_STATE) in {"pending", "firing"})
  {
    assert Meets(LabelValue(s, ALERT_STATE), DemandOf(r, s.name, ALERT_STATE));
  }

  /** A series that can be written is built for the element that has its labels. */
  lemma WrittenIsBuilt(r: Rule, s: Series)
    requires CanWrite(r, s)
    ensures Built(r, s, s.labels, Towards(s), LabelValue(s, ALERT_STATE))
  {
    if r.kind.Recording? {
      RecordedAgain(r, s);
    } else {
      StateOfAlert(r, s);
      AlertedAgain(r, s);
    }
  }

  /** The series a rule can write are exactly those it builds, from whatever its query returns and its templates
      give. */
  lemma WritesExactly(r: Rule, s: Series)
    ensures CanWrite(r, s) <==>
            exists metric: LabelMap, expand: Expansion, state: string :: KeepsText(expand) &&
              Built(r, s, metric, expand, state)
  {
    if CanWrite(r, s) {
      WrittenIsBuilt(r, s);
      assert KeepsText(Towards(s));
    }
    if metric: LabelMap, expand: Expansion, state: string :| KeepsText(expand) && Built(r, s, metric, expand, state) {
      BuiltIsWritten(r, s, metric, expand, state);
    }
  }

  // ---------------------------------------------------------------- series of two rules

  /** Some value meets both. */
  predicate Compatible(d: Demand, e: Demand) {
    match (d, e)
    case (OneOf(a), OneOf(b)) => a * b != {}
    case (OneOf(a), NotEmpty) => a - {""} != {}
    case (OneOf(a), Anything) => a != {}
    case (NotEmpty, OneOf(b)) => b - {""} != {}
    case (Anything, OneOf(b)) => b != {}
    case _ => true
  }

  /** The labels a rule may ask something of. */
  function Keys(r: Rule): set<string> {
    r.labels.Keys + {ALERT_NAME, ALERT_STATE}
  }

  /** Both rules write under the name, and no label has to have two values there. */
  predicate SharedName(r: Rule, q: Rule, name: string) {
    && Produces(r, name) && Produces(q, name)
    && forall k | k in Keys(r) + Keys(q) && k != METRIC_NAME :: Compatible(DemandOf(r, name, k), DemandOf(q, name, k))
  }

  lemma CommonValue(d: Demand, e: Demand) returns (v: string)
    requires Compatible(d, e)
    ensures Meets(v, d) && Meets(v, e)
  {
    match (d, e)
    case (OneOf(a), OneOf(b)) => v :| v in a * b;
    case (OneOf(a), NotEmpty) => v :| v in a - {""};
    case (OneOf(a), Anything) => v :| v in a;
    case (NotEmpty, OneOf(b)) => v :| v in b - {""};
    case (Anything, OneOf(b)) => v :| v in b;
    case _ => v := "x";
  }

  /** Values for the labels `keys` that meet both rules. */
  lemma {:induction false} CommonValues(r: Rule, q: Rule, name: string, keys: set<string>)
    returns (m: map<string, string>)
    requires SharedName(r, q, name) && keys <= Keys(r) + Keys(q) && METRIC_NAME !in keys
    ensures m.Keys == keys
    ensures forall k | k in keys :: Meets(m[k], DemandOf(r, name, k)) && Meets(m[k], DemandOf(q, name, k))
  {
    m := map[];
    if keys != {} {
      var k :| k in keys;
      m := CommonValues(r, q, name, keys - {k});
      var v := CommonValue(DemandOf(r, name, k), DemandOf(q, name, k));
      m := m[k := v];
    }
  }

  function NotEmptyOf(labels: map<string, string>): LabelMap {
    map k | k in labels && labels[k] != "" && k != METRIC_NAME :: labels[k]
  }

  lemma SharedSeries(r: Rule, q: Rule, name: string) returns (s: Series)
    requires SharedName(r, q, name)
    ensures CanWrite(r, s) && CanWrite(q, s)
  {
    var m := CommonValues(r, q, name, Keys(r) + Keys(q) - {METRIC_NAME});
    s := Series(name, NotEmptyOf(m));
    forall k | k != METRIC_NAME
      ensures Meets(LabelValue(s, k), DemandOf(r, name, k)) && Meets(LabelValue(s, k), DemandOf(q, name, k))
    {
      if k in m { assert LabelValue(s, k) == m[k]; }
    }
  }

  lemma SharedNameOf(r: Rule, q: Rule, s: Series)
    requires CanWrite(r, s) && CanWrite(q, s)
    ensures SharedName(r, q, s.name)
  {
    forall k | k in Keys(r) + Keys(q) && k != METRIC_NAME
      ensures Compatible(DemandOf(r, s.name, k), DemandOf(q, s.name, k))
    {
      var v := LabelValue(s, k);
      assert Meets(v, DemandOf(r, s.name, k)) && Meets(v, DemandOf(q, s.name, k));
      MeetsBoth(v, DemandOf(r, s.name, k), DemandOf(q, s.name, k));
    }
  }

  lemma MeetsBoth(v: string, d: Demand, e: Demand)
    requires Meets(v, d) && Meets(v, e)
    ensures Compatible(d, e)
  {
    match (d, e)
    case (OneOf(a), OneOf(b)) => assert v in a * b;
    case (OneOf(a), NotEmpty) => assert v in a - {""};
    case (NotEmpty, OneOf(b)) => assert v in b - {""};
    case _ =>
  }

  /** A label that both rules of one kind set can have one value: it is set to the same text, or one of the texts has a
      template and neither is empty. */
  predicate LabelAgrees(r: Rule, q: Rule, k: string)
    requires k in r.labels && k in q.labels
  {
    || r.labels[k] == q.labels[k]
    || (r.kind.Alerting? && (HasTemplate(r.labels[k]) || HasTemplate(q.labels[k])) && r.labels[k] != "" &&
        q.labels[k] != "")
  }

  /** The labels of a rule that it does not overwrite in the end. */
  function OwnLabels(r: Rule): set<string> {
    r.labels.Keys - {METRIC_NAME} - if r.kind.Alerting? then {ALERT_NAME, ALERT_STATE} else {}
  }

  lemma LabelAgreesExactly(r: Rule, q: Rule, name: string, k: string)
    requires r.kind == q.kind && k in OwnLabels(r) && k in OwnLabels(q)
    ensures LabelAgrees(r, q, k) <==> Compatible(DemandOf(r, name, k), DemandOf(q, name, k))
  {
    var d, e := DemandOf(r, name, k), DemandOf(q, name, k);
    if LabelAgrees(r, q, k) {
      MeetsBoth(if d.NotEmpty? then q.labels[k] else r.labels[k], d, e);
    } else if Compatible(d, e) {
      var v := CommonValue(d, e);
    }
  }

  /** A label that not both rules of one kind set as they like. */
  lemma OthersAgree(r: Rule, q: Rule, name: string, k: string)
    requires r.kind == q.kind && r.name == q.name && !(k in OwnLabels(r) && k in OwnLabels(q)) && k != METRIC_NAME
    requires r.kind.Alerting? ==> name == ALERTS
    ensures Compatible(DemandOf(r, name, k), DemandOf(q, name, k))
  {
    var d, e := DemandOf(r, name, k), DemandOf(q, name, k);
    var v := if r.kind.Alerting? && k == ALERT_NAME then r.name
             else if r.kind.Alerting? && k == ALERT_STATE then "pending"
             else if k in r.labels then r.labels[k] else ValueOf(q.labels, k);
    MeetsBoth(v, d, e);
  }

  /** Two rules of one kind: one name, and no label of both that cannot have one value. */
  lemma SharedByKind(r: Rule, q: Rule)
    requires r.kind == q.kind
    ensures (exists name :: SharedName(r, q, name)) <==>
            r.name == q.name && forall k | k in OwnLabels(r) && k in OwnLabels(q) :: LabelAgrees(r, q, k)
  {
    if n :| SharedName(r, q, n) {
      assert Compatible(DemandOf(r, n, ALERT_NAME), DemandOf(q, n, ALERT_NAME));
      forall k | k in OwnLabels(r) && k in OwnLabels(q) ensures LabelAgrees(r, q, k) {
        LabelAgreesExactly(r, q, n, k);
      }
    }
    if r.name == q.name && forall k | k in OwnLabels(r) && k in OwnLabels(q) :: LabelAgrees(r, q, k) {
      var name := if r.kind.Recording? then r.name else ALERTS;
      forall k | k in Keys(r) + Keys(q) && k != METRIC_NAME
        ensures Compatible(DemandOf(r, name, k), DemandOf(q, name, k))
      {
        if k in OwnLabels(r) && k in OwnLabels(q) {
          LabelAgreesExactly(r, q, name, k);
        } else {
          OthersAgree(r, q, name, k);
        }
      }
      assert SharedName(r, q, name);
    }
  }

  // ---------------------------------------------------------------- one rule

  /** The plainest series a rule can write: templates that expand to nothing. */
  function PlainSeries(r: Rule): Series {
    if r.kind.Recording? then Series(r.name, NotEmptyOf(r.labels))
    else Series(ALERTS_FOR_STATE, NotEmptyOf(r.labels[ALERT_NAME := r.name]))
  }

  lemma PlainIsWritable(r: Rule)
    ensures CanWrite(r, PlainSeries(r))
  {
  }

  /** A label the rule does not set makes no difference. */
  lemma AnotherLabel(r: Rule, s: Series, key: string)
    requires CanWrite(r, s) && key !in r.labels && key !in {METRIC_NAME, ALERT_NAME, ALERT_STATE}
    ensures CanWrite(r, Series(s.name, s.labels[key := "other"]))
  {
    var labels: LabelMap := s.labels[key := "other"];
    forall k | k != METRIC_NAME ensures Meets(LabelValue(Series(s.name, labels), k), DemandOf(r, s.name, k)) {
      assert Meets(LabelValue(s, k), DemandOf(r, s.name, k));
    }
  }
}
