/**
 The life of an alert (rules/alerting.go): pending, firing and inactive instances
 of one alerting rule over any run of evaluations, and when they are sent.

 Times and durations are numbers on one scale; a zero time.Time is None. Labelset
 hashes are taken to be injective.
 */
module AlertState {
  import opened Prelude
  import opened AlertHistory

  type Active = map<Labels, Alert>

  datatype EvalError = QueryFailed | DuplicateLabels | LimitExceeded

  // ---------------------------------------------------------------- what one evaluation does to one alert

  function NewAlert(e: Element, ts: int): Alert {
    Alert(Pending, e.labels, e.annotations, e.value, ts, None, None, None, None, None)
  }

  /** The alert before the transitions: an alert that is not inactive takes over value and annotations, any other is
      new. */
  function Merged(a: Option<Alert>, e: Option<Element>, ts: int): Option<Alert> {
    if e.None? then a
    else if a.Some? && a.value.state != Inactive
         then Some(a.value.(value := e.value.value, annotations := e.value.annotations))
    else Some(NewAlert(e.value, ts))
  }

  function KeepSince(c: Config, a: Alert, ts: int): Option<int> {
    if a.state == Firing && c.keepFiringFor > 0 && a.keepFiringSince.None? then Some(ts) else a.keepFiringSince
  }

  predicate KeepsFiring(c: Config, a: Alert, ts: int) {
    var since := KeepSince(c, a, ts);
    a.state == Firing && c.keepFiringFor > 0 && since.Some? && ts - since.value < c.keepFiringFor
  }

  predicate Forgotten(a: Alert, ts: int) {
    a.state == Pending || (a.resolvedAt.Some? && ts - a.resolvedAt.value > RESOLVED_RETENTION)
  }

  /** The alert after an evaluation in whose result it is absent. */
  function Absent(c: Config, a: Alert, ts: int): Option<Alert> {
    var a' := a.(keepFiringSince := KeepSince(c, a, ts));
    if Forgotten(a, ts) then None
    else if KeepsFiring(c, a, ts) then Some(a')
    else if a.state != Inactive then Some(a'.(state := Inactive, resolvedAt := Some(ts)))
    else Some(a')
  }

  /** The alert after an evaluation in whose result it is present. */
  function Present(c: Config, a: Alert, ts: int): Alert {
    var a' := a.(keepFiringSince := None);
    if a.state == Pending && ts - a.activeAt >= c.hold then a'.(state := Firing, firedAt := Some(ts)) else a'
  }

  function After(c: Config, a: Option<Alert>, e: Option<Element>, ts: int): Option<Alert> {
    var m := Merged(a, e, ts);
    if m.None? then None else if e.Some? then Some(Present(c, m.value, ts)) else Absent(c, m.value, ts)
  }

  /** The alert counts against the limit: it is in the result, or kept firing. */
  predicate Counts(c: Config, a: Option<Alert>, e: Option<Element>, ts: int) {
    e.Some? || (a.Some? && KeepsFiring(c, a.value, ts))
  }

  function Get<V>(m: map<Labels, V>, k: Labels): Option<V> {
    if k in m then Some(m[k]) else None
  }

  // ---------------------------------------------------------------- runs

  /** It fired after it had been in every result for the hold duration. */
  ghost predicate FiredProperly(c: Config, log: Log, k: Labels, a: Alert)
    requires log != []
  {
    && a.firedAt.Some?
    && a.firedAt.value - a.activeAt >= c.hold
    && a.activeAt <= a.firedAt.value <= Last(log).ts
    && HeldFrom(log, k, a.activeAt, a.firedAt.value)
  }

  /** What holds of every alert after any run. */
  ghost predicate Justified(c: Config, log: Log, k: Labels, a: Alert) {
    && log != []
    && (a.state == Inactive <==> a.resolvedAt.Some?)
    && match a.state
       case Pending =>
         && k in Last(log).result
         && a.activeAt <= Last(log).ts && Last(log).ts - a.activeAt < c.hold
         && HeldFrom(log, k, a.activeAt, Last(log).ts)
         && a.keepFiringSince.None?
       case Firing =>
         && FiredProperly(c, log, k, a)
         && (if k in Last(log).result then a.keepFiringSince.None?
             else
               && a.keepFiringSince.Some? && Last(log).ts - a.keepFiringSince.value < c.keepFiringFor
               && AbsentSince(log, k, a.keepFiringSince.value))
       case Inactive =>
         && FiredProperly(c, log, k, a)
         && k !in Last(log).result
         && a.firedAt.value < a.resolvedAt.value <= Last(log).ts
         && Last(log).ts - a.resolvedAt.value <= RESOLVED_RETENTION
         && AbsentSince(log, k, a.resolvedAt.value)
  }

  lemma HeldLonger(log: Log, k: Labels, from: int, to: int, e: Evaluation)
    requires log != [] && Increasing(log + [e]) && HeldFrom(log, k, from, to)
    ensures to < e.ts ==> HeldFrom(log + [e], k, from, to)
    ensures to == Last(log).ts && k in e.result ==> HeldFrom(log + [e], k, from, e.ts)
  {
    var log' := log + [e];
    var i :| 0 <= i < |log| && log[i].ts == from;
    assert log'[i].ts == from;
    assert log'[|log| - 1] == Last(log) && log'[|log|] == e;
  }

  lemma StartsToHold(log: Log, k: Labels, e: Evaluation)
    requires Increasing(log + [e]) && k in e.result
    ensures HeldFrom(log + [e], k, e.ts, e.ts)
  {
    assert (log + [e])[|log|] == e;
  }

  lemma AbsentLonger(log: Log, k: Labels, from: int, ev: Evaluation)
    requires Increasing(log + [ev]) && k !in ev.result
    ensures AbsentSince(log, k, from) ==> AbsentSince(log + [ev], k, from)
    ensures AbsentSince(log + [ev], k, ev.ts)
  {
    assert forall i | 0 <= i < |log| :: (log + [ev])[i] == log[i] && (log + [ev])[i].ts < (log + [ev])[|log|].ts;
  }

  lemma PresentIsJustified(c: Config, log: Log, k: Labels, a: Option<Alert>, e: Element, ev: Evaluation)
    requires Increasing(log + [ev]) && k in ev.result
    requires a.Some? ==> Justified(c, log, k, a.value)
    ensures Justified(c, log + [ev], k, After(c, a, Some(e), ev.ts).value)
  {
    assert Last(log + [ev]) == ev && (log != [] ==> Last(log) == (log + [ev])[|log| - 1]);
    if a.None? || a.value.state == Inactive {
      StartsToHold(log, k, ev);
    } else if a.value.state == Pending {
      HeldLonger(log, k, a.value.activeAt, Last(log).ts, ev);
    } else {
      HeldLonger(log, k, a.value.activeAt, a.value.firedAt.value, ev);
    }
  }

  lemma AbsentIsJustified(c: Config, log: Log, k: Labels, a: Alert, ev: Evaluation)
    requires Increasing(log + [ev]) && k !in ev.result && Justified(c, log, k, a)
    ensures var r := Absent(c, a, ev.ts); r.Some? ==> Justified(c, log + [ev], k, r.value)
  {
    assert Last(log + [ev]) == ev && Last(log) == (log + [ev])[|log| - 1];
    if a.state != Pending {
      HeldLonger(log, k, a.activeAt, a.firedAt.value, ev);
      AbsentLonger(log, k, if a.state == Inactive then a.resolvedAt.value
                           else if a.keepFiringSince.Some? then a.keepFiringSince.value else ev.ts, ev);
    }
  }

  /** One evaluation, in the result of which the alert is or is not, keeps every alert justified. */
  lemma AfterIsJustified(c: Config, log: Log, k: Labels, a: Option<Alert>, e: Option<Element>, ev: Evaluation)
    requires Increasing(log + [ev]) && (e.Some? <==> k in ev.result)
    requires a.Some? ==> Justified(c, log, k, a.value)
    ensures var r := After(c, a, e, ev.ts); r.Some? ==> Justified(c, log + [ev], k, r.value)
  {
    if e.Some? {
      PresentIsJustified(c, log, k, a, e.value, ev);
    } else if a.Some? {
      AbsentIsJustified(c, log, k, a.value, ev);
    }
  }

  // ---------------------------------------------------------------- the alert is what the log tells

  /** A tracked alert that is in the result. */
  lemma TracksPresent(c: Config, log: Log, ev: Evaluation, k: Labels, a: Alert, s: nat, m: nat)
    requires m == |log| - 1 && s <= m && Tracks(c, log, k, a, s, m) && k in ev.result
    ensures var e := ev.result[k];
            Tracks(c, log + [ev], k, Present(c, a.(value := e.value, annotations := e.annotations), ev.ts), s, |log|)
  {
    var e := ev.result[k];
    var a' := Present(c, a.(value := e.value, annotations := e.annotations), ev.ts);
    RipeNext(c, log, ev, k, s);
    FiresNow(c, log, ev, k, a, a', s);
    SeenNow(log, ev, k, a, a');
    AbsenceNow(log, ev, k, a, a');
  }

  /** A firing alert that is away briefly. */
  lemma TracksAbsent(c: Config, log: Log, ev: Evaluation, k: Labels, a: Alert, s: nat, m: nat)
    requires m == |log| - 1 && s <= m && Tracks(c, log, k, a, s, m) && a.state == Firing && k !in ev.result
    requires c.keepFiringFor > 0
    ensures Tracks(c, log + [ev], k, a.(keepFiringSince := KeepSince(c, a, ev.ts)), s, |log|)
  {
    var a' := a.(keepFiringSince := KeepSince(c, a, ev.ts));
    RipeNext(c, log, ev, k, s);
    FiresNow(c, log, ev, k, a, a', s);
    SeenNow(log, ev, k, a, a');
    AbsenceNow(log, ev, k, a, a');
  }

  /** A tracked alert that fires is kept firing exactly while it is upheld. */
  lemma KeptWhileUpheld(c: Config, log: Log, ev: Evaluation, k: Labels, a: Alert, s: nat, f: nat, m: nat)
    requires m == |log| - 1 && s <= m && Increasing(log + [ev]) && k !in ev.result
    requires Tracks(c, log, k, a, s, m)
    requires s < f <= |log| && AbsentFrom(log + [ev], k, f, |log|) && k in log[f - 1].result
    ensures KeepsFiring(c, a, ev.ts) <==> Upheld(c, log + [ev], k, s, |log|)
  {
    var log', n := log + [ev], |log|;
    RipeNext(c, log, ev, k, s);
    BriefFromFirst(c, log', k, s, f, n);
    if f < n {
      SameAbsence(log, ev, k, f, n - 1);
      assert a.keepFiringSince == Some(log[f].ts);
    } else {
      assert a.keepFiringSince == None;
    }
  }

  /** An alert that is new in the result. */
  lemma BeginsNow(c: Config, log: Log, ev: Evaluation, k: Labels)
    requires Increasing(log + [ev]) && k in ev.result && ev.result[k].labels == k
    requires forall s: nat | s < |log| :: !GoesOn(c, log + [ev], k, s, |log|)
    ensures Told(c, log + [ev], k, Some(Present(c, NewAlert(ev.result[k], ev.ts), ev.ts)))
  {
    var log', n, a := log + [ev], |log|, Present(c, NewAlert(ev.result[k], ev.ts), ev.ts);
    assert log'[n] == ev;
    assert GoesOn(c, log', k, n, n) && Began(c, log', k, n, n);
    assert RipeBy(c, log', k, n, n) <==> Ripe(c, log', k, n, n);
    TrackedIsTold(c, log', k, a, n, n);
  }

  lemma ToldPresent(c: Config, log: Log, k: Labels, a: Option<Alert>, ev: Evaluation)
    requires Increasing(log + [ev]) && k in ev.result && ev.result[k].labels == k && Told(c, log, k, a)
    ensures Told(c, log + [ev], k, After(c, a, Some(ev.result[k]), ev.ts))
  {
    var log', n, m := log + [ev], |log|, |log| - 1;
    assert log'[n] == ev;
    if log != [] && exists s: nat :: Began(c, log, k, s, m) {
      var s: nat :| Began(c, log, k, s, m);
      BeganNext(c, log, ev, k, s);
      TracksPresent(c, log, ev, k, a.value, s, m);
      TrackedIsTold(c, log', k, After(c, a, Some(ev.result[k]), ev.ts).value, s, n);
    } else {
      forall s: nat | s < n ensures !GoesOn(c, log', k, s, n) {
        GoesOnNext(c, log, ev, k, s);
        if GoesOn(c, log, k, s, n - 1) { var s0 := LeastStart(c, log, k, s, n - 1); }
      }
      BeginsNow(c, log, ev, k);
    }
  }

  /** A tracked alert that is no longer in the result: kept, resolved or dropped. */
  lemma TrackedAbsent(c: Config, log: Log, k: Labels, a: Alert, ev: Evaluation, s: nat, m: nat)
    requires Increasing(log + [ev]) && k !in ev.result && m == |log| - 1
    requires Began(c, log, k, s, m) && Tracks(c, log, k, a, s, m)
    ensures Told(c, log + [ev], k, Absent(c, a, ev.ts))
  {
    var log', n := log + [ev], |log|;
    assert log'[n] == ev && log'[s] == log[s];
    var f := FirstAbsent(log', k, s, n);
    KeptWhileUpheld(c, log, ev, k, a, s, f, m);
    BeganNext(c, log, ev, k, s);
    if Upheld(c, log', k, s, n) {
      TracksAbsent(c, log, ev, k, a, s, m);
      TrackedIsTold(c, log', k, Absent(c, a, ev.ts).value, s, n);
    } else {
      NotUpheld(c, log, k, a, ev, s, m);
    }
  }

  lemma NotUpheld(c: Config, log: Log, k: Labels, a: Alert, ev: Evaluation, s: nat, m: nat)
    requires Increasing(log + [ev]) && k !in ev.result && m == |log| - 1
    requires Began(c, log, k, s, m) && Tracks(c, log, k, a, s, m)
    requires !Upheld(c, log + [ev], k, s, |log|) && !KeepsFiring(c, a, ev.ts)
    ensures Told(c, log + [ev], k, Absent(c, a, ev.ts))
  {
    var log', n := log + [ev], |log|;
    forall s': nat | Began(c, log, k, s', m) ensures s' == s {
      OneStart(c, log, k, s, s', m);
    }
    NothingBegins(c, log, ev, k, m);
    forall s': nat, r: nat | EndedLately(c, log', k, s', r, n) ensures r == n && a.state == Firing {
      OnlyJustEnded(c, log, ev, k, s, s', r, m);
    }
    if a.state == Firing {
      JustEnded(c, log, ev, k, s, m);
      EndsFiring(c, log, k, a, ev, s, m);
      ResolvedIsTold(c, log', k, Absent(c, a, ev.ts).value, s, n, n);
    } else {
      NothingIsTold(c, log', k, n);
    }
  }

  lemma EndsFiring(c: Config, log: Log, k: Labels, a: Alert, ev: Evaluation, s: nat, m: nat)
    requires m == |log| - 1 && s <= m && Tracks(c, log, k, a, s, m) && a.state == Firing
    requires !KeepsFiring(c, a, ev.ts)
    ensures Absent(c, a, ev.ts).Some? && Resolves(log + [ev], k, Absent(c, a, ev.ts).value, |log|)
  {
    assert (log + [ev])[|log|] == ev;
    FirstRipe(c, log, k, a, s, m);
  }

  /** A firing alert has a time at which it fired. */
  lemma {:induction false} FirstRipe(c: Config, log: Log, k: Labels, a: Alert, s: nat, n: nat)
    requires s <= n < |log| && FiredFirst(c, log, k, a, s, n) && RipeBy(c, log, k, s, n)
    ensures a.firedAt.Some?
  {
    var j: nat :| s <= j <= n && Ripe(c, log, k, s, j);
    while exists i: nat :: s <= i < j && Ripe(c, log, k, s, i)
      invariant s <= j <= n && Ripe(c, log, k, s, j)
      decreases j
    {
      var i: nat :| s <= i < j && Ripe(c, log, k, s, i);
      j := i;
    }
  }

  /** A resolved alert that does not come back. */
  lemma ResolvedAbsent(c: Config, log: Log, k: Labels, a: Alert, ev: Evaluation, s: nat, r: nat, m: nat)
    requires Increasing(log + [ev]) && k !in ev.result && Told(c, log, k, Some(a)) && m == |log| - 1
    requires forall s: nat :: !Began(c, log, k, s, m)
    requires EndedLately(c, log, k, s, r, m)
    ensures Told(c, log + [ev], k, Absent(c, a, ev.ts))
  {
    var log', n := log + [ev], |log|;
    assert log'[n] == ev && log'[r] == log[r];
    NothingBegins(c, log, ev, k, m);
    forall s': nat, r': nat | EndedLately(c, log', k, s', r', n)
      ensures r' == r && ev.ts - log[r].ts <= RESOLVED_RETENTION
    {
      EndsNow(c, log, ev, k, s', r');
      EndedLatelyNext(c, log, ev, k, s', r', m);
      assert Resolves(log, k, a, r') && Resolves(log, k, a, r);
    }
    if ev.ts - log[r].ts <= RESOLVED_RETENTION {
      EndedLatelyNext(c, log, ev, k, s, r, m);
      ResolvedIsTold(c, log', k, Absent(c, a, ev.ts).value, s, r, n);
    } else {
      NothingIsTold(c, log', k, n);
    }
  }

  /** An alert that is not there and is not asked for. */
  lemma NothingAbsent(c: Config, log: Log, k: Labels, ev: Evaluation, m: int)
    requires Increasing(log + [ev]) && k !in ev.result && Told(c, log, k, None) && m == |log| - 1
    ensures Told(c, log + [ev], k, None)
  {
    var n := |log|;
    assert (log + [ev])[n] == ev;
    NothingBegins(c, log, ev, k, m);
    forall s: nat, r: nat ensures !EndedLately(c, log + [ev], k, s, r, n) {
      if EndedLately(c, log + [ev], k, s, r, n) {
        EndsNow(c, log, ev, k, s, r);
        if r < n { EndedLatelyNext(c, log, ev, k, s, r, m); }
      }
    }
    NothingIsTold(c, log + [ev], k, n);
  }

  /** One evaluation: the alert that the log asked for becomes the alert that the longer log asks for. */
  lemma AfterIsTold(c: Config, log: Log, k: Labels, a: Option<Alert>, ev: Evaluation)
    requires Increasing(log + [ev]) && (k in ev.result ==> ev.result[k].labels == k) && Told(c, log, k, a)
    ensures Told(c, log + [ev], k, After(c, a, Get(ev.result, k), ev.ts))
  {
    var m := |log| - 1;
    if k in ev.result {
      ToldPresent(c, log, k, a, ev);
    } else if log != [] && exists s: nat :: Began(c, log, k, s, m) {
      var s: nat :| Began(c, log, k, s, m);
      TrackedAbsent(c, log, k, a.value, ev, s, m);
    } else if a.Some? {
      var s: nat, r: nat :| EndedLately(c, log, k, s, r, m);
      ResolvedAbsent(c, log, k, a.value, ev, s, r, m);
    } else {
      NothingAbsent(c, log, k, ev, m);
    }
  }

  // ---------------------------------------------------------------- evaluation

  ghost predicate Duplicates(res: seq<Element>) {
    exists i, j :: 0 <= i < j < |res| && res[i].labels == res[j].labels
  }

  /** The result by labelset. */
  ghost predicate ByLabels(res: seq<Element>, m: map<Labels, Element>) {
    && (forall i | 0 <= i < |res| :: res[i].labels in m && m[res[i].labels] == res[i])
    && (forall k | k in m :: exists i :: 0 <= i < |res| && res[i].labels == k)
  }

  method Collect(res: seq<Element>) returns (ok: bool, m: map<Labels, Element>)
    ensures ok <==> !Duplicates(res)
    ensures ok ==> ByLabels(res, m)
  {
    m := map[];
    var i := 0;
    while i < |res|
      invariant 0 <= i <= |res|
      invariant !Duplicates(res[..i]) && ByLabels(res[..i], m)
    {
      if res[i].labels in m {
        return false, m;
      }
      m := m[res[i].labels := res[i]];
      i := i + 1;
    }
    assert res[..i] == res;
    ok := true;
  }

  /** New elements become pending alerts, known ones are updated. */
  method MergeAll(active: Active, m: map<Labels, Element>, ts: int) returns (active': Active)
    ensures forall k :: Get(active', k) == Merged(Get(active, k), Get(m, k), ts)
  {
    active' := active;
    var rest := m.Keys;
    while rest != {}
      invariant rest <= m.Keys
      invariant forall k ::
                  Get(active', k) == if k in rest then Get(active, k) else Merged(Get(active, k), Get(m, k), ts)
      decreases |rest|
    {
      var h :| h in rest;
      var a := NewAlert(m[h], ts);
      if h in active' && active'[h].state != Inactive {
        active' := active'[h := active'[h].(value := a.value, annotations := a.annotations)];
      } else {
        active' := active'[h := a];
      }
      rest := rest - {h};
    }
  }

  /** What is left of a merged alert, and whether it counts against the limit. */
  method Transition(c: Config, a0: Alert, present: bool, ts: int) returns (r: Option<Alert>, counts: bool)
    ensures r == if present then Some(Present(c, a0, ts)) else Absent(c, a0, ts)
    ensures counts <==> present || KeepsFiring(c, a0, ts)
  {
    var a := a0;
    var deleted := false;
    if !present {
      var keepFiring := false;
      if a.state == Firing && c.keepFiringFor > 0 {
        if a.keepFiringSince.None? {
          a := a.(keepFiringSince := Some(ts));
        }
        if ts - a.keepFiringSince.value < c.keepFiringFor {
          keepFiring := true;
        }
      }
      if a.state == Pending || (a.resolvedAt.Some? && ts - a.resolvedAt.value > RESOLVED_RETENTION) {
        deleted := true;
      }
      if a.state != Inactive && !keepFiring {
        a := a.(state := Inactive, resolvedAt := Some(ts));
      }
      if !keepFiring {
        return if deleted then None else Some(a), false;
      }
    } else {
      a := a.(keepFiringSince := None);
    }
    if a.state == Pending && ts - a.activeAt >= c.hold {
      a := a.(state := Firing, firedAt := Some(ts));
    }
    return if deleted then None else Some(a), true;
  }

  /** The labelsets that count against the limit. */
  ghost function Counting(c: Config, active: Active, m: map<Labels, Element>, ts: int): set<Labels> {
    set k | k in active.Keys + m.Keys && Counts(c, Get(active, k), Get(m, k), ts)
  }

  /** What is left of a merged alert. */
  function Left(c: Config, merged: Active, m: map<Labels, Element>, ts: int, k: Labels): Option<Alert> {
    if k !in merged then None else if k in m then Some(Present(c, merged[k], ts)) else Absent(c, merged[k], ts)
  }

  predicate LeftCounts(c: Config, merged: Active, m: map<Labels, Element>, ts: int, k: Labels) {
    k in merged && (k in m || KeepsFiring(c, merged[k], ts))
  }

  /** The loop over the merged alerts. */
  method TransitionAll(c: Config, merged: Active, m: map<Labels, Element>, ts: int)
    returns (active': Active, num: nat, ghost counted: set<Labels>)
    ensures forall k :: Get(active', k) == Left(c, merged, m, ts, k)
    ensures num == |counted| && forall k :: k in counted <==> LeftCounts(c, merged, m, ts, k)
  {
    active', num, counted := map[], 0, {};
    var rest := merged.Keys;
    while rest != {}
      invariant rest <= merged.Keys
      invariant forall k :: Get(active', k) == if k in rest then None else Left(c, merged, m, ts, k)
      invariant num == |counted|
      invariant forall k :: k in counted <==> k !in rest && LeftCounts(c, merged, m, ts, k)
      decreases |rest|
    {
      var fp :| fp in rest;
      var r, counts := Transition(c, merged[fp], fp in m, ts);
      active', num, counted, rest := Record(active', num, fp, r, counts, counted, rest);
    }
  }

  /** Enter the outcome for one alert. */
  method Record(active: Active, num: nat, fp: Labels, r: Option<Alert>, counts: bool, ghost counted: set<Labels>,
                rest: set<Labels>)
    returns (active': Active, num': nat, ghost counted': set<Labels>, rest': set<Labels>)
    requires fp in rest && fp !in active && fp !in counted && num == |counted|
    ensures forall k :: Get(active', k) == if k == fp then r else Get(active, k)
    ensures num' == |counted'| && forall k :: k in counted' <==> if k == fp then counts else k in counted
    ensures rest' == rest - {fp}
  {
    active', num', counted', rest' := active, num, counted, rest - {fp};
    if r.Some? {
      active' := active[fp := r.value];
    }
    if counts {
      num' := num + 1;
      counted' := counted + {fp};
    }
  }

  /** Every alert is what the log tells, and justified. */
  ghost predicate Sound(c: Config, log: Log, active: Active) {
    && Increasing(log)
    && (forall k :: Told(c, log, k, Get(active, k)))
    && (forall k | k in active :: Justified(c, log, k, active[k]))
  }

  /** A whole evaluation keeps every alert what the log tells. */
  lemma EvaluationIsSound(c: Config, log: Log, active: Active, merged: Active, active': Active,
                                 m: map<Labels, Element>, e: Evaluation)
    requires Sound(c, log, active) && (log == [] || Last(log).ts < e.ts) && e.result == m
    requires forall k | k in m :: m[k].labels == k
    requires forall k :: Get(merged, k) == Merged(Get(active, k), Get(m, k), e.ts)
    requires forall k :: Get(active', k) == Left(c, merged, m, e.ts, k)
    ensures forall k :: Get(active', k) == After(c, Get(active, k), Get(m, k), e.ts)
    ensures Sound(c, log + [e], active')
  {
    forall k ensures Get(active', k) == After(c, Get(active, k), Get(m, k), e.ts) {
      assert Get(merged, k) == Merged(Get(active, k), Get(m, k), e.ts);
      assert Get(active', k) == Left(c, merged, m, e.ts, k);
    }
    forall k | k in active' ensures Justified(c, log + [e], k, active'[k]) {
      assert Get(active', k) == After(c, Get(active, k), Get(m, k), e.ts);
      AfterIsJustified(c, log, k, Get(active, k), Get(m, k), e);
    }
    EvaluationKeepsTold(c, log, active, active', e);
  }

  /** What counts against the limit are the alerts that are pending or firing after the evaluation. */
  lemma CountingExactly(c: Config, active: Active, active': Active, m: map<Labels, Element>, ts: int)
    requires forall k | k in active :: active[k].state == Inactive <==> active[k].resolvedAt.Some?
    requires forall k :: Get(active', k) == After(c, Get(active, k), Get(m, k), ts)
    ensures Counting(c, active, m, ts) == set k | k in active' && active'[k].state != Inactive
  {
    forall k ensures k in Counting(c, active, m, ts) <==> k in active' && active'[k].state != Inactive {
      assert Get(active', k) == After(c, Get(active, k), Get(m, k), ts);
    }
  }

  lemma EvaluationKeepsTold(c: Config, log: Log, active: Active, active': Active, e: Evaluation)
    requires Increasing(log + [e]) && forall k | k in e.result :: e.result[k].labels == k
    requires forall k :: Told(c, log, k, Get(active, k))
    requires forall k :: Get(active', k) == After(c, Get(active, k), Get(e.result, k), e.ts)
    ensures forall k :: Told(c, log + [e], k, Get(active', k))
  {
    forall k ensures Told(c, log + [e], k, Get(active', k)) {
      AfterIsTold(c, log, k, Get(active, k), e);
    }
  }

  // ---------------------------------------------------------------- sending

  predicate NeedsSending(a: Alert, ts: int, resendDelay: int) {
    if a.state == Pending then false
    else if a.resolvedAt.Some? && (a.lastSentAt.None? || a.resolvedAt.value > a.lastSentAt.value) then true
    else a.lastSentAt.None? || a.lastSentAt.value + resendDelay < ts
  }

  /** Sending changes nothing about what the log tells. */
  lemma OfferedIsSound(c: Config, log: Log, active: Active, active': Active, ts: int, resendDelay: int, interval: int)
    requires active'.Keys == active.Keys && Sound(c, log, active)
    requires forall k | k in active :: active'[k] == Offered(active[k], ts, resendDelay, interval)
    ensures Sound(c, log, active')
  {
    forall k | k in active
      ensures Told(c, log, k, Some(active'[k])) && Justified(c, log, k, active'[k])
    {
      assert Told(c, log, k, Get(active, k));
      SentIsTold(c, log, k, active[k], ts, resendDelay, interval);
    }
    forall k ensures Told(c, log, k, Get(active', k)) {
      assert Told(c, log, k, Get(active, k));
    }
  }

  lemma SentIsTold(c: Config, log: Log, k: Labels, a: Alert, ts: int, resendDelay: int, interval: int)
    ensures Told(c, log, k, Some(a)) ==> Told(c, log, k, Some(Offered(a, ts, resendDelay, interval)))
    ensures Justified(c, log, k, a) ==> Justified(c, log, k, Offered(a, ts, resendDelay, interval))
  {
    var a' := Offered(a, ts, resendDelay, interval);
    forall s: nat, n: nat | s <= n < |log| ensures Tracks(c, log, k, a, s, n) ==> Tracks(c, log, k, a', s, n) {
    }
    forall r: nat | r < |log| ensures Resolves(log, k, a, r) ==> Resolves(log, k, a', r) {
    }
  }

  /** What the notifier is handed. */
  datatype Notification = Notification(labels: Labels, startsAt: Option<int>, endsAt: Option<int>)

  function Delta(resendDelay: int, interval: int): int {
    if interval > resendDelay then interval else resendDelay
  }

  function MarkSent(a: Alert, ts: int, resendDelay: int, interval: int): Alert {
    a.(lastSentAt := Some(ts), validUntil := Some(ts + 4 * Delta(resendDelay, interval)))
  }

  /** The alert after sendAlerts. */
  function Offered(a: Alert, ts: int, resendDelay: int, interval: int): Alert {
    if NeedsSending(a, ts, resendDelay) then MarkSent(a, ts, resendDelay, interval) else a
  }

  function Notify(a: Alert): Notification {
    Notification(a.labels, a.firedAt, if a.resolvedAt.Some? then a.resolvedAt else a.validUntil)
  }

  /** `sent` are the notifications of the alerts `keys`, one each. */
  ghost predicate HandedOver(active: Active, sent: seq<Notification>, keys: seq<Labels>) {
    && |sent| == |keys|
    && (forall i | 0 <= i < |keys| :: keys[i] in active && sent[i] == Notify(active[keys[i]]))
    && (forall i, j | 0 <= i < j < |keys| :: keys[i] != keys[j])
  }

  lemma OneMoreHandedOver(active: Active, sent: seq<Notification>, keys: seq<Labels>, k: Labels, a: Alert)
    requires HandedOver(active, sent, keys) && k !in active
    ensures HandedOver(active[k := a], sent, keys)
    ensures HandedOver(active[k := a], sent + [Notify(a)], keys + [k])
  {
  }

  method OfferAll(active: Active, ts: int, resendDelay: int, interval: int)
    returns (active': Active, sent: seq<Notification>, ghost keys: seq<Labels>)
    ensures active'.Keys == active.Keys
    ensures forall k | k in active :: active'[k] == Offered(active[k], ts, resendDelay, interval)
    ensures HandedOver(active', sent, keys)
    ensures forall k :: k in keys <==> k in active && NeedsSending(active[k], ts, resendDelay)
  {
    active', sent, keys := map[], [], [];
    var rest := active.Keys;
    while rest != {}
      invariant rest <= active.Keys && active'.Keys == active.Keys - rest
      invariant forall k | k in active' :: active'[k] == Offered(active[k], ts, resendDelay, interval)
      invariant HandedOver(active', sent, keys)
      invariant forall k :: k in keys <==> k in active' && NeedsSending(active[k], ts, resendDelay)
      decreases |rest|
    {
      var k :| k in rest;
      var alert := active[k];
      OneMoreHandedOver(active', sent, keys, k, Offered(alert, ts, resendDelay, interval));
      if NeedsSending(alert, ts, resendDelay) {
        alert := MarkSent(alert, ts, resendDelay, interval);
        sent, keys := sent + [Notify(alert)], keys + [k];
      }
      active' := active'[k := alert];
      rest := rest - {k};
    }
  }

  /** Evaluation times of a group, each at most `gap` after the one before, the first at most `gap` after `from`. */
  ghost predicate Schedule(times: seq<int>, from: int, gap: int) {
    forall i | 0 <= i < |times| :: Before(times, from, i) < times[i] <= Before(times, from, i) + gap
  }

  function Before(times: seq<int>, from: int, i: int): int
    requires i <= |times|
  {
    if i <= 0 then from else times[i - 1]
  }

  /** A firing alert offered at all these times is each time sent before what was last sent for it runs out. */
  ghost predicate NeverRunsOut(a: Alert, times: seq<int>, resendDelay: int, interval: int)
    decreases |times|
  {
    times != [] ==>
    && (NeedsSending(a, times[0], resendDelay) && a.validUntil.Some? ==> times[0] <= a.validUntil.value)
    && NeverRunsOut(Offered(a, times[0], resendDelay, interval), times[1..], resendDelay, interval)
  }

  /** A firing alert that was last sent at `sent`. */
  predicate FiringSent(a: Alert, sent: int, resendDelay: int, interval: int) {
    a.state == Firing && a.resolvedAt.None? && a.lastSentAt == Some(sent) &&
      a.validUntil == Some(sent + 4 * Delta(resendDelay, interval))
  }

  /** `last` is the last evaluation, at most the resend delay after the alert was sent. */
  lemma {:induction false} ResentInTime(a: Alert, times: seq<int>, sent: int, last: int, gap: int, resendDelay: int,
                                        interval: int)
    requires 0 <= resendDelay && gap <= 4 * Delta(resendDelay, interval) - resendDelay
    requires FiringSent(a, sent, resendDelay, interval) && sent <= last <= sent + resendDelay
    requires Schedule(times, last, gap)
    ensures NeverRunsOut(a, times, resendDelay, interval)
    decreases |times|
  {
    if times != [] {
      var t, rest := times[0], times[1..];
      assert Before(times, last, 0) == last;
      forall i | 0 <= i < |rest| ensures Before(rest, t, i) < rest[i] <= Before(rest, t, i) + gap {
        assert Before(times, last, i + 1) == Before(rest, t, i) && times[i + 1] == rest[i];
      }
      ResentInTime(Offered(a, t, resendDelay, interval), rest,
                   if t > sent + resendDelay then t else sent, t, gap, resendDelay, interval);
    }
  }

  /** An example alert. */
  function FiringAlert(sent: int, resendDelay: int, interval: int): Alert {
    Alert(Firing, map[], map[], Finite(1.0), sent, Some(sent), None, Some(sent),
          Some(sent + 4 * Delta(resendDelay, interval)), None)
  }

  /** Evaluations that are too far apart, once the alert was just not sent again. */
  lemma RunsOut(gap: int, resendDelay: int, interval: int)
    requires 0 <= resendDelay && 0 < gap && gap > 4 * Delta(resendDelay, interval) - resendDelay
    ensures var times := if resendDelay == 0 then [gap] else [resendDelay, resendDelay + gap];
            Schedule(times, 0, gap) &&
              !NeverRunsOut(FiringAlert(0, resendDelay, interval), times, resendDelay, interval)
  {
    var a := FiringAlert(0, resendDelay, interval);
    if resendDelay == 0 {
      assert !NeverRunsOut(a, [gap], resendDelay, interval);
    } else {
      var times := [resendDelay, resendDelay + gap];
      assert times[1..] == [resendDelay + gap];
      assert Offered(a, resendDelay, resendDelay, interval) == a;
      assert !NeverRunsOut(a, [resendDelay + gap], resendDelay, interval);
    }
  }

  ghost predicate AlwaysInTime(gap: int, resendDelay: int, interval: int) {
    forall a, times, sent | FiringSent(a, sent, resendDelay, interval) && Schedule(times, sent, gap) ::
      NeverRunsOut(a, times, resendDelay, interval)
  }

  /** Successive evaluations may be at most 4 * max(resend delay, interval) - resend delay apart for a firing alert
      always to be sent again in time, and that is enough. */
  lemma ResendExactly(gap: int, resendDelay: int, interval: int)
    requires 0 <= resendDelay && 0 < gap
    ensures AlwaysInTime(gap, resendDelay, interval) <==> gap <= 4 * Delta(resendDelay, interval) - resendDelay
  {
    if gap <= 4 * Delta(resendDelay, interval) - resendDelay {
      forall a, times, sent | FiringSent(a, sent, resendDelay, interval) && Schedule(times, sent, gap)
        ensures NeverRunsOut(a, times, resendDelay, interval)
      {
        ResentInTime(a, times, sent, sent, gap, resendDelay, interval);
      }
    } else {
      RunsOut(gap, resendDelay, interval);
      assert FiringSent(FiringAlert(0, resendDelay, interval), 0, resendDelay, interval);
    }
  }

  /** Two missed evaluations are allowed for. */
  lemma TwoMissedEvaluations(resendDelay: int, interval: int)
    requires 0 <= resendDelay && 0 < interval
    ensures AlwaysInTime(3 * interval, resendDelay, interval)
  {
    ResendExactly(3 * interval, resendDelay, interval);
  }

  // ---------------------------------------------------------------- what is sent at an evaluation

  /** If it was sent, then by `t`, and not before it fired. */
  predicate SentBy(a: Alert, t: int) {
    a.lastSentAt.Some? ==>
      a.state != Pending && a.firedAt.Some? && a.firedAt.value <= a.lastSentAt.value && a.lastSentAt.value <= t
  }

  ghost predicate IsSent(sent: seq<Notification>, x: Notification) {
    x in sent
  }

  /** An alert that ends now is sent with its end. */
  ghost predicate EndsAreSent(c: Config, log: Log, n: nat, sent: seq<Notification>)
    requires n < |log|
  {
    forall k, s: nat | Ended(c, log, k, s, n, n) ::
      exists at :: IsSent(sent, Notification(k, at, Some(log[n].ts)))
  }

  /** An alert that fires now is sent with its start, and an end ahead. */
  ghost predicate StartsAreSent(c: Config, log: Log, n: nat, sent: seq<Notification>, ahead: int)
    requires n < |log|
  {
    forall k, s: nat | FiresAt(c, log, k, s, n) ::
      IsSent(sent, Notification(k, Some(log[n].ts), Some(log[n].ts + ahead)))
  }

  /** At evaluation `n`, and not before, what goes on has gone on for the hold duration. */
  ghost predicate FiresAt(c: Config, log: Log, k: Labels, s: nat, n: nat)
    requires n < |log|
  {
    Began(c, log, k, s, n) && Ripe(c, log, k, s, n) && forall i | s <= i < n :: !Ripe(c, log, k, s, i)
  }

  /** A pending alert is not sent. */
  ghost predicate PendingIsNotSent(c: Config, log: Log, n: nat, sent: seq<Notification>)
    requires n < |log|
  {
    forall k, s: nat, x | Began(c, log, k, s, n) && !RipeBy(c, log, k, s, n) && IsSent(sent, x) :: x.labels != k
  }

  /** Alerts offered to be sent at evaluation `n`, and what was sent of them. */
  ghost predicate OfferedAt(c: Config, log: Log, n: nat, active: Active, active': Active, sent: seq<Notification>,
                            keys: seq<Labels>, resendDelay: int, interval: int)
    requires n < |log|
  {
    && (forall k :: ToldAt(c, log, k, Get(active, k), n))
    && (forall k | k in active :: active[k].lastSentAt.Some? ==> active[k].lastSentAt.value < log[n].ts)
    && (forall k | k in active :: SentBy(active[k], log[n].ts))
    && active'.Keys == active.Keys && HandedOver(active', sent, keys)
    && (forall k | k in active :: active'[k] == Offered(active[k], log[n].ts, resendDelay, interval))
    && (forall k :: k in keys <==> k in active && NeedsSending(active[k], log[n].ts, resendDelay))
  }

  lemma KeyIsSent(active: Active, sent: seq<Notification>, keys: seq<Labels>, k: Labels)
    requires HandedOver(active, sent, keys) && k in keys
    ensures k in active && IsSent(sent, Notify(active[k]))
  {
    var i :| 0 <= i < |keys| && keys[i] == k;
    assert sent[i] == Notify(active[k]);
  }

  lemma EndIsSent(c: Config, log: Log, n: nat, active: Active, active': Active, sent: seq<Notification>,
                  keys: seq<Labels>, resendDelay: int, interval: int, k: Labels, s: nat)
    requires n < |log| && OfferedAt(c, log, n, active, active', sent, keys, resendDelay, interval)
    requires Ended(c, log, k, s, n, n)
    ensures k in active && IsSent(sent, Notification(k, active[k].firedAt, Some(log[n].ts)))
  {
    assert ToldAt(c, log, k, Get(active, k), n) && EndedLately(c, log, k, s, n, n);
    assert Resolves(log, k, active[k], n);
    KeyIsSent(active', sent, keys, k);
  }

  lemma StartIsSent(c: Config, log: Log, n: nat, active: Active, active': Active, sent: seq<Notification>,
                    keys: seq<Labels>, resendDelay: int, interval: int, k: Labels, s: nat)
    requires n < |log| && OfferedAt(c, log, n, active, active', sent, keys, resendDelay, interval)
    requires FiresAt(c, log, k, s, n)
    ensures IsSent(sent, Notification(k, Some(log[n].ts), Some(log[n].ts + 4 * Max(interval, resendDelay))))
  {
    assert ToldAt(c, log, k, Get(active, k), n);
    assert Tracks(c, log, k, active[k], s, n);
    KeyIsSent(active', sent, keys, k);
  }

  lemma PendingStays(c: Config, log: Log, n: nat, active: Active, active': Active, sent: seq<Notification>,
                     keys: seq<Labels>, resendDelay: int, interval: int, k: Labels, s: nat, x: Notification)
    requires n < |log| && OfferedAt(c, log, n, active, active', sent, keys, resendDelay, interval)
    requires Began(c, log, k, s, n) && !RipeBy(c, log, k, s, n) && IsSent(sent, x)
    ensures x.labels != k
  {
    assert ToldAt(c, log, k, Get(active, k), n);
    assert Tracks(c, log, k, active[k], s, n) && k !in keys;
    var i :| 0 <= i < |sent| && sent[i] == x;
    assert keys[i] in active && ToldAt(c, log, keys[i], Get(active, keys[i]), n);
    HasItsLabels(c, log, keys[i], active[keys[i]], n);
  }

  lemma AllAreSent(c: Config, log: Log, n: nat, active: Active, active': Active, sent: seq<Notification>,
                   keys: seq<Labels>, resendDelay: int, interval: int)
    requires n < |log| && OfferedAt(c, log, n, active, active', sent, keys, resendDelay, interval)
    ensures EndsAreSent(c, log, n, sent) && StartsAreSent(c, log, n, sent, 4 * Max(interval, resendDelay))
    ensures PendingIsNotSent(c, log, n, sent)
  {
    forall k, s: nat | Ended(c, log, k, s, n, n)
      ensures exists at :: IsSent(sent, Notification(k, at, Some(log[n].ts)))
    {
      EndIsSent(c, log, n, active, active', sent, keys, resendDelay, interval, k, s);
    }
    forall k, s: nat | FiresAt(c, log, k, s, n)
      ensures IsSent(sent, Notification(k, Some(log[n].ts), Some(log[n].ts + 4 * Max(interval, resendDelay))))
    {
      StartIsSent(c, log, n, active, active', sent, keys, resendDelay, interval, k, s);
    }
    forall k, s: nat, x | Began(c, log, k, s, n) && !RipeBy(c, log, k, s, n) && IsSent(sent, x)
      ensures x.labels != k
    {
      PendingStays(c, log, n, active, active', sent, keys, resendDelay, interval, k, s, x);
    }
  }

  lemma HasItsLabels(c: Config, log: Log, k: Labels, a: Alert, n: nat)
    requires n < |log| && ToldAt(c, log, k, Some(a), n)
    ensures a.labels == k
  {
    if s: nat :| Began(c, log, k, s, n) {
      assert Tracks(c, log, k, a, s, n);
    } else {
      var s: nat, r: nat :| EndedLately(c, log, k, s, r, n);
      assert Resolves(log, k, a, r);
    }
  }

  lemma OfferedBy(c: Config, log: Log, active: Active, active': Active, resendDelay: int, interval: int, t: int)
    requires log != [] && Sound(c, log, active) && t < Last(log).ts && forall k | k in active :: SentBy(active[k], t)
    requires active'.Keys == active.Keys
    requires forall k | k in active :: active'[k] == Offered(active[k], Last(log).ts, resendDelay, interval)
    ensures forall k | k in active :: SentBy(active'[k], Last(log).ts) && SentBy(active[k], Last(log).ts)
    ensures forall k | k in active :: active[k].lastSentAt.Some? ==> active[k].lastSentAt.value < Last(log).ts
    ensures forall k :: ToldAt(c, log, k, Get(active, k), |log| - 1)
  {
    forall k | k in active ensures SentBy(active'[k], Last(log).ts) {
      assert Justified(c, log, k, active[k]);
    }
    forall k ensures ToldAt(c, log, k, Get(active, k), |log| - 1) {
      assert Told(c, log, k, Get(active, k));
    }
  }

  lemma StillSentBy(c: Config, active: Active, active': Active, m: map<Labels, Element>, ts: int, t: int)
    requires forall k | k in active :: SentBy(active[k], t)
    requires forall k :: Get(active', k) == After(c, Get(active, k), Get(m, k), ts)
    ensures forall k | k in active' :: SentBy(active'[k], t)
  {
    forall k | k in active' ensures SentBy(active'[k], t) {
      assert Get(active', k) == After(c, Get(active, k), Get(m, k), ts);
    }
  }

  lemma MergedKeys(active: Active, m: map<Labels, Element>, merged: Active, ts: int)
    requires forall k :: Get(merged, k) == Merged(Get(active, k), Get(m, k), ts)
    ensures merged.Keys == active.Keys + m.Keys
  {
    forall k ensures k in merged <==> k in active || k in m {
      assert Get(merged, k) == Merged(Get(active, k), Get(m, k), ts);
    }
  }

  /** Merging changes nothing about which alerts count. */
  lemma CountingMerged(c: Config, active: Active, m: map<Labels, Element>, merged: Active, ts: int,
                       counted: set<Labels>)
    requires forall k :: Get(merged, k) == Merged(Get(active, k), Get(m, k), ts)
    requires forall k :: k in counted <==> LeftCounts(c, merged, m, ts, k)
    ensures Counting(c, active, m, ts) == counted
  {
    MergedKeys(active, m, merged, ts);
    forall k | k in merged && k !in m ensures k in active && merged[k] == active[k] {
      assert Get(merged, k) == Merged(Get(active, k), Get(m, k), ts);
    }
  }

  class AlertingRule {
    const c: Config
    var active: Active
    ghost var log: Log  // since the alerts were last dropped

    ghost predicate Valid()
      reads this
    {
      Sound(c, log, active)
    }

    constructor (c: Config)
      ensures Valid() && this.c == c && active == map[] && log == []
    {
      this.c := c;
      active, log := map[], [];
    }

    /** One evaluation. `res` is the query result, None when the query fails. */
    method Eval(ts: int, res: Option<seq<Element>>, limit: int)
      returns (err: Option<EvalError>, ghost m: map<Labels, Element>)
      requires Valid() && (log == [] || Last(log).ts < ts)
      modifies this
      ensures Valid()
      ensures res.None? ==> err == Some(QueryFailed)
      ensures err == Some(DuplicateLabels) <==> res.Some? && Duplicates(res.value)
      ensures err == Some(QueryFailed) || err == Some(DuplicateLabels) ==> active == old(active) && log == old(log)
      ensures res.Some? && !Duplicates(res.value) ==>
                && ByLabels(res.value, m)
                && (err == Some(LimitExceeded) <==> limit > 0 && |Counting(c, old(active), m, ts)| > limit)
                && (err == Some(LimitExceeded) ==> active == map[] && log == [])
                && (err != Some(LimitExceeded) ==>
                      && err == None && log == old(log) + [Evaluation(ts, m)]
                      && forall k :: Get(active, k) == After(c, Get(old(active), k), Get(m, k), ts))
    {
      m := map[];
      if res.None? {
        return Some(QueryFailed), m;
      }
      var ok, alerts := Collect(res.value);
      if !ok {
        return Some(DuplicateLabels), m;
      }
      m := alerts;
      var merged := MergeAll(active, alerts, ts);
      var active', num;
      ghost var counted;
      active', num, counted := TransitionAll(c, merged, alerts, ts);
      CountingMerged(c, active, alerts, merged, ts, counted);
      ghost var e := Evaluation(ts, alerts);
      EvaluationIsSound(c, log, active, merged, active', alerts, e);
      active, log := active', log + [e];
      err := None;
      if limit > 0 && num > limit {
        active, log := map[], [];
        err := Some(LimitExceeded);
      }
    }

    /** sendAlerts, with SendAlerts as the notify function: hand over what needs sending. Nothing else about alerts
        changes. */
    method SendAlerts(ts: int, resendDelay: int, interval: int)
      returns (sent: seq<Notification>, ghost keys: seq<Labels>)
      requires Valid()
      modifies this`active
      ensures Valid()
      ensures active.Keys == old(active).Keys
      ensures forall k | k in active :: active[k] == Offered(old(active)[k], ts, resendDelay, interval)
      ensures HandedOver(active, sent, keys)
      ensures forall k :: k in keys <==> k in active && NeedsSending(old(active)[k], ts, resendDelay)
      ensures forall k | k in active && old(active)[k].state != Pending && old(active)[k].lastSentAt.Some? ::
                var a := old(active)[k];
                k in keys <==> (a.resolvedAt.Some? && a.lastSentAt.value < a.resolvedAt.value) ||
                               ts - a.lastSentAt.value > resendDelay
    {
      var active';
      active', sent, keys := OfferAll(active, ts, resendDelay, interval);
      OfferedIsSound(c, log, active, active', ts, resendDelay, interval);
      active := active';
    }

    /** A group evaluates the rule and then sends what needs sending, unless the evaluation failed: an alert that
        starts to fire is sent at once with its start, one that ends at once with its end, and no pending one. */
    method EvalAndSend(ts: int, res: Option<seq<Element>>, limit: int, resendDelay: int, interval: int, ghost t: int)
      returns (err: Option<EvalError>, sent: seq<Notification>)
      requires Valid() && (log == [] || Last(log).ts < ts)
      requires t < ts && forall k | k in active :: SentBy(active[k], t)
      modifies this
      ensures Valid() && forall k | k in active :: SentBy(active[k], ts)
      ensures err.Some? ==> sent == []
      ensures err.None? ==>
                && log != [] && Last(log).ts == ts
                && EndsAreSent(c, log, |log| - 1, sent) && PendingIsNotSent(c, log, |log| - 1, sent)
                && StartsAreSent(c, log, |log| - 1, sent, 4 * Max(interval, resendDelay))
    {
      ghost var before := active;
      ghost var m;
      err, m := Eval(ts, res, limit);
      sent := [];
      if err.None? {
        StillSentBy(c, before, active, m, ts, t);
        ghost var evaluated := active;
        ghost var keys;
        sent, keys := SendAlerts(ts, resendDelay, interval);
        OfferedBy(c, log, evaluated, active, resendDelay, interval, t);
        AllAreSent(c, log, |log| - 1, evaluated, active, sent, keys, resendDelay, interval);
      }
    }
  }
}
