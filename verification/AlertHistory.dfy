/**
 What the results of an alerting rule's evaluations ask for: since when an alert
 is active, whether it is pending, firing or resolved, and when it is forgotten,
 told by the results alone.
 */
module AlertHistory {
  import opened Prelude

  datatype State = Inactive | Pending | Firing

  datatype Alert = Alert(
    state: State,
    labels: Labels,
    annotations: Labels,
    value: Float,
    activeAt: int,
    firedAt: Option<int>,
    resolvedAt: Option<int>,
    lastSentAt: Option<int>,
    validUntil: Option<int>,
    keepFiringSince: Option<int>)

  /** An element of the query result, with the labels and annotations the rule gives it. */
  datatype Element = Element(labels: Labels, annotations: Labels, value: Float)

  /** 15 minutes, in milliseconds. */
  const RESOLVED_RETENTION: int := 900_000

  datatype Config = Config(hold: int, keepFiringFor: int)

  /** A successful evaluation of the expression: its time and its result by labelset. */
  datatype Evaluation = Evaluation(ts: int, result: map<Labels, Element>)

  type Log = seq<Evaluation>

  ghost predicate Increasing(log: Log) {
    forall i, j | 0 <= i < j < |log| :: log[i].ts < log[j].ts
  }

  /** The labelset was in the result of every evaluation from `from` to `to`, of which `from` was one. */
  ghost predicate HeldFrom(log: Log, k: Labels, from: int, to: int) {
    && (exists i :: 0 <= i < |log| && log[i].ts == from)
    && (forall i | 0 <= i < |log| && from <= log[i].ts <= to :: k in log[i].result)
  }

  ghost predicate AbsentSince(log: Log, k: Labels, from: int) {
    forall i | 0 <= i < |log| && from <= log[i].ts :: k !in log[i].result
  }

  /** The last evaluation. */
  function Last(log: Log): Evaluation
    requires log != []
  {
    log[|log| - 1]
  }

  // ---------------------------------------------------------------- what the log tells

  /** It was in none of the results from `f` to `x`. */
  ghost predicate AbsentFrom(log: Log, k: Labels, f: nat, x: nat)
    requires x < |log|
  {
    forall y | f <= y <= x :: k !in log[y].result
  }

  /** At evaluation `j` it was there, and evaluation `s` was the hold duration ago. */
  predicate Ripe(c: Config, log: Log, k: Labels, s: nat, j: nat)
    requires s < |log| && j < |log|
  {
    k in log[j].result && log[j].ts - log[s].ts >= c.hold
  }

  ghost predicate RipeBy(c: Config, log: Log, k: Labels, s: nat, x: nat)
    requires s < |log| && x < |log|
  {
    exists j :: s <= j <= x && Ripe(c, log, k, s, j)
  }

  /** However far back its absence goes, that is less than keep_firing_for. */
  ghost predicate BrieflyAbsent(c: Config, log: Log, k: Labels, s: nat, x: nat)
    requires s < |log| && x < |log|
  {
    forall f | s < f <= x && AbsentFrom(log, k, f, x) :: log[x].ts - log[f].ts < c.keepFiringFor
  }

  /** It is there at evaluation `x`, or was firing and is away briefly. */
  ghost predicate Upheld(c: Config, log: Log, k: Labels, s: nat, x: nat)
    requires s < |log| && x < |log|
  {
    k in log[x].result || (RipeBy(c, log, k, s, x) && BrieflyAbsent(c, log, k, s, x))
  }

  /** From evaluation `s` to evaluation `n` it was upheld all the time. */
  ghost predicate GoesOn(c: Config, log: Log, k: Labels, s: nat, n: nat)
    requires n < |log|
  {
    s <= n && k in log[s].result && forall x | s < x <= n :: Upheld(c, log, k, s, x)
  }

  /** `s` is where what goes on at evaluation `n` began. */
  ghost predicate Began(c: Config, log: Log, k: Labels, s: nat, n: nat)
    requires n < |log|
  {
    GoesOn(c, log, k, s, n) && forall s' | 0 <= s' < s :: !GoesOn(c, log, k, s', n)
  }

  /** What began at `s` ended at `r`, after it had been firing, and it has not been there since. */
  ghost predicate Ended(c: Config, log: Log, k: Labels, s: nat, r: nat, n: nat)
    requires n < |log|
  {
    && 0 < r <= n && Began(c, log, k, s, r - 1) && RipeBy(c, log, k, s, r - 1)
    && !Upheld(c, log, k, s, r) && AbsentFrom(log, k, r, n)
  }

  ghost predicate EndedLately(c: Config, log: Log, k: Labels, s: nat, r: nat, n: nat)
    requires n < |log|
  {
    Ended(c, log, k, s, r, n) && log[n].ts - log[r].ts <= RESOLVED_RETENTION
  }

  /** It fired at the first evaluation that was ripe. */
  ghost predicate FiredFirst(c: Config, log: Log, k: Labels, a: Alert, s: nat, n: nat)
    requires s <= n < |log|
  {
    forall j | s <= j <= n && Ripe(c, log, k, s, j) && (forall i | s <= i < j :: !Ripe(c, log, k, s, i)) ::
      a.firedAt == Some(log[j].ts)
  }

  /** It has the value and annotations of the last result it was in. */
  ghost predicate LastSeen(log: Log, k: Labels, a: Alert, n: nat)
    requires n < |log|
  {
    forall p | 0 <= p <= n && k in log[p].result && AbsentFrom(log, k, p + 1, n) ::
      a.value == log[p].result[k].value && a.annotations == log[p].result[k].annotations
  }

  /** An absence is counted from its first evaluation. */
  ghost predicate CountsAbsence(log: Log, k: Labels, a: Alert, n: nat)
    requires n < |log|
  {
    && (k in log[n].result ==> a.keepFiringSince.None?)
    && (forall f | 0 < f <= n && AbsentFrom(log, k, f, n) && k in log[f - 1].result ::
          a.keepFiringSince == Some(log[f].ts))
  }

  /** `a` is the alert of what began at `s`: firing once it has been there for the hold duration, pending before. */
  ghost predicate Tracks(c: Config, log: Log, k: Labels, a: Alert, s: nat, n: nat)
    requires s <= n < |log|
  {
    && a.activeAt == log[s].ts && a.labels == k && a.resolvedAt.None?
    && a.state == (if RipeBy(c, log, k, s, n) then Firing else Pending)
    && FiredFirst(c, log, k, a, s, n) && LastSeen(log, k, a, n) && CountsAbsence(log, k, a, n)
  }

  /** It is resolved since evaluation `r`. */
  ghost predicate Resolves(log: Log, k: Labels, a: Alert, r: nat)
    requires r < |log|
  {
    a.state == Inactive && a.resolvedAt == Some(log[r].ts) && a.labels == k && a.firedAt.Some?
  }

  /** The alert that the evaluations up to `n` ask for is there, and no other: one that tracks what goes on, or for a
      while one that is resolved. */
  ghost predicate ToldAt(c: Config, log: Log, k: Labels, a: Option<Alert>, n: nat)
    requires n < |log|
  {
    && (forall s: nat | Began(c, log, k, s, n) :: a.Some? && Tracks(c, log, k, a.value, s, n))
    && (forall s: nat, r: nat | EndedLately(c, log, k, s, r, n) :: a.Some? && Resolves(log, k, a.value, r))
    && (a.Some? ==>
          || (exists s: nat :: Began(c, log, k, s, n))
          || (exists s: nat, r: nat :: EndedLately(c, log, k, s, r, n)))
  }

  ghost predicate Told(c: Config, log: Log, k: Labels, a: Option<Alert>) {
    if log == [] then a.None? else ToldAt(c, log, k, a, |log| - 1)
  }

  // One more evaluation changes nothing about those before it.

  lemma SameAbsence(log: Log, e: Evaluation, k: Labels, f: nat, x: nat)
    requires x < |log|
    ensures AbsentFrom(log + [e], k, f, x) == AbsentFrom(log, k, f, x)
    ensures AbsentFrom(log + [e], k, f, |log|) <==> (f <= |log| ==> k !in e.result) && AbsentFrom(log, k, f, |log| - 1)
  {
    var log' := log + [e];
    assert log'[|log|] == e && forall y | 0 <= y < |log| :: log'[y] == log[y];
  }

  lemma SameBefore(c: Config, log: Log, e: Evaluation, k: Labels, s: nat, x: nat)
    requires s < |log| && x < |log|
    ensures RipeBy(c, log + [e], k, s, x) == RipeBy(c, log, k, s, x)
    ensures Upheld(c, log + [e], k, s, x) == Upheld(c, log, k, s, x)
  {
    var log' := log + [e];
    forall j | 0 <= j <= x ensures Ripe(c, log', k, s, j) == Ripe(c, log, k, s, j) {
    }
    forall f: nat | f <= x ensures AbsentFrom(log', k, f, x) == AbsentFrom(log, k, f, x) {
      SameAbsence(log, e, k, f, x);
    }
  }

  lemma SameStart(c: Config, log: Log, e: Evaluation, k: Labels, s: nat, n: nat)
    requires n < |log|
    ensures GoesOn(c, log + [e], k, s, n) == GoesOn(c, log, k, s, n)
    ensures Began(c, log + [e], k, s, n) == Began(c, log, k, s, n)
  {
    forall s': nat, x: nat | s' < |log| && x < |log|
      ensures Upheld(c, log + [e], k, s', x) == Upheld(c, log, k, s', x)
    {
      SameBefore(c, log, e, k, s', x);
    }
    forall s': nat | s' <= s ensures GoesOn(c, log + [e], k, s', n) == GoesOn(c, log, k, s', n) {
    }
  }

  /** What is upheld counting from `s` is upheld counting from before. */
  lemma UpheldEarlier(c: Config, log: Log, k: Labels, s': nat, s: nat, x: nat)
    requires Increasing(log) && s' <= s < x < |log| && k in log[s].result && Upheld(c, log, k, s, x)
    ensures Upheld(c, log, k, s', x)
  {
    assert log[s'].ts <= log[s].ts;
    if k !in log[x].result {
      var j :| s <= j <= x && Ripe(c, log, k, s, j);
      assert Ripe(c, log, k, s', j);
      forall f | s' < f <= x && AbsentFrom(log, k, f, x) ensures log[x].ts - log[f].ts < c.keepFiringFor {
        assert s < f;
      }
    }
  }

  lemma OneStart(c: Config, log: Log, k: Labels, s: nat, s': nat, n: nat)
    requires n < |log| && Began(c, log, k, s, n) && Began(c, log, k, s', n)
    ensures s == s'
  {
  }

  lemma {:induction false} LeastStart(c: Config, log: Log, k: Labels, s: nat, n: nat) returns (s0: nat)
    requires n < |log| && GoesOn(c, log, k, s, n)
    ensures Began(c, log, k, s0, n)
  {
    if s' :| 0 <= s' < s && GoesOn(c, log, k, s', n) {
      s0 := LeastStart(c, log, k, s', n);
    } else {
      s0 := s;
    }
  }

  lemma GoesOnHere(c: Config, log: Log, k: Labels, s: nat, m: nat, n: nat)
    requires s <= m == n - 1 && n < |log|
    ensures GoesOn(c, log, k, s, n) <==> GoesOn(c, log, k, s, m) && Upheld(c, log, k, s, n)
  {
  }

  /** What goes on at an evaluation went on at the one before, or begins there. */
  lemma BeganHere(c: Config, log: Log, k: Labels, s: nat, m: nat, n: nat)
    requires Increasing(log) && s <= m == n - 1 && n < |log|
    ensures Began(c, log, k, s, n) <==> Began(c, log, k, s, m) && Upheld(c, log, k, s, n)
  {
    GoesOnHere(c, log, k, s, m, n);
    if GoesOn(c, log, k, s, n) {
      forall s': nat | s' < s ensures GoesOn(c, log, k, s', n) <==> GoesOn(c, log, k, s', m) {
        GoesOnHere(c, log, k, s', m, n);
        UpheldEarlier(c, log, k, s', s, n);
      }
    }
  }

  lemma GoesOnNext(c: Config, log: Log, e: Evaluation, k: Labels, s: nat)
    requires 0 < |log| && s < |log|
    ensures GoesOn(c, log + [e], k, s, |log|) <==>
            GoesOn(c, log, k, s, |log| - 1) && Upheld(c, log + [e], k, s, |log|)
  {
    SameStart(c, log, e, k, s, |log| - 1);
    GoesOnHere(c, log + [e], k, s, |log| - 1, |log|);
  }

  lemma BeganNext(c: Config, log: Log, e: Evaluation, k: Labels, s: nat)
    requires Increasing(log + [e]) && 0 < |log| && s < |log|
    ensures Began(c, log + [e], k, s, |log|) <==>
            Began(c, log, k, s, |log| - 1) && Upheld(c, log + [e], k, s, |log|)
  {
    SameStart(c, log, e, k, s, |log| - 1);
    BeganHere(c, log + [e], k, s, |log| - 1, |log|);
  }

  lemma EndedNext(c: Config, log: Log, e: Evaluation, k: Labels, s: nat, r: nat)
    requires 0 < |log| && r < |log|
    ensures Ended(c, log + [e], k, s, r, |log|) <==> Ended(c, log, k, s, r, |log| - 1) && k !in e.result
  {
    var log', n := log + [e], |log|;
    if 0 < r {
      SameStart(c, log, e, k, s, r - 1);
      if s < |log| {
        SameBefore(c, log, e, k, s, r - 1);
        SameBefore(c, log, e, k, s, r);
      }
    }
    SameAbsence(log, e, k, r, n - 1);
  }

  /** While something goes on nothing has ended. */
  lemma NotEnded(c: Config, log: Log, k: Labels, s: nat, s': nat, r: nat, n: nat)
    requires Increasing(log) && n < |log| && Began(c, log, k, s, n)
    ensures !Ended(c, log, k, s', r, n)
  {
    if Ended(c, log, k, s', r, n) {
      assert s < r;
      assert GoesOn(c, log, k, s, r - 1);
      assert s' <= s;
      UpheldEarlier(c, log, k, s', s, r);
    }
  }

  lemma RipeNext(c: Config, log: Log, e: Evaluation, k: Labels, s: nat)
    requires 0 < |log| && s < |log|
    ensures RipeBy(c, log + [e], k, s, |log|) <==>
            RipeBy(c, log, k, s, |log| - 1) || Ripe(c, log + [e], k, s, |log|)
    ensures forall j | 0 <= j < |log| :: Ripe(c, log + [e], k, s, j) == Ripe(c, log, k, s, j)
  {
    SameBefore(c, log, e, k, s, |log| - 1);
  }

  /** The first evaluation of an absence. */
  lemma {:induction false} FirstAbsent(log: Log, k: Labels, s: nat, n: nat) returns (f: nat)
    requires s < n < |log| && k in log[s].result && k !in log[n].result
    ensures s < f <= n && AbsentFrom(log, k, f, n) && k in log[f - 1].result
    decreases n - s
  {
    if k in log[n - 1].result {
      f := n;
    } else {
      f := FirstAbsent(log, k, s, n - 1);
    }
  }

  /** How long an absence has lasted is told by its first evaluation. */
  lemma BriefFromFirst(c: Config, log: Log, k: Labels, s: nat, f: nat, n: nat)
    requires Increasing(log) && s < f <= n < |log| && AbsentFrom(log, k, f, n) && k in log[f - 1].result
    ensures BrieflyAbsent(c, log, k, s, n) <==> log[n].ts - log[f].ts < c.keepFiringFor
  {
    forall f' | s < f' <= n && AbsentFrom(log, k, f', n) ensures log[f].ts <= log[f'].ts {
      assert f <= f';
    }
  }

  lemma FiresNow(c: Config, log: Log, e: Evaluation, k: Labels, a: Alert, a': Alert, s: nat)
    requires 0 < |log| && s < |log| && FiredFirst(c, log, k, a, s, |log| - 1)
    requires if RipeBy(c, log, k, s, |log| - 1) then a'.firedAt == a.firedAt
             else Ripe(c, log + [e], k, s, |log|) ==> a'.firedAt == Some(e.ts)
    ensures FiredFirst(c, log + [e], k, a', s, |log|)
  {
    var log', n := log + [e], |log|;
    RipeNext(c, log, e, k, s);
    forall j | s <= j <= n && Ripe(c, log', k, s, j) && (forall i | s <= i < j :: !Ripe(c, log', k, s, i))
      ensures a'.firedAt == Some(log'[j].ts)
    {
      if j < n {
        assert Ripe(c, log, k, s, j) && forall i | s <= i < j :: !Ripe(c, log, k, s, i);
      }
    }
  }

  lemma SeenNow(log: Log, e: Evaluation, k: Labels, a: Alert, a': Alert)
    requires 0 < |log| && LastSeen(log, k, a, |log| - 1)
    requires if k in e.result then a'.value == e.result[k].value && a'.annotations == e.result[k].annotations
             else a'.value == a.value && a'.annotations == a.annotations
    ensures LastSeen(log + [e], k, a', |log|)
  {
    var log', n := log + [e], |log|;
    forall p: nat | p <= n && k in log'[p].result && AbsentFrom(log', k, p + 1, n)
      ensures a'.value == log'[p].result[k].value && a'.annotations == log'[p].result[k].annotations
    {
      SameAbsence(log, e, k, p + 1, n - 1);
      assert k in e.result ==> p == n by { assert log'[n] == e; }
    }
  }

  lemma AbsenceNow(log: Log, e: Evaluation, k: Labels, a: Alert, a': Alert)
    requires 0 < |log| && CountsAbsence(log, k, a, |log| - 1)
    requires if k in e.result then a'.keepFiringSince.None?
             else a'.keepFiringSince == if a.keepFiringSince.None? then Some(e.ts) else a.keepFiringSince
    ensures CountsAbsence(log + [e], k, a', |log|)
  {
    var log', n := log + [e], |log|;
    assert log'[n] == e;
    forall f: nat | 0 < f <= n && AbsentFrom(log', k, f, n) && k in log'[f - 1].result
      ensures a'.keepFiringSince == Some(log'[f].ts)
    {
      SameAbsence(log, e, k, f, n - 1);
      assert k !in log'[f].result || n < f;
      assert k !in e.result;
    }
  }

  /** An alert that tracks what goes on is the one that is asked for. */
  lemma TrackedIsTold(c: Config, log: Log, k: Labels, a: Alert, s: nat, n: nat)
    requires Increasing(log) && n == |log| - 1 && Began(c, log, k, s, n) && Tracks(c, log, k, a, s, n)
    ensures Told(c, log, k, Some(a))
  {
    forall s': nat | Began(c, log, k, s', n) ensures s' == s {
      OneStart(c, log, k, s, s', n);
    }
    forall s': nat, r: nat ensures !Ended(c, log, k, s', r, n) {
      NotEnded(c, log, k, s, s', r, n);
    }
  }

  /** When nothing goes on and it is not in the result, nothing begins. */
  lemma NothingBegins(c: Config, log: Log, e: Evaluation, k: Labels, m: int)
    requires Increasing(log + [e]) && k !in e.result && m == |log| - 1
    requires log != [] ==> forall s: nat | Began(c, log, k, s, m) :: !Upheld(c, log + [e], k, s, |log|)
    ensures forall s: nat :: !Began(c, log + [e], k, s, |log|)
  {
    forall s: nat ensures !Began(c, log + [e], k, s, |log|) {
      assert (log + [e])[|log|] == e;
      if s < |log| { BeganNext(c, log, e, k, s); }
    }
  }

  /** What has ended now has just ended, or had ended before. */
  lemma EndsNow(c: Config, log: Log, e: Evaluation, k: Labels, s: nat, r: nat)
    requires Ended(c, log + [e], k, s, r, |log|)
    ensures 0 < |log|
    ensures if r < |log| then Ended(c, log, k, s, r, |log| - 1)
            else r == |log| && s < |log| && Began(c, log, k, s, |log| - 1) && RipeBy(c, log, k, s, |log| - 1)
  {
    if r < |log| {
      EndedNext(c, log, e, k, s, r);
    } else {
      SameStart(c, log, e, k, s, |log| - 1);
      SameBefore(c, log, e, k, s, |log| - 1);
    }
  }

  lemma ResolvedIsTold(c: Config, log: Log, k: Labels, a: Alert, s: nat, r: nat, n: nat)
    requires n == |log| - 1 && forall s': nat :: !Began(c, log, k, s', n)
    requires EndedLately(c, log, k, s, r, n) && Resolves(log, k, a, r)
    requires forall s': nat, r': nat | EndedLately(c, log, k, s', r', n) :: r' == r
    ensures Told(c, log, k, Some(a))
  {
  }

  lemma NothingIsTold(c: Config, log: Log, k: Labels, n: nat)
    requires n == |log| - 1 && forall s: nat :: !Began(c, log, k, s, n)
    requires forall s: nat, r: nat :: !EndedLately(c, log, k, s, r, n)
    ensures Told(c, log, k, None)
  {
  }

  /** What has ended lately and is still not there had ended lately before. */
  lemma EndedLatelyNext(c: Config, log: Log, e: Evaluation, k: Labels, s: nat, r: nat, m: nat)
    requires Increasing(log + [e]) && m == |log| - 1 && r < |log|
    ensures EndedLately(c, log + [e], k, s, r, |log|) <==>
            && EndedLately(c, log, k, s, r, m) && k !in e.result
            && e.ts - log[r].ts <= RESOLVED_RETENTION
  {
    EndedNext(c, log, e, k, s, r);
    assert (log + [e])[|log|] == e && (log + [e])[m] == log[m] && (log + [e])[r] == log[r];
    assert log[m].ts < e.ts;
  }

  lemma JustEnded(c: Config, log: Log, e: Evaluation, k: Labels, s: nat, m: nat)
    requires m == |log| - 1 && k !in e.result && Began(c, log, k, s, m) && RipeBy(c, log, k, s, m)
    requires !Upheld(c, log + [e], k, s, |log|)
    ensures EndedLately(c, log + [e], k, s, |log|, |log|)
  {
    var log', n := log + [e], |log|;
    SameStart(c, log, e, k, s, m);
    SameBefore(c, log, e, k, s, m);
    assert log'[n] == e && AbsentFrom(log', k, n, n);
    assert n - 1 == m;
  }

  lemma IncreasingBefore(log: Log, e: Evaluation)
    requires Increasing(log + [e])
    ensures Increasing(log)
  {
    forall i, j | 0 <= i < j < |log| ensures log[i].ts < log[j].ts {
      assert (log + [e])[i] == log[i] && (log + [e])[j] == log[j];
    }
  }

  /** If something went on until now, nothing but that can have ended lately. */
  lemma OnlyJustEnded(c: Config, log: Log, e: Evaluation, k: Labels, s: nat, s': nat, r: nat, m: nat)
    requires Increasing(log + [e]) && m == |log| - 1 && Began(c, log, k, s, m)
    requires Ended(c, log + [e], k, s', r, |log|)
    ensures r == |log| && RipeBy(c, log, k, s, m)
  {
    EndsNow(c, log, e, k, s', r);
    IncreasingBefore(log, e);
    if r < |log| {
      NotEnded(c, log, k, s, s', r, m);
    } else {
      OneStart(c, log, k, s, s', m);
    }
  }

  // ---------------------------------------------------------------- what that means

  /** A labelset in the last result has an alert that is not resolved, with the value and annotations of its element,
      active since its presence began. */
  lemma InResult(c: Config, log: Log, k: Labels, a: Option<Alert>) returns (s: nat)
    requires log != [] && Told(c, log, k, a) && k in Last(log).result
    ensures Began(c, log, k, s, |log| - 1)
    ensures a.Some? && a.value.state != Inactive && a.value.activeAt == log[s].ts
    ensures var e := Last(log).result[k]; a.value.value == e.value && a.value.annotations == e.annotations
    ensures c.keepFiringFor <= 0 ==> forall x | s <= x < |log| :: k in log[x].result
    ensures c.keepFiringFor <= 0 && s > 0 ==> k !in log[s - 1].result
  {
    var n := |log| - 1;
    s := LeastStart(c, log, k, n, n);
    assert Tracks(c, log, k, a.value, s, n);
    assert AbsentFrom(log, k, n + 1, n);
    if c.keepFiringFor <= 0 {
      UnbrokenPresence(c, log, k, s, n);
    }
  }

  /** Without keep_firing_for what goes on is a presence without gaps. */
  lemma UnbrokenPresence(c: Config, log: Log, k: Labels, s: nat, n: nat)
    requires c.keepFiringFor <= 0 && n < |log| && Began(c, log, k, s, n)
    ensures forall x | s <= x <= n :: k in log[x].result
    ensures s > 0 ==> k !in log[s - 1].result
  {
    forall x | s <= x <= n ensures k in log[x].result {
      if s < x && k !in log[x].result {
        assert Upheld(c, log, k, s, x) && AbsentFrom(log, k, x, x);
      }
    }
    if s > 0 { assert !GoesOn(c, log, k, s - 1, n); }
  }

  /** An alert that was firing and is not in the result is firing still exactly while its absence is brief, and
      otherwise resolved now. */
  lemma FiringAbsent(c: Config, log: Log, k: Labels, a: Option<Alert>, s: nat, m: nat, n: nat)
    requires Increasing(log) && m == n - 1 && n < |log| && k !in log[n].result && ToldAt(c, log, k, a, n)
    requires Began(c, log, k, s, m) && RipeBy(c, log, k, s, m)
    ensures a.Some? && a.value.state == if BrieflyAbsent(c, log, k, s, n) then Firing else Inactive
    ensures !BrieflyAbsent(c, log, k, s, n) ==> a.value.resolvedAt == Some(log[n].ts)
  {
    RipeLater(c, log, k, s, m, n);
    BeganHere(c, log, k, s, m, n);
    if BrieflyAbsent(c, log, k, s, n) {
      assert Tracks(c, log, k, a.value, s, n);
    } else {
      EndsHere(c, log, k, s, m, n);
      assert Resolves(log, k, a.value, n);
    }
  }

  lemma RipeLater(c: Config, log: Log, k: Labels, s: nat, m: nat, n: nat)
    requires s <= m <= n < |log| && RipeBy(c, log, k, s, m)
    ensures RipeBy(c, log, k, s, n)
  {
    var j :| s <= j <= m && Ripe(c, log, k, s, j);
    assert s <= j <= n;
  }

  lemma EndsHere(c: Config, log: Log, k: Labels, s: nat, m: nat, n: nat)
    requires m == n - 1 && n < |log| && Began(c, log, k, s, m) && RipeBy(c, log, k, s, m)
    requires k !in log[n].result && !BrieflyAbsent(c, log, k, s, n)
    ensures EndedLately(c, log, k, s, n, n)
  {
    assert AbsentFrom(log, k, n, n);
  }

  lemma OneEnd(c: Config, log: Log, k: Labels, s: nat, r: nat, s': nat, r': nat, n: nat)
    requires Increasing(log) && n < |log| && Ended(c, log, k, s, r, n) && Ended(c, log, k, s', r', n)
    ensures r' <= r
  {
    if r < r' {
      assert s' < r;
      assert GoesOn(c, log, k, s', r - 1);
      assert s <= s' && Upheld(c, log, k, s', r);
      UpheldEarlier(c, log, k, s, s', r);
    }
  }

  lemma NoneBegan(c: Config, log: Log, k: Labels, s: nat, r: nat, n: nat)
    requires Increasing(log) && n < |log| && Ended(c, log, k, s, r, n)
    ensures forall s': nat :: !Began(c, log, k, s', n)
  {
    forall s': nat ensures !Began(c, log, k, s', n) {
      if Began(c, log, k, s', n) { NotEnded(c, log, k, s', s, r, n); }
    }
  }

  lemma NoneEndedLately(c: Config, log: Log, k: Labels, s: nat, r: nat, n: nat)
    requires Increasing(log) && n < |log| && Ended(c, log, k, s, r, n) && !EndedLately(c, log, k, s, r, n)
    ensures forall s': nat, r': nat :: !EndedLately(c, log, k, s', r', n)
  {
    forall s': nat, r': nat ensures !EndedLately(c, log, k, s', r', n) {
      if EndedLately(c, log, k, s', r', n) {
        OneEnd(c, log, k, s, r, s', r', n);
        OneEnd(c, log, k, s', r', s, r, n);
      }
    }
  }

  /** A resolved alert stays, as long as it does not come back, until it has been resolved for 15 minutes. */
  lemma ResolvedStays(c: Config, log: Log, k: Labels, a: Option<Alert>, s: nat, r: nat, n: nat)
    requires Increasing(log) && n < |log| && ToldAt(c, log, k, a, n) && Ended(c, log, k, s, r, n)
    ensures a.Some? <==> log[n].ts - log[r].ts <= RESOLVED_RETENTION
    ensures a.Some? ==> a.value.state == Inactive && a.value.resolvedAt == Some(log[r].ts)
  {
    NoneBegan(c, log, k, s, r, n);
    if EndedLately(c, log, k, s, r, n) {
      assert Resolves(log, k, a.value, r);
    } else {
      NoneEndedLately(c, log, k, s, r, n);
    }
  }
}
