/**
 The discovery manager (discovery/manager.go) as a state machine. Its steps are
 what the goroutines do between two points where others may run: the updater of a
 provider (receive, update one subscription under the targets mutex, pull the
 trigger, clean up), ApplyConfig (which holds the manager's mutex, one provider at a
 time) and the sender (take the trigger, read one provider under the mutexes, send).

 The snapshot that is sent is kept by provider, before it is merged by target set.
 Providers are named by the manager's counter and so are never reused.
 */
module Discovery {
  import opened Prelude

  type Sub = string  // a target set
  type Prov = nat

  datatype TargetGroup = TargetGroup(source: string, targets: seq<int>)

  /** The groups of one pool key, by source. */
  type Groups = map<string, TargetGroup>

  /** What a discoverer sends; some send nil groups. */
  type Update = seq<Option<TargetGroup>>

  // ---------------------------------------------------------------- updates

  function Updated(m: Groups, tgs: Update): Groups {
    if tgs == [] then m
    else
      var before, tg := Updated(m, tgs[..|tgs| - 1]), tgs[|tgs| - 1];
      if tg.None? then before
      else if |tg.value.targets| > 0 then before[tg.value.source := tg.value]
      else before - {tg.value.source}
  }

  /** All updates a provider has delivered since it started. */
  datatype History = Start | Then(before: History, tgs: Update)

  function Fold(h: History): Groups {
    match h
    case Start => map[]
    case Then(before, tgs) => Updated(Fold(before), tgs)
  }

  /** Everything a provider has sent, in order. */
  function Sent(h: History): Update {
    match h
    case Start => []
    case Then(before, tgs) => Sent(before) + tgs
  }

  predicate About(tg: Option<TargetGroup>, source: string) {
    tg.Some? && tg.value.source == source
  }

  /** `g` is what the last of the groups says about a source: the group itself, or nothing if it has no targets; if
      none is about the source, it is what was there before. */
  ghost predicate SaysLast(tgs: Update, source: string, before: Option<TargetGroup>, g: Option<TargetGroup>) {
    && ((forall i | 0 <= i < |tgs| :: !About(tgs[i], source)) ==> g == before)
    && (forall i | 0 <= i < |tgs| && About(tgs[i], source) && (forall j | i < j < |tgs| :: !About(tgs[j], source)) ::
          g == if tgs[i].value.targets == [] then None else tgs[i])
  }

  function GroupFor(m: Groups, source: string): Option<TargetGroup> {
    if source in m then Some(m[source]) else None
  }

  /** First some groups, then some more. */
  lemma SaysLastOfBoth(first: Update, later: Update, source: string, before: Option<TargetGroup>,
                       mid: Option<TargetGroup>, g: Option<TargetGroup>)
    requires SaysLast(first, source, before, mid) && SaysLast(later, source, mid, g)
    ensures SaysLast(first + later, source, before, g)
  {
    var all := first + later;
    assert forall i | 0 <= i < |first| :: all[i] == first[i];
    forall i | 0 <= i < |later| ensures all[|first| + i] == later[i] {
    }
    forall i | 0 <= i < |all| && About(all[i], source) && (forall j | i < j < |all| :: !About(all[j], source))
      ensures g == if all[i].value.targets == [] then None else all[i]
    {
      forall j | 0 <= j < |later| && i - |first| < j ensures !About(later[j], source) {
        assert all[|first| + j] == later[j];
      }
      if i >= |first| { assert later[i - |first|] == all[i]; }
    }
    if forall i | 0 <= i < |all| :: !About(all[i], source) {
      forall j | 0 <= j < |later| ensures !About(later[j], source) {
        assert all[|first| + j] == later[j];
      }
    }
  }

  lemma {:induction false} UpdatedExactly(m: Groups, tgs: Update, source: string)
    ensures SaysLast(tgs, source, GroupFor(m, source), GroupFor(Updated(m, tgs), source))
  {
    if tgs != [] {
      var front, last := tgs[..|tgs| - 1], tgs[|tgs| - 1..];
      UpdatedExactly(m, front, source);
      assert last == [tgs[|tgs| - 1]] && front + last == tgs;
      SaysLastOfBoth(front, last, source, GroupFor(m, source), GroupFor(Updated(m, front), source),
                     GroupFor(Updated(m, tgs), source));
    }
  }

  /** What is stored for a source is what the provider has last sent about it. */
  lemma {:induction false} FoldExactly(h: History, source: string)
    ensures SaysLast(Sent(h), source, None, GroupFor(Fold(h), source))
  {
    if h.Then? {
      FoldExactly(h.before, source);
      UpdatedExactly(Fold(h.before), h.tgs, source);
      SaysLastOfBoth(Sent(h.before), h.tgs, source, None, GroupFor(Fold(h.before), source), GroupFor(Fold(h), source));
    }
  }

  method UpdateGroup(m: Groups, tgs: Update) returns (m': Groups)
    ensures m' == Updated(m, tgs)
  {
    m' := m;
    var i := 0;
    while i < |tgs|
      invariant 0 <= i <= |tgs| && m' == Updated(m, tgs[..i])
    {
      assert tgs[..i + 1][..i] == tgs[..i];
      if tgs[i].Some? {
        var tg := tgs[i].value;
        if |tg.targets| > 0 {
          m' := m'[tg.source := tg];
        } else {
          m' := m' - {tg.source};
        }
      }
      i := i + 1;
    }
    assert tgs[..i] == tgs;
  }

  // ---------------------------------------------------------------- states

  datatype Updater = Idle | Updating(tgs: Update, done: set<Sub>) | Triggering | Gone

  datatype Applying =
    | NotApplying
    | Swapping(todo: set<Prov>, wanted: map<Prov, set<Sub>>)
    | WaitingForCleaners(wanted: map<Prov, set<Sub>>)

  /** What the receiver gets, by provider and subscription. */
  type Snapshot = map<Prov, map<Sub, Groups>>

  datatype Sender = Ticking | Taken | Reading(snap: Snapshot) | Sending(snap: Snapshot)

  datatype State = State(
    providers: set<Prov>,
    cancelled: set<Prov>,
    subs: map<Prov, set<Sub>>,
    targets: map<(Sub, Prov), Groups>,
    updaters: map<Prov, Updater>,
    trigger: bool,
    applying: Applying,
    sender: Sender,
    delivered: Snapshot,
    history: map<Prov, History>)

  const INIT: State := State({}, {}, map[], map[], map[], false, NotApplying, Ticking, map[], map[])

  /** The stored groups; no entry is as good as an empty one. */
  function Stored(st: State, s: Sub, p: Prov): Groups {
    if (s, p) in st.targets then st.targets[(s, p)] else map[]
  }

  predicate Live(st: State, p: Prov) {
    p in st.updaters && p in st.subs && p in st.history && st.updaters[p] != Gone
  }

  /** What allGroups reads from one provider. */
  function Current(st: State, p: Prov): map<Sub, Groups>
    requires p in st.subs
  {
    GroupsOf(st.subs[p], st.targets, p)
  }

  function GroupsOf(subs: set<Sub>, targets: map<(Sub, Prov), Groups>, p: Prov): map<Sub, Groups> {
    map s | s in subs :: if (s, p) in targets then targets[(s, p)] else map[]
  }

  // ---------------------------------------------------------------- steps

  datatype Event =
    | Receive(p: Prov, tgs: Update)
    | UpdateSub(p: Prov, s: Sub)
    | FinishUpdate(p: Prov)
    | PullTrigger(p: Prov)
    | Clean(p: Prov)
    | BeginApply(wanted: map<Prov, set<Sub>>)  // the subscriptions each provider has after registerProviders
    | Swap(p: Prov, reference: Sub)
    | FinishSwaps
    | EndApply
    | Take
    | BeginRead
    | Read(p: Prov)
    | EndRead
    | Send(ok: bool)

  predicate Enabled(st: State, ev: Event) {
    match ev
    case Receive(p, _) => Live(st, p) && st.updaters[p] == Idle
    case UpdateSub(p, s) => Live(st, p) && st.updaters[p].Updating? && s in st.subs[p] && s !in st.updaters[p].done
    case FinishUpdate(p) => Live(st, p) && st.updaters[p].Updating? && st.updaters[p].done == st.subs[p]
    case PullTrigger(p) => Live(st, p) && st.updaters[p] == Triggering
    case Clean(p) => Live(st, p) && st.updaters[p] == Idle && p in st.cancelled
    case BeginApply(wanted) =>
      && st.applying == NotApplying && !st.sender.Reading?
      && st.providers <= wanted.Keys
      && (forall p | p in wanted && p !in st.providers :: wanted[p] != {} && p !in st.updaters)
    case Swap(p, reference) =>
      && st.applying.Swapping? && p in st.applying.todo && p in st.applying.wanted
      && (st.applying.wanted[p] != {} && Live(st, p) ==> !st.updaters[p].Updating? && reference in st.subs[p])
    case FinishSwaps => st.applying.Swapping? && st.applying.todo == {}
    case EndApply => st.applying.WaitingForCleaners? &&
      forall p | p in st.cancelled :: p in st.updaters && st.updaters[p] == Gone
    case Take => st.sender == Ticking && st.trigger
    case BeginRead => st.sender == Taken && st.applying == NotApplying
    case Read(p) => st.sender.Reading? && p in st.providers && p !in st.sender.snap && p in st.subs
    case EndRead => st.sender.Reading? && st.sender.snap.Keys == st.providers
    case Send(_) => st.sender.Sending?
  }

  /** The targets after a provider's subscriptions have been swapped. */
  function Swapped(st: State, p: Prov, newSubs: set<Sub>, reference: Sub): map<(Sub, Prov), Groups>
    requires p in st.subs
  {
    var ref := Stored(st, reference, p);
    var kept := map k | k in st.targets && (k.1 != p || k.0 !in st.subs[p] || k.0 in newSubs) :: st.targets[k];
    if |ref| > 0 then kept + map s | s in newSubs :: (s, p) := ref else kept
  }

  function Kept(wanted: map<Prov, set<Sub>>): set<Prov> {
    set p | p in wanted && wanted[p] != {}
  }

  function Next(st: State, ev: Event): State
    requires Enabled(st, ev)
  {
    match ev
    case Receive(p, tgs) => st.(updaters := st.updaters[p := Updating(tgs, {})])
    case UpdateSub(p, s) =>
      var u := st.updaters[p];
      st.(targets := st.targets[(s, p) := Updated(Stored(st, s, p), u.tgs)],
          updaters := st.updaters[p := u.(done := u.done + {s})])
    case FinishUpdate(p) =>
      st.(updaters := st.updaters[p := Triggering], history := st.history[p := Then(st.history[p], st.updaters[p].tgs)])
    case PullTrigger(p) => st.(trigger := true, updaters := st.updaters[p := Idle])
    case Clean(p) =>
      st.(targets :=
          map k | k in st.targets && !(k.1 == p && k.0 in st.subs[p]) ::
            st.targets[k], updaters := st.updaters[p := Gone])
    case BeginApply(wanted) => st.(applying := Swapping(wanted.Keys, wanted))
    case Swap(p, reference) =>
      var wanted := st.applying.wanted[p];
      var st' := st.(applying := st.applying.(todo := st.applying.todo - {p}));
      if wanted == {} then st'.(cancelled := st.cancelled + {p})
      else if Live(st, p) then st'.(targets := Swapped(st, p, wanted, reference), subs := st.subs[p := wanted])
      else st'.(subs := st.subs[p := wanted], updaters := st.updaters[p := Idle], history := st.history[p := Start])
    case FinishSwaps =>
      var wanted := st.applying.wanted;
      st.(trigger := st.trigger || wanted != map[],
          providers := Kept(wanted),
          applying := WaitingForCleaners(wanted))
    case EndApply => st.(applying := NotApplying, cancelled := {})
    case Take => st.(sender := Taken, trigger := false)
    case BeginRead => st.(sender := Reading(map[]))
    case Read(p) => st.(sender := Reading(st.sender.snap[p := Current(st, p)]))
    case EndRead => st.(sender := Sending(st.sender.snap))
    case Send(ok) =>
      if ok then st.(sender := Ticking, delivered := st.sender.snap) else st.(sender := Ticking, trigger := true)
  }

  // ---------------------------------------------------------------- stored groups

  /** What a subscription has to store. */
  function Expected(st: State, p: Prov, s: Sub): Groups
    requires Live(st, p)
  {
    var u := st.updaters[p];
    if u.Updating? && s in u.done then Updated(Fold(st.history[p]), u.tgs) else Fold(st.history[p])
  }

  ghost predicate StoredAsExpected(st: State) {
    forall p, s | Live(st, p) && s in st.subs[p] :: Stored(st, s, p) == Expected(st, p, s)
  }

  /** Only subscriptions of live providers have entries. */
  ghost predicate NoStrayKeys(st: State) {
    forall s, p | (s, p) in st.targets :: Live(st, p) && s in st.subs[p]
  }

  lemma SwappedStores(st: State, p: Prov, newSubs: set<Sub>, reference: Sub, s: Sub, q: Prov)
    requires Live(st, p) && !st.updaters[p].Updating? && reference in st.subs[p]
    requires StoredAsExpected(st) && NoStrayKeys(st)
    ensures var targets := Swapped(st, p, newSubs, reference);
            && ((s, q) in targets ==> if q == p then s in newSubs else (s, q) in st.targets)
            && (if (s, q) in targets then targets[(s, q)] else map[]) ==
               (if q != p then Stored(st, s, q) else if s in newSubs then Fold(st.history[p]) else map[])
  {
  }

  ghost predicate StoreInv(st: State) {
    StoredAsExpected(st) && NoStrayKeys(st)
  }

  /** Steps of an updater that change neither entries, subscriptions nor history. */
  lemma UpdaterKeepsStore(st: State, ev: Event)
    requires StoreInv(st) && Enabled(st, ev) && (ev.Receive? || ev.PullTrigger?)
    ensures StoreInv(Next(st, ev))
  {
    var st' := Next(st, ev);
    forall p, s | Live(st', p) && s in st'.subs[p] ensures Stored(st', s, p) == Expected(st', p, s) {
      assert Live(st, p) && Stored(st, s, p) == Expected(st, p, s);
    }
  }

  lemma UpdateSubKeepsStore(st: State, p: Prov, s: Sub)
    requires StoreInv(st) && Enabled(st, UpdateSub(p, s))
    ensures StoreInv(Next(st, UpdateSub(p, s)))
  {
    var st' := Next(st, UpdateSub(p, s));
    assert Stored(st, s, p) == Expected(st, p, s);
    forall q, x | Live(st', q) && x in st'.subs[q] ensures Stored(st', x, q) == Expected(st', q, x) {
      assert Live(st, q) && Stored(st, x, q) == Expected(st, q, x);
    }
    forall x, q | (x, q) in st'.targets ensures Live(st', q) && x in st'.subs[q] {
      assert (x, q) in st.targets || (x, q) == (s, p);
    }
  }

  lemma FinishUpdateKeepsStore(st: State, p: Prov)
    requires StoreInv(st) && Enabled(st, FinishUpdate(p))
    ensures StoreInv(Next(st, FinishUpdate(p)))
  {
    var st' := Next(st, FinishUpdate(p));
    forall q, x | Live(st', q) && x in st'.subs[q] ensures Stored(st', x, q) == Expected(st', q, x) {
      assert Live(st, q) && Stored(st, x, q) == Expected(st, q, x);
    }
  }

  lemma CleanKeepsStore(st: State, p: Prov)
    requires StoreInv(st) && Enabled(st, Clean(p))
    ensures StoreInv(Next(st, Clean(p)))
  {
    var st' := Next(st, Clean(p));
    forall q, s | Live(st', q) && s in st'.subs[q] ensures Stored(st', s, q) == Expected(st', q, s) {
      assert Live(st, q) && Stored(st, s, q) == Expected(st, q, s);
    }
  }

  /** A provider that stays: all its subscriptions, old and new, store the same afterwards. */
  lemma SwapSubsKeepsStore(st: State, p: Prov, reference: Sub)
    requires StoreInv(st) && Enabled(st, Swap(p, reference)) && st.applying.wanted[p] != {} && Live(st, p)
    ensures StoreInv(Next(st, Swap(p, reference)))
  {
    var st' := Next(st, Swap(p, reference));
    var wanted := st.applying.wanted[p];
    forall q, s | Live(st', q) && s in st'.subs[q] ensures Stored(st', s, q) == Expected(st', q, s) {
      SwappedStores(st, p, wanted, reference, s, q);
    }
    forall s, q | (s, q) in st'.targets ensures Live(st', q) && s in st'.subs[q] {
      SwappedStores(st, p, wanted, reference, s, q);
    }
  }

  /** A provider that is cancelled, or started: nothing is stored for a new one. */
  lemma SwapOthersKeepsStore(st: State, p: Prov, reference: Sub)
    requires StoreInv(st) && Enabled(st, Swap(p, reference)) && (st.applying.wanted[p] == {} || !Live(st, p))
    ensures StoreInv(Next(st, Swap(p, reference)))
  {
    var st' := Next(st, Swap(p, reference));
    forall q, s | Live(st', q) && s in st'.subs[q] ensures Stored(st', s, q) == Expected(st', q, s) {
      if Live(st, q) { assert Stored(st, s, q) == Expected(st, q, s); }
    }
  }

  lemma StepKeepsStore(st: State, ev: Event)
    requires StoreInv(st) && Enabled(st, ev)
    ensures StoreInv(Next(st, ev))
  {
    match ev
    case Receive(_, _) => UpdaterKeepsStore(st, ev);
    case PullTrigger(_) => UpdaterKeepsStore(st, ev);
    case UpdateSub(p, s) => UpdateSubKeepsStore(st, p, s);
    case FinishUpdate(p) => FinishUpdateKeepsStore(st, p);
    case Clean(p) => CleanKeepsStore(st, p);
    case Swap(p, reference) =>
      if st.applying.wanted[p] != {} && Live(st, p) {
        SwapSubsKeepsStore(st, p, reference);
      } else {
        SwapOthersKeepsStore(st, p, reference);
      }
    case _ => SameStore(st, Next(st, ev));
  }

  lemma SameStore(st: State, st': State)
    requires StoreInv(st)
    requires st'.subs == st.subs && st'.targets == st.targets && st'.updaters == st.updaters
    requires st'.history == st.history
    ensures StoreInv(st')
  {
    forall p, s | Live(st', p) && s in st'.subs[p] ensures Stored(st', s, p) == Expected(st', p, s) {
      assert Live(st, p) && Stored(st, s, p) == Expected(st, p, s);
    }
    forall s, p | (s, p) in st'.targets ensures Live(st', p) && s in st'.subs[p] {
      assert (s, p) in st.targets;
    }
  }

  // ---------------------------------------------------------------- who is live

  type Updaters = map<Prov, Updater>

  predicate Runs(us: Updaters, p: Prov) {
    p in us && us[p] != Gone
  }

  /** Outside ApplyConfig exactly the providers run; inside, also those just started and those cancelled but not yet
      cleaned. */
  ghost predicate RosterOf(providers: set<Prov>, cancelled: set<Prov>, us: Updaters, applying: Applying) {
    match applying
    case NotApplying => cancelled == {} && forall p :: Runs(us, p) <==> p in providers
    case Swapping(todo, wanted) =>
      && providers <= wanted.Keys && todo <= wanted.Keys
      && (forall p | p in cancelled :: p in wanted && p !in todo && wanted[p] == {} && p in us)
      && (forall p | p in wanted && p !in todo :: if wanted[p] == {} then p in cancelled else Runs(us, p))
      && (forall p | p in todo :: if p in providers then Runs(us, p) else p !in us && wanted[p] != {})
      && (forall p | Runs(us, p) :: p in wanted)
    case WaitingForCleaners(wanted) =>
      && providers == Kept(wanted)
      && (forall p | p in cancelled :: p in us && p !in providers)
      && (forall p | p in providers :: Runs(us, p))
      && (forall p | Runs(us, p) :: p in providers || p in cancelled)
  }

  ghost predicate Known(us: Updaters, subs: map<Prov, set<Sub>>, history: map<Prov, History>) {
    forall p | p in us :: p in subs && p in history
  }

  ghost predicate Roster(st: State) {
    && Known(st.updaters, st.subs, st.history)
    && (st.sender.Reading? ==> st.applying == NotApplying && st.sender.snap.Keys <= st.providers)
    && RosterOf(st.providers, st.cancelled, st.updaters, st.applying)
  }

  /** An updater that changes what it does, but neither starts nor ends. */
  lemma SameRunning(providers: set<Prov>, cancelled: set<Prov>, us: Updaters, applying: Applying, q: Prov, u: Updater)
    requires RosterOf(providers, cancelled, us, applying) && Runs(us, q) && u != Gone
    ensures RosterOf(providers, cancelled, us[q := u], applying)
  {
    assert forall p :: Runs(us[q := u], p) <==> Runs(us, p);
  }

  lemma CleanKeepsRoster(providers: set<Prov>, cancelled: set<Prov>, us: Updaters, applying: Applying, q: Prov)
    requires RosterOf(providers, cancelled, us, applying) && q in cancelled && q in us
    ensures RosterOf(providers, cancelled, us[q := Gone], applying)
  {
    var us' := us[q := Gone];
    forall p: Prov ensures Runs(us', p) <==> Runs(us, p) && p != q {
    }
  }

  lemma CancelKeepsRoster(providers: set<Prov>, cancelled: set<Prov>, us: Updaters, todo: set<Prov>,
                          wanted: map<Prov, set<Sub>>, q: Prov)
    requires RosterOf(providers, cancelled, us, Swapping(todo, wanted)) && q in todo && wanted[q] == {}
    ensures RosterOf(providers, cancelled + {q}, us, Swapping(todo - {q}, wanted))
  {
  }

  lemma StayKeepsRoster(providers: set<Prov>, cancelled: set<Prov>, us: Updaters, todo: set<Prov>,
                        wanted: map<Prov, set<Sub>>, q: Prov)
    requires RosterOf(providers, cancelled, us, Swapping(todo, wanted)) && q in todo && wanted[q] != {} && Runs(us, q)
    ensures RosterOf(providers, cancelled, us, Swapping(todo - {q}, wanted))
  {
  }

  lemma StartKeepsRoster(providers: set<Prov>, cancelled: set<Prov>, us: Updaters, todo: set<Prov>,
                         wanted: map<Prov, set<Sub>>, q: Prov)
    requires RosterOf(providers, cancelled, us, Swapping(todo, wanted)) && q in todo && wanted[q] != {} && q !in us
    ensures RosterOf(providers, cancelled, us[q := Idle], Swapping(todo - {q}, wanted))
  {
    forall p: Prov ensures Runs(us[q := Idle], p) <==> Runs(us, p) || p == q {
    }
  }

  lemma SwapKeepsRoster(st: State, q: Prov, reference: Sub)
    requires Roster(st) && Enabled(st, Swap(q, reference))
    ensures Roster(Next(st, Swap(q, reference)))
  {
    var todo, wanted := st.applying.todo, st.applying.wanted;
    if wanted[q] == {} {
      CancelKeepsRoster(st.providers, st.cancelled, st.updaters, todo, wanted, q);
    } else if Live(st, q) {
      StayKeepsRoster(st.providers, st.cancelled, st.updaters, todo, wanted, q);
    } else {
      StartKeepsRoster(st.providers, st.cancelled, st.updaters, todo, wanted, q);
    }
  }

  lemma ApplyKeepsRoster(st: State, ev: Event)
    requires Roster(st) && Enabled(st, ev) && (ev.BeginApply? || ev.FinishSwaps? || ev.EndApply?)
    ensures Roster(Next(st, ev))
  {
  }

  lemma SenderKeepsRoster(st: State, ev: Event)
    requires Roster(st) && Enabled(st, ev) && (ev.Take? || ev.BeginRead? || ev.Read? || ev.EndRead? || ev.Send?)
    ensures Roster(Next(st, ev))
  {
  }

  lemma StepKeepsRoster(st: State, ev: Event)
    requires Roster(st) && Enabled(st, ev)
    ensures Roster(Next(st, ev))
  {
    match ev
    case Clean(p) => CleanKeepsRoster(st.providers, st.cancelled, st.updaters, st.applying, p);
    case Swap(p, reference) => SwapKeepsRoster(st, p, reference);
    case BeginApply(_) => ApplyKeepsRoster(st, ev);
    case FinishSwaps => ApplyKeepsRoster(st, ev);
    case EndApply => ApplyKeepsRoster(st, ev);
    case Receive(_, _) =>
      SameRunning(st.providers, st.cancelled, st.updaters, st.applying, ev.p, Next(st, ev).updaters[ev.p]);
    case UpdateSub(_, _) =>
      SameRunning(st.providers, st.cancelled, st.updaters, st.applying, ev.p, Next(st, ev).updaters[ev.p]);
    case FinishUpdate(_) =>
      SameRunning(st.providers, st.cancelled, st.updaters, st.applying, ev.p, Next(st, ev).updaters[ev.p]);
    case PullTrigger(_) =>
      SameRunning(st.providers, st.cancelled, st.updaters, st.applying, ev.p, Next(st, ev).updaters[ev.p]);
    case _ => SenderKeepsRoster(st, ev);
  }

  // ---------------------------------------------------------------- no lost update

  /** The provider's updater is at work and has yet to pull the trigger. */
  predicate AtWork(st: State, p: Prov) {
    p in st.updaters && (st.updaters[p].Updating? || st.updaters[p].Triggering?)
  }

  /** The snapshot is up to date for these providers, but for those at work. */
  ghost predicate UpToDate(st: State, snap: Snapshot, ps: set<Prov>) {
    snap.Keys == ps && forall p | p in ps :: AtWork(st, p) || (p in st.subs && snap[p] == Current(st, p))
  }

  /** The trigger is set, or the sender's part is up to date as far as it has got. */
  ghost predicate Heard(st: State) {
    st.trigger ||
    match st.sender
    case Ticking => UpToDate(st, st.delivered, st.providers)
    case Taken => true
    case Reading(snap) => UpToDate(st, snap, snap.Keys)
    case Sending(snap) => UpToDate(st, snap, st.providers)
  }

  /** While a configuration is applied, the sender cannot read; afterwards it is bound to. */
  ghost predicate TriggerInv(st: State) {
    match st.applying
    case NotApplying => Heard(st)
    case Swapping(_, wanted) => wanted == map[] ==> Heard(st)
    case WaitingForCleaners(wanted) => if wanted == map[] then Heard(st) else st.trigger || st.sender == Taken
  }

  /** Steps that leave the snapshot's providers alone. */
  lemma SameHeard(st: State, st': State)
    requires Heard(st) && st'.providers == st.providers && st'.sender == st.sender && st'.delivered == st.delivered
    requires st.trigger ==> st'.trigger
    requires forall p | p in st.providers && !AtWork(st', p) :: !AtWork(st, p) && p in st'.subs
    requires forall p | p in st.providers && !AtWork(st', p) && p in st.subs :: Current(st', p) == Current(st, p)
    requires st.sender.Reading? ==> st.sender.snap.Keys <= st.providers
    ensures Heard(st')
  {
  }

  lemma UpdaterKeepsHeard(st: State, ev: Event)
    requires Roster(st) && Heard(st) && Enabled(st, ev)
    requires (ev.Receive? || ev.UpdateSub? || ev.FinishUpdate? || ev.PullTrigger?)
    ensures Heard(Next(st, ev))
  {
    var st' := Next(st, ev);
    if !st'.trigger {
      forall p | p in st.providers && !AtWork(st', p) && p in st.subs ensures Current(st', p) == Current(st, p) {
        assert p != ev.p;
      }
      SameHeard(st, st');
    }
  }

  lemma SenderKeepsHeard(st: State, ev: Event)
    requires Roster(st) && Heard(st) && Enabled(st, ev)
    requires (ev.Take? || ev.BeginRead? || ev.Read? || ev.EndRead? || ev.Send?)
    ensures Heard(Next(st, ev))
  {
  }

  lemma CleanKeepsHeard(st: State, p: Prov)
    requires Roster(st) && Heard(st) && Enabled(st, Clean(p)) && st.applying.WaitingForCleaners?
    ensures Heard(Next(st, Clean(p)))
  {
    var st' := Next(st, Clean(p));
    forall q | q in st.providers && !AtWork(st', q) && q in st.subs ensures Current(st', q) == Current(st, q) {
      assert q != p;
    }
    SameHeard(st, st');
  }

  lemma UpdaterKeepsTrigger(st: State, ev: Event)
    requires Roster(st) && TriggerInv(st) && Enabled(st, ev)
    requires (ev.Receive? || ev.UpdateSub? || ev.FinishUpdate? || ev.PullTrigger?)
    ensures TriggerInv(Next(st, ev))
  {
    if Heard(st) { UpdaterKeepsHeard(st, ev); }
  }

  lemma ApplyKeepsTrigger(st: State, ev: Event)
    requires Roster(st) && TriggerInv(st) && Enabled(st, ev)
    requires (ev.BeginApply? || ev.Swap? || ev.FinishSwaps? || ev.EndApply?)
    ensures TriggerInv(Next(st, ev))
  {
    if ev.FinishSwaps? && st.applying.wanted == map[] { SameHeard(st, Next(st, ev)); }
  }

  lemma StepKeepsTrigger(st: State, ev: Event)
    requires Roster(st) && TriggerInv(st) && Enabled(st, ev)
    ensures TriggerInv(Next(st, ev))
  {
    match ev
    case Receive(_, _) => UpdaterKeepsTrigger(st, ev);
    case UpdateSub(_, _) => UpdaterKeepsTrigger(st, ev);
    case FinishUpdate(_) => UpdaterKeepsTrigger(st, ev);
    case PullTrigger(_) => UpdaterKeepsTrigger(st, ev);
    case Clean(p) => if Heard(st) && st.applying.WaitingForCleaners? { CleanKeepsHeard(st, p); }
    case BeginApply(_) => ApplyKeepsTrigger(st, ev);
    case Swap(_, _) => ApplyKeepsTrigger(st, ev);
    case FinishSwaps => ApplyKeepsTrigger(st, ev);
    case EndApply => ApplyKeepsTrigger(st, ev);
    case _ => if Heard(st) { SenderKeepsHeard(st, ev); }
  }

  // ---------------------------------------------------------------- every reachable state

  ghost predicate Inv(st: State) {
    StoreInv(st) && Roster(st) && TriggerInv(st)
  }

  ghost predicate Run(sts: seq<State>, evs: seq<Event>) {
    && |sts| == |evs| + 1 && sts[0] == INIT
    && forall n | 0 <= n < |evs| :: Enabled(sts[n], evs[n]) && sts[n + 1] == Next(sts[n], evs[n])
  }

  lemma {:induction false} RunKeepsInv(sts: seq<State>, evs: seq<Event>, n: nat)
    requires Run(sts, evs) && n <= |evs|
    ensures Inv(sts[n])
  {
    if n > 0 {
      RunKeepsInv(sts, evs, n - 1);
      StepKeepsStore(sts[n - 1], evs[n - 1]);
      StepKeepsRoster(sts[n - 1], evs[n - 1]);
      StepKeepsTrigger(sts[n - 1], evs[n - 1]);
    }
  }

  /** Late subscribers are indistinguishable from early ones: in every reachable state each subscription of a
      provider that is not in the middle of an update stores the fold of all its updates. */
  lemma LateSubscribers(sts: seq<State>, evs: seq<Event>, n: nat, p: Prov, s: Sub)
    requires Run(sts, evs) && n <= |evs|
    requires Live(sts[n], p) && !sts[n].updaters[p].Updating? && s in sts[n].subs[p]
    ensures Stored(sts[n], s, p) == Fold(sts[n].history[p])
  {
    RunKeepsInv(sts, evs, n);
  }

  /** When ApplyConfig has returned, every stored key belongs to a provider and a subscription that are still there. */
  lemma KeysAreCleaned(sts: seq<State>, evs: seq<Event>, n: nat, p: Prov, s: Sub)
    requires Run(sts, evs) && n <= |evs| && sts[n].applying == NotApplying
    ensures (s, p) in sts[n].targets ==> p in sts[n].providers && p in sts[n].subs && s in sts[n].subs[p]
  {
    RunKeepsInv(sts, evs, n);
    if (s, p) in sts[n].targets { assert Live(sts[n], p) && Runs(sts[n].updaters, p); }
  }

  /** Nobody is in the middle of something. */
  ghost predicate Quiescent(st: State) {
    st.applying == NotApplying && st.sender == Ticking && forall p | p in st.updaters :: !AtWork(st, p)
  }

  /** No lost update: when nobody is in the middle of something and what would be sent is not what was last
      delivered, the trigger is set. */
  lemma NoLostUpdate(sts: seq<State>, evs: seq<Event>, n: nat)
    requires Run(sts, evs) && n <= |evs| && Quiescent(sts[n])
    requires !(sts[n].delivered.Keys == sts[n].providers &&
               forall p | p in sts[n].providers :: p in sts[n].subs && sts[n].delivered[p] == Current(sts[n], p))
    ensures sts[n].trigger
  {
    RunKeepsInv(sts, evs, n);
  }

  // ---------------------------------------------------------------- nobody gets stuck

  /** The steps lead from one state to the other. */
  ghost predicate Leads(st: State, evs: seq<Event>, st': State)
    decreases |evs|
  {
    if evs == [] then st == st' else Enabled(st, evs[0]) && Leads(Next(st, evs[0]), evs[1..], st')
  }

  lemma LeadsFirst(st: State, ev: Event, evs: seq<Event>, st': State)
    requires Enabled(st, ev) && Leads(Next(st, ev), evs, st')
    ensures Leads(st, [ev] + evs, st')
  {
    assert ([ev] + evs)[1..] == evs;
  }

  lemma {:induction false} LeadsOn(st: State, evs: seq<Event>, mid: State, evs': seq<Event>, st': State)
    requires Leads(st, evs, mid) && Leads(mid, evs', st')
    ensures Leads(st, evs + evs', st')
    decreases |evs|
  {
    if evs == [] {
      assert evs + evs' == evs';
    } else {
      LeadsOn(Next(st, evs[0]), evs[1..], mid, evs', st');
      assert (evs + evs')[1..] == evs[1..] + evs';
    }
  }

  lemma LeadsStep(st: State, ev: Event)
    requires Enabled(st, ev)
    ensures Leads(st, [ev], Next(st, ev))
  {
    assert [ev][1..] == [];
    assert Leads(Next(st, ev), [], Next(st, ev));
  }

  /** What allGroups would send. */
  function AllGroups(st: State): Snapshot
    requires forall p | p in st.providers :: p in st.subs
  {
    map p | p in st.providers :: Current(st, p)
  }

  lemma ReadStep(st: State, p: Prov)
    requires st.sender.Reading? && p in st.providers && p !in st.sender.snap && p in st.subs
    ensures Enabled(st, Read(p)) && Next(st, Read(p)) == st.(sender := Reading(st.sender.snap[p := Current(st, p)]))
  {
  }

  lemma {:induction false} ReadsAll(st: State, all: Snapshot, todo: set<Prov>) returns (evs: seq<Event>)
    requires (forall p | p in st.providers :: p in st.subs) && st.sender.Reading? && todo <= st.providers
    requires all.Keys == st.providers && forall p | p in st.providers :: all[p] == Current(st, p)
    requires st.sender.snap.Keys == st.providers - todo
    requires forall p | p in st.sender.snap :: st.sender.snap[p] == all[p]
    ensures Leads(st, evs, st.(sender := Reading(all)))
    decreases |todo|
  {
    if todo == {} {
      evs := [];
      assert st.sender.snap == all;
    } else {
      var p :| p in todo;
      ReadStep(st, p);
      evs := ReadsAll(st.(sender := Reading(st.sender.snap[p := Current(st, p)])), all, todo - {p});
      LeadsFirst(st, Read(p), evs, st.(sender := Reading(all)));
      evs := [Read(p)] + evs;
    }
  }

  /** Once the trigger is set, the sender can deliver what is current, unless a configuration is being applied. */
  lemma CanDeliver(st: State) returns (evs: seq<Event>)
    requires Inv(st) && st.applying == NotApplying && st.sender == Ticking && st.trigger
    ensures (forall p | p in st.providers :: p in st.subs)
    ensures Leads(st, evs, st.(trigger := false, delivered := AllGroups(st)))
  {
    var all := AllGroups(st);
    var reading, done := st.(trigger := false, sender := Reading(map[])), st.(trigger := false, delivered := all);
    TakesTrigger(st);
    var rs := ReadsAll(reading, all, st.providers);
    SendsAll(reading.(sender := Reading(all)), all);
    LeadsOn(reading, rs, reading.(sender := Reading(all)), [EndRead] + [Send(true)], done);
    evs := rs + ([EndRead] + [Send(true)]);
    LeadsOn(st, [Take] + [BeginRead], reading, evs, done);
    evs := [Take] + [BeginRead] + evs;
  }

  lemma TakesTrigger(st: State)
    requires st.sender == Ticking && st.trigger && st.applying == NotApplying
    ensures Leads(st, [Take] + [BeginRead], st.(trigger := false, sender := Reading(map[])))
  {
    var taken := Next(st, Take);
    LeadsStep(taken, BeginRead);
    LeadsFirst(st, Take, [BeginRead], st.(trigger := false, sender := Reading(map[])));
  }

  lemma SendsAll(st: State, all: Snapshot)
    requires st.sender == Reading(all) && all.Keys == st.providers
    ensures Leads(st, [EndRead] + [Send(true)], st.(sender := Ticking, delivered := all))
  {
    var sending := Next(st, EndRead);
    LeadsStep(sending, Send(true));
    LeadsFirst(st, EndRead, [Send(true)], st.(sender := Ticking, delivered := all));
  }

  lemma UpdateStep(st: State, p: Prov, s: Sub)
    requires Live(st, p) && st.updaters[p].Updating? && s in st.subs[p] && s !in st.updaters[p].done
    ensures Enabled(st, UpdateSub(p, s))
    ensures var st', u := Next(st, UpdateSub(p, s)), st.updaters[p];
            st' == st.(targets := st'.targets, updaters := st.updaters[p := u.(done := u.done + {s})])
  {
  }

  lemma {:induction false} UpdatesAll(st: State, p: Prov, todo: set<Sub>) returns (evs: seq<Event>, st': State)
    requires Live(st, p) && st.updaters[p].Updating? && todo <= st.subs[p] && st.updaters[p].done == st.subs[p] - todo
    ensures Leads(st, evs, st')
    ensures st' == st.(targets := st'.targets, updaters := st.updaters[p := Updating(st.updaters[p].tgs, st.subs[p])])
    decreases |todo|
  {
    if todo == {} {
      evs, st' := [], st;
      assert st.updaters == st.updaters[p := Updating(st.updaters[p].tgs, st.subs[p])];
    } else {
      var s :| s in todo;
      UpdateStep(st, p, s);
      evs, st' := UpdatesAll(Next(st, UpdateSub(p, s)), p, todo - {s});
      LeadsFirst(st, UpdateSub(p, s), evs, st');
      evs := [UpdateSub(p, s)] + evs;
    }
  }

  /** A provider that waits can take any update to its end, whatever the others do: it becomes part of its history
      and the trigger is set. */
  lemma CanUpdate(st: State, p: Prov, tgs: Update) returns (evs: seq<Event>, st': State)
    requires Live(st, p) && st.updaters[p] == Idle
    ensures Leads(st, evs, st')
    ensures st' == st.(targets := st'.targets, trigger := true, history := st.history[p := Then(st.history[p], tgs)])
  {
    var received := Next(st, Receive(p, tgs));
    var updates, updated := UpdatesAll(received, p, st.subs[p]);
    var finished := Next(updated, FinishUpdate(p));
    st' := Next(finished, PullTrigger(p));
    LeadsStep(finished, PullTrigger(p));
    LeadsFirst(updated, FinishUpdate(p), [PullTrigger(p)], st');
    LeadsOn(received, updates, updated, [FinishUpdate(p)] + [PullTrigger(p)], st');
    evs := updates + ([FinishUpdate(p)] + [PullTrigger(p)]);
    LeadsFirst(st, Receive(p, tgs), evs, st');
    evs := [Receive(p, tgs)] + evs;
    assert st'.updaters == st.updaters;
  }

  // ---------------------------------------------------------------- ApplyConfig comes to its end

  /** Every provider that runs has a subscription. */
  ghost predicate Subscribed(st: State) {
    forall p | Live(st, p) :: st.subs[p] != {}
  }

  lemma StepKeepsSubscribed(st: State, ev: Event)
    requires Subscribed(st) && Enabled(st, ev)
    ensures Subscribed(Next(st, ev))
  {
    forall p | Live(Next(st, ev), p) ensures Next(st, ev).subs[p] != {} {
      if Live(st, p) { assert st.subs[p] != {}; }
    }
  }

  lemma {:induction false} RunKeepsSubscribed(sts: seq<State>, evs: seq<Event>, n: nat)
    requires Run(sts, evs) && n <= |evs|
    ensures Subscribed(sts[n])
  {
    if n > 0 {
      RunKeepsSubscribed(sts, evs, n - 1);
      StepKeepsSubscribed(sts[n - 1], evs[n - 1]);
    }
  }

  ghost predicate Waiting(st: State) {
    forall p | p in st.updaters :: st.updaters[p] == Idle || st.updaters[p] == Gone
  }

  /** What the swaps have done: the providers that are not still to do have the subscriptions they are to have. */
  ghost predicate SwappedBut(st: State, todo: set<Prov>, wanted: map<Prov, set<Sub>>) {
    && st.applying == Swapping(todo, wanted) && Roster(st) && Subscribed(st) && Waiting(st)
    && forall p | p in wanted && p !in todo && wanted[p] != {} :: p in st.subs && st.subs[p] == wanted[p]
  }

  lemma SwapStep(st: State, todo: set<Prov>, wanted: map<Prov, set<Sub>>, p: Prov) returns (reference: Sub)
    requires SwappedBut(st, todo, wanted) && p in todo && p in wanted
    ensures Enabled(st, Swap(p, reference))
    ensures SwappedBut(Next(st, Swap(p, reference)), todo - {p}, wanted)
    ensures Next(st, Swap(p, reference)).sender == st.sender
  {
    reference := "";
    if Live(st, p) { reference :| reference in st.subs[p]; }
    StepKeepsRoster(st, Swap(p, reference));
    StepKeepsSubscribed(st, Swap(p, reference));
  }

  lemma {:induction false} SwapsAll(st: State, todo: set<Prov>, wanted: map<Prov, set<Sub>>)
    returns (evs: seq<Event>, st': State)
    requires SwappedBut(st, todo, wanted) && todo <= wanted.Keys
    ensures Leads(st, evs, st') && SwappedBut(st', {}, wanted) && st'.sender == st.sender
    decreases |todo|
  {
    if todo == {} {
      evs, st' := [], st;
    } else {
      var p :| p in todo;
      var reference := SwapStep(st, todo, wanted, p);
      evs, st' := SwapsAll(Next(st, Swap(p, reference)), todo - {p}, wanted);
      LeadsFirst(st, Swap(p, reference), evs, st');
      evs := [Swap(p, reference)] + evs;
    }
  }

  /** Of the cancelled providers only these are still to be cleaned. */
  ghost predicate CleanedBut(st: State, todo: set<Prov>, wanted: map<Prov, set<Sub>>) {
    && st.applying == WaitingForCleaners(wanted) && Roster(st) && Waiting(st) && todo <= st.cancelled
    && (forall p | p in st.cancelled && p !in todo :: p in st.updaters && st.updaters[p] == Gone)
    && forall p | p in st.providers :: p in wanted && p in st.subs && st.subs[p] == wanted[p]
  }

  lemma CleanStep(st: State, todo: set<Prov>, wanted: map<Prov, set<Sub>>, p: Prov)
    requires CleanedBut(st, todo, wanted) && p in todo && st.updaters[p] != Gone
    ensures Enabled(st, Clean(p)) && CleanedBut(Next(st, Clean(p)), todo - {p}, wanted)
  {
    StepKeepsRoster(st, Clean(p));
  }

  lemma {:induction false} CleansAll(st: State, todo: set<Prov>, wanted: map<Prov, set<Sub>>)
    returns (evs: seq<Event>, st': State)
    requires CleanedBut(st, todo, wanted)
    ensures Leads(st, evs, st') && CleanedBut(st', {}, wanted) && st'.providers == st.providers
    ensures st'.trigger == st.trigger
    decreases |todo|
  {
    if todo == {} {
      evs, st' := [], st;
    } else {
      var p :| p in todo;
      if st.updaters[p] == Gone {
        evs, st' := CleansAll(st, todo - {p}, wanted);
      } else {
        CleanStep(st, todo, wanted, p);
        evs, st' := CleansAll(Next(st, Clean(p)), todo - {p}, wanted);
        LeadsFirst(st, Clean(p), evs, st');
        evs := [Clean(p)] + evs;
      }
    }
  }

  /** From every quiescent state a new configuration can be applied to its end: the providers and their subscriptions
      are then those that are wanted, and the sender is told. */
  lemma CanApply(st: State, wanted: map<Prov, set<Sub>>) returns (evs: seq<Event>, st': State)
    requires Inv(st) && Subscribed(st) && Quiescent(st) && st.providers <= wanted.Keys && wanted != map[]
    requires forall p | p in wanted && p !in st.providers :: wanted[p] != {} && p !in st.updaters
    ensures Leads(st, evs, st') && st'.applying == NotApplying && st'.trigger
    ensures forall p :: p in st'.providers <==> p in wanted && wanted[p] != {}
    ensures forall p | p in st'.providers :: p in st'.subs && st'.subs[p] == wanted[p]
  {
    var begun := Next(st, BeginApply(wanted));
    StepKeepsRoster(st, BeginApply(wanted));
    assert SwappedBut(begun, wanted.Keys, wanted) by { QuiescentWaits(st); }
    var swaps, swapped := SwapsAll(begun, wanted.Keys, wanted);
    var finished := Next(swapped, FinishSwaps);
    StepKeepsRoster(swapped, FinishSwaps);
    assert CleanedBut(finished, finished.cancelled, wanted);
    var cleans, cleaned := CleansAll(finished, finished.cancelled, wanted);
    st' := Next(cleaned, EndApply);
    LeadsStep(cleaned, EndApply);
    LeadsOn(finished, cleans, cleaned, [EndApply], st');
    LeadsFirst(swapped, FinishSwaps, cleans + [EndApply], st');
    LeadsOn(begun, swaps, swapped, [FinishSwaps] + (cleans + [EndApply]), st');
    evs := swaps + ([FinishSwaps] + (cleans + [EndApply]));
    LeadsFirst(st, BeginApply(wanted), evs, st');
    evs := [BeginApply(wanted)] + evs;
  }

  lemma QuiescentWaits(st: State)
    requires Quiescent(st)
    ensures Waiting(st)
  {
    forall p | p in st.updaters ensures st.updaters[p] == Idle || st.updaters[p] == Gone {
      assert !AtWork(st, p);
    }
  }
}
