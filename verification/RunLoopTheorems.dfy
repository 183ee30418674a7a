/** The main results about the run loop: what holds in every reachable state, and what a call
of CFRunLoopRunInMode leaves behind.
*/
module RunLoopTheorems {
  import opened RunLoop
  import opened RunLoopHistory
  import opened RunLoopSignals
  import opened RunLoopObservers
  import opened RunLoopOutcomes

  // ---- Registries ----

  predicate NoDup(s: seq<Id>) {
    forall i, k :: 0 <= i < k < |s| ==> s[i] != s[k]
  }

  ghost predicate RegistriesOk(modes: Modes) {
    forall m, k :: m in modes ==> NoDup(modes[m].Get(k))
  }

  lemma {:induction false} WithoutNoDup(s: seq<Id>, x: Id)
    requires NoDup(s)
    ensures NoDup(Without(s, x))
  {
    if s != [] {
      var rest := s[1..];
      assert forall k :: 0 <= k < |rest| ==> rest[k] == s[k + 1];
      WithoutNoDup(rest, x);
      assert s[0] !in rest;
      assert s[0] !in Without(rest, x);
    }
  }

  /** Adding registers the item in every target mode, once, and disturbs nothing else. */
  lemma AddRegisters(modes: Modes, targets: set<string>, k: Kind, x: Id)
    requires RegistriesOk(modes)
    ensures var r := AddTo(modes, targets, k, x);
            && RegistriesOk(r)
            && (forall m, j, y :: y in Registered(r, m, j) <==>
                  y in Registered(modes, m, j) || (m in targets && j == k && y == x))
  {
    var r := AddTo(modes, targets, k, x);
    forall m, j | m in r ensures NoDup(r[m].Get(j)) {
      assert m in modes ==> NoDup(modes[m].Get(j));
    }
  }

  /** Removing unregisters the item from every target mode and disturbs nothing else. */
  lemma RemoveUnregisters(modes: Modes, targets: set<string>, k: Kind, x: Id)
    requires RegistriesOk(modes)
    ensures var r := RemoveFrom(modes, targets, k, x);
            && RegistriesOk(r)
            && (forall m, j, y :: y in Registered(r, m, j) <==>
                  y in Registered(modes, m, j) && !(m in targets && j == k && y == x))
  {
    var r := RemoveFrom(modes, targets, k, x);
    forall m, j | m in r ensures NoDup(r[m].Get(j)) {
      assert NoDup(modes[m].Get(j));
      WithoutNoDup(modes[m].Get(j), x);
    }
  }

  lemma KeepRegistries(s: State, o: Objects, a: Action)
    requires Enabled(s, a) && RegistriesOk(s.modes)
    ensures RegistriesOk(Next(s, o, a).modes)
  {
    hide AddTo, RemoveFrom, Advance, RegistriesOk;
    match a
    case ClientOp(op) =>
      match op {
        case Add(k, x, m) => AddRegisters(s.modes, Targets(s.commonModes, m), k, x);
        case Remove(k, x, m) => RemoveUnregisters(s.modes, Targets(s.commonModes, m), k, x);
        case AddCommonMode(m) => EnsureRegistries(s.modes, m);
        case _ =>
      }
    case Run(m, once) => EnsureRegistries(s.modes, m);
    case CallbackReturns =>
    case Tick(now) => TickModes(s, o, now);
  }

  /** The run itself registers and removes nothing. */
  lemma TickModes(s: State, o: Objects, now: real)
    requires !s.ClientActive()
    ensures Advance(s, o, now).modes == s.modes
  {
    hide Visit, NextPoint, Finish;
    if s.Top().status == RunLoop.Done {
      FinishModes(s, o);
    } else if s.Top().todo != [] {
      VisitModes(s, o);
    } else {
      NextPointModes(s, now);
    }
  }

  lemma FinishModes(s: State, o: Objects)
    requires s.frames != []
    ensures Finish(s, o).modes == s.modes
  {
    hide Registered;
  }

  lemma VisitModes(s: State, o: Objects)
    requires s.frames != [] && s.Top().todo != []
    ensures Visit(s, o).modes == s.modes
  {
    hide Overlaps;
  }

  lemma NextPointModes(s: State, now: real)
    requires s.frames != []
    ensures NextPoint(s, now).modes == s.modes
  {
    hide Registered;
  }

  lemma EnsureRegistries(modes: Modes, m: string)
    requires RegistriesOk(modes)
    ensures RegistriesOk(EnsureMode(modes, m))
  {
  }

  // ---- All invariants ----

  ghost predicate Invariant(s: State) {
    StackOk(s) && Nested(s) && Histories(s) && Conserved(s) && Passes(s) && RegistriesOk(s.modes)
  }

  lemma KeepPasses(s: State, o: Objects, a: Action)
    requires Enabled(s, a) && Passes(s)
    ensures Passes(Next(s, o, a))
  {
    hide Next, Enabled, Accounts, PassOk, LogJustified, ClientStep, TopStep, PushStep, PopStep, Justified;
    var s' := Next(s, o, a);
    Shapes(s, o, a);
    StepAccounts(s, o, a);
    LogGrows(s, s');
    forall f | f in s.frames ensures PassOk(s'.log, s'.signaled, f) {
      PassStable(s, s', f);
    }
    if a.CallbackReturns? || a.Tick? {
      TopActive(s, a);
      TopPass(s, o, a);
      SplitTop(s, s');
    } else {
      ClientQuiet(s, s');
      SplitPush(s, s');
    }
    LogStable(s.log, s'.log);
  }

  lemma LogGrows(s: State, s': State)
    requires Accounts(s, s')
    ensures s.log <= s'.log && |s'.log| <= |s.log| + 1
  {
  }

  lemma SplitTop(s: State, s': State)
    requires s.frames != [] && (TopStep(s, s') || PopStep(s, s'))
    ensures forall f :: f in s'.frames ==> f in s.frames || (TopStep(s, s') && f == s'.Top())
  {
    if TopStep(s, s') {
      assert s'.frames == s'.Below() + [s'.Top()];
    }
  }

  lemma SplitPush(s: State, s': State)
    requires ClientStep(s, s') || PushStep(s, s')
    ensures forall f :: f in s'.frames ==> f in s.frames || (f.point == Entry && PassOk(s'.log, s'.signaled, f))
  {
    if PushStep(s, s') {
      assert s'.frames == s'.Below() + [s'.Top()];
    }
  }

  lemma ClientQuiet(s: State, s': State)
    requires ClientStep(s, s') || PushStep(s, s')
    ensures |s'.log| > |s.log| ==> Justified(s'.log, |s.log|)
  {
  }

  lemma TopPass(s: State, o: Objects, a: Action)
    requires Enabled(s, a) && (a.CallbackReturns? || a.Tick?)
    requires s.frames != [] && PassOk(s.log, s.signaled, s.Top())
    ensures var s' := Next(s, o, a);
            && (TopStep(s, s') ==> PassOk(s'.log, s'.signaled, s'.Top()))
            && (|s'.log| > |s.log| ==> s.log <= s'.log && Justified(s'.log, |s.log|))
  {
    hide PassOk, Justified, Finish, Visit, NextPoint, TopStep;
    if a.CallbackReturns? {
      PassSame(s.log, s.signaled, s.Top(), s.Top().(status := Done));
    } else if s.Top().status == Done {
      FinishPass(s, o);
    } else if s.Top().todo != [] {
      VisitPass(s, o);
    } else {
      NextPointPass(s, a.now);
      if s.Top().point == Exit {
        NoTopStep(s, a.now);
      }
    }
  }

  lemma KeepInvariant(s: State, o: Objects, a: Action)
    requires Enabled(s, a) && Invariant(s)
    ensures Invariant(Next(s, o, a))
  {
    hide Next, Enabled, StackOk, Nested, Histories, Conserved, Passes, RegistriesOk, Accounts;
    KeepStack(s, o, a);
    KeepHistories(s, o, a);
    StepAccounts(s, o, a);
    KeepConserved(s, Next(s, o, a));
    KeepPasses(s, o, a);
    KeepRegistries(s, o, a);
  }

  lemma InitialInvariant()
    ensures Invariant(INITIAL)
  {
    forall r: nat ensures Marks(INITIAL.log, r) == [] {
    }
    forall m, k | m in INITIAL.modes ensures NoDup(INITIAL.modes[m].Get(k)) {
      assert INITIAL.modes[m] == EMPTY;
    }
  }

  lemma {:induction false} ExecutionInvariant(tr: seq<State>, o: Objects, i: nat)
    requires Execution(tr, o) && Invariant(tr[0]) && i < |tr|
    ensures Invariant(tr[i])
  {
    hide Invariant, Enabled, Next;
    if i > 0 {
      ExecutionInvariant(tr, o, i - 1);
      assert Steps(tr[i - 1], tr[i - 1 + 1], o);
      var a :| Enabled(tr[i - 1], a) && Next(tr[i - 1], o, a) == tr[i];
      KeepInvariant(tr[i - 1], o, a);
    }
  }

  /** The invariants hold in every reachable state, whatever the callbacks do. */
  lemma ReachableInvariant(s: State, o: Objects)
    requires Reachable(s, o)
    ensures Invariant(s)
  {
    hide Invariant, Steps, Histories;
    var tr :| Execution(tr, o) && tr[0] == INITIAL && tr[|tr| - 1] == s;
    FromInitial(tr, o);
  }

  lemma FromInitial(tr: seq<State>, o: Objects)
    requires Execution(tr, o) && tr[0] == INITIAL
    ensures Invariant(tr[|tr| - 1])
  {
    hide Invariant, Steps;
    InitialInvariant();
    ExecutionInvariant(tr, o, |tr| - 1);
  }

  // ---- A call leaves the stack as it found it ----

  lemma StepKeepsBelow(s: State, s': State, o: Objects, d: nat)
    requires Steps(s, s', o) && |s.frames| > d && |s'.frames| >= d
    ensures s'.frames[..d] == s.frames[..d]
  {
    hide Next, Enabled;
    var a :| Enabled(s, a) && Next(s, o, a) == s';
    Shapes(s, o, a);
    if TopStep(s, s') {
      assert s'.frames[..d] == s'.Below()[..d];
    } else if PushStep(s, s') {
      assert s'.frames[..d] == s'.Below()[..d];
    }
  }

  lemma EntryKeepsBelow(s: State, s': State, o: Objects)
    requires Steps(s, s', o) && |s'.frames| > |s.frames|
    ensures s'.frames[..|s.frames|] == s.frames
  {
    hide Next, Enabled;
    var a :| Enabled(s, a) && Next(s, o, a) == s';
    Shapes(s, o, a);
    TopSameDepth(s, s');
  }

  lemma TopSameDepth(s: State, s': State)
    ensures TopStep(s, s') ==> |s'.frames| == |s.frames|
  {
    if TopStep(s, s') {
      assert |s'.Below()| == |s.Below()|;
    }
  }

  lemma {:induction false} FramesKept(tr: seq<State>, o: Objects, d: nat, i: nat)
    requires Execution(tr, o) && |tr[0].frames| == d && 0 < i < |tr|
    requires forall k :: 0 < k < i ==> |tr[k].frames| > d
    requires i == 1 ==> |tr[1].frames| > d
    requires |tr[i].frames| >= d
    ensures tr[i].frames[..d] == tr[0].frames
  {
    hide Steps;
    assert Steps(tr[i - 1], tr[i - 1 + 1], o);
    if i == 1 {
      EntryKeepsBelow(tr[0], tr[1], o);
    } else {
      FramesKept(tr, o, d, i - 1);
      StepKeepsBelow(tr[i - 1], tr[i], o, d);
    }
  }

  /** From the entry of a run to its return, at any nesting depth and whatever happens inside,
      the runs around it and the mode stack are restored. */
  lemma RunRestoresStack(tr: seq<State>, o: Objects)
    requires Execution(tr, o) && Invariant(tr[0]) && |tr| > 2
    requires forall i :: 0 < i < |tr| - 1 ==> |tr[i].frames| > |tr[0].frames|
    requires |tr[|tr| - 1].frames| == |tr[0].frames|
    ensures tr[|tr| - 1].frames == tr[0].frames && tr[|tr| - 1].modeStack == tr[0].modeStack
  {
    hide Execution, Histories, Conserved, Passes, RegistriesOk, Nested;
    var n := |tr| - 1;
    FramesKept(tr, o, |tr[0].frames|, n);
    assert tr[n].frames[..|tr[0].frames|] == tr[n].frames;
    ExecutionInvariant(tr, o, n);
    assert |tr[n].modeStack| == |tr[0].modeStack|;
    assert forall i :: 0 <= i < |tr[n].modeStack| ==> tr[n].modeStack[i] == tr[0].modeStack[i];
  }

  // ---- Observers of a completed run ----

  /** ENTRY first; EXIT exactly once, last before the return; and every activity in between,
      unless the run returned because it handled a source. */
  ghost predicate Bracketed(m: seq<Mark>) {
    && |m| >= 4
    && m[0] == Fired(Entry) && m[|m| - 1].Left?
    && (forall i :: 0 <= i < |m| ==> (m[i] == Fired(Exit) <==> i == |m| - 2))
    && m[|m| - 1].code in {STOPPED, TIMED_OUT, HANDLED_SOURCE}
    && (m[|m| - 1].code != HANDLED_SOURCE ==> m[..|m| - 1] == PASS + [Fired(Exit)])
  }

  /** A run that is over announced ENTRY first and EXIT exactly once, as its last activity. */
  lemma CompletedRun(s: State, o: Objects, r: nat)
    requires Reachable(s, o) && r < s.nextRun && !Active(s, r)
    ensures Bracketed(Marks(s.log, r))
  {
    hide Reachable, Marks, Active, Conserved, Passes, RegistriesOk;
    ReachableInvariant(s, o);
    assert Complete(Marks(s.log, r));
    var m := Marks(s.log, r);
    var code :| |m| > 0 && m[|m| - 1] == Left(code) && Ended(code, m[..|m| - 1]);
    var body := m[..|m| - 1];
    assert m == body + [Left(code)];
  }

  lemma {:induction false} MarkLogged(log: seq<Event>, r: nat, p: Point)
    requires Fired(p) in Marks(log, r)
    ensures exists j :: 0 <= j < |log| && log[j].Fire? && log[j].run == r && log[j].point == p
  {
    var n := |log| - 1;
    if Fired(p) in Marks(log[..n], r) {
      MarkLogged(log[..n], r, p);
      var j :| 0 <= j < n && log[..n][j].Fire? && log[..n][j].run == r && log[..n][j].point == p;
      assert log[j] == log[..n][j];
    } else {
      assert Fired(p) in MarkOf(log[n], r);
    }
  }

  /** Every source that was pending when a run copied its sources has been dispatched when the
      run is over, unless the run returned HANDLED_SOURCE. `p` is the place of the copy in the log. */
  lemma CopyServed(s: State, o: Objects, r: nat) returns (p: nat)
    requires Reachable(s, o) && r < s.nextRun && !Active(s, r)
    requires Marks(s.log, r) != [] && Marks(s.log, r)[|Marks(s.log, r)| - 1] != Left(HANDLED_SOURCE)
    ensures p < |s.log| && IsSnapshot(s.log[p], r)
    ensures forall x :: x in s.log[p].pending ==> DispatchedIn(s.log, p, |s.log|, x)
  {
    hide Reachable, Marks, Active, Invariant, DispatchedIn;
    CompletedRun(s, o, r);
    var m := Marks(s.log, r);
    assert m[..|m| - 1][2] == Fired(BeforeTimers);
    MarkLogged(s.log, r, BeforeTimers);
    var j :| 0 <= j < |s.log| && s.log[j].Fire? && s.log[j].run == r && s.log[j].point == BeforeTimers;
    ReachableJustified(s, o, j);
    p :| 0 <= p < j && IsSnapshot(s.log[p], r) && forall x :: x in s.log[p].pending ==> DispatchedIn(s.log, p, j, x);
    forall x | x in s.log[p].pending ensures DispatchedIn(s.log, p, |s.log|, x) {
      DispatchedLater(s.log, s.log, p, j, |s.log|, x);
    }
  }

  lemma ReachableJustified(s: State, o: Objects, j: nat)
    requires Reachable(s, o) && j < |s.log|
    ensures Justified(s.log, j)
  {
    hide Reachable, Histories, Conserved, RegistriesOk, Justified;
    ReachableInvariant(s, o);
  }

  /** The copy of the sources is what is registered in the run's own mode at that moment. */
  lemma SnapshotFaithful(s: State, o: Objects, a: Action, r: nat)
    requires Enabled(s, a)
    requires var s' := Next(s, o, a); |s'.log| > |s.log| && IsSnapshot(s'.log[|s.log|], r)
    ensures var e := Next(s, o, a).log[|s.log|];
            && s.frames != [] && s.Top().run == r && e.mode == s.Top().mode
            && e.items == Registered(s.modes, s.Top().mode, Source)
            && e.pending == (set x | x in e.items && x in s.signaled)
  {
    hide Registered, Apply, Enter, Finish, Visit, NextPoint;
    Shapes(s, o, a);
    match a
    case ClientOp(_) =>
    case Run(_, _) =>
    case CallbackReturns =>
    case Tick(now) =>
      if s.Top().status == Done {
        FinishNoSnapshot(s, o);
      } else if s.Top().todo != [] {
        VisitNoSnapshot(s, o);
      } else {
        NextPointSnapshot(s, now, r);
      }
  }

  lemma FinishNoSnapshot(s: State, o: Objects)
    requires s.frames != []
    ensures |Finish(s, o).log| > |s.log| ==> Finish(s, o).log[|s.log|].Fire? && Finish(s, o).log[|s.log|].point == Exit
  {
    hide Registered;
  }

  lemma VisitNoSnapshot(s: State, o: Objects)
    requires s.frames != [] && s.Top().todo != []
    ensures |Visit(s, o).log| > |s.log| ==> !Visit(s, o).log[|s.log|].Fire?
  {
    hide Visit;
    if s.Top().point == Sources {
      VisitAtSources(s, o);
    } else {
      VisitElsewhere(s, o);
    }
  }

  lemma FiringEvent(s: State, f: Frame, p: Point, items: seq<Id>, now: real)
    requires s.frames != []
    ensures StartFiring(s, f, p, items, now).log ==
            s.log + [Fire(f.run, p, f.mode, items, (set x | x in items && x in s.signaled && p == BeforeSources),
                          Registered(s.modes, f.mode, Observer), now)]
  {
    hide Registered;
  }

  lemma NextPointSnapshot(s: State, now: real, r: nat)
    requires s.frames != []
    requires var s' := NextPoint(s, now); |s'.log| > |s.log| && IsSnapshot(s'.log[|s.log|], r)
    ensures var e := NextPoint(s, now).log[|s.log|];
            && s.Top().run == r && e.mode == s.Top().mode
            && e.items == Registered(s.modes, s.Top().mode, Source)
            && e.pending == (set x | x in e.items && x in s.signaled)
  {
    hide Registered, StartFiring;
    var f := s.Top();
    match f.point
    case Entry => FiringEvent(s, f, BeforeSources, Registered(s.modes, f.mode, Source), f.now);
    case Sources => FiringEvent(s, f, BeforeTimers, Registered(s.modes, f.mode, Timer), now);
    case Timers => FiringEvent(s, f, BeforeWaiting, [], f.now);
    case BeforeWaiting => FiringEvent(s, f, AfterWaiting, [], f.now);
    case AfterWaiting => FiringEvent(s, f, Exit, [], f.now);
    case _ =>
  }

  /** Any announcement copies the observers of the run's own mode. */
  lemma FiringFaithful(s: State, o: Objects, a: Action)
    requires Enabled(s, a)
    requires var s' := Next(s, o, a); |s'.log| > |s.log| && s'.log[|s.log|].Fire?
    ensures var e := Next(s, o, a).log[|s.log|];
            && e.observers == Registered(s.modes, e.mode, Observer)
            && if a.Run? then e.mode == a.mode && e.run == s.nextRun
               else s.frames != [] && e.mode == s.Top().mode && e.run == s.Top().run
  {
    hide Registered, Apply, Enter, Finish, Visit, NextPoint;
    Shapes(s, o, a);
    match a
    case ClientOp(_) =>
    case Run(m, once) => EntryFaithful(s, m, once);
    case CallbackReturns =>
    case Tick(now) =>
      if s.Top().status == Done {
        FinishFaithful(s, o);
      } else if s.Top().todo != [] {
        VisitNoSnapshot(s, o);
      } else {
        NextPointFaithful(s, now);
      }
  }

  lemma EntryFaithful(s: State, m: string, once: bool)
    ensures var s' := Enter(s, m, once);
            |s'.log| > |s.log| && s'.log[|s.log|].Fire? ==>
              var e := s'.log[|s.log|]; e.observers == Registered(s.modes, m, Observer) && e.mode == m && e.run == s.nextRun
  {
  }

  /** The event is run `f`'s, with the observers registered in its mode. */
  predicate Faithful(s: State, f: Frame, e: Event) {
    e.Fire? ==> e.observers == Registered(s.modes, f.mode, Observer) && e.mode == f.mode && e.run == f.run
  }

  lemma FinishFaithful(s: State, o: Objects)
    requires s.frames != []
    ensures |Finish(s, o).log| > |s.log| ==> Faithful(s, s.Top(), Finish(s, o).log[|s.log|])
  {
    hide Registered, StartFiring;
    var f := s.Top();
    var g := f.(result := HANDLED_SOURCE);
    FiringEvent(s, g, Exit, [], f.now);
    FiringEvent(Rearmed(s, f, o.interval(f.current)), g, Exit, [], f.now);
  }

  lemma NextPointFaithful(s: State, now: real)
    requires s.frames != []
    ensures |NextPoint(s, now).log| > |s.log| ==> Faithful(s, s.Top(), NextPoint(s, now).log[|s.log|])
  {
    hide Registered, StartFiring;
    var f := s.Top();
    match f.point
    case Entry => FiringEvent(s, f, BeforeSources, Registered(s.modes, f.mode, Source), f.now);
    case Sources => FiringEvent(s, f, BeforeTimers, Registered(s.modes, f.mode, Timer), now);
    case Timers => FiringEvent(s, f, BeforeWaiting, [], f.now);
    case BeforeWaiting => FiringEvent(s, f, AfterWaiting, [], f.now);
    case AfterWaiting => FiringEvent(s, f, Exit, [], f.now);
    case _ =>
  }

  // ---- The log against the states of an execution ----

  /** The step of the execution that wrote entry `p` of the log. */
  lemma {:induction false} Writer(tr: seq<State>, o: Objects, n: nat, p: nat) returns (i: nat, a: Action)
    requires Execution(tr, o) && n < |tr| && |tr[0].log| <= p < |tr[n].log|
    ensures i < n && |tr[i].log| == p && Enabled(tr[i], a) && tr[i + 1] == Next(tr[i], o, a)
    ensures p < |tr[i + 1].log| && tr[i + 1].log[p] == tr[n].log[p] && tr[i].log == tr[n].log[..p]
  {
    hide Next, Enabled, Accounts;
    assert Steps(tr[n - 1], tr[n - 1 + 1], o);
    var b :| Enabled(tr[n - 1], b) && Next(tr[n - 1], o, b) == tr[n];
    StepAccounts(tr[n - 1], o, b);
    LogGrows(tr[n - 1], tr[n]);
    if p < |tr[n - 1].log| {
      i, a := Writer(tr, o, n - 1, p);
    } else {
      i, a := n - 1, b;
    }
  }

  /** In any execution, a source is performed by a run only if it was registered in that run's own
      mode when the run copied its sources: state `i`, before the dispatch. */
  lemma PerformedWasRegistered(tr: seq<State>, o: Objects, j: nat) returns (i: nat)
    requires Execution(tr, o) && tr[0] == INITIAL && j < |tr[|tr| - 1].log| && tr[|tr| - 1].log[j].Dispatch?
    ensures i < |tr| && |tr[i].log| < j && tr[i].frames != []
    ensures var e, top := tr[|tr| - 1].log[j], tr[i].Top();
            top.run == e.run && e.src in Registered(tr[i].modes, top.mode, Source)
  {
    hide Steps, Next, Enabled, Invariant;
    var n := |tr| - 1;
    FromInitial(tr, o);
    InvariantJustifies(tr[n], j);
    var log := tr[n].log;
    var p :| 0 <= p < j && IsSnapshot(log[p], log[j].run) && log[j].src in log[p].items;
    var a;
    i, a := Writer(tr, o, n, p);
    SnapshotFaithful(tr[i], o, a, log[j].run);
  }

  lemma InvariantJustifies(s: State, j: nat)
    requires Invariant(s) && j < |s.log|
    ensures Justified(s.log, j)
  {
    hide StackOk, Nested, Histories, Conserved, RegistriesOk, Justified;
  }

  /** In any execution, every source that was registered in a run's own mode and pending when the
      run copied its sources, in state `i`, has been dispatched since when the run is over, unless
      the run returned HANDLED_SOURCE. */
  lemma PendingServed(tr: seq<State>, o: Objects, r: nat) returns (i: nat)
    requires Execution(tr, o) && tr[0] == INITIAL
    requires var s := tr[|tr| - 1];
             && r < s.nextRun && !Active(s, r)
             && Marks(s.log, r) != [] && Marks(s.log, r)[|Marks(s.log, r)| - 1] != Left(HANDLED_SOURCE)
    ensures i < |tr| && tr[i].frames != [] && tr[i].Top().run == r
    ensures |tr[i].log| < |tr[|tr| - 1].log| && IsSnapshot(tr[|tr| - 1].log[|tr[i].log|], r)
    ensures forall x :: x in Registered(tr[i].modes, tr[i].Top().mode, Source) && x in tr[i].signaled ==>
              DispatchedIn(tr[|tr| - 1].log, |tr[i].log|, |tr[|tr| - 1].log|, x)
  {
    hide Steps, Next, Enabled, Active, Marks, DispatchedIn;
    var n := |tr| - 1;
    assert Reachable(tr[n], o);
    var p := CopyServed(tr[n], o, r);
    var a;
    i, a := Writer(tr, o, n, p);
    SnapshotFaithful(tr[i], o, a, r);
  }

  // ---- Observers ----

  lemma {:induction false} ExecutionTold(tr: seq<State>, o: Objects, i: nat)
    requires Execution(tr, o) && tr[0] == INITIAL && i < |tr|
    ensures ObserversTold(tr[i], o)
  {
    hide Invariant, Enabled, Next, FrameTold, ToldAt;
    if i > 0 {
      ExecutionTold(tr, o, i - 1);
      assert Steps(tr[i - 1], tr[i - 1 + 1], o);
      var a :| Enabled(tr[i - 1], a) && Next(tr[i - 1], o, a) == tr[i];
      InitialInvariant();
      ExecutionInvariant(tr, o, i - 1);
      InvariantNested(tr[i - 1]);
      KeepObserversTold(tr[i - 1], o, a);
    }
  }

  lemma InvariantNested(s: State)
    requires Invariant(s)
    ensures Nested(s)
  {
    hide StackOk, Nested, Histories, Conserved, Passes, RegistriesOk;
  }

  lemma {:induction false} AnnouncedAt(log: seq<Event>, r: nat) returns (p: nat)
    requires Announced(log, r).Some?
    ensures p < |log| && log[p] == Announced(log, r).value && log[p].run == r
  {
    var n := |log| - 1;
    if log[n].Fire? && log[n].run == r {
      p := n;
    } else {
      p := AnnouncedAt(log[..n], r);
    }
  }

  /** In any execution, when run `r` announces its next activity or returns (entry `j` of the log), it
      has told, since its last announcement, exactly the observers that were registered in its mode
      then (state `i`), have a callback and asked for the activity: in order and once each. */
  lemma ObserversToldOnce(tr: seq<State>, o: Objects, j: nat) returns (i: nat)
    requires Execution(tr, o) && tr[0] == INITIAL
    requires var log := tr[|tr| - 1].log;
             j < |log| && (log[j].Fire? || log[j].Returned?) && Announced(log[..j], log[j].run).Some?
    ensures i < |tr| && |tr[i].log| < j
    ensures var log := tr[|tr| - 1].log;
            var r := log[j].run;
            var e := Announced(log[..j], r).value;
            && log[|tr[i].log|] == e
            && Told(log[..j], r) == Notices(o, r, e.point, Registered(tr[i].modes, e.mode, Observer))
  {
    hide Steps, Next, Enabled, Told, Announced, Notices, FrameTold;
    var n := |tr| - 1;
    ExecutionTold(tr, o, n);
    var log := tr[n].log;
    assert ToldAt(log, o, j);
    var p := AnnouncedAt(log[..j], log[j].run);
    var a;
    i, a := Writer(tr, o, n, p);
    FiringFaithful(tr[i], o, a);
  }

  // ---- Return codes and timers ----

  lemma {:induction false} ExecutionOutcomes(tr: seq<State>, o: Objects, i: nat)
    requires Execution(tr, o) && tr[0] == INITIAL && i < |tr|
    ensures Outcomes(tr[i])
  {
    hide Invariant, Enabled, Next, FrameOutcome, OutcomeAt;
    if i > 0 {
      ExecutionOutcomes(tr, o, i - 1);
      assert Steps(tr[i - 1], tr[i - 1 + 1], o);
      var a :| Enabled(tr[i - 1], a) && Next(tr[i - 1], o, a) == tr[i];
      InitialInvariant();
      ExecutionInvariant(tr, o, i - 1);
      InvariantNested(tr[i - 1]);
      KeepOutcomes(tr[i - 1], o, a);
    }
  }

  /** In any execution, a run returns STOPPED if and only if it took a stop request itself, and then
      exactly one; a run that returns HANDLED_SOURCE has handled exactly one source or timer. */
  lemma ReturnExplained(tr: seq<State>, o: Objects, j: nat)
    requires Execution(tr, o) && tr[0] == INITIAL
    requires j < |tr[|tr| - 1].log| && tr[|tr| - 1].log[j].Returned?
    ensures var log := tr[|tr| - 1].log;
            && StopsBy(log[..j], log[j].run) == (if log[j].code == STOPPED then 1 else 0)
            && (log[j].code == HANDLED_SOURCE ==> HandledBy(log[..j], log[j].run) == 1)
  {
    hide Steps, StopsBy, HandledBy;
    ExecutionOutcomes(tr, o, |tr| - 1);
    assert OutcomeAt(tr[|tr| - 1].log, j);
  }

  /** A timer is fired when it is due by the clock the run has read. */
  lemma DueWhenFired(s: State, o: Objects, a: Action)
    requires Enabled(s, a)
    requires var s' := Next(s, o, a); |s'.log| > |s.log| && s'.log[|s.log|].FireTimer?
    ensures var e := Next(s, o, a).log[|s.log|];
            && s.frames != [] && s.Top().run == e.run && s.Top().point == Timers
            && e.timer in s.fireDate && s.fireDate[e.timer].Some? && s.Top().now >= s.fireDate[e.timer].value
  {
    hide Apply, Enter, Finish, Visit, NextPoint;
    Shapes(s, o, a);
    match a
    case ClientOp(_) =>
    case Run(_, _) =>
    case CallbackReturns =>
    case Tick(now) =>
      if s.Top().status == RunLoop.Done {
        FinishAnnounces(s, o);
      } else if s.Top().todo != [] {
        VisitDue(s, o);
      } else {
        NextPointNoTimer(s, now);
      }
  }

  lemma VisitDue(s: State, o: Objects)
    requires s.frames != [] && s.Top().todo != []
    ensures var f, x := s.Top(), s.Top().todo[0];
            |Visit(s, o).log| > |s.log| && Visit(s, o).log[|s.log|].FireTimer? ==>
              && f.point == Timers && Visit(s, o).log[|s.log|] == FireTimer(f.run, x)
              && x in s.fireDate && s.fireDate[x].Some? && f.now >= s.fireDate[x].value
  {
    hide Overlaps;
  }

  lemma FinishAnnounces(s: State, o: Objects)
    requires s.frames != []
    ensures |Finish(s, o).log| > |s.log| ==> Finish(s, o).log[|s.log|].Fire? && Finish(s, o).log[|s.log|].point == Exit
  {
    FinishNoSnapshot(s, o);
  }

  lemma NextPointNoTimer(s: State, now: real)
    requires s.frames != []
    ensures |NextPoint(s, now).log| > |s.log| ==> !NextPoint(s, now).log[|s.log|].FireTimer?
  {
    hide Registered, StartFiring;
    var f := s.Top();
    match f.point
    case Entry => FiringEvent(s, f, BeforeSources, Registered(s.modes, f.mode, Source), f.now);
    case Sources => FiringEvent(s, f, BeforeTimers, Registered(s.modes, f.mode, Timer), now);
    case Timers => FiringEvent(s, f, BeforeWaiting, [], f.now);
    case BeforeWaiting => FiringEvent(s, f, AfterWaiting, [], f.now);
    case AfterWaiting => FiringEvent(s, f, Exit, [], f.now);
    case _ =>
  }

  /** The copy of the timers is what is registered in the run's own mode when it reads the clock. */
  lemma TimersFaithful(s: State, o: Objects, a: Action)
    requires Enabled(s, a)
    requires var s' := Next(s, o, a); |s'.log| > |s.log| && s'.log[|s.log|].Fire? && s'.log[|s.log|].point == BeforeTimers
    ensures var e := Next(s, o, a).log[|s.log|];
            && a == Tick(e.now) && s.frames != [] && s.Top().run == e.run
            && e.items == Registered(s.modes, s.Top().mode, Timer)
  {
    hide Registered, Apply, Enter, Finish, Visit, NextPoint;
    Shapes(s, o, a);
    match a
    case ClientOp(_) =>
    case Run(m, once) => EntryPoint(s, m, once);
    case CallbackReturns =>
    case Tick(now) =>
      if s.Top().status == RunLoop.Done {
        FinishAnnounces(s, o);
      } else if s.Top().todo != [] {
        VisitNoSnapshot(s, o);
      } else {
        NextPointTimers(s, now);
      }
  }

  lemma EntryPoint(s: State, m: string, once: bool)
    ensures var s' := Enter(s, m, once); |s'.log| > |s.log| && s'.log[|s.log|].Fire? ==> s'.log[|s.log|].point == Entry
  {
    hide Registered;
  }

  lemma NextPointTimers(s: State, now: real)
    requires s.frames != []
    ensures var s' := NextPoint(s, now);
            |s'.log| > |s.log| && s'.log[|s.log|].Fire? && s'.log[|s.log|].point == BeforeTimers ==>
              var e := s'.log[|s.log|];
              e.now == now && e.run == s.Top().run && e.items == Registered(s.modes, s.Top().mode, Timer)
  {
    hide Registered, StartFiring;
    var f := s.Top();
    match f.point
    case Entry => FiringEvent(s, f, BeforeSources, Registered(s.modes, f.mode, Source), f.now);
    case Sources => FiringEvent(s, f, BeforeTimers, Registered(s.modes, f.mode, Timer), now);
    case Timers => FiringEvent(s, f, BeforeWaiting, [], f.now);
    case BeforeWaiting => FiringEvent(s, f, AfterWaiting, [], f.now);
    case AfterWaiting => FiringEvent(s, f, Exit, [], f.now);
    case _ =>
  }

  /** In any execution, a run fires a timer only if it was registered in the run's own mode when the
      run read the clock (state `i`), and only if it is due by that clock when it fires (state `k`). */
  lemma FiredWasRegistered(tr: seq<State>, o: Objects, j: nat) returns (i: nat, k: nat)
    requires Execution(tr, o) && tr[0] == INITIAL && j < |tr[|tr| - 1].log| && tr[|tr| - 1].log[j].FireTimer?
    ensures i < k < |tr| && |tr[k].log| == j && tr[i].frames != [] && tr[k].frames != []
    ensures var e, copy, now := tr[|tr| - 1].log[j], tr[i].Top(), tr[k].Top();
            && copy.run == now.run == e.run
            && e.timer in Registered(tr[i].modes, copy.mode, Timer)
            && Enabled(tr[i], Tick(now.now)) && tr[i + 1] == Next(tr[i], o, Tick(now.now))
            && e.timer in tr[k].fireDate && tr[k].fireDate[e.timer].Some? && now.now >= tr[k].fireDate[e.timer].value
  {
    hide Steps, Next, Enabled, Announced;
    var n := |tr| - 1;
    var log := tr[n].log;
    ExecutionOutcomes(tr, o, n);
    assert OutcomeAt(log, j);
    var a;
    k, a := Writer(tr, o, n, j);
    DueWhenFired(tr[k], o, a);
    ExecutionOutcomes(tr, o, k);
    TopClock(tr[k]);
    var p := AnnouncedAt(tr[k].log, log[j].run);
    i, a := Writer(tr, o, k, p);
    TimersFaithful(tr[i], o, a);
  }

  lemma TopClock(s: State)
    requires Outcomes(s) && s.frames != [] && s.Top().point == Timers
    ensures var a := Announced(s.log, s.Top().run);
            a.Some? && a.value.point == BeforeTimers && a.value.now == s.Top().now
  {
    assert FrameOutcome(s.log, s.frames[|s.frames| - 1]);
  }
}
