/** Conservation of source signals and stop requests, and what a source pass serves. */
module RunLoopSignals {
  import opened MachO
  import opened RunLoop

  // ---- Accounting of signals and stops ----

  ghost predicate AccountsFor(s: State, s': State, e: Event) {
    match e
    case SignalEdge(x) => x !in s.signaled && s'.signaled == s.signaled + {x} && s'.stopped == s.stopped
    case Dispatch(_, x) => x in s.signaled && s'.signaled == s.signaled - {x} && s'.stopped == s.stopped
    case StopEdge => !s.stopped && s'.stopped && s'.signaled == s.signaled
    case StopTaken(_) => s.stopped && !s'.stopped && s'.signaled == s.signaled
    case _ => s'.signaled == s.signaled && s'.stopped == s.stopped
  }

  /** The step logs every change of a pending flag, and nothing else. */
  ghost predicate Accounts(s: State, s': State) {
    || (s'.log == s.log && s'.signaled == s.signaled && s'.stopped == s.stopped)
    || (|s'.log| == |s.log| + 1 && s.log <= s'.log && AccountsFor(s, s', s'.log[|s.log|]))
  }

  lemma LoggedAccounts(s: State, s': State, e: Event)
    requires s'.log == s.log + [e] && AccountsFor(s, s', e)
    ensures Accounts(s, s')
  {
    assert s'.log[|s.log|] == e;
  }

  lemma ApplyAccounts(s: State, op: Op)
    ensures Accounts(s, Apply(s, op))
  {
    hide AddTo, RemoveFrom, EnsureMode;
  }

  lemma EnterAccounts(s: State, m: string, once: bool)
    ensures Accounts(s, Enter(s, m, once))
  {
    hide EnsureMode, Registered;
  }

  lemma FiringAccounts(s: State, f: Frame, p: Point, items: seq<Id>, now: real)
    requires s.frames != []
    ensures Accounts(s, StartFiring(s, f, p, items, now))
    ensures var s' := StartFiring(s, f, p, items, now);
            |s'.log| == |s.log| + 1 && s.log <= s'.log && s'.log[|s.log|].Fire? &&
            s'.log[|s.log|].point == p && s'.log[|s.log|].run == f.run
  {
    hide Registered;
  }

  lemma FinishAccounts(s: State, o: Objects)
    requires s.frames != []
    ensures Accounts(s, Finish(s, o))
  {
    hide StartFiring;
    var f := s.Top();
    var date := if o.interval(f.current) > 0.0 then Some(f.now + o.interval(f.current)) else None;
    FiringAccounts(s, f.(result := HANDLED_SOURCE), Exit, [], f.now);
    FiringAccounts(s.(fireDate := s.fireDate[f.current := date]), f.(result := HANDLED_SOURCE), Exit, [], f.now);
  }

  lemma VisitAccounts(s: State, o: Objects)
    requires s.frames != [] && s.Top().todo != []
    ensures Accounts(s, Visit(s, o))
  {
    hide Accounts, VisitSource, VisitTimer, VisitObserver;
    match s.Top().point
    case Sources => SourceAccounts(s, o);
    case Timers => TimerAccounts(s, o);
    case _ => ObserverAccounts(s, o);
  }

  lemma SourceAccounts(s: State, o: Objects)
    requires s.frames != [] && s.Top().todo != []
    ensures Accounts(s, VisitSource(s, o))
  {
    hide Accounts;
    PlainAccounts(s, VisitSource(s, o));
    if s.Top().todo[0] in s.signaled {
      LoggedAccounts(s, VisitSource(s, o), Dispatch(s.Top().run, s.Top().todo[0]));
    }
  }

  lemma TimerAccounts(s: State, o: Objects)
    requires s.frames != [] && s.Top().todo != []
    ensures Accounts(s, VisitTimer(s, o))
  {
    hide Accounts;
    var f, s', x := s.Top(), VisitTimer(s, o), s.Top().todo[0];
    if x in s.fireDate && s.fireDate[x].Some? && f.now >= s.fireDate[x].value {
      LoggedAccounts(s, s', FireTimer(f.run, x));
    } else {
      LoggedAccounts(s, s', PassedOver(f.run, x));
    }
  }

  lemma ObserverAccounts(s: State, o: Objects)
    requires s.frames != [] && s.Top().todo != [] && s.Top().point.IsActivity()
    ensures Accounts(s, VisitObserver(s, o))
  {
    hide Accounts, Overlaps;
    var f, s', x := s.Top(), VisitObserver(s, o), s.Top().todo[0];
    PlainAccounts(s, s');
    if Overlaps(o.activities(x), f.point.Bit()) && o.observes(x) {
      LoggedAccounts(s, s', Notify(f.run, x, f.point));
    }
  }

  lemma PlainAccounts(s: State, s': State)
    ensures s'.log == s.log && s'.signaled == s.signaled && s'.stopped == s.stopped ==> Accounts(s, s')
  {
  }

  lemma NextPointAccounts(s: State, now: real)
    requires s.frames != []
    ensures Accounts(s, NextPoint(s, now))
  {
    hide StartFiring, Registered;
    var f := s.Top();
    match f.point
    case Entry => FiringAccounts(s, f, BeforeSources, Registered(s.modes, f.mode, Source), f.now);
    case Sources => FiringAccounts(s, f, BeforeTimers, Registered(s.modes, f.mode, Timer), now);
    case Timers => FiringAccounts(s, f, BeforeWaiting, [], f.now);
    case BeforeWaiting => FiringAccounts(s, f, AfterWaiting, [], f.now);
    case AfterWaiting => FiringAccounts(s, f, Exit, [], f.now);
    case _ =>
  }

  lemma StepAccounts(s: State, o: Objects, a: Action)
    requires Enabled(s, a)
    ensures Accounts(s, Next(s, o, a))
  {
    hide Accounts, Apply, Enter, Finish, Visit, NextPoint;
    match a
    case ClientOp(op) => ApplyAccounts(s, op);
    case Run(m, once) => EnterAccounts(s, m, once);
    case CallbackReturns => PlainAccounts(s, Return(s));
    case Tick(now) =>
      if s.Top().status == Done {
        FinishAccounts(s, o);
      } else if s.Top().todo != [] {
        VisitAccounts(s, o);
      } else {
        NextPointAccounts(s, now);
      }
  }

  // ---- Conservation ----

  function SignalEdges(log: seq<Event>, x: Id): (n: nat) {
    if log == [] then 0
    else SignalEdges(log[..|log| - 1], x) + if log[|log| - 1] == SignalEdge(x) then 1 else 0
  }

  function Dispatches(log: seq<Event>, x: Id): (n: nat) {
    if log == [] then 0
    else Dispatches(log[..|log| - 1], x) + if log[|log| - 1].Dispatch? && log[|log| - 1].src == x then 1 else 0
  }

  function StopEdges(log: seq<Event>): (n: nat) {
    if log == [] then 0 else StopEdges(log[..|log| - 1]) + if log[|log| - 1].StopEdge? then 1 else 0
  }

  function StopsTaken(log: seq<Event>): (n: nat) {
    if log == [] then 0 else StopsTaken(log[..|log| - 1]) + if log[|log| - 1].StopTaken? then 1 else 0
  }

  /** No signal and no stop is lost or served twice: each rising edge of a flag has been
      consumed by exactly one dispatch (one refused or stopped run), or is the pending flag. */
  ghost predicate Conserved(s: State) {
    && (forall x: Id :: SignalEdges(s.log, x) == Dispatches(s.log, x) + if x in s.signaled then 1 else 0)
    && StopEdges(s.log) == StopsTaken(s.log) + if s.stopped then 1 else 0
  }

  lemma KeepConserved(s: State, s': State)
    requires Accounts(s, s') && Conserved(s)
    ensures Conserved(s')
  {
    if s'.log != s.log {
      assert s'.log[..|s'.log| - 1] == s.log;
      forall x: Id
        ensures SignalEdges(s'.log, x) == Dispatches(s'.log, x) + if x in s'.signaled then 1 else 0
      {
        assert SignalEdges(s.log, x) == Dispatches(s.log, x) + if x in s.signaled then 1 else 0;
      }
    }
  }

  // ---- What a source pass serves ----

  predicate IsSnapshot(e: Event, run: nat) {
    e.Fire? && e.point == BeforeSources && e.run == run
  }

  ghost predicate DispatchedIn(log: seq<Event>, lo: nat, hi: nat, x: Id) {
    exists k :: lo < k < hi <= |log| && log[k].Dispatch? && log[k].src == x
  }

  /** A dispatch is of a source copied by that run; a run that goes on to its timers has, since
      it copied its sources, seen every one that was pending dispatched, by itself or by a run
      nested in it. */
  ghost predicate Justified(log: seq<Event>, j: nat)
    requires j < |log|
  {
    match log[j]
    case Dispatch(r, x) => exists p :: 0 <= p < j && IsSnapshot(log[p], r) && x in log[p].items
    case Fire(r, BeforeTimers, _, _, _, _, _) =>
      exists p :: 0 <= p < j && IsSnapshot(log[p], r) && forall x :: x in log[p].pending ==> DispatchedIn(log, p, j, x)
    case _ => true
  }

  ghost predicate LogJustified(log: seq<Event>) {
    forall j :: 0 <= j < |log| ==> Justified(log, j)
  }

  /** The sources of the current pass that are still to be looked at. */
  function Rest(f: Frame): (s: seq<Id>) {
    if f.point == BeforeSources then f.items else f.todo
  }

  predicate InSourcePass(f: Frame) {
    f.point == BeforeSources || f.point == Sources
  }

  ghost predicate PassOk(log: seq<Event>, signaled: set<Id>, f: Frame) {
    InSourcePass(f) ==>
      && f.snapAt < |log| && IsSnapshot(log[f.snapAt], f.run)
      && (forall x :: x in Rest(f) ==> x in log[f.snapAt].items)
      && (forall x :: x in log[f.snapAt].pending ==>
            DispatchedIn(log, f.snapAt, |log|, x) || (x in signaled && x in Rest(f)))
  }

  ghost predicate Passes(s: State) {
    && (forall i :: 0 <= i < |s.frames| ==> PassOk(s.log, s.signaled, s.frames[i]))
    && LogJustified(s.log)
  }

  lemma DispatchedLater(log: seq<Event>, log': seq<Event>, lo: nat, hi: nat, hi': nat, x: Id)
    requires log <= log' && hi <= hi' <= |log'| && hi <= |log| && DispatchedIn(log, lo, hi, x)
    ensures DispatchedIn(log', lo, hi', x)
  {
    var k :| lo < k < hi <= |log| && log[k].Dispatch? && log[k].src == x;
    assert log'[k] == log[k];
  }

  /** A pass of a run that does not move stays as it was. */
  lemma PassStable(s: State, s': State, f: Frame)
    requires Accounts(s, s') && PassOk(s.log, s.signaled, f)
    ensures PassOk(s'.log, s'.signaled, f)
  {
    if InSourcePass(f) {
      var p := f.snapAt;
      assert s'.log[p] == s.log[p];
      forall x | x in s.log[p].pending
        ensures DispatchedIn(s'.log, p, |s'.log|, x) || (x in s'.signaled && x in Rest(f))
      {
        if DispatchedIn(s.log, p, |s.log|, x) {
          DispatchedLater(s.log, s'.log, p, |s.log|, |s'.log|, x);
        } else if x !in s'.signaled {
          assert s'.log[|s.log|].Dispatch? && s'.log[|s.log|].src == x;
        }
      }
    }
  }

  lemma JustifiedStable(log: seq<Event>, log': seq<Event>, j: nat)
    requires log <= log' && j < |log| && Justified(log, j)
    ensures Justified(log', j)
  {
    assert log'[j] == log[j];
    match log[j]
    case Dispatch(r, x) =>
      var p :| 0 <= p < j && IsSnapshot(log[p], r) && x in log[p].items;
      assert log'[p] == log[p];
    case Fire(r, BeforeTimers, _, _, _, _, _) =>
      var p :| 0 <= p < j && IsSnapshot(log[p], r) && forall x :: x in log[p].pending ==> DispatchedIn(log, p, j, x);
      assert log'[p] == log[p];
      forall x | x in log[p].pending ensures DispatchedIn(log', p, j, x) {
        DispatchedLater(log, log', p, j, j, x);
      }
    case _ =>
  }

  lemma LogStable(log: seq<Event>, log': seq<Event>)
    requires log <= log' && |log'| <= |log| + 1 && LogJustified(log)
    requires |log'| > |log| ==> Justified(log', |log|)
    ensures LogJustified(log')
  {
    hide Justified;
    forall j | 0 <= j < |log'| ensures Justified(log', j) {
      if j < |log| {
        JustifiedStable(log, log', j);
      }
    }
  }

  // ---- Steps of the topmost run ----

  /** Moving on without leaving the pass: the same copy, and the same sources to look at. */
  lemma PassSame(log: seq<Event>, signaled: set<Id>, f: Frame, f': Frame)
    requires PassOk(log, signaled, f)
    requires InSourcePass(f') ==> InSourcePass(f) && f'.run == f.run && f'.snapAt == f.snapAt && Rest(f') == Rest(f)
    ensures PassOk(log, signaled, f')
  {
  }

  lemma FiringPass(s: State, f: Frame, p: Point, items: seq<Id>, now: real)
    requires s.frames != [] && p != Sources
    ensures var s' := StartFiring(s, f, p, items, now);
            s'.frames != [] && PassOk(s'.log, s'.signaled, s'.Top())
  {
    hide Registered;
  }

  lemma FinishPass(s: State, o: Objects)
    requires s.frames != [] && PassOk(s.log, s.signaled, s.Top())
    ensures var s' := Finish(s, o);
            && s'.frames != [] && PassOk(s'.log, s'.signaled, s'.Top())
            && (|s'.log| > |s.log| ==> s.log <= s'.log && Justified(s'.log, |s.log|))
  {
    hide StartFiring, PassOk;
    var f := s.Top();
    var g := f.(result := HANDLED_SOURCE);
    var date := if o.interval(f.current) > 0.0 then Some(f.now + o.interval(f.current)) else None;
    var s1 := s.(fireDate := s.fireDate[f.current := date]);
    FiringPass(s, g, Exit, [], f.now);
    FiringPass(s1, g, Exit, [], f.now);
    FiringAccounts(s, g, Exit, [], f.now);
    FiringAccounts(s1, g, Exit, [], f.now);
    PassSame(s.log, s.signaled, f, f.(status := Idle));
  }

  lemma NextPointPass(s: State, now: real)
    requires s.frames != [] && s.Top().todo == [] && PassOk(s.log, s.signaled, s.Top())
    ensures var s' := NextPoint(s, now);
            && (s.Top().point != Exit ==> s'.frames != [] && PassOk(s'.log, s'.signaled, s'.Top()))
            && (|s'.log| > |s.log| ==> s.log <= s'.log && Justified(s'.log, |s.log|))
  {
    hide StartFiring, PassOk, Registered, Justified;
    var f := s.Top();
    match f.point
    case Entry =>
      FiringPass(s, f, BeforeSources, Registered(s.modes, f.mode, Source), f.now);
      FiringJustified(s, f, BeforeSources, Registered(s.modes, f.mode, Source), f.now);
    case BeforeSources =>
      PassSame(s.log, s.signaled, f, f.(point := Sources, todo := f.items));
    case Sources =>
      FiringPass(s, f, BeforeTimers, Registered(s.modes, f.mode, Timer), now);
      PassServed(s, f, Registered(s.modes, f.mode, Timer), now);
    case BeforeTimers =>
      PassSame(s.log, s.signaled, f, f.(point := Timers, todo := f.items));
    case Timers =>
      FiringPass(s, f, BeforeWaiting, [], f.now);
      FiringJustified(s, f, BeforeWaiting, [], f.now);
    case BeforeWaiting =>
      FiringPass(s, f, AfterWaiting, [], f.now);
      FiringJustified(s, f, AfterWaiting, [], f.now);
    case AfterWaiting =>
      FiringPass(s, f, Exit, [], f.now);
      FiringJustified(s, f, Exit, [], f.now);
      PassOutside(s.log + [StopTaken(Some(f.run))], s.signaled, f.(result := STOPPED));
      PassOutside(s.log, s.signaled, f.(result := TIMED_OUT));
      LoggedJustified(s.log, StopTaken(Some(f.run)));
    case Exit =>
      LoggedJustified(s.log, Returned(f.run, f.result));
  }

  lemma PassOutside(log: seq<Event>, signaled: set<Id>, f: Frame)
    requires !InSourcePass(f)
    ensures PassOk(log, signaled, f)
  {
  }

  lemma LoggedJustified(log: seq<Event>, e: Event)
    requires !e.Dispatch? && !(e.Fire? && e.point == BeforeTimers)
    ensures Justified(log + [e], |log|)
  {
  }

  lemma FiringJustified(s: State, f: Frame, p: Point, items: seq<Id>, now: real)
    requires s.frames != [] && p != BeforeTimers
    ensures var s' := StartFiring(s, f, p, items, now);
            s.log <= s'.log && |s'.log| == |s.log| + 1 && Justified(s'.log, |s.log|)
  {
    FiringAccounts(s, f, p, items, now);
  }

  /** The source pass is over: everything pending at its copy has been dispatched. */
  lemma PassServed(s: State, f: Frame, items: seq<Id>, now: real)
    requires s.frames != [] && f == s.Top() && f.point == Sources && f.todo == [] && PassOk(s.log, s.signaled, f)
    ensures var s' := StartFiring(s, f, BeforeTimers, items, now);
            s.log <= s'.log && |s'.log| == |s.log| + 1 && Justified(s'.log, |s.log|)
  {
    hide StartFiring;
    FiringAccounts(s, f, BeforeTimers, items, now);
    var log' := StartFiring(s, f, BeforeTimers, items, now).log;
    assert log'[f.snapAt] == s.log[f.snapAt];
    forall x | x in s.log[f.snapAt].pending ensures DispatchedIn(log', f.snapAt, |s.log|, x) {
      DispatchedLater(s.log, log', f.snapAt, |s.log|, |s.log|, x);
    }
  }

  lemma VisitPass(s: State, o: Objects)
    requires s.frames != [] && s.Top().todo != [] && PassOk(s.log, s.signaled, s.Top())
    ensures var s' := Visit(s, o);
            && s'.frames != [] && PassOk(s'.log, s'.signaled, s'.Top())
            && (|s'.log| > |s.log| ==> s.log <= s'.log && Justified(s'.log, |s.log|))
  {
    hide Visit, PassOk, Justified;
    var f := s.Top();
    if f.point == Sources {
      SourceSeen(s, f, f.todo[0], if o.performs(f.todo[0]) then Calling else Done);
      SourceSeen(s, f, f.todo[0], f.status);
      VisitAtSources(s, o);
      assert f.todo[0] !in s.signaled ==> s.signaled - {f.todo[0]} == s.signaled;
    } else {
      VisitElsewhere(s, o);
      VisitAccounts(s, o);
      PassSame(s.log, s.signaled, f, Visit(s, o).Top());
      PassStable(s, Visit(s, o), Visit(s, o).Top());
      LoggedJustified(s.log, FireTimer(f.run, f.todo[0]));
      LoggedJustified(s.log, PassedOver(f.run, f.todo[0]));
      LoggedJustified(s.log, Notify(f.run, f.todo[0], f.point));
    }
  }

  lemma VisitAtSources(s: State, o: Objects)
    requires s.frames != [] && s.Top().todo != [] && s.Top().point == Sources
    ensures var f, s', x := s.Top(), Visit(s, o), s.Top().todo[0];
            && s'.frames != []
            && s'.Top() == f.(todo := f.todo[1..], current := x,
                              status := if x !in s.signaled then f.status else if o.performs(x) then Calling else Done)
            && s'.log == (if x in s.signaled then s.log + [Dispatch(f.run, x)] else s.log)
            && s'.signaled == s.signaled - {x}
  {
  }

  lemma VisitElsewhere(s: State, o: Objects)
    requires s.frames != [] && s.Top().todo != [] && s.Top().point != Sources
    ensures Elsewhere(s, Visit(s, o))
  {
    hide Elsewhere, VisitSource, VisitTimer, VisitObserver;
    if s.Top().point == Timers {
      TimerElsewhere(s, o);
    } else {
      ObserverElsewhere(s, o);
    }
  }

  /** A step that looks at a timer or an observer keeps the run's place and its copies. */
  ghost predicate Elsewhere(s: State, s': State)
    requires s.frames != [] && s.Top().todo != []
  {
    var f, x := s.Top(), s.Top().todo[0];
    && s'.frames != [] && s'.Top().run == f.run && s'.Top().point == f.point
    && s'.Top().snapAt == f.snapAt && s'.Top().items == f.items
    && (s'.log == s.log || s'.log == s.log + [FireTimer(f.run, x)] ||
        s'.log == s.log + [PassedOver(f.run, x)] || s'.log == s.log + [Notify(f.run, x, f.point)])
  }

  lemma TimerElsewhere(s: State, o: Objects)
    requires s.frames != [] && s.Top().todo != []
    ensures Elsewhere(s, VisitTimer(s, o))
  {
  }

  lemma ObserverElsewhere(s: State, o: Objects)
    requires s.frames != [] && s.Top().todo != [] && s.Top().point.IsActivity()
    ensures Elsewhere(s, VisitObserver(s, o))
  {
    hide Overlaps;
  }

  /** Looking at source `x`: it is dispatched if it is still pending, and passed over otherwise. */
  lemma SourceSeen(s: State, f: Frame, x: Id, status: Status)
    requires f.point == Sources && f.todo != [] && x == f.todo[0] && PassOk(s.log, s.signaled, f)
    ensures var f' := f.(todo := f.todo[1..], current := x, status := status);
            var log' := s.log + [Dispatch(f.run, x)];
            if x in s.signaled then PassOk(log', s.signaled - {x}, f') && Justified(log', |s.log|)
            else PassOk(s.log, s.signaled, f')
  {
    var f' := f.(todo := f.todo[1..], current := x, status := status);
    assert f.todo == [x] + f.todo[1..];
    if x in s.signaled {
      var log' := s.log + [Dispatch(f.run, x)];
      assert log'[f.snapAt] == s.log[f.snapAt] && log'[|s.log|] == Dispatch(f.run, x);
      forall y | y in s.log[f.snapAt].pending
        ensures DispatchedIn(log', f.snapAt, |log'|, y) || (y in s.signaled - {x} && y in Rest(f'))
      {
        if DispatchedIn(s.log, f.snapAt, |s.log|, y) {
          DispatchedLater(s.log, log', f.snapAt, |s.log|, |log'|, y);
        }
      }
    }
  }
}
