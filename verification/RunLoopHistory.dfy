/** What every reachable state of the run loop keeps about its stack of runs and about the
history of each run.
*/
module RunLoopHistory {
  import opened MachO
  import opened RunLoop

  // ---- Shapes of a step ----

  /** A step of the topmost run: only its frame changes, and only it appears in the log. */
  ghost predicate TopStep(s: State, s': State) {
    && s.frames != [] && s'.frames != [] && s'.Below() == s.Below()
    && s'.Top().run == s.Top().run && s'.Top().mode == s.Top().mode
    && s'.modeStack == s.modeStack && s'.nextRun == s.nextRun
    && s.log <= s'.log && |s'.log| <= |s.log| + 1
    && (|s'.log| > |s.log| ==> !MarksOther(s'.log[|s.log|], s.Top().run))
  }

  /** The event is about a run other than `r`. */
  predicate MarksOther(e: Event, r: nat) {
    match e
    case SignalEdge(_) => false
    case StopEdge => false
    case StopTaken(taker) => taker.Some? && taker.value != r
    case _ => e.run != r
  }

  ghost predicate ClientStep(s: State, s': State) {
    && s'.frames == s.frames && s'.modeStack == s.modeStack && s'.nextRun == s.nextRun
    && s.log <= s'.log && |s'.log| <= |s.log| + 1
    && (|s'.log| > |s.log| ==> s'.log[|s.log|].SignalEdge? || s'.log[|s.log|].StopEdge? || s'.log[|s.log|] == StopTaken(None))
  }

  ghost predicate PushStep(s: State, s': State) {
    && |s'.frames| == |s.frames| + 1 && s'.Below() == s.frames
    && s'.Top().run == s.nextRun && s'.nextRun == s.nextRun + 1
    && s'.Top().point == Entry && s'.Top().status == Idle && s'.Top().result == 0
    && s'.modeStack == s.modeStack + [s'.Top().mode]
    && s'.log == s.log + [Fire(s.nextRun, Entry, s'.Top().mode, [], {}, s'.Top().todo, 0.0)]
    && s.ClientActive()
  }

  ghost predicate PopStep(s: State, s': State) {
    && s.frames != [] && s.Top().point == Exit && s'.frames == s.Below() && s'.nextRun == s.nextRun
    && s'.modeStack == (if s.modeStack == [] then [] else s.modeStack[..|s.modeStack| - 1])
    && s'.log == s.log + [Returned(s.Top().run, s.Top().result)]
  }

  lemma Shapes(s: State, o: Objects, a: Action)
    requires Enabled(s, a)
    ensures var s' := Next(s, o, a);
            match a
            case ClientOp(_) => ClientStep(s, s')
            case Run(_, _) => PushStep(s, s') || ClientStep(s, s')
            case CallbackReturns => TopStep(s, s')
            case Tick(_) => TopStep(s, s') || PopStep(s, s')
  {
    hide ClientStep, PushStep, TopStep, PopStep, Apply, Enter, Return, Finish, Visit, NextPoint;
    match a
    case ClientOp(op) => ApplyShape(s, op);
    case Run(m, once) => EnterShape(s, m, once);
    case CallbackReturns => ReturnShape(s);
    case Tick(now) =>
      if s.Top().status == Done {
        FinishShape(s, o);
      } else if s.Top().todo != [] {
        VisitShape(s, o);
      } else {
        NextPointShape(s, now);
      }
  }

  lemma ApplyShape(s: State, op: Op)
    ensures ClientStep(s, Apply(s, op))
  {
    hide AddTo, RemoveFrom, EnsureMode;
  }

  lemma EnterShape(s: State, m: string, once: bool)
    requires s.ClientActive()
    ensures PushStep(s, Enter(s, m, once)) || ClientStep(s, Enter(s, m, once))
  {
    hide EnsureMode, Registered;
  }

  lemma ReturnShape(s: State)
    requires s.frames != []
    ensures TopStep(s, Return(s))
  {
  }

  lemma FiringShape(s: State, f: Frame, p: Point, items: seq<Id>, now: real)
    requires s.frames != [] && f.run == s.Top().run && f.mode == s.Top().mode
    ensures TopStep(s, StartFiring(s, f, p, items, now))
  {
    hide Registered;
  }

  lemma FinishShape(s: State, o: Objects)
    requires s.frames != []
    ensures TopStep(s, Finish(s, o))
  {
    hide TopStep, StartFiring;
    var f := s.Top();
    var f' := f.(result := HANDLED_SOURCE);
    var date := if o.interval(f.current) > 0.0 then Some(f.now + o.interval(f.current)) else None;
    var s1 := s.(fireDate := s.fireDate[f.current := date]);
    FiringShape(s, f', Exit, [], f.now);
    FiringShape(s1, f', Exit, [], f.now);
    QuietShape(s, s1, StartFiring(s1, f', Exit, [], f.now));
    PlainShape(s, s, f.(status := Idle));
    PlainShape(s, s1, f.(status := Idle));
  }

  /** Changes outside the frames, the mode stack and the log do not matter. */
  lemma QuietShape(s: State, s1: State, s': State)
    requires s1.frames == s.frames && s1.modeStack == s.modeStack && s1.nextRun == s.nextRun && s1.log == s.log
    requires TopStep(s1, s')
    ensures TopStep(s, s')
  {
  }

  lemma PlainShape(s: State, s1: State, f: Frame)
    requires s1.frames == s.frames && s1.modeStack == s.modeStack && s1.nextRun == s.nextRun && s1.log == s.log
    requires s.frames != [] && f.run == s.Top().run && f.mode == s.Top().mode
    ensures TopStep(s, s1.With(f))
    ensures forall e :: !MarksOther(e, f.run) ==> TopStep(s, s1.With(f).Log(e))
  {
  }

  lemma VisitShape(s: State, o: Objects)
    requires s.frames != [] && s.Top().todo != []
    ensures TopStep(s, Visit(s, o))
  {
    hide TopStep, Overlaps;
    var f := s.Top();
    var x := f.todo[0];
    var f1 := f.(todo := f.todo[1..], current := x);
    var s1 := s.(signaled := s.signaled - {x});
    PlainShape(s, s, f1);
    PlainShape(s, s, f1.(status := Calling));
    PlainShape(s, s, f1.(status := Done));
    PlainShape(s, s1, f1.(status := Calling));
    PlainShape(s, s1, f1.(status := Done));
  }

  lemma NextPointShape(s: State, now: real)
    requires s.frames != []
    ensures TopStep(s, NextPoint(s, now)) || PopStep(s, NextPoint(s, now))
  {
    hide TopStep, PopStep, StartFiring, Settle, PopRun;
    var f := s.Top();
    match f.point
    case Entry => FiringShape(s, f, BeforeSources, Registered(s.modes, f.mode, Source), f.now);
    case BeforeSources => PlainShape(s, s, f.(point := Sources, todo := f.items));
    case Sources => FiringShape(s, f, BeforeTimers, Registered(s.modes, f.mode, Timer), now);
    case BeforeTimers => PlainShape(s, s, f.(point := Timers, todo := f.items));
    case Timers => FiringShape(s, f, BeforeWaiting, [], f.now);
    case BeforeWaiting => FiringShape(s, f, AfterWaiting, [], f.now);
    case AfterWaiting => SettleShape(s);
    case Exit => PopShape(s);
  }

  lemma SettleShape(s: State)
    requires s.frames != []
    ensures TopStep(s, Settle(s))
  {
    hide TopStep, StartFiring;
    var f := s.Top();
    FiringShape(s, f, Exit, [], f.now);
    PlainShape(s, s.(stopped := false), f.(result := STOPPED));
    PlainShape(s, s, f.(result := TIMED_OUT));
  }

  lemma PopShape(s: State)
    requires s.frames != [] && s.Top().point == Exit
    ensures PopStep(s, PopRun(s))
  {
  }

  // ---- The mode stack is the list of modes of the active runs ----

  ghost predicate StackOk(s: State) {
    && |s.modeStack| == |s.frames|
    && (forall i :: 0 <= i < |s.frames| ==> s.modeStack[i] == s.frames[i].mode)
  }

  /** Runs are entered one inside the callback of the other. */
  ghost predicate Nested(s: State) {
    && (forall i :: 0 <= i < |s.frames| - 1 ==> s.frames[i].status == Calling)
    && (forall i :: 0 <= i < |s.frames| ==> s.frames[i].run < s.nextRun)
    && (forall i, k :: 0 <= i < k < |s.frames| ==> s.frames[i].run < s.frames[k].run)
  }

  lemma KeepStack(s: State, o: Objects, a: Action)
    requires Enabled(s, a) && StackOk(s) && Nested(s)
    ensures StackOk(Next(s, o, a)) && Nested(Next(s, o, a))
  {
    hide Next, Enabled;
    Shapes(s, o, a);
    var s' := Next(s, o, a);
    if TopStep(s, s') {
      assert forall i :: 0 <= i < |s.frames| - 1 ==> s'.frames[i] == s'.Below()[i] == s.Below()[i] == s.frames[i];
    } else if PushStep(s, s') {
      assert forall i :: 0 <= i < |s.frames| ==> s'.frames[i] == s'.Below()[i] == s.frames[i];
    }
  }

  // ---- The history of a run ----

  datatype Mark = Fired(p: Point) | Left(code: int)

  function MarkOf(e: Event, r: nat): (m: seq<Mark>) {
    match e
    case Fire(run, p, _, _, _, _, _) => if run == r then [Fired(p)] else []
    case Returned(run, c) => if run == r then [Left(c)] else []
    case _ => []
  }

  /** The activities run `r` announced and its return, in order. */
  function Marks(log: seq<Event>, r: nat): (m: seq<Mark>) {
    if log == [] then [] else Marks(log[..|log| - 1], r) + MarkOf(log[|log| - 1], r)
  }

  const PASS: seq<Mark> :=
    [Fired(Entry), Fired(BeforeSources), Fired(BeforeTimers), Fired(BeforeWaiting), Fired(AfterWaiting)]

  /** How many activities a run has announced when it stands at `p`. */
  function Rank(p: Point): (n: nat)
    ensures n <= |PASS|
  {
    match p
    case Entry => 1
    case BeforeSources => 2
    case Sources => 2
    case BeforeTimers => 3
    case Timers => 3
    case BeforeWaiting => 4
    case AfterWaiting => 5
    case Exit => 0
  }

  /** A run announces a prefix of the pass and then EXIT: the full pass, or, when the caller
      asked to return after one source, up to the sources or up to the timers. */
  ghost predicate Ended(code: int, m: seq<Mark>) {
    || (code == HANDLED_SOURCE && (m == PASS[..2] + [Fired(Exit)] || m == PASS[..3] + [Fired(Exit)]))
    || ((code == STOPPED || code == TIMED_OUT) && m == PASS + [Fired(Exit)])
  }

  ghost predicate HistoryOk(f: Frame, m: seq<Mark>) {
    if f.point == Exit then Ended(f.result, m) && (f.result == HANDLED_SOURCE ==> f.returnAfterSource)
    else
      && m == PASS[..Rank(f.point)]
      && (f.result == 0 || (f.point == AfterWaiting && (f.result == STOPPED || f.result == TIMED_OUT)))
  }

  /** ENTRY first, EXIT once and last, then the return. */
  ghost predicate Complete(m: seq<Mark>) {
    exists code :: |m| > 0 && m[|m| - 1] == Left(code) && Ended(code, m[..|m| - 1])
  }

  ghost predicate Active(s: State, r: nat) {
    exists i :: 0 <= i < |s.frames| && s.frames[i].run == r
  }

  ghost predicate Histories(s: State) {
    && (forall i :: 0 <= i < |s.frames| ==> HistoryOk(s.frames[i], Marks(s.log, s.frames[i].run)))
    && (forall r: nat :: r >= s.nextRun ==> Marks(s.log, r) == [])
    && (forall r: nat :: r < s.nextRun && !Active(s, r) ==> Complete(Marks(s.log, r)))
  }

  lemma MarksStep(log: seq<Event>, log': seq<Event>, r: nat)
    requires log <= log' && |log'| <= |log| + 1
    ensures Marks(log', r) == Marks(log, r) + if log' == log then [] else MarkOf(log'[|log|], r)
  {
    if log' != log {
      assert log'[..|log'| - 1] == log;
    } else {
      assert Marks(log, r) + [] == Marks(log, r);
    }
  }

  /** The history of the topmost run after one of its own steps. */
  lemma TopHistory(s: State, o: Objects, a: Action)
    requires Enabled(s, a) && s.frames != [] && HistoryOk(s.Top(), Marks(s.log, s.Top().run))
    requires a.CallbackReturns? || a.Tick?
    ensures var s' := Next(s, o, a);
            TopStep(s, s') ==> HistoryOk(s'.Top(), Marks(s'.log, s.Top().run))
    ensures PopStep(s, Next(s, o, a)) ==> Ended(s.Top().result, Marks(s.log, s.Top().run))
  {
    hide Marks, HistoryOk, Finish, Visit, NextPoint, TopStep;
    if a.CallbackReturns? {
      ReturnShape(s);
      KeepsPlace(s, Return(s));
    } else if s.Top().status == Done {
      FinishHistory(s, o);
    } else if s.Top().todo != [] {
      VisitHistory(s, o);
    } else {
      NextPointHistory(s, a.now);
    }
    ExitEnded(s);
  }

  lemma ExitEnded(s: State)
    requires s.frames != [] && HistoryOk(s.Top(), Marks(s.log, s.Top().run))
    ensures s.Top().point == Exit ==> Ended(s.Top().result, Marks(s.log, s.Top().run))
  {
    hide Marks, Ended;
  }

  /** A step that keeps the place of the run and announces nothing keeps its history. */
  lemma KeepsPlace(s: State, s': State)
    requires TopStep(s, s') && HistoryOk(s.Top(), Marks(s.log, s.Top().run))
    requires KeepsTop(s, s')
    ensures HistoryOk(s'.Top(), Marks(s'.log, s.Top().run))
  {
    hide Marks;
    MarksStep(s.log, s'.log, s.Top().run);
    assert Marks(s.log, s.Top().run) + [] == Marks(s.log, s.Top().run);
  }

  lemma VisitHistory(s: State, o: Objects)
    requires s.frames != [] && s.Top().todo != [] && HistoryOk(s.Top(), Marks(s.log, s.Top().run))
    ensures HistoryOk(Visit(s, o).Top(), Marks(Visit(s, o).log, s.Top().run))
  {
    hide Marks, HistoryOk, Visit, TopStep;
    VisitShape(s, o);
    VisitPlace(s, o);
    KeepsPlace(s, Visit(s, o));
  }

  /** The top run stays where it is and announces nothing. */
  ghost predicate KeepsTop(s: State, s': State)
    requires s.frames != []
  {
    && s'.frames != [] && s'.Top().point == s.Top().point && s'.Top().result == s.Top().result
    && s'.Top().returnAfterSource == s.Top().returnAfterSource
    && (|s'.log| > |s.log| ==> MarkOf(s'.log[|s.log|], s.Top().run) == [])
  }

  lemma PlainPlace(s: State, s1: State, f: Frame)
    requires s1.frames == s.frames && s1.log == s.log && s.frames != []
    requires f.point == s.Top().point && f.result == s.Top().result
    requires f.returnAfterSource == s.Top().returnAfterSource
    ensures KeepsTop(s, s1.With(f))
    ensures forall e :: MarkOf(e, s.Top().run) == [] ==> KeepsTop(s, s1.With(f).Log(e))
  {
  }

  lemma VisitPlace(s: State, o: Objects)
    requires s.frames != [] && s.Top().todo != []
    ensures KeepsTop(s, Visit(s, o))
  {
    hide KeepsTop, Overlaps;
    var f := s.Top();
    var x := f.todo[0];
    var f1 := f.(todo := f.todo[1..], current := x);
    var s1 := s.(signaled := s.signaled - {x});
    PlainPlace(s, s, f1);
    PlainPlace(s, s, f1.(status := Calling));
    PlainPlace(s, s, f1.(status := Done));
    PlainPlace(s, s1, f1.(status := Calling));
    PlainPlace(s, s1, f1.(status := Done));
  }

  lemma FiringHistory(s: State, f: Frame, p: Point, items: seq<Id>, now: real)
    requires s.frames != [] && f.run == s.Top().run
    ensures var s' := StartFiring(s, f, p, items, now);
            && Marks(s'.log, f.run) == Marks(s.log, f.run) + [Fired(p)]
            && s'.frames != [] && s'.Top().run == f.run && s'.Top().point == p
            && s'.Top().result == f.result && s'.Top().returnAfterSource == f.returnAfterSource
  {
    hide Registered, Marks;
    MarksStep(s.log, StartFiring(s, f, p, items, now).log, f.run);
  }

  lemma FinishHistory(s: State, o: Objects)
    requires s.frames != [] && HistoryOk(s.Top(), Marks(s.log, s.Top().run))
    ensures HistoryOk(Finish(s, o).Top(), Marks(Finish(s, o).log, s.Top().run))
  {
    hide Marks, StartFiring;
    var f := s.Top();
    var f' := f.(result := HANDLED_SOURCE);
    var date := if o.interval(f.current) > 0.0 then Some(f.now + o.interval(f.current)) else None;
    var s1 := s.(fireDate := s.fireDate[f.current := date]);
    FiringHistory(s, f', Exit, [], f.now);
    FiringHistory(s1, f', Exit, [], f.now);
  }

  lemma NextPointHistory(s: State, now: real)
    requires s.frames != [] && HistoryOk(s.Top(), Marks(s.log, s.Top().run))
    ensures TopStep(s, NextPoint(s, now)) ==> HistoryOk(NextPoint(s, now).Top(), Marks(NextPoint(s, now).log, s.Top().run))
  {
    hide Marks, StartFiring, TopStep;
    var f := s.Top();
    match f.point
    case Entry => FiringHistory(s, f, BeforeSources, Registered(s.modes, f.mode, Source), f.now);
    case BeforeSources =>
    case Sources => FiringHistory(s, f, BeforeTimers, Registered(s.modes, f.mode, Timer), now);
    case BeforeTimers =>
    case Timers => FiringHistory(s, f, BeforeWaiting, [], f.now);
    case BeforeWaiting => FiringHistory(s, f, AfterWaiting, [], f.now);
    case AfterWaiting =>
      FiringHistory(s, f, Exit, [], f.now);
      MarksStep(s.log, s.log + [StopTaken(Some(f.run))], f.run);
      assert Marks(s.log, f.run) + [] == Marks(s.log, f.run);
    case Exit =>
      NoTopStep(s, now);
  }

  lemma NoTopStep(s: State, now: real)
    requires s.frames != [] && s.Top().point == Exit
    ensures !TopStep(s, NextPoint(s, now))
  {
    var s' := NextPoint(s, now);
    if s'.frames != [] {
      assert |s'.Below()| < |s.Below()|;
    }
  }

  lemma KeepHistories(s: State, o: Objects, a: Action)
    requires Enabled(s, a) && Nested(s) && Histories(s)
    ensures Histories(Next(s, o, a))
  {
    hide Next, Enabled, Marks, HistoryOk, Complete, TopStep, PushStep, PopStep, ClientStep;
    Shapes(s, o, a);
    var s' := Next(s, o, a);
    if a.ClientOp? || (a.Run? && ClientStep(s, s')) {
      ClientHistories(s, s');
    } else if a.Run? {
      PushHistories(s, s');
    } else {
      TopActive(s, a);
      TopHistory(s, o, a);
      if TopStep(s, s') {
        TopHistories(s, s');
      } else {
        PopHistories(s, s');
      }
    }
  }

  lemma TopActive(s: State, a: Action)
    requires Enabled(s, a) && (a.CallbackReturns? || a.Tick?)
    ensures s.frames != []
  {
  }

  lemma ClientHistories(s: State, s': State)
    requires Histories(s) && ClientStep(s, s')
    ensures Histories(s')
  {
    hide Marks, HistoryOk, Complete;
    forall r: nat ensures Marks(s'.log, r) == Marks(s.log, r) && Active(s', r) == Active(s, r) {
      MarksStep(s.log, s'.log, r);
    }
  }

  lemma PushHistories(s: State, s': State)
    requires Nested(s) && Histories(s) && PushStep(s, s')
    ensures Histories(s')
  {
    hide Marks, Complete, HistoryOk;
    PushMarks(s, s');
    assert forall i :: 0 <= i < |s.frames| ==> s'.frames[i] == s'.Below()[i] == s.frames[i];
    assert s'.frames[|s.frames|].run == s.nextRun;
    forall r: nat | r < s'.nextRun && !Active(s', r) ensures r < s.nextRun && !Active(s, r) {
      assert forall i :: 0 <= i < |s.frames| ==> s.frames[i] == s'.frames[i];
    }
  }

  lemma PushMarks(s: State, s': State)
    requires Histories(s) && PushStep(s, s')
    ensures forall r: nat :: r != s.nextRun ==> Marks(s'.log, r) == Marks(s.log, r)
    ensures Marks(s'.log, s.nextRun) == [Fired(Entry)]
    ensures HistoryOk(s'.Top(), Marks(s'.log, s.nextRun))
  {
    hide Marks, Complete;
    MarksStep(s.log, s'.log, s.nextRun);
    forall r: nat | r != s.nextRun ensures Marks(s'.log, r) == Marks(s.log, r) {
      MarksStep(s.log, s'.log, r);
      assert Marks(s.log, r) + [] == Marks(s.log, r);
    }
  }

  lemma TopHistories(s: State, s': State)
    requires Nested(s) && Histories(s) && TopStep(s, s')
    requires HistoryOk(s'.Top(), Marks(s'.log, s.Top().run))
    ensures Histories(s')
  {
    hide Marks, HistoryOk, Complete;
    var n := |s.frames| - 1;
    assert forall i :: 0 <= i < n ==> s'.frames[i] == s'.Below()[i] == s.Below()[i] == s.frames[i];
    forall r: nat ensures r != s.Top().run ==> Marks(s'.log, r) == Marks(s.log, r) {
      MarksStep(s.log, s'.log, r);
      assert Marks(s.log, r) + [] == Marks(s.log, r);
    }
    forall r: nat ensures Active(s', r) == Active(s, r) {
      SameRuns(s, s', r);
      SameRuns(s', s, r);
    }
  }

  lemma SameRuns(s: State, s': State, r: nat)
    requires |s'.frames| == |s.frames|
    requires forall i :: 0 <= i < |s.frames| ==> s'.frames[i].run == s.frames[i].run
    ensures Active(s, r) ==> Active(s', r)
  {
    if Active(s, r) {
      var i :| 0 <= i < |s.frames| && s.frames[i].run == r;
      assert s'.frames[i].run == r;
    }
  }

  lemma PopHistories(s: State, s': State)
    requires Nested(s) && Histories(s) && PopStep(s, s')
    requires Ended(s.Top().result, Marks(s.log, s.Top().run))
    ensures Histories(s')
  {
    hide Marks, HistoryOk, Ended;
    var top := s.Top().run;
    forall r: nat
      ensures r != top ==> Marks(s'.log, r) == Marks(s.log, r)
      ensures Marks(s'.log, top) == Marks(s.log, top) + [Left(s.Top().result)]
    {
      MarksStep(s.log, s'.log, r);
      MarksStep(s.log, s'.log, top);
    }
    assert Complete(Marks(s'.log, top)) by {
      var m := Marks(s'.log, top);
      assert m[..|m| - 1] == Marks(s.log, top) && m[|m| - 1] == Left(s.Top().result);
    }
    forall r: nat | r < s'.nextRun && !Active(s', r) && r != top ensures !Active(s, r) {
      assert forall i :: 0 <= i < |s'.frames| ==> s.frames[i] == s'.frames[i];
    }
  }
}
