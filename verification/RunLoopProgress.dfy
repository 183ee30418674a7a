/** That things happen: client operations take effect, callbacks get control, and runs come to an end. */
module RunLoopProgress {
  import opened Memory
  import opened MachO
  import opened RunLoop
  import opened RunLoopHistory
  import opened RunLoopObservers
  import opened RunLoopOutcomes
  import opened RunLoopTheorems

  // ---- Client operations ----

  /** Adding registers a non-null item in the mode named, or in all common modes, and nowhere else. */
  lemma AddTakesEffect(s: State, k: Kind, x: Id, m: string)
    requires RegistriesOk(s.modes)
    ensures forall n, j, y :: y in Registered(Apply(s, Add(k, x, m)).modes, n, j) <==>
              || y in Registered(s.modes, n, j)
              || (x != 0 && j == k && y == x && if m == "kCFRunLoopCommonModes" then n in s.commonModes else n == m)
  {
    hide AddTo, Registered;
    if x != 0 {
      AddRegisters(s.modes, Targets(s.commonModes, m), k, x);
    }
  }

  /** Removing unregisters it there and nowhere else. */
  lemma RemoveTakesEffect(s: State, k: Kind, x: Id, m: string)
    requires RegistriesOk(s.modes)
    ensures forall n, j, y :: y in Registered(Apply(s, Remove(k, x, m)).modes, n, j) <==>
              && y in Registered(s.modes, n, j)
              && !(x != 0 && j == k && y == x && if m == "kCFRunLoopCommonModes" then n in s.commonModes else n == m)
  {
    hide RemoveFrom, Registered;
    if x != 0 {
      RemoveUnregisters(s.modes, Targets(s.commonModes, m), k, x);
    }
  }

  /** A new item is registered last, and an item already there keeps its place. */
  lemma AddedLast(s: State, k: Kind, x: Id, m: string)
    requires x != 0 && m != "kCFRunLoopCommonModes"
    ensures var before := Registered(s.modes, m, k);
            Registered(Apply(s, Add(k, x, m)).modes, m, k) == if x in before then before else before + [x]
  {
  }

  /** Removal keeps the order of the others: it works on each part of a list by itself. */
  lemma {:induction false} RemovedInPlace(s: seq<Id>, t: seq<Id>, x: Id)
    ensures Without(s + t, x) == Without(s, x) + Without(t, x)
    ensures |s| == 1 ==> Without(s, x) == if s[0] == x then [] else s
  {
    if s == [] {
      assert s + t == t;
    } else {
      assert (s + t)[1..] == s[1..] + t;
      RemovedInPlace(s[1..], t, x);
    }
  }

  /** Signals, stops, dates and common modes are there once the call returns. */
  lemma OperationsTakeEffect(s: State, x: Id, d: real, m: string)
    ensures Apply(s, Signal(x)).signaled == s.signaled + (if x != 0 then {x} else {})
    ensures Apply(s, Stop).stopped
    ensures var r := Apply(s, CreateTimer(x, d)); x in r.fireDate && r.fireDate[x] == Some(d)
    ensures var r := Apply(s, AddCommonMode(m)); m in r.commonModes && m in r.modes && s.commonModes <= r.commonModes
  {
  }

  /** Unless a stop is pending, a call starts a run in the mode named, which then exists, with the
      caller's wish to return after one source; the run announces ENTRY at once. */
  lemma RunStarts(s: State, m: string, once: bool)
    requires !s.stopped
    ensures var s' := Enter(s, m, once);
            && s'.frames == s.frames + [s'.Top()] && s'.Top().mode == m && s'.Top().returnAfterSource == once
            && m in s'.modes && s'.modeStack == s.modeStack + [m]
            && |s'.log| == |s.log| + 1 && s'.log[|s.log|].Fire? && s'.log[|s.log|].point == Entry
            && s'.log[|s.log|].run == s'.Top().run
  {
  }

  // ---- Callbacks ----

  /** The bits of CFRunLoopActivity: 1 ENTRY, 2 BEFORE_TIMERS, 4 BEFORE_SOURCES, 32 BEFORE_WAITING,
      64 AFTER_WAITING, 128 EXIT; `unused` are the two bits in between, `high` all above. */
  function Mask(asked: set<Point>, unused: nat, high: nat): (mask: nat) {
    One(asked, Entry) + 2 * One(asked, BeforeTimers) + 4 * One(asked, BeforeSources) + 8 * unused +
    32 * One(asked, BeforeWaiting) + 64 * One(asked, AfterWaiting) + 128 * One(asked, Exit) + 256 * high
  }

  function One(asked: set<Point>, p: Point): (b: nat)
    ensures b < 2 && (b == 1 <==> p in asked)
  {
    if p in asked then 1 else 0
  }

  /** An observer is told about an activity if and only if its mask has that activity's bit. */
  lemma MaskAsks(asked: set<Point>, unused: nat, high: nat, p: Point)
    requires unused < 4 && p.IsActivity()
    ensures Overlaps(Mask(asked, unused, high), p.Bit()) <==> p in asked
  {
    hide Overlaps, One;
    var e, t, s := One(asked, Entry), One(asked, BeforeTimers), One(asked, BeforeSources);
    var w, a, x := One(asked, BeforeWaiting), One(asked, AfterWaiting), One(asked, Exit);
    match p
    case Entry => BitSet(0, 1, e, t + 2 * s + 4 * unused + 16 * w + 32 * a + 64 * x + 128 * high);
    case BeforeTimers => BitSet(e, 2, t, s + 2 * unused + 8 * w + 16 * a + 32 * x + 64 * high);
    case BeforeSources => BitSet(e + 2 * t, 4, s, unused + 4 * w + 8 * a + 16 * x + 32 * high);
    case BeforeWaiting => BitSet(e + 2 * t + 4 * s + 8 * unused, 32, w, a + 2 * x + 4 * high);
    case AfterWaiting => BitSet(e + 2 * t + 4 * s + 8 * unused + 32 * w, 64, a, x + 2 * high);
    case Exit => BitSet(e + 2 * t + 4 * s + 8 * unused + 32 * w + 64 * a, 128, x, high);
  }

  lemma BitSet(low: nat, bit: nat, b: nat, high: nat)
    requires low < bit && b < 2
    ensures Overlaps(low + bit * b + 2 * bit * high, bit) <==> b == 1
  {
    assert low + bit * b + 2 * bit * high == low + (b + 2 * high) * bit;
    Pack(low, b + 2 * high, bit);
  }

  /** A dispatch, a firing or a notice gives control to the client's callback, if there is one, with the
      item it is about; and a run gives control to nothing else. */
  lemma CallbackRuns(s: State, o: Objects, now: real)
    requires !s.ClientActive()
    ensures var s' := Advance(s, o, now);
            if |s'.log| > |s.log| && IsItem(s'.log[|s.log|]) then
              var e := s'.log[|s.log|];
              && s'.frames != [] && s'.Top().run == e.run && s'.Top().current == ItemOf(e)
              && (s'.ClientActive() <==> HasCallback(o, e))
            else TopStep(s, s') ==> !s'.ClientActive()
  {
    hide Finish, Visit, NextPoint, TopStep, Overlaps;
    if s.Top().status == RunLoop.Done {
      FinishQuiet(s, o);
    } else if s.Top().todo != [] {
      VisitCalls(s, o);
    } else {
      NextPointQuiet(s, now);
    }
  }

  predicate IsItem(e: Event) {
    e.Dispatch? || e.FireTimer? || e.Notify?
  }

  function ItemOf(e: Event): (x: Id)
    requires IsItem(e)
  {
    match e
    case Dispatch(_, x) => x
    case FireTimer(_, x) => x
    case Notify(_, x, _) => x
  }

  predicate HasCallback(o: Objects, e: Event)
    requires IsItem(e)
  {
    match e
    case Dispatch(_, x) => o.performs(x)
    case FireTimer(_, x) => o.fires(x)
    case Notify(_, x, _) => o.observes(x)
  }

  lemma FinishQuiet(s: State, o: Objects)
    requires s.frames != []
    ensures var s' := Finish(s, o);
            && s'.frames != [] && s'.Top().status == Idle
            && (|s'.log| > |s.log| ==> s'.log[|s.log|].Fire?)
  {
    hide Registered, StartFiring;
    var f := s.Top();
    var g := f.(result := HANDLED_SOURCE);
    FiringQuiet(s, g, Exit, [], f.now);
    FiringQuiet(Rearmed(s, f, o.interval(f.current)), g, Exit, [], f.now);
  }

  lemma NextPointQuiet(s: State, now: real)
    requires s.frames != [] && s.Top().status == Idle
    ensures var s' := NextPoint(s, now);
            && (|s'.log| > |s.log| ==> !IsItem(s'.log[|s.log|]))
            && (TopStep(s, s') ==> !s'.ClientActive())
  {
    hide Registered, StartFiring, TopStep;
    var f := s.Top();
    match f.point
    case Entry => FiringQuiet(s, f, BeforeSources, Registered(s.modes, f.mode, Source), f.now);
    case Sources => FiringQuiet(s, f, BeforeTimers, Registered(s.modes, f.mode, Timer), now);
    case Timers => FiringQuiet(s, f, BeforeWaiting, [], f.now);
    case BeforeWaiting => FiringQuiet(s, f, AfterWaiting, [], f.now);
    case AfterWaiting => FiringQuiet(s, f, Exit, [], f.now);
    case Exit => NoTopStep(s, now);
    case _ =>
  }

  lemma FiringQuiet(s: State, f: Frame, p: Point, items: seq<Id>, now: real)
    requires s.frames != []
    ensures var s' := StartFiring(s, f, p, items, now);
            && s'.frames != [] && s'.Top().status == Idle && !s'.ClientActive()
            && s'.Top().point == p && s'.Top().result == f.result && s'.Top().run == f.run
            && |s'.log| == |s.log| + 1 && s'.log[|s.log|].Fire?
  {
    hide Registered;
  }

  lemma VisitCalls(s: State, o: Objects)
    requires s.frames != [] && s.Top().todo != [] && s.Top().status == Idle
    ensures var s' := Visit(s, o);
            && s'.frames != []
            && if |s'.log| > |s.log| && IsItem(s'.log[|s.log|]) then
                 var e := s'.log[|s.log|];
                 && s'.Top().run == e.run && s'.Top().current == ItemOf(e)
                 && (s'.ClientActive() <==> HasCallback(o, e))
               else !s'.ClientActive()
  {
    hide Overlaps, VisitSource, VisitTimer, VisitObserver;
    match s.Top().point
    case Sources => SourceCalls(s, o);
    case Timers => TimerCalls(s, o);
    case _ => ObserverCalls(s, o);
  }

  lemma SourceCalls(s: State, o: Objects)
    requires s.frames != [] && s.Top().todo != [] && s.Top().status == Idle
    ensures var f, s' := s.Top(), VisitSource(s, o);
            && s'.frames != [] && s'.Top().run == f.run && s'.Top().current == f.todo[0]
            && (s'.log == s.log || s'.log == s.log + [Dispatch(f.run, f.todo[0])])
            && (s'.ClientActive() <==> s'.log != s.log && o.performs(f.todo[0]))
  {
  }

  lemma TimerCalls(s: State, o: Objects)
    requires s.frames != [] && s.Top().todo != [] && s.Top().status == Idle
    ensures var f, s' := s.Top(), VisitTimer(s, o);
            && s'.frames != [] && s'.Top().run == f.run && s'.Top().current == f.todo[0]
            && (s'.log == s.log + [PassedOver(f.run, f.todo[0])] || s'.log == s.log + [FireTimer(f.run, f.todo[0])])
            && (s'.ClientActive() <==> s'.log[|s.log|].FireTimer? && o.fires(f.todo[0]))
  {
  }

  lemma ObserverCalls(s: State, o: Objects)
    requires s.frames != [] && s.Top().todo != [] && s.Top().status == Idle && s.Top().point.IsActivity()
    ensures var f, s' := s.Top(), VisitObserver(s, o);
            && s'.frames != [] && s'.Top().run == f.run && s'.Top().current == f.todo[0]
            && (s'.log == s.log || s'.log == s.log + [Notify(f.run, f.todo[0], f.point)])
            && (s'.ClientActive() <==> s'.log != s.log) && (s'.log != s.log ==> o.observes(f.todo[0]))
  {
    hide Overlaps;
  }

  // ---- Runs end ----

  /** How far a run is from its return; the wait decides the result, and then EXIT is announced. */
  function Stage(f: Frame): (n: nat) {
    match f.point
    case Entry => 9
    case BeforeSources => 8
    case Sources => 7
    case BeforeTimers => 6
    case Timers => 5
    case BeforeWaiting => 4
    case AfterWaiting => if f.result == 0 then 3 else 2
    case Exit => 1
  }

  function Pending(f: Frame): (n: nat) {
    match f.status
    case Calling => 2
    case Done => 1
    case Idle => 0
  }

  /** The run has come closer to its return: a later stage, fewer items to look at, or less to wait for. */
  predicate Closer(f': Frame, f: Frame) {
    || Stage(f') < Stage(f)
    || (Stage(f') == Stage(f) && |f'.todo| < |f.todo|)
    || (Stage(f') == Stage(f) && |f'.todo| == |f.todo| && Pending(f') < Pending(f))
  }

  /** Every step of a run brings it closer to its return, or is its return. */
  lemma TickProgresses(s: State, o: Objects, now: real)
    requires !s.ClientActive()
    ensures var s' := Advance(s, o, now);
            PopStep(s, s') || (TopStep(s, s') && Closer(s'.Top(), s.Top()))
  {
    hide Finish, Visit, NextPoint, TopStep, PopStep;
    if s.Top().status == RunLoop.Done {
      FinishShape(s, o);
      FinishCloser(s, o);
    } else if s.Top().todo != [] {
      VisitShape(s, o);
      VisitCloser(s, o);
    } else {
      NextPointShape(s, now);
      NextPointCloser(s, now);
    }
  }

  lemma FinishCloser(s: State, o: Objects)
    requires s.frames != [] && s.Top().status == RunLoop.Done
    ensures Finish(s, o).frames != [] && Closer(Finish(s, o).Top(), s.Top())
  {
    hide Registered, StartFiring;
    var f := s.Top();
    var g := f.(result := HANDLED_SOURCE);
    FiringQuiet(s, g, Exit, [], f.now);
    FiringQuiet(Rearmed(s, f, o.interval(f.current)), g, Exit, [], f.now);
  }

  lemma VisitCloser(s: State, o: Objects)
    requires s.frames != [] && s.Top().todo != []
    ensures Visit(s, o).frames != [] && Closer(Visit(s, o).Top(), s.Top())
  {
    hide Visited, Visit;
    VisitFrame(s, o);
    VisitedCloser(s, Visit(s, o));
  }

  lemma VisitedCloser(s: State, s': State)
    requires s.frames != [] && s.Top().todo != [] && Visited(s, s')
    ensures s'.frames != [] && Closer(s'.Top(), s.Top())
  {
  }

  lemma NextPointCloser(s: State, now: real)
    requires s.frames != [] && s.Top().status == Idle
    ensures TopStep(s, NextPoint(s, now)) ==> Closer(NextPoint(s, now).Top(), s.Top())
  {
    hide Registered, StartFiring, TopStep;
    var f := s.Top();
    match f.point
    case Entry => FiringQuiet(s, f, BeforeSources, Registered(s.modes, f.mode, Source), f.now);
    case Sources => FiringQuiet(s, f, BeforeTimers, Registered(s.modes, f.mode, Timer), now);
    case Timers => FiringQuiet(s, f, BeforeWaiting, [], f.now);
    case BeforeWaiting => FiringQuiet(s, f, AfterWaiting, [], f.now);
    case AfterWaiting => FiringQuiet(s, f, Exit, [], f.now);
    case Exit => NoTopStep(s, now);
    case _ =>
  }

  /** Every run can end: from any state with an active run there is an execution in which callbacks just
      return, and at whose end the topmost run has returned. */
  lemma {:induction false} RunCanEnd(s: State, o: Objects) returns (tr: seq<State>)
    requires s.frames != []
    ensures Execution(tr, o) && tr[0] == s && tr[|tr| - 1].frames == s.Below()
    ensures |tr[|tr| - 1].log| > 0 && tr[|tr| - 1].log[|tr[|tr| - 1].log| - 1].Returned?
    decreases Stage(s.Top()), |s.Top().todo|, Pending(s.Top())
  {
    hide Advance, TopStep, Closer, Steps;
    var a := if s.ClientActive() then CallbackReturns else Tick(0.0);
    assert Enabled(s, a);
    var s' := Next(s, o, a);
    assert Steps(s, s', o) by { StepBy(s, o, a); }
    if s.ClientActive() {
      ReturnShape(s);
      ReturnCloser(s);
    } else {
      TickProgresses(s, o, 0.0);
    }
    if PopStep(s, s') && !s.ClientActive() {
      tr := [s, s'];
    } else {
      SameBelow(s, s');
      assert Closer(s'.Top(), s.Top());
      CloserDecreases(s'.Top(), s.Top());
      var rest := RunCanEnd(s', o);
      tr := [s] + rest;
      Extended(s, rest, o);
    }
  }

  lemma StepBy(s: State, o: Objects, a: Action)
    requires Enabled(s, a)
    ensures Steps(s, Next(s, o, a), o)
  {
  }

  lemma ReturnCloser(s: State)
    requires s.frames != [] && s.Top().status == Calling
    ensures Return(s).frames != [] && Closer(Return(s).Top(), s.Top())
  {
  }

  lemma SameBelow(s: State, s': State)
    requires TopStep(s, s')
    ensures s'.frames != [] && s'.Below() == s.Below()
  {
  }

  lemma CloserDecreases(f': Frame, f: Frame)
    requires Closer(f', f)
    ensures Stage(f') < Stage(f) || (Stage(f') == Stage(f) &&
              (|f'.todo| < |f.todo| || (|f'.todo| == |f.todo| && Pending(f') < Pending(f))))
  {
  }

  lemma Extended(s: State, rest: seq<State>, o: Objects)
    requires Execution(rest, o) && Steps(s, rest[0], o)
    ensures Execution([s] + rest, o)
  {
    hide Steps;
    var tr := [s] + rest;
    forall i | 0 <= i < |tr| - 1 ensures Steps(tr[i], tr[i + 1], o) {
      if i > 0 {
        assert Steps(rest[i - 1], rest[i - 1 + 1], o);
      }
    }
  }
}
