/** What the observers of a run are told: between two announcements of a run, each observer that was
registered at the first, has a callback and asked for the activity, once and in registration order.
*/
module RunLoopObservers {
  import opened MachO
  import opened RunLoop
  import opened RunLoopHistory

  /** What telling `obs` about `p` looks like in the log. */
  function Notices(o: Objects, r: nat, p: Point, obs: seq<Id>): (es: seq<Event>) {
    if obs == [] || !p.IsActivity() then []
    else
      (if Overlaps(o.activities(obs[0]), p.Bit()) && o.observes(obs[0]) then [Notify(r, obs[0], p)] else []) +
      Notices(o, r, p, obs[1..])
  }

  /** The last announcement of run `r`. */
  function Announced(log: seq<Event>, r: nat): (e: Option<Event>)
    ensures e.Some? ==> e.value.Fire?
  {
    if log == [] then None
    else
      var e := log[|log| - 1];
      if e.Fire? && e.run == r then Some(e) else Announced(log[..|log| - 1], r)
  }

  /** What run `r` has told its observers since its last announcement. */
  function Told(log: seq<Event>, r: nat): (es: seq<Event>) {
    if log == [] then []
    else
      var e := log[|log| - 1];
      if e.Fire? && e.run == r then []
      else Told(log[..|log| - 1], r) + if e.Notify? && e.run == r then [e] else []
  }

  /** Everyone has been told about the last announcement of `r`. */
  ghost predicate AllTold(log: seq<Event>, o: Objects, r: nat) {
    var a := Announced(log, r);
    a.Some? && Told(log, r) == Notices(o, r, a.value.point, a.value.observers)
  }

  /** A run that is telling its observers has still to tell those in its `todo`. */
  ghost predicate FrameTold(log: seq<Event>, o: Objects, f: Frame) {
    if f.point.IsActivity() then
      var a := Announced(log, f.run);
      && a.Some? && a.value.point == f.point
      && Told(log, f.run) + Notices(o, f.run, f.point, f.todo) == Notices(o, f.run, f.point, a.value.observers)
    else AllTold(log, o, f.run)
  }

  /** When a run announces its next activity, or returns, everyone has been told about the last. */
  ghost predicate ToldAt(log: seq<Event>, o: Objects, j: nat)
    requires j < |log|
  {
    (log[j].Fire? || log[j].Returned?) && Announced(log[..j], log[j].run).Some? ==> AllTold(log[..j], o, log[j].run)
  }

  ghost predicate ObserversTold(s: State, o: Objects) {
    && (forall i :: 0 <= i < |s.frames| ==> FrameTold(s.log, o, s.frames[i]))
    && (forall r: nat :: r >= s.nextRun ==> Announced(s.log, r) == None)
    && (forall j :: 0 <= j < |s.log| ==> ToldAt(s.log, o, j))
  }

  // ---- The log ----

  lemma ToldStep(log: seq<Event>, log': seq<Event>, r: nat)
    requires log <= log' && |log'| <= |log| + 1
    requires |log'| > |log| ==> MarksOther(log'[|log|], r) || !(log'[|log|].Fire? || log'[|log|].Notify?)
    ensures Told(log', r) == Told(log, r) && Announced(log', r) == Announced(log, r)
  {
    if log' != log {
      assert log'[..|log'| - 1] == log;
      assert Told(log, r) + [] == Told(log, r);
    }
  }

  lemma ToldAtStable(log: seq<Event>, log': seq<Event>, o: Objects)
    requires log <= log' && |log'| <= |log| + 1
    requires forall j :: 0 <= j < |log| ==> ToldAt(log, o, j)
    requires |log'| > |log| ==> ToldAt(log', o, |log|)
    ensures forall j :: 0 <= j < |log'| ==> ToldAt(log', o, j)
  {
    hide AllTold;
    forall j | 0 <= j < |log'| ensures ToldAt(log', o, j) {
      if j < |log| {
        assert ToldAt(log, o, j);
        assert log'[j] == log[j] && log'[..j] == log[..j];
      }
    }
  }

  // ---- Steps of the topmost run ----

  /** A pass with nobody left to tell has told everyone. */
  lemma PassTold(log: seq<Event>, o: Objects, f: Frame)
    requires FrameTold(log, o, f) && (f.point.IsActivity() ==> f.todo == [])
    ensures AllTold(log, o, f.run)
  {
    assert Told(log, f.run) + [] == Told(log, f.run);
  }

  lemma FiringTold(s: State, f: Frame, p: Point, items: seq<Id>, now: real, o: Objects)
    requires s.frames != [] && AllTold(s.log, o, f.run)
    ensures var s' := StartFiring(s, f, p, items, now);
            && s.log <= s'.log && |s'.log| == |s.log| + 1 && ToldAt(s'.log, o, |s.log|)
            && s'.frames != [] && (p.IsActivity() ==> FrameTold(s'.log, o, s'.Top()))
  {
    hide Notices;
    var s' := StartFiring(s, f, p, items, now);
    assert s'.log[..|s.log|] == s.log;
    assert Told(s'.log, f.run) == [] && Announced(s'.log, f.run) == Some(s'.log[|s.log|]);
    var all := Notices(o, f.run, p, Registered(s.modes, f.mode, Observer));
    assert [] + all == all;
  }

  lemma SameTold(log: seq<Event>, o: Objects, f: Frame, f': Frame)
    requires FrameTold(log, o, f) && f'.run == f.run && f'.point == f.point && f'.todo == f.todo
    ensures FrameTold(log, o, f')
  {
  }

  /** Inside a source or timer pass nothing is told. */
  lemma ItemTold(log: seq<Event>, o: Objects, f: Frame, f': Frame, e: Event)
    requires FrameTold(log, o, f) && !f.point.IsActivity() && f'.run == f.run && f'.point == f.point
    requires !e.Fire? && !e.Notify? && !e.Returned?
    ensures FrameTold(log, o, f') && FrameTold(log + [e], o, f') && ToldAt(log + [e], o, |log|)
  {
    ToldStep(log, log + [e], f.run);
  }

  /** The observer at the head of the pass asked for the activity and has a callback. */
  predicate IsTold(o: Objects, f: Frame)
    requires f.point.IsActivity() && f.todo != []
  {
    Overlaps(o.activities(f.todo[0]), f.point.Bit()) && o.observes(f.todo[0])
  }

  lemma ObserverSeen(s: State, o: Objects)
    requires s.frames != [] && s.Top().todo != [] && s.Top().point.IsActivity()
    ensures var f, s' := s.Top(), Visit(s, o);
            && s'.frames != [] && s'.Top().run == f.run && s'.Top().point == f.point && s'.Top().todo == f.todo[1..]
            && s'.log == if IsTold(o, f) then s.log + [Notify(f.run, f.todo[0], f.point)] else s.log
  {
    hide Overlaps, VisitSource, VisitTimer, VisitObserver;
    ActivityVisit(s, o);
    ObserverSeenAt(s, o);
  }

  lemma ActivityVisit(s: State, o: Objects)
    requires s.frames != [] && s.Top().todo != [] && s.Top().point.IsActivity()
    ensures Visit(s, o) == VisitObserver(s, o)
  {
    hide VisitSource, VisitTimer, VisitObserver;
  }

  lemma ObserverSeenAt(s: State, o: Objects)
    requires s.frames != [] && s.Top().todo != [] && s.Top().point.IsActivity()
    ensures var f, s' := s.Top(), VisitObserver(s, o);
            && s'.frames != [] && s'.Top().run == f.run && s'.Top().point == f.point && s'.Top().todo == f.todo[1..]
            && s'.log == if IsTold(o, f) then s.log + [Notify(f.run, f.todo[0], f.point)] else s.log
  {
    hide Overlaps;
  }

  lemma VisitItem(s: State, o: Objects)
    requires s.frames != [] && s.Top().todo != [] && !s.Top().point.IsActivity()
    ensures var f, s', x := s.Top(), Visit(s, o), s.Top().todo[0];
            && s'.frames != [] && s'.Top().run == f.run && s'.Top().point == f.point
            && (s'.log == s.log || s'.log == s.log + [Dispatch(f.run, x)] || s'.log == s.log + [FireTimer(f.run, x)] ||
                s'.log == s.log + [PassedOver(f.run, x)])
  {
  }

  lemma VisitTold(s: State, o: Objects)
    requires s.frames != [] && s.Top().todo != [] && FrameTold(s.log, o, s.Top())
    ensures var s' := Visit(s, o);
            && s'.frames != [] && FrameTold(s'.log, o, s'.Top())
            && (|s'.log| > |s.log| ==> ToldAt(s'.log, o, |s.log|))
  {
    hide FrameTold, ToldAt, IsTold, Visit;
    var f := s.Top();
    if f.point.IsActivity() {
      ObserverSeen(s, o);
      if IsTold(o, f) {
        ObserverTold(s.log, o, f, Visit(s, o).Top());
      } else {
        ObserverSkipped(s.log, o, f, Visit(s, o).Top());
      }
    } else {
      VisitItem(s, o);
      ItemTold(s.log, o, f, Visit(s, o).Top(), Dispatch(f.run, f.todo[0]));
      ItemTold(s.log, o, f, Visit(s, o).Top(), FireTimer(f.run, f.todo[0]));
      ItemTold(s.log, o, f, Visit(s, o).Top(), PassedOver(f.run, f.todo[0]));
    }
  }

  lemma NoticesStep(o: Objects, f: Frame)
    requires f.point.IsActivity() && f.todo != []
    ensures Notices(o, f.run, f.point, f.todo) ==
            (if IsTold(o, f) then [Notify(f.run, f.todo[0], f.point)] else []) + Notices(o, f.run, f.point, f.todo[1..])
  {
    hide Overlaps;
  }

  lemma ToldOne(log: seq<Event>, e: Event)
    requires e.Notify?
    ensures Told(log + [e], e.run) == Told(log, e.run) + [e] && Announced(log + [e], e.run) == Announced(log, e.run)
  {
    assert (log + [e])[..|log|] == log;
  }

  /** The next observer asked for the activity and is told. */
  lemma ObserverTold(log: seq<Event>, o: Objects, f: Frame, f': Frame)
    requires f.point.IsActivity() && f.todo != [] && FrameTold(log, o, f) && IsTold(o, f)
    requires f'.run == f.run && f'.point == f.point && f'.todo == f.todo[1..]
    ensures var e := Notify(f.run, f.todo[0], f.point);
            FrameTold(log + [e], o, f') && ToldAt(log + [e], o, |log|)
  {
    hide IsTold, Notices, Told, Announced;
    var e := Notify(f.run, f.todo[0], f.point);
    NoticesStep(o, f);
    ToldOne(log, e);
    var rest := Notices(o, f.run, f.point, f.todo[1..]);
    assert Told(log, f.run) + ([e] + rest) == Told(log, f.run) + [e] + rest;
  }

  /** The next observer did not ask for the activity and is passed over. */
  lemma ObserverSkipped(log: seq<Event>, o: Objects, f: Frame, f': Frame)
    requires f.point.IsActivity() && f.todo != [] && FrameTold(log, o, f) && !IsTold(o, f)
    requires f'.run == f.run && f'.point == f.point && f'.todo == f.todo[1..]
    ensures FrameTold(log, o, f')
  {
    hide IsTold, Notices, Told, Announced;
    NoticesStep(o, f);
    var rest := Notices(o, f.run, f.point, f.todo[1..]);
    assert [] + rest == rest;
  }

  lemma FinishTold(s: State, o: Objects)
    requires s.frames != [] && FrameTold(s.log, o, s.Top())
    ensures var s' := Finish(s, o);
            && s'.frames != [] && FrameTold(s'.log, o, s'.Top())
            && (|s'.log| > |s.log| ==> ToldAt(s'.log, o, |s.log|))
  {
    hide FrameTold, ToldAt, StartFiring;
    var f := s.Top();
    SameTold(s.log, o, f, f.(status := Idle));
    if f.point == Sources || f.point == Timers {
      PassTold(s.log, o, f);
      var g := f.(result := HANDLED_SOURCE);
      FiringTold(s, g, Exit, [], f.now, o);
      FiringTold(Rearmed(s, f, o.interval(f.current)), g, Exit, [], f.now, o);
    }
  }

  lemma NextPointTold(s: State, o: Objects, now: real)
    requires s.frames != [] && s.Top().todo == [] && FrameTold(s.log, o, s.Top())
    ensures var s' := NextPoint(s, now);
            && (s.Top().point != Exit ==> s'.frames != [] && FrameTold(s'.log, o, s'.Top()))
            && (|s'.log| > |s.log| ==> ToldAt(s'.log, o, |s.log|))
  {
    hide FrameTold, ToldAt, AllTold, StartFiring, Registered;
    var f := s.Top();
    PassTold(s.log, o, f);
    match f.point
    case Entry => FiringTold(s, f, BeforeSources, Registered(s.modes, f.mode, Source), f.now, o);
    case BeforeSources => ToItems(s.log, o, f, Sources);
    case Sources => FiringTold(s, f, BeforeTimers, Registered(s.modes, f.mode, Timer), now, o);
    case BeforeTimers => ToItems(s.log, o, f, Timers);
    case Timers => FiringTold(s, f, BeforeWaiting, [], f.now, o);
    case BeforeWaiting => FiringTold(s, f, AfterWaiting, [], f.now, o);
    case AfterWaiting =>
      FiringTold(s, f, Exit, [], f.now, o);
      SameTold(s.log, o, f, f.(result := TIMED_OUT));
      SameTold(s.log, o, f, f.(result := STOPPED));
      StopTold(s.log, o, f.(result := STOPPED));
    case Exit => ReturnTold(s.log, o, f, f.result);
  }

  lemma ToItems(log: seq<Event>, o: Objects, f: Frame, p: Point)
    requires AllTold(log, o, f.run) && !p.IsActivity()
    ensures FrameTold(log, o, f.(point := p, todo := f.items))
  {
  }

  lemma StopTold(log: seq<Event>, o: Objects, f: Frame)
    requires FrameTold(log, o, f)
    ensures var e := StopTaken(Some(f.run)); FrameTold(log + [e], o, f) && ToldAt(log + [e], o, |log|)
  {
    ToldStep(log, log + [StopTaken(Some(f.run))], f.run);
  }

  lemma ReturnTold(log: seq<Event>, o: Objects, f: Frame, code: int)
    requires AllTold(log, o, f.run)
    ensures ToldAt(log + [Returned(f.run, code)], o, |log|)
  {
    assert (log + [Returned(f.run, code)])[..|log|] == log;
  }

  lemma TopTold(s: State, o: Objects, a: Action)
    requires Enabled(s, a) && (a.CallbackReturns? || a.Tick?)
    requires s.frames != [] && FrameTold(s.log, o, s.Top())
    ensures var s' := Next(s, o, a);
            && (TopStep(s, s') ==> FrameTold(s'.log, o, s'.Top()))
            && (|s'.log| > |s.log| ==> ToldAt(s'.log, o, |s.log|))
  {
    hide FrameTold, ToldAt, Finish, Visit, NextPoint, TopStep;
    if a.CallbackReturns? {
      SameTold(s.log, o, s.Top(), s.Top().(status := RunLoop.Done));
    } else if s.Top().status == RunLoop.Done {
      FinishTold(s, o);
    } else if s.Top().todo != [] {
      VisitTold(s, o);
    } else {
      NextPointTold(s, o, a.now);
      if s.Top().point == Exit {
        NoTopStep(s, a.now);
      }
    }
  }

  // ---- The whole state ----

  lemma KeepObserversTold(s: State, o: Objects, a: Action)
    requires Enabled(s, a) && Nested(s) && ObserversTold(s, o)
    ensures ObserversTold(Next(s, o, a), o)
  {
    hide Next, Enabled, FrameTold, ToldAt, TopStep, PushStep, PopStep, ClientStep;
    Shapes(s, o, a);
    var s' := Next(s, o, a);
    if a.ClientOp? || (a.Run? && ClientStep(s, s')) {
      ClientTold(s, s', o);
    } else if a.Run? {
      PushTold(s, s', o);
    } else {
      TopActive(s, a);
      TopTold(s, o, a);
      if TopStep(s, s') {
        TopStepTold(s, s', o);
      } else {
        PopTold(s, s', o);
      }
    }
  }

  lemma OtherFrameTold(log: seq<Event>, log': seq<Event>, o: Objects, f: Frame)
    requires FrameTold(log, o, f) && log <= log' && |log'| <= |log| + 1
    requires |log'| > |log| ==> MarksOther(log'[|log|], f.run) || !(log'[|log|].Fire? || log'[|log|].Notify?)
    ensures FrameTold(log', o, f)
  {
    ToldStep(log, log', f.run);
  }

  lemma ClientTold(s: State, s': State, o: Objects)
    requires ObserversTold(s, o) && ClientStep(s, s')
    ensures ObserversTold(s', o)
  {
    hide FrameTold;
    forall i | 0 <= i < |s'.frames| ensures FrameTold(s'.log, o, s'.frames[i]) {
      OtherFrameTold(s.log, s'.log, o, s.frames[i]);
    }
    forall r: nat | r >= s'.nextRun ensures Announced(s'.log, r) == None {
      ToldStep(s.log, s'.log, r);
    }
    ToldAtStable(s.log, s'.log, o);
  }

  lemma PushTold(s: State, s': State, o: Objects)
    requires Nested(s) && ObserversTold(s, o) && PushStep(s, s')
    ensures ObserversTold(s', o)
  {
    hide FrameTold, Notices;
    assert s'.log[..|s.log|] == s.log;
    forall i | 0 <= i < |s'.frames| ensures FrameTold(s'.log, o, s'.frames[i]) {
      if i < |s.frames| {
        assert s'.frames[i] == s'.Below()[i];
        OtherFrameTold(s.log, s'.log, o, s.frames[i]);
      } else {
        EntryTold(s.log, o, s'.Top());
      }
    }
    forall r: nat | r >= s'.nextRun ensures Announced(s'.log, r) == None {
      ToldStep(s.log, s'.log, r);
    }
    ToldAtStable(s.log, s'.log, o);
  }

  lemma EntryTold(log: seq<Event>, o: Objects, f: Frame)
    requires f.point == Entry
    ensures FrameTold(log + [Fire(f.run, Entry, f.mode, [], {}, f.todo, 0.0)], o, f)
  {
    var all := Notices(o, f.run, Entry, f.todo);
    assert [] + all == all;
  }

  lemma TopStepTold(s: State, s': State, o: Objects)
    requires Nested(s) && ObserversTold(s, o) && TopStep(s, s')
    requires FrameTold(s'.log, o, s'.Top()) && (|s'.log| > |s.log| ==> ToldAt(s'.log, o, |s.log|))
    ensures ObserversTold(s', o)
  {
    hide FrameTold, ToldAt;
    var n := |s.frames| - 1;
    forall i | 0 <= i < n ensures FrameTold(s'.log, o, s'.frames[i]) {
      assert s'.frames[i] == s'.Below()[i] == s.Below()[i] == s.frames[i];
      OtherFrameTold(s.log, s'.log, o, s.frames[i]);
    }
    forall r: nat | r >= s'.nextRun ensures Announced(s'.log, r) == None {
      ToldStep(s.log, s'.log, r);
    }
    ToldAtStable(s.log, s'.log, o);
  }

  lemma PopTold(s: State, s': State, o: Objects)
    requires Nested(s) && ObserversTold(s, o) && PopStep(s, s')
    requires |s'.log| > |s.log| ==> ToldAt(s'.log, o, |s.log|)
    ensures ObserversTold(s', o)
  {
    hide FrameTold, ToldAt;
    forall i | 0 <= i < |s'.frames| ensures FrameTold(s'.log, o, s'.frames[i]) {
      assert s'.frames[i] == s.frames[i];
      OtherFrameTold(s.log, s'.log, o, s.frames[i]);
    }
    forall r: nat | r >= s'.nextRun ensures Announced(s'.log, r) == None {
      ToldStep(s.log, s'.log, r);
    }
    ToldAtStable(s.log, s'.log, o);
  }
}
