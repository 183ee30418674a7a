/** The run loop object: its fields are updated in place, as `CFRunLoopInner` is, and each
method is tied to the step it takes in the machine of `RunLoop`.
*/
module RunLoopObject {
  import opened MachO
  import opened RunLoop
  import opened RunLoopTheorems

  class CFRunLoop {
    var modes: Modes
    var commonModes: set<string>
    var modeStack: seq<string>
    var stopped: bool
    var signaled: set<Id>               // the sources whose `signaled` field is set
    var fireDate: map<Id, Option<real>> // the `fire_date` fields of the timers
    var frames: seq<Frame>              // the active calls of RunInMode
    var nextRun: nat
    var log: seq<Event>                 // the trace the properties speak of

    ghost function State(): RunLoop.State
      reads this
    {
      RunLoop.State.State(modes, commonModes, modeStack, stopped, signaled, fireDate, frames, nextRun, log)
    }

    /** All that is proved of reachable states: the object never leaves it. */
    ghost predicate Valid()
      reads this
    {
      Invariant(State())
    }

    /** An operation of the client keeps the object valid, wherever the client may act. */
    twostate predicate Keeps()
      reads this
    {
      old(Valid() && State().ClientActive()) ==> Valid()
    }

    constructor ()
      ensures Valid() && State() == INITIAL
    {
      InitialInvariant();
      modes := map["kCFRunLoopDefaultMode" := EMPTY, "NSEventTrackingRunLoopMode" := EMPTY,
                   "NSModalPanelRunLoopMode" := EMPTY];
      commonModes := {"kCFRunLoopDefaultMode", "NSEventTrackingRunLoopMode"};
      modeStack, stopped, signaled, fireDate, frames, nextRun, log := [], false, {}, map[], [], 0, [];
    }

    // ---- Registration ----

    /** CFRunLoopAddSource, CFRunLoopAddTimer, CFRunLoopAddObserver. */
    method AddItem(k: Kind, x: Id, mode: string)
      modifies this
      ensures State() == Apply(old(State()), Add(k, x, mode))
      ensures Keeps()
    {
      hide Invariant;
      ClientKeeps(State(), Add(k, x, mode));
      if x == 0 { return; }
      if mode == COMMON_MODES {
        hide AppendNew;
        ghost var before := modes;
        var commons := commonModes;
        ghost var done: set<string> := {};
        assert modes == AddTo(before, {}, k, x);
        while commons != {}
          invariant commons !! done && commons + done == old(commonModes)
          invariant modes == AddTo(before, done, k, x)
          invariant State() == old(State()).(modes := modes)
          decreases commons
        {
          var m :| m in commons;
          commons := commons - {m};
          AddToMode(k, x, m);
          AddOneMore(before, done, m, k, x);
          done := done + {m};
        }
        assert done == old(commonModes);
      } else {
        AddToMode(k, x, mode);
      }
    }

    method AddToMode(k: Kind, x: Id, m: string)
      modifies `modes
      ensures modes == AddTo(old(modes), {m}, k, x)
    {
      if m !in modes {
        modes := modes[m := EMPTY];
      }
      if x !in modes[m].Get(k) {
        modes := modes[m := modes[m].Set(k, modes[m].Get(k) + [x])];
      }
      SetSame(modes[m], k);
    }

    /** CFRunLoopRemoveSource, CFRunLoopRemoveTimer, CFRunLoopRemoveObserver. */
    method RemoveItem(k: Kind, x: Id, mode: string)
      modifies this
      ensures State() == Apply(old(State()), Remove(k, x, mode))
      ensures Keeps()
    {
      hide Invariant;
      ClientKeeps(State(), Remove(k, x, mode));
      if x == 0 { return; }
      if mode == COMMON_MODES {
        hide Without;
        ghost var before := modes;
        var commons := commonModes;
        ghost var done: set<string> := {};
        assert modes == RemoveFrom(before, {}, k, x);
        while commons != {}
          invariant commons !! done && commons + done == old(commonModes)
          invariant modes == RemoveFrom(before, done, k, x)
          invariant State() == old(State()).(modes := modes)
          decreases commons
        {
          var m :| m in commons;
          commons := commons - {m};
          RemoveFromMode(k, x, m);
          RemoveOneMore(before, done, m, k, x);
          done := done + {m};
        }
        assert done == old(commonModes);
      } else {
        RemoveFromMode(k, x, mode);
      }
    }

    method RemoveFromMode(k: Kind, x: Id, m: string)
      modifies `modes
      ensures modes == RemoveFrom(old(modes), {m}, k, x)
    {
      if m in modes {
        modes := modes[m := modes[m].Set(k, Without(modes[m].Get(k), x))];
      }
    }

    /** CFRunLoopContainsSource: registered in the mode, or in some common mode. */
    method ContainsItem(k: Kind, x: Id, mode: string) returns (b: bool)
      ensures b <==> x != 0 && exists m :: m in Targets(commonModes, mode) && x in Registered(modes, m, k)
    {
      if x == 0 { return false; }
      if mode == COMMON_MODES {
        var commons := commonModes;
        while commons != {}
          invariant commons <= commonModes
          invariant forall m :: m in commonModes - commons ==> x !in Registered(modes, m, k)
          decreases commons
        {
          var m :| m in commons;
          commons := commons - {m};
          if m in modes && x in modes[m].Get(k) {
            assert m in Targets(commonModes, mode) && x in Registered(modes, m, k);
            return true;
          }
        }
        return false;
      }
      assert mode in Targets(commonModes, mode);
      return mode in modes && x in modes[mode].Get(k);
    }

    method AddCommonMode(mode: string)
      modifies this
      ensures State() == Apply(old(State()), Op.AddCommonMode(mode))
      ensures Keeps()
    {
      hide Invariant;
      ClientKeeps(State(), Op.AddCommonMode(mode));
      commonModes := commonModes + {mode};
      if mode !in modes {
        modes := modes[mode := EMPTY];
      }
    }

    method Stop()
      modifies this
      ensures State() == Apply(old(State()), Op.Stop)
      ensures Keeps()
    {
      hide Invariant;
      ClientKeeps(State(), Op.Stop);
      if !stopped {
        log := log + [StopEdge];
      }
      stopped := true;
    }

    method SourceSignal(x: Id)
      modifies this
      ensures State() == Apply(old(State()), Signal(x))
      ensures Keeps()
    {
      hide Invariant;
      ClientKeeps(State(), Signal(x));
      if x != 0 {
        if x !in signaled {
          log := log + [SignalEdge(x)];
          signaled := signaled + {x};
        }
      }
    }

    // ---- Runs ----

    /** The entry of CFRunLoopRunInMode. `refused` is its early return with STOPPED. */
    method RunInMode(mode: string, returnAfterSource: bool) returns (refused: bool)
      requires State().ClientActive()
      modifies this
      ensures State() == Enter(old(State()), mode, returnAfterSource)
      ensures refused == old(stopped)
      ensures refused ==> frames == old(frames) && modeStack == old(modeStack) && !stopped
      ensures old(Valid()) ==> Valid()
    {
      hide Invariant;
      ActionKeeps(State(), NoObjects(), Run(mode, returnAfterSource));
      if mode !in modes {
        modes := modes[mode := EMPTY];
      }
      if stopped {
        stopped := false;
        log := log + [StopTaken(None)];
        return true;
      }
      modeStack := modeStack + [mode];
      frames := frames + [Frame(nextRun, mode, returnAfterSource, Entry, modes[mode].observers, [], 0, Idle, 0.0, 0, 0)];
      log := log + [Fire(nextRun, Entry, mode, [], {}, modes[mode].observers, 0.0)];
      nextRun := nextRun + 1;
      return false;
    }

    /** `fire_observers`: copy the observers of the mode of `f`. */
    method FireObservers(f: Frame, p: Point, items: seq<Id>, now: real)
      requires frames != []
      modifies this
      ensures State() == StartFiring(old(State()), f, p, items, now)
    {
      var pending := set x | x in items && x in signaled && p == BeforeSources;
      var observers := if f.mode in modes then modes[f.mode].observers else [];
      SetTop(f.(point := p, todo := observers, items := items, status := Idle, now := now,
                snapAt := if p == BeforeSources then |log| else f.snapAt));
      log := log + [Fire(f.run, p, f.mode, items, pending, observers, now)];
    }

    method SetTop(f: Frame)
      requires frames != []
      modifies `frames
      ensures frames == old(frames)[..|old(frames)| - 1] + [f]
    {
      frames := frames[..|frames| - 1] + [f];
    }

    method ToNextPoint(now: real)
      requires frames != []
      modifies this
      ensures State() == NextPoint(old(State()), now)
    {
      hide Registered, StartFiring, Settle, PopRun;
      var f := frames[|frames| - 1];
      match f.point {
        case Entry => FireObservers(f, BeforeSources, Registered(modes, f.mode, Source), f.now);
        case BeforeSources => SetTop(f.(point := Sources, todo := f.items));
        case Sources => FireObservers(f, BeforeTimers, Registered(modes, f.mode, Timer), now);
        case BeforeTimers => SetTop(f.(point := Timers, todo := f.items));
        case Timers => FireObservers(f, BeforeWaiting, [], f.now);
        case BeforeWaiting => FireObservers(f, AfterWaiting, [], f.now);
        case AfterWaiting => AfterWait(f);
        case Exit => LeaveRun(f);
      }
    }

    /** What follows the wait: take a pending stop, or time out; then tell the exit observers. */
    method AfterWait(f: Frame)
      requires frames != [] && f == frames[|frames| - 1]
      modifies this
      ensures State() == Settle(old(State()))
    {
      hide StartFiring;
      if f.result != 0 {
        FireObservers(f, Exit, [], f.now);
      } else if stopped {
        stopped := false;
        SetTop(f.(result := STOPPED));
        log := log + [StopTaken(Some(f.run))];
      } else {
        SetTop(f.(result := TIMED_OUT));
      }
    }

    /** Pop the mode and return. */
    method LeaveRun(f: Frame)
      requires frames != [] && f == frames[|frames| - 1]
      modifies this
      ensures State() == PopRun(old(State()))
    {
      frames := frames[..|frames| - 1];
      if modeStack != [] {
        modeStack := modeStack[..|modeStack| - 1];
      }
      log := log + [Returned(f.run, f.result)];
    }

    /** One iteration of the source loop, up to the callback. */
    method VisitSource(o: Objects)
      requires frames != [] && frames[|frames| - 1].todo != [] && frames[|frames| - 1].point == Sources
      modifies this
      ensures State() == RunLoop.VisitSource(old(State()), o)
    {
      var f := frames[|frames| - 1];
      var x := f.todo[0];
      var f1 := f.(todo := f.todo[1..], current := x);
      if x in signaled {
        signaled := signaled - {x};
        log := log + [Dispatch(f.run, x)];
        f1 := f1.(status := if o.performs(x) then Calling else Done);
      }
      SetTop(f1);
    }

    /** One iteration of the timer loop, up to the callback. */
    method VisitTimer(o: Objects)
      requires frames != [] && frames[|frames| - 1].todo != [] && frames[|frames| - 1].point == Timers
      modifies this
      ensures State() == RunLoop.VisitTimer(old(State()), o)
    {
      var f := frames[|frames| - 1];
      var x := f.todo[0];
      var f1 := f.(todo := f.todo[1..], current := x);
      if x in fireDate && fireDate[x].Some? && f.now >= fireDate[x].value {
        log := log + [FireTimer(f.run, x)];
        f1 := f1.(status := if o.fires(x) then Calling else Done);
      } else {
        log := log + [PassedOver(f.run, x)];
      }
      SetTop(f1);
    }

    /** One iteration of the loop of `fire_observers`, up to the callback. */
    method VisitObserver(o: Objects)
      requires frames != [] && frames[|frames| - 1].todo != [] && frames[|frames| - 1].point.IsActivity()
      modifies this
      ensures State() == RunLoop.VisitObserver(old(State()), o)
    {
      hide Overlaps;
      var f := frames[|frames| - 1];
      var x := f.todo[0];
      var f1 := f.(todo := f.todo[1..], current := x);
      if Overlaps(o.activities(x), f.point.Bit()) && o.observes(x) {
        log := log + [Notify(f.run, x, f.point)];
        f1 := f1.(status := Calling);
      }
      SetTop(f1);
    }

    /** What follows a callback in the loops. */
    method AfterCallback(o: Objects)
      requires frames != []
      modifies this
      ensures State() == Finish(old(State()), o)
    {
      hide Leave, Rearmed;
      var f := frames[|frames| - 1];
      if f.point == Timers {
        RearmTimer(f, o.interval(f.current));
        LeaveOrGoOn(f);
      } else if f.point == Sources {
        LeaveOrGoOn(f);
      } else {
        SetTop(f.(status := Idle));
      }
    }

    method RearmTimer(f: Frame, interval: real)
      modifies `fireDate
      ensures State() == Rearmed(old(State()), f, interval)
    {
      if interval > 0.0 {
        fireDate := fireDate[f.current := Some(f.now + interval)];
      } else {
        fireDate := fireDate[f.current := None];
      }
    }

    method LeaveOrGoOn(f: Frame)
      requires frames != []
      modifies this
      ensures State() == Leave(old(State()), f)
    {
      hide StartFiring;
      if f.returnAfterSource {
        FireObservers(f.(result := HANDLED_SOURCE), Exit, [], f.now);
      } else {
        SetTop(f.(status := Idle));
      }
    }

    /** One step of the topmost run. */
    method Step(o: Objects, now: real)
      requires !State().ClientActive()
      modifies this
      ensures State() == Advance(old(State()), o, now)
      ensures old(Valid()) ==> Valid()
    {
      hide Finish, RunLoop.VisitSource, RunLoop.VisitTimer, RunLoop.VisitObserver, NextPoint, Invariant;
      ActionKeeps(State(), o, Tick(now));
      if frames[|frames| - 1].status == Done {
        AfterCallback(o);
      } else if frames[|frames| - 1].todo != [] {
        if frames[|frames| - 1].point == Sources {
          VisitSource(o);
        } else if frames[|frames| - 1].point == Timers {
          VisitTimer(o);
        } else {
          VisitObserver(o);
        }
      } else {
        ToNextPoint(now);
      }
    }

    /** The running callback hands control back to the run. */
    method CallbackReturn()
      requires frames != []
      modifies this
      ensures State() == Return(old(State()))
      ensures Keeps()
    {
      hide Invariant;
      ActionKeeps(State(), NoObjects(), CallbackReturns);
      SetTop(frames[|frames| - 1].(status := Done));
    }
  }

  lemma ActionKeeps(s: State, o: Objects, a: Action)
    ensures Enabled(s, a) && Invariant(s) ==> Invariant(Next(s, o, a))
  {
    hide *;
    if Enabled(s, a) && Invariant(s) {
      KeepInvariant(s, o, a);
    }
  }

  /** The client's operations do not look at the attributes of its objects. */
  function NoObjects(): (o: Objects) {
    Objects(_ => false, _ => false, _ => false, _ => 0, _ => 0.0)
  }

  lemma ClientKeeps(s: State, op: RunLoop.Op)
    ensures Invariant(s) && s.ClientActive() ==> Invariant(Apply(s, op))
  {
    hide Invariant;
    ActionKeeps(s, NoObjects(), ClientOp(op));
  }

  /** Adding to the modes one by one is adding to all of them. */
  lemma AddOneMore(modes: Modes, done: set<string>, m: string, k: Kind, x: Id)
    requires m !in done
    ensures AddTo(AddTo(modes, done, k, x), {m}, k, x) == AddTo(modes, done + {m}, k, x)
  {
  }

  lemma RemoveOneMore(modes: Modes, done: set<string>, m: string, k: Kind, x: Id)
    requires m !in done
    ensures RemoveFrom(RemoveFrom(modes, done, k, x), {m}, k, x) == RemoveFrom(modes, done + {m}, k, x)
  {
    hide Without;
  }

  lemma SetSame(r: Registry, k: Kind)
    ensures r.Set(k, r.Get(k)) == r
  {
  }
}
