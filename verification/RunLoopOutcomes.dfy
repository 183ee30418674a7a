/** Why a run returned what it returned, and which timers it fired. */
module RunLoopOutcomes {
  import opened MachO
  import opened RunLoop
  import opened RunLoopHistory
  import opened RunLoopObservers

  /** The event is about run `r`. */
  predicate IsAbout(e: Event, r: nat) {
    match e
    case SignalEdge(_) => false
    case StopEdge => false
    case StopTaken(taker) => taker == Some(r)
    case _ => e.run == r
  }

  predicate Handles(e: Event, r: nat) {
    (e.Dispatch? || e.FireTimer?) && e.run == r
  }

  /** How many sources and timers run `r` has handled. */
  function HandledBy(log: seq<Event>, r: nat): (n: nat) {
    if log == [] then 0 else HandledBy(log[..|log| - 1], r) + if Handles(log[|log| - 1], r) then 1 else 0
  }

  /** How many stop requests run `r` has taken. */
  function StopsBy(log: seq<Event>, r: nat): (n: nat) {
    if log == [] then 0 else StopsBy(log[..|log| - 1], r) + if log[|log| - 1] == StopTaken(Some(r)) then 1 else 0
  }

  /** A source or timer of the current pass has been handled, and the loop has not gone on yet. */
  predicate Busy(f: Frame) {
    (f.point == Sources || f.point == Timers) && f.status != Idle
  }

  predicate InTimerPass(f: Frame) {
    f.point == BeforeTimers || f.point == Timers
  }

  /** The timers run `r` has looked at since its last announcement, in order. */
  function Seen(log: seq<Event>, r: nat): (s: seq<Id>) {
    if log == [] then []
    else
      var e := log[|log| - 1];
      if e.Fire? && e.run == r then []
      else Seen(log[..|log| - 1], r) + if LooksAt(e, r) then [e.timer] else []
  }

  predicate LooksAt(e: Event, r: nat) {
    (e.FireTimer? || e.PassedOver?) && e.run == r
  }

  /** The last timer run `r` has fired. */
  function LastFired(log: seq<Event>, r: nat): (x: Option<Id>) {
    if log == [] then None
    else
      var e := log[|log| - 1];
      if e.FireTimer? && e.run == r then Some(e.timer) else LastFired(log[..|log| - 1], r)
  }

  function TimersLeft(f: Frame): (s: seq<Id>) {
    if f.point == BeforeTimers then f.items else f.todo
  }

  /** The timers a run has looked at and those it has still to look at are those it copied when it read
      the clock, each once and in order; the one it is busy with is the last it fired. */
  ghost predicate TimersCopied(log: seq<Event>, f: Frame) {
    var a := Announced(log, f.run);
    && a.Some? && a.value.point == BeforeTimers && a.value.now == f.now
    && Seen(log, f.run) + TimersLeft(f) == a.value.items
    && (Busy(f) ==> LastFired(log, f.run) == Some(f.current))
  }

  /** The result so far is what the log accounts for. */
  ghost predicate Accounted(log: seq<Event>, f: Frame, busy: bool) {
    && StopsBy(log, f.run) == (if f.result == STOPPED then 1 else 0)
    && (f.returnAfterSource ==> HandledBy(log, f.run) == if f.result == HANDLED_SOURCE || busy then 1 else 0)
    && (f.result == HANDLED_SOURCE ==> f.returnAfterSource)
  }

  ghost predicate FrameOutcome(log: seq<Event>, f: Frame) {
    && Accounted(log, f, Busy(f))
    && (f.result == HANDLED_SOURCE ==> f.point == Exit)
    && (f.result != 0 ==> f.point == AfterWaiting || f.point == Exit)
    && (InTimerPass(f) ==> TimersCopied(log, f))
  }

  ghost predicate CopiedAt(log: seq<Event>, r: nat, x: Id) {
    var a := Announced(log, r);
    a.Some? && a.value.point == BeforeTimers && x in a.value.items
  }

  /** Run `r` has looked at all the timers it copied. */
  ghost predicate AllSeen(log: seq<Event>, r: nat) {
    var a := Announced(log, r);
    a.Some? && a.value.point == BeforeTimers && Seen(log, r) == a.value.items
  }

  ghost predicate OutcomeAt(log: seq<Event>, j: nat)
    requires j < |log|
  {
    match log[j]
    case Returned(r, c) =>
      && StopsBy(log[..j], r) == (if c == STOPPED then 1 else 0)
      && (c == HANDLED_SOURCE ==> HandledBy(log[..j], r) == 1)
    case FireTimer(r, x) => CopiedAt(log[..j], r, x)
    case PassedOver(r, x) => CopiedAt(log[..j], r, x)
    case Fire(r, BeforeWaiting, _, _, _, _, _) => AllSeen(log[..j], r)
    case _ => true
  }

  ghost predicate Outcomes(s: State) {
    && (forall i :: 0 <= i < |s.frames| ==> FrameOutcome(s.log, s.frames[i]))
    && (forall r: nat :: r >= s.nextRun ==> HandledBy(s.log, r) == 0 && StopsBy(s.log, r) == 0)
    && (forall j :: 0 <= j < |s.log| ==> OutcomeAt(s.log, j))
  }

  // ---- The log ----

  lemma Appended(log: seq<Event>, e: Event, r: nat)
    ensures HandledBy(log + [e], r) == HandledBy(log, r) + if Handles(e, r) then 1 else 0
    ensures StopsBy(log + [e], r) == StopsBy(log, r) + if e == StopTaken(Some(r)) then 1 else 0
    ensures Announced(log + [e], r) == if e.Fire? && e.run == r then Some(e) else Announced(log, r)
    ensures Seen(log + [e], r) ==
            if e.Fire? && e.run == r then [] else Seen(log, r) + if LooksAt(e, r) then [e.timer] else []
    ensures LastFired(log + [e], r) == if e.FireTimer? && e.run == r then Some(e.timer) else LastFired(log, r)
  {
    assert (log + [e])[..|log|] == log;
  }

  lemma Unaffected(log: seq<Event>, log': seq<Event>, r: nat)
    requires log <= log' && |log'| <= |log| + 1
    requires |log'| > |log| ==> !IsAbout(log'[|log|], r)
    ensures HandledBy(log', r) == HandledBy(log, r) && StopsBy(log', r) == StopsBy(log, r)
    ensures Announced(log', r) == Announced(log, r)
    ensures Seen(log', r) == Seen(log, r) && LastFired(log', r) == LastFired(log, r)
  {
    if log' != log {
      assert log' == log + [log'[|log|]];
      Appended(log, log'[|log|], r);
      assert Seen(log, r) + [] == Seen(log, r);
    }
  }

  lemma FrameUnaffected(log: seq<Event>, log': seq<Event>, f: Frame)
    requires FrameOutcome(log, f) && log <= log' && |log'| <= |log| + 1
    requires |log'| > |log| ==> !IsAbout(log'[|log|], f.run)
    ensures FrameOutcome(log', f)
  {
    Unaffected(log, log', f.run);
  }

  lemma OutcomeAtStable(log: seq<Event>, log': seq<Event>)
    requires log <= log' && |log'| <= |log| + 1
    requires forall j :: 0 <= j < |log| ==> OutcomeAt(log, j)
    requires |log'| > |log| ==> OutcomeAt(log', |log|)
    ensures forall j :: 0 <= j < |log'| ==> OutcomeAt(log', j)
  {
    forall j | 0 <= j < |log'| ensures OutcomeAt(log', j) {
      if j < |log| {
        assert OutcomeAt(log, j);
        assert log'[j] == log[j] && log'[..j] == log[..j];
      }
    }
  }

  // ---- Steps of the topmost run ----

  /** What a step owes: the top frame and the new entry of the log are in order. */
  ghost predicate InOrder(s: State, s': State) {
    && s'.frames != [] && FrameOutcome(s'.log, s'.Top())
    && NewEntryOk(s, s')
  }

  ghost predicate NewEntryOk(s: State, s': State) {
    |s'.log| > |s.log| ==> OutcomeAt(s'.log, |s.log|)
  }

  lemma FiringOutcome(s: State, f: Frame, p: Point, items: seq<Id>, now: real)
    requires s.frames != [] && Accounted(s.log, f, false) && p.IsActivity()
    requires f.result == HANDLED_SOURCE ==> p == Exit
    requires f.result != 0 ==> p == AfterWaiting || p == Exit
    requires p == BeforeWaiting ==> AllSeen(s.log, f.run)
    ensures InOrder(s, StartFiring(s, f, p, items, now))
    ensures |StartFiring(s, f, p, items, now).log| == |s.log| + 1
  {
    hide Registered, HandledBy, StopsBy, Announced, Seen, LastFired;
    var s' := StartFiring(s, f, p, items, now);
    Appended(s.log, s'.log[|s.log|], f.run);
    assert s'.log[..|s.log|] == s.log;
    assert [] + items == items;
  }

  lemma SameOutcome(log: seq<Event>, f: Frame, f': Frame)
    requires FrameOutcome(log, f) && f'.run == f.run && f'.result == f.result && f'.returnAfterSource == f.returnAfterSource
    requires f'.point == f.point && f'.now == f.now && f'.todo == f.todo && f'.items == f.items && Busy(f') == Busy(f)
    requires f'.current == f.current
    ensures FrameOutcome(log, f')
  {
  }

  lemma FinishOutcome(s: State, o: Objects)
    requires s.frames != [] && s.Top().status == RunLoop.Done && FrameOutcome(s.log, s.Top())
    ensures InOrder(s, Finish(s, o))
  {
    hide StartFiring, FrameOutcome, Accounted, OutcomeAt;
    var f := s.Top();
    if f.point == Sources || f.point == Timers {
      if f.returnAfterSource {
        var g := f.(result := HANDLED_SOURCE);
        HandledOnce(s.log, f);
        FiringOutcome(s, g, Exit, [], f.now);
        FiringOutcome(Rearmed(s, f, o.interval(f.current)), g, Exit, [], f.now);
      } else {
        GoesOn(s.log, f);
      }
    } else {
      SameOutcome(s.log, f, f.(status := Idle));
    }
  }

  /** A run that leaves after one item has handled exactly one. */
  lemma HandledOnce(log: seq<Event>, f: Frame)
    requires FrameOutcome(log, f) && Busy(f) && f.returnAfterSource
    ensures Accounted(log, f.(result := HANDLED_SOURCE), false)
  {
  }

  lemma GoesOn(log: seq<Event>, f: Frame)
    requires FrameOutcome(log, f) && !f.returnAfterSource
    ensures FrameOutcome(log, f.(status := Idle))
  {
  }

  lemma VisitOutcome(s: State, o: Objects)
    requires s.frames != [] && s.Top().todo != [] && s.Top().status == Idle && FrameOutcome(s.log, s.Top())
    ensures InOrder(s, Visit(s, o))
  {
    hide FrameOutcome, OutcomeAt, Visit;
    var f := s.Top();
    VisitFrame(s, o);
    var s' := Visit(s, o);
    if s'.log == s.log {
      PassedOverQuietly(s.log, f, s'.Top());
    } else if s'.Top().status != Idle {
      ItemOutcome(s.log, f, s'.Top(), ItemEvent(f));
    } else {
      PassedOverOutcome(s.log, f, s'.Top());
    }
  }

  /** What looking at the first item of the pass logs, if the item is due. */
  function ItemEvent(f: Frame): (e: Event)
    requires f.todo != []
  {
    match f.point
    case Sources => Dispatch(f.run, f.todo[0])
    case Timers => FireTimer(f.run, f.todo[0])
    case _ => Notify(f.run, f.todo[0], f.point)
  }

  /** How looking at one item changes the frame and the log. */
  ghost predicate Visited(s: State, s': State)
    requires s.frames != [] && s.Top().todo != []
  {
    var f := s.Top();
    && s'.frames != []
    && s'.Top() == f.(todo := f.todo[1..], current := f.todo[0], status := s'.Top().status)
    && (|| (s'.log == s.log && s'.Top().status == f.status && f.point != Timers)
        || (s'.log == s.log + [ItemEvent(f)] && s'.Top().status != Idle)
        || (s'.log == s.log + [PassedOver(f.run, f.todo[0])] && s'.Top().status == f.status && f.point == Timers))
  }

  lemma VisitFrame(s: State, o: Objects)
    requires s.frames != [] && s.Top().todo != []
    ensures Visited(s, Visit(s, o))
  {
    hide Overlaps, Visited;
    var f := s.Top();
    var x := f.todo[0];
    var f1 := f.(todo := f.todo[1..], current := x);
    var s1 := s.(signaled := s.signaled - {x});
    if f.point == Timers {
      TimerPassed(s, f1);
    } else {
      PlainVisit(s, s, f1);
    }
    if f.point == Sources {
      ItemVisit(s, s1, f1.(status := if o.performs(x) then Calling else RunLoop.Done));
    } else if f.point == Timers {
      ItemVisit(s, s, f1.(status := if o.fires(x) then Calling else RunLoop.Done));
    } else {
      ItemVisit(s, s, f1.(status := Calling));
    }
  }

  lemma PlainVisit(s: State, s1: State, f: Frame)
    requires s.frames != [] && s.Top().todo != [] && s1.log == s.log && s1.frames == s.frames
    requires f == s.Top().(todo := s.Top().todo[1..], current := s.Top().todo[0]) && f.point != Timers
    ensures Visited(s, s1.With(f))
  {
  }

  lemma TimerPassed(s: State, f: Frame)
    requires s.frames != [] && s.Top().todo != [] && f.point == Timers
    requires f == s.Top().(todo := s.Top().todo[1..], current := s.Top().todo[0])
    ensures Visited(s, s.With(f).Log(PassedOver(f.run, s.Top().todo[0])))
  {
  }

  lemma ItemVisit(s: State, s1: State, f: Frame)
    requires s.frames != [] && s.Top().todo != [] && s1.log == s.log && s1.frames == s.frames && f.status != Idle
    requires f == s.Top().(todo := s.Top().todo[1..], current := s.Top().todo[0], status := f.status)
    ensures Visited(s, s1.With(f).Log(ItemEvent(s.Top())))
  {
  }

  lemma ItemOutcome(log: seq<Event>, f: Frame, f': Frame, e: Event)
    requires f.todo != [] && f.status == Idle && f'.status != Idle && FrameOutcome(log, f)
    requires f' == f.(todo := f.todo[1..], current := f.todo[0], status := f'.status)
    requires e == ItemEvent(f)
    ensures FrameOutcome(log + [e], f') && OutcomeAt(log + [e], |log|)
  {
    hide HandledBy, StopsBy, Announced, Seen, LastFired;
    Appended(log, e, f.run);
    assert (log + [e])[..|log|] == log;
    if f.point == Timers {
      NextTimer(Seen(log, f.run), f.todo);
    }
  }

  lemma NextTimer(seen: seq<Id>, todo: seq<Id>)
    requires todo != []
    ensures seen + todo == seen + [todo[0]] + todo[1..] && todo[0] in seen + todo
  {
    assert (seen + todo)[|seen|] == todo[0];
  }

  /** A timer that is not due leaves its trace in the log. */
  lemma PassedOverOutcome(log: seq<Event>, f: Frame, f': Frame)
    requires f.todo != [] && f.status == Idle && f.point == Timers && FrameOutcome(log, f)
    requires f' == f.(todo := f.todo[1..], current := f.todo[0])
    ensures var e := PassedOver(f.run, f.todo[0]); FrameOutcome(log + [e], f') && OutcomeAt(log + [e], |log|)
  {
    hide HandledBy, StopsBy, Announced, Seen, LastFired;
    var e := PassedOver(f.run, f.todo[0]);
    Appended(log, e, f.run);
    assert (log + [e])[..|log|] == log;
    NextTimer(Seen(log, f.run), f.todo);
  }

  lemma PassedOverQuietly(log: seq<Event>, f: Frame, f': Frame)
    requires f.todo != [] && f.status == Idle && f.point != Timers && FrameOutcome(log, f)
    requires f' == f.(todo := f.todo[1..], current := f.todo[0])
    ensures FrameOutcome(log, f')
  {
  }

  lemma NextPointOutcome(s: State, now: real)
    requires s.frames != [] && s.Top().todo == [] && s.Top().status == Idle && FrameOutcome(s.log, s.Top())
    ensures s.Top().point != Exit ==> InOrder(s, NextPoint(s, now))
    ensures NewEntryOk(s, NextPoint(s, now))
  {
    hide FrameOutcome, Accounted, OutcomeAt, StartFiring, Registered, AllSeen;
    var f := s.Top();
    StandsAccounted(s.log, f);
    TimersDone(s.log, f);
    match f.point
    case Entry => FiringOutcome(s, f, BeforeSources, Registered(s.modes, f.mode, Source), f.now);
    case BeforeSources => ToPass(s.log, f, f.(point := Sources, todo := f.items));
    case Sources => FiringOutcome(s, f, BeforeTimers, Registered(s.modes, f.mode, Timer), now);
    case BeforeTimers => ToPass(s.log, f, f.(point := Timers, todo := f.items));
    case Timers => FiringOutcome(s, f, BeforeWaiting, [], f.now);
    case BeforeWaiting => FiringOutcome(s, f, AfterWaiting, [], f.now);
    case AfterWaiting =>
      if f.result != 0 {
        FiringOutcome(s, f, Exit, [], f.now);
      } else {
        Settles(s.log, f);
      }
    case Exit => ReturnOutcome(s.log, f);
  }

  lemma TimersDone(log: seq<Event>, f: Frame)
    requires FrameOutcome(log, f) && f.todo == []
    ensures f.point == Timers ==> AllSeen(log, f.run)
  {
    assert Seen(log, f.run) + [] == Seen(log, f.run);
  }

  lemma StandsAccounted(log: seq<Event>, f: Frame)
    requires FrameOutcome(log, f) && f.status == Idle
    ensures Accounted(log, f, false)
    ensures f.result == HANDLED_SOURCE ==> f.point == Exit
    ensures f.result != 0 ==> f.point == AfterWaiting || f.point == Exit
  {
  }

  lemma ToPass(log: seq<Event>, f: Frame, f': Frame)
    requires FrameOutcome(log, f) && f.status == Idle
    requires (f.point == BeforeSources && f' == f.(point := Sources, todo := f.items))
          || (f.point == BeforeTimers && f' == f.(point := Timers, todo := f.items))
    ensures FrameOutcome(log, f')
  {
  }

  /** After the wait the run takes a pending stop, or has timed out. */
  lemma Settles(log: seq<Event>, f: Frame)
    requires FrameOutcome(log, f) && f.point == AfterWaiting && f.result == 0
    ensures FrameOutcome(log, f.(result := TIMED_OUT))
    ensures var e := StopTaken(Some(f.run)); FrameOutcome(log + [e], f.(result := STOPPED)) && OutcomeAt(log + [e], |log|)
  {
    Appended(log, StopTaken(Some(f.run)), f.run);
  }

  lemma ReturnOutcome(log: seq<Event>, f: Frame)
    requires FrameOutcome(log, f) && f.point == Exit
    ensures OutcomeAt(log + [Returned(f.run, f.result)], |log|)
  {
    assert (log + [Returned(f.run, f.result)])[..|log|] == log;
  }

  lemma TopOutcome(s: State, o: Objects, a: Action)
    requires Enabled(s, a) && (a.CallbackReturns? || a.Tick?)
    requires s.frames != [] && FrameOutcome(s.log, s.Top())
    ensures var s' := Next(s, o, a); (TopStep(s, s') ==> FrameOutcome(s'.log, s'.Top())) && NewEntryOk(s, s')
  {
    hide FrameOutcome, OutcomeAt, Finish, Visit, NextPoint, TopStep;
    if a.CallbackReturns? {
      SameOutcome(s.log, s.Top(), s.Top().(status := RunLoop.Done));
    } else if s.Top().status == RunLoop.Done {
      FinishOutcome(s, o);
    } else if s.Top().todo != [] {
      VisitOutcome(s, o);
    } else {
      NextPointOutcome(s, a.now);
      if s.Top().point == Exit {
        NoTopStep(s, a.now);
      }
    }
  }

  // ---- The whole state ----

  lemma KeepOutcomes(s: State, o: Objects, a: Action)
    requires Enabled(s, a) && Nested(s) && Outcomes(s)
    ensures Outcomes(Next(s, o, a))
  {
    hide Next, Enabled, FrameOutcome, OutcomeAt, TopStep, PushStep, PopStep, ClientStep;
    Shapes(s, o, a);
    var s' := Next(s, o, a);
    if a.ClientOp? || (a.Run? && ClientStep(s, s')) {
      ClientOutcomes(s, s');
    } else if a.Run? {
      PushOutcomes(s, s');
    } else {
      TopActive(s, a);
      TopOutcome(s, o, a);
      if TopStep(s, s') {
        TopOutcomes(s, s');
      } else {
        PopOutcomes(s, s');
      }
    }
  }

  lemma ClientOutcomes(s: State, s': State)
    requires Outcomes(s) && ClientStep(s, s')
    ensures Outcomes(s')
  {
    hide FrameOutcome;
    forall i | 0 <= i < |s'.frames| ensures FrameOutcome(s'.log, s'.frames[i]) {
      FrameUnaffected(s.log, s'.log, s.frames[i]);
    }
    forall r: nat | r >= s'.nextRun ensures HandledBy(s'.log, r) == 0 && StopsBy(s'.log, r) == 0 {
      Unaffected(s.log, s'.log, r);
    }
    OutcomeAtStable(s.log, s'.log);
  }

  lemma PushOutcomes(s: State, s': State)
    requires Nested(s) && Outcomes(s) && PushStep(s, s')
    ensures Outcomes(s')
  {
    hide FrameOutcome;
    forall i | 0 <= i < |s'.frames| ensures FrameOutcome(s'.log, s'.frames[i]) {
      if i < |s.frames| {
        assert s'.frames[i] == s'.Below()[i];
        FrameUnaffected(s.log, s'.log, s.frames[i]);
      } else {
        EntryOutcome(s.log, s'.Top(), s'.log[|s.log|]);
      }
    }
    forall r: nat | r >= s'.nextRun ensures HandledBy(s'.log, r) == 0 && StopsBy(s'.log, r) == 0 {
      Unaffected(s.log, s'.log, r);
    }
    OutcomeAtStable(s.log, s'.log);
  }

  lemma EntryOutcome(log: seq<Event>, f: Frame, e: Event)
    requires f.point == Entry && f.result == 0 && e.Fire? && e.run == f.run && HandledBy(log, f.run) == 0 && StopsBy(log, f.run) == 0
    ensures FrameOutcome(log + [e], f)
  {
    Appended(log, e, f.run);
  }

  lemma TopOutcomes(s: State, s': State)
    requires Nested(s) && Outcomes(s) && TopStep(s, s')
    requires FrameOutcome(s'.log, s'.Top()) && NewEntryOk(s, s')
    ensures Outcomes(s')
  {
    hide FrameOutcome, OutcomeAt;
    var n := |s.frames| - 1;
    forall i | 0 <= i < n ensures FrameOutcome(s'.log, s'.frames[i]) {
      assert s'.frames[i] == s'.Below()[i] == s.Below()[i] == s.frames[i];
      FrameUnaffected(s.log, s'.log, s.frames[i]);
    }
    forall r: nat | r >= s'.nextRun ensures HandledBy(s'.log, r) == 0 && StopsBy(s'.log, r) == 0 {
      Unaffected(s.log, s'.log, r);
    }
    OutcomeAtStable(s.log, s'.log);
  }

  lemma PopOutcomes(s: State, s': State)
    requires Nested(s) && Outcomes(s) && PopStep(s, s') && NewEntryOk(s, s')
    ensures Outcomes(s')
  {
    hide FrameOutcome, OutcomeAt;
    forall i | 0 <= i < |s'.frames| ensures FrameOutcome(s'.log, s'.frames[i]) {
      assert s'.frames[i] == s.frames[i];
      FrameUnaffected(s.log, s'.log, s.frames[i]);
    }
    forall r: nat | r >= s'.nextRun ensures HandledBy(s'.log, r) == 0 && StopsBy(s'.log, r) == 0 {
      Unaffected(s.log, s'.log, r);
    }
    OutcomeAtStable(s.log, s'.log);
  }
}
