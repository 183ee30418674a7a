/** What a timer pass serves: every timer registered when the run read the clock is looked at, in order
and once, and fired exactly if it is due; afterwards it has its next date.
*/
module RunLoopTimers {
  import opened MachO
  import opened RunLoop
  import opened RunLoopHistory
  import opened RunLoopSignals
  import opened RunLoopObservers
  import opened RunLoopOutcomes
  import opened RunLoopTheorems

  /** The timer has a date at or before `clock`. */
  predicate Due(s: State, x: Id, clock: real) {
    x in s.fireDate && s.fireDate[x].Some? && s.fireDate[x].value <= clock
  }

  // ---- One step ----

  /** The step that looks at a timer fires it if and only if it is due by the run's clock. */
  lemma FiredIffDue(s: State, o: Objects, a: Action, r: nat)
    requires Enabled(s, a)
    requires var s' := Next(s, o, a); |s'.log| > |s.log| && LooksAt(s'.log[|s.log|], r)
    ensures var e := Next(s, o, a).log[|s.log|];
            && s.frames != [] && s.Top().run == r && s.Top().point == Timers
            && (e.FireTimer? <==> Due(s, e.timer, s.Top().now))
  {
    hide Apply, Enter, Finish, Visit, NextPoint;
    Shapes(s, o, a);
    match a
    case ClientOp(_) =>
    case Run(_, _) =>
    case CallbackReturns =>
    case Tick(now) =>
      if s.Top().status == RunLoop.Done {
        FinishAnnounces(s, o);
      } else if s.Top().todo != [] {
        VisitIffDue(s, o);
      } else {
        NextPointNoItem(s, now);
      }
  }

  lemma VisitIffDue(s: State, o: Objects)
    requires s.frames != [] && s.Top().todo != []
    requires |Visit(s, o).log| > |s.log| && (Visit(s, o).log[|s.log|].FireTimer? || Visit(s, o).log[|s.log|].PassedOver?)
    ensures var f, e := s.Top(), Visit(s, o).log[|s.log|];
            && f.point == Timers && e.timer == f.todo[0] && e.run == f.run
            && (e.FireTimer? <==> Due(s, e.timer, f.now))
  {
    hide VisitSource, VisitTimer, VisitObserver;
    match s.Top().point
    case Sources => SourceLogs(s, o);
    case Timers => TimerLogs(s, o);
    case _ => ObserverLogs(s, o);
  }

  lemma SourceLogs(s: State, o: Objects)
    requires s.frames != [] && s.Top().todo != []
    ensures |VisitSource(s, o).log| > |s.log| ==> VisitSource(s, o).log[|s.log|].Dispatch?
  {
  }

  lemma TimerLogs(s: State, o: Objects)
    requires s.frames != [] && s.Top().todo != []
    ensures var f, x := s.Top(), s.Top().todo[0];
            VisitTimer(s, o).log == s.log + [if Due(s, x, f.now) then FireTimer(f.run, x) else PassedOver(f.run, x)]
  {
  }

  lemma ObserverLogs(s: State, o: Objects)
    requires s.frames != [] && s.Top().todo != [] && s.Top().point.IsActivity()
    ensures |VisitObserver(s, o).log| > |s.log| ==> VisitObserver(s, o).log[|s.log|].Notify?
  {
    hide Overlaps;
  }

  lemma NextPointNoItem(s: State, now: real)
    requires s.frames != []
    ensures |NextPoint(s, now).log| > |s.log| ==>
              !NextPoint(s, now).log[|s.log|].FireTimer? && !NextPoint(s, now).log[|s.log|].PassedOver?
  {
    hide Registered, StartFiring;
    var f := s.Top();
    match f.point
    case Entry => FiringEvent(s, f, BeforeSources, Registered(s.modes, f.mode, Source), f.now);
    case Sources => FiringEvent(s, f, BeforeTimers, Registered(s.modes, f.mode, Timer), now);
    case Timers => FiringEvent(s, f, BeforeWaiting, [], f.now);
    case BeforeWaiting => FiringEvent(s, f, AfterWaiting, [], f.now);
    case AfterWaiting => FiringEvent(s, f, Exit, [], f.now);
    case _ =>
  }

  // ---- Whole passes ----

  lemma {:induction false} SeenSince(log: seq<Event>, r: nat, x: Id) returns (p: nat)
    requires x in Seen(log, r)
    ensures p < |log| && LooksAt(log[p], r) && log[p].timer == x
    ensures forall k :: p <= k < |log| ==> !(log[k].Fire? && log[k].run == r)
  {
    var n := |log| - 1;
    if LooksAt(log[n], r) && log[n].timer == x {
      p := n;
    } else {
      p := SeenSince(log[..n], r, x);
      assert forall k :: p <= k < n ==> log[..n][k] == log[k];
    }
  }

  lemma {:induction false} AnnouncedSince(log: seq<Event>, p: nat, r: nat)
    requires p <= |log| && forall k :: p <= k < |log| ==> !(log[k].Fire? && log[k].run == r)
    ensures Announced(log[..p], r) == Announced(log, r)
    decreases |log|
  {
    var n := |log| - 1;
    if p <= n {
      assert forall k :: p <= k < n ==> log[..n][k] == log[k];
      AnnouncedSince(log[..n], p, r);
      assert log[..n][..p] == log[..p];
    } else {
      assert log[..p] == log;
    }
  }

  /** In any execution, a run that gets past its timers, announcing BEFORE_WAITING as entry `j` of the
      log, has looked at exactly the timers that were registered in its own mode when it read the clock
      (state `i`): each once, in registration order. */
  lemma TimersServed(tr: seq<State>, o: Objects, j: nat) returns (i: nat, clock: real)
    requires Execution(tr, o) && tr[0] == INITIAL && j < |tr[|tr| - 1].log|
    requires tr[|tr| - 1].log[j].Fire? && tr[|tr| - 1].log[j].point == BeforeWaiting
    ensures i + 1 < |tr| && |tr[i].log| < j && tr[i].frames != []
    ensures var log := tr[|tr| - 1].log;
            && tr[i].Top().run == log[j].run
            && Enabled(tr[i], Tick(clock)) && tr[i + 1] == Next(tr[i], o, Tick(clock))
            && log[|tr[i].log|].Fire? && log[|tr[i].log|].run == log[j].run
            && Announced(log[..j], log[j].run) == Some(log[|tr[i].log|]) && log[|tr[i].log|].now == clock
            && Seen(log[..j], log[j].run) == Registered(tr[i].modes, tr[i].Top().mode, Timer)
  {
    hide Steps, Next, Enabled, Announced, Seen;
    var n := |tr| - 1;
    var log := tr[n].log;
    ExecutionOutcomes(tr, o, n);
    assert OutcomeAt(log, j);
    var p := AnnouncedAt(log[..j], log[j].run);
    var a;
    i, a := Writer(tr, o, n, p);
    TimersFaithful(tr[i], o, a);
    clock := log[p].now;
  }

  /** In any execution, when a run gets past its timers, each timer that was registered in its own mode
      when it read the clock has been looked at since, in state `k`, and there it was fired if and only
      if it had a date at or before the run's clock. */
  lemma DueTimerFired(tr: seq<State>, o: Objects, j: nat, i: nat, clock: real, x: Id) returns (p: nat, k: nat)
    requires Execution(tr, o) && tr[0] == INITIAL && j < |tr[|tr| - 1].log|
    requires var log := tr[|tr| - 1].log;
             && log[j].Fire? && log[j].point == BeforeWaiting
             && i < |tr| && |tr[i].log| < j && tr[i].frames != []
             && Announced(log[..j], log[j].run) == Some(log[|tr[i].log|]) && log[|tr[i].log|].now == clock
             && log[|tr[i].log|].run == log[j].run
             && Seen(log[..j], log[j].run) == Registered(tr[i].modes, tr[i].Top().mode, Timer)
             && x in Registered(tr[i].modes, tr[i].Top().mode, Timer)
    ensures var log := tr[|tr| - 1].log;
            && |tr[i].log| < p < j && k < |tr| && |tr[k].log| == p && tr[k].frames != []
            && tr[k].Top().run == log[j].run && tr[k].Top().now == clock
            && log[p] == if Due(tr[k], x, clock) then FireTimer(log[j].run, x) else PassedOver(log[j].run, x)
  {
    hide Steps, Next, Enabled, Announced, Seen;
    var n := |tr| - 1;
    var log := tr[n].log;
    var r := log[j].run;
    assert log[..j][|tr[i].log|] == log[|tr[i].log|];
    p := SeenSince(log[..j], r, x);
    assert log[..j][p] == log[p];
    var a;
    k, a := Writer(tr, o, n, p);
    FiredIffDue(tr[k], o, a, r);
    ExecutionOutcomes(tr, o, k);
    TopClock(tr[k]);
    AnnouncedSince(log[..j], p, r);
    assert log[..j][..p] == log[..p];
  }

  /** A run that is over and did not return HANDLED_SOURCE got past its timers. */
  lemma PastTimers(s: State, o: Objects, r: nat) returns (j: nat)
    requires Reachable(s, o) && r < s.nextRun && !Active(s, r)
    requires Marks(s.log, r) != [] && Marks(s.log, r)[|Marks(s.log, r)| - 1] != Left(HANDLED_SOURCE)
    ensures j < |s.log| && s.log[j].Fire? && s.log[j].run == r && s.log[j].point == BeforeWaiting
  {
    hide Reachable, Marks, Active, Invariant;
    CompletedRun(s, o, r);
    var m := Marks(s.log, r);
    assert m[..|m| - 1][3] == Fired(BeforeWaiting);
    MarkLogged(s.log, r, BeforeWaiting);
    j :| 0 <= j < |s.log| && s.log[j].Fire? && s.log[j].run == r && s.log[j].point == BeforeWaiting;
  }

  // ---- After a firing ----

  /** The step after the callback of a fired timer gives it its next date: one interval after the clock
      the run has read, or none for a timer that does not repeat. No other date changes. */
  lemma FiringFinished(tr: seq<State>, o: Objects, i: nat, now: real)
    requires Execution(tr, o) && tr[0] == INITIAL && i < |tr|
    requires tr[i].frames != [] && tr[i].Top().point == Timers && tr[i].Top().status == RunLoop.Done
    ensures LastFired(tr[i].log, tr[i].Top().run).Some?
    ensures var x, f := LastFired(tr[i].log, tr[i].Top().run).value, tr[i].Top();
            var s' := Advance(tr[i], o, now);
            && x in s'.fireDate
            && s'.fireDate[x] == (if o.interval(x) > 0.0 then Some(f.now + o.interval(x)) else None)
            && (forall y :: y != x ==> (y in s'.fireDate <==> y in tr[i].fireDate))
            && (forall y :: y != x && y in tr[i].fireDate ==> s'.fireDate[y] == tr[i].fireDate[y])
            && s'.frames != [] && !Busy(s'.Top())
  {
    hide Execution, LastFired, Seen, Announced;
    ExecutionOutcomes(tr, o, i);
    BusyWith(tr[i]);
    FinishDates(tr[i], o);
  }

  lemma BusyWith(s: State)
    requires Outcomes(s) && s.frames != [] && s.Top().point == Timers && s.Top().status != Idle
    ensures LastFired(s.log, s.Top().run) == Some(s.Top().current)
  {
    assert FrameOutcome(s.log, s.frames[|s.frames| - 1]);
  }

  lemma FinishDates(s: State, o: Objects)
    requires s.frames != [] && s.Top().point == Timers
    ensures var f, s' := s.Top(), Finish(s, o);
            && f.current in s'.fireDate
            && s'.fireDate[f.current] == (if o.interval(f.current) > 0.0 then Some(f.now + o.interval(f.current)) else None)
            && (forall y :: y != f.current ==> (y in s'.fireDate <==> y in s.fireDate))
            && (forall y :: y != f.current && y in s.fireDate ==> s'.fireDate[y] == s.fireDate[y])
            && s'.frames != [] && !Busy(s'.Top())
  {
    hide Registered;
  }
}
