/** CFRunLoop as a re-entrant machine of small steps.

A call of CFRunLoopRunInMode is a frame on an explicit stack. While a callback runs, the
client may do anything: register and remove items, signal, stop, and start nested runs. The
`log` records, in global order, what an observer of the whole process would see.
*/
module RunLoop {
  import opened MachO

  type Id = nat   // the address of a source, timer or observer; 0 is the null pointer

  datatype Kind = Source | Timer | Observer

  /** `CFRunLoopModeInner`: the items registered in one mode, in registration order. */
  datatype Registry = Registry(sources: seq<Id>, timers: seq<Id>, observers: seq<Id>) {
    function Get(k: Kind): (s: seq<Id>) {
      match k case Source => sources case Timer => timers case Observer => observers
    }

    function Set(k: Kind, s: seq<Id>): (r: Registry)
      ensures r.Get(k) == s
      ensures forall j :: j != k ==> r.Get(j) == Get(j)
    {
      match k
      case Source => this.(sources := s)
      case Timer => this.(timers := s)
      case Observer => this.(observers := s)
    }
  }

  const EMPTY := Registry([], [], [])

  type Modes = map<string, Registry>

  const COMMON_MODES := "kCFRunLoopCommonModes"

  /** The immutable attributes of the client's objects. */
  datatype Objects = Objects(
    performs: Id -> bool,     // the source has a perform callback
    fires: Id -> bool,        // the timer has a callback
    observes: Id -> bool,     // the observer has a callback
    activities: Id -> nat,    // the observer's activity mask
    interval: Id -> real)

  // ---- Runs ----

  /** Where a run stands. All but `Sources` and `Timers` are activities told to observers. */
  datatype Point = Entry | BeforeSources | Sources | BeforeTimers | Timers | BeforeWaiting | AfterWaiting | Exit {
    predicate IsActivity() { this != Sources && this != Timers }

    function Bit(): (b: nat)
      requires IsActivity()
    {
      match this
      case Entry => 1
      case BeforeTimers => 2
      case BeforeSources => 4
      case BeforeWaiting => 32
      case AfterWaiting => 64
      case Exit => 128
    }
  }

  predicate Overlaps(mask: nat, bit: nat)
    requires bit > 0
  {
    (mask / bit) % 2 == 1
  }

  /** Idle: looking at `todo`. Calling: the callback of `current` runs. Done: it returned. */
  datatype Status = Idle | Calling | Done

  const STOPPED := 2
  const TIMED_OUT := 3
  const HANDLED_SOURCE := 4

  datatype Frame = Frame(
    run: nat,
    mode: string,
    returnAfterSource: bool,
    point: Point,
    todo: seq<Id>,       // items of the current pass that are still to be looked at
    items: seq<Id>,      // sources or timers copied before their observers were told
    current: Id,
    status: Status,
    now: real,
    result: int,
    snapAt: nat)         // position in the log of this run's source snapshot

  datatype Event =
    | Fire(run: nat, point: Point, mode: string, items: seq<Id>, pending: set<Id>, observers: seq<Id>, now: real)
    | Notify(run: nat, obs: Id, point: Point)
    | Dispatch(run: nat, src: Id)
    | FireTimer(run: nat, timer: Id)
    | PassedOver(run: nat, timer: Id)   // looked at and not due
    | Returned(run: nat, code: int)
    | SignalEdge(src: Id)
    | StopEdge
    | StopTaken(taker: Option<nat>)   // the run that ends for it; None when it refuses a run

  datatype State = State(
    modes: Modes,
    commonModes: set<string>,
    modeStack: seq<string>,
    stopped: bool,
    signaled: set<Id>,
    fireDate: map<Id, Option<real>>,   // None is the never-reached date f64::MAX
    frames: seq<Frame>,
    nextRun: nat,
    log: seq<Event>)
  {
    /** The client's code is running: outside of any run, or in a callback. */
    predicate ClientActive() {
      frames == [] || frames[|frames| - 1].status == Calling
    }

    function Top(): (f: Frame)
      requires frames != []
    {
      frames[|frames| - 1]
    }

    function Below(): (fs: seq<Frame>)
      requires frames != []
    {
      frames[..|frames| - 1]
    }

    /** Replace the top frame. */
    function With(f: Frame): (s: State)
      requires frames != []
      ensures s.frames != [] && s.Below() == Below() && s.Top() == f
    {
      this.(frames := Below() + [f])
    }

    function Log(e: Event): (s: State) {
      this.(log := log + [e])
    }
  }

  function Registered(modes: Modes, mode: string, k: Kind): (s: seq<Id>) {
    if mode in modes then modes[mode].Get(k) else []
  }

  const INITIAL: State := State(
    map["kCFRunLoopDefaultMode" := EMPTY, "NSEventTrackingRunLoopMode" := EMPTY, "NSModalPanelRunLoopMode" := EMPTY],
    {"kCFRunLoopDefaultMode", "NSEventTrackingRunLoopMode"},
    [], false, {}, map[], [], 0, [])

  // ---- Client operations ----

  /** The modes an operation on `mode` touches. */
  function Targets(common: set<string>, mode: string): (ms: set<string>) {
    if mode == COMMON_MODES then common else {mode}
  }

  function EntryOr(modes: Modes, m: string): (r: Registry) {
    if m in modes then modes[m] else EMPTY
  }

  function AppendNew(s: seq<Id>, x: Id): (r: seq<Id>) {
    if x in s then s else s + [x]
  }

  function Without(s: seq<Id>, x: Id): (r: seq<Id>)
    ensures x !in r
    ensures forall y :: y in r <==> y in s && y != x
    ensures |r| <= |s|
  {
    if s == [] then [] else (if s[0] == x then [] else [s[0]]) + Without(s[1..], x)
  }

  /** Registering creates missing modes and never duplicates. */
  function AddTo(modes: Modes, targets: set<string>, k: Kind, x: Id): (r: Modes) {
    map m | m in modes.Keys + targets ::
      if m in targets then EntryOr(modes, m).Set(k, AppendNew(EntryOr(modes, m).Get(k), x)) else modes[m]
  }

  function RemoveFrom(modes: Modes, targets: set<string>, k: Kind, x: Id): (r: Modes) {
    map m | m in modes :: if m in targets then modes[m].Set(k, Without(modes[m].Get(k), x)) else modes[m]
  }

  function EnsureMode(modes: Modes, m: string): (r: Modes) {
    if m in modes then modes else modes[m := EMPTY]
  }

  datatype Op =
    | Add(kind: Kind, x: Id, mode: string)
    | Remove(kind: Kind, x: Id, mode: string)
    | AddCommonMode(mode: string)
    | Stop
    | Signal(src: Id)
    | CreateTimer(timer: Id, date: real)

  function Apply(s: State, op: Op): (r: State) {
    match op
    case Add(k, x, m) =>
      if x == 0 then s else s.(modes := AddTo(s.modes, Targets(s.commonModes, m), k, x))
    case Remove(k, x, m) =>
      if x == 0 then s else s.(modes := RemoveFrom(s.modes, Targets(s.commonModes, m), k, x))
    case AddCommonMode(m) =>
      s.(commonModes := s.commonModes + {m}, modes := EnsureMode(s.modes, m))
    case Stop =>
      if s.stopped then s else s.(stopped := true).Log(StopEdge)
    case Signal(x) =>
      if x == 0 || x in s.signaled then s else s.(signaled := s.signaled + {x}).Log(SignalEdge(x))
    case CreateTimer(t, d) =>
      s.(fireDate := s.fireDate[t := Some(d)])
  }

  /** CFRunLoopRunInMode up to the first `fire_observers`: a pending stop refuses the run. */
  function Enter(s: State, mode: string, once: bool): (r: State) {
    var s1 := s.(modes := EnsureMode(s.modes, mode));
    if s.stopped then s1.(stopped := false).Log(StopTaken(None))
    else
      var f := Frame(s.nextRun, mode, once, Entry, Registered(s1.modes, mode, Observer), [], 0, Idle, 0.0, 0, 0);
      s1.(modeStack := s.modeStack + [mode], frames := s.frames + [f], nextRun := s.nextRun + 1)
        .Log(Fire(s.nextRun, Entry, mode, [], {}, f.todo, 0.0))
  }

  // ---- Steps of the run itself ----

  /** `fire_observers`: the observers of the mode are copied, then told one by one. */
  function StartFiring(s: State, f: Frame, p: Point, items: seq<Id>, now: real): (r: State)
    requires s.frames != []
  {
    var pending := set x | x in items && x in s.signaled && p == BeforeSources;
    s.With(f.(point := p, todo := Registered(s.modes, f.mode, Observer), items := items, status := Idle, now := now,
              snapAt := if p == BeforeSources then |s.log| else f.snapAt))
      .Log(Fire(f.run, p, f.mode, items, pending, Registered(s.modes, f.mode, Observer), now))
  }

  /** After the wait: a pending stop ends the run, otherwise it has timed out; both tell EXIT. */
  function Settle(s: State): (r: State)
    requires s.frames != []
  {
    var f := s.Top();
    if f.result != 0 then StartFiring(s, f, Exit, [], f.now)
    else if s.stopped then s.(stopped := false).With(f.(result := STOPPED)).Log(StopTaken(Some(f.run)))
    else s.With(f.(result := TIMED_OUT))
  }

  /** The run is over and its mode is popped. */
  function PopRun(s: State): (r: State)
    requires s.frames != []
  {
    var f := s.Top();
    s.(frames := s.Below(), modeStack := if s.modeStack == [] then [] else s.modeStack[..|s.modeStack| - 1])
      .Log(Returned(f.run, f.result))
  }

  /** The pass is over: go on to the next point. */
  function NextPoint(s: State, now: real): (r: State)
    requires s.frames != []
  {
    var f := s.Top();
    match f.point
    case Entry => StartFiring(s, f, BeforeSources, Registered(s.modes, f.mode, Source), f.now)
    case BeforeSources => s.With(f.(point := Sources, todo := f.items))
    case Sources => StartFiring(s, f, BeforeTimers, Registered(s.modes, f.mode, Timer), now)
    case BeforeTimers => s.With(f.(point := Timers, todo := f.items))
    case Timers => StartFiring(s, f, BeforeWaiting, [], f.now)
    case BeforeWaiting => StartFiring(s, f, AfterWaiting, [], f.now)
    case AfterWaiting => Settle(s)
    case Exit => PopRun(s)
  }

  /** The frame once it has taken the first item of its pass. */
  function Taken(f: Frame): (r: Frame)
    requires f.todo != []
  {
    f.(todo := f.todo[1..], current := f.todo[0])
  }

  /** A pending source is dispatched, and pending no more. */
  function VisitSource(s: State, o: Objects): (r: State)
    requires s.frames != [] && s.Top().todo != []
  {
    var f := s.Top();
    var x := f.todo[0];
    if x in s.signaled then
      s.(signaled := s.signaled - {x}).With(Taken(f).(status := if o.performs(x) then Calling else Done)).Log(Dispatch(f.run, x))
    else s.With(Taken(f))
  }

  /** A timer that is due is fired, any other is passed over. */
  function VisitTimer(s: State, o: Objects): (r: State)
    requires s.frames != [] && s.Top().todo != []
  {
    var f := s.Top();
    var x := f.todo[0];
    if x in s.fireDate && s.fireDate[x].Some? && f.now >= s.fireDate[x].value then
      s.With(Taken(f).(status := if o.fires(x) then Calling else Done)).Log(FireTimer(f.run, x))
    else s.With(Taken(f)).Log(PassedOver(f.run, x))
  }

  /** An observer is told about the activities it asked for. */
  function VisitObserver(s: State, o: Objects): (r: State)
    requires s.frames != [] && s.Top().todo != [] && s.Top().point.IsActivity()
  {
    var f := s.Top();
    var x := f.todo[0];
    if Overlaps(o.activities(x), f.point.Bit()) && o.observes(x) then
      s.With(Taken(f).(status := Calling)).Log(Notify(f.run, x, f.point))
    else s.With(Taken(f))
  }

  /** Look at the first item of the pass. */
  function Visit(s: State, o: Objects): (r: State)
    requires s.frames != [] && s.Top().todo != []
  {
    match s.Top().point
    case Sources => VisitSource(s, o)
    case Timers => VisitTimer(s, o)
    case _ => VisitObserver(s, o)
  }

  /** After an item was handled: leave through the exit observers if the caller asked for one
      source only, and go on with the pass otherwise. */
  function Leave(s: State, f: Frame): (r: State)
    requires s.frames != []
  {
    if f.returnAfterSource then StartFiring(s, f.(result := HANDLED_SOURCE), Exit, [], f.now)
    else s.With(f.(status := Idle))
  }

  /** A repeating timer is due again one interval after `now`; any other, never. */
  function Rearmed(s: State, f: Frame, interval: real): (r: State) {
    s.(fireDate := s.fireDate[f.current := if interval > 0.0 then Some(f.now + interval) else None])
  }

  /** The callback is over. */
  function Finish(s: State, o: Objects): (r: State)
    requires s.frames != []
  {
    var f := s.Top();
    match f.point
    case Sources => Leave(s, f)
    case Timers => Leave(Rearmed(s, f, o.interval(f.current)), f)
    case _ => s.With(f.(status := Idle))
  }

  /** One step of the machine outside client code. `now` is the clock, read when it is needed. */
  function Advance(s: State, o: Objects, now: real): (r: State)
    requires !s.ClientActive()
  {
    if s.Top().status == Done then Finish(s, o)
    else if s.Top().todo != [] then Visit(s, o)
    else NextPoint(s, now)
  }

  /** The running callback returns. */
  function Return(s: State): (r: State)
    requires s.frames != []
  {
    s.With(s.Top().(status := Done))
  }

  // ---- Runs of the machine ----

  datatype Action =
    | ClientOp(op: Op)
    | Run(mode: string, returnAfterSource: bool)
    | CallbackReturns
    | Tick(now: real)

  predicate Enabled(s: State, a: Action) {
    match a
    case ClientOp(_) => s.ClientActive()
    case Run(_, _) => s.ClientActive()
    case CallbackReturns => s.ClientActive() && s.frames != []
    case Tick(_) => !s.ClientActive()
  }

  function Next(s: State, o: Objects, a: Action): (r: State)
    requires Enabled(s, a)
  {
    match a
    case ClientOp(op) => Apply(s, op)
    case Run(m, once) => Enter(s, m, once)
    case CallbackReturns => Return(s)
    case Tick(now) => Advance(s, o, now)
  }

  /** `tr` is an execution: each state follows from the one before it by an enabled action. */
  ghost predicate Execution(tr: seq<State>, o: Objects) {
    && |tr| > 0
    && forall i :: 0 <= i < |tr| - 1 ==> Steps(tr[i], tr[i + 1], o)
  }

  ghost predicate Steps(s: State, s': State, o: Objects) {
    exists a :: Enabled(s, a) && Next(s, o, a) == s'
  }

  ghost predicate Reachable(s: State, o: Objects) {
    exists tr :: Execution(tr, o) && tr[0] == INITIAL && tr[|tr| - 1] == s
  }
}
