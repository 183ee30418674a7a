/** Laws of the port namespace: every live port holds a right, names are fresh, queues are FIFO
and lossless; and exactly where 32-bit counters make a promise fail.
*/
module MachPortLaws {
  import opened MachO
  import opened MachPorts

  // ---- Rights ----

  predicate HasRight(p: Port) { p.sendCount > 0 || p.hasReceive }

  predicate PortOk(p: Port) { HasRight(p) && p.sendCount < TWO32 && (p.isDead ==> p.queue == []) }

  predicate PortsOk(s: Space) {
    forall n :: n in s.ports ==> PortOk(s.ports[n])
  }

  /** The branch that loses the last right: a send right added to a full counter of a port
      without a receive right wraps the counter to zero and leaves the name behind. */
  predicate CounterWraps(s: Space, op: Op) {
    && op.OpInsertRight? && IsSendType(op.t) && op.name in s.ports
    && s.ports[op.name].sendCount == TWO32 - 1 && !s.ports[op.name].hasReceive
  }

  /** Every operation keeps every live port holding a right, except exactly the wrapping one. */
  lemma KeepPortsOk(s: Space, op: Op)
    requires PortsOk(s) && Allowed(s, op)
    ensures PortsOk(After(s, op)) <==> !CounterWraps(s, op)
  {
    hide AsI32;
    match op
    case OpAllocate(right) => NewPortsOk(right);
    case OpDeallocate(n) =>
      if n in s.ports {
        var p := s.ports[n];
        assert PortOk(p);
        SettleOk(s, n, if p.sendCount > 0 then p.(sendCount := p.sendCount - 1) else p);
      }
    case OpInsertRight(n, t) => InsertOk(s, n, t);
    case OpModRefs(n, right, d) =>
      if n in s.ports {
        var p := s.ports[n];
        assert PortOk(p);
        AdjustedBound(p.sendCount, d);
        SettleOk(s, n, if right == RIGHT_SEND then p.(sendCount := Adjusted(p.sendCount, d))
                       else if right == RIGHT_RECEIVE && d < 0 then p.(hasReceive := false) else p);
      }
    case OpMachMsg(c) => MessageOk(s, c);
  }

  lemma AdjustedBound(count: nat, delta: int)
    ensures Adjusted(count, delta) < TWO32
  {
  }

  lemma NewPortsOk(right: int)
    ensures PortFor(right).Some? ==> PortOk(PortFor(right).value)
    ensures PortOk(SEND_ONLY) && PortOk(WITH_RECEIVE)
  {
  }

  lemma SettleOk(s: Space, n: nat, p: Port)
    requires PortsOk(s) && n in s.ports && p.queue == s.ports[n].queue && p.isDead == s.ports[n].isDead
    requires p.sendCount < TWO32
    ensures PortsOk(Settle(s, n, p))
  {
    assert PortOk(s.ports[n]);
  }

  lemma InsertOk(s: Space, n: nat, t: int)
    requires PortsOk(s)
    ensures PortsOk(InsertRight(s, n, t).0) <==> !CounterWraps(s, OpInsertRight(n, t))
  {
    var r := InsertRight(s, n, t).0;
    if n in s.ports {
      assert PortOk(s.ports[n]);
      assert n in r.ports;
      if CounterWraps(s, OpInsertRight(n, t)) {
        assert r.ports[n].sendCount == 0;
        assert !PortOk(r.ports[n]);
      }
    }
  }

  lemma MessageOk(s: Space, c: Call)
    requires PortsOk(s) && CallOk(s, c)
    ensures PortsOk(MachMsg(s, c).space)
  {
    hide PortOk;
    var s1 := SendPhase(s, c).space;
    SendOk(s, c);
    var s2 := RecvMsg(s1, ReceivePort(c)).0;
    RecvOk(s1, ReceivePort(c));
  }

  lemma SendOk(s: Space, c: Call)
    requires PortsOk(s) && SendsOk(c)
    ensures PortsOk(SendPhase(s, c).space)
  {
    var d := c.buf.header.remotePort;
    if d in s.ports {
      assert PortOk(s.ports[d]);
    }
  }

  lemma RecvOk(s: Space, n: nat)
    requires PortsOk(s)
    ensures PortsOk(RecvMsg(s, n).0)
  {
    if n in s.ports {
      assert PortOk(s.ports[n]);
    }
  }

  /** The wrapping branch is within reach: a port allocated with one send right gets a full counter,
      and one more insertion leaves a name without any right. */
  lemma CounterWrapReached() returns (ss: seq<Space>, ops: seq<Op>)
    ensures IsRun(ss, ops) && |ops| > 0
    ensures CounterWraps(ss[|ops| - 1], ops[|ops| - 1])
    ensures PortsOk(ss[|ops| - 1]) && !PortsOk(ss[|ops|])
    ensures FIRST_NAME in ss[|ops|].ports && PortTypeCall(ss[|ops|], FIRST_NAME).0 == KERN_INVALID_NAME
  {
    ss, ops := FullCounter(TWO32 - 1);
    var last := ss[|ops|];
    KeepPortsOk(last, ONE_MORE);
    ss, ops := ss + [After(last, ONE_MORE)], ops + [ONE_MORE];
    assert ss[|ops| - 1] == last;
  }

  const ONE_MORE := OpInsertRight(FIRST_NAME, MAKE_SEND)

  lemma {:induction false} FullCounter(count: nat) returns (ss: seq<Space>, ops: seq<Op>)
    requires 1 <= count < TWO32
    ensures IsRun(ss, ops) && PortsOk(ss[|ops|])
    ensures FIRST_NAME in ss[|ops|].ports && ss[|ops|].ports[FIRST_NAME] == Port(count, false, false, [])
  {
    if count == 1 {
      var first := OpAllocate(RIGHT_SEND);
      ss, ops := [INITIAL, After(INITIAL, first)], [first];
    } else {
      ss, ops := FullCounter(count - 1);
      ss, ops := ss + [After(ss[|ops|], ONE_MORE)], ops + [ONE_MORE];
    }
  }

  /** While every live port holds a right, the type call fails exactly for absent names. */
  lemma TypeFindsNames(s: Space, n: nat)
    requires PortsOk(s)
    ensures PortTypeCall(s, n).0 == KERN_INVALID_NAME <==> n !in s.ports
    ensures PortTypeCall(s, n).1 == PortType(s, n)
  {
    if n in s.ports {
      assert PortOk(s.ports[n]);
    }
  }

  /** The signed arithmetic of mod_refs is exact exactly while the sum stays below 2^31. */
  lemma AdjustedExact(count: nat, delta: int)
    requires count < TWO32 && -0x8000_0000 <= delta < 0x8000_0000
    ensures Adjusted(count, delta) == (if count + delta < 0 then 0 else count + delta) <==> count + delta < 0x8000_0000
  {
    Sum32(count, delta);
  }

  /** What the failure costs: raising the count of a port with one send right by 2^31 - 1 drops it. */
  lemma AdjustmentDropsPort() returns (ss: seq<Space>, ops: seq<Op>)
    ensures IsRun(ss, ops) && |ops| == 2 && Sound(ss[0], ops[0]) && Sound(ss[1], ops[1])
    ensures ops[1] == OpModRefs(FIRST_NAME, RIGHT_SEND, 0x7FFF_FFFF) && ModRefs(ss[1], FIRST_NAME, RIGHT_SEND, 0x7FFF_FFFF).1 == KERN_SUCCESS
    ensures FIRST_NAME in ss[1].ports && ss[1].ports[FIRST_NAME].sendCount == 1 && FIRST_NAME !in ss[2].ports
  {
    ops := [OpAllocate(RIGHT_SEND), OpModRefs(FIRST_NAME, RIGHT_SEND, 0x7FFF_FFFF)];
    ss := [INITIAL, After(INITIAL, ops[0])];
    ss := ss + [After(ss[1], ops[1])];
  }

  lemma Sum32(count: nat, delta: int)
    requires count < TWO32
    ensures AsI32(AsI32(count) + delta) == AsI32(count + delta)
  {
    if count >= 0x8000_0000 {
      assert AsI32(count) + delta == count + delta - TWO32;
      assert (count + delta - TWO32) % TWO32 == (count + delta) % TWO32;
    }
  }

  // ---- Names ----

  /** Live names are non-null and below the counter, which has not passed the dead name. */
  predicate NamesOk(s: Space) {
    && FIRST_NAME <= s.nextName < TWO32
    && forall n :: n in s.ports ==> 0 < n < s.nextName
  }

  /** The operation creates a name that was not handed out: null, or one still to be allocated. */
  predicate CreatesForeignName(s: Space, op: Op) {
    && op.OpInsertRight? && op.name !in s.ports && (IsSendType(op.t) || op.t == MOVE_RECEIVE)
    && !(0 < op.name < s.nextName)
  }

  /** Allocation after KERN_NO_SPACE: the counter stands at the dead name. */
  predicate AllocatesAgain(s: Space, op: Op) {
    op.OpAllocate? && s.nextName == PORT_DEAD
  }

  lemma KeepNamesOk(s: Space, op: Op)
    requires NamesOk(s) && Allowed(s, op)
    ensures NamesOk(After(s, op)) <==> !CreatesForeignName(s, op) && !AllocatesAgain(s, op)
  {
    hide AsI32, PortFor;
    match op
    case OpAllocate(right) =>
    case OpDeallocate(n) =>
    case OpInsertRight(n, t) =>
      if CreatesForeignName(s, op) {
        assert n in After(s, op).ports;
      }
    case OpModRefs(n, right, d) =>
    case OpMachMsg(c) => MessageNames(s, c);
  }

  lemma MessageNames(s: Space, c: Call)
    requires CallOk(s, c)
    ensures MachMsg(s, c).space.ports.Keys == s.ports.Keys && MachMsg(s, c).space.nextName == s.nextName
  {
    hide Arrival;
    SendNames(s, c);
    var s1 := SendPhase(s, c).space;
    assert RecvMsg(s1, ReceivePort(c)).0.ports.Keys == s1.ports.Keys;
  }

  lemma SendNames(s: Space, c: Call)
    requires SendsOk(c)
    ensures SendPhase(s, c).space.ports.Keys == s.ports.Keys && SendPhase(s, c).space.nextName == s.nextName
  {
  }

  /** A handed-out name is new, and neither null, dead nor special. */
  lemma AllocatedNameFresh(s: Space, right: int)
    requires NamesOk(s) && s.nextName != PORT_DEAD && Allocate(s, right).1.Ok?
    ensures var n := Allocate(s, right).1.name;
            n !in s.ports && n != PORT_NULL && n != PORT_DEAD && n !in SPECIAL && n < Allocate(s, right).0.nextName
  {
  }

  /** After the first KERN_NO_SPACE the next allocation hands out the dead name, and the one after
      that the null name. */
  lemma AllocationPastTheEnd(s: Space)
    requires s.nextName == 0xFFFF_FFFE
    ensures var (s1, r1) := Allocate(s, RIGHT_RECEIVE);
            var (s2, r2) := Allocate(s1, RIGHT_RECEIVE);
            r1 == Err(KERN_NO_SPACE) && r2 == Ok(PORT_DEAD) && Allocate(s2, RIGHT_RECEIVE).1 == Ok(PORT_NULL)
  {
  }

  // ---- Queues ----

  /** Messages sent to, and received from, the current incarnation of port `n`. */
  function SentTo(log: seq<Event>, n: nat): (ms: seq<Message>) {
    if log == [] then []
    else
      match log[|log| - 1]
      case Created(m) => if m == n then [] else SentTo(log[..|log| - 1], n)
      case Sent(m, msg) => SentTo(log[..|log| - 1], n) + if m == n then [msg] else []
      case Received(_, _) => SentTo(log[..|log| - 1], n)
  }

  function ReceivedFrom(log: seq<Event>, n: nat): (ms: seq<Message>) {
    if log == [] then []
    else
      match log[|log| - 1]
      case Created(m) => if m == n then [] else ReceivedFrom(log[..|log| - 1], n)
      case Sent(_, _) => ReceivedFrom(log[..|log| - 1], n)
      case Received(m, msg) => ReceivedFrom(log[..|log| - 1], n) + if m == n then [msg] else []
  }

  /** First in, first out, nothing lost, nothing invented. */
  ghost predicate QueuesFaithful(s: Space, log: seq<Event>) {
    forall n :: n in s.ports ==> SentTo(log, n) == ReceivedFrom(log, n) + s.ports[n].queue
  }

  lemma Appended(log: seq<Event>, e: Event)
    ensures forall m :: SentTo(log + [e], m) ==
              (match e
               case Created(n) => if m == n then [] else SentTo(log, m)
               case Sent(n, msg) => SentTo(log, m) + if m == n then [msg] else []
               case Received(_, _) => SentTo(log, m))
    ensures forall m :: ReceivedFrom(log + [e], m) ==
              (match e
               case Created(n) => if m == n then [] else ReceivedFrom(log, m)
               case Sent(_, _) => ReceivedFrom(log, m)
               case Received(n, msg) => ReceivedFrom(log, m) + if m == n then [msg] else [])
  {
    assert (log + [e])[..|log|] == log;
  }

  lemma KeepQueues(s: Space, op: Op, log: seq<Event>)
    requires QueuesFaithful(s, log) && Allowed(s, op)
    ensures QueuesFaithful(After(s, op), log + Events(s, op))
  {
    hide AsI32, SentTo, ReceivedFrom, CallOk;
    assert log + [] == log;
    match op
    case OpMachMsg(c) => MessageQueues(s, c, log);
    case OpAllocate(right) => Appended(log, Created(s.nextName));
    case OpInsertRight(n, t) => Appended(log, Created(n));
    case OpDeallocate(n) =>
    case OpModRefs(n, right, d) =>
  }

  lemma SendQueues(s: Space, c: Call, log: seq<Event>)
    requires QueuesFaithful(s, log) && SendsOk(c)
    ensures QueuesFaithful(SendPhase(s, c).space, log + SendPhase(s, c).events)
  {
    hide SentTo, ReceivedFrom, BodySize;
    assert log + [] == log;
    if Wants(c.option, SEND_MSG) {
      var d, msg := c.buf.header.remotePort, Outgoing(c.buf, c.sendSize);
      Appended(log, Sent(d, msg));
      if d in s.ports {
        assert ReceivedFrom(log, d) + (s.ports[d].queue + [msg]) == ReceivedFrom(log, d) + s.ports[d].queue + [msg];
      }
    }
  }

  lemma RecvQueues(s: Space, n: nat, log: seq<Event>)
    requires QueuesFaithful(s, log)
    ensures var (s', got) := RecvMsg(s, n);
            QueuesFaithful(s', if got.Some? then log + [Received(n, got.value)] else log)
  {
    hide SentTo, ReceivedFrom;
    var (s', got) := RecvMsg(s, n);
    if got.Some? {
      Appended(log, Received(n, got.value));
      var q := s.ports[n].queue;
      assert q == [q[0]] + q[1..];
      assert ReceivedFrom(log, n) + [q[0]] + q[1..] == ReceivedFrom(log, n) + q;
    }
  }

  lemma MessageQueues(s: Space, c: Call, log: seq<Event>)
    requires QueuesFaithful(s, log) && CallOk(s, c)
    ensures QueuesFaithful(MachMsg(s, c).space, log + MachMsg(s, c).events)
  {
    hide QueuesFaithful, SendsOk, SendPhase, RecvMsg;
    var sent := SendPhase(s, c);
    SendQueues(s, c, log);
    RecvQueues(sent.space, ReceivePort(c), log + sent.events);
    var got := RecvMsg(sent.space, ReceivePort(c)).1;
    if got.Some? {
      var e := Received(ReceivePort(c), got.value);
      assert log + sent.events + [e] == log + (sent.events + [e]);
    }
  }

  // ---- Runs ----

  /** The states of a run: each follows from the one before it by the next operation. */
  ghost predicate IsRun(ss: seq<Space>, ops: seq<Op>) {
    && |ss| == |ops| + 1 && ss[0] == INITIAL
    && forall i :: 0 <= i < |ops| ==> Allowed(ss[i], ops[i]) && ss[i + 1] == After(ss[i], ops[i])
  }

  /** What the callers saw during the first `n` operations of a run. */
  ghost function LogOf(ss: seq<Space>, ops: seq<Op>, n: nat): (log: seq<Event>)
    requires IsRun(ss, ops) && n <= |ops|
  {
    if n == 0 then [] else LogOf(ss, ops, n - 1) + Events(ss[n - 1], ops[n - 1])
  }

  /** Over any run, the messages sent to a port incarnation are those received from it followed by
      those still queued. */
  lemma {:induction false} RunFaithful(ss: seq<Space>, ops: seq<Op>, n: nat)
    requires IsRun(ss, ops) && n <= |ops|
    ensures QueuesFaithful(ss[n], LogOf(ss, ops, n))
  {
    hide QueuesFaithful, After, Events, Allowed;
    if n == 0 {
      InitialSound();
    } else {
      RunFaithful(ss, ops, n - 1);
      assert ss[n - 1 + 1] == After(ss[n - 1], ops[n - 1]);
      KeepQueues(ss[n - 1], ops[n - 1], LogOf(ss, ops, n - 1));
    }
  }

  /** The operation does not take one of the three branches in which a 32-bit counter or a foreign
      name breaks the namespace. */
  predicate Sound(s: Space, op: Op) {
    !CounterWraps(s, op) && !CreatesForeignName(s, op) && !AllocatesAgain(s, op)
  }

  /** In every state of a run without those branches, every live port holds a right, its name is
      below the counter, and dead ports have nothing queued. */
  lemma {:induction false} RunSound(ss: seq<Space>, ops: seq<Op>, n: nat)
    requires IsRun(ss, ops) && n <= |ops|
    requires forall i :: 0 <= i < n ==> Sound(ss[i], ops[i])
    ensures PortsOk(ss[n]) && NamesOk(ss[n])
  {
    hide PortsOk, NamesOk, After, Allowed;
    if n == 0 {
      InitialSound();
    } else {
      RunSound(ss, ops, n - 1);
      assert ss[n - 1 + 1] == After(ss[n - 1], ops[n - 1]);
      SoundStep(ss[n - 1], ops[n - 1]);
    }
  }

  lemma SoundStep(s: Space, op: Op)
    requires PortsOk(s) && NamesOk(s) && Allowed(s, op) && Sound(s, op)
    ensures PortsOk(After(s, op)) && NamesOk(After(s, op))
  {
    hide PortsOk, NamesOk, After, CounterWraps, CreatesForeignName, AllocatesAgain;
    KeepPortsOk(s, op);
    KeepNamesOk(s, op);
  }

  lemma InitialSound()
    ensures PortsOk(INITIAL) && NamesOk(INITIAL) && QueuesFaithful(INITIAL, [])
  {
  }

  /** In every space such a run reaches, the type call fails exactly for absent names. */
  lemma ReachableTypes(ss: seq<Space>, ops: seq<Op>, n: nat, name: nat)
    requires IsRun(ss, ops) && n <= |ops|
    requires forall i :: 0 <= i < n ==> Sound(ss[i], ops[i])
    ensures PortTypeCall(ss[n], name).0 == KERN_INVALID_NAME <==> name !in ss[n].ports
  {
    hide Sound, PortsOk, After, Allowed;
    RunSound(ss, ops, n);
    TypeFindsNames(ss[n], name);
  }

  /** Names handed out in a run without those branches are pairwise different. */
  lemma {:induction false} CounterGrows(ss: seq<Space>, ops: seq<Op>, i: nat, n: nat)
    requires IsRun(ss, ops) && i <= n <= |ops|
    requires forall k :: 0 <= k < n ==> Sound(ss[k], ops[k])
    ensures ss[i].nextName <= ss[n].nextName
  {
    hide After, Allowed, PortsOk;
    if i < n {
      CounterGrows(ss, ops, i, n - 1);
      RunSound(ss, ops, n - 1);
      assert ss[n - 1 + 1] == After(ss[n - 1], ops[n - 1]);
      CounterStep(ss[n - 1], ops[n - 1]);
    }
  }

  lemma CounterStep(s: Space, op: Op)
    requires NamesOk(s) && Allowed(s, op) && Sound(s, op)
    ensures s.nextName <= After(s, op).nextName
    ensures op.OpAllocate? ==> s.nextName < After(s, op).nextName
  {
    hide AsI32, PortFor;
    if op.OpMachMsg? {
      MessageNames(s, op.call);
    }
  }

  lemma AllocatedDistinct(ss: seq<Space>, ops: seq<Op>, i: nat, k: nat)
    requires IsRun(ss, ops) && i < k < |ops|
    requires forall j :: 0 <= j <= k ==> Sound(ss[j], ops[j])
    requires ops[i].OpAllocate? && Allocate(ss[i], ops[i].right).1.Ok?
    requires ops[k].OpAllocate? && Allocate(ss[k], ops[k].right).1.Ok?
    ensures Allocate(ss[i], ops[i].right).1.name != Allocate(ss[k], ops[k].right).1.name
  {
    hide Sound, After, Allowed;
    RunSound(ss, ops, i);
    assert ss[i + 1] == After(ss[i], ops[i]) && Sound(ss[i], ops[i]);
    CounterStep(ss[i], ops[i]);
    CounterGrows(ss, ops, i + 1, k);
    NameIsCounter(ss[i], ops[i].right);
    NameIsCounter(ss[k], ops[k].right);
  }

  lemma NameIsCounter(s: Space, right: int)
    requires Allocate(s, right).1.Ok?
    ensures Allocate(s, right).1.name == s.nextName
  {
  }

  // ---- The ledger of rights ----

  /** The rights that callers hold under one name. */
  datatype Rights = Rights(send: nat, receive: bool, dead: bool)

  /** The rights that come with a newly allocated name, by kind: a send right, a receive right, a port
      set, which counts as a receive right, or a dead name, which holds one send right. */
  function Given(right: int): (r: Option<Rights>) {
    if right == 0 then Some(Rights(1, false, false))
    else if right == 1 || right == 3 then Some(Rights(0, true, false))
    else if right == 4 then Some(Rights(1, false, true))
    else None
  }

  /** Insertion by message type: 17, 19 and 20 add a send right, 16 the receive right; on an absent name
      they create it, and nothing else does. */
  function Inserted(r: Option<Rights>, t: int): (n: Option<Rights>) {
    var held := if r.Some? then r.value else Rights(0, false, false);
    if t == 17 || t == 19 || t == 20 then Some(held.(send := held.send + 1))
    else if t == 16 then Some(held.(receive := true))
    else r
  }

  /** A name lives as long as some right is held under it. */
  function Kept(r: Rights): (n: Option<Rights>) {
    if r.send == 0 && !r.receive then None else Some(r)
  }

  function Less(a: nat, d: int): (n: nat) { if a + d < 0 then 0 else a + d }

  /** What an operation does to the rights under name `n`; `handedOut` is the name an allocation
      returned. */
  function Account(r: Option<Rights>, op: Op, n: nat, handedOut: Option<nat>): (a: Option<Rights>) {
    match op
    case OpAllocate(right) => if handedOut == Some(n) then Given(right) else r
    case OpDeallocate(m) => if m == n && r.Some? then Kept(r.value.(send := Less(r.value.send, -1))) else r
    case OpInsertRight(m, t) => if m == n then Inserted(r, t) else r
    case OpModRefs(m, right, d) =>
      if m != n || r.None? then r
      else if right == 0 then Kept(r.value.(send := Less(r.value.send, d)))
      else if right == 1 && d < 0 then Kept(r.value.(receive := false))
      else Kept(r.value)
    case OpMachMsg(_) => r
  }

  function AllocatedName(s: Space, op: Op): (n: Option<nat>) {
    match op
    case OpAllocate(right) => if Allocate(s, right).1.Ok? then Some(Allocate(s, right).1.name) else None
    case _ => None
  }

  /** The books after the first `k` operations of a run, kept from the operations alone and the names
      they returned. */
  ghost function Books(ss: seq<Space>, ops: seq<Op>, k: nat, n: nat): (r: Option<Rights>)
    requires IsRun(ss, ops) && k <= |ops|
  {
    if k == 0 then (if n in {0x103, 0x203, 0x303, 0x307, 0x40b} then Some(Rights(1, true, false)) else None)
    else Account(Books(ss, ops, k - 1, n), ops[k - 1], n, AllocatedName(ss[k - 1], ops[k - 1]))
  }

  /** The port under `n` is what the books say. */
  predicate Matches(s: Space, n: nat, r: Option<Rights>) {
    match r
    case None => n !in s.ports
    case Some(h) =>
      n in s.ports && s.ports[n].sendCount == h.send && s.ports[n].hasReceive == h.receive && s.ports[n].isDead == h.dead
  }

  /** The 32-bit arithmetic of the operation is exact: a counter that is raised is not full, and an
      adjusted one stays below 2^31. */
  predicate Exact(s: Space, op: Op) {
    match op
    case OpInsertRight(n, t) => IsSendType(t) && n in s.ports ==> s.ports[n].sendCount + 1 < TWO32
    case OpModRefs(n, right, d) =>
      right == RIGHT_SEND && n in s.ports ==>
        s.ports[n].sendCount < TWO32 && -0x8000_0000 <= d < 0x8000_0000 && s.ports[n].sendCount + d < 0x8000_0000
    case _ => true
  }

  lemma AccountStep(s: Space, op: Op, n: nat, r: Option<Rights>)
    requires Allowed(s, op) && Exact(s, op) && Matches(s, n, r)
    requires r.Some? ==> r.value.send > 0 || r.value.receive
    ensures Matches(After(s, op), n, Account(r, op, n, AllocatedName(s, op)))
    ensures var a := Account(r, op, n, AllocatedName(s, op)); a.Some? ==> a.value.send > 0 || a.value.receive
  {
    hide AsI32, Adjusted;
    match op
    case OpAllocate(right) =>
    case OpDeallocate(m) =>
    case OpInsertRight(m, t) =>
    case OpModRefs(m, right, d) =>
      if m == n && right == RIGHT_SEND && n in s.ports {
        AdjustedExact(s.ports[n].sendCount, d);
      }
    case OpMachMsg(c) => MessageRights(s, c, n);
  }

  lemma MessageRights(s: Space, c: Call, n: nat)
    requires CallOk(s, c)
    ensures n in MachMsg(s, c).space.ports <==> n in s.ports
    ensures n in s.ports ==> MachMsg(s, c).space.ports[n].(queue := []) == s.ports[n].(queue := [])
  {
    hide Deliver, CallOk;
  }

  /** Over any run whose counters are exact, each name is live exactly while the books show a right under
      it, and the port then holds exactly the rights on the books. */
  lemma {:induction false} RightsOnTheBooks(ss: seq<Space>, ops: seq<Op>, k: nat, n: nat)
    requires IsRun(ss, ops) && k <= |ops|
    requires forall i :: 0 <= i < k ==> Exact(ss[i], ops[i])
    ensures Matches(ss[k], n, Books(ss, ops, k, n))
    ensures var r := Books(ss, ops, k, n); r.Some? ==> r.value.send > 0 || r.value.receive
  {
    hide Account, After, Allowed, Exact;
    if k > 0 {
      RightsOnTheBooks(ss, ops, k - 1, n);
      assert ss[k - 1 + 1] == After(ss[k - 1], ops[k - 1]);
      AccountStep(ss[k - 1], ops[k - 1], n, Books(ss, ops, k - 1, n));
    }
  }

  /** The type call reports each kind of right by a bit of its own. */
  lemma TypeReports(s: Space, n: nat)
    ensures var t := PortType(s, n);
            && (Wants(t, 0x2_0000) <==> n in s.ports && s.ports[n].hasReceive)
            && (Wants(t, 0x1_0000) <==> n in s.ports && s.ports[n].sendCount > 0)
            && (Wants(t, 0x10_0000) <==> n in s.ports && s.ports[n].isDead)
            && t % 0x1_0000 == 0 && t < 0x20_0000 && t / 0x4_0000 % 4 == 0
  {
  }

  /** Which calls succeed, and what the others return. */
  lemma ReturnCodes(s: Space, n: nat, t: int, right: int, d: int)
    ensures Deallocate(s, n).1 == (if n in s.ports then 0 else 15)
    ensures ModRefs(s, n, right, d).1 == (if n in s.ports then 0 else 15)
    ensures InsertRight(s, n, t).1 ==
            if t in {16, 17, 19, 20} || (n in s.ports && t in {18, 21}) then 0 else 4
    ensures s.nextName < 0xFFFF_FFFE ==>
            Allocate(s, right).1 == if right in {0, 1, 3, 4} then Ok(s.nextName) else Err(4)
  {
  }

  // ---- What a receiver sees ----

  /** A successful receive hands over the sender's header with the size rewritten, and the first
      min(body, rcv_size - 24) bytes of its body; what lies behind them is untouched. */
  lemma ReceiverSees(b: Buffer, msg: Message, rcvSize: nat)
    requires HEADER_SIZE <= rcvSize < TWO32 && rcvSize - HEADER_SIZE <= |b.area|
    ensures var r := Deliver(b, msg, rcvSize);
            var n := if |msg.body| < rcvSize - HEADER_SIZE then |msg.body| else rcvSize - HEADER_SIZE;
            && r.header == msg.header.(size := HEADER_SIZE + n)
            && r.area[..n] == msg.body[..n] && r.area[n..] == b.area[n..] && |r.area| == |b.area|
  {
  }

  /** The copy stays within what the receiver offered, for every message, exactly when it offered
      room for a header: below that the subtraction wraps around. */
  lemma CopyBounded(rcvSize: nat)
    requires rcvSize < TWO32
    ensures (forall msg: Message :: HEADER_SIZE + CopyLen(msg, rcvSize) <= rcvSize) <==> rcvSize >= HEADER_SIZE
  {
    if rcvSize < HEADER_SIZE {
      var msg := Message(Header(0, 0, 0, 0, 0, 0), []);
      assert HEADER_SIZE + CopyLen(msg, rcvSize) > rcvSize;
    }
  }

  /** A receiver that offers room for a header and has that room can never be overrun. */
  lemma BufferSuffices(s: Space, c: Call)
    requires SendsOk(c)
    requires Wants(c.option, RCV_MSG) ==> HEADER_SIZE <= c.rcvSize < TWO32 && c.rcvSize - HEADER_SIZE <= |c.buf.area|
    ensures CallOk(s, c)
  {
    hide SendPhase, RecvMsg;
  }

  /** The port names an operation may change. */
  function Touches(s: Space, op: Op): (ns: set<nat>) {
    match op
    case OpAllocate(_) => {s.nextName}
    case OpDeallocate(n) => {n}
    case OpInsertRight(n, _) => {n}
    case OpModRefs(n, _, _) => {n}
    case OpMachMsg(c) => {c.buf.header.remotePort, ReceivePort(c)}
  }

  lemma OthersUntouched(s: Space, op: Op, n: nat)
    requires Allowed(s, op) && n !in Touches(s, op)
    ensures n in After(s, op).ports <==> n in s.ports
    ensures n in s.ports ==> After(s, op).ports[n] == s.ports[n]
  {
    hide AsI32;
    if op.OpMachMsg? {
      MessageElsewhere(s, op.call, n);
    }
  }

  lemma MessageElsewhere(s: Space, c: Call, n: nat)
    requires CallOk(s, c) && n != c.buf.header.remotePort && n != ReceivePort(c)
    ensures n in MachMsg(s, c).space.ports <==> n in s.ports
    ensures n in s.ports ==> MachMsg(s, c).space.ports[n] == s.ports[n]
  {
    hide Deliver;
  }

  /** From a send on, the run `ss` does not touch port `n`. */
  ghost predicate LeavesPort(ss: seq<Space>, ops: seq<Op>, i: nat, k: nat, n: nat)
    requires IsRun(ss, ops) && i <= k <= |ops|
  {
    forall j :: i <= j < k ==> n !in Touches(ss[j], ops[j])
  }

  lemma {:induction false} PortKept(ss: seq<Space>, ops: seq<Op>, i: nat, k: nat, n: nat)
    requires IsRun(ss, ops) && i <= k <= |ops| && LeavesPort(ss, ops, i, k, n) && n in ss[i].ports
    ensures n in ss[k].ports && ss[k].ports[n] == ss[i].ports[n]
    decreases k
  {
    hide After, Allowed, Touches;
    if i < k {
      PortKept(ss, ops, i, k - 1, n);
      assert ss[k - 1 + 1] == After(ss[k - 1], ops[k - 1]);
      OthersUntouched(ss[k - 1], ops[k - 1], n);
    }
  }

  /** End to end: a message sent to an idle port is what the next receive on that port delivers,
      whatever happened to other ports in between. It arrives as sent when the receiver has room. */
  lemma SendReceive(ss: seq<Space>, ops: seq<Op>, i: nat, k: nat)
    requires IsRun(ss, ops) && i < k < |ops| && ops[i].OpMachMsg? && ops[k].OpMachMsg?
    requires var c, d := ops[i].call, ops[k].call;
             var n := c.buf.header.remotePort;
             && Wants(c.option, SEND_MSG) && !Wants(c.option, RCV_MSG) && HEADER_SIZE <= c.sendSize
             && n in ss[i].ports && !ss[i].ports[n].isDead && ss[i].ports[n].queue == []
             && LeavesPort(ss, ops, i + 1, k, n)
             && Wants(d.option, RCV_MSG) && !Wants(d.option, SEND_MSG) && d.rcvName == n
             && c.sendSize <= d.rcvSize < TWO32
    ensures var c, d, r := ops[i].call, ops[k].call, MachMsg(ss[k], ops[k].call);
            && r.code == 0 && r.buf.header == c.buf.header.(size := c.sendSize)
            && c.sendSize - HEADER_SIZE <= |r.buf.area|
            && r.buf.area[..c.sendSize - HEADER_SIZE] == c.buf.area[..c.sendSize - HEADER_SIZE]
            && r.buf.area[c.sendSize - HEADER_SIZE..] == d.buf.area[c.sendSize - HEADER_SIZE..]
  {
    hide After, Touches;
    var c, d := ops[i].call, ops[k].call;
    var n := c.buf.header.remotePort;
    assert ss[i + 1] == After(ss[i], ops[i]) && Allowed(ss[i], ops[i]) && Allowed(ss[k], ops[k]);
    Queued(ss[i], c);
    PortKept(ss, ops, i + 1, k, n);
    assert ss[k].ports[n].queue == [Outgoing(c.buf, c.sendSize)];
  }

  lemma Queued(s: Space, c: Call)
    requires CallOk(s, c) && Wants(c.option, SEND_MSG) && !Wants(c.option, RCV_MSG)
    requires c.buf.header.remotePort in s.ports && !s.ports[c.buf.header.remotePort].isDead
    ensures var n, r := c.buf.header.remotePort, After(s, OpMachMsg(c));
            n in r.ports && r.ports[n].queue == s.ports[n].queue + [Outgoing(c.buf, c.sendSize)]
  {
  }

  /** A receive on a port with nothing queued times out and changes nothing. */
  lemma EmptyReceive(s: Space, c: Call)
    requires CallOk(s, c) && !Wants(c.option, SEND_MSG) && Wants(c.option, RCV_MSG)
    requires c.rcvName !in s.ports || s.ports[c.rcvName].queue == []
    ensures MachMsg(s, c) == Outcome(s, c.buf, 0x1000_0003, [])
  {
  }

  /** A combined call sends to the header's remote port and takes its reply from the local one. */
  lemma CombinedCall(s: Space, c: Call)
    requires CallOk(s, c) && Wants(c.option, SEND_MSG) && Wants(c.option, RCV_MSG)
    requires var h := c.buf.header;
             && h.remotePort in s.ports && !s.ports[h.remotePort].isDead && h.remotePort != h.localPort
             && h.localPort in s.ports && s.ports[h.localPort].queue != []
    ensures var h, r := c.buf.header, MachMsg(s, c);
            && r.code == 0 && r.buf == Deliver(c.buf, s.ports[h.localPort].queue[0], c.rcvSize)
            && r.space.ports[h.localPort].queue == s.ports[h.localPort].queue[1..]
            && r.space.ports[h.remotePort].queue == s.ports[h.remotePort].queue + [Outgoing(c.buf, c.sendSize)]
  {
    hide Deliver;
  }

  /** The option word: bit 0 asks for a send, bit 1 for a receive. */
  lemma OptionBits(send: bool, receive: bool, rest: nat)
    ensures var option := (if send then 1 else 0) + (if receive then 2 else 0) + 4 * rest;
            Wants(option, SEND_MSG) == send && Wants(option, RCV_MSG) == receive
  {
  }

  /** A failed send changes nothing and receives nothing. */
  lemma FailedSend(s: Space, c: Call)
    requires CallOk(s, c) && Wants(c.option, SEND_MSG)
    requires c.buf.header.remotePort !in s.ports || s.ports[c.buf.header.remotePort].isDead
    ensures MachMsg(s, c) == Outcome(s, c.buf, SEND_INVALID_DEST, [])
  {
  }
}
