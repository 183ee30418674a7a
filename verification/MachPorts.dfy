/** The Mach port namespace: rights, queues and `mach_msg`, as functions on the space. */
module MachPorts {
  import opened Memory
  import opened MachO

  const TWO32: nat := 0x1_0000_0000
  const PORT_NULL: nat := 0
  const PORT_DEAD: nat := 0xFFFF_FFFF
  const FIRST_NAME: nat := 0x1000

  const KERN_SUCCESS := 0
  const KERN_NO_SPACE := 3
  const KERN_INVALID_ARGUMENT := 4
  const KERN_INVALID_NAME := 15
  const SEND_INVALID_DEST := 0x1000_0002
  const RCV_TIMED_OUT := 0x1000_0003

  const RIGHT_SEND := 0
  const RIGHT_RECEIVE := 1
  const RIGHT_PORT_SET := 3
  const RIGHT_DEAD_NAME := 4

  const MOVE_RECEIVE := 16
  const MOVE_SEND := 17
  const MOVE_SEND_ONCE := 18
  const COPY_SEND := 19
  const MAKE_SEND := 20
  const MAKE_SEND_ONCE := 21

  const SPECIAL: set<nat> := {0x103, 0x203, 0x303, 0x307, 0x40b}

  const HEADER_SIZE: nat := 24

  datatype Header = Header(bits: nat, size: nat, remotePort: nat, localPort: nat, voucher: nat, id: int)

  datatype Message = Message(header: Header, body: seq<Byte>)

  datatype Port = Port(sendCount: nat, hasReceive: bool, isDead: bool, queue: seq<Message>)

  datatype Space = Space(ports: map<nat, Port>, nextName: nat)

  const WITH_RECEIVE := Port(0, true, false, [])
  const SEND_ONLY := Port(1, false, false, [])
  const SEND_RECEIVE := Port(1, true, false, [])

  const INITIAL: Space := Space(map n | n in SPECIAL :: SEND_RECEIVE, FIRST_NAME)

  /** What the operations do to incarnations and queues, as their callers can see it. */
  datatype Event = Created(name: nat) | Sent(name: nat, msg: Message) | Received(name: nat, msg: Message)

  datatype Result = Ok(name: nat) | Err(code: int)

  // ---- Rights ----

  function PortFor(right: int): (p: Option<Port>) {
    if right == RIGHT_RECEIVE || right == RIGHT_PORT_SET then Some(WITH_RECEIVE)
    else if right == RIGHT_SEND then Some(SEND_ONLY)
    else if right == RIGHT_DEAD_NAME then Some(SEND_ONLY.(isDead := true))
    else None
  }

  /** `next_name` is a 32-bit counter, advanced before anything is checked. */
  function Allocate(s: Space, right: int): (r: (Space, Result)) {
    var s1 := s.(nextName := (s.nextName + 1) % TWO32);
    if s1.nextName > 0xFFFF_FFFE then (s1, Err(KERN_NO_SPACE))
    else
      match PortFor(right)
      case None => (s1, Err(KERN_INVALID_ARGUMENT))
      case Some(p) => (s1.(ports := s1.ports[s.nextName := p]), Ok(s.nextName))
  }

  /** Store the changed port, or drop its name when no right is left. */
  function Settle(s: Space, name: nat, p: Port): (r: Space) {
    if p.sendCount == 0 && !p.hasReceive then s.(ports := s.ports - {name}) else s.(ports := s.ports[name := p])
  }

  function Deallocate(s: Space, name: nat): (r: (Space, int)) {
    if name !in s.ports then (s, KERN_INVALID_NAME)
    else
      var p := s.ports[name];
      (Settle(s, name, if p.sendCount > 0 then p.(sendCount := p.sendCount - 1) else p), KERN_SUCCESS)
  }

  predicate IsSendType(t: int) { t == MAKE_SEND || t == COPY_SEND || t == MOVE_SEND }

  function InsertRight(s: Space, name: nat, t: int): (r: (Space, int)) {
    if name !in s.ports then
      if IsSendType(t) then (s.(ports := s.ports[name := SEND_ONLY]), KERN_SUCCESS)
      else if t == MOVE_RECEIVE then (s.(ports := s.ports[name := WITH_RECEIVE]), KERN_SUCCESS)
      else (s, KERN_INVALID_ARGUMENT)
    else
      var p := s.ports[name];
      if IsSendType(t) then (s.(ports := s.ports[name := p.(sendCount := (p.sendCount + 1) % TWO32)]), KERN_SUCCESS)
      else if t == MOVE_RECEIVE then (s.(ports := s.ports[name := p.(hasReceive := true)]), KERN_SUCCESS)
      else if t == MAKE_SEND_ONCE || t == MOVE_SEND_ONCE then (s, KERN_SUCCESS)
      else (s, KERN_INVALID_ARGUMENT)
  }

  /** The 32-bit two's complement reading of a bit pattern. */
  function AsI32(x: int): (r: int)
    ensures -0x8000_0000 <= r < 0x8000_0000
  {
    if x % TWO32 < 0x8000_0000 then x % TWO32 else x % TWO32 - TWO32
  }

  /** `send_count as i32 + delta`, clamped at zero. */
  function Adjusted(count: nat, delta: int): (r: nat) {
    var n := AsI32(AsI32(count) + delta);
    if n < 0 then 0 else n
  }

  function ModRefs(s: Space, name: nat, right: int, delta: int): (r: (Space, int)) {
    if name !in s.ports then (s, KERN_INVALID_NAME)
    else
      var p := s.ports[name];
      var p1 := if right == RIGHT_SEND then p.(sendCount := Adjusted(p.sendCount, delta))
                else if right == RIGHT_RECEIVE && delta < 0 then p.(hasReceive := false)
                else p;
      (Settle(s, name, p1), KERN_SUCCESS)
  }

  function PortType(s: Space, name: nat): (t: nat) {
    if name !in s.ports then 0
    else
      var p := s.ports[name];
      (if p.hasReceive then 0x2_0000 else 0) + (if p.sendCount > 0 then 0x1_0000 else 0) +
      (if p.isDead then 0x10_0000 else 0)
  }

  /** mach_port_type: a type word of zero reads as an invalid name. */
  function PortTypeCall(s: Space, name: nat): (r: (int, nat)) {
    if PortType(s, name) == 0 then (KERN_INVALID_NAME, 0) else (KERN_SUCCESS, PortType(s, name))
  }

  // ---- Messages ----

  function SendMsg(s: Space, dest: nat, msg: Message): (r: (Space, int)) {
    if dest in s.ports && !s.ports[dest].isDead then
      (s.(ports := s.ports[dest := s.ports[dest].(queue := s.ports[dest].queue + [msg])]), 0)
    else (s, SEND_INVALID_DEST)
  }

  function RecvMsg(s: Space, name: nat): (r: (Space, Option<Message>)) {
    if name !in s.ports || s.ports[name].queue == [] then (s, None)
    else
      (s.(ports := s.ports[name := s.ports[name].(queue := s.ports[name].queue[1..])]), Some(s.ports[name].queue[0]))
  }

  /** The caller's message buffer: a header, and the bytes after it. */
  datatype Buffer = Buffer(header: Header, area: seq<Byte>)

  const SEND_MSG: nat := 1
  const RCV_MSG: nat := 2

  predicate Wants(option: nat, bit: nat)
    requires bit > 0
  {
    (option / bit) % 2 == 1
  }

  function BodySize(sendSize: nat): (n: nat) {
    if sendSize > HEADER_SIZE then sendSize - HEADER_SIZE else 0
  }

  /** `rcv_size as usize - 24`: a 64-bit subtraction that wraps below a header's size. */
  function MaxBody(rcvSize: nat): (n: nat) {
    Wrap64(rcvSize - HEADER_SIZE)
  }

  function CopyLen(msg: Message, rcvSize: nat): (n: nat)
    ensures n <= |msg.body|
  {
    if |msg.body| < MaxBody(rcvSize) then |msg.body| else MaxBody(rcvSize)
  }

  function Deliver(b: Buffer, msg: Message, rcvSize: nat): (r: Buffer)
    requires CopyLen(msg, rcvSize) <= |b.area|
  {
    var n := CopyLen(msg, rcvSize);
    Buffer(msg.header.(size := (HEADER_SIZE + n) % TWO32), msg.body[..n] + b.area[n..])
  }

  function Outgoing(b: Buffer, sendSize: nat): (m: Message)
    requires BodySize(sendSize) <= |b.area|
  {
    Message(b.header, b.area[..BodySize(sendSize)])
  }

  datatype Call = Call(buf: Buffer, option: nat, sendSize: nat, rcvSize: nat, rcvName: nat)

  /** The buffer holds what the caller said it sends. */
  predicate SendsOk(c: Call) {
    Wants(c.option, SEND_MSG) ==> BodySize(c.sendSize) <= |c.buf.area|
  }

  datatype Outcome = Outcome(space: Space, buf: Buffer, code: int, events: seq<Event>)

  function SendPhase(s: Space, c: Call): (r: Outcome)
    requires SendsOk(c)
  {
    if !Wants(c.option, SEND_MSG) then Outcome(s, c.buf, 0, [])
    else
      var msg := Outgoing(c.buf, c.sendSize);
      var (s1, code) := SendMsg(s, c.buf.header.remotePort, msg);
      Outcome(s1, c.buf, code, if code == 0 then [Sent(c.buf.header.remotePort, msg)] else [])
  }

  /** A combined send and receive takes the reply from the header's local port. */
  function ReceivePort(c: Call): (n: nat) {
    if Wants(c.option, SEND_MSG) then c.buf.header.localPort else c.rcvName
  }

  /** The message a call receives: none when its send fails, it asks for none or nothing is queued. */
  function Arrival(s: Space, c: Call): (msg: Option<Message>)
    requires SendsOk(c)
  {
    var sent := SendPhase(s, c);
    if sent.code != 0 || !Wants(c.option, RCV_MSG) then None else RecvMsg(sent.space, ReceivePort(c)).1
  }

  /** What memory safety asks of a call: what is copied into its buffer fits. */
  predicate CallOk(s: Space, c: Call) {
    SendsOk(c) && (Arrival(s, c).Some? ==> CopyLen(Arrival(s, c).value, c.rcvSize) <= |c.buf.area|)
  }

  /** mach_msg: send, then receive; a failed send ends the call, an empty queue times out. */
  function MachMsg(s: Space, c: Call): (r: Outcome)
    requires CallOk(s, c)
  {
    var sent := SendPhase(s, c);
    if sent.code != 0 || !Wants(c.option, RCV_MSG) then sent
    else
      var (s2, got) := RecvMsg(sent.space, ReceivePort(c));
      match got
      case None => sent.(code := RCV_TIMED_OUT)
      case Some(msg) =>
        Outcome(s2, Deliver(c.buf, msg, c.rcvSize), 0, sent.events + [Received(ReceivePort(c), msg)])
  }

  // ---- Operations as one type ----

  datatype Op =
    | OpAllocate(right: int)
    | OpDeallocate(name: nat)
    | OpInsertRight(name: nat, t: int)
    | OpModRefs(name: nat, right: int, delta: int)
    | OpMachMsg(call: Call)

  predicate Allowed(s: Space, op: Op) {
    op.OpMachMsg? ==> CallOk(s, op.call)
  }

  function After(s: Space, op: Op): (r: Space)
    requires Allowed(s, op)
  {
    match op
    case OpAllocate(right) => Allocate(s, right).0
    case OpDeallocate(n) => Deallocate(s, n).0
    case OpInsertRight(n, t) => InsertRight(s, n, t).0
    case OpModRefs(n, right, d) => ModRefs(s, n, right, d).0
    case OpMachMsg(c) => MachMsg(s, c).space
  }

  /** A name starts a new life when it is allocated or inserted. */
  function Events(s: Space, op: Op): (es: seq<Event>)
    requires Allowed(s, op)
  {
    match op
    case OpAllocate(right) => if Allocate(s, right).1.Ok? then [Created(s.nextName)] else []
    case OpInsertRight(n, t) => if n !in s.ports && InsertRight(s, n, t).1 == KERN_SUCCESS then [Created(n)] else []
    case OpMachMsg(c) => MachMsg(s, c).events
    case _ => []
  }
}
