/** The port space object, updated in place, and `mach_msg` on a caller's buffer; each method is
tied to the function of `MachPorts` it implements.
*/
module MachPortSpace {
  import opened Memory
  import opened MachO
  import opened MachPorts
  import opened MachPortLaws

  /** The memory behind the `msg` pointer. */
  class MessageMemory {
    var header: Header
    var area: seq<Byte>

    constructor (h: Header, a: seq<Byte>)
      ensures header == h && area == a
    {
      header, area := h, a;
    }

    function State(): (b: Buffer)
      reads this
    {
      Buffer(header, area)
    }
  }

  class PortSpace {
    var ports: map<nat, Port>
    var nextName: nat

    function State(): (s: Space)
      reads this
    {
      Space(ports, nextName)
    }

    /** Every live port holds a right, and names are non-null and below the counter. */
    ghost predicate Valid()
      reads this
    {
      PortsOk(State()) && NamesOk(State())
    }

    /** What every operation owes the next one, unless it takes a branch that breaks the namespace. */
    twostate predicate Keeps(op: Op)
      reads this
    {
      old(Valid()) && Sound(old(State()), op) ==> Valid()
    }

    constructor ()
      ensures Valid() && State() == INITIAL
    {
      ports := map[];
      nextName := 0x1000;
      new;
      ports := ports[0x103 := SEND_RECEIVE];
      ports := ports[0x203 := SEND_RECEIVE];
      ports := ports[0x303 := SEND_RECEIVE];
      ports := ports[0x307 := SEND_RECEIVE];
      ports := ports[0x40b := SEND_RECEIVE];
    }

    method AllocatePort(right: int) returns (r: Result)
      modifies this
      ensures (State(), r) == Allocate(old(State()), right)
      ensures Keeps(OpAllocate(right))
      ensures old(Valid()) && old(nextName) != PORT_DEAD && r.Ok? ==>
        r.name !in old(ports) && r.name !in SPECIAL && r.name != PORT_NULL && r.name != PORT_DEAD
    {
      hide PortsOk, Sound;
      KeepsSound(State(), OpAllocate(right));
      var name := nextName;
      nextName := (nextName + 1) % TWO32;
      if nextName > 0xFFFF_FFFE {
        return Err(KERN_NO_SPACE);
      }
      var port;
      if right == RIGHT_RECEIVE || right == RIGHT_PORT_SET {
        port := WITH_RECEIVE;
      } else if right == RIGHT_SEND {
        port := SEND_ONLY;
      } else if right == RIGHT_DEAD_NAME {
        port := SEND_ONLY.(isDead := true);
      } else {
        return Err(KERN_INVALID_ARGUMENT);
      }
      ports := ports[name := port];
      return Ok(name);
    }

    method DeallocatePort(name: nat) returns (code: int)
      modifies this
      ensures (State(), code) == Deallocate(old(State()), name)
      ensures Keeps(OpDeallocate(name))
    {
      hide PortsOk, NamesOk, Sound;
      KeepsSound(State(), OpDeallocate(name));
      if name !in ports {
        return KERN_INVALID_NAME;
      }
      if ports[name].sendCount > 0 {
        ports := ports[name := ports[name].(sendCount := ports[name].sendCount - 1)];
      }
      if ports[name].sendCount == 0 && !ports[name].hasReceive {
        ports := ports - {name};
        assert ports == old(ports) - {name};
      } else {
        assert ports == old(ports)[name := ports[name]];
      }
      return KERN_SUCCESS;
    }

    method InsertPortRight(name: nat, polyType: int) returns (code: int)
      modifies this
      ensures (State(), code) == InsertRight(old(State()), name, polyType)
      ensures Keeps(OpInsertRight(name, polyType))
    {
      hide PortsOk, NamesOk, Sound;
      KeepsSound(State(), OpInsertRight(name, polyType));
      if name !in ports {
        if IsSendType(polyType) {
          ports := ports[name := SEND_ONLY];
          return KERN_SUCCESS;
        }
        if polyType == MOVE_RECEIVE {
          ports := ports[name := WITH_RECEIVE];
          return KERN_SUCCESS;
        }
        return KERN_INVALID_ARGUMENT;
      }
      if IsSendType(polyType) {
        ports := ports[name := ports[name].(sendCount := (ports[name].sendCount + 1) % TWO32)];
        return KERN_SUCCESS;
      }
      if polyType == MOVE_RECEIVE {
        ports := ports[name := ports[name].(hasReceive := true)];
        return KERN_SUCCESS;
      }
      if polyType == MAKE_SEND_ONCE || polyType == MOVE_SEND_ONCE {
        return KERN_SUCCESS;
      }
      return KERN_INVALID_ARGUMENT;
    }

    method ModifyRefs(name: nat, right: int, delta: int) returns (code: int)
      modifies this
      ensures (State(), code) == ModRefs(old(State()), name, right, delta)
      ensures Keeps(OpModRefs(name, right, delta))
    {
      hide PortsOk, NamesOk, Sound;
      KeepsSound(State(), OpModRefs(name, right, delta));
      if name !in ports {
        return KERN_INVALID_NAME;
      }
      if right == RIGHT_SEND {
        var newCount := AsI32(AsI32(ports[name].sendCount) + delta);
        if newCount < 0 {
          ports := ports[name := ports[name].(sendCount := 0)];
        } else {
          ports := ports[name := ports[name].(sendCount := newCount)];
        }
      } else if right == RIGHT_RECEIVE {
        if delta < 0 {
          ports := ports[name := ports[name].(hasReceive := false)];
        }
      }
      if ports[name].sendCount == 0 && !ports[name].hasReceive {
        ports := ports - {name};
        assert ports == old(ports) - {name};
      } else {
        assert ports == old(ports)[name := ports[name]];
      }
      return KERN_SUCCESS;
    }

    method Send(dest: nat, msg: Message) returns (code: int)
      modifies this
      ensures (State(), code) == SendMsg(old(State()), dest, msg)
    {
      if dest in ports && !ports[dest].isDead {
        ports := ports[dest := ports[dest].(queue := ports[dest].queue + [msg])];
        return 0;
      }
      return SEND_INVALID_DEST;
    }

    method Receive(name: nat) returns (msg: Option<Message>)
      modifies this
      ensures (State(), msg) == RecvMsg(old(State()), name)
    {
      if name !in ports || ports[name].queue == [] {
        return None;
      }
      var first := ports[name].queue[0];
      ports := ports[name := ports[name].(queue := ports[name].queue[1..])];
      return Some(first);
    }

    /** mach_msg; a null message pointer is refused before anything else. */
    method Message(msg: MessageMemory?, option: nat, sendSize: nat, rcvSize: nat, rcvName: nat) returns (code: int)
      requires msg != null ==> CallOk(State(), Call(msg.State(), option, sendSize, rcvSize, rcvName))
      modifies this, msg
      ensures msg == null ==> code == KERN_INVALID_ARGUMENT && State() == old(State())
      ensures msg != null ==>
        var r := MachMsg(old(State()), Call(old(msg.State()), option, sendSize, rcvSize, rcvName));
        State() == r.space && msg.State() == r.buf && code == r.code
      ensures old(Valid()) ==> Valid()
    {
      hide InsertRight, Allocate, ModRefs, MaxBody, PortsOk, NamesOk;
      if msg == null {
        return KERN_INVALID_ARGUMENT;
      }
      KeepsSound(State(), OpMachMsg(Call(msg.State(), option, sendSize, rcvSize, rcvName)));
      if Wants(option, SEND_MSG) {
        var out := MachPorts.Message(msg.header, msg.area[..BodySize(sendSize)]);
        var ret := Send(msg.header.remotePort, out);
        if ret != 0 {
          return ret;
        }
      }
      if Wants(option, RCV_MSG) {
        var port := if Wants(option, SEND_MSG) then msg.header.localPort else rcvName;
        var got := Receive(port);
        if got.None? {
          return RCV_TIMED_OUT;
        }
        var copyLen := CopyLen(got.value, rcvSize);
        msg.header := got.value.header;
        msg.area := got.value.body[..copyLen] + msg.area[copyLen..];
        msg.header := msg.header.(size := (HEADER_SIZE + copyLen) % TWO32);
      }
      return 0;
    }
  }

  lemma KeepsSound(s: Space, op: Op)
    requires Allowed(s, op)
    ensures PortsOk(s) && NamesOk(s) && Sound(s, op) ==> PortsOk(After(s, op)) && NamesOk(After(s, op))
  {
    hide *;
    if PortsOk(s) && NamesOk(s) && Sound(s, op) {
      SoundStep(s, op);
    }
  }
}
