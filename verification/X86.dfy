/** The few x86-64 instructions the loader emits, with a decoder and an interpreter. */
module X86 {
  import opened Memory

  type Word = x: int | 0 <= x < TWO64

  /** General registers by their encoding number, and the instruction pointer. */
  type Regs = s: seq<Word> | |s| == 16 witness seq(16, i => 0)

  const RAX: nat := 0
  const RCX: nat := 1
  const RDX: nat := 2
  const RBX: nat := 3
  const RSP: nat := 4
  const RBP: nat := 5
  const RSI: nat := 6
  const RDI: nat := 7
  const R8: nat := 8
  const R9: nat := 9
  const R11: nat := 11

  type RegNo = r: nat | r < 16

  datatype Cpu = Cpu(regs: Regs, rip: int) {
    function Get(r: RegNo): (v: int)
      ensures 0 <= v < TWO64
    {
      regs[r]
    }
  }

  datatype Instr =
    | Push(r: RegNo)
    | Pop(r: RegNo)
    | MovImm(r: RegNo, imm: Word)
    | MovByte(base: RegNo, imm8: Byte)  // mov byte [base], imm8
    | CallReg(r: RegNo)
    | JmpReg(r: RegNo)
    | Ret

  /** An instruction and its length in bytes. */
  datatype Decoded = Bad | Decoded(i: Instr, len: nat)

  predicate Between(b: int, lo: int) {
    lo <= b < lo + 8
  }

  /** Decode the instruction at `a`. `hi` is 8 when a REX.B prefix extends the register field. */
  ghost function Decode(m: Mem, a: int): (d: Decoded) {
    if a !in m then Bad
    else if Between(m[a], 0x50) then Decoded(Push(m[a] - 0x50), 1)
    else if Between(m[a], 0x58) then Decoded(Pop(m[a] - 0x58), 1)
    else if m[a] == 0xC3 then Decoded(Ret, 1)
    else if m[a] == 0xFF then DecodeFF(m, a + 1, 0, 1)
    else if m[a] == 0x48 then DecodeMov(m, a + 1, 0)
    else if m[a] == 0x49 then DecodeMov(m, a + 1, 8)
    else if m[a] == 0x41 then DecodeRexB(m, a + 1)
    else Bad
  }

  ghost function DecodeMov(m: Mem, a: int, hi: nat): (d: Decoded)
    requires hi <= 8
  {
    if a in m && Between(m[a], 0xB8) && Mapped(m, a + 1, 8)
    then Decoded(MovImm(hi + m[a] - 0xB8, Read64(m, a + 1)), 10)
    else Bad
  }

  ghost function DecodeFF(m: Mem, a: int, hi: nat, prefix: nat): (d: Decoded)
    requires hi <= 8
  {
    if a !in m then Bad
    else if Between(m[a], 0xD0) then Decoded(CallReg(hi + m[a] - 0xD0), prefix + 1)
    else if Between(m[a], 0xE0) then Decoded(JmpReg(hi + m[a] - 0xE0), prefix + 1)
    else Bad
  }

  ghost function DecodeRexB(m: Mem, a: int): (d: Decoded) {
    if a !in m then Bad
    else if Between(m[a], 0x50) then Decoded(Push(8 + m[a] - 0x50), 2)
    else if Between(m[a], 0x58) then Decoded(Pop(8 + m[a] - 0x58), 2)
    else if m[a] == 0xFF then DecodeFF(m, a + 1, 8, 2)
    else if m[a] == 0xC6 && a + 1 in m && a + 2 in m && Between(m[a + 1], 0) && m[a + 1] != 4 && m[a + 1] != 5
    then Decoded(MovByte(8 + m[a + 1], m[a + 2]), 4)
    else Bad
  }

  datatype Machine = Fault | Machine(cpu: Cpu, mem: Mem)

  /** Execute one decoded instruction; an access to unmapped memory faults. */
  ghost function Exec(c: Cpu, m: Mem, d: Decoded): (r: Machine) {
    if d.Bad? then Fault
    else
      var next := c.rip + d.len;
      match d.i
      case Push(r) => PushWord(c.(rip := next), m, c.regs[r])
      case Pop(r) =>
        if !Mapped(m, c.regs[RSP], 8) then Fault
        else
          var v := Read64(m, c.regs[RSP]);
          Machine(Cpu(c.regs[RSP := Wrap64(c.Get(RSP) + 8)][r := v], next), m)
      case MovImm(r, imm) => Machine(Cpu(c.regs[r := imm], next), m)
      case MovByte(b, imm) =>
        if c.regs[b] !in m then Fault else Machine(c.(rip := next), m[c.regs[b] := imm])
      case CallReg(r) => PushWord(c.(rip := c.regs[r]), m, Wrap64(next))
      case JmpReg(r) => Machine(c.(rip := c.regs[r]), m)
      case Ret =>
        if !Mapped(m, c.regs[RSP], 8) then Fault
        else Machine(Cpu(c.regs[RSP := Wrap64(c.Get(RSP) + 8)], Read64(m, c.regs[RSP])), m)
  }

  ghost function PushWord(c: Cpu, m: Mem, v: Word): (r: Machine) {
    var sp := Wrap64(c.Get(RSP) - 8);
    if !Mapped(m, sp, 8) then Fault else Machine(c.(regs := c.regs[RSP := sp]), Write64(m, sp, v))
  }

  ghost function Step(c: Cpu, m: Mem): (r: Machine) {
    Exec(c, m, Decode(m, c.rip))
  }

  /** The bytes `code` stand at `a`. */
  ghost predicate CodeAt(m: Mem, a: int, code: seq<Byte>) {
    Mapped(m, a, |code|) && forall i :: 0 <= i < |code| ==> m[a + i] == code[i]
  }

  /** A 64-bit immediate in the middle of emitted code reads back as the emitted value. */
  lemma ImmediateAt(m: Mem, a: int, code: seq<Byte>, k: nat, v: Word)
    requires CodeAt(m, a, code) && k + 8 <= |code| && code[k..k + 8] == ToLE(v, 8)
    ensures Mapped(m, a + k, 8) && Read64(m, a + k) == v
  {
    Pow256Eight();
    FromToLE(v, 8);
    var r := ReadBytes(m, a + k, 8);
    forall i | 0 <= i < 8 ensures r[i] == code[k..k + 8][i] {
      assert m[a + (k + i)] == code[k + i];
    }
    assert r == code[k..k + 8];
  }
}
