/** The libc call trampolines of `gen_trampoline`: a bump pool of emitted code, and what running
that code does.
*/
module Trampoline {
  import opened Memory
  import opened MachO
  import opened X86

  const CODE_SIZE: nat := 43
  const TRAMP_SIZE: nat := 48
  const POOL_SIZE: nat := 65536

  /** push rax and the six integer argument registers; call `allow`; pop them back; jump to `target`. */
  function Code(allow: Word, target: Word): (code: seq<Byte>)
    ensures |code| == CODE_SIZE
  {
    [0x50, 0x57, 0x56, 0x52, 0x51, 0x41, 0x50, 0x41, 0x51] +
    [0x48, 0xB8] + ToLE(allow, 8) + [0xFF, 0xD0] +
    [0x41, 0x59, 0x41, 0x58, 0x59, 0x5A, 0x5E, 0x5F, 0x58] +
    [0x49, 0xBB] + ToLE(target, 8) + [0x41, 0xFF, 0xE3]
  }

  /** The pushed registers, in order, and where each push starts. */
  const PUSHED: seq<RegNo> := [RAX, RDI, RSI, RDX, RCX, R8, R9]
  const PUSH_AT: seq<nat> := [0, 1, 2, 3, 4, 5, 7, 9]
  /** Where each pop starts; the pops undo the pushes from the last one on. */
  const POP_AT: seq<nat> := [21, 23, 25, 26, 27, 28, 29, 30]

  // ---- The pool ----

  /** Append `bs` to the code buffer at the running index. */
  method Put(code: array<Byte>, p: nat, bs: seq<Byte>) returns (q: nat)
    requires p + |bs| <= code.Length
    modifies code
    ensures q == p + |bs| && code[..q] == old(code[..p]) + bs
  {
    for i := 0 to |bs|
      invariant code[..p] == old(code[..p])
      invariant forall k :: 0 <= k < i ==> code[p + k] == bs[k]
    {
      code[p + i] := bs[i];
    }
    q := p + |bs|;
    assert code[p..q] == bs;
    assert code[..q] == code[..p] + code[p..q];
  }

  method EmitCode(allow: Word, target: Word) returns (code: array<Byte>, p: nat)
    ensures fresh(code) && p <= code.Length == TRAMP_SIZE && code[..p] == Code(allow, target)
  {
    hide ToLE;
    code := new Byte[48](i => 0);
    p := Put(code, 0, [0x50, 0x57, 0x56, 0x52, 0x51, 0x41, 0x50, 0x41, 0x51]);
    p := Put(code, p, [0x48, 0xB8]);
    p := Put(code, p, ToLE(allow, 8));
    p := Put(code, p, [0xFF, 0xD0]);
    ghost var call := code[..p];
    assert p == 21 && call == [0x50, 0x57, 0x56, 0x52, 0x51, 0x41, 0x50, 0x41, 0x51] + [0x48, 0xB8] + ToLE(allow, 8) + [0xFF, 0xD0];
    p := Put(code, p, [0x41, 0x59, 0x41, 0x58, 0x59, 0x5A, 0x5E, 0x5F, 0x58]);
    p := Put(code, p, [0x49, 0xBB]);
    p := Put(code, p, ToLE(target, 8));
    p := Put(code, p, [0x41, 0xFF, 0xE3]);
    assert code[..p] == call + [0x41, 0x59, 0x41, 0x58, 0x59, 0x5A, 0x5E, 0x5F, 0x58] + [0x49, 0xBB] + ToLE(target, 8) + [0x41, 0xFF, 0xE3];
  }

  /** The executable pool: code is handed out from `base` on and never moved. */
  class Pool {
    const base: int
    const allow: Word
    const space: AddressSpace
    var offset: nat
    ghost var targets: seq<Word>   // the target of each trampoline handed out so far

    ghost predicate Valid()
      reads this, space
    {
      && offset == TRAMP_SIZE * |targets| <= POOL_SIZE
      && Mapped(space.mem, base, POOL_SIZE)
      && forall i :: 0 <= i < |targets| ==> CodeAt(space.mem, At(base, i), Code(allow, targets[i]))
    }

    constructor (s: AddressSpace, b: int, a: Word)
      requires Mapped(s.mem, b, POOL_SIZE)
      ensures Valid() && targets == [] && space == s && base == b && allow == a
    {
      space, base, allow, offset, targets := s, b, a, 0, [];
    }

    /** None is the `pool exhausted` assertion. Every trampoline handed out before stays intact. */
    method Gen(target: Word) returns (r: Option<int>)
      requires Valid()
      modifies this`offset, this`targets, space
      ensures Valid()
      ensures r.None? <==> TRAMP_SIZE * (|old(targets)| + 1) > POOL_SIZE
      ensures r.None? ==> targets == old(targets) && space.mem == old(space.mem)
      ensures r.Some? ==> targets == old(targets) + [target] && r.value == At(base, |old(targets)|)
      ensures space.mem.Keys == old(space.mem.Keys)
      ensures forall x :: x in space.mem && !(r.Some? && InRange(x, r.value, CODE_SIZE)) ==>
                space.mem[x] == old(space.mem)[x]
    {
      hide Code;
      if offset + TRAMP_SIZE > POOL_SIZE {
        return None;
      }
      var tramp := base + offset;
      var code, p := EmitCode(allow, target);
      ghost var before := space.mem;
      space.mem := WriteBytes(space.mem, tramp, code[..p]);
      offset := offset + TRAMP_SIZE;
      targets := targets + [target];
      forall i | 0 <= i < |targets| ensures CodeAt(space.mem, At(base, i), Code(allow, targets[i])) {
        if i < |targets| - 1 {
          Written(before, space.mem, tramp, code[..p], At(base, i), Code(allow, targets[i]));
        } else {
          Written(before, space.mem, tramp, code[..p], tramp, code[..p]);
        }
      }
      return Some(tramp);
    }
  }

  function At(base: int, i: nat): (a: int) { base + TRAMP_SIZE * i }

  lemma Written(m: Mem, m': Mem, a: int, code: seq<Byte>, b: int, other: seq<Byte>)
    requires Mapped(m, a, |code|) && m' == WriteBytes(m, a, code)
    requires (a == b && other == code) || (CodeAt(m, b, other) && Disjoint(a, |code|, b, |other|))
    ensures CodeAt(m', b, other)
  {
    forall i | 0 <= i < |other| ensures m'[b + i] == other[i] {
      if a == b && other == code {
        assert InRange(b + i, a, |code|);
      } else {
        assert !InRange(b + i, a, |code|);
      }
    }
  }

  /** Trampolines lie in the pool and no two of them overlap. */
  lemma PoolDisjoint(base: int, i: nat, k: nat)
    requires TRAMP_SIZE * (i + 1) <= POOL_SIZE && i != k
    ensures base <= At(base, i) && At(base, i) + CODE_SIZE <= base + POOL_SIZE
    ensures Disjoint(At(base, i), TRAMP_SIZE, At(base, k), TRAMP_SIZE)
  {
  }

  // ---- Running the code ----

  ghost function RunN(c: Cpu, m: Mem, n: nat): (r: Machine)
    decreases n
  {
    if n == 0 then Machine(c, m)
    else
      var r := RunN(c, m, n - 1);
      if r.Fault? then Fault else X86.Step(r.cpu, r.mem)
  }

  lemma DecodeAt(m: Mem, a: int, allow: Word, target: Word, i: nat)
    requires CodeAt(m, a, Code(allow, target)) && i < CODE_SIZE
    ensures m[a + i] == Code(allow, target)[i]
  {
    var b := Code(allow, target)[i];
  }

  lemma PushDecodes(m: Mem, a: int, allow: Word, target: Word, k: nat)
    requires CodeAt(m, a, Code(allow, target)) && k < 7
    ensures Decode(m, a + PUSH_AT[k]) == Decoded(Push(PUSHED[k]), PUSH_AT[k + 1] - PUSH_AT[k])
  {
    hide ToLE, CodeAt, DecodeMov, DecodeFF;
    var code := Code(allow, target);
    assert code[..9] == [0x50, 0x57, 0x56, 0x52, 0x51, 0x41, 0x50, 0x41, 0x51];
    assert forall i :: 0 <= i < 9 ==> code[i] == code[..9][i];
    DecodeAt(m, a, allow, target, PUSH_AT[k]);
    DecodeAt(m, a, allow, target, PUSH_AT[k] + 1);
    Here(m, a, allow, target, PUSH_AT[k]);
    Here(m, a, allow, target, PUSH_AT[k] + 1);
  }

  lemma Here(m: Mem, a: int, allow: Word, target: Word, i: nat)
    requires CodeAt(m, a, Code(allow, target)) && i < CODE_SIZE
    ensures a + i in m
  {
  }

  lemma PopDecodes(m: Mem, a: int, allow: Word, target: Word, k: nat)
    requires CodeAt(m, a, Code(allow, target)) && k < 7
    ensures Decode(m, a + POP_AT[k]) == Decoded(Pop(PUSHED[6 - k]), POP_AT[k + 1] - POP_AT[k])
  {
    hide ToLE, CodeAt, DecodeMov, DecodeFF;
    var code := Code(allow, target);
    assert code[21..30] == [0x41, 0x59, 0x41, 0x58, 0x59, 0x5A, 0x5E, 0x5F, 0x58];
    assert forall i :: 21 <= i < 30 ==> code[i] == code[21..30][i - 21];
    DecodeAt(m, a, allow, target, POP_AT[k]);
    DecodeAt(m, a, allow, target, POP_AT[k] + 1);
    Here(m, a, allow, target, POP_AT[k]);
    Here(m, a, allow, target, POP_AT[k] + 1);
  }

  lemma OthersDecode(m: Mem, a: int, allow: Word, target: Word)
    requires CodeAt(m, a, Code(allow, target))
    ensures Decode(m, a + 9) == Decoded(MovImm(RAX, allow), 10)
    ensures Decode(m, a + 19) == Decoded(CallReg(RAX), 2)
    ensures Decode(m, a + 30) == Decoded(MovImm(R11, target), 10)
    ensures Decode(m, a + 40) == Decoded(JmpReg(R11), 3)
  {
    hide ToLE, Read64;
    var code := Code(allow, target);
    assert code[11..19] == ToLE(allow, 8) && code[32..40] == ToLE(target, 8);
    ImmediateAt(m, a, code, 11, allow);
    ImmediateAt(m, a, code, 32, target);
    assert code[9] == 0x48 && code[10] == 0xB8 && code[19] == 0xFF && code[20] == 0xD0;
    assert code[30] == 0x49 && code[31] == 0xBB && code[40] == 0x41 && code[41] == 0xFF && code[42] == 0xE3;
  }

  /** After `k` pushes: the words are on the stack and nothing else has changed. */
  ghost predicate Pushes(c0: Cpu, m0: Mem, c: Cpu, m: Mem, k: nat)
    requires k <= 7
  {
    var sp := c0.Get(RSP);
    && sp >= 64 && c.rip == c0.rip + PUSH_AT[k] && c.regs == c0.regs[RSP := sp - 8 * k]
    && m.Keys == m0.Keys
    && (forall x :: x in m && !(sp - 8 * k <= x < sp) ==> m[x] == m0[x])
    && Mapped(m, sp - 64, 64)
    && (forall j :: 0 <= j < k ==> Read64(m, sp - 8 * (j + 1)) == c0.regs[PUSHED[j]])
  }

  /** The trampoline's code and the 64 bytes below the stack pointer are mapped and apart. */
  ghost predicate Ready(c: Cpu, m: Mem, allow: Word, target: Word) {
    && CodeAt(m, c.rip, Code(allow, target))
    && c.Get(RSP) >= 64 && Mapped(m, c.Get(RSP) - 64, 64)
    && Disjoint(c.rip, CODE_SIZE, c.Get(RSP) - 64, 64)
    && 0 <= c.rip && c.rip + CODE_SIZE <= TWO64
  }

  lemma CodeStays(c0: Cpu, m0: Mem, m: Mem, allow: Word, target: Word)
    requires Ready(c0, m0, allow, target) && m.Keys == m0.Keys
    requires forall x :: x in m && !(c0.Get(RSP) - 64 <= x < c0.Get(RSP)) ==> m[x] == m0[x]
    ensures CodeAt(m, c0.rip, Code(allow, target))
  {
  }

  lemma {:induction false} RunPushes(c0: Cpu, m0: Mem, allow: Word, target: Word, k: nat)
    requires Ready(c0, m0, allow, target) && k <= 7
    ensures var r := RunN(c0, m0, k); r.Machine? && Pushes(c0, m0, r.cpu, r.mem, k)
  {
    hide CodeAt, Decode, Pushes, X86.Step, Ready;
    if k == 0 {
      NoPushes(c0, m0, allow, target);
    } else {
      RunPushes(c0, m0, allow, target, k - 1);
      var r := RunN(c0, m0, k - 1);
      PushesSoFar(c0, m0, r.cpu, r.mem, k - 1);
      CodeStays(c0, m0, r.mem, allow, target);
      PushDecodes(r.mem, c0.rip, allow, target, k - 1);
      OnePush(c0, m0, r.cpu, r.mem, k - 1);
    }
  }

  lemma NoPushes(c: Cpu, m: Mem, allow: Word, target: Word)
    requires Ready(c, m, allow, target)
    ensures Pushes(c, m, c, m, 0)
  {
    hide CodeAt;
    assert c.regs[RSP := c.Get(RSP)] == c.regs;
  }

  lemma PushesSoFar(c0: Cpu, m0: Mem, c: Cpu, m: Mem, k: nat)
    requires k <= 7 && Pushes(c0, m0, c, m, k)
    ensures c.rip == c0.rip + PUSH_AT[k] && m.Keys == m0.Keys
    ensures forall x :: x in m && !(c0.Get(RSP) - 64 <= x < c0.Get(RSP)) ==> m[x] == m0[x]
  {
    hide Read64;
  }

  lemma OnePush(c0: Cpu, m0: Mem, c: Cpu, m: Mem, k: nat)
    requires k < 7 && Pushes(c0, m0, c, m, k)
    requires Decode(m, c.rip) == Decoded(Push(PUSHED[k]), PUSH_AT[k + 1] - PUSH_AT[k])
    ensures var r := X86.Step(c, m); r.Machine? && Pushes(c0, m0, r.cpu, r.mem, k + 1)
  {
    hide Decode, Read64, Write64;
    var sp := c0.Get(RSP);
    var a := sp - 8 * (k + 1);
    var v := c0.regs[PUSHED[k]];
    Read64AfterWrite64(m, a, v);
    var m' := Write64(m, a, v);
    forall j | 0 <= j < k ensures Read64(m', sp - 8 * (j + 1)) == c0.regs[PUSHED[j]] {
      Read64Same(m, m', sp - 8 * (j + 1));
    }
    assert c.regs[PUSHED[k]] == v;
    assert c.regs[RSP := a] == c0.regs[RSP := a];
  }

  /** The state in which the helper is entered: the call has pushed its return address. */
  ghost predicate AtHelper(c0: Cpu, m0: Mem, c: Cpu, m: Mem, allow: Word) {
    var sp := c0.Get(RSP);
    && sp >= 64 && c.rip == allow && c.regs == c0.regs[RSP := sp - 64][RAX := allow]
    && m.Keys == m0.Keys && Mapped(m, sp - 64, 64)
    && (forall x :: x in m && !(sp - 64 <= x < sp) ==> m[x] == m0[x])
    && Read64(m, sp - 64) == c0.rip + 21
    && (forall j :: 0 <= j < 7 ==> Read64(m, sp - 8 * (j + 1)) == c0.regs[PUSHED[j]])
  }

  lemma CallHelper(c0: Cpu, m0: Mem, allow: Word, target: Word)
    requires Ready(c0, m0, allow, target)
    ensures var r := RunN(c0, m0, 9); r.Machine? && AtHelper(c0, m0, r.cpu, r.mem, allow)
  {
    hide CodeAt, Decode, Pushes, X86.Step, Ready, AtHelper;
    RunPushes(c0, m0, allow, target, 7);
    var r7 := RunN(c0, m0, 7);
    PushesSoFar(c0, m0, r7.cpu, r7.mem, 7);
    CodeStays(c0, m0, r7.mem, allow, target);
    OthersDecode(r7.mem, c0.rip, allow, target);
    assert RunN(c0, m0, 8) == X86.Step(r7.cpu, r7.mem);
    LoadAndCall(c0, m0, r7.cpu, r7.mem, allow, target);
    var r8 := X86.Step(r7.cpu, r7.mem);
    assert RunN(c0, m0, 9) == X86.Step(r8.cpu, r8.mem);
  }

  lemma LoadAndCall(c0: Cpu, m0: Mem, c: Cpu, m: Mem, allow: Word, target: Word)
    requires Ready(c0, m0, allow, target) && Pushes(c0, m0, c, m, 7)
    requires Decode(m, c0.rip + 9) == Decoded(MovImm(RAX, allow), 10)
    requires Decode(m, c0.rip + 19) == Decoded(CallReg(RAX), 2)
    ensures var r := X86.Step(c, m);
            && r.Machine? && r.mem == m
            && var r' := X86.Step(r.cpu, m);
               r'.Machine? && AtHelper(c0, m0, r'.cpu, r'.mem, allow)
  {
    hide Decode, Read64, Write64, CodeAt;
    var sp := c0.Get(RSP);
    var m' := Write64(m, sp - 64, c0.rip + 21);
    Read64AfterWrite64(m, sp - 64, c0.rip + 21);
    forall j | 0 <= j < 7 ensures Read64(m', sp - 8 * (j + 1)) == c0.regs[PUSHED[j]] {
      Read64Same(m, m', sp - 8 * (j + 1));
    }
    assert c.regs[RAX := allow][RSP := sp - 64] == c0.regs[RSP := sp - 64][RAX := allow];
  }

  /** The registers a callee preserves (System V AMD64 ABI, section 3.2.1): rbx, rbp, r12-r15. */
  predicate CalleeSaved(r: RegNo) {
    r == RBX || r == RBP || r >= 12
  }

  /** A helper that obeys the ABI and opens the selector: it returns to its caller, keeps the
      callee-saved registers, and leaves the words its caller has pushed and the code alone. It may
      map memory and write anything else. */
  ghost predicate HelperReturns(c: Cpu, m: Mem, c': Cpu, m': Mem, codeAt: int, sel: int) {
    && Mapped(m, c.Get(RSP), 8) && m.Keys <= m'.Keys
    && c'.rip == Read64(m, c.Get(RSP)) && c'.Get(RSP) == Wrap64(c.Get(RSP) + 8)
    && (forall r: RegNo :: CalleeSaved(r) ==> c'.regs[r] == c.regs[r])
    && (forall x :: x in m && (InRange(x, c.Get(RSP) + 8, 56) || InRange(x, codeAt, CODE_SIZE)) ==> m'[x] == m[x])
    && sel in m' && m'[sel] == 0
  }

  /** After `k` pops: the last `k` pushed registers are back. */
  ghost predicate Pops(c0: Cpu, c: Cpu, k: nat)
    requires k <= 7
  {
    var sp := c0.Get(RSP);
    && sp >= 64 && c.rip == c0.rip + POP_AT[k] && c.Get(RSP) == sp - 56 + 8 * k
    && (forall r: RegNo :: CalleeSaved(r) ==> c.regs[r] == c0.regs[r])
    && (forall j :: 7 - k <= j < 7 ==> c.regs[PUSHED[j]] == c0.regs[PUSHED[j]])
  }

  ghost predicate SavedWords(c0: Cpu, m: Mem) {
    && c0.Get(RSP) >= 64 && Mapped(m, c0.Get(RSP) - 64, 64)
    && forall j :: 0 <= j < 7 ==> Read64(m, c0.Get(RSP) - 8 * (j + 1)) == c0.regs[PUSHED[j]]
  }

  lemma OnePop(c0: Cpu, c: Cpu, m: Mem, k: nat)
    requires k < 7 && Pops(c0, c, k) && SavedWords(c0, m)
    requires Decode(m, c.rip) == Decoded(Pop(PUSHED[6 - k]), POP_AT[k + 1] - POP_AT[k])
    ensures var r := X86.Step(c, m); r.Machine? && r.mem == m && Pops(c0, r.cpu, k + 1)
  {
    hide Decode, Read64;
    var sp := c0.Get(RSP);
    assert c.Get(RSP) == sp - 8 * ((6 - k) + 1);
    assert Read64(m, sp - 8 * ((6 - k) + 1)) == c0.regs[PUSHED[6 - k]];
  }

  lemma {:induction false} RunPops(c0: Cpu, c: Cpu, m: Mem, allow: Word, target: Word, k: nat)
    requires k <= 7 && Pops(c0, c, 0) && SavedWords(c0, m) && CodeAt(m, c0.rip, Code(allow, target))
    ensures var r := RunN(c, m, k); r.Machine? && r.mem == m && Pops(c0, r.cpu, k)
  {
    hide CodeAt, Decode, SavedWords, X86.Step;
    if k > 0 {
      RunPops(c0, c, m, allow, target, k - 1);
      PopDecodes(m, c0.rip, allow, target, k - 1);
      OnePop(c0, RunN(c, m, k - 1).cpu, m, k - 1);
    }
  }

  /** The integer argument registers, rax, the stack pointer and the callee-saved registers. */
  predicate Kept(r: RegNo) {
    r == RAX || r == RDI || r == RSI || r == RDX || r == RCX || r == R8 || r == R9 || r == RSP || CalleeSaved(r)
  }

  lemma PopAndJump(c0: Cpu, c: Cpu, m: Mem, allow: Word, target: Word)
    requires Pops(c0, c, 0) && SavedWords(c0, m) && CodeAt(m, c0.rip, Code(allow, target))
    ensures var r := RunN(c, m, 9);
            && r.Machine? && r.mem == m && r.cpu.rip == target && r.cpu.regs[R11] == target
            && forall r': RegNo :: Kept(r') ==> r.cpu.regs[r'] == c0.regs[r']
  {
    hide CodeAt, Decode, SavedWords, X86.Step;
    RunPops(c0, c, m, allow, target, 7);
    OthersDecode(m, c0.rip, allow, target);
    var r7 := RunN(c, m, 7);
    assert RunN(c, m, 8) == X86.Step(r7.cpu, m);
    LoadAndJump(c0, r7.cpu, m, target);
    var r8 := X86.Step(r7.cpu, m);
    assert RunN(c, m, 9) == X86.Step(r8.cpu, m);
  }

  lemma LoadAndJump(c0: Cpu, c: Cpu, m: Mem, target: Word)
    requires Pops(c0, c, 7)
    requires Decode(m, c0.rip + 30) == Decoded(MovImm(R11, target), 10)
    requires Decode(m, c0.rip + 40) == Decoded(JmpReg(R11), 3)
    ensures var r := X86.Step(c, m);
            && r.Machine? && r.mem == m
            && var r' := X86.Step(r.cpu, m);
               && r'.Machine? && r'.mem == m && r'.cpu.rip == target && r'.cpu.regs[R11] == target
               && forall q: RegNo :: Kept(q) ==> r'.cpu.regs[q] == c0.regs[q]
  {
    hide Decode;
    assert c.regs[PUSHED[0]] == c0.regs[PUSHED[0]] && c.regs[PUSHED[1]] == c0.regs[PUSHED[1]]
      && c.regs[PUSHED[2]] == c0.regs[PUSHED[2]] && c.regs[PUSHED[3]] == c0.regs[PUSHED[3]]
      && c.regs[PUSHED[4]] == c0.regs[PUSHED[4]] && c.regs[PUSHED[5]] == c0.regs[PUSHED[5]]
      && c.regs[PUSHED[6]] == c0.regs[PUSHED[6]];
    assert c.Get(RSP) == c0.Get(RSP);
  }

  lemma HelperKeeps(c0: Cpu, m0: Mem, c1: Cpu, m1: Mem, c2: Cpu, m2: Mem, allow: Word, target: Word, sel: int)
    requires Ready(c0, m0, allow, target) && AtHelper(c0, m0, c1, m1, allow)
    requires HelperReturns(c1, m1, c2, m2, c0.rip, sel)
    requires !InRange(sel, c0.rip, CODE_SIZE) && !InRange(sel, c0.Get(RSP) - 64, 64)
    ensures Pops(c0, c2, 0) && SavedWords(c0, m2) && CodeAt(m2, c0.rip, Code(allow, target))
  {
    hide Read64, Code;
    var sp := c0.Get(RSP);
    forall j | 0 <= j < 7 ensures Read64(m2, sp - 8 * (j + 1)) == c0.regs[PUSHED[j]] {
      Read64Same(m1, m2, sp - 8 * (j + 1));
    }
    var code := Code(allow, target);
    forall i | 0 <= i < CODE_SIZE ensures m2[c0.rip + i] == code[i] {
      assert InRange(c0.rip + i, c0.rip, CODE_SIZE);
      assert m0[c0.rip + i] == code[i];
    }
  }

  /** Running a libc trampoline from any register state. The helper is called on a 16-byte aligned
      stack (System V AMD64 ABI, section 3.2.2) and with its return address in the trampoline; once
      it returns, the target is reached with the integer argument registers, rax, the stack pointer and
      the callee-saved registers as on entry, and the selector at ALLOW. */
  lemma TrampolineTransparent(c0: Cpu, m0: Mem, allow: Word, target: Word, sel: int, c2: Cpu, m2: Mem)
    requires Ready(c0, m0, allow, target) && (c0.Get(RSP) + 8) % 16 == 0
    requires !InRange(sel, c0.rip, CODE_SIZE) && !InRange(sel, c0.Get(RSP) - 64, 64)
    ensures var r := RunN(c0, m0, 9);
            && r.Machine? && r.cpu.rip == allow && (r.cpu.Get(RSP) + 8) % 16 == 0
            && (HelperReturns(r.cpu, r.mem, c2, m2, c0.rip, sel) ==>
                  var f := RunN(c2, m2, 9);
                  && f.Machine? && f.mem == m2 && f.cpu.rip == target && sel in m2 && m2[sel] == 0
                  && forall q: RegNo :: Kept(q) ==> f.cpu.regs[q] == c0.regs[q])
  {
    hide RunN, Ready, CodeAt, Read64;
    CallHelper(c0, m0, allow, target);
    var r := RunN(c0, m0, 9);
    if HelperReturns(r.cpu, r.mem, c2, m2, c0.rip, sel) {
      HelperKeeps(c0, m0, r.cpu, r.mem, c2, m2, allow, target, sel);
      PopAndJump(c0, c2, m2, allow, target);
    }
  }
}
