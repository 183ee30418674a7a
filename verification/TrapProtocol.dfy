/** The per-thread syscall trap: SIGSYS handler, redirection of the signal frame, and the
emitted trampoline that closes the selector again. Threads interleave freely.
*/
module TrapProtocol {
  import opened Memory
  import opened X86

  const ALLOW: Byte := 0
  const BLOCK: Byte := 1

  // ---- The trampoline: movabs r11, sel; mov byte [r11], BLOCK; ret ----

  const TRAP_CODE_SIZE: nat := 15

  function TrapCode(sel: Word): (code: seq<Byte>)
    ensures |code| == TRAP_CODE_SIZE
  {
    [0x49, 0xBB] + ToLE(sel, 8) + [0x41, 0xC6, 0x03, BLOCK, 0xC3]
  }

  /** `alloc_trampoline_for`: fill the code buffer index by index. */
  method EmitTrapCode(sel: Word) returns (code: array<Byte>)
    ensures fresh(code) && code[..] == TrapCode(sel)
  {
    hide ToLE;
    var imm := ToLE(sel, 8);
    code := new Byte[15](i => 0);
    code[0] := 0x49;
    code[1] := 0xBB;
    for i := 0 to 8
      invariant code[0] == 0x49 && code[1] == 0xBB
      invariant forall k :: 0 <= k < i ==> code[2 + k] == imm[k]
    {
      code[2 + i] := imm[i];
    }
    code[10] := 0x41;
    code[11] := 0xC6;
    code[12] := 0x03;
    code[13] := BLOCK;
    code[14] := 0xC3;
    assert code[2..10] == imm;
    assert code[..] == [code[0], code[1]] + code[2..10] + [code[10], code[11], code[12], code[13], code[14]];
  }

  // ---- Threads ----

  /** Entered: the handler starts. Opened: it has set the selector to ALLOW. Declined: the
      signal was not a dispatch. Processed: the result is in the signal frame. Redirected: the
      frame resumes in the trampoline. Resuming(k): k trampoline instructions have run. */
  datatype Phase =
    | User
    | Entered(dispatch: bool)
    | Opened(dispatch: bool)
    | Declined
    | Processed
    | Redirected
    | Resuming(k: nat)

  datatype Thread = Thread(
    cpu: Cpu,
    sel: Word,      // THREAD_SELECTOR
    tramp: int,     // THREAD_TRAMPOLINE
    phase: Phase,
    ctx: Cpu,       // the signal frame while the handler runs
    saved: Cpu,     // the state the trapping instruction leaves
    result: Word)
  {
    predicate InTrap() {
      match phase
      case User => false
      case Declined => false
      case Entered(d) => d
      case Opened(d) => d
      case _ => true
    }

    /** The 8 bytes below the stack pointer of the trapped code. */
    function Slot(): (a: int) { saved.Get(RSP) - 8 }
  }

  datatype World = World(mem: Mem, threads: map<nat, Thread>)

  /** What the `syscall` instruction itself does: the address of the next instruction goes to rcx, the
      flags to r11. */
  function Syscalled(c: Cpu, flags: Word): (r: Cpu)
    requires 0 <= c.rip + 2 < TWO64
  {
    Cpu(c.regs[RCX := c.rip + 2][R11 := flags], c.rip + 2)
  }

  /** The state the kernel returns to after a system call: the result in rax. */
  function Answered(c: Cpu, result: Word): (r: Cpu) {
    c.(regs := c.regs[RAX := result])
  }

  /** The redirected frame: one word further down the stack, in the trampoline. */
  function Bounced(c: Cpu, result: Word, tramp: int): (r: Cpu)
    requires c.Get(RSP) >= 8
  {
    Cpu(Answered(c, result).regs[RSP := c.Get(RSP) - 8], tramp)
  }

  // ---- Steps ----

  /** Bytes that code run on behalf of thread `t` leaves alone: every selector, every trampoline,
      and the word another thread's handler keeps on that thread's stack. */
  ghost predicate Reserved(w: World, t: nat, x: int) {
    exists u :: u in w.threads && Holds(w.threads[u], u == t, x)
  }

  ghost predicate Holds(th: Thread, own: bool, x: int) {
    || x == th.sel
    || InRange(x, th.tramp, TRAP_CODE_SIZE)
    || (!own && th.InTrap() && InRange(x, th.Slot(), 8))
  }

  /** `m` is what code of thread `t` may make of memory. It may map and unmap, and it may write the
      thread's own selector when `opens` holds, as a call into libc does. */
  ghost predicate LeavesReserved(w: World, t: nat, m: Mem, opens: bool)
    requires t in w.threads
  {
    forall x :: x in w.mem && Reserved(w, t, x) ==> x in m && (m[x] == w.mem[x] || (opens && x == w.threads[t].sel))
  }

  /** The trapped code has room for one word on its own stack, apart from everything reserved. */
  ghost predicate StackRoom(w: World, t: nat, c: Cpu) {
    && c.Get(RSP) >= 8 && Mapped(w.mem, c.Get(RSP) - 8, 8)
    && (forall x :: InRange(x, c.Get(RSP) - 8, 8) ==> !Reserved(w, t, x))
  }

  datatype Act =
    | Run(cpu: Cpu, mem: Mem)          // any code outside the handler, calls into libc included
    | Trap(flags: Word)                // a `syscall` with the selector at BLOCK
    | StraySignal                      // a SIGSYS that is not a dispatch
    | Handle(result: Word, effect: Mem)
    | SigReturn
    | Resume

  ghost predicate CanAct(w: World, t: nat, a: Act)
    requires t in w.threads
  {
    var th := w.threads[t];
    match a
    case Run(_, m) => th.phase == User && LeavesReserved(w, t, m, true)
    case Trap(_) =>
      && th.phase == User && th.sel in w.mem && w.mem[th.sel] == BLOCK
      && StackRoom(w, t, th.cpu) && 0 <= th.cpu.rip + 2 < TWO64
    case StraySignal => th.phase == User
    case Handle(_, m) =>
      match th.phase {
        case Entered(_) => th.sel in w.mem
        case Opened(d) => th.sel in w.mem && (d ==> LeavesReserved(w, t, m, false))
        case Processed => Mapped(w.mem, Wrap64(th.ctx.Get(RSP) - 8), 8)
        case _ => false
      }
    case SigReturn => th.phase == Redirected || th.phase == Declined
    case Resume => th.phase.Resuming? && X86.Step(th.cpu, w.mem).Machine?
  }

  /** One step of `sigsys_handler`. `result` and `effect` stand for `process_syscall`. */
  ghost function HandlerStep(th: Thread, m: Mem, result: Word, effect: Mem): (r: (Thread, Mem))
  {
    match th.phase
    case Entered(d) => (th.(phase := Opened(d)), m[th.sel := ALLOW])
    case Opened(d) =>
      if !d then (th.(phase := Declined), m[th.sel := BLOCK])
      else (th.(phase := Processed, ctx := Answered(th.ctx, result), result := result), effect)
    case _ =>
      var sp := Wrap64(th.ctx.Get(RSP) - 8);
      (th.(phase := Redirected, ctx := Cpu(th.ctx.regs[RSP := sp], th.tramp)), Write64(m, sp, Wrap64(th.ctx.rip)))
  }

  ghost function NextThread(w: World, t: nat, a: Act): (r: (Thread, Mem))
    requires t in w.threads && CanAct(w, t, a)
  {
    var th := w.threads[t];
    match a
    case Run(c, m) => (th.(cpu := c), m)
    case Trap(flags) =>
      var c := Syscalled(th.cpu, flags);
      (th.(phase := Entered(true), saved := c, ctx := c), w.mem)
    case StraySignal => (th.(phase := Entered(false), saved := th.cpu, ctx := th.cpu), w.mem)
    case Handle(r, m) => HandlerStep(th, w.mem, r, m)
    case SigReturn => (th.(phase := if th.phase == Redirected then Resuming(0) else User, cpu := th.ctx), w.mem)
    case Resume =>
      var next := X86.Step(th.cpu, w.mem);
      (th.(cpu := next.cpu, phase := if th.phase.k == 2 then User else Resuming(th.phase.k + 1)), next.mem)
  }

  ghost function Next(w: World, t: nat, a: Act): (r: World)
    requires t in w.threads && CanAct(w, t, a)
  {
    var n := NextThread(w, t, a);
    World(n.1, w.threads[t := n.0])
  }

  // ---- The invariant ----

  /** Where thread `th` stands in a trap, as a function of the state it trapped in. */
  ghost predicate ThreadOk(m: Mem, th: Thread) {
    && th.sel in m && CodeAt(m, th.tramp, TrapCode(th.sel)) && !InRange(th.sel, th.tramp, TRAP_CODE_SIZE)
    && (th.InTrap() ==> th.saved.Get(RSP) >= 8 && 0 <= th.saved.rip < TWO64)
    && match th.phase {
         case User => true
         case Entered(_) => th.ctx == th.saved
         case Opened(_) => th.ctx == th.saved && m[th.sel] == ALLOW
         case Declined => th.ctx == th.saved && m[th.sel] == BLOCK
         case Processed => th.ctx == Answered(th.saved, th.result) && m[th.sel] == ALLOW
         case Redirected =>
           && th.ctx == Bounced(th.saved, th.result, th.tramp)
           && m[th.sel] == ALLOW && Mapped(m, th.Slot(), 8) && Read64(m, th.Slot()) == th.saved.rip
         case Resuming(k) =>
           && k < 3 && Mapped(m, th.Slot(), 8) && Read64(m, th.Slot()) == th.saved.rip
           && m[th.sel] == (if k < 2 then ALLOW else BLOCK)
           && var b := Bounced(th.saved, th.result, th.tramp);
              th.cpu == if k == 0 then b
                        else Cpu(b.regs[R11 := th.sel], th.tramp + if k == 1 then 10 else 14)
       }
  }

  /** Nothing one thread reserves is reserved by another; a thread's stack word is apart from
      its own selector and trampoline as well. */
  ghost predicate Apart(a: Thread, b: Thread) {
    && a.sel != b.sel
    && !InRange(a.sel, b.tramp, TRAP_CODE_SIZE)
    && (a.InTrap() ==> !InRange(b.sel, a.Slot(), 8) && Disjoint(a.Slot(), 8, b.tramp, TRAP_CODE_SIZE))
    && (a.InTrap() && b.InTrap() ==> Disjoint(a.Slot(), 8, b.Slot(), 8))
  }

  ghost predicate SelfApart(a: Thread) {
    a.InTrap() ==> !InRange(a.sel, a.Slot(), 8) && Disjoint(a.Slot(), 8, a.tramp, TRAP_CODE_SIZE)
  }

  ghost predicate GoodWorld(w: World) {
    && (forall t :: t in w.threads ==> ThreadOk(w.mem, w.threads[t]) && SelfApart(w.threads[t]))
    && (forall t, u :: t in w.threads && u in w.threads && t != u ==> Apart(w.threads[t], w.threads[u]))
  }

  /** A thread whose reserved bytes are untouched stays as it was. */
  lemma BystanderOk(m: Mem, m': Mem, th: Thread)
    requires ThreadOk(m, th)
    requires forall x :: x in m && Holds(th, false, x) ==> x in m' && m'[x] == m[x]
    ensures ThreadOk(m', th)
  {
    forall i | 0 <= i < TRAP_CODE_SIZE ensures th.tramp + i in m' && m'[th.tramp + i] == TrapCode(th.sel)[i] {
      assert Holds(th, false, th.tramp + i);
    }
    assert Holds(th, false, th.sel);
    if th.phase.Redirected? || th.phase.Resuming? {
      forall x | InRange(x, th.Slot(), 8) ensures x in m' && m'[x] == m[x] {
        assert Holds(th, false, x);
      }
      Read64Same(m, m', th.Slot());
    }
  }

  // ---- The trampoline instructions ----

  lemma TrampolineStep(m: Mem, th: Thread)
    requires ThreadOk(m, th) && th.phase.Resuming?
    ensures var k := th.phase.k;
            X86.Step(th.cpu, m) ==
              if k == 0 then Machine(Cpu(th.cpu.regs[R11 := th.sel], th.tramp + 10), m)
              else if k == 1 then Machine(th.cpu.(rip := th.tramp + 14), m[th.sel := BLOCK])
              else Machine(Cpu(Answered(th.saved, th.result).regs[R11 := th.sel], th.saved.rip), m)
  {
    hide ToLE, Read64;
    var code := TrapCode(th.sel);
    assert code[2..10] == ToLE(th.sel, 8);
    ImmediateAt(m, th.tramp, code, 2, th.sel);
    assert forall i :: 0 <= i < TRAP_CODE_SIZE ==> m[th.tramp + i] == code[i];
    if th.phase.k == 0 {
      assert code[0] == 0x49 && code[1] == 0xBB;
      assert Decode(m, th.tramp) == Decoded(MovImm(R11, th.sel), 10);
    } else if th.phase.k == 1 {
      assert code[10..] == [0x41, 0xC6, 0x03, BLOCK, 0xC3];
      assert code[10] == 0x41 && code[11] == 0xC6 && code[12] == 0x03 && code[13] == BLOCK;
      assert Decode(m, th.tramp + 10) == Decoded(MovByte(R11, BLOCK), 4);
    } else {
      assert code[14] == 0xC3;
      assert Decode(m, th.tramp + 14) == Decoded(Ret, 1);
      var r := th.cpu.regs[RSP := Wrap64(th.cpu.Get(RSP) + 8)];
      assert r == Answered(th.saved, th.result).regs[R11 := th.sel];
    }
  }

  // ---- Preservation ----

  /** Outside its own selector and, in a trap, its own stack word, the handler and the trampoline
      write nothing; Darwin code and the emulated syscall leave reserved bytes alone. */
  ghost predicate OwnWrites(m: Mem, m': Mem, th: Thread) {
    m'.Keys == m.Keys &&
    forall x :: x in m && x != th.sel && !(th.InTrap() && InRange(x, th.Slot(), 8)) ==> m'[x] == m[x]
  }

  lemma PointwiseApart(a: int, n: nat, b: int, k: nat)
    requires n > 0 && k > 0
    requires forall x :: InRange(x, a, n) ==> !InRange(x, b, k)
    ensures Disjoint(a, n, b, k)
  {
    if !Disjoint(a, n, b, k) {
      var x := if a < b then b else a;
      assert InRange(x, a, n) && InRange(x, b, k);
    }
  }

  /** A fresh stack word is apart from everything reserved. */
  lemma RoomIsApart(w: World, t: nat, c: Cpu, u: nat)
    requires t in w.threads && u in w.threads && StackRoom(w, t, c)
    ensures var th, s := w.threads[u], c.Get(RSP) - 8;
            && !InRange(th.sel, s, 8) && Disjoint(s, 8, th.tramp, TRAP_CODE_SIZE)
            && (u != t && th.InTrap() ==> Disjoint(s, 8, th.Slot(), 8))
  {
    var th, s := w.threads[u], c.Get(RSP) - 8;
    forall x | InRange(x, s, 8) ensures !Holds(th, u == t, x) {
      assert !Reserved(w, t, x);
    }
    PointwiseApart(s, 8, th.tramp, TRAP_CODE_SIZE);
    if u != t && th.InTrap() {
      PointwiseApart(s, 8, th.Slot(), 8);
    }
  }

  /** What a step of `t` writes is none of thread `u`'s business. */
  lemma OthersUntouched(w: World, t: nat, a: Act, u: nat)
    requires GoodWorld(w) && t in w.threads && u in w.threads && u != t && CanAct(w, t, a)
    ensures var m := NextThread(w, t, a).1;
            forall x :: x in w.mem && Holds(w.threads[u], false, x) ==> x in m && m[x] == w.mem[x]
  {
    hide ThreadOk, X86.Step, Bounced, Answered;
    var th, o, m := w.threads[t], w.threads[u], NextThread(w, t, a).1;
    assert ThreadOk(w.mem, th) && Apart(th, o) && Apart(o, th);
    if a.Run? || (a.Handle? && th.phase == Opened(true)) {
      forall x | x in w.mem && Holds(o, false, x) ensures x in m && m[x] == w.mem[x] {
        assert Holds(w.threads[u], u == t, x);
        assert Reserved(w, t, x);
      }
    } else {
      OwnWritesOnly(w, t, a);
    }
  }

  lemma OwnWritesOnly(w: World, t: nat, a: Act)
    requires t in w.threads && ThreadOk(w.mem, w.threads[t]) && CanAct(w, t, a)
    requires !a.Run? && !(a.Handle? && w.threads[t].phase == Opened(true))
    ensures OwnWrites(w.mem, NextThread(w, t, a).1, w.threads[t])
  {
    hide X86.Step, CodeAt, Read64;
    var th := w.threads[t];
    if a.Resume? {
      TrampolineStep(w.mem, th);
    }
  }

  /** The step keeps thread `t` itself in order. */
  lemma OwnStep(w: World, t: nat, a: Act)
    requires GoodWorld(w) && t in w.threads && CanAct(w, t, a)
    ensures ThreadOk(NextThread(w, t, a).1, NextThread(w, t, a).0)
  {
    hide GoodWorld, ThreadOk, CanAct, NextThread, CodeAt;
    GoodThread(w, t);
    match a
    case Run(_, _) => LeftAlone(w, t, a);
    case Trap(_) => TrapStep(w, t, a);
    case StraySignal => QuietStep(w, t, a);
    case Handle(r, m) => HandleStep(w, t, a);
    case SigReturn => QuietStep(w, t, a);
    case Resume => ResumeStep(w, t, a);
  }

  lemma GoodThread(w: World, t: nat)
    requires GoodWorld(w) && t in w.threads
    ensures ThreadOk(w.mem, w.threads[t]) && SelfApart(w.threads[t])
  {
  }

  /** The emitted code survives writes elsewhere. */
  lemma CodeKept(m: Mem, m': Mem, a: int, code: seq<Byte>)
    requires CodeAt(m, a, code)
    requires forall x :: InRange(x, a, |code|) ==> x in m' && m'[x] == m[x]
    ensures CodeAt(m', a, code)
  {
    forall i | 0 <= i < |code| ensures m'[a + i] == code[i] {
      assert InRange(a + i, a, |code|);
    }
  }

  lemma ReservedCode(w: World, t: nat, m: Mem, opens: bool)
    requires t in w.threads && ThreadOk(w.mem, w.threads[t]) && LeavesReserved(w, t, m, opens)
    ensures var th := w.threads[t];
            th.sel in m && (!opens ==> m[th.sel] == w.mem[th.sel]) && CodeAt(m, th.tramp, TrapCode(th.sel))
  {
    var th := w.threads[t];
    forall x | x == th.sel || InRange(x, th.tramp, TRAP_CODE_SIZE)
      ensures x in m && (m[x] == w.mem[x] || (opens && x == th.sel))
    {
      assert Holds(th, t == t, x);
      assert Reserved(w, t, x);
    }
    CodeKept(w.mem, m, th.tramp, TrapCode(th.sel));
  }

  lemma LeftAlone(w: World, t: nat, a: Act)
    requires t in w.threads && ThreadOk(w.mem, w.threads[t]) && CanAct(w, t, a) && a.Run?
    ensures ThreadOk(NextThread(w, t, a).1, NextThread(w, t, a).0)
  {
    hide LeavesReserved, CodeAt;
    ReservedCode(w, t, a.mem, true);
  }

  lemma TrapStep(w: World, t: nat, a: Act)
    requires t in w.threads && ThreadOk(w.mem, w.threads[t]) && CanAct(w, t, a) && a.Trap?
    ensures ThreadOk(NextThread(w, t, a).1, NextThread(w, t, a).0)
  {
    hide CodeAt;
  }

  lemma QuietStep(w: World, t: nat, a: Act)
    requires t in w.threads && ThreadOk(w.mem, w.threads[t]) && CanAct(w, t, a) && (a.StraySignal? || a.SigReturn?)
    ensures ThreadOk(NextThread(w, t, a).1, NextThread(w, t, a).0)
  {
    hide CodeAt;
  }

  lemma SelectorWrite(m: Mem, th: Thread, b: Byte)
    requires ThreadOk(m, th) && SelfApart(th)
    ensures var m' := m[th.sel := b];
            && m'.Keys == m.Keys && CodeAt(m', th.tramp, TrapCode(th.sel))
            && (th.InTrap() && Mapped(m, th.Slot(), 8) ==> Mapped(m', th.Slot(), 8) && Read64(m', th.Slot()) == Read64(m, th.Slot()))
  {
    hide Read64, Answered, Bounced;
    var m' := m[th.sel := b];
    assert m'.Keys == m.Keys;
    CodeKept(m, m', th.tramp, TrapCode(th.sel));
    if th.InTrap() && Mapped(m, th.Slot(), 8) {
      Read64Same(m, m', th.Slot());
    }
  }

  lemma HandleStep(w: World, t: nat, a: Act)
    requires t in w.threads && ThreadOk(w.mem, w.threads[t]) && SelfApart(w.threads[t]) && CanAct(w, t, a) && a.Handle?
    ensures ThreadOk(NextThread(w, t, a).1, NextThread(w, t, a).0)
  {
    hide CodeAt, LeavesReserved, Read64, Write64;
    var th := w.threads[t];
    SelectorWrite(w.mem, th, ALLOW);
    SelectorWrite(w.mem, th, BLOCK);
    if th.phase == Opened(true) {
      ReservedCode(w, t, a.effect, false);
    } else if th.phase == Processed {
      PushStep(w.mem, th);
    }
  }

  lemma PushStep(m: Mem, th: Thread)
    requires ThreadOk(m, th) && SelfApart(th) && th.phase == Processed && Mapped(m, th.Slot(), 8)
    ensures var n := HandlerStep(th, m, 0, m);
            ThreadOk(n.1, n.0)
  {
    hide Read64, Write64;
    Read64AfterWrite64(m, th.Slot(), th.saved.rip);
    CodeKept(m, Write64(m, th.Slot(), th.saved.rip), th.tramp, TrapCode(th.sel));
  }

  lemma ResumeStep(w: World, t: nat, a: Act)
    requires t in w.threads && ThreadOk(w.mem, w.threads[t]) && SelfApart(w.threads[t]) && CanAct(w, t, a) && a.Resume?
    ensures ThreadOk(NextThread(w, t, a).1, NextThread(w, t, a).0)
  {
    hide CodeAt, Read64, X86.Step;
    var th := w.threads[t];
    TrampolineStep(w.mem, th);
    SelectorWrite(w.mem, th, BLOCK);
  }

  lemma KeepApart(w: World, t: nat, a: Act, u: nat)
    requires GoodWorld(w) && t in w.threads && u in w.threads && u != t && CanAct(w, t, a)
    ensures Apart(NextThread(w, t, a).0, w.threads[u]) && Apart(w.threads[u], NextThread(w, t, a).0)
  {
    hide X86.Step, ThreadOk, LeavesReserved, StackRoom;
    assert Apart(w.threads[t], w.threads[u]) && Apart(w.threads[u], w.threads[t]);
    if a.Trap? {
      RoomIsApart(w, t, w.threads[t].cpu, u);
    }
  }

  lemma KeepSelfApart(w: World, t: nat, a: Act)
    requires GoodWorld(w) && t in w.threads && CanAct(w, t, a)
    ensures SelfApart(NextThread(w, t, a).0)
  {
    hide X86.Step, ThreadOk, LeavesReserved, StackRoom;
    assert SelfApart(w.threads[t]);
    if a.Trap? {
      RoomIsApart(w, t, w.threads[t].cpu, t);
    }
  }

  /** Every step of every thread keeps the world in order. */
  lemma KeepGoodWorld(w: World, t: nat, a: Act)
    requires GoodWorld(w) && t in w.threads && CanAct(w, t, a)
    ensures GoodWorld(Next(w, t, a))
  {
    hide CanAct, NextThread, ThreadOk, Apart, SelfApart, Holds;
    var w', m := Next(w, t, a), NextThread(w, t, a).1;
    OwnStep(w, t, a);
    KeepSelfApart(w, t, a);
    forall u | u in w.threads && u != t
      ensures ThreadOk(m, w.threads[u]) && Apart(w'.threads[t], w.threads[u]) && Apart(w.threads[u], w'.threads[t])
    {
      OthersUntouched(w, t, a, u);
      BystanderOk(w.mem, m, w.threads[u]);
      KeepApart(w, t, a, u);
    }
  }

  // ---- Main results ----

  /** No step of a thread changes another thread's selector. */
  lemma SelectorsIndependent(w: World, t: nat, a: Act, u: nat)
    requires GoodWorld(w) && t in w.threads && u in w.threads && u != t && CanAct(w, t, a)
    ensures w.threads[u].sel in w.mem && w.threads[u].sel in Next(w, t, a).mem
    ensures Next(w, t, a).mem[w.threads[u].sel] == w.mem[w.threads[u].sel]
    ensures Next(w, t, a).threads[u] == w.threads[u]
  {
    hide CanAct, NextThread;
    OthersUntouched(w, t, a, u);
    assert ThreadOk(w.mem, w.threads[u]);
    assert Holds(w.threads[u], false, w.threads[u].sel);
  }

  /** A run of the threads: who moved, and how. */
  ghost predicate IsRun(ws: seq<World>, moves: seq<(nat, Act)>) {
    && |ws| == |moves| + 1
    && forall i :: 0 <= i < |moves| ==>
         moves[i].0 in ws[i].threads && CanAct(ws[i], moves[i].0, moves[i].1) &&
         ws[i + 1] == Next(ws[i], moves[i].0, moves[i].1)
  }

  lemma {:induction false} RunGood(ws: seq<World>, moves: seq<(nat, Act)>, i: nat)
    requires IsRun(ws, moves) && GoodWorld(ws[0]) && i < |ws|
    ensures GoodWorld(ws[i]) && ws[i].threads.Keys == ws[0].threads.Keys
  {
    hide GoodWorld, CanAct, NextThread;
    if i > 0 {
      RunGood(ws, moves, i - 1);
      assert ws[i - 1 + 1] == Next(ws[i - 1], moves[i - 1].0, moves[i - 1].1);
      KeepGoodWorld(ws[i - 1], moves[i - 1].0, moves[i - 1].1);
    }
  }

  /** While a trap of `t` is in progress, nobody changes the state it trapped in. */
  lemma {:induction false} TrapRemembers(ws: seq<World>, moves: seq<(nat, Act)>, t: nat, i: nat)
    requires IsRun(ws, moves) && t in ws[0].threads && i < |moves|
    requires moves[0].0 == t && moves[0].1.Trap?
    requires forall k :: 0 < k <= i && t in ws[k].threads ==> ws[k].threads[t].InTrap()
    ensures t in ws[i].threads && t in ws[i + 1].threads
    ensures var th := ws[i + 1].threads[t];
            th.saved == Syscalled(ws[0].threads[t].cpu, moves[0].1.flags) && th.sel == ws[0].threads[t].sel
  {
    hide X86.Step, LeavesReserved, StackRoom;
    assert ws[i + 1] == Next(ws[i], moves[i].0, moves[i].1);
    if i > 0 {
      TrapRemembers(ws, moves, t, i - 1);
    }
  }

  /** Move `h` of the run is the one in which the handler of `t` runs the emulated syscall. */
  predicate Emulates(ws: seq<World>, moves: seq<(nat, Act)>, t: nat, h: nat) {
    && 0 < h < |moves| && h < |ws| && moves[h].0 == t && moves[h].1.Handle?
    && t in ws[h].threads && ws[h].threads[t].phase == Opened(true)
  }

  /** The result a thread carries through a trap is what the emulated syscall of this trap returned,
      and there is only one. */
  lemma {:induction false} ResultOfSyscall(ws: seq<World>, moves: seq<(nat, Act)>, t: nat, i: nat) returns (h: nat)
    requires IsRun(ws, moves) && t in ws[0].threads && i < |moves|
    requires moves[0].0 == t && moves[0].1.Trap?
    requires forall k :: 0 < k <= i && t in ws[k].threads ==> ws[k].threads[t].InTrap()
    ensures t in ws[i + 1].threads
    ensures var th := ws[i + 1].threads[t];
            if th.phase in {Entered(true), Opened(true)} then forall k :: 0 <= k <= i ==> !Emulates(ws, moves, t, k)
            else th.InTrap() || i > 0 ==>
              && Emulates(ws, moves, t, h) && h <= i && th.result == moves[h].1.result
              && (th.InTrap() ==> !th.phase.Entered? && !th.phase.Opened?)
              && forall k :: 0 <= k <= i && Emulates(ws, moves, t, k) ==> k == h
  {
    hide X86.Step, LeavesReserved, StackRoom;
    assert ws[i + 1] == Next(ws[i], moves[i].0, moves[i].1);
    h := i;
    if i > 0 {
      h := ResultOfSyscall(ws, moves, t, i - 1);
      if Emulates(ws, moves, t, i) {
        h := i;
      }
    }
  }

  /** `d` is `c` after a system call at `c.rip`: the result is in rax, the call left the address of the
      next instruction in rcx, r11 holds `r11`, and every other register is untouched. */
  ghost predicate AfterSyscall(c: Cpu, d: Cpu, result: Word, r11: Word) {
    && d.rip == c.rip + 2
    && d.regs[RAX] == result && d.regs[RCX] == c.rip + 2 && d.regs[R11] == r11
    && forall q: RegNo :: q != RAX && q != RCX && q != R11 ==> d.regs[q] == c.regs[q]
  }

  /** At the end of the run, thread `t` stands as after a system call that returned what move `h` did,
      with its selector's address in r11 and its selector at BLOCK. */
  ghost predicate TransparentAt(ws: seq<World>, moves: seq<(nat, Act)>, t: nat, h: nat)
    requires |ws| == |moves| + 1 && |moves| > 0 && t in ws[0].threads && t in ws[|moves|].threads
  {
    var c, th, m := ws[0].threads[t].cpu, ws[|moves|].threads[t], ws[|moves|].mem;
    && Emulates(ws, moves, t, h)
    && th.phase == User && AfterSyscall(c, th.cpu, moves[h].1.result, th.sel)
    && th.sel == ws[0].threads[t].sel && th.sel in m && m[th.sel] == BLOCK
  }

  /** Trap transparency. Whatever the other threads do meanwhile, when the trap of `t` is over the
      thread is as if its `syscall` had returned what the one emulated syscall of this trap did, apart
      from r11, and its own selector is back to BLOCK. */
  lemma TrapTransparent(ws: seq<World>, moves: seq<(nat, Act)>, t: nat)
    requires IsRun(ws, moves) && GoodWorld(ws[0]) && t in ws[0].threads
    requires |moves| > 1 && moves[0].0 == t && moves[0].1.Trap?
    requires forall k :: 0 < k < |moves| && t in ws[k].threads ==> ws[k].threads[t].InTrap()
    requires t in ws[|moves|].threads && !ws[|moves|].threads[t].InTrap()
    ensures exists h :: TransparentAt(ws, moves, t, h) && forall k :: Emulates(ws, moves, t, k) ==> k == h
  {
    hide IsRun, GoodWorld, CanAct, NextThread, ThreadOk;
    var n := |moves| - 1;
    LastMove(ws, moves, n);
    TrapRemembers(ws, moves, t, n - 1);
    RunGood(ws, moves, n);
    GoodThread(ws[n], t);
    TrapEnds(ws[n], moves[n].0, moves[n].1, t);
    var h := ResultOfSyscall(ws, moves, t, n);
    assert TransparentAt(ws, moves, t, h);
  }

  lemma LastMove(ws: seq<World>, moves: seq<(nat, Act)>, n: nat)
    requires IsRun(ws, moves) && n + 1 == |moves|
    ensures |ws| == n + 2 && moves[n].0 in ws[n].threads && CanAct(ws[n], moves[n].0, moves[n].1)
    ensures ws[n + 1] == Next(ws[n], moves[n].0, moves[n].1)
  {
  }

  /** The only step that ends a trap is the last trampoline instruction. */
  lemma TrapEnds(w: World, u: nat, a: Act, t: nat)
    requires u in w.threads && CanAct(w, u, a) && t in w.threads && w.threads[t].InTrap()
    requires ThreadOk(w.mem, w.threads[t])
    requires !Next(w, u, a).threads[t].InTrap()
    ensures var th, th' := w.threads[t], Next(w, u, a).threads[t];
            && th'.phase == User && th'.sel == th.sel && th'.result == th.result && th'.saved == th.saved
            && th'.cpu == Cpu(Answered(th.saved, th.result).regs[R11 := th.sel], th.saved.rip)
            && th.sel in Next(w, u, a).mem && Next(w, u, a).mem[th.sel] == BLOCK
  {
    hide X86.Step, CodeAt, LeavesReserved, StackRoom, Read64;
    if u == t && a.Resume? {
      TrampolineStep(w.mem, w.threads[t]);
    }
  }

  // ---- Traps end ----

  /** How many steps of its own a thread in a trap has still to take. */
  function Remaining(phase: Phase): (n: nat) {
    match phase
    case Entered(_) => 7
    case Opened(_) => 6
    case Processed => 5
    case Redirected => 4
    case Resuming(k) => if k < 3 then 3 - k else 0
    case _ => 0
  }

  /** Every step a thread takes in a trap brings it one step closer to the end, and no other thread's
      step takes it back. */
  lemma TrapAdvances(w: World, u: nat, a: Act, t: nat)
    requires GoodWorld(w) && u in w.threads && CanAct(w, u, a) && t in w.threads && w.threads[t].InTrap()
    ensures var th' := Next(w, u, a).threads[t];
            if u == t then Remaining(th'.phase) == Remaining(w.threads[t].phase) - 1 else th' == w.threads[t]
  {
    hide X86.Step, LeavesReserved, StackRoom, CodeAt, Read64;
    GoodThread(w, t);
  }

  /** The next step of a thread in a trap. */
  function OwnMove(th: Thread, result: Word, m: Mem): (a: Act) {
    match th.phase
    case Redirected => SigReturn
    case Resuming(_) => Resume
    case _ => Handle(result, m)
  }

  /** A thread in a trap is never stuck, as long as its stack word is mapped. */
  lemma TrapEnabled(w: World, t: nat, result: Word)
    requires GoodWorld(w) && t in w.threads && w.threads[t].InTrap() && Mapped(w.mem, w.threads[t].Slot(), 8)
    ensures var a := OwnMove(w.threads[t], result, w.mem);
            && CanAct(w, t, a)
            && (Next(w, t, a).threads[t].InTrap() ==>
                  Mapped(Next(w, t, a).mem, Next(w, t, a).threads[t].Slot(), 8))
  {
    hide X86.Step, CodeAt, Read64;
    GoodThread(w, t);
    if w.threads[t].phase.Resuming? {
      TrampolineStep(w.mem, w.threads[t]);
    }
  }

  /** From anywhere in a trap, the remaining steps of the thread alone end it. */
  lemma {:induction false} TrapFinishes(w: World, t: nat, result: Word) returns (ws: seq<World>, moves: seq<(nat, Act)>)
    requires GoodWorld(w) && t in w.threads && w.threads[t].InTrap() && Mapped(w.mem, w.threads[t].Slot(), 8)
    ensures IsRun(ws, moves) && ws[0] == w && |moves| == Remaining(w.threads[t].phase) > 0
    ensures forall k :: 0 <= k < |moves| ==> moves[k].0 == t && t in ws[k].threads && ws[k].threads[t].InTrap()
    ensures t in ws[|moves|].threads && !ws[|moves|].threads[t].InTrap()
    decreases Remaining(w.threads[t].phase)
  {
    hide GoodWorld, CanAct, NextThread, ThreadOk;
    var a := OwnMove(w.threads[t], result, w.mem);
    TrapEnabled(w, t, result);
    var w' := Next(w, t, a);
    TrapAdvances(w, t, a, t);
    KeepGoodWorld(w, t, a);
    GoodThread(w', t);
    InTrapRemains(w.mem, w.threads[t]) by { GoodThread(w, t); }
    if w'.threads[t].InTrap() {
      var rest, more := TrapFinishes(w', t, result);
      ws, moves := [w] + rest, [(t, a)] + more;
      Prepended(w, (t, a), rest, more);
    } else {
      ws, moves := [w, w'], [(t, a)];
      OverAtZero(w, t, a);
    }
  }

  lemma InTrapRemains(m: Mem, th: Thread)
    requires ThreadOk(m, th) && th.InTrap()
    ensures Remaining(th.phase) > 0
  {
  }

  lemma OverAtZero(w: World, t: nat, a: Act)
    requires GoodWorld(w) && t in w.threads && CanAct(w, t, a) && w.threads[t].InTrap()
    requires !Next(w, t, a).threads[t].InTrap()
    ensures Remaining(w.threads[t].phase) == 1
  {
    hide X86.Step, LeavesReserved, StackRoom, CodeAt, Read64;
    GoodThread(w, t);
  }

  lemma Prepended(w: World, move: (nat, Act), rest: seq<World>, more: seq<(nat, Act)>)
    requires IsRun(rest, more) && move.0 in w.threads && CanAct(w, move.0, move.1)
    requires rest[0] == Next(w, move.0, move.1)
    ensures IsRun([w] + rest, [move] + more)
  {
    hide CanAct, Next;
    var ws, moves := [w] + rest, [move] + more;
    forall i | 0 <= i < |moves|
      ensures moves[i].0 in ws[i].threads && CanAct(ws[i], moves[i].0, moves[i].1)
      ensures ws[i + 1] == Next(ws[i], moves[i].0, moves[i].1)
    {
      if i > 0 {
        assert moves[i] == more[i - 1] && ws[i] == rest[i - 1] && ws[i + 1] == rest[i - 1 + 1];
      }
    }
  }

  /** Every trap can end: wherever `Trap` is enabled there is a run of eight moves of the thread itself
      to which TrapTransparent applies. */
  lemma TrapCanEnd(w: World, t: nat, flags: Word, result: Word) returns (ws: seq<World>, moves: seq<(nat, Act)>)
    requires GoodWorld(w) && t in w.threads && CanAct(w, t, Trap(flags))
    ensures IsRun(ws, moves) && ws[0] == w && |moves| == 8 && moves[0] == (t, Trap(flags))
    ensures forall k :: 0 < k < |moves| && t in ws[k].threads ==> ws[k].threads[t].InTrap()
    ensures t in ws[|moves|].threads && !ws[|moves|].threads[t].InTrap()
  {
    hide GoodWorld, ThreadOk, CanAct, Next;
    var w' := Next(w, t, Trap(flags));
    KeepGoodWorld(w, t, Trap(flags));
    TrapStarts(w, t, flags);
    var rest, more := TrapFinishes(w', t, result);
    ws, moves := [w] + rest, [(t, Trap(flags))] + more;
    Prepended(w, (t, Trap(flags)), rest, more);
  }

  lemma TrapStarts(w: World, t: nat, flags: Word)
    requires t in w.threads && CanAct(w, t, Trap(flags))
    ensures var w' := Next(w, t, Trap(flags));
            && t in w'.threads && w'.threads[t].phase == Entered(true) && w'.threads[t].InTrap()
            && Mapped(w'.mem, w'.threads[t].Slot(), 8)
  {
  }

  // ---- Signals that are no dispatch ----

  predicate InStray(th: Thread) {
    th.phase == Entered(false) || th.phase == Opened(false) || th.phase == Declined
  }

  lemma {:induction false} StrayRemembers(ws: seq<World>, moves: seq<(nat, Act)>, t: nat, i: nat)
    requires IsRun(ws, moves) && t in ws[0].threads && i < |moves| && moves[0] == (t, StraySignal)
    requires forall k :: 0 < k <= i && t in ws[k].threads ==> InStray(ws[k].threads[t])
    ensures t in ws[i].threads && t in ws[i + 1].threads
    ensures ws[i + 1].threads[t].saved == ws[0].threads[t].cpu && ws[i + 1].threads[t].sel == ws[0].threads[t].sel
  {
    hide X86.Step, LeavesReserved, StackRoom;
    assert ws[i + 1] == Next(ws[i], moves[i].0, moves[i].1);
    if i > 0 {
      StrayRemembers(ws, moves, t, i - 1);
    }
  }

  /** A SIGSYS that is not a dispatch leaves the thread where it was, but with its selector at BLOCK
      whatever it was before: code that a libc call had left at ALLOW is trapped from then on. */
  lemma StraySignalBlocks(ws: seq<World>, moves: seq<(nat, Act)>, t: nat)
    requires IsRun(ws, moves) && GoodWorld(ws[0]) && t in ws[0].threads
    requires |moves| > 1 && moves[0] == (t, StraySignal)
    requires forall k :: 0 < k < |moves| && t in ws[k].threads ==> InStray(ws[k].threads[t])
    requires t in ws[|moves|].threads && !InStray(ws[|moves|].threads[t])
    ensures var th, m := ws[|moves|].threads[t], ws[|moves|].mem;
            && th.phase == User && th.cpu == ws[0].threads[t].cpu
            && th.sel == ws[0].threads[t].sel && th.sel in m && m[th.sel] == BLOCK
  {
    hide IsRun, GoodWorld, CanAct, NextThread, ThreadOk;
    var n := |moves| - 1;
    LastMove(ws, moves, n);
    StrayRemembers(ws, moves, t, n - 1);
    RunGood(ws, moves, n);
    GoodThread(ws[n], t);
    StrayEnds(ws[n], moves[n].0, moves[n].1, t);
  }

  lemma StrayEnds(w: World, u: nat, a: Act, t: nat)
    requires u in w.threads && CanAct(w, u, a) && t in w.threads && InStray(w.threads[t])
    requires ThreadOk(w.mem, w.threads[t])
    requires !InStray(Next(w, u, a).threads[t])
    ensures var th, th', m := w.threads[t], Next(w, u, a).threads[t], Next(w, u, a).mem;
            && th'.phase == User && th'.sel == th.sel && th'.cpu == th.saved && th.sel in m && m[th.sel] == BLOCK
  {
    hide X86.Step, CodeAt, LeavesReserved, StackRoom, Read64;
  }
}
