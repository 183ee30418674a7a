/** The initial process stack: `build_stack` and the registers `execute` hands over. */
module ProcessStack {
  import opened Memory

  type Str = seq<Byte>

  function AlignDown(x: int, n: nat): (r: int)
    requires n > 0
    ensures r <= x < r + n && r % n == 0
  {
    Down(x, n);
    (x / n) * n
  }

  lemma Down(x: int, n: nat)
    requires n > 0
    ensures (x / n) * n <= x < (x / n) * n + n && ((x / n) * n) % n == 0
  {
    Pack(0, x / n, n);
  }

  // ---- Strings ----

  /** Where `push_string` puts `s` below `sp`. */
  function PushAt(sp: int, s: Str): (p: int)
    ensures p + |s| + 1 <= sp
  {
    AlignDown(sp - (|s| + 1), 8)
  }

  function EndOf(sp: int, strs: seq<Str>): (e: int)
    ensures e <= sp
    decreases strs
  {
    if strs == [] then sp else EndOf(PushAt(sp, strs[0]), strs[1..])
  }

  /** The bytes of `s` and a NUL stand at `p`. */
  ghost predicate HoldsString(m: Mem, p: int, s: Str) {
    Mapped(m, p, |s| + 1) && (forall k :: 0 <= k < |s| ==> m[p + k] == s[k]) && m[p + |s|] == 0
  }

  /** `ptrs[i]` points to `strs[i]`, inside `[lo, hi)`. */
  ghost predicate HoldsAll(m: Mem, ptrs: seq<int>, strs: seq<Str>, lo: int, hi: int) {
    && |ptrs| == |strs|
    && forall i :: 0 <= i < |ptrs| ==>
         lo <= ptrs[i] && ptrs[i] + |strs[i]| + 1 <= hi && HoldsString(m, ptrs[i], strs[i])
  }

  ghost predicate SameOutside(m: Mem, m': Mem, lo: int, hi: int) {
    m'.Keys == m.Keys && forall x :: x in m && !(lo <= x < hi) ==> m'[x] == m[x]
  }

  lemma HoldsAllKept(m: Mem, m': Mem, ptrs: seq<int>, strs: seq<Str>, lo: int, hi: int, lo': int, hi': int)
    requires HoldsAll(m, ptrs, strs, lo, hi) && SameOutside(m, m', lo', hi')
    requires hi' <= lo
    ensures HoldsAll(m', ptrs, strs, lo, hi)
  {
  }

  method PushString(space: AddressSpace, sp: int, s: Str) returns (p: int)
    requires Mapped(space.mem, PushAt(sp, s), |s| + 1)
    modifies space
    ensures p == PushAt(sp, s) && HoldsString(space.mem, p, s)
    ensures SameOutside(old(space.mem), space.mem, p, p + |s| + 1)
  {
    hide AlignDown;
    p := AlignDown(sp - (|s| + 1), 8);
    ghost var m0 := space.mem;
    space.mem := WriteBytes(space.mem, p, s);
    space.mem := space.mem[p + |s| := 0];
    forall k | 0 <= k < |s| ensures space.mem[p + k] == s[k] {
      assert InRange(p + k, p, |s|);
    }
  }

  method PushStrings(space: AddressSpace, sp: int, strs: seq<Str>) returns (end: int, ptrs: seq<int>)
    requires Mapped(space.mem, EndOf(sp, strs), sp - EndOf(sp, strs))
    modifies space
    ensures end == EndOf(sp, strs)
    ensures HoldsAll(space.mem, ptrs, strs, end, sp)
    ensures SameOutside(old(space.mem), space.mem, end, sp)
  {
    hide PushAt, HoldsString;
    end, ptrs := sp, [];
    assert strs[0..] == strs;
    for i := 0 to |strs|
      invariant EndOf(sp, strs) == EndOf(end, strs[i..]) && end <= sp
      invariant HoldsAll(space.mem, ptrs, strs[..i], end, sp)
      invariant SameOutside(old(space.mem), space.mem, end, sp)
    {
      assert strs[i..][0] == strs[i] && strs[i..][1..] == strs[i + 1..];
      ghost var before, was := space.mem, end;
      var p := PushString(space, end, strs[i]);
      end := p;
      HoldsAllKept(before, space.mem, ptrs, strs[..i], was, sp, p, p + |strs[i]| + 1);
      ptrs := ptrs + [p];
      assert strs[..i + 1] == strs[..i] + [strs[i]];
    }
    assert strs[..|strs|] == strs;
  }

  // ---- Pointer vectors ----

  /** The words `v`, then a zero, stand from `a` on. */
  ghost predicate HoldsVector(m: Mem, a: int, v: seq<int>) {
    && Mapped(m, a, 8 * (|v| + 1))
    && (forall i :: 0 <= i < |v| ==> Read64(m, a + 8 * i) == v[i])
    && Read64(m, a + 8 * |v|) == 0
  }

  method PushWord(space: AddressSpace, sp: int, v: nat) returns (p: int)
    requires Mapped(space.mem, sp - 8, 8) && v < TWO64
    modifies space
    ensures p == sp - 8 && SameOutside(old(space.mem), space.mem, p, sp)
    ensures Mapped(space.mem, p, 8) && Read64(space.mem, p) == v
  {
    p := sp - 8;
    Read64AfterWrite64(space.mem, p, v);
    space.mem := Write64(space.mem, p, v);
  }

  /** Push a zero and then the pointers, last one first. */
  method PushVector(space: AddressSpace, sp: int, v: seq<int>) returns (p: int)
    requires Mapped(space.mem, sp - 8 * (|v| + 1), 8 * (|v| + 1))
    requires forall x :: x in v ==> 0 < x < TWO64
    modifies space
    ensures p == sp - 8 * (|v| + 1) && HoldsVector(space.mem, p, v)
    ensures SameOutside(old(space.mem), space.mem, p, sp)
  {
    hide Read64;
    p := PushWord(space, sp, 0);
    var i := |v|;
    while i > 0
      invariant 0 <= i <= |v| && p == sp - 8 * (|v| - i + 1)
      invariant HoldsVector(space.mem, p, v[i..])
      invariant SameOutside(old(space.mem), space.mem, p, sp)
    {
      i := i - 1;
      assert v[i] in v;
      ghost var before := space.mem;
      p := PushWord(space, p, v[i]);
      VectorGrows(before, space.mem, p, v[i], v[i + 1..]);
      assert v[i..] == [v[i]] + v[i + 1..];
    }
    assert v[0..] == v;
  }

  lemma VectorGrows(m: Mem, m': Mem, p: int, x: int, v: seq<int>)
    requires HoldsVector(m, p + 8, v) && SameOutside(m, m', p, p + 8)
    requires Mapped(m', p, 8) && Read64(m', p) == x
    ensures HoldsVector(m', p, [x] + v)
  {
    hide Read64;
    var u := [x] + v;
    forall i | 0 <= i < |u| ensures Read64(m', p + 8 * i) == u[i] {
      if i > 0 {
        assert u[i] == v[i - 1];
        assert p + 8 * i == p + 8 + 8 * (i - 1);
        Read64Same(m, m', p + 8 + 8 * (i - 1));
      }
    }
    Read64Same(m, m', p + 8 + 8 * |v|);
  }

  lemma VectorKept(m: Mem, m': Mem, a: int, v: seq<int>, lo: int, hi: int)
    requires HoldsVector(m, a, v) && SameOutside(m, m', lo, hi) && hi <= a
    ensures HoldsVector(m', a, v)
  {
    hide Read64;
    forall i | 0 <= i < |v| ensures Read64(m', a + 8 * i) == v[i] {
      Read64Same(m, m', a + 8 * i);
    }
    Read64Same(m, m', a + 8 * |v|);
  }

  // ---- The whole stack ----

  function Words(argv: seq<Str>, envp: seq<Str>, apple: seq<Str>): (n: nat) {
    1 + (|argv| + 1) + (|envp| + 1) + (|apple| + 1)
  }

  function StringsEnd(top: int, argv: seq<Str>, envp: seq<Str>, apple: seq<Str>): (e: int)
    ensures e <= top
  {
    EndOf(EndOf(EndOf(top, apple), envp), argv)
  }

  /** Where the pointer block starts: an odd number of words gets one word of padding. */
  function BlockTop(strings: int, words: nat): (b: int)
    ensures b <= strings
  {
    AlignDown(strings, 16) - if words % 2 != 0 then 8 else 0
  }

  lemma BlockAligned(strings: int, words: nat)
    ensures (BlockTop(strings, words) - 8 * words) % 16 == 0
  {
    hide AlignDown;
    var a := AlignDown(strings, 16);
    assert a % 16 == 0;
    assert (8 * words + if words % 2 != 0 then 8 else 0) % 16 == 0;
  }

  function StackPointer(top: int, argv: seq<Str>, envp: seq<Str>, apple: seq<Str>): (sp: int)
    ensures sp % 16 == 0 && sp <= top
  {
    BlockAligned(StringsEnd(top, argv, envp, apple), Words(argv, envp, apple));
    BlockTop(StringsEnd(top, argv, envp, apple), Words(argv, envp, apple)) - 8 * Words(argv, envp, apple)
  }

  /** The stack as the entry point of a Darwin program expects it. */
  ghost predicate StackHolds(m: Mem, sp: int, top: int, argv: seq<Str>, envp: seq<Str>, apple: seq<Str>,
                             a: seq<int>, e: seq<int>, p: seq<int>)
  {
    var envAt := sp + 8 + 8 * (|argv| + 1);
    var appleAt := envAt + 8 * (|envp| + 1);
    && Mapped(m, sp, 8) && Read64(m, sp) == |argv|
    && HoldsAll(m, a, argv, sp, top) && HoldsVector(m, sp + 8, a)
    && HoldsAll(m, e, envp, sp, top) && HoldsVector(m, envAt, e)
    && HoldsAll(m, p, apple, sp, top) && HoldsVector(m, appleAt, p)
  }

  const EXECUTABLE_PATH: seq<Byte> :=
    [101, 120, 101, 99, 117, 116, 97, 98, 108, 101, 95, 112, 97, 116, 104, 61]   // "executable_path="

  function AppleOf(path: Str): (apple: seq<Str>) {
    [EXECUTABLE_PATH + path]
  }

  /** The bytes of a text in the first 256 characters. */
  function Ascii(text: string): (bs: seq<Byte>) {
    seq(|text|, i requires 0 <= i < |text| => if text[i] as int < 256 then text[i] as int else 63)
  }

  /** The one apple string names the program's path. */
  lemma AppleNamesPath(path: Str)
    ensures AppleOf(path) == [Ascii("executable_path=") + path]
    ensures 0 !in path ==> NulFree(AppleOf(path))
  {
    assert EXECUTABLE_PATH == Ascii("executable_path=");
  }

  method BuildStack(space: AddressSpace, base: int, top: int, argv: seq<Str>, envp: seq<Str>, path: Str)
    returns (sp: int, ghost a: seq<int>, ghost e: seq<int>, ghost p: seq<int>)
    requires 0 < base <= top <= TWO64 && Mapped(space.mem, base, top - base) && |argv| < TWO64
    requires StackPointer(top, argv, envp, AppleOf(path)) >= base
    modifies space
    ensures sp == StackPointer(top, argv, envp, AppleOf(path))
    ensures StackHolds(space.mem, sp, top, argv, envp, AppleOf(path), a, e, p)
    ensures SameOutside(old(space.mem), space.mem, sp, top)
  {
    hide Read64, HoldsVector, HoldsString, EndOf, AlignDown;
    var apple := AppleOf(path);
    var applePtrs, envpPtrs, argvPtrs;
    var s1, s2, s3;
    s1, applePtrs := PushStrings(space, top, apple);
    ghost var m1 := space.mem;
    s2, envpPtrs := PushStrings(space, s1, envp);
    HoldsAllKept(m1, space.mem, applePtrs, apple, s1, top, s2, s1);
    ghost var m2 := space.mem;
    s3, argvPtrs := PushStrings(space, s2, argv);
    HoldsAllKept(m2, space.mem, applePtrs, apple, s1, top, s3, s2);
    HoldsAllKept(m2, space.mem, envpPtrs, envp, s2, s1, s3, s2);
    a, e, p := argvPtrs, envpPtrs, applePtrs;
    var total := 1 + (|argv| + 1) + (|envp| + 1) + (|apple| + 1);
    var s4 := AlignDown(s3, 16);
    if total % 2 != 0 {
      s4 := s4 - 8;
    }
    ghost var m3 := space.mem;
    PointersOk(m3, argvPtrs, argv, s3, s2, top);
    PointersOk(m3, envpPtrs, envp, s2, s1, top);
    PointersOk(m3, applePtrs, apple, s1, top, top);
    sp := PushBlock(space, s4, argvPtrs, envpPtrs, applePtrs);
    StringsKept(m3, space.mem, applePtrs, apple, s1, top, sp, s4, top);
    StringsKept(m3, space.mem, envpPtrs, envp, s2, s1, sp, s4, top);
    StringsKept(m3, space.mem, argvPtrs, argv, s3, s2, sp, s4, top);
  }

  lemma PointersOk(m: Mem, ptrs: seq<int>, strs: seq<Str>, lo: int, hi: int, top: int)
    requires HoldsAll(m, ptrs, strs, lo, hi) && 0 < lo && hi <= top <= TWO64
    ensures |ptrs| == |strs| && forall x :: x in ptrs ==> 0 < x < TWO64
  {
    hide HoldsString;
    assert forall i :: 0 <= i < |ptrs| ==> 0 < ptrs[i] < TWO64;
  }

  lemma StringsKept(m: Mem, m': Mem, ptrs: seq<int>, strs: seq<Str>, lo: int, hi: int, sp: int, block: int, top: int)
    requires HoldsAll(m, ptrs, strs, lo, hi) && SameOutside(m, m', sp, block)
    requires sp <= block <= lo && hi <= top
    ensures HoldsAll(m', ptrs, strs, sp, top)
  {
    hide HoldsString, SameOutside;
    HoldsAllKept(m, m', ptrs, strs, lo, hi, sp, block);
  }

  /** The pointer block: apple, envp and argv vectors, and argc on top. */
  method PushBlock(space: AddressSpace, block: int, argv: seq<int>, envp: seq<int>, apple: seq<int>)
    returns (sp: int)
    requires var n := 8 * (|argv| + |envp| + |apple| + 4); Mapped(space.mem, block - n, n) && |argv| < TWO64
    requires forall x :: x in argv || x in envp || x in apple ==> 0 < x < TWO64
    modifies space
    ensures sp == block - 8 * (|argv| + |envp| + |apple| + 4)
    ensures Mapped(space.mem, sp, 8) && Read64(space.mem, sp) == |argv|
    ensures HoldsVector(space.mem, sp + 8, argv)
    ensures HoldsVector(space.mem, sp + 8 + 8 * (|argv| + 1), envp)
    ensures HoldsVector(space.mem, sp + 8 + 8 * (|argv| + 1) + 8 * (|envp| + 1), apple)
    ensures SameOutside(old(space.mem), space.mem, sp, block)
  {
    hide Read64, HoldsVector;
    var s1 := PushVector(space, block, apple);
    ghost var m1 := space.mem;
    var s2 := PushVector(space, s1, envp);
    VectorKept(m1, space.mem, s1, apple, s2, s1);
    ghost var m2 := space.mem;
    var s3 := PushVector(space, s2, argv);
    VectorKept(m2, space.mem, s1, apple, s3, s2);
    VectorKept(m2, space.mem, s2, envp, s3, s2);
    ghost var m3 := space.mem;
    sp := PushWord(space, s3, |argv|);
    VectorKept(m3, space.mem, s1, apple, sp, s3);
    VectorKept(m3, space.mem, s2, envp, sp, s3);
    VectorKept(m3, space.mem, s3, argv, sp, s3);
  }

  // ---- Reading the stack back ----

  /** What a C program reads at `p`: the bytes up to the first NUL. */
  ghost function ReadString(m: Mem, p: int, limit: int): (s: Str)
    decreases limit - p
  {
    if p >= limit || p !in m || m[p] == 0 then [] else [m[p]] + ReadString(m, p + 1, limit)
  }

  /** What a C program reads from a vector at `a`: the words up to the first zero. */
  ghost function ReadVector(m: Mem, a: int, limit: int): (v: seq<int>)
    decreases limit - a
  {
    if a + 8 > limit || !Mapped(m, a, 8) || Read64(m, a) == 0 then []
    else [Read64(m, a)] + ReadVector(m, a + 8, limit)
  }

  ghost function ReadStrings(m: Mem, ptrs: seq<int>, limit: int): (strs: seq<Str>)
    ensures |strs| == |ptrs|
    ensures forall i :: 0 <= i < |ptrs| ==> strs[i] == ReadString(m, ptrs[i], limit)
  {
    seq(|ptrs|, i requires 0 <= i < |ptrs| => ReadString(m, ptrs[i], limit))
  }

  lemma {:induction false} ReadHeldString(m: Mem, p: int, s: Str, limit: int)
    requires HoldsString(m, p, s) && 0 !in s && p + |s| + 1 <= limit
    ensures ReadString(m, p, limit) == s
    decreases s
  {
    if s == [] {
      assert m[p + |s|] == 0;
    } else {
      assert m[p + 0] == s[0];
      var rest := s[1..];
      forall k | 0 <= k < |rest| ensures m[p + 1 + k] == rest[k] {
        assert m[p + (k + 1)] == s[k + 1];
      }
      assert m[p + |s|] == 0;
      ReadHeldString(m, p + 1, s[1..], limit);
    }
  }

  lemma {:induction false} ReadHeldVector(m: Mem, a: int, v: seq<int>, limit: int)
    requires HoldsVector(m, a, v) && a + 8 * (|v| + 1) <= limit
    requires forall i :: 0 <= i < |v| ==> v[i] != 0
    ensures ReadVector(m, a, limit) == v
    decreases v
  {
    hide Read64;
    if v != [] {
      var rest := v[1..];
      assert Read64(m, a + 8 * 0) == v[0];
      forall i | 0 <= i < |rest| ensures Read64(m, a + 8 + 8 * i) == rest[i] {
        assert Read64(m, a + 8 * (i + 1)) == v[i + 1];
      }
      assert a + 8 + 8 * |rest| == a + 8 * |v|;
      ReadHeldVector(m, a + 8, rest, limit);
    }
  }

  /** A C program that follows the vector at `a` finds the strings `strs`. */
  lemma ReadBack(m: Mem, a: int, ptrs: seq<int>, strs: seq<Str>, lo: int, top: int)
    requires HoldsVector(m, a, ptrs) && HoldsAll(m, ptrs, strs, lo, top)
    requires a + 8 * (|ptrs| + 1) <= top && lo > 0
    requires forall s :: s in strs ==> 0 !in s
    ensures ReadStrings(m, ReadVector(m, a, top), top) == strs
  {
    hide HoldsString, HoldsVector;
    ReadHeldVector(m, a, ptrs, top);
    forall i | 0 <= i < |ptrs| ensures ReadString(m, ptrs[i], top) == strs[i] {
      assert strs[i] in strs;
      ReadHeldString(m, ptrs[i], strs[i], top);
    }
  }

  ghost predicate NulFree(strs: seq<Str>) {
    forall s :: s in strs ==> 0 !in s
  }

  /** Round trip: from the returned pointer a program reads back argc and exactly the three
      NULL-terminated vectors, in the layout of the initial process stack. */
  lemma StackRoundTrip(m: Mem, sp: int, top: int, argv: seq<Str>, envp: seq<Str>, apple: seq<Str>,
                       a: seq<int>, e: seq<int>, p: seq<int>)
    requires StackHolds(m, sp, top, argv, envp, apple, a, e, p)
    requires sp == StackPointer(top, argv, envp, apple) && sp > 0
    requires NulFree(argv) && NulFree(envp) && NulFree(apple)
    ensures sp % 16 == 0 && Read64(m, sp) == |argv|
    ensures var argvAt := sp + 8;
            var envAt := argvAt + 8 * (Read64(m, sp) + 1);
            var appleAt := envAt + 8 * (|ReadVector(m, envAt, top)| + 1);
            && ReadStrings(m, ReadVector(m, argvAt, top), top) == argv
            && ReadStrings(m, ReadVector(m, envAt, top), top) == envp
            && ReadStrings(m, ReadVector(m, appleAt, top), top) == apple
  {
    hide HoldsVector, HoldsAll, EndOf;
    BlockBelowTop(m, sp, top, argv, envp, apple, a, e, p);
    var envAt := sp + 8 + 8 * (|argv| + 1);
    ReadBack(m, sp + 8, a, argv, sp, top);
    ReadBack(m, envAt, e, envp, sp, top);
    ReadBack(m, envAt + 8 * (|envp| + 1), p, apple, sp, top);
  }

  lemma BlockBelowTop(m: Mem, sp: int, top: int, argv: seq<Str>, envp: seq<Str>, apple: seq<Str>,
                      a: seq<int>, e: seq<int>, p: seq<int>)
    requires StackHolds(m, sp, top, argv, envp, apple, a, e, p)
    requires sp == StackPointer(top, argv, envp, apple)
    ensures |a| == |argv| && |e| == |envp| && |p| == |apple|
    ensures sp + 8 + 8 * (|argv| + 1) + 8 * (|envp| + 1) + 8 * (|apple| + 1) <= top
  {
    hide HoldsVector, EndOf;
    hide AlignDown;
  }

  // ---- Register set-up ----

  /** The argument registers at the first instruction of the program. */
  datatype Registers = Registers(rsp: int, rdi: int, rsi: int, rdx: int, rcx: int)

  /** LC_MAIN: the exit stub's address is pushed, and the arguments are passed in registers. */
  method EnterMain(space: AddressSpace, sp: int, exitAddr: nat) returns (r: Registers)
    requires Mapped(space.mem, sp - 8, 16) && exitAddr < TWO64
    modifies space
    ensures SameOutside(old(space.mem), space.mem, sp - 8, sp) && r.rsp == sp - 8
    ensures Mapped(space.mem, sp - 8, 16) && Read64(space.mem, sp) == Read64(old(space.mem), sp)
    ensures Read64(space.mem, r.rsp) == exitAddr
    ensures var argc := Read64(space.mem, sp);
            r == Registers(sp - 8, argc, sp + 8, sp + 8 + 8 * (argc + 1), sp + 8 + 8 * (argc + 1))
  {
    hide Read64;
    var finalStack := PushWord(space, sp, exitAddr);
    Read64Same(old(space.mem), space.mem, sp);
    var rsp := finalStack;
    var rdi := Read64(space.mem, rsp + 8);
    var rsi := rsp + 16;
    var rdx := rsp + 16 + rdi * 8 + 8;
    var rcx := rdx;
    r := Registers(rsp, rdi, rsi, rdx, rcx);
  }

  /** LC_MAIN hands over argc, argv and envp, on a stack aligned as after a call (System V AMD64
      ABI, section 3.2.2). */
  lemma MainArguments(m0: Mem, m: Mem, r: Registers, sp: int, top: int, argv: seq<Str>, envp: seq<Str>,
                      apple: seq<Str>, a: seq<int>, e: seq<int>, p: seq<int>)
    requires StackHolds(m0, sp, top, argv, envp, apple, a, e, p)
    requires sp == StackPointer(top, argv, envp, apple) && sp > 0
    requires NulFree(argv) && NulFree(envp) && NulFree(apple)
    requires SameOutside(m0, m, sp - 8, sp)
    requires r == Registers(sp - 8, |argv|, sp + 8, sp + 8 + 8 * (|argv| + 1), sp + 8 + 8 * (|argv| + 1))
    ensures (r.rsp + 8) % 16 == 0
    ensures r.rdi == |ReadVector(m, r.rsi, top)| == |argv|
    ensures ReadStrings(m, ReadVector(m, r.rsi, top), top) == argv
    ensures ReadStrings(m, ReadVector(m, r.rdx, top), top) == envp
  {
    hide HoldsVector, HoldsAll, EndOf, Read64, StackHolds;
    HoldsAfterPush(m0, m, sp, top, argv, envp, apple, a, e, p);
    StackRoundTrip(m, sp, top, argv, envp, apple, a, e, p);
  }

  lemma HoldsAfterPush(m0: Mem, m: Mem, sp: int, top: int, argv: seq<Str>, envp: seq<Str>, apple: seq<Str>,
                       a: seq<int>, e: seq<int>, p: seq<int>)
    requires StackHolds(m0, sp, top, argv, envp, apple, a, e, p) && SameOutside(m0, m, sp - 8, sp)
    ensures StackHolds(m, sp, top, argv, envp, apple, a, e, p)
  {
    hide HoldsVector, HoldsString, Read64;
    Read64Same(m0, m, sp);
    var envAt := sp + 8 + 8 * (|argv| + 1);
    VectorKept(m0, m, sp + 8, a, sp - 8, sp);
    VectorKept(m0, m, envAt, e, sp - 8, sp);
    VectorKept(m0, m, envAt + 8 * (|envp| + 1), p, sp - 8, sp);
    HoldsAllKept(m0, m, a, argv, sp, top, sp - 8, sp);
    HoldsAllKept(m0, m, e, envp, sp, top, sp - 8, sp);
    HoldsAllKept(m0, m, p, apple, sp, top, sp - 8, sp);
  }

  /** The fourth register does not carry the apple vector, as Darwin's main expects: it is a second
      copy of envp, whatever the strings are. A program that reads it sees its environment. */
  lemma FourthArgumentIsNotApple(m0: Mem, m: Mem, r: Registers, sp: int, top: int, argv: seq<Str>, envp: seq<Str>,
                                 apple: seq<Str>, a: seq<int>, e: seq<int>, p: seq<int>)
    requires StackHolds(m0, sp, top, argv, envp, apple, a, e, p)
    requires sp == StackPointer(top, argv, envp, apple) && sp > 0
    requires NulFree(argv) && NulFree(envp) && NulFree(apple)
    requires SameOutside(m0, m, sp - 8, sp)
    requires r == Registers(sp - 8, |argv|, sp + 8, sp + 8 + 8 * (|argv| + 1), sp + 8 + 8 * (|argv| + 1))
    ensures ReadStrings(m, ReadVector(m, r.rcx, top), top) == envp
    ensures ReadStrings(m, ReadVector(m, r.rcx, top), top) == apple <==> envp == apple
    ensures r.rcx != sp + 8 + 8 * (|argv| + 1) + 8 * (|envp| + 1)
  {
    hide StackHolds, SameOutside, EndOf, Read64;
    MainArguments(m0, m, r, sp, top, argv, envp, apple, a, e, p);
  }
}
