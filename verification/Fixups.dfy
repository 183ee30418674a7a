/** Chained fixups: the format of the links, what a relocated image is, and how the
in-place walk of `apply_fixups` produces it.
*/
module Fixups {
  import opened Memory

  type U64 = x: int | 0 <= x < TWO64

  // ---- Encoded pointers: dyld_chained_ptr_64_rebase and dyld_chained_ptr_64_bind ----

  datatype Fixup =
    | Rebase(target: nat, high8: nat)
    | Bind(ordinal: nat, addend: nat)
  {
    predicate Fits() {
      match this
      case Rebase(t, h) => t < 0x10_0000_0000 && h < 256
      case Bind(o, d) => o < 0x100_0000 && d < 256
    }
  }

  const PTR_64 := 1
  const PTR_64_OFFSET := 6

  predicate Supported(format: int) {
    format == PTR_64 || format == PTR_64_OFFSET
  }

  /** Distance to the next slot in 4-byte strides; 0 ends the chain. */
  function Link(w: U64): (n: nat)
    ensures n < 4096
  {
    (w / 0x8_0000_0000_0000) % 4096
  }

  function FixupOf(w: U64): (f: Fixup)
    ensures f.Fits()
  {
    if w / 0x8000_0000_0000_0000 != 0 then Bind(w % 0x100_0000, (w / 0x100_0000) % 256)
    else Rebase(w % 0x10_0000_0000, (w / 0x10_0000_0000) % 256)
  }

  function Encode(f: Fixup, next: nat): (w: U64)
    requires f.Fits() && next < 4096
  {
    match f
    case Rebase(t, h) => t + h * 0x10_0000_0000 + next * 0x8_0000_0000_0000
    case Bind(o, d) => o + d * 0x100_0000 + next * 0x8_0000_0000_0000 + 0x8000_0000_0000_0000
  }

  lemma EncodeDecode(f: Fixup, next: nat)
    requires f.Fits() && next < 4096
    ensures FixupOf(Encode(f, next)) == f
    ensures Link(Encode(f, next)) == next
  {
    match f
    case Rebase(t, h) => EncodeDecodeRebase(t, h, next);
    case Bind(o, d) => EncodeDecodeBind(o, d, next);
  }

  lemma EncodeDecodeRebase(t: nat, h: nat, next: nat)
    requires Rebase(t, h).Fits() && next < 4096
    ensures FixupOf(Encode(Rebase(t, h), next)) == Rebase(t, h) && Link(Encode(Rebase(t, h), next)) == next
  {
    Pack(t, h + next * 0x8000, 0x10_0000_0000);
    Pack(h, next * 0x80, 256);
    Pack(t + h * 0x10_0000_0000, next, 0x8_0000_0000_0000);
  }

  lemma EncodeDecodeBind(o: nat, d: nat, next: nat)
    requires Bind(o, d).Fits() && next < 4096
    ensures FixupOf(Encode(Bind(o, d), next)) == Bind(o, d) && Link(Encode(Bind(o, d), next)) == next
  {
    Pack(o, d + next * 0x800_0000 + 0x80_0000_0000, 0x100_0000);
    Pack(d, next * 0x8_0000 + 0x8000_0000, 256);
    Pack(o + d * 0x100_0000, next + 4096, 0x8_0000_0000_0000);
    Pack(next, 1, 4096);
    Pack(o + d * 0x100_0000 + next * 0x8_0000_0000_0000, 1, 0x8000_0000_0000_0000);
  }

  function SignExtend8(b: nat): (r: int)
    requires b < 256
  {
    if b < 128 then b else b - 256
  }

  /** The offset a rebase denotes: format 1 carries the top byte separately. */
  function RebaseOffset(format: int, target: nat, high8: nat): (r: nat)
  {
    if format == PTR_64 then high8 * 0x100_0000_0000_0000 + target else target
  }

  /** What a slot holds after relocation. A target of zero stays null; an import that is
      missing from the table, or resolved to null, binds to null. */
  function Value(format: int, f: Fixup, imports: seq<U64>, load: int): (v: U64)
  {
    match f
    case Rebase(t, h) =>
      var off := RebaseOffset(format, t, h);
      if off == 0 then 0 else Wrap64(load + off)
    case Bind(o, d) =>
      var base := if o < |imports| then imports[o] else 0;
      if format == PTR_64 then base
      else if base == 0 then 0
      else if d < 256 then Wrap64(base + SignExtend8(d))
      else 0
  }

  // ---- Chains in memory ----

  datatype Slot = Slot(addr: int, format: int)

  /** The address the link at `a` leads to; `a` itself at the end of the chain. */
  ghost function Follow(m: Mem, a: int): (r: int)
    requires Mapped(m, a, 8)
    ensures r >= a
  {
    a + 4 * Link(Read64(m, a))
  }

  /** Every slot of the chain that starts at `a` is mapped. */
  ghost predicate ChainOk(m: Mem, a: int)
    decreases TWO64 - a
  {
    && a + 8 <= TWO64
    && Mapped(m, a, 8)
    && (Follow(m, a) > a ==> ChainOk(m, Follow(m, a)))
  }

  /** The slots of a chain, in walking order, as the links of `m` describe them. */
  ghost function ChainSlots(m: Mem, a: int, format: int): (s: seq<Slot>)
    ensures forall k :: 0 <= k < |s| ==> Mapped(m, s[k].addr, 8) && s[k].format == format
    decreases TWO64 - a
  {
    if a + 8 > TWO64 || !Mapped(m, a, 8) then []
    else [Slot(a, format)] + if Follow(m, a) == a then [] else ChainSlots(m, Follow(m, a), format)
  }

  /** The fixups a chain encodes, in walking order. */
  ghost function ChainFixups(m: Mem, a: int): (s: seq<Fixup>)
    decreases TWO64 - a
  {
    if a + 8 > TWO64 || !Mapped(m, a, 8) then []
    else [FixupOf(Read64(m, a))] + if Follow(m, a) == a then [] else ChainFixups(m, Follow(m, a))
  }

  ghost predicate PairwiseDisjoint(s: seq<Slot>) {
    forall i, k :: 0 <= i < k < |s| ==> Disjoint(s[i].addr, 8, s[k].addr, 8)
  }

  ghost predicate InSomeSlot(x: int, s: seq<Slot>) {
    exists k :: 0 <= k < |s| && InRange(x, s[k].addr, 8)
  }

  /** `m1` is `m0` with every slot of `s` replaced by the value its original word decodes
      to, and with every other byte untouched. */
  ghost predicate Relocated(m0: Mem, m1: Mem, s: seq<Slot>, imports: seq<U64>, load: int) {
    && m1.Keys == m0.Keys
    && (forall k :: 0 <= k < |s| ==>
          && Mapped(m0, s[k].addr, 8)
          && Read64(m1, s[k].addr) == Value(s[k].format, FixupOf(Read64(m0, s[k].addr)), imports, load))
    && (forall x :: x in m0 && !InSomeSlot(x, s) ==> m1[x] == m0[x])
  }

  /** A slot that no earlier slot overlaps still holds its original word. */
  lemma UnvisitedSlotIntact(m0: Mem, m: Mem, s: seq<Slot>, a: int, imports: seq<U64>, load: int)
    requires Relocated(m0, m, s, imports, load)
    requires Mapped(m0, a, 8)
    requires forall k :: 0 <= k < |s| ==> Disjoint(s[k].addr, 8, a, 8)
    ensures Read64(m, a) == Read64(m0, a)
  {
    Read64Same(m0, m, a);
  }

  /** Relocating the next slot of `s` extends the relocated prefix by one. */
  lemma RelocateNext(m0: Mem, m: Mem, s: seq<Slot>, n: nat, imports: seq<U64>, load: int)
    requires n < |s| && PairwiseDisjoint(s)
    requires Relocated(m0, m, s[..n], imports, load)
    requires Mapped(m0, s[n].addr, 8)
    ensures Read64(m, s[n].addr) == Read64(m0, s[n].addr)
    ensures var v := Value(s[n].format, FixupOf(Read64(m0, s[n].addr)), imports, load);
            Relocated(m0, Write64(m, s[n].addr, v), s[..n + 1], imports, load)
  {
    hide Read64, Write64, Value, FixupOf;
    var a := s[n].addr;
    UnvisitedSlotIntact(m0, m, s[..n], a, imports, load);
    var v := Value(s[n].format, FixupOf(Read64(m0, a)), imports, load);
    var m1 := Write64(m, a, v);
    Read64AfterWrite64(m, a, v);
    forall k | 0 <= k < n
      ensures Mapped(m0, s[k].addr, 8) && Read64(m1, s[k].addr) == Read64(m, s[k].addr)
    {
      assert s[..n][k] == s[k];
      Read64Same(m, m1, s[k].addr);
    }
    forall x | x in m0 && !InSomeSlot(x, s[..n + 1]) ensures m1[x] == m0[x] {
      OutsideShorter(x, s, n);
    }
    assert forall k :: 0 <= k < n ==> s[..n][k] == s[k] == s[..n + 1][k];
  }

  lemma OutsideShorter(x: int, s: seq<Slot>, n: nat)
    requires n < |s| && !InSomeSlot(x, s[..n + 1])
    ensures !InSomeSlot(x, s[..n]) && !InRange(x, s[n].addr, 8)
  {
    assert s[..n + 1][n] == s[n];
    assert forall k :: 0 <= k < n ==> s[..n][k] == s[..n + 1][k];
  }

  lemma ChainStep(m: Mem, a: int, format: int)
    requires ChainOk(m, a)
    ensures a + 8 <= TWO64 && Mapped(m, a, 8)
    ensures Follow(m, a) > a ==>
      ChainOk(m, Follow(m, a)) && ChainSlots(m, a, format) == [Slot(a, format)] + ChainSlots(m, Follow(m, a), format)
    ensures Follow(m, a) == a ==> ChainSlots(m, a, format) == [Slot(a, format)]
  {
  }

  /** One turn of the `loop` of `apply_fixups`: read the word, write its value over it. */
  method PatchSlot(space: AddressSpace, chainPtr: int, format: int, imports: seq<U64>, load: int,
                   ghost m0: Mem, ghost all: seq<Slot>, ghost n: nat)
    returns (next: nat)
    requires n < |all| && PairwiseDisjoint(all)
    requires all[n] == Slot(chainPtr, format) && Mapped(m0, chainPtr, 8)
    requires Relocated(m0, space.mem, all[..n], imports, load)
    modifies space
    ensures Relocated(m0, space.mem, all[..n + 1], imports, load)
    ensures chainPtr + 4 * next == Follow(m0, chainPtr)
  {
    RelocateNext(m0, space.mem, all, n, imports, load);
    var encoded := Read64(space.mem, chainPtr);
    next := Link(encoded);
    var addr := Value(format, FixupOf(encoded), imports, load);
    space.mem := Write64(space.mem, chainPtr, addr);
  }

  /** The `loop` of `apply_fixups` on one chain. The links are read from the memory that
      is being rewritten; they are the original ones because no two slots overlap. */
  method WalkChain(space: AddressSpace, start: int, format: int, imports: seq<U64>, load: int,
                   ghost m0: Mem, ghost done: seq<Slot>)
    requires ChainOk(m0, start)
    requires Relocated(m0, space.mem, done, imports, load)
    requires PairwiseDisjoint(done + ChainSlots(m0, start, format))
    modifies space
    ensures Relocated(m0, space.mem, done + ChainSlots(m0, start, format), imports, load)
  {
    hide *;
    var chainPtr := start;
    ghost var all := done + ChainSlots(m0, start, format);
    ghost var n := |done|;
    assert all[..n] == done;
    while true
      invariant ChainOk(m0, chainPtr)
      invariant n <= |all| && all[n..] == ChainSlots(m0, chainPtr, format)
      invariant Relocated(m0, space.mem, all[..n], imports, load)
      decreases TWO64 - chainPtr
    {
      ChainStep(m0, chainPtr, format);
      assert all[n] == all[n..][0];
      ghost var target := Follow(m0, chainPtr);
      var next := PatchSlot(space, chainPtr, format, imports, load, m0, all, n);
      n := n + 1;
      assert all[n..] == all[n - 1..][1..];
      if next == 0 {
        assert all[..n] == all;
        return;
      }
      chainPtr := chainPtr + 4 * next;
      assert chainPtr == target;
    }
  }

  // ---- Layout and walk are inverse ----

  ghost function Extent(gaps: seq<nat>): (n: nat) {
    if gaps == [] then 8 else 4 * gaps[0] + Extent(gaps[1..])
  }

  /** Write `fs` as a chain from `a` on, each slot `4 * gap` bytes after the previous one. */
  ghost function Layout(m: Mem, a: int, fs: seq<Fixup>, gaps: seq<nat>): (r: Mem)
    requires |fs| == |gaps| + 1
    requires forall k :: 0 <= k < |fs| ==> fs[k].Fits()
    requires forall k :: 0 <= k < |gaps| ==> 2 <= gaps[k] < 4096
    ensures r.Keys == m.Keys
    ensures forall x :: x in m && x < a ==> r[x] == m[x]
    decreases gaps
  {
    if gaps == [] then Write64(m, a, Encode(fs[0], 0))
    else Layout(Write64(m, a, Encode(fs[0], gaps[0])), a + 4 * gaps[0], fs[1..], gaps[1..])
  }

  /** Where the k-th slot of a laid-out chain stands. */
  function SlotAddr(a: int, gaps: seq<nat>, k: nat): (r: int)
    requires k <= |gaps|
    ensures r >= a
    decreases k
  {
    if k == 0 then a else SlotAddr(a + 4 * gaps[0], gaps[1..], k - 1)
  }

  ghost predicate LayoutOk(m: Mem, a: int, fs: seq<Fixup>, gaps: seq<nat>) {
    && |fs| == |gaps| + 1
    && (forall k :: 0 <= k < |fs| ==> fs[k].Fits())
    && (forall k :: 0 <= k < |gaps| ==> 2 <= gaps[k] < 4096)
    && a + Extent(gaps) <= TWO64 && Mapped(m, a, Extent(gaps))
  }

  /** The chain that `m` holds from `a` on has its slots where `gaps` puts them. */
  ghost predicate SlotsAt(m: Mem, a: int, gaps: seq<nat>, format: int) {
    && |ChainSlots(m, a, format)| == |gaps| + 1
    && forall k :: 0 <= k <= |gaps| ==> ChainSlots(m, a, format)[k].addr == SlotAddr(a, gaps, k)
  }

  /** The links of a laid-out chain lead through its slots, and the words hold the list, in order. */
  lemma {:induction false} LayoutChain(m: Mem, a: int, fs: seq<Fixup>, gaps: seq<nat>, format: int)
    requires LayoutOk(m, a, fs, gaps)
    ensures ChainOk(Layout(m, a, fs, gaps), a)
    ensures ChainFixups(Layout(m, a, fs, gaps), a) == fs
    ensures SlotsAt(Layout(m, a, fs, gaps), a, gaps, format)
    decreases gaps
  {
    hide Read64, Write64, Encode, FixupOf, Link;
    var r := Layout(m, a, fs, gaps);
    var next := if gaps == [] then 0 else gaps[0];
    var m1 := Write64(m, a, Encode(fs[0], next));
    LinkWritten(m, a, fs[0], next);
    assert fs == [fs[0]] + fs[1..];
    if gaps != [] {
      LayoutChain(m1, a + 4 * next, fs[1..], gaps[1..], format);
      Read64Same(m1, r, a);
      assert Follow(r, a) == a + 4 * next;
    } else {
      assert Follow(r, a) == a;
    }
  }

  /** The fixups of a chain are what the words in its slots encode. */
  lemma {:induction false} FixupsAtSlots(m: Mem, a: int, format: int)
    ensures |ChainFixups(m, a)| == |ChainSlots(m, a, format)|
    ensures forall k :: 0 <= k < |ChainSlots(m, a, format)| ==>
              ChainFixups(m, a)[k] == FixupOf(Read64(m, ChainSlots(m, a, format)[k].addr))
    decreases TWO64 - a
  {
    hide Read64, FixupOf, Link;
    if a + 8 <= TWO64 && Mapped(m, a, 8) && Follow(m, a) > a {
      FixupsAtSlots(m, Follow(m, a), format);
    }
  }

  /** Links of at least 2 keep the slots apart. */
  lemma {:induction false} SlotsSpaced(a: int, gaps: seq<nat>, i: nat, k: nat)
    requires forall j :: 0 <= j < |gaps| ==> 2 <= gaps[j]
    requires i < k <= |gaps|
    ensures SlotAddr(a, gaps, i) + 8 <= SlotAddr(a, gaps, k)
    decreases i
  {
    if i > 0 {
      SlotsSpaced(a + 4 * gaps[0], gaps[1..], i - 1, k - 1);
    }
  }

  /** Laying a list out writes its slots and nothing else. */
  lemma {:induction false} LayoutElsewhere(m: Mem, a: int, fs: seq<Fixup>, gaps: seq<nat>, x: int)
    requires LayoutOk(m, a, fs, gaps) && x in m && OutsideSlots(x, a, gaps)
    ensures Layout(m, a, fs, gaps)[x] == m[x]
    decreases gaps
  {
    hide Write64, Encode, OutsideSlots;
    OutsideRest(x, a, gaps);
    if gaps != [] {
      var m1 := Write64(m, a, Encode(fs[0], gaps[0]));
      LayoutElsewhere(m1, a + 4 * gaps[0], fs[1..], gaps[1..], x);
    }
  }

  lemma OutsideRest(x: int, a: int, gaps: seq<nat>)
    requires OutsideSlots(x, a, gaps)
    ensures !InRange(x, a, 8)
    ensures gaps != [] ==> OutsideSlots(x, a + 4 * gaps[0], gaps[1..])
  {
    assert SlotAddr(a, gaps, 0) == a;
    if gaps != [] {
      var b, rest := a + 4 * gaps[0], gaps[1..];
      forall k | 0 <= k <= |rest| ensures !InRange(x, SlotAddr(b, rest, k), 8) {
        assert SlotAddr(a, gaps, k + 1) == SlotAddr(b, rest, k);
      }
    }
  }

  /** Round trip: a list of rebases and binds laid out as a chain is one the in-place walk accepts,
      and whatever memory `r` the walk then leaves holds the values of exactly that list, in order,
      at the places it was laid out; all other bytes are those from before the layout. */
  lemma LayoutWalk(m: Mem, a: int, fs: seq<Fixup>, gaps: seq<nat>, format: int, r: Mem, imports: seq<U64>, load: int)
    requires LayoutOk(m, a, fs, gaps)
    ensures var laid := Layout(m, a, fs, gaps);
            && ChainOk(laid, a) && PairwiseDisjoint(ChainSlots(laid, a, format))
            && (Relocated(laid, r, ChainSlots(laid, a, format), imports, load) ==>
                  HoldsValues(m, r, a, fs, gaps, format, imports, load))
  {
    hide Layout, ChainOk, ChainFixups, ChainSlots, Read64, FixupOf, Value;
    var laid := Layout(m, a, fs, gaps);
    var slots := ChainSlots(laid, a, format);
    LayoutChain(m, a, fs, gaps, format);
    FixupsAtSlots(laid, a, format);
    forall i, k | 0 <= i < k < |slots| ensures Disjoint(slots[i].addr, 8, slots[k].addr, 8) {
      SlotsSpaced(a, gaps, i, k);
    }
    if Relocated(laid, r, slots, imports, load) {
      forall x | x in m && OutsideSlots(x, a, gaps) ensures r[x] == m[x] {
        LayoutElsewhere(m, a, fs, gaps, x);
      }
    }
  }

  ghost predicate OutsideSlots(x: int, a: int, gaps: seq<nat>) {
    forall k :: 0 <= k <= |gaps| ==> !InRange(x, SlotAddr(a, gaps, k), 8)
  }

  /** The values of `fs` stand where `gaps` puts them, and nothing else differs from `m`. */
  ghost predicate HoldsValues(m: Mem, r: Mem, a: int, fs: seq<Fixup>, gaps: seq<nat>, format: int,
                              imports: seq<U64>, load: int)
    requires |fs| == |gaps| + 1
  {
    && r.Keys == m.Keys
    && (forall k :: 0 <= k < |fs| ==>
          Mapped(r, SlotAddr(a, gaps, k), 8) && Read64(r, SlotAddr(a, gaps, k)) == Value(format, fs[k], imports, load))
    && (forall x :: x in m && OutsideSlots(x, a, gaps) ==> r[x] == m[x])
  }

  lemma LinkWritten(m: Mem, a: int, f: Fixup, next: nat)
    requires f.Fits() && next < 4096 && Mapped(m, a, 8)
    ensures var r := Write64(m, a, Encode(f, next));
            FixupOf(Read64(r, a)) == f && Link(Read64(r, a)) == next
  {
    Read64AfterWrite64(m, a, Encode(f, next));
    EncodeDecode(f, next);
  }
}
