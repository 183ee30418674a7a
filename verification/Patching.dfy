/** Lifecycle patches: functions overwritten with a jump, and put back afterwards. Sites may
overlap, repeat, or refuse to be patched.
*/
module Patching {
  import opened Memory
  import opened MachO
  import opened X86

  const PATCH_SIZE: nat := 12
  const SAVE_SIZE: nat := 32

  /** mov rax, replacement; jmp rax */
  function JumpCode(replacement: Word): (code: seq<Byte>)
    ensures |code| == PATCH_SIZE
  {
    [0x48, 0xB8] + ToLE(replacement, 8) + [0xFF, 0xE0]
  }

  datatype Site = Site(addr: nat, original: seq<Byte>, size: nat, replacement: Word)

  /** A function to patch, and where the dynamic linker found it (0 when it did not). */
  datatype Target = Target(addr: nat, size: nat, replacement: Word)

  ghost predicate TargetOk(m: Mem, t: Target) {
    t.addr != 0 ==> PATCH_SIZE <= t.size <= SAVE_SIZE && Mapped(m, t.addr, t.size)
  }

  ghost predicate TargetsOk(m: Mem, ts: seq<Target>) {
    forall i :: 0 <= i < |ts| ==> TargetOk(m, ts[i])
  }

  /** The site remembers the bytes `m` holds, however many they are. */
  ghost predicate Saves(m: Mem, s: Site) {
    && s.size <= |s.original| && Mapped(m, s.addr, s.size)
    && s.original[..s.size] == ReadBytes(m, s.addr, s.size)
  }

  ghost predicate AllSaved(m: Mem, sites: seq<Site>) {
    forall i :: 0 <= i < |sites| ==> Saves(m, sites[i])
  }

  /** Each site saved at least what a patch overwrites, as all sites of the source do. */
  predicate LongEnough(sites: seq<Site>) {
    forall i :: 0 <= i < |sites| ==> sites[i].size >= PATCH_SIZE
  }

  ghost predicate Covered(x: int, sites: seq<Site>) {
    exists i :: 0 <= i < |sites| && InRange(x, sites[i].addr, sites[i].size)
  }

  /** `m` is `m0` except on bytes that some site saved. */
  ghost predicate SameElsewhere(m0: Mem, m: Mem, sites: seq<Site>) {
    m.Keys == m0.Keys && forall x :: x in m0 && !Covered(x, sites) ==> m[x] == m0[x]
  }

  // ---- Values ----

  function PatchAt(m: Mem, s: Site, ok: bool): (r: Mem)
    ensures r.Keys == m.Keys
  {
    if s.addr == 0 || !ok then m else WriteBytes(m, s.addr, JumpCode(s.replacement))
  }

  /** Patch the first `n` sites; `oks[i]` tells whether the page of site `i` could be unlocked. */
  function ApplyAll(m: Mem, sites: seq<Site>, oks: seq<bool>, n: nat): (r: Mem)
    requires n <= |sites| && |oks| == |sites|
    ensures r.Keys == m.Keys
  {
    if n == 0 then m else PatchAt(ApplyAll(m, sites, oks, n - 1), sites[n - 1], oks[n - 1])
  }

  /** What restoring a site writes. */
  function Original(s: Site): (bs: seq<Byte>) {
    if s.size <= |s.original| then s.original[..s.size] else s.original
  }

  function RestoreAll(m: Mem, sites: seq<Site>, n: nat): (r: Mem)
    requires n <= |sites|
    ensures r.Keys == m.Keys
  {
    if n == 0 then m else WriteBytes(RestoreAll(m, sites, n - 1), sites[n - 1].addr, Original(sites[n - 1]))
  }

  /** The site that saves `t`: the first `size` bytes, in a buffer of 32. */
  function SiteFor(m: Mem, t: Target): (s: Site)
    requires t.size <= SAVE_SIZE && Mapped(m, t.addr, t.size)
    ensures s.addr == t.addr && s.size == t.size && s.replacement == t.replacement
  {
    Site(t.addr, ReadBytes(m, t.addr, t.size) + seq(SAVE_SIZE - t.size, i => 0), t.size, t.replacement)
  }

  /** One site for each of the first `n` targets that the dynamic linker found. */
  ghost function SitesFor(m: Mem, ts: seq<Target>, n: nat): (sites: seq<Site>)
    requires TargetsOk(m, ts) && n <= |ts|
  {
    if n == 0 then []
    else
      SitesFor(m, ts, n - 1) +
      if ts[n - 1].addr == 0 then [] else assert TargetOk(m, ts[n - 1]); [SiteFor(m, ts[n - 1])]
  }

  // ---- Methods ----

  /** The saving loop: all originals are read before anything is patched. */
  method SaveOriginals(space: AddressSpace, targets: seq<Target>) returns (sites: seq<Site>)
    requires TargetsOk(space.mem, targets)
    ensures sites == SitesFor(space.mem, targets, |targets|) && AllSaved(space.mem, sites) && LongEnough(sites)
    ensures SitesMatch(sites, targets, |targets|)
  {
    hide Saves, SiteFor;
    sites := [];
    for i := 0 to |targets|
      invariant sites == SitesFor(space.mem, targets, i)
    {
      var t := targets[i];
      assert TargetOk(space.mem, t);
      if t.addr == 0 {
        assert sites + [] == sites;
        continue;
      }
      var original := [];
      for k := 0 to t.size
        invariant original == ReadBytes(space.mem, t.addr, k)
      {
        original := original + [space.mem[t.addr + k]];
      }
      var padding := seq(SAVE_SIZE - t.size, i => 0);
      SiteParts(space.mem, t, original, padding);
      sites := sites + [Site(t.addr, original + padding, t.size, t.replacement)];
    }
    SitesSaved(space.mem, targets, |targets|);
    SitesComplete(space.mem, targets, |targets|);
  }

  predicate IsSiteOf(s: Site, t: Target) {
    s.addr == t.addr && s.size == t.size && s.replacement == t.replacement
  }

  ghost predicate HasSite(sites: seq<Site>, t: Target) {
    exists k :: 0 <= k < |sites| && IsSiteOf(sites[k], t)
  }

  ghost predicate OfTarget(s: Site, ts: seq<Target>, n: nat)
    requires n <= |ts|
  {
    exists i :: 0 <= i < n && ts[i].addr != 0 && IsSiteOf(s, ts[i])
  }

  /** Every function found among the first `n` has its site, and every site is that of one of them. */
  ghost predicate SitesMatch(sites: seq<Site>, ts: seq<Target>, n: nat)
    requires n <= |ts|
  {
    && (forall i :: 0 <= i < n && ts[i].addr != 0 ==> HasSite(sites, ts[i]))
    && (forall k :: 0 <= k < |sites| ==> OfTarget(sites[k], ts, n))
  }

  lemma {:induction false} SitesComplete(m: Mem, ts: seq<Target>, n: nat)
    requires TargetsOk(m, ts) && n <= |ts|
    ensures SitesMatch(SitesFor(m, ts, n), ts, n)
  {
    hide SiteFor, HasSite, OfTarget;
    if n > 0 {
      SitesComplete(m, ts, n - 1);
      assert TargetOk(m, ts[n - 1]);
      var before := SitesFor(m, ts, n - 1);
      if ts[n - 1].addr == 0 {
        assert before + [] == before;
        NextSites(before, [], ts, n);
      } else {
        NextSites(before, [SiteFor(m, ts[n - 1])], ts, n);
      }
    }
  }

  lemma NextSites(before: seq<Site>, more: seq<Site>, ts: seq<Target>, n: nat)
    requires 0 < n <= |ts| && SitesMatch(before, ts, n - 1)
    requires if ts[n - 1].addr == 0 then more == [] else |more| == 1 && IsSiteOf(more[0], ts[n - 1])
    ensures SitesMatch(before + more, ts, n)
  {
    hide HasSite, OfTarget, IsSiteOf;
    var sites := before + more;
    forall i | 0 <= i < n && ts[i].addr != 0 ensures HasSite(sites, ts[i]) {
      if i < n - 1 {
        SiteStays(before, more, ts[i]);
      } else {
        SiteAdded(before, more, ts[i]);
      }
    }
    forall k | 0 <= k < |sites| ensures OfTarget(sites[k], ts, n) {
      if k < |before| {
        assert sites[k] == before[k];
        TargetStays(before[k], ts, n);
      } else {
        LastTarget(sites[k], ts, n);
      }
    }
  }

  lemma SiteStays(before: seq<Site>, more: seq<Site>, t: Target)
    requires HasSite(before, t)
    ensures HasSite(before + more, t)
  {
    var k :| 0 <= k < |before| && IsSiteOf(before[k], t);
    assert (before + more)[k] == before[k];
  }

  lemma SiteAdded(before: seq<Site>, more: seq<Site>, t: Target)
    requires |more| == 1 && IsSiteOf(more[0], t)
    ensures HasSite(before + more, t)
  {
    assert (before + more)[|before|] == more[0];
  }

  lemma TargetStays(s: Site, ts: seq<Target>, n: nat)
    requires 0 < n <= |ts| && OfTarget(s, ts, n - 1)
    ensures OfTarget(s, ts, n)
  {
  }

  lemma LastTarget(s: Site, ts: seq<Target>, n: nat)
    requires 0 < n <= |ts| && ts[n - 1].addr != 0 && IsSiteOf(s, ts[n - 1])
    ensures OfTarget(s, ts, n)
  {
  }

  lemma SiteParts(m: Mem, t: Target, bytes: seq<Byte>, padding: seq<Byte>)
    requires t.size <= SAVE_SIZE && Mapped(m, t.addr, t.size) && bytes == ReadBytes(m, t.addr, t.size)
    requires padding == seq(SAVE_SIZE - t.size, i => 0)
    ensures SiteFor(m, t) == Site(t.addr, bytes + padding, t.size, t.replacement)
  {
  }

  lemma {:induction false} SitesSaved(m: Mem, ts: seq<Target>, n: nat)
    requires TargetsOk(m, ts) && n <= |ts|
    ensures AllSaved(m, SitesFor(m, ts, n)) && LongEnough(SitesFor(m, ts, n))
  {
    if n > 0 {
      SitesSaved(m, ts, n - 1);
      var t := ts[n - 1];
      assert TargetOk(m, t);
      if t.addr != 0 {
        assert SiteFor(m, t).original[..t.size] == ReadBytes(m, t.addr, t.size);
      }
    }
  }

  /** Writing two pieces one after the other is writing their concatenation. */
  lemma WriteWrite(m: Mem, a: int, bs: seq<Byte>, cs: seq<Byte>)
    ensures WriteBytes(WriteBytes(m, a, bs), a + |bs|, cs) == WriteBytes(m, a, bs + cs)
  {
  }

  method PatchFunctionAt(space: AddressSpace, target: nat, replacement: Word, unlocked: bool)
    requires target != 0 ==> Mapped(space.mem, target, PATCH_SIZE)
    modifies space
    ensures space.mem == if target == 0 || !unlocked then old(space.mem)
                         else WriteBytes(old(space.mem), target, JumpCode(replacement))
  {
    hide ToLE, WriteBytes;
    if target == 0 || !unlocked {
      return;
    }
    ghost var m0 := space.mem;
    var imm := ToLE(replacement, 8);
    space.mem := WriteBytes(space.mem, target, [0x48, 0xB8]);
    space.mem := WriteBytes(space.mem, target + 2, imm);
    WriteWrite(m0, target, [0x48, 0xB8], imm);
    space.mem := WriteBytes(space.mem, target + 10, [0xFF, 0xE0]);
    WriteWrite(m0, target, [0x48, 0xB8] + imm, [0xFF, 0xE0]);
  }

  method ApplyLifecyclePatches(space: AddressSpace, sites: seq<Site>, oks: seq<bool>)
    requires |oks| == |sites|
    requires forall i :: 0 <= i < |sites| ==> Mapped(space.mem, sites[i].addr, PATCH_SIZE)
    modifies space
    ensures space.mem == ApplyAll(old(space.mem), sites, oks, |sites|)
  {
    for i := 0 to |sites|
      invariant space.mem == ApplyAll(old(space.mem), sites, oks, i)
    {
      PatchFunctionAt(space, sites[i].addr, sites[i].replacement, oks[i]);
    }
  }

  method RestoreLifecyclePatches(space: AddressSpace, sites: seq<Site>)
    requires forall i :: 0 <= i < |sites| ==> Mapped(space.mem, sites[i].addr, |Original(sites[i])|)
    modifies space
    ensures space.mem == RestoreAll(old(space.mem), sites, |sites|)
  {
    for i := 0 to |sites|
      invariant space.mem == RestoreAll(old(space.mem), sites, i)
    {
      space.mem := WriteBytes(space.mem, sites[i].addr, Original(sites[i]));
    }
  }

  // ---- Undo ----

  lemma {:induction false} ApplyElsewhere(m0: Mem, m: Mem, sites: seq<Site>, oks: seq<bool>, n: nat)
    requires LongEnough(sites) && SameElsewhere(m0, m, sites) && n <= |sites| && |oks| == |sites|
    ensures SameElsewhere(m0, ApplyAll(m, sites, oks, n), sites)
  {
    hide JumpCode;
    if n > 0 {
      ApplyElsewhere(m0, m, sites, oks, n - 1);
      var s := sites[n - 1];
      var before, after := ApplyAll(m, sites, oks, n - 1), ApplyAll(m, sites, oks, n);
      forall x | x in m0 && !Covered(x, sites) ensures after[x] == m0[x] {
        assert !InRange(x, s.addr, s.size);
      }
    }
  }

  /** After restoring, every saved byte is the original one, whatever was there before. */
  lemma {:induction false} RestoreSaved(m0: Mem, m: Mem, sites: seq<Site>, n: nat, x: int)
    requires AllSaved(m0, sites) && m.Keys == m0.Keys && n <= |sites| && x in m0 && Covered(x, sites[..n])
    ensures RestoreAll(m, sites, n)[x] == m0[x]
  {
    var s := sites[n - 1];
    assert Saves(m0, s);
    if InRange(x, s.addr, s.size) {
      assert Original(s)[x - s.addr] == ReadBytes(m0, s.addr, s.size)[x - s.addr];
    } else {
      var i :| 0 <= i < n && InRange(x, sites[..n][i].addr, sites[..n][i].size);
      assert sites[..n - 1][i] == sites[i];
      RestoreSaved(m0, m, sites, n - 1, x);
    }
  }

  lemma RestoreCovered(m0: Mem, m: Mem, sites: seq<Site>, x: int)
    requires AllSaved(m0, sites) && m.Keys == m0.Keys && x in m0
    ensures Covered(x, sites) ==> RestoreAll(m, sites, |sites|)[x] == m0[x]
  {
    assert sites[..|sites|] == sites;
    if Covered(x, sites) {
      RestoreSaved(m0, m, sites, |sites|, x);
    }
  }

  /** Restoring gives back every byte, whatever was patched and however the sites overlap. */
  lemma RestoreGivesBack(m0: Mem, m: Mem, sites: seq<Site>)
    requires AllSaved(m0, sites) && SameElsewhere(m0, m, sites)
    ensures RestoreAll(m, sites, |sites|) == m0
  {
    hide AllSaved, Covered;
    var r := RestoreAll(m, sites, |sites|);
    forall x | x in m0 ensures r[x] == m0[x] {
      RestoreCovered(m0, m, sites, x);
      if !Covered(x, sites) {
        RestoreUncovered(m, sites, |sites|, x);
      }
    }
  }

  /** `cycles[i]` tells which pages could be unlocked in the i-th application. */
  function Cycles(m: Mem, sites: seq<Site>, cycles: seq<seq<bool>>): (r: Mem)
    requires forall i :: 0 <= i < |cycles| ==> |cycles[i]| == |sites|
    decreases cycles
  {
    if cycles == [] then m
    else Cycles(RestoreAll(ApplyAll(m, sites, cycles[0], |sites|), sites, |sites|), sites, cycles[1..])
  }

  /** Saving all originals and then applying and restoring any number of times, with any patches
      skipped, returns memory to its original bytes. */
  lemma {:induction false} CyclesRestore(m: Mem, sites: seq<Site>, cycles: seq<seq<bool>>)
    requires AllSaved(m, sites) && LongEnough(sites) && forall i :: 0 <= i < |cycles| ==> |cycles[i]| == |sites|
    ensures Cycles(m, sites, cycles) == m
    decreases cycles
  {
    if cycles != [] {
      ApplyElsewhere(m, m, sites, cycles[0], |sites|);
      RestoreGivesBack(m, ApplyAll(m, sites, cycles[0], |sites|), sites);
      CyclesRestore(m, sites, cycles[1..]);
    }
  }

  /** The byte that the patches leave at `x`: that of the last patched site reaching it. */
  function PatchedByte(sites: seq<Site>, oks: seq<bool>, n: nat, x: int): (b: Option<Byte>)
    requires n <= |sites| && |oks| == |sites|
  {
    if n == 0 then None
    else if sites[n - 1].addr != 0 && oks[n - 1] && InRange(x, sites[n - 1].addr, PATCH_SIZE)
    then Some(JumpCode(sites[n - 1].replacement)[x - sites[n - 1].addr])
    else PatchedByte(sites, oks, n - 1, x)
  }

  lemma {:induction false} ApplyAt(m: Mem, sites: seq<Site>, oks: seq<bool>, n: nat, x: int)
    requires n <= |sites| && |oks| == |sites| && x in m
    ensures var b := PatchedByte(sites, oks, n, x);
            ApplyAll(m, sites, oks, n)[x] == if b.Some? then b.value else m[x]
  {
    hide JumpCode;
    if n > 0 {
      ApplyAt(m, sites, oks, n - 1, x);
    }
  }

  lemma {:induction false} RestoreUncovered(m: Mem, sites: seq<Site>, n: nat, x: int)
    requires n <= |sites| && x in m && !Covered(x, sites)
    ensures RestoreAll(m, sites, n)[x] == m[x]
  {
    hide Original, Covered;
    if n > 0 {
      RestoreUncovered(m, sites, n - 1, x);
      NotRestored(sites, n - 1, x);
    }
  }

  lemma NotRestored(sites: seq<Site>, k: nat, x: int)
    requires k < |sites| && !Covered(x, sites)
    ensures !InRange(x, sites[k].addr, |Original(sites[k])|)
  {
    assert !InRange(x, sites[k].addr, sites[k].size);
  }

  /** Exactly when restoring undoes the patches, for sites of any size: every byte that a patch
      reached and no site saved happens to be the byte the patch left there. Sites of at least
      twelve bytes leave no such byte. */
  lemma RestoreExact(m: Mem, sites: seq<Site>, oks: seq<bool>)
    requires AllSaved(m, sites) && |oks| == |sites|
    ensures RestoreAll(ApplyAll(m, sites, oks, |sites|), sites, |sites|) == m <==>
            forall x :: x in m && !Covered(x, sites) && PatchedByte(sites, oks, |sites|, x).Some? ==>
              PatchedByte(sites, oks, |sites|, x).value == m[x]
    ensures LongEnough(sites) ==> forall x :: !Covered(x, sites) ==> PatchedByte(sites, oks, |sites|, x).None?
  {
    hide AllSaved, Covered, JumpCode, LongEnough;
    var n := |sites|;
    var a := ApplyAll(m, sites, oks, n);
    var r := RestoreAll(a, sites, n);
    forall x | x in m ensures Covered(x, sites) ==> r[x] == m[x] {
      RestoreCovered(m, a, sites, x);
    }
    forall x | x in m && !Covered(x, sites)
      ensures r[x] == if PatchedByte(sites, oks, n, x).Some? then PatchedByte(sites, oks, n, x).value else m[x]
    {
      ApplyAt(m, sites, oks, n, x);
      RestoreUncovered(a, sites, n, x);
    }
    if LongEnough(sites) {
      forall x | !Covered(x, sites) ensures PatchedByte(sites, oks, n, x).None? {
        LongEnoughCovers(sites, oks, n, x);
      }
    }
  }

  lemma {:induction false} LongEnoughCovers(sites: seq<Site>, oks: seq<bool>, n: nat, x: int)
    requires LongEnough(sites) && n <= |sites| && |oks| == |sites| && !Covered(x, sites)
    ensures PatchedByte(sites, oks, n, x).None?
  {
    if n > 0 {
      LongEnoughCovers(sites, oks, n - 1, x);
      assert !InRange(x, sites[n - 1].addr, sites[n - 1].size);
    }
  }

  // ---- What a patch does while it stands ----

  /** Calling a patched function reaches the replacement with only rax changed. */
  lemma PatchedJumps(m: Mem, a: nat, replacement: Word, c: Cpu)
    requires CodeAt(m, a, JumpCode(replacement)) && c.rip == a
    ensures var r := X86.Step(c, m);
            && r.Machine? && r.mem == m
            && X86.Step(r.cpu, m) == Machine(Cpu(c.regs[RAX := replacement], replacement), m)
  {
    hide ToLE, Read64;
    var code := JumpCode(replacement);
    assert code[2..10] == ToLE(replacement, 8);
    ImmediateAt(m, a, code, 2, replacement);
    assert code[0] == 0x48 && code[1] == 0xB8 && code[10] == 0xFF && code[11] == 0xE0;
    assert Decode(m, a) == Decoded(MovImm(RAX, replacement), 10);
    assert Decode(m, a + 10) == Decoded(JmpReg(RAX), 2);
  }

  /** A patched site holds its jump until a later site overlaps it. */
  lemma {:induction false} PatchStands(m: Mem, sites: seq<Site>, oks: seq<bool>, i: nat, n: nat)
    requires |oks| == |sites| && i < n <= |sites| && oks[i] && sites[i].addr != 0
    requires Mapped(m, sites[i].addr, PATCH_SIZE)
    requires forall k :: i < k < n ==> Disjoint(sites[i].addr, PATCH_SIZE, sites[k].addr, PATCH_SIZE)
    ensures CodeAt(ApplyAll(m, sites, oks, n), sites[i].addr, JumpCode(sites[i].replacement))
  {
    hide JumpCode;
    var s := sites[i];
    var r := ApplyAll(m, sites, oks, n);
    if n > i + 1 {
      PatchStands(m, sites, oks, i, n - 1);
    }
    var code := JumpCode(s.replacement);
    forall k | 0 <= k < PATCH_SIZE ensures r[s.addr + k] == code[k] {
      if n == i + 1 {
        assert InRange(s.addr + k, s.addr, PATCH_SIZE);
      } else {
        assert !InRange(s.addr + k, sites[n - 1].addr, PATCH_SIZE);
      }
    }
  }
}
