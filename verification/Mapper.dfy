/** `map_segment` and `map_binary`: the slide, the contents of the mapped image, and the entry. */
module Mapper {
  import opened Memory
  import opened MachO

  const PAGE: nat := 4096

  function RoundUp(n: nat): (r: nat)
    ensures n <= r < n + PAGE && r % PAGE == 0
  {
    ((n + PAGE - 1) / PAGE) * PAGE
  }

  /** What the kernel decides: the base of a reserved region, the address of an unplaced mapping,
      and whether a mapping or a protection change succeeds. */
  datatype Kernel = Kernel(
    region: nat -> Option<nat>,
    place: nat -> int,
    maps: (int, nat) -> bool,
    protects: (int, nat) -> bool)

  /** An anonymous mapping: whole pages, filled with zeros, replacing what was there. */
  function MapAnon(m: Mem, a: int, n: nat): (r: Mem)
    ensures forall x :: x in r <==> x in m || InRange(x, a, RoundUp(n))
    ensures forall x :: InRange(x, a, RoundUp(n)) ==> r[x] == 0
    ensures forall x :: x in m && !InRange(x, a, RoundUp(n)) ==> r[x] == m[x]
  {
    map x | x in m.Keys + (set y | a <= y < a + RoundUp(n) && InRange(y, a, RoundUp(n))) :: if InRange(x, a, RoundUp(n)) then 0 else m[x]
  }

  predicate InFile(seg: Segment, data: seq<Byte>) {
    seg.filesize > 0 && seg.fileoff + seg.filesize <= |data|
  }

  /** The k-th byte of a segment: its byte in the file, or zero fill. */
  function SegmentByte(seg: Segment, data: seq<Byte>, k: nat): (b: Byte) {
    if InFile(seg, data) && k < seg.filesize then data[seg.fileoff + k] else 0
  }

  /** The segment stands in memory from `base` on. */
  ghost predicate HoldsAt(m: Mem, seg: Segment, data: seq<Byte>, base: int) {
    forall x :: InRange(x, base, seg.vmsize) ==> x in m && m[x] == SegmentByte(seg, data, x - base)
  }

  /** The segment stands in memory at its slid address. */
  ghost predicate Holds(m: Mem, seg: Segment, data: seq<Byte>, slide: int) {
    HoldsAt(m, seg, data, seg.vmaddr + slide)
  }

  /** Where the segment goes: its slid address, or wherever the kernel puts it when that is zero. */
  function Base(seg: Segment, slide: nat, kernel: Kernel): (a: int) {
    if seg.vmaddr + slide == 0 then kernel.place(seg.vmsize) else seg.vmaddr + slide
  }

  /** The kernel refuses the mapping of the segment, or its protection. */
  predicate Refused(seg: Segment, slide: nat, kernel: Kernel) {
    seg.vmsize > 0 &&
    !(kernel.maps(seg.vmaddr + slide, seg.vmsize) && kernel.protects(Base(seg, slide, kernel), seg.vmsize))
  }

  /** The mapping at `ptr`, with the segment's file bytes copied in when the file has them all. */
  function SegmentImage(m: Mem, ptr: int, seg: Segment, data: seq<Byte>): (r: Mem) {
    var zeroed := MapAnon(m, ptr, seg.vmsize);
    if InFile(seg, data) then WriteBytes(zeroed, ptr, data[seg.fileoff..seg.fileoff + seg.filesize]) else zeroed
  }

  /** `map_segment`; false is a failed mmap or mprotect. */
  method MapSegment(space: AddressSpace, seg: Segment, data: seq<Byte>, slide: nat, kernel: Kernel)
    returns (ok: bool)
    requires seg.filesize <= seg.vmsize
    modifies space
    ensures ok <==> !Refused(seg, slide, kernel)
    ensures ok ==> HoldsAt(space.mem, seg, data, Base(seg, slide, kernel))
    ensures forall x :: x in old(space.mem) && (seg.vmsize == 0 || !InRange(x, Base(seg, slide, kernel), RoundUp(seg.vmsize))) ==>
              x in space.mem && space.mem[x] == old(space.mem)[x]
    ensures seg.vmsize == 0 || !kernel.maps(seg.vmaddr + slide, seg.vmsize) ==> space.mem == old(space.mem)
  {
    hide RoundUp, HoldsAt, SegmentImage;
    if seg.vmsize == 0 {
      EmptySegment(space.mem, seg, data, Base(seg, slide, kernel));
      return true;
    }
    var vmaddr := seg.vmaddr + slide;
    if !kernel.maps(vmaddr, seg.vmsize) {
      return false;
    }
    var ptr := if vmaddr == 0 then kernel.place(seg.vmsize) else vmaddr;
    ghost var m0 := space.mem;
    space.mem := MapAnon(space.mem, ptr, seg.vmsize);
    if seg.filesize > 0 && seg.fileoff + seg.filesize <= |data| {
      space.mem := WriteBytes(space.mem, ptr, data[seg.fileoff..seg.fileoff + seg.filesize]);
    }
    ImageIs(m0, ptr, seg, data);
    ImageHolds(m0, seg, data, ptr);
    ok := kernel.protects(ptr, seg.vmsize);
  }

  lemma EmptySegment(m: Mem, seg: Segment, data: seq<Byte>, base: int)
    requires seg.vmsize == 0
    ensures HoldsAt(m, seg, data, base)
  {
  }

  lemma ImageIs(m: Mem, ptr: int, seg: Segment, data: seq<Byte>)
    ensures SegmentImage(m, ptr, seg, data) ==
            if seg.filesize > 0 && seg.fileoff + seg.filesize <= |data|
            then WriteBytes(MapAnon(m, ptr, seg.vmsize), ptr, data[seg.fileoff..seg.fileoff + seg.filesize])
            else MapAnon(m, ptr, seg.vmsize)
  {
  }

  lemma ImageHolds(m: Mem, seg: Segment, data: seq<Byte>, base: int)
    requires seg.filesize <= seg.vmsize
    ensures var r := SegmentImage(m, base, seg, data);
            && HoldsAt(r, seg, data, base)
            && forall x :: x in m && !InRange(x, base, RoundUp(seg.vmsize)) ==> x in r && r[x] == m[x]
  {
    hide RoundUp;
    RoundsUp(seg.vmsize);
    if InFile(seg, data) {
      FileBytes(seg, data);
    }
  }

  lemma FileBytes(seg: Segment, data: seq<Byte>)
    requires InFile(seg, data)
    ensures var bytes := data[seg.fileoff..seg.fileoff + seg.filesize];
            |bytes| == seg.filesize && forall k :: 0 <= k < seg.filesize ==> bytes[k] == SegmentByte(seg, data, k)
  {
  }

  // ---- The slide ----

  /** The end of the highest segment; what the loader reserves for a dylib. */
  function TotalSize(segs: seq<Segment>): (n: nat)
    ensures forall s :: s in segs && s.name != PAGEZERO ==> s.vmaddr + s.vmsize <= n
  {
    if segs == [] then 0
    else
      var n := TotalSize(segs[1..]);
      var s := segs[0];
      if s.name != PAGEZERO && s.vmaddr + s.vmsize > n then s.vmaddr + s.vmsize else n
  }

  predicate NeedsSlide(b: Binary) {
    var i := FindSegment(b.segments, TEXT);
    i == |b.segments| || b.segments[i].vmaddr == 0
  }

  /** The __TEXT segment asks for a fixed address, as an executable's does. */
  predicate IsExecutable(b: Binary) {
    var i := FindSegment(b.segments, "__TEXT");
    i < |b.segments| && b.segments[i].vmaddr != 0
  }

  /** What is reserved for a dylib is no more than it takes: some segment ends there. */
  lemma {:induction false} TotalSizeTight(segs: seq<Segment>)
    ensures TotalSize(segs) == 0 || exists s :: s in segs && s.name != PAGEZERO && s.vmaddr + s.vmsize == TotalSize(segs)
  {
    if segs != [] {
      TotalSizeTight(segs[1..]);
      assert segs[0] in segs;
      assert forall s :: s in segs[1..] ==> s in segs;
    }
  }

  /** No two segments share a page, no segment has more file bytes than memory, and none lands at
      address zero. */
  ghost predicate Layout(b: Binary, slide: int) {
    && (forall s :: s in b.segments && s.name != PAGEZERO ==>
          s.filesize <= s.vmsize && (s.vmsize > 0 ==> s.vmaddr + slide > 0))
    && forall i, k :: 0 <= i < k < |b.segments| && Placed(b.segments[i]) && Placed(b.segments[k]) ==>
         Disjoint(b.segments[i].vmaddr, RoundUp(b.segments[i].vmsize), b.segments[k].vmaddr, RoundUp(b.segments[k].vmsize))
  }

  predicate Placed(s: Segment) { s.name != PAGEZERO && s.vmsize > 0 }

  /** The slide the loader settles on, given the base the kernel offers. */
  predicate SlideIs(b: Binary, kernel: Kernel, slide: nat) {
    if NeedsSlide(b) then kernel.region(TotalSize(b.segments)) == Some(slide) else slide == 0
  }

  datatype MapResult = Mapped(entry: nat, slide: nat) | NoSegments | NoTextSegment | MapFailed

  ghost predicate AllHold(m: Mem, b: Binary, slide: int, n: nat)
    requires n <= |b.segments|
  {
    forall i :: 0 <= i < n && b.segments[i].name != PAGEZERO ==> Holds(m, b.segments[i], b.data, slide)
  }

  /** The entry address, with the wrap-around of 64-bit arithmetic. */
  function Entry(b: Binary, slide: nat): (e: nat)
    requires b.entryIsOffset ==> FindSegment(b.segments, TEXT) < |b.segments|
  {
    if b.entryIsOffset then
      var ts := b.segments[FindSegment(b.segments, TEXT)];
      Wrap64(Wrap64(ts.vmaddr + slide - ts.fileoff) + b.entryPoint)
    else Wrap64(b.entryPoint + slide)
  }

  /** The kernel refuses the region of a dylib, or some segment at the slide the loader settled on. */
  predicate KernelRefuses(b: Binary, kernel: Kernel) {
    if NeedsSlide(b) && kernel.region(TotalSize(b.segments)).None? then true
    else exists s :: s in b.segments && s.name != PAGEZERO && Refused(s, SlideOf(b, kernel), kernel)
  }

  function SlideOf(b: Binary, kernel: Kernel): (slide: nat)
    requires NeedsSlide(b) ==> kernel.region(TotalSize(b.segments)).Some?
    ensures SlideIs(b, kernel, slide)
  {
    if NeedsSlide(b) then kernel.region(TotalSize(b.segments)).value else 0
  }

  /** Each error has exactly its cause, in this order; without a cause the binary is mapped. */
  method MapBinary(space: AddressSpace, b: Binary, kernel: Kernel) returns (r: MapResult)
    requires forall slide: nat :: SlideIs(b, kernel, slide) ==> Layout(b, slide)
    modifies space
    ensures var empty, noText := NeedsSlide(b) && TotalSize(b.segments) == 0,
                                 b.entryIsOffset && FindSegment(b.segments, TEXT) == |b.segments|;
            && (r.NoSegments? <==> empty)
            && (r.MapFailed? <==> !empty && KernelRefuses(b, kernel))
            && (r.NoTextSegment? <==> !empty && !KernelRefuses(b, kernel) && noText)
    ensures r.Mapped? ==>
      && SlideIs(b, kernel, r.slide) && AllHold(space.mem, b, r.slide, |b.segments|)
      && (if IsExecutable(b) then r.slide == 0 else kernel.region(TotalSize(b.segments)) == Some(r.slide))
      && (b.entryIsOffset ==> FindSegment(b.segments, TEXT) < |b.segments|) && r.entry == Entry(b, r.slide)
    ensures r.NoSegments? ==> space.mem == old(space.mem)
  {
    hide Holds, HoldsAt, Layout, TotalSize, RoundUp, Refused;
    var text := FindSegment(b.segments, TEXT);
    var slide := 0;
    if NeedsSlide(b) {
      var total := TotalSize(b.segments);
      if total == 0 {
        return NoSegments;
      }
      var region := kernel.region(total);
      if region.None? {
        return MapFailed;
      }
      slide := region.value;
    }
    assert SlideIs(b, kernel, slide) && slide == SlideOf(b, kernel);
    for i := 0 to |b.segments|
      invariant AllHold(space.mem, b, slide, i)
      invariant forall k :: 0 <= k < i && b.segments[k].name != PAGEZERO ==> !Refused(b.segments[k], slide, kernel)
    {
      var seg := b.segments[i];
      if seg.name == PAGEZERO {
        continue;
      }
      SegmentFits(b, slide, i);
      ghost var before := space.mem;
      var ok := MapSegment(space, seg, b.data, slide, kernel);
      if !ok {
        assert seg in b.segments;
        return MapFailed;
      }
      Settled(before, space.mem, seg, b.data, slide, kernel);
      OthersKept(before, space.mem, b, slide, i);
    }
    assert !KernelRefuses(b, kernel);
    if b.entryIsOffset && text == |b.segments| {
      return NoTextSegment;
    }
    return MapResult.Mapped(Entry(b, slide), slide);
  }

  /** A segment that does not land at zero stands at its slid address, outside which nothing changes. */
  lemma Settled(m: Mem, m': Mem, seg: Segment, data: seq<Byte>, slide: nat, kernel: Kernel)
    requires seg.vmsize > 0 ==> seg.vmaddr + slide > 0
    requires HoldsAt(m', seg, data, Base(seg, slide, kernel))
    requires forall x :: x in m && (seg.vmsize == 0 || !InRange(x, Base(seg, slide, kernel), RoundUp(seg.vmsize))) ==>
               x in m' && m'[x] == m[x]
    ensures Holds(m', seg, data, slide)
    ensures forall x :: x in m && (seg.vmsize == 0 || !InPages(x, seg, slide)) ==> x in m' && m'[x] == m[x]
  {
    hide RoundUp;
  }

  /** The pages of a slid segment. */
  predicate InPages(x: int, seg: Segment, slide: int) {
    InRange(x, seg.vmaddr + slide, RoundUp(seg.vmsize))
  }

  lemma SegmentFits(b: Binary, slide: nat, i: nat)
    requires Layout(b, slide) && i < |b.segments| && b.segments[i].name != PAGEZERO
    ensures var s := b.segments[i]; s.filesize <= s.vmsize && (s.vmsize > 0 ==> s.vmaddr + slide > 0)
  {
    hide RoundUp;
    assert b.segments[i] in b.segments;
  }

  /** Mapping one more segment leaves the earlier ones as they are. */
  lemma OthersKept(m: Mem, m': Mem, b: Binary, slide: nat, n: nat)
    requires Layout(b, slide) && n < |b.segments| && AllHold(m, b, slide, n)
    requires b.segments[n].name != PAGEZERO
    requires forall x :: x in m && (b.segments[n].vmsize == 0 || !InPages(x, b.segments[n], slide)) ==> x in m' && m'[x] == m[x]
    requires Holds(m', b.segments[n], b.data, slide)
    ensures AllHold(m', b, slide, n + 1)
  {
    hide RoundUp;
    forall i | 0 <= i < n && b.segments[i].name != PAGEZERO ensures Holds(m', b.segments[i], b.data, slide) {
      assert Holds(m, b.segments[i], b.data, slide);
      if b.segments[i].vmsize > 0 && b.segments[n].vmsize > 0 {
        assert Placed(b.segments[i]) && Placed(b.segments[n]);
        RoundsUp(b.segments[i].vmsize);
      }
    }
  }

  lemma RoundsUp(n: nat)
    ensures n <= RoundUp(n)
  {
  }

  // ---- What the loaded image promises ----

  /** Every segment of a slid dylib lies in the region that was reserved for it. */
  lemma SegmentsInRegion(b: Binary, base: int, s: Segment, x: int)
    requires s in b.segments && s.name != PAGEZERO && InRange(x, s.vmaddr + base, s.vmsize)
    ensures InRange(x, base, TotalSize(b.segments))
  {
  }

  /** For LC_MAIN, the byte at the entry address is the file byte at offset `entry_point`, when
      that offset lies in the file part of __TEXT. */
  lemma EntryByte(b: Binary, slide: nat, m: Mem)
    requires b.entryIsOffset && FindSegment(b.segments, TEXT) < |b.segments|
    requires AllHold(m, b, slide, |b.segments|)
    requires var ts := b.segments[FindSegment(b.segments, TEXT)];
             && ts.fileoff + ts.filesize <= |b.data| && ts.filesize <= ts.vmsize
             && ts.fileoff <= b.entryPoint < ts.fileoff + ts.filesize && ts.vmaddr + slide + ts.vmsize <= TWO64
    ensures Entry(b, slide) in m && m[Entry(b, slide)] == b.data[b.entryPoint]
  {
    var i := FindSegment(b.segments, TEXT);
    var ts := b.segments[i];
    var x := ts.vmaddr + slide + (b.entryPoint - ts.fileoff);
    WrapAdd(ts.vmaddr + slide - ts.fileoff, b.entryPoint);
    assert Entry(b, slide) == x;
    assert Holds(m, ts, b.data, slide);
    assert InRange(x, ts.vmaddr + slide, ts.vmsize);
  }

  /** For LC_UNIXTHREAD, the entry is an address of the image: the byte there is the segment's byte at the
      unslid entry point. */
  lemma EntryAddress(b: Binary, slide: nat, m: Mem, i: nat)
    requires !b.entryIsOffset && AllHold(m, b, slide, |b.segments|)
    requires i < |b.segments| && b.segments[i].name != PAGEZERO && b.entryPoint + slide < TWO64
    requires InRange(b.entryPoint, b.segments[i].vmaddr, b.segments[i].vmsize)
    ensures Entry(b, slide) in m
    ensures m[Entry(b, slide)] == SegmentByte(b.segments[i], b.data, b.entryPoint - b.segments[i].vmaddr)
  {
    var x := b.entryPoint + slide;
    assert Holds(m, b.segments[i], b.data, slide);
    assert InRange(x, b.segments[i].vmaddr + slide, b.segments[i].vmsize);
  }
}
