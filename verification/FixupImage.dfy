/** `apply_fixups` on a whole image: the import table, and the segment and page loops over
the raw LC_DYLD_CHAINED_FIXUPS data.
*/
module FixupImage {
  import opened Memory
  import opened MachO
  import opened Fixups

  // ---- Raw tables ----

  function U16(d: seq<Byte>, o: nat): (v: nat)
    requires o + 2 <= |d|
  {
    FromLE(d[o..o + 2])
  }

  function U32(d: seq<Byte>, o: nat): (v: nat)
    requires o + 4 <= |d|
  {
    FromLE(d[o..o + 4])
  }

  const HEADER_SIZE := 28
  const PAGE_START_NONE := 0xFFFF

  predicate HeaderOk(d: seq<Byte>) {
    && HEADER_SIZE <= |d|
    && Starts(d) + 4 <= |d|
    && Starts(d) + 4 + 4 * SegCount(d) <= |d|
  }

  function Starts(d: seq<Byte>): (o: nat)
    requires HEADER_SIZE <= |d|
  {
    U32(d, 4)
  }

  function SegCount(d: seq<Byte>): (n: nat)
    requires HEADER_SIZE <= |d| && Starts(d) + 4 <= |d|
  {
    U32(d, Starts(d))
  }

  function SegInfoOffset(d: seq<Byte>, i: nat): (o: nat)
    requires HeaderOk(d) && i < SegCount(d)
  {
    U32(d, Starts(d) + 4 + i * 4)
  }

  /** The segments whose pages are walked. */
  predicate Active(b: Binary, d: seq<Byte>, i: nat)
    requires HeaderOk(d) && i < SegCount(d)
  {
    SegInfoOffset(d, i) != 0 && i < |b.segments| && b.segments[i].name != PAGEZERO
  }

  /** `dyld_chained_starts_in_segment`, read where the offset table points. */
  datatype SegInfo = SegInfo(pageSize: nat, format: nat, pageStarts: seq<nat>)

  predicate SegInfoOk(d: seq<Byte>, o: nat) {
    o + 22 <= |d| && o + 22 + 2 * U16(d, o + 20) <= |d|
  }

  function SegInfoAt(d: seq<Byte>, o: nat): (s: SegInfo)
    requires SegInfoOk(d, o)
  {
    SegInfo(U16(d, o + 4), U16(d, o + 6),
            seq(U16(d, o + 20), j requires 0 <= j < U16(d, o + 20) => U16(d, o + 22 + j * 2)))
  }

  predicate TablesOk(b: Binary, d: seq<Byte>) {
    && HeaderOk(d)
    && forall i: nat :: i < SegCount(d) && Active(b, d, i) ==> SegInfoOk(d, Starts(d) + SegInfoOffset(d, i))
  }

  /** Per segment, its chain starts; None where the segment loop skips the segment. */
  type StartsTable = seq<Option<SegInfo>>

  function StartsIn(b: Binary, d: seq<Byte>): (t: StartsTable)
    requires TablesOk(b, d)
    ensures |t| == SegCount(d)
    ensures forall i :: 0 <= i < |t| && t[i].Some? ==> i < |b.segments| && b.segments[i].name != PAGEZERO
  {
    seq(SegCount(d), i requires 0 <= i < SegCount(d) =>
          if Active(b, d, i) then Some(SegInfoAt(d, Starts(d) + SegInfoOffset(d, i))) else None)
  }

  predicate Covers(segments: seq<Segment>, t: StartsTable) {
    forall i :: 0 <= i < |t| && t[i].Some? ==> i < |segments| && segments[i].name != PAGEZERO
  }

  // ---- Imports ----

  function ImportCount(d: seq<Byte>): (n: nat)
    requires HEADER_SIZE <= |d|
  {
    U32(d, 16)
  }

  predicate HasNul(d: seq<Byte>, o: nat) {
    exists k :: o <= k < |d| && d[k] == 0
  }

  /** The C string at `o`: the bytes up to the first NUL. */
  function CString(d: seq<Byte>, o: nat): (s: seq<Byte>)
    requires HasNul(d, o)
    ensures o + |s| < |d| && d[o..o + |s|] == s && d[o + |s|] == 0 && 0 !in s
    decreases |d| - o
  {
    if d[o] == 0 then [] else [d[o]] + CString(d, o + 1)
  }

  function ImportRaw(d: seq<Byte>, i: nat): (w: nat)
    requires HEADER_SIZE <= |d| && U32(d, 8) + 4 * i + 4 <= |d|
  {
    U32(d, U32(d, 8) + i * 4)
  }

  function NameOffset(d: seq<Byte>, i: nat): (o: nat)
    requires HEADER_SIZE <= |d| && U32(d, 8) + 4 * i + 4 <= |d|
  {
    U32(d, 12) + ImportRaw(d, i) / 512
  }

  predicate ImportsOk(d: seq<Byte>) {
    && HEADER_SIZE <= |d|
    && forall i: nat :: i < ImportCount(d) ==> U32(d, 8) + 4 * i + 4 <= |d| && HasNul(d, NameOffset(d, i))
  }

  /** Library ordinals are 1-based; the reserved and out-of-range ones mean the image itself. */
  function DylibName(b: Binary, ordinal: nat): (s: string) {
    if 0 < ordinal < 0xFD && ordinal <= |b.dylibDeps| then b.dylibDeps[ordinal - 1] else "self"
  }

  type Resolver = (string, seq<Byte>) -> U64

  /** `t` is the import table: entry `i` is the address of the i-th imported name. */
  ghost predicate IsImportTable(t: seq<U64>, n: nat, b: Binary, d: seq<Byte>, resolve: Resolver)
    requires ImportsOk(d) && n <= ImportCount(d)
  {
    && |t| == n
    && forall i: nat :: i < n ==>
         t[i] == resolve(DylibName(b, ImportRaw(d, i) % 256), CString(d, NameOffset(d, i)))
  }

  method ResolveImports(b: Binary, d: seq<Byte>, resolve: Resolver) returns (t: seq<U64>)
    requires ImportsOk(d)
    ensures IsImportTable(t, ImportCount(d), b, d, resolve)
  {
    hide U32, HasNul, CString, DylibName;
    t := [];
    for i := 0 to ImportCount(d)
      invariant IsImportTable(t, i, b, d, resolve)
    {
      var raw := ImportRaw(d, i);
      t := t + [resolve(DylibName(b, raw % 256), CString(d, NameOffset(d, i)))];
    }
  }

  // ---- The chains of an image ----

  /** A chain start, with the page it belongs to. */
  datatype Chain = Chain(page: int, size: nat, offset: nat, format: nat) {
    function Addr(): (a: int) { page + offset }
  }

  function PageChains(seg: Segment, slide: int, s: SegInfo, n: nat): (cs: seq<Chain>)
    requires n <= |s.pageStarts|
  {
    if n == 0 then []
    else
      PageChains(seg, slide, s, n - 1) +
      if s.pageStarts[n - 1] == PAGE_START_NONE then []
      else [Chain(seg.vmaddr + slide + (n - 1) * s.pageSize, s.pageSize, s.pageStarts[n - 1], s.format)]
  }

  function ChainsOfSegment(segments: seq<Segment>, t: StartsTable, slide: int, i: nat): (cs: seq<Chain>)
    requires Covers(segments, t) && i < |t|
  {
    match t[i]
    case None => []
    case Some(s) => PageChains(segments[i], slide, s, |s.pageStarts|)
  }

  function SegmentChains(segments: seq<Segment>, t: StartsTable, slide: int, n: nat): (cs: seq<Chain>)
    requires Covers(segments, t) && n <= |t|
  {
    if n == 0 then []
    else SegmentChains(segments, t, slide, n - 1) + ChainsOfSegment(segments, t, slide, n - 1)
  }

  /** Where the walk of `c` reads: a chain of an unsupported format is given up at once. */
  ghost predicate StartOk(m: Mem, c: Chain) {
    if Supported(c.format) then ChainOk(m, c.Addr()) else Mapped(m, c.Addr(), 8)
  }

  ghost predicate StartsOk(m: Mem, cs: seq<Chain>) {
    forall k :: 0 <= k < |cs| ==> StartOk(m, cs[k])
  }

  ghost function SlotsOf(m: Mem, c: Chain): (s: seq<Slot>)
  {
    if Supported(c.format) then ChainSlots(m, c.Addr(), c.format) else []
  }

  /** All slots of the chains `cs`, in the order in which they are rewritten. */
  ghost function ImageSlots(m: Mem, cs: seq<Chain>): (s: seq<Slot>)
    ensures forall k :: 0 <= k < |s| ==> Mapped(m, s[k].addr, 8)
  {
    if cs == [] then []
    else ImageSlots(m, cs[..|cs| - 1]) + SlotsOf(m, cs[|cs| - 1])
  }

  /** Every chain stays in mapped memory and no two slots of the image overlap. */
  ghost predicate WellFormed(m: Mem, cs: seq<Chain>) {
    StartsOk(m, cs) && PairwiseDisjoint(ImageSlots(m, cs))
  }

  lemma {:induction false} ImageSlotsAppend(m: Mem, cs: seq<Chain>, ds: seq<Chain>)
    ensures ImageSlots(m, cs) <= ImageSlots(m, cs + ds)
    decreases |ds|
  {
    if ds == [] {
      assert cs + ds == cs;
    } else {
      var init := ds[..|ds| - 1];
      assert (cs + ds)[..|cs + ds| - 1] == cs + init;
      ImageSlotsAppend(m, cs, init);
    }
  }

  lemma WellFormedPrefix(m: Mem, cs: seq<Chain>, ds: seq<Chain>)
    requires WellFormed(m, cs + ds)
    ensures WellFormed(m, cs)
  {
    ImageSlotsAppend(m, cs, ds);
    assert forall k :: 0 <= k < |cs| ==> cs[k] == (cs + ds)[k];
  }

  /** One iteration of the page loop on a page that has a chain. */
  method FixPage(space: AddressSpace, c: Chain, imports: seq<U64>, load: int, ghost m0: Mem, ghost done: seq<Chain>)
    requires WellFormed(m0, done + [c])
    requires WellFormed(m0, done) && Relocated(m0, space.mem, ImageSlots(m0, done), imports, load)
    modifies space
    ensures Relocated(m0, space.mem, ImageSlots(m0, done + [c]), imports, load)
  {
    assert (done + [c])[..|done|] == done && (done + [c])[|done|] == c;
    if Supported(c.format) {
      WalkChain(space, c.Addr(), c.format, imports, load, m0, ImageSlots(m0, done));
    } else {
      assert ImageSlots(m0, done) + [] == ImageSlots(m0, done);
    }
  }

  method FixSegment(space: AddressSpace, seg: Segment, slide: int, s: SegInfo, imports: seq<U64>, load: int,
                    ghost m0: Mem, ghost done: seq<Chain>)
    requires WellFormed(m0, done + PageChains(seg, slide, s, |s.pageStarts|))
    requires WellFormed(m0, done) && Relocated(m0, space.mem, ImageSlots(m0, done), imports, load)
    modifies space
    ensures Relocated(m0, space.mem, ImageSlots(m0, done + PageChains(seg, slide, s, |s.pageStarts|)), imports, load)
  {
    hide WellFormed, Relocated, ImageSlots;
    assert done + PageChains(seg, slide, s, 0) == done;
    for j := 0 to |s.pageStarts|
      invariant WellFormed(m0, done + PageChains(seg, slide, s, j))
      invariant Relocated(m0, space.mem, ImageSlots(m0, done + PageChains(seg, slide, s, j)), imports, load)
    {
      var before := PageChains(seg, slide, s, j);
      PagesPrefix(m0, done, seg, slide, s, j + 1);
      if s.pageStarts[j] != PAGE_START_NONE {
        var c := Chain(seg.vmaddr + slide + j * s.pageSize, s.pageSize, s.pageStarts[j], s.format);
        assert done + PageChains(seg, slide, s, j + 1) == (done + before) + [c];
        FixPage(space, c, imports, load, m0, done + before);
      } else {
        assert PageChains(seg, slide, s, j + 1) == before;
      }
    }
  }

  lemma {:induction false} PagesPrefix(m: Mem, done: seq<Chain>, seg: Segment, slide: int, s: SegInfo, n: nat)
    requires n <= |s.pageStarts|
    requires WellFormed(m, done + PageChains(seg, slide, s, |s.pageStarts|))
    ensures WellFormed(m, done + PageChains(seg, slide, s, n))
    decreases |s.pageStarts| - n
  {
    hide WellFormed;
    if n < |s.pageStarts| {
      PagesPrefix(m, done, seg, slide, s, n + 1);
      var next := PageChains(seg, slide, s, n + 1)[|PageChains(seg, slide, s, n)|..];
      assert done + PageChains(seg, slide, s, n + 1) == (done + PageChains(seg, slide, s, n)) + next;
      WellFormedPrefix(m, done + PageChains(seg, slide, s, n), next);
    }
  }

  lemma {:induction false} SegmentsPrefix(m: Mem, segs: seq<Segment>, t: StartsTable, slide: int, n: nat)
    requires Covers(segs, t) && n <= |t|
    requires WellFormed(m, SegmentChains(segs, t, slide, |t|))
    ensures WellFormed(m, SegmentChains(segs, t, slide, n))
    decreases |t| - n
  {
    hide WellFormed, ChainsOfSegment;
    if n < |t| {
      SegmentsPrefix(m, segs, t, slide, n + 1);
      WellFormedPrefix(m, SegmentChains(segs, t, slide, n), ChainsOfSegment(segs, t, slide, n));
    }
  }

  /** The body of the segment loop. */
  method FixSegmentAt(space: AddressSpace, segs: seq<Segment>, t: StartsTable, slide: int, i: nat,
                      imports: seq<U64>, load: int, ghost m0: Mem, ghost done: seq<Chain>)
    requires Covers(segs, t) && i < |t|
    requires WellFormed(m0, done + ChainsOfSegment(segs, t, slide, i))
    requires WellFormed(m0, done) && Relocated(m0, space.mem, ImageSlots(m0, done), imports, load)
    modifies space
    ensures Relocated(m0, space.mem, ImageSlots(m0, done + ChainsOfSegment(segs, t, slide, i)), imports, load)
  {
    hide WellFormed, Relocated, ImageSlots, PageChains;
    match t[i]
    case None =>
      assert done + [] == done;
    case Some(s) =>
      FixSegment(space, segs[i], slide, s, imports, load, m0, done);
  }

  lemma NothingToRelocate(m: Mem, imports: seq<U64>, load: int)
    ensures WellFormed(m, []) && Relocated(m, m, ImageSlots(m, []), imports, load)
  {
  }

  method FixSegments(space: AddressSpace, segs: seq<Segment>, t: StartsTable, slide: int, imports: seq<U64>, load: int)
    requires Covers(segs, t)
    requires WellFormed(space.mem, SegmentChains(segs, t, slide, |t|))
    modifies space
    ensures Relocated(old(space.mem), space.mem,
                      ImageSlots(old(space.mem), SegmentChains(segs, t, slide, |t|)), imports, load)
  {
    hide WellFormed, Relocated, ImageSlots, ChainsOfSegment;
    ghost var m0 := space.mem;
    NothingToRelocate(m0, imports, load);
    for i := 0 to |t|
      invariant WellFormed(m0, SegmentChains(segs, t, slide, i))
      invariant Relocated(m0, space.mem, ImageSlots(m0, SegmentChains(segs, t, slide, i)), imports, load)
    {
      SegmentsPrefix(m0, segs, t, slide, i + 1);
      FixSegmentAt(space, segs, t, slide, i, imports, load, m0, SegmentChains(segs, t, slide, i));
    }
  }

  predicate DataOk(b: Binary) {
    b.chainedFixups.Some? && b.chainedFixups.value.0 + b.chainedFixups.value.1 <= |b.data|
  }

  function FixupData(b: Binary): (d: seq<Byte>)
    requires DataOk(b)
  {
    b.data[b.chainedFixups.value.0..b.chainedFixups.value.0 + b.chainedFixups.value.1]
  }

  function PreferredLoadAddress(b: Binary): (a: nat) {
    var i := FindSegment(b.segments, TEXT);
    if i < |b.segments| then b.segments[i].vmaddr else 0
  }

  function Chains(b: Binary, d: seq<Byte>, slide: int): (cs: seq<Chain>)
    requires TablesOk(b, d)
  {
    var t := StartsIn(b, d);
    SegmentChains(b.segments, t, slide, |t|)
  }

  /** What the loader relies on when the image has chained fixups. */
  ghost predicate ImageOk(b: Binary, d: seq<Byte>, m: Mem) {
    TablesOk(b, d) && ImportsOk(d) && WellFormed(m, Chains(b, d, b.slide))
  }

  method ApplyFixups(space: AddressSpace, b: Binary, resolve: Resolver)
    returns (imports: seq<U64>)
    requires b.chainedFixups.Some? ==> DataOk(b) && ImageOk(b, FixupData(b), space.mem)
    modifies space
    ensures b.chainedFixups.None? ==> space.mem == old(space.mem)
    ensures b.chainedFixups.Some? ==>
      var d := FixupData(b);
      && IsImportTable(imports, ImportCount(d), b, d, resolve)
      && Relocated(old(space.mem), space.mem, ImageSlots(old(space.mem), Chains(b, d, b.slide)),
                   imports, PreferredLoadAddress(b) + b.slide)
  {
    hide WellFormed, Relocated, ImageSlots, SegmentChains, IsImportTable, TablesOk, ImportsOk, StartsIn, FixupData;
    if b.chainedFixups.None? {
      return [];
    }
    var d := FixupData(b);
    imports := ResolveImports(b, d, resolve);
    FixSegments(space, b.segments, StartsIn(b, d), b.slide, imports, PreferredLoadAddress(b) + b.slide);
  }
}
