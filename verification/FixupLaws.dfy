/** Laws of relocation: images laid out page by page are well formed, and the relocated
image depends on the slide only in its non-null rebases.
*/
module FixupLaws {
  import opened Memory
  import opened MachO
  import opened Fixups
  import opened FixupImage

  // ---- Chains that stay in their page ----

  /** The chain from `a` stays in `[lo, hi)` and its links are 0 or at least 2: a link counts
      4-byte strides and a slot takes 8 bytes. */
  ghost predicate InPage(m: Mem, a: int, lo: int, hi: int)
    decreases TWO64 - a
  {
    && lo <= a && a + 8 <= hi <= TWO64
    && Mapped(m, a, 8)
    && (Link(Read64(m, a)) == 0 || (Link(Read64(m, a)) >= 2 && InPage(m, Follow(m, a), lo, hi)))
  }

  lemma {:induction false} InPageChain(m: Mem, a: int, lo: int, hi: int, format: int)
    requires InPage(m, a, lo, hi)
    ensures ChainOk(m, a)
    ensures PairwiseDisjoint(ChainSlots(m, a, format))
    ensures forall s :: s in ChainSlots(m, a, format) ==> a <= s.addr && s.addr + 8 <= hi
    decreases TWO64 - a
  {
    hide Read64, Link;
    if Follow(m, a) > a {
      InPageChain(m, Follow(m, a), lo, hi, format);
      var rest := ChainSlots(m, Follow(m, a), format);
      assert forall k :: 0 <= k < |rest| ==> rest[k] in rest;
      assert ChainSlots(m, a, format) == [Slot(a, format)] + rest;
    } else {
      assert ChainSlots(m, a, format) == [Slot(a, format)];
    }
  }

  ghost predicate PageOk(m: Mem, c: Chain) {
    if Supported(c.format) then InPage(m, c.Addr(), c.page, c.page + c.size) else Mapped(m, c.Addr(), 8)
  }

  ghost predicate PagesDisjoint(cs: seq<Chain>) {
    forall i, k :: 0 <= i < k < |cs| ==> Disjoint(cs[i].page, cs[i].size, cs[k].page, cs[k].size)
  }

  ghost predicate InSomePage(s: Slot, cs: seq<Chain>) {
    exists k :: 0 <= k < |cs| && cs[k].page <= s.addr && s.addr + 8 <= cs[k].page + cs[k].size
  }

  lemma {:induction false} DisjointPagesWellFormed(m: Mem, cs: seq<Chain>)
    requires forall k :: 0 <= k < |cs| ==> PageOk(m, cs[k])
    requires PagesDisjoint(cs)
    ensures WellFormed(m, cs)
    ensures forall s :: s in ImageSlots(m, cs) ==> InSomePage(s, cs)
  {
    if cs != [] {
      var n := |cs| - 1;
      DisjointPagesWellFormed(m, cs[..n]);
      LastPage(m, cs, n);
    }
  }

  lemma LastPage(m: Mem, cs: seq<Chain>, n: nat)
    requires n + 1 == |cs|
    requires forall k :: 0 <= k < |cs| ==> PageOk(m, cs[k])
    requires PagesDisjoint(cs)
    requires WellFormed(m, cs[..n])
    requires forall s :: s in ImageSlots(m, cs[..n]) ==> InSomePage(s, cs[..n])
    ensures WellFormed(m, cs)
    ensures forall s :: s in ImageSlots(m, cs) ==> InSomePage(s, cs)
  {
    hide PageOk, SlotsOf, StartOk;
    var before, last := ImageSlots(m, cs[..n]), SlotsOf(m, cs[n]);
    SlotsInPage(m, cs[n]);
    forall s | s in before ensures InSomePage(s, cs) && forall t :: t in last ==> Disjoint(s.addr, 8, t.addr, 8) {
      assert InSomePage(s, cs[..n]);
      var k :| 0 <= k < n && cs[..n][k].page <= s.addr && s.addr + 8 <= cs[..n][k].page + cs[..n][k].size;
      assert cs[..n][k] == cs[k];
    }
    forall s | s in last ensures InSomePage(s, cs) {
      assert cs[n].page <= s.addr;
    }
    ConcatDisjoint(before, last);
    assert forall k :: 0 <= k < n ==> cs[..n][k] == cs[k];
  }

  lemma SlotsInPage(m: Mem, c: Chain)
    requires PageOk(m, c)
    ensures StartOk(m, c) && PairwiseDisjoint(SlotsOf(m, c))
    ensures forall s :: s in SlotsOf(m, c) ==> c.page <= s.addr && s.addr + 8 <= c.page + c.size
  {
    hide ChainSlots, ChainOk;
    if Supported(c.format) {
      InPageChain(m, c.Addr(), c.page, c.page + c.size, c.format);
    }
  }

  lemma ConcatDisjoint(s: seq<Slot>, t: seq<Slot>)
    requires PairwiseDisjoint(s) && PairwiseDisjoint(t)
    requires forall x, y :: x in s && y in t ==> Disjoint(x.addr, 8, y.addr, 8)
    ensures PairwiseDisjoint(s + t)
  {
    var u := s + t;
    forall i, k | 0 <= i < k < |u| ensures Disjoint(u[i].addr, 8, u[k].addr, 8) {
      if k >= |s| {
        assert u[k] == t[k - |s|];
        if i >= |s| {
          assert u[i] == t[i - |s|];
        }
      }
    }
  }

  ghost predicate Within(c: Chain, lo: int, hi: int) {
    lo <= c.page && c.page + c.size <= hi
  }

  lemma {:induction false} PagesOfSegment(seg: Segment, slide: int, s: SegInfo, n: nat)
    requires n <= |s.pageStarts|
    ensures PagesDisjoint(PageChains(seg, slide, s, n))
    ensures forall c :: c in PageChains(seg, slide, s, n) ==>
              Within(c, seg.vmaddr + slide, seg.vmaddr + slide + n * s.pageSize)
  {
    if n > 0 {
      PagesOfSegment(seg, slide, s, n - 1);
      assert n * s.pageSize == (n - 1) * s.pageSize + s.pageSize;
      var before := PageChains(seg, slide, s, n - 1);
      ConcatPages(before, PageChains(seg, slide, s, n)[|before|..]);
      assert PageChains(seg, slide, s, n) == before + PageChains(seg, slide, s, n)[|before|..];
    }
  }

  ghost predicate InEarlierSegment(c: Chain, segs: seq<Segment>, t: StartsTable, slide: int, n: nat)
    requires Covers(segs, t) && n <= |t|
  {
    exists i :: 0 <= i < n && t[i].Some? &&
      Within(c, segs[i].vmaddr + slide, segs[i].vmaddr + slide + segs[i].vmsize)
  }

  /** The pages named by the table lie inside their segment. */
  ghost predicate PagesFit(segs: seq<Segment>, t: StartsTable)
    requires Covers(segs, t)
  {
    forall i :: 0 <= i < |t| && t[i].Some? ==> |t[i].value.pageStarts| * t[i].value.pageSize <= segs[i].vmsize
  }

  ghost predicate InSegment(c: Chain, segs: seq<Segment>, slide: int, i: nat)
    requires i < |segs|
  {
    Within(c, segs[i].vmaddr + slide, segs[i].vmaddr + slide + segs[i].vmsize)
  }

  lemma PagesOfOne(segs: seq<Segment>, t: StartsTable, slide: int, i: nat)
    requires Covers(segs, t) && i < |t| && PagesFit(segs, t)
    ensures PagesDisjoint(ChainsOfSegment(segs, t, slide, i))
    ensures forall c :: c in ChainsOfSegment(segs, t, slide, i) ==> t[i].Some? && InSegment(c, segs, slide, i)
  {
    hide PageChains, PagesDisjoint;
    NoPages();
    if t[i].Some? {
      PagesOfSegment(segs[i], slide, t[i].value, |t[i].value.pageStarts|);
    }
  }

  lemma NoPages()
    ensures PagesDisjoint([])
  {
  }

  lemma {:induction false} PagesOfImage(segs: seq<Segment>, t: StartsTable, slide: int, n: nat)
    requires Covers(segs, t) && n <= |t| && PagesFit(segs, t) && SegmentsDisjoint(segs)
    ensures PagesDisjoint(SegmentChains(segs, t, slide, n))
    ensures forall c :: c in SegmentChains(segs, t, slide, n) ==> InEarlierSegment(c, segs, t, slide, n)
  {
    hide PagesDisjoint, ChainsOfSegment, PagesFit, SegmentsDisjoint;
    if n > 0 {
      PagesOfImage(segs, t, slide, n - 1);
      PagesOfOne(segs, t, slide, n - 1);
      var before, last := SegmentChains(segs, t, slide, n - 1), ChainsOfSegment(segs, t, slide, n - 1);
      forall x, y | x in before && y in last ensures Disjoint(x.page, x.size, y.page, y.size) {
        EarlierApart(segs, t, slide, n - 1, x, y);
      }
      ConcatPages(before, last);
      forall c | c in before + last ensures InEarlierSegment(c, segs, t, slide, n) {
        assert c in before ==> InEarlierSegment(c, segs, t, slide, n - 1);
      }
    } else {
      NoPages();
    }
  }

  lemma EarlierApart(segs: seq<Segment>, t: StartsTable, slide: int, n: nat, x: Chain, y: Chain)
    requires Covers(segs, t) && n < |t| && SegmentsDisjoint(segs) && t[n].Some?
    requires InEarlierSegment(x, segs, t, slide, n) && InSegment(y, segs, slide, n)
    ensures Disjoint(x.page, x.size, y.page, y.size)
  {
    var i :| 0 <= i < n && t[i].Some? &&
      Within(x, segs[i].vmaddr + slide, segs[i].vmaddr + slide + segs[i].vmsize);
  }

  lemma ConcatPages(s: seq<Chain>, t: seq<Chain>)
    requires PagesDisjoint(s) && PagesDisjoint(t)
    requires forall x, y :: x in s && y in t ==> Disjoint(x.page, x.size, y.page, y.size)
    ensures PagesDisjoint(s + t)
  {
    var u := s + t;
    forall i, k | 0 <= i < k < |u| ensures Disjoint(u[i].page, u[i].size, u[k].page, u[k].size) {
      if k >= |s| {
        assert u[k] == t[k - |s|];
        if i >= |s| {
          assert u[i] == t[i - |s|];
        }
      }
    }
  }

  /** What the format asks of an image: chains with legal links that stay in their pages, in disjoint
      segments. */
  ghost predicate PagedImage(b: Binary, d: seq<Byte>, m: Mem, slide: int) {
    && TablesOk(b, d) && SegmentsDisjoint(b.segments)
    && PagesFit(b.segments, StartsIn(b, d))
    && forall c :: c in Chains(b, d, slide) ==> PageOk(m, c)
  }

  /** Such an image meets what `apply_fixups` relies on. */
  lemma PagedImageWellFormed(b: Binary, d: seq<Byte>, m: Mem, slide: int)
    requires PagedImage(b, d, m, slide)
    ensures TablesOk(b, d) && WellFormed(m, Chains(b, d, slide))
  {
    hide WellFormed, PageOk, SegmentChains, TablesOk, StartsIn;
    var t := StartsIn(b, d);
    PagesOfImage(b.segments, t, slide, |t|);
    DisjointPagesWellFormed(m, Chains(b, d, slide));
  }

  // ---- Slide independence ----

  /** The addresses of an image's segments. */
  ghost function Image(segs: seq<Segment>, slide: int): (img: iset<int>) {
    iset x | InSegments(segs, slide, x)
  }

  predicate InSegments(segs: seq<Segment>, slide: int, x: int) {
    exists i :: 0 <= i < |segs| && segs[i].name != PAGEZERO && InRange(x, segs[i].vmaddr + slide, segs[i].vmsize)
  }

  /** `m2` holds the bytes that `m1` has in `img`, `delta` further on; elsewhere they may differ. */
  ghost predicate SameImage(m1: Mem, m2: Mem, delta: int, img: iset<int>) {
    && (forall x :: x in m1 && x in img ==> x + delta in m2 && m2[x + delta] == m1[x])
    && (forall x :: x in m2 ==> x < TWO64)
  }

  ghost predicate SlotsIn(s: seq<Slot>, img: iset<int>) {
    forall k, x :: 0 <= k < |s| && InRange(x, s[k].addr, 8) ==> x in img
  }

  lemma ShiftRead(m1: Mem, m2: Mem, delta: int, img: iset<int>, a: int)
    requires SameImage(m1, m2, delta, img) && Mapped(m1, a, 8)
    requires forall x :: InRange(x, a, 8) ==> x in img
    ensures Mapped(m2, a + delta, 8) && Read64(m2, a + delta) == Read64(m1, a)
    ensures a + delta + 8 <= TWO64
  {
    forall x | a + delta <= x < a + delta + 8 ensures x in m2 && m2[x] == m1[x - delta] {
      assert InRange(x - delta, a, 8);
      assert x - delta in m1;
    }
    assert a + delta + 7 in m2;
    assert ReadBytes(m2, a + delta, 8) == ReadBytes(m1, a, 8);
  }

  ghost predicate ShiftedSlots(s1: seq<Slot>, s2: seq<Slot>, delta: int) {
    && |s1| == |s2|
    && forall k :: 0 <= k < |s1| ==> s2[k] == Slot(s1[k].addr + delta, s1[k].format)
  }

  lemma {:induction false} ShiftChain(m1: Mem, m2: Mem, delta: int, img: iset<int>, a: int, format: int)
    requires SameImage(m1, m2, delta, img) && ChainOk(m1, a) && SlotsIn(ChainSlots(m1, a, format), img)
    ensures ShiftedSlots(ChainSlots(m1, a, format), ChainSlots(m2, a + delta, format), delta)
    decreases TWO64 - a
  {
    hide Read64, Link, SameImage;
    var s := ChainSlots(m1, a, format);
    assert s[0].addr == a;
    ShiftRead(m1, m2, delta, img, a);
    assert Follow(m2, a + delta) == Follow(m1, a) + delta;
    if Follow(m1, a) > a {
      TailIn(s, img);
      assert s[1..] == ChainSlots(m1, Follow(m1, a), format);
      ShiftChain(m1, m2, delta, img, Follow(m1, a), format);
    }
  }

  lemma TailIn(s: seq<Slot>, img: iset<int>)
    requires SlotsIn(s, img) && s != []
    ensures SlotsIn(s[1..], img)
  {
    forall k, x | 0 <= k < |s[1..]| && InRange(x, s[1..][k].addr, 8) ensures x in img {
      assert s[1..][k] == s[k + 1];
    }
  }

  ghost predicate ShiftedChains(c1: seq<Chain>, c2: seq<Chain>, delta: int) {
    && |c1| == |c2|
    && forall k :: 0 <= k < |c1| ==> c2[k] == c1[k].(page := c1[k].page + delta)
  }

  lemma {:induction false} ShiftImage(m1: Mem, m2: Mem, delta: int, img: iset<int>, c1: seq<Chain>, c2: seq<Chain>)
    requires SameImage(m1, m2, delta, img) && StartsOk(m1, c1) && ShiftedChains(c1, c2, delta)
    requires SlotsIn(ImageSlots(m1, c1), img)
    ensures ShiftedSlots(ImageSlots(m1, c1), ImageSlots(m2, c2), delta)
  {
    hide SlotsOf, StartOk, SameImage, SlotsIn;
    if c1 != [] {
      var n := |c1| - 1;
      SplitIn(ImageSlots(m1, c1[..n]), SlotsOf(m1, c1[n]), img);
      ShiftImage(m1, m2, delta, img, c1[..n], c2[..n]);
      ShiftStart(m1, m2, delta, img, c1[n], c2[n]);
      assert forall k :: 0 <= k < n ==> c2[..n][k] == c2[k];
    }
  }

  lemma SplitIn(s: seq<Slot>, t: seq<Slot>, img: iset<int>)
    requires SlotsIn(s + t, img)
    ensures SlotsIn(s, img) && SlotsIn(t, img)
  {
    forall k, x | 0 <= k < |s| && InRange(x, s[k].addr, 8) ensures x in img {
      assert (s + t)[k] == s[k];
    }
    forall k, x | 0 <= k < |t| && InRange(x, t[k].addr, 8) ensures x in img {
      assert (s + t)[|s| + k] == t[k];
    }
  }

  lemma ShiftStart(m1: Mem, m2: Mem, delta: int, img: iset<int>, c1: Chain, c2: Chain)
    requires SameImage(m1, m2, delta, img) && StartOk(m1, c1) && c2 == c1.(page := c1.page + delta)
    requires SlotsIn(SlotsOf(m1, c1), img)
    ensures ShiftedSlots(SlotsOf(m1, c1), SlotsOf(m2, c2), delta)
  {
    hide ChainSlots, ChainOk, SameImage, SlotsIn;
    if Supported(c1.format) {
      ShiftChain(m1, m2, delta, img, c1.Addr(), c1.format);
    }
  }

  lemma ConcatShifted(a1: seq<Chain>, b1: seq<Chain>, a2: seq<Chain>, b2: seq<Chain>, delta: int)
    requires ShiftedChains(a1, a2, delta) && ShiftedChains(b1, b2, delta)
    ensures ShiftedChains(a1 + b1, a2 + b2, delta)
  {
  }

  lemma {:induction false} ShiftPages(seg: Segment, slide: int, delta: int, s: SegInfo, n: nat)
    requires n <= |s.pageStarts|
    ensures ShiftedChains(PageChains(seg, slide, s, n), PageChains(seg, slide + delta, s, n), delta)
  {
    if n > 0 {
      ShiftPages(seg, slide, delta, s, n - 1);
    }
  }

  lemma ShiftSegment(segs: seq<Segment>, t: StartsTable, slide: int, delta: int, i: nat)
    requires Covers(segs, t) && i < |t|
    ensures ShiftedChains(ChainsOfSegment(segs, t, slide, i), ChainsOfSegment(segs, t, slide + delta, i), delta)
  {
    hide PageChains;
    if t[i].Some? {
      ShiftPages(segs[i], slide, delta, t[i].value, |t[i].value.pageStarts|);
    }
  }

  lemma {:induction false} ShiftSegments(segs: seq<Segment>, t: StartsTable, slide: int, delta: int, n: nat)
    requires Covers(segs, t) && n <= |t|
    ensures ShiftedChains(SegmentChains(segs, t, slide, n), SegmentChains(segs, t, slide + delta, n), delta)
  {
    hide ChainsOfSegment, ShiftedChains;
    if n == 0 {
      NoneShifted(delta);
    } else {
      ShiftSegments(segs, t, slide, delta, n - 1);
      ShiftSegment(segs, t, slide, delta, n - 1);
      ConcatShifted(SegmentChains(segs, t, slide, n - 1), ChainsOfSegment(segs, t, slide, n - 1),
                    SegmentChains(segs, t, slide + delta, n - 1), ChainsOfSegment(segs, t, slide + delta, n - 1), delta);
    }
  }

  lemma NoneShifted(delta: int)
    ensures ShiftedChains([], [], delta)
  {
  }

  /** The slots whose value moves with the image: rebases with a non-zero target. */
  predicate MovesWithSlide(format: int, f: Fixup) {
    f.Rebase? && RebaseOffset(format, f.target, f.high8) != 0
  }

  lemma ValueMoves(format: int, f: Fixup, imports: seq<U64>, load: int, delta: int)
    ensures Value(format, f, imports, load + delta) ==
            if MovesWithSlide(format, f) then Wrap64(Value(format, f, imports, load) + delta)
            else Value(format, f, imports, load)
  {
    if MovesWithSlide(format, f) {
      var off := RebaseOffset(format, f.target, f.high8);
      WrapAdd(load + off, delta);
    }
  }

  /** The slots of a paged image lie in its segments. */
  lemma SlotsInImage(b: Binary, d: seq<Byte>, m: Mem, slide: int)
    requires PagedImage(b, d, m, slide)
    ensures SlotsIn(ImageSlots(m, Chains(b, d, slide)), Image(b.segments, slide))
  {
    hide WellFormed, PageOk, SegmentChains, TablesOk, StartsIn, ImageSlots, InSomePage, InEarlierSegment;
    var t, cs := StartsIn(b, d), Chains(b, d, slide);
    PagesOfImage(b.segments, t, slide, |t|);
    DisjointPagesWellFormed(m, cs);
    var slots := ImageSlots(m, cs);
    forall k, x | 0 <= k < |slots| && InRange(x, slots[k].addr, 8) ensures x in Image(b.segments, slide) {
      assert slots[k] in slots;
      SlotInSegment(b.segments, t, slide, cs, slots[k], x);
    }
  }

  lemma SlotInSegment(segs: seq<Segment>, t: StartsTable, slide: int, cs: seq<Chain>, s: Slot, x: int)
    requires Covers(segs, t) && InSomePage(s, cs) && InRange(x, s.addr, 8)
    requires forall c :: c in cs ==> InEarlierSegment(c, segs, t, slide, |t|)
    ensures x in Image(segs, slide)
  {
    var k :| 0 <= k < |cs| && cs[k].page <= s.addr && s.addr + 8 <= cs[k].page + cs[k].size;
    assert cs[k] in cs;
    var i :| 0 <= i < |t| && t[i].Some? &&
      Within(cs[k], segs[i].vmaddr + slide, segs[i].vmaddr + slide + segs[i].vmsize);
    assert InRange(x, segs[i].vmaddr + slide, segs[i].vmsize);
  }

  /** Relocating one image at two slides gives the same bytes at corresponding addresses of its
      segments, except that each non-null rebase moves by exactly the slide difference. What the two
      processes hold elsewhere does not matter. */
  lemma SlideIndependent(b: Binary, d: seq<Byte>, imports: seq<U64>,
                         m1: Mem, slide1: int, f1: Mem, m2: Mem, slide2: int, f2: Mem)
    requires PagedImage(b, d, m1, slide1)
    requires SameImage(m1, m2, slide2 - slide1, Image(b.segments, slide1))
    requires Relocated(m1, f1, ImageSlots(m1, Chains(b, d, slide1)), imports, PreferredLoadAddress(b) + slide1)
    requires Relocated(m2, f2, ImageSlots(m2, Chains(b, d, slide2)), imports, PreferredLoadAddress(b) + slide2)
    ensures AgreeUpToSlide(m1, f1, f2, ImageSlots(m1, Chains(b, d, slide1)), slide2 - slide1, Image(b.segments, slide1))
  {
    hide *;
    var delta := slide2 - slide1;
    PagedTables(b, d, m1, slide1);
    ShiftImageChains(b, d, slide1, delta);
    var c1, c2, img := Chains(b, d, slide1), Chains(b, d, slide2), Image(b.segments, slide1);
    PagedImageWellFormed(b, d, m1, slide1);
    WellStarted(m1, c1);
    SlotsInImage(b, d, m1, slide1);
    ShiftImage(m1, m2, delta, img, c1, c2);
    var s1, s2 := ImageSlots(m1, c1), ImageSlots(m2, c2);
    var load := PreferredLoadAddress(b) + slide1;
    ImagesAgree(m1, f1, m2, f2, s1, s2, delta, img, imports, load);
  }

  lemma PagedTables(b: Binary, d: seq<Byte>, m: Mem, slide: int)
    requires PagedImage(b, d, m, slide)
    ensures TablesOk(b, d)
  {
    hide TablesOk;
  }

  lemma WellStarted(m: Mem, cs: seq<Chain>)
    requires WellFormed(m, cs)
    ensures StartsOk(m, cs)
  {
    hide StartOk;
  }

  lemma ShiftImageChains(b: Binary, d: seq<Byte>, slide: int, delta: int)
    requires TablesOk(b, d)
    ensures ShiftedChains(Chains(b, d, slide), Chains(b, d, slide + delta), delta)
  {
    hide TablesOk, StartsIn, SegmentChains;
    var t := StartsIn(b, d);
    ShiftSegments(b.segments, t, slide, delta, |t|);
  }

  /** `f1` and `f2` are one image relocated at slides `delta` apart: bytes of `img` outside the slots
      and slots that do not move are equal, the others differ by exactly `delta`. */
  ghost predicate AgreeUpToSlide(m1: Mem, f1: Mem, f2: Mem, slots: seq<Slot>, delta: int, img: iset<int>) {
    && (forall x :: x in m1 && x in img && !InSomeSlot(x, slots) ==>
          x in f1 && x + delta in f2 && f2[x + delta] == f1[x])
    && (forall s :: s in slots ==> SlotAgrees(m1, f1, f2, s, delta))
  }

  lemma ImagesAgree(m1: Mem, f1: Mem, m2: Mem, f2: Mem, s1: seq<Slot>, s2: seq<Slot>, delta: int, img: iset<int>,
                    imports: seq<U64>, load: int)
    requires SameImage(m1, m2, delta, img) && ShiftedSlots(s1, s2, delta) && SlotsIn(s1, img)
    requires Relocated(m1, f1, s1, imports, load) && Relocated(m2, f2, s2, imports, load + delta)
    ensures AgreeUpToSlide(m1, f1, f2, s1, delta, img)
  {
    hide Relocated, SameImage, ShiftedSlots, SlotAgrees, SlotsIn;
    forall x | x in m1 && x in img && !InSomeSlot(x, s1) ensures x in f1 && x + delta in f2 && f2[x + delta] == f1[x] {
      OutsideAgrees(m1, f1, m2, f2, s1, s2, delta, img, imports, load, x);
    }
    forall s | s in s1 ensures SlotAgrees(m1, f1, f2, s, delta) {
      SlotsAgree(m1, f1, m2, f2, s1, s2, delta, img, imports, load, s);
    }
  }

  /** How the two relocated images compare at slot `s` of the first. */
  ghost predicate SlotAgrees(m1: Mem, f1: Mem, f2: Mem, s: Slot, delta: int) {
    && Mapped(m1, s.addr, 8) && Mapped(f1, s.addr, 8) && Mapped(f2, s.addr + delta, 8)
    && if MovesWithSlide(s.format, FixupOf(Read64(m1, s.addr)))
       then Read64(f2, s.addr + delta) == Wrap64(Read64(f1, s.addr) + delta)
       else forall x :: InRange(x, s.addr, 8) ==> f1[x] == f2[x + delta]
  }

  lemma OutsideAgrees(m1: Mem, f1: Mem, m2: Mem, f2: Mem, s1: seq<Slot>, s2: seq<Slot>, delta: int, img: iset<int>,
                      imports: seq<U64>, load: int, x: int)
    requires SameImage(m1, m2, delta, img) && ShiftedSlots(s1, s2, delta)
    requires Relocated(m1, f1, s1, imports, load) && Relocated(m2, f2, s2, imports, load + delta)
    requires x in m1 && x in img && !InSomeSlot(x, s1)
    ensures x in f1 && x + delta in f2 && f2[x + delta] == f1[x]
  {
    forall k | 0 <= k < |s2| ensures !InRange(x + delta, s2[k].addr, 8) {
      assert !InRange(x, s1[k].addr, 8);
    }
  }

  lemma SlotsAgree(m1: Mem, f1: Mem, m2: Mem, f2: Mem, s1: seq<Slot>, s2: seq<Slot>, delta: int, img: iset<int>,
                   imports: seq<U64>, load: int, s: Slot)
    requires SameImage(m1, m2, delta, img) && ShiftedSlots(s1, s2, delta) && SlotsIn(s1, img)
    requires Relocated(m1, f1, s1, imports, load) && Relocated(m2, f2, s2, imports, load + delta)
    requires s in s1
    ensures SlotAgrees(m1, f1, f2, s, delta)
  {
    hide Read64, Value, FixupOf, SameImage;
    var k :| 0 <= k < |s1| && s1[k] == s;
    var f := FixupOf(Read64(m1, s.addr));
    ShiftRead(m1, m2, delta, img, s.addr);
    assert s2[k] == Slot(s.addr + delta, s.format);
    ValueMoves(s.format, f, imports, load, delta);
    if !MovesWithSlide(s.format, f) {
      Read64Determines(f1, s.addr, f2, s.addr + delta);
    }
  }
}
