/** The raw layout of the LC_DYLD_CHAINED_FIXUPS data: tables laid out field by field are read back,
and every chain starts where the tables say.
*/
module FixupTables {
  import opened Memory
  import opened MachO
  import opened Fixups
  import opened FixupImage

  // ---- Reading fields ----

  /** A little-endian field of `n` bytes in the middle of other data reads back as its value. */
  lemma FieldReads(pre: seq<Byte>, v: nat, n: nat, post: seq<Byte>)
    requires v < Pow256(n)
    ensures var d := pre + ToLE(v, n) + post;
            |pre| + n <= |d| && FromLE(d[|pre|..|pre| + n]) == v
  {
    FromToLE(v, n);
    var d := pre + ToLE(v, n) + post;
    assert d[|pre|..|pre| + n] == ToLE(v, n);
  }

  lemma Word32(pre: seq<Byte>, v: nat, post: seq<Byte>)
    requires v < 0x1_0000_0000
    ensures var d := pre + ToLE(v, 4) + post; |pre| + 4 <= |d| && U32(d, |pre|) == v
  {
    Pow256Eight();
    FieldReads(pre, v, 4, post);
  }

  lemma Word16(pre: seq<Byte>, v: nat, post: seq<Byte>)
    requires v < 0x1_0000
    ensures var d := pre + ToLE(v, 2) + post; |pre| + 2 <= |d| && U16(d, |pre|) == v
  {
    Pow256Eight();
    FieldReads(pre, v, 2, post);
  }

  // ---- The header: version, starts, imports, symbols, import count and the two formats ----

  function Header(version: nat, starts: nat, imports: nat, symbols: nat, count: nat, format: nat, symbolsFormat: nat)
    : (d: seq<Byte>)
    ensures |d| == 28
  {
    ToLE(version, 4) + ToLE(starts, 4) + ToLE(imports, 4) + ToLE(symbols, 4) + ToLE(count, 4) + ToLE(format, 4) +
    ToLE(symbolsFormat, 4)
  }

  lemma HeaderReads(version: nat, starts: nat, imports: nat, symbols: nat, count: nat, format: nat, symbolsFormat: nat,
                    post: seq<Byte>)
    requires starts < 0x1_0000_0000 && imports < 0x1_0000_0000 && symbols < 0x1_0000_0000 && count < 0x1_0000_0000
    ensures var d := Header(version, starts, imports, symbols, count, format, symbolsFormat) + post;
            && HEADER_SIZE <= |d| && Starts(d) == starts && ImportCount(d) == count
            && U32(d, 8) == imports && U32(d, 12) == symbols
  {
    hide ToLE, U32;
    var v, s, i, y, c, f, z := ToLE(version, 4), ToLE(starts, 4), ToLE(imports, 4), ToLE(symbols, 4), ToLE(count, 4),
                               ToLE(format, 4), ToLE(symbolsFormat, 4);
    var d := Header(version, starts, imports, symbols, count, format, symbolsFormat) + post;
    assert d == v + s + (i + y + c + f + z + post);
    Word32(v, starts, i + y + c + f + z + post);
    assert d == (v + s) + i + (y + c + f + z + post);
    Word32(v + s, imports, y + c + f + z + post);
    assert d == (v + s + i) + y + (c + f + z + post);
    Word32(v + s + i, symbols, c + f + z + post);
    assert d == (v + s + i + y) + c + (f + z + post);
    Word32(v + s + i + y, count, f + z + post);
  }

  // ---- The starts of a segment ----

  /** size, page_size, pointer_format, segment_offset, max_valid_pointer and page_count. */
  function StartsHead(size: nat, pageSize: nat, format: nat, offset: nat, maxPointer: nat, count: nat): (d: seq<Byte>)
    ensures |d| == 22
  {
    ToLE(size, 4) + ToLE(pageSize, 2) + ToLE(format, 2) + ToLE(offset, 8) + ToLE(maxPointer, 4) + ToLE(count, 2)
  }

  function PageStarts(starts: seq<nat>): (d: seq<Byte>)
    ensures |d| == 2 * |starts|
  {
    if starts == [] then [] else PageStarts(starts[..|starts| - 1]) + ToLE(starts[|starts| - 1], 2)
  }

  lemma {:induction false} PageStartReads(pre: seq<Byte>, starts: seq<nat>, post: seq<Byte>, j: nat)
    requires j < |starts| && forall k :: 0 <= k < |starts| ==> starts[k] < 0x1_0000
    ensures var d := pre + PageStarts(starts) + post;
            |pre| + 2 * j + 2 <= |d| && U16(d, |pre| + 2 * j) == starts[j]
    decreases |starts|
  {
    hide ToLE, U16;
    var n := |starts| - 1;
    var init, last := PageStarts(starts[..n]), ToLE(starts[n], 2);
    if j == n {
      assert pre + (init + last) + post == (pre + init) + last + post;
      Word16(pre + init, starts[n], post);
    } else {
      assert pre + (init + last) + post == pre + init + (last + post);
      PageStartReads(pre, starts[..n], last + post, j);
    }
  }

  /** The three fields of the head that the loader reads. */
  lemma HeadReads(pre: seq<Byte>, size: nat, pageSize: nat, format: nat, offset: nat, maxPointer: nat, count: nat,
                  tail: seq<Byte>)
    requires pageSize < 0x1_0000 && format < 0x1_0000 && count < 0x1_0000
    ensures var d := pre + (StartsHead(size, pageSize, format, offset, maxPointer, count) + tail);
            |pre| + 22 <= |d| && U16(d, |pre| + 4) == pageSize && U16(d, |pre| + 6) == format && U16(d, |pre| + 20) == count
  {
    hide ToLE, U16;
    var s, p, f, o, x, c := ToLE(size, 4), ToLE(pageSize, 2), ToLE(format, 2), ToLE(offset, 8), ToLE(maxPointer, 4),
                            ToLE(count, 2);
    var head := s + p + f + o + x + c;
    assert head + tail == s + p + (f + o + x + c + tail);
    FieldAt(pre, s, pageSize, f + o + x + c + tail);
    assert head + tail == (s + p) + f + (o + x + c + tail);
    FieldAt(pre, s + p, format, o + x + c + tail);
    assert head + tail == (s + p + f + o + x) + c + tail;
    FieldAt(pre, s + p + f + o + x, count, tail);
  }

  lemma FieldAt(pre: seq<Byte>, before: seq<Byte>, v: nat, tail: seq<Byte>)
    requires v < 0x1_0000
    ensures var d := pre + (before + ToLE(v, 2) + tail);
            |pre| + |before| + 2 <= |d| && U16(d, |pre| + |before|) == v
  {
    hide ToLE, U16;
    assert pre + (before + ToLE(v, 2) + tail) == (pre + before) + ToLE(v, 2) + tail;
    Word16(pre + before, v, tail);
  }

  lemma SegmentStartsRead(pre: seq<Byte>, size: nat, pageSize: nat, format: nat, offset: nat, maxPointer: nat,
                          starts: seq<nat>, post: seq<Byte>)
    requires pageSize < 0x1_0000 && format < 0x1_0000 && |starts| < 0x1_0000
    requires forall k :: 0 <= k < |starts| ==> starts[k] < 0x1_0000
    ensures var d := pre + (StartsHead(size, pageSize, format, offset, maxPointer, |starts|) + (PageStarts(starts) + post));
            SegInfoOk(d, |pre|) && SegInfoAt(d, |pre|) == SegInfo(pageSize, format, starts)
  {
    hide StartsHead, U16, PageStarts, SegInfoOk, SegInfoAt;
    var head := StartsHead(size, pageSize, format, offset, maxPointer, |starts|);
    HeadReads(pre, size, pageSize, format, offset, maxPointer, |starts|, PageStarts(starts) + post);
    var d := pre + (head + (PageStarts(starts) + post));
    AllPageStarts(pre + head, starts, post);
    assert d == (pre + head) + PageStarts(starts) + post;
    InfoFrom(d, |pre|, pageSize, format, starts);
  }

  lemma AllPageStarts(pre: seq<Byte>, starts: seq<nat>, post: seq<Byte>)
    requires forall k :: 0 <= k < |starts| ==> starts[k] < 0x1_0000
    ensures forall j :: 0 <= j < |starts| ==> PageStartIs(pre + PageStarts(starts) + post, |pre|, j, starts[j])
  {
    hide U16, PageStarts;
    forall j | 0 <= j < |starts| ensures PageStartIs(pre + PageStarts(starts) + post, |pre|, j, starts[j]) {
      PageStartReads(pre, starts, post, j);
    }
  }

  predicate PageStartIs(d: seq<Byte>, o: nat, j: nat, v: nat) {
    o + 2 * j + 2 <= |d| && U16(d, o + 2 * j) == v
  }

  lemma InfoFrom(d: seq<Byte>, o: nat, pageSize: nat, format: nat, starts: seq<nat>)
    requires o + 22 + 2 * |starts| <= |d|
    requires U16(d, o + 4) == pageSize && U16(d, o + 6) == format && U16(d, o + 20) == |starts|
    requires forall j :: 0 <= j < |starts| ==> PageStartIs(d, o + 22, j, starts[j])
    ensures SegInfoOk(d, o) && SegInfoAt(d, o) == SegInfo(pageSize, format, starts)
  {
    hide U16;
    var s := SegInfoAt(d, o).pageStarts;
    forall j | 0 <= j < |starts| ensures s[j] == starts[j] {
      assert PageStartIs(d, o + 22, j, starts[j]);
      assert o + 22 + j * 2 == o + 22 + 2 * j;
    }
  }

  // ---- Imports ----

  /** An import packs an 8-bit library ordinal, a weak flag and a 23-bit name offset. */
  lemma ImportReads(b: Binary, d: seq<Byte>, i: nat, ordinal: nat, weak: nat, name: nat)
    requires HEADER_SIZE <= |d| && U32(d, 8) + 4 * i + 4 <= |d| && ordinal < 256 && weak < 2
    requires U32(d, U32(d, 8) + 4 * i) == ordinal + 256 * weak + 512 * name
    ensures NameOffset(d, i) == U32(d, 12) + name
    ensures ImportRaw(d, i) % 256 == ordinal
    ensures DylibName(b, ImportRaw(d, i) % 256) ==
            if 1 <= ordinal <= 252 && ordinal <= |b.dylibDeps| then b.dylibDeps[ordinal - 1] else "self"
  {
    hide U32;
  }

  // ---- Where chains start ----

  /** Page `j` of segment `i` has a chain, and `c` is its start: `j` pages beyond the slid segment, plus
      the page's start offset. */
  ghost predicate StartsAt(b: Binary, d: seq<Byte>, slide: int, c: Chain, i: nat, j: nat)
    requires TablesOk(b, d)
  {
    && i < SegCount(d) && Active(b, d, i)
    && var o := Starts(d) + SegInfoOffset(d, i);
       && j < U16(d, o + 20) && U16(d, o + 22 + j * 2) != 0xFFFF
       && c.page == b.segments[i].vmaddr + slide + j * U16(d, o + 4) && c.offset == U16(d, o + 22 + j * 2)
       && c.Addr() == b.segments[i].vmaddr + slide + j * U16(d, o + 4) + U16(d, o + 22 + j * 2)
       && c.size == U16(d, o + 4) && c.format == U16(d, o + 6)
  }

  lemma {:induction false} PageChainsExact(seg: Segment, slide: int, s: SegInfo, n: nat, c: Chain)
    requires n <= |s.pageStarts|
    ensures c in PageChains(seg, slide, s, n) <==>
            exists j :: 0 <= j < n && s.pageStarts[j] != PAGE_START_NONE &&
              c == Chain(seg.vmaddr + slide + j * s.pageSize, s.pageSize, s.pageStarts[j], s.format)
  {
    if n > 0 {
      PageChainsExact(seg, slide, s, n - 1, c);
      var last := Chain(seg.vmaddr + slide + (n - 1) * s.pageSize, s.pageSize, s.pageStarts[n - 1], s.format);
      assert c in PageChains(seg, slide, s, n) <==>
             c in PageChains(seg, slide, s, n - 1) || (s.pageStarts[n - 1] != PAGE_START_NONE && c == last);
    }
  }

  lemma {:induction false} SegmentChainsExact(segs: seq<Segment>, t: StartsTable, slide: int, n: nat, c: Chain)
    requires Covers(segs, t) && n <= |t|
    ensures c in SegmentChains(segs, t, slide, n) <==> exists i :: 0 <= i < n && c in ChainsOfSegment(segs, t, slide, i)
  {
    hide ChainsOfSegment;
    if n > 0 {
      SegmentChainsExact(segs, t, slide, n - 1, c);
    }
  }

  /** The chains that are walked are exactly those the tables name. */
  lemma ChainsExact(b: Binary, d: seq<Byte>, slide: int, c: Chain)
    requires TablesOk(b, d)
    ensures c in Chains(b, d, slide) <==> exists i: nat, j: nat :: StartsAt(b, d, slide, c, i, j)
  {
    hide TablesOk, SegmentChains, ChainsOfSegment, PageChains, U16, U32;
    var t := StartsIn(b, d);
    SegmentChainsExact(b.segments, t, slide, |t|, c);
    forall i: nat, j: nat | StartsAt(b, d, slide, c, i, j) ensures c in ChainsOfSegment(b.segments, t, slide, i) {
      SegmentExact(b, d, slide, c, i);
    }
    forall i: nat | i < |t| && c in ChainsOfSegment(b.segments, t, slide, i) ensures exists j: nat :: StartsAt(b, d, slide, c, i, j) {
      SegmentExact(b, d, slide, c, i);
    }
  }

  lemma SegmentExact(b: Binary, d: seq<Byte>, slide: int, c: Chain, i: nat)
    requires TablesOk(b, d) && i < |StartsIn(b, d)|
    ensures c in ChainsOfSegment(b.segments, StartsIn(b, d), slide, i) <==> exists j: nat :: StartsAt(b, d, slide, c, i, j)
  {
    hide PageChains, U16, U32;
    var t := StartsIn(b, d);
    if Active(b, d, i) {
      var s := SegInfoAt(d, Starts(d) + SegInfoOffset(d, i));
      PageChainsExact(b.segments[i], slide, s, |s.pageStarts|, c);
      var o := Starts(d) + SegInfoOffset(d, i);
      assert s.pageSize == U16(d, o + 4) && s.format == U16(d, o + 6) && |s.pageStarts| == U16(d, o + 20);
      if j :| 0 <= j < |s.pageStarts| && s.pageStarts[j] != PAGE_START_NONE &&
              c == Chain(b.segments[i].vmaddr + slide + j * s.pageSize, s.pageSize, s.pageStarts[j], s.format) {
        assert StartsAt(b, d, slide, c, i, j);
      }
      if j: nat :| StartsAt(b, d, slide, c, i, j) {
        assert s.pageStarts[j] == U16(d, o + 22 + j * 2);
        assert c == Chain(b.segments[i].vmaddr + slide + j * s.pageSize, s.pageSize, s.pageStarts[j], s.format);
      }
    }
  }
}
