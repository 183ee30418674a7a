/** What relocation means for the program: rebased pointers lead to the bytes they denote, bound
pointers hold the addresses of their imports.
*/
module RelocationMeaning {
  import opened Memory
  import opened MachO
  import opened Fixups
  import opened FixupImage
  import Mapper

  /** A rebase as the static linker writes it: 36 bits of target, 8 high bits, 7 reserved bits of zero and
      12 bits of distance to the next slot. */
  function RebaseWord(target: nat, high8: nat, next: nat): (w: nat) {
    target + high8 * 0x10_0000_0000 + next * 0x8_0000_0000_0000
  }

  /** A bind: 24 bits of import ordinal, 8 bits of addend, the distance, and the top bit. */
  function BindWord(ordinal: nat, addend: nat, next: nat): (w: nat) {
    ordinal + addend * 0x100_0000 + next * 0x8_0000_0000_0000 + 0x8000_0000_0000_0000
  }

  /** `s` was a slot holding word `w`, and `f` is the relocated image. */
  ghost predicate Slotted(m: Mem, f: Mem, slots: seq<Slot>, imports: seq<U64>, load: int, s: Slot, w: nat) {
    && Relocated(m, f, slots, imports, load)
    && s in slots && Mapped(m, s.addr, 8) && Mapped(f, s.addr, 8) && Read64(m, s.addr) == w
  }

  /** Where __TEXT asks to be loaded; 0 without it. */
  function TextAddress(b: Binary): (a: nat) {
    var i := FindSegment(b.segments, "__TEXT");
    if i < |b.segments| then b.segments[i].vmaddr else 0
  }

  lemma SlotHolds(m: Mem, f: Mem, slots: seq<Slot>, imports: seq<U64>, load: int, s: Slot, x: Fixup, n: nat)
    requires x.Fits() && n < 4096
    requires Slotted(m, f, slots, imports, load, s, Encode(x, n))
    ensures Read64(f, s.addr) == Value(s.format, x, imports, load)
  {
    hide Read64, FixupOf, Encode, Value;
    EncodeDecode(x, n);
    var k :| 0 <= k < |slots| && slots[k] == s;
  }

  lemma RebaseValue(m: Mem, f: Mem, slots: seq<Slot>, imports: seq<U64>, load: int, s: Slot, t: nat, h: nat, n: nat)
    requires t < 0x10_0000_0000 && h < 256 && n < 4096
    requires Slotted(m, f, slots, imports, load, s, RebaseWord(t, h, n))
    ensures var offset := if s.format == 1 then t + h * 0x100_0000_0000_0000 else t;
            Read64(f, s.addr) == if offset == 0 then 0 else (load + offset) % TWO64
  {
    hide Read64, Slotted;
    SlotHolds(m, f, slots, imports, load, s, Rebase(t, h), n);
  }

  /** A target of zero stays null, in both formats. */
  lemma NullStaysNull(m: Mem, f: Mem, slots: seq<Slot>, imports: seq<U64>, load: int, s: Slot, h: nat, n: nat)
    requires h < 256 && n < 4096 && (s.format == 1 ==> h == 0)
    requires Slotted(m, f, slots, imports, load, s, RebaseWord(0, h, n))
    ensures Read64(f, s.addr) == 0
  {
    hide Slotted, Read64;
    RebaseValue(m, f, slots, imports, load, s, 0, h, n);
  }

  /** Following a relocated pointer: the slot holds the address at which the byte it denotes, `t` bytes
      beyond the preferred load address, was mapped. In format 1 the address carries the high bits in
      its top byte. */
  lemma RebaseLeads(b: Binary, m: Mem, f: Mem, slots: seq<Slot>, imports: seq<U64>, s: Slot,
                    t: nat, h: nat, n: nat, i: nat)
    requires 0 < t < 0x10_0000_0000 && h < 256 && n < 4096
    requires Mapper.AllHold(m, b, b.slide, |b.segments|)
    requires Slotted(m, f, slots, imports, PreferredLoadAddress(b) + b.slide, s, RebaseWord(t, h, n))
    requires i < |b.segments| && b.segments[i].name != PAGEZERO
    requires InRange(TextAddress(b) + t, b.segments[i].vmaddr, b.segments[i].vmsize)
    requires TextAddress(b) + b.slide + t < if s.format == 1 then 0x100_0000_0000_0000 else TWO64
    ensures var v := Read64(f, s.addr);
            var x := if s.format == 1 then v % 0x100_0000_0000_0000 else v;
            && x in m && m[x] == Mapper.SegmentByte(b.segments[i], b.data, TextAddress(b) + t - b.segments[i].vmaddr)
            && (s.format == 1 ==> v / 0x100_0000_0000_0000 == h)
  {
    hide Slotted, Read64;
    var load := PreferredLoadAddress(b) + b.slide;
    RebaseValue(m, f, slots, imports, load, s, t, h, n);
    var x := TextAddress(b) + b.slide + t;
    assert Mapper.Holds(m, b.segments[i], b.data, b.slide);
    assert InRange(x, b.segments[i].vmaddr + b.slide, b.segments[i].vmsize);
    if s.format == 1 {
      Pack(x, h, 0x100_0000_0000_0000);
      assert load + (t + h * 0x100_0000_0000_0000) == x + h * 0x100_0000_0000_0000 < TWO64;
    }
  }

  /** The addend is a signed byte. */
  function Signed(addend: nat): (d: int) {
    if addend < 128 then addend else addend - 256
  }

  lemma BoundValue(m: Mem, f: Mem, slots: seq<Slot>, imports: seq<U64>, load: int, s: Slot, o: nat, a: nat, n: nat)
    requires o < 0x100_0000 && a < 256 && n < 4096 && (s.format == 1 || s.format == 6)
    requires Slotted(m, f, slots, imports, load, s, BindWord(o, a, n))
    ensures Read64(f, s.addr) ==
            if o >= |imports| then 0
            else if s.format == 1 || imports[o] == 0 then imports[o]
            else (imports[o] + Signed(a)) % TWO64
  {
    hide Read64, Slotted;
    SlotHolds(m, f, slots, imports, load, s, Bind(o, a), n);
  }

  /** A bound slot holds the address that its import resolves to, by library and name, plus the signed
      addend in format 6; it is null when the table has no such import, and a null import stays null. */
  lemma BindValue(b: Binary, d: seq<Byte>, m: Mem, f: Mem, slots: seq<Slot>, imports: seq<U64>, resolve: Resolver,
                  load: int, s: Slot, o: nat, a: nat, n: nat)
    requires o < 0x100_0000 && a < 256 && n < 4096 && (s.format == 1 || s.format == 6)
    requires ImportsOk(d) && IsImportTable(imports, ImportCount(d), b, d, resolve)
    requires Slotted(m, f, slots, imports, load, s, BindWord(o, a, n))
    ensures o >= ImportCount(d) ==> Read64(f, s.addr) == 0
    ensures o < ImportCount(d) ==>
              var base := resolve(DylibName(b, ImportRaw(d, o) % 256), CString(d, NameOffset(d, o)));
              Read64(f, s.addr) == if s.format == 1 || base == 0 then base else (base + Signed(a)) % TWO64
  {
    hide Slotted, Read64, U32, HasNul, CString, DylibName, ImportRaw, NameOffset, BindWord, Signed;
    BoundValue(m, f, slots, imports, load, s, o, a, n);
  }
}
