/** Darwin small strings repacked for Linux, and read back by two independent decoders. */
module SwiftString {
  import opened Memory

  type Word = x: int | 0 <= x < TWO64

  // ---- Bit operations on words ----

  function Pow2(n: nat): (p: nat)
    ensures p > 0
  {
    if n == 0 then 1 else 2 * Pow2(n - 1)
  }

  /** Bitwise or of two natural numbers. */
  function BitOr(a: nat, b: nat): (r: nat)
    decreases a + b
  {
    if a == 0 && b == 0 then 0
    else (if a % 2 == 1 || b % 2 == 1 then 1 else 0) + 2 * BitOr(a / 2, b / 2)
  }

  function Shl(b: nat, k: nat): (r: nat) { b * Pow2(k) }

  function Shr(w: nat, k: nat): (r: int) { w / Pow2(k) }

  /** Or-ing into bits that are still zero adds. */
  lemma {:induction false} OrDisjoint(a: nat, c: nat, n: nat)
    requires a < Pow2(n)
    ensures BitOr(a, c * Pow2(n)) == a + c * Pow2(n)
    decreases n, c
  {
    if n == 0 {
      OrZero(c);
      assert c * Pow2(0) == c;
    } else if a != 0 || c != 0 {
      var b := c * Pow2(n - 1);
      assert c * Pow2(n) == 2 * b;
      OrDisjoint(a / 2, c, n - 1);
    }
  }

  lemma {:induction false} OrZero(c: nat)
    ensures BitOr(0, c) == c && BitOr(c, 0) == c
  {
    if c > 0 {
      OrZero(c / 2);
    }
  }

  lemma {:induction false} BytePowers(i: nat)
    ensures Pow2(8 * i) == Pow256(i)
  {
    if i > 0 {
      BytePowers(i - 1);
      assert Pow2(8 * i) == 2 * Pow2(8 * i - 1) == 4 * Pow2(8 * i - 2) == 8 * Pow2(8 * i - 3) == 16 * Pow2(8 * i - 4);
      assert Pow2(8 * i - 4) == 2 * Pow2(8 * i - 5) == 4 * Pow2(8 * i - 6) == 8 * Pow2(8 * i - 7) == 16 * Pow2(8 * i - 8);
    }
  }

  /** The i-th byte of a word, by shifting and masking. */
  lemma {:induction false} ShiftedByte(v: nat, n: nat, i: nat)
    requires i < n
    ensures ToLE(v, n)[i] == Shr(v, 8 * i) % 256
    decreases i
  {
    BytePowers(i);
    if i > 0 {
      ShiftedByte(v / 256, n - 1, i - 1);
      BytePowers(i - 1);
      DivDiv(v, 256, Pow256(i - 1));
    }
  }

  lemma DivDiv(v: nat, a: nat, b: nat)
    requires a > 0 && b > 0
    ensures (v / a) / b == v / (a * b)
  {
    var q, r := v / a, v % a;
    var q2, r2 := q / b, q % b;
    Distribute(q2, b, r2, a);
    BelowProduct(r2, b, r, a);
    Quotient(v, a * b, q2, r2 * a + r);
  }

  lemma Distribute(q: int, b: int, r: int, a: int)
    ensures (q * b + r) * a == q * (a * b) + r * a
  {
  }

  lemma BelowProduct(x: nat, b: nat, y: nat, a: nat)
    requires x < b && y < a
    ensures 0 <= x * a + y < a * b
  {
    assert x * a <= (b - 1) * a;
  }

  lemma Quotient(v: int, d: int, q: int, r: int)
    requires d > 0 && v == q * d + r && 0 <= r < d
    ensures v / d == q
  {
    var k := v / d - q;
    assert k * d == r - v % d;
    assert k >= 1 ==> k * d >= d;
    assert k <= -1 ==> k * d <= -d;
  }

  lemma Rotate(b: int, p: int)
    ensures b * (256 * p) == 256 * (b * p)
  {
  }

  lemma {:induction false} FromLESnoc(bs: seq<Byte>, b: Byte)
    ensures FromLE(bs + [b]) == FromLE(bs) + b * Pow256(|bs|)
  {
    if bs == [] {
      assert [] + [b] == [b];
      assert FromLE([b][1..]) == 0;
    } else {
      assert (bs + [b])[1..] == bs[1..] + [b];
      FromLESnoc(bs[1..], b);
      Rotate(b, Pow256(|bs| - 1));
    }
  }

  // ---- String values ----

  /** The two words of a Swift string, as Darwin and Linux lay them out on x86-64. */
  datatype Str = Str(word0: Word, word1: Word) {
    predicate IsSmall() { Shr(word1, 60) == 0xE }

    predicate IsBridged() { Shr(word1, 62) % 2 == 1 }

    function Count(): (n: nat)
      ensures n < 16
    {
      Shr(word1, 56) % 16
    }

    /** The 15 bytes of a small string: all of word 0, and word 1 without its top byte. */
    function Payload(): (bs: seq<Byte>)
      ensures |bs| == 15
    {
      ToLE(word0, 8) + ToLE(word1, 8)[..7]
    }

    /** The bytes of a small string under the layout the translator assumes. */
    function Content(): (bs: seq<Byte>)
      ensures |bs| == Count()
    {
      Payload()[..Count()]
    }
  }

  // ---- Translation ----

  const MAX_SMALL: nat := 15

  function Min(a: nat, b: nat): (m: nat) { if a < b then a else b }

  /** `bs` cut or filled with zeros to length `n`. */
  function Padded(bs: seq<Byte>, n: nat): (r: seq<Byte>)
    ensures |r| == n
  {
    seq(n, i requires 0 <= i < n => if i < |bs| then bs[i] else 0)
  }

  /** The canonical small string for `bs`: zero padding, and the tag with the count on top. */
  function Encode(bs: seq<Byte>): (s: Str)
    requires |bs| <= MAX_SMALL
  {
    Pow256Eight();
    var p := Padded(bs, 15);
    Str(FromLE(p[..8]), FromLE(p[8..] + [0xE0 + |bs|]))
  }

  /** What `to_linux_string` returns. `cfBytes` gives the bytes of the CFString at an address. */
  function ToLinux(s: Str, cfBytes: Word -> seq<Byte>): (l: Str) {
    if s.IsSmall() then Encode(s.Content())
    else if s.IsBridged() then
      if s.word0 == 0 then Encode([])
      else var bs := cfBytes(s.word0); Encode(bs[..Min(|bs|, MAX_SMALL)])
    else s
  }

  method ToLinuxString(s: Str, cfBytes: Word -> seq<Byte>) returns (l: Str)
    ensures l == ToLinux(s, cfBytes)
  {
    hide Shr, ToLE, FromLE, BitOr;
    var bytes: seq<Byte> := seq(15, i => 0);
    var count := 0;
    if s.IsSmall() {
      count := s.Count();
      bytes := s.Payload();
    } else if s.IsBridged() {
      if s.word0 != 0 {
        var cf := cfBytes(s.word0);
        count := Min(|cf|, 15);
        bytes := cf[..count] + bytes[count..];
      }
    } else {
      return s;
    }
    ghost var p := Padded(bytes[..count], 15);
    var lw0 := PackBytes(bytes, count, 0, 8, p);
    var lw1 := PackBytes(bytes, count, 8, 15, p);
    assert p[8..15] == p[8..];
    TagByte(lw1, count, p[8..]);
    lw1 := BitOr(lw1, Shl(BitOr(0xE0, count), 56));
    assert p[0..8] == p[..8];
    EncodedWords(bytes[..count], lw0, lw1);
    l := Str(lw0, lw1);
    assert s.word0 == 0 && !s.IsSmall() ==> bytes[..count] == [];
  }

  /** One of the two packing loops: or the bytes `lo` to `hi` that exist into a word. */
  method PackBytes(bytes: seq<Byte>, count: nat, lo: nat, hi: nat, ghost p: seq<Byte>) returns (w: nat)
    requires |bytes| == 15 && count <= 15 && lo <= hi <= 15 && p == Padded(bytes[..count], 15)
    ensures w == FromLE(p[lo..hi])
  {
    hide BitOr, FromLE, Padded;
    w := 0;
    EmptyLE();
    for i := lo to hi
      invariant w == FromLE(p[lo..i])
    {
      PaddedAt(bytes, count, i);
      PackStep(w, p, lo, i);
      if i < count {
        w := BitOr(w, Shl(bytes[i], (i - lo) * 8));
      }
    }
  }

  lemma EmptyLE()
    ensures FromLE([]) == 0
  {
  }

  lemma PaddedAt(bytes: seq<Byte>, count: nat, i: nat)
    requires |bytes| == 15 && count <= 15 && i < 15
    ensures Padded(bytes[..count], 15)[i] == if i < count then bytes[i] else 0
  {
  }

  lemma PackStep(w: nat, p: seq<Byte>, lo: nat, i: nat)
    requires |p| == 15 && lo <= i < 15 && w == FromLE(p[lo..i])
    ensures BitOr(w, Shl(p[i], (i - lo) * 8)) == FromLE(p[lo..i + 1])
    ensures p[i] == 0 ==> w == FromLE(p[lo..i + 1])
  {
    hide BitOr, FromLE;
    hide Pow256, Pow2;
    assert p[lo..i + 1] == p[lo..i] + [p[i]];
    FromLESnoc(p[lo..i], p[i]);
    BytePowers(i - lo);
    OrDisjoint(w, p[i], (i - lo) * 8);
  }

  /** The tag byte goes on top of the seven payload bytes. */
  lemma TagByte(w: nat, count: nat, q: seq<Byte>)
    requires |q| == 7 && w == FromLE(q) && count < 16
    ensures BitOr(w, Shl(BitOr(0xE0, count), 56)) == FromLE(q + [0xE0 + count])
    ensures BitOr(0xE0, count) == 0xE0 + count
  {
    hide FromLE, BitOr;
    OrDisjointLow(count);
    FromLESnoc(q, 0xE0 + count);
    BytePowers(7);
    OrDisjoint(w, 0xE0 + count, 56);
  }

  /** 0xE0 | count, for a count below 16. */
  lemma OrDisjointLow(count: nat)
    requires count < 16
    ensures BitOr(0xE0, count) == 0xE0 + count
  {
    hide BitOr;
    OrCommutes(0xE0, count);
    assert Pow2(5) == 32;
    OrDisjoint(count, 7, 5);
  }

  lemma {:induction false} OrCommutes(a: nat, b: nat)
    ensures BitOr(a, b) == BitOr(b, a)
    decreases a + b
  {
    if a != 0 || b != 0 {
      OrCommutes(a / 2, b / 2);
    }
  }

  lemma EncodedWords(bs: seq<Byte>, lw0: nat, lw1: nat)
    requires |bs| <= 15
    requires lw0 == FromLE(Padded(bs, 15)[..8]) && lw1 == FromLE(Padded(bs, 15)[8..] + [0xE0 + |bs|])
    ensures lw0 < TWO64 && lw1 < TWO64 && Str(lw0, lw1) == Encode(bs)
  {
    Pow256Eight();
  }

  // ---- The second decoder ----

  /** `_grafted_translate_darwin_string`, the branch for a small string in the second word. */
  method DecodeSwift(s1: Word, s2: Word) returns (bytes: Option)
    ensures bytes == if Shr(s2, 60) % 16 == 0xE then Bytes(Str(s1, s2).Content()) else Other
  {
    hide Shr, ToLE;
    var tag2 := Shr(s2, 60) % 16;
    if tag2 != 0xE {
      return Other;
    }
    var count := Shr(s2, 56) % 16;
    var buffer := new Byte[16](i => 0);
    for i := 0 to 8
      invariant forall k :: 0 <= k < i ==> buffer[k] == ToLE(s1, 8)[k]
    {
      ShiftedByte(s1, 8, i);
      buffer[i] := Shr(s1, i * 8) % 256;
    }
    for i := 0 to 7
      invariant forall k :: 0 <= k < 8 ==> buffer[k] == ToLE(s1, 8)[k]
      invariant forall k :: 0 <= k < i ==> buffer[k + 8] == ToLE(s2, 8)[k]
    {
      ShiftedByte(s2, 8, i);
      buffer[i + 8] := Shr(s2, i * 8) % 256;
    }
    assert buffer[..8] == ToLE(s1, 8);
    assert buffer[8..15] == ToLE(s2, 8)[..7];
    assert buffer[..count] == (buffer[..8] + buffer[8..15])[..count];
    return Bytes(buffer[..count]);
  }

  /** Other stands for the branches that do not decode a small string. */
  datatype Option = Bytes(bs: seq<Byte>) | Other

  // ---- Laws ----

  /** A word's tag and count, read from its top byte. */
  lemma TopByte(q: seq<Byte>, b: Byte)
    requires |q| == 7
    ensures FromLE(q + [b]) < TWO64
    ensures Shr(FromLE(q + [b]), 56) == b && Shr(FromLE(q + [b]), 60) == b / 16
  {
    hide FromLE, Pow256, Pow2;
    Pow256Eight();
    FromLESnoc(q, b);
    BytePowers(7);
    var v := FromLE(q + [b]);
    Quotient(v, Pow256(7), b, FromLE(q));
    TopNibble();
    DivDiv(v, Pow2(56), 16);
  }

  lemma TopNibble()
    ensures Pow2(60) == Pow2(56) * 16
  {
    assert Pow2(60) == 2 * Pow2(59) && Pow2(59) == 2 * Pow2(58) && Pow2(58) == 2 * Pow2(57) && Pow2(57) == 2 * Pow2(56);
  }

  /** The canonical form is small, and holds the bytes it was made from. */
  lemma EncodeContent(bs: seq<Byte>)
    requires |bs| <= MAX_SMALL
    ensures Encode(bs).IsSmall() && Encode(bs).Count() == |bs| && Encode(bs).Content() == bs
  {
    hide FromLE, ToLE, Shr;
    var p := Padded(bs, 15);
    var q := p[8..] + [0xE0 + |bs|];
    TopByte(p[8..], 0xE0 + |bs|);
    ToFromLE(p[..8]);
    ToFromLE(q);
    assert q[..7] == p[8..];
    assert Encode(bs).Payload() == p[..8] + p[8..] == p;
    assert p[..|bs|] == bs;
  }

  /** Translation keeps the content of every small string, under both decoders, and makes equal
      contents equal words. */
  lemma SmallStringPreserved(s: Str, cfBytes: Word -> seq<Byte>)
    requires s.IsSmall()
    ensures var l := ToLinux(s, cfBytes); l.IsSmall() && l.Content() == s.Content()
  {
    hide Shr;
    EncodeContent(s.Content());
  }

  lemma CanonicalPadding(s: Str, t: Str, cfBytes: Word -> seq<Byte>)
    requires s.IsSmall() && t.IsSmall()
    ensures s.Content() == t.Content() <==> ToLinux(s, cfBytes) == ToLinux(t, cfBytes)
  {
    hide Shr;
    EncodeContent(s.Content());
    EncodeContent(t.Content());
  }

  /** Translating twice is translating once. */
  lemma Idempotent(s: Str, cfBytes: Word -> seq<Byte>)
    ensures ToLinux(ToLinux(s, cfBytes), cfBytes) == ToLinux(s, cfBytes)
  {
    hide Shr;
    if s.IsSmall() {
      EncodeContent(s.Content());
    } else if s.IsBridged() {
      var bs := if s.word0 == 0 then [] else cfBytes(s.word0);
      EncodeContent(bs[..Min(|bs|, MAX_SMALL)]);
    }
  }

  /** Bit `k` of a word, counted from the lowest. */
  predicate Bit(w: nat, k: nat) {
    (w / Pow2(k)) % 2 == 1
  }

  /** The tag of a small string is its top four bits, 1110; the mark of a bridged one is bit 62. */
  lemma TagBits(s: Str)
    ensures s.IsSmall() <==> Bit(s.word1, 63) && Bit(s.word1, 62) && Bit(s.word1, 61) && !Bit(s.word1, 60)
    ensures s.IsBridged() <==> Bit(s.word1, 62)
  {
    hide Pow2;
    TopPowers();
    TopBits(s.word1);
  }

  lemma TopPowers()
    ensures Pow2(60) == 0x1000_0000_0000_0000 && Pow2(61) == 0x2000_0000_0000_0000
    ensures Pow2(62) == 0x4000_0000_0000_0000 && Pow2(63) == 0x8000_0000_0000_0000
  {
    TopNibble();
    BytePowers(7);
    Pow256Eight();
    assert Pow256(7) == 0x100_0000_0000_0000 by { assert Pow256(8) == 256 * Pow256(7); }
    assert Pow2(61) == 2 * Pow2(60) && Pow2(62) == 2 * Pow2(61) && Pow2(63) == 2 * Pow2(62);
  }

  lemma TopBits(w: nat)
    requires w < TWO64
    ensures var n := w / 0x1000_0000_0000_0000;
            && n < 16
            && (w / 0x2000_0000_0000_0000) == n / 2 && (w / 0x4000_0000_0000_0000) == n / 4 && (w / 0x8000_0000_0000_0000) == n / 8
  {
  }

  /** A string with bit 62 set that is not tagged small becomes its first 15 bytes; a null one the
      empty string. */
  lemma BridgedString(s: Str, cfBytes: Word -> seq<Byte>)
    requires !s.IsSmall() && Bit(s.word1, 62)
    ensures var bs := if s.word0 == 0 then [] else cfBytes(s.word0);
            var l := ToLinux(s, cfBytes);
            && l.IsSmall() && l.Content() == bs[..Min(|bs|, MAX_SMALL)]
            && (l.Content() == bs <==> |bs| <= MAX_SMALL)
  {
    hide Shr;
    TagBits(s);
    var bs := if s.word0 == 0 then [] else cfBytes(s.word0);
    EncodeContent(bs[..Min(|bs|, MAX_SMALL)]);
  }

  /** Any other string is passed on as it is. */
  lemma OthersPassedOn(s: Str, cfBytes: Word -> seq<Byte>)
    requires !s.IsSmall() && !Bit(s.word1, 62)
    ensures ToLinux(s, cfBytes) == s
  {
    hide Shr;
    TagBits(s);
  }
}
