/** Byte-addressed memory, and the little-endian words the loader reads and writes in it.

An address space is the finite map from its mapped addresses to their bytes: an access to
an address outside the map is a fault, so every access below carries a `Mapped` precondition.
*/
module Memory {

  type Byte = x: int | 0 <= x < 256

  type Mem = map<int, Byte>

  const TWO64: nat := 0x1_0000_0000_0000_0000

  /** 64-bit unsigned addition as the release build performs it. */
  function Wrap64(x: int): (r: nat)
    ensures r < TWO64
    ensures 0 <= x < TWO64 ==> r == x
  {
    x % TWO64
  }

  /** Quotient and remainder of a number composed of them. */
  lemma Pack(lo: int, hi: int, d: int)
    requires 0 <= lo < d
    ensures (lo + hi * d) / d == hi && (lo + hi * d) % d == lo
  {
    var x := lo + hi * d;
    var q, r := x / d, x % d;
    assert (q - hi) * d == lo - r;
    assert q - hi >= 1 ==> (q - hi) * d >= d;
    assert q - hi <= -1 ==> (q - hi) * d <= -d;
  }

  /** Wrapping in between does not matter. */
  lemma WrapAdd(x: int, y: int)
    ensures Wrap64(Wrap64(x) + y) == Wrap64(x + y)
  {
    var q := x / TWO64;
    assert x + y == (x % TWO64 + y) + q * TWO64;
    Pack((x % TWO64 + y) % TWO64, (x % TWO64 + y) / TWO64 + q, TWO64);
  }

  /** The address space of the process, rewritten in place. */
  class AddressSpace {
    var mem: Mem

    constructor (m: Mem)
      ensures mem == m
    {
      mem := m;
    }
  }

  ghost predicate Mapped(m: Mem, a: int, n: nat) {
    forall x :: a <= x < a + n ==> x in m
  }

  /** `x` is one of the `n` addresses from `a` on. */
  predicate InRange(x: int, a: int, n: int) {
    a <= x < a + n
  }

  predicate Disjoint(a: int, n: int, b: int, k: int) {
    a + n <= b || b + k <= a
  }

  function ReadBytes(m: Mem, a: int, n: nat): (bs: seq<Byte>)
    requires Mapped(m, a, n)
    ensures |bs| == n
    ensures forall i :: 0 <= i < n ==> bs[i] == m[a + i]
  {
    seq(n, i requires 0 <= i < n => m[a + i])
  }

  /** Overwrite the bytes from `a` on with `bs`; nothing is mapped or unmapped. */
  function WriteBytes(m: Mem, a: int, bs: seq<Byte>): (r: Mem)
    ensures r.Keys == m.Keys
    ensures forall x :: x in m && InRange(x, a, |bs|) ==> r[x] == bs[x - a]
    ensures forall x :: x in m && !InRange(x, a, |bs|) ==> r[x] == m[x]
  {
    map x | x in m :: if InRange(x, a, |bs|) then bs[x - a] else m[x]
  }

  lemma ReadAfterWrite(m: Mem, a: int, bs: seq<Byte>)
    requires Mapped(m, a, |bs|)
    ensures ReadBytes(WriteBytes(m, a, bs), a, |bs|) == bs
  {
  }

  /** A read whose bytes are the same in both memories gives the same result. */
  lemma ReadSame(m: Mem, m': Mem, a: int, n: nat)
    requires Mapped(m, a, n) && Mapped(m', a, n)
    requires forall x :: InRange(x, a, n) ==> m'[x] == m[x]
    ensures ReadBytes(m', a, n) == ReadBytes(m, a, n)
  {
    var r, r' := ReadBytes(m, a, n), ReadBytes(m', a, n);
    forall i | 0 <= i < n ensures r'[i] == r[i] {
      assert InRange(a + i, a, n);
    }
  }

  // ---- Little-endian words ----

  function Pow256(n: nat): (p: nat)
    ensures p > 0
  {
    if n == 0 then 1 else 256 * Pow256(n - 1)
  }

  function FromLE(bs: seq<Byte>): (v: nat)
    ensures v < Pow256(|bs|)
  {
    if bs == [] then 0 else bs[0] + 256 * FromLE(bs[1..])
  }

  function ToLE(v: nat, n: nat): (bs: seq<Byte>)
    ensures |bs| == n
    decreases n, v
  {
    if n == 0 then [] else [v % 256] + ToLE(v / 256, n - 1)
  }

  lemma {:induction false} FromToLE(v: nat, n: nat)
    requires v < Pow256(n)
    ensures FromLE(ToLE(v, n)) == v
  {
    if n > 0 {
      FromToLE(v / 256, n - 1);
      assert ToLE(v, n)[1..] == ToLE(v / 256, n - 1);
    }
  }

  lemma {:induction false} ToFromLE(bs: seq<Byte>)
    ensures ToLE(FromLE(bs), |bs|) == bs
  {
    if bs != [] {
      ToFromLE(bs[1..]);
      assert FromLE(bs) / 256 == FromLE(bs[1..]);
      assert FromLE(bs) % 256 == bs[0];
      assert [bs[0]] + bs[1..] == bs;
    }
  }

  lemma Pow256Eight()
    ensures Pow256(8) == TWO64
    ensures Pow256(4) == 0x1_0000_0000
    ensures Pow256(2) == 0x1_0000
  {
    assert Pow256(2) == 256 * 256;
    assert Pow256(4) == 256 * (256 * Pow256(2));
    assert Pow256(6) == 256 * (256 * Pow256(4));
    assert Pow256(8) == 256 * (256 * Pow256(6));
  }

  function Read64(m: Mem, a: int): (v: nat)
    requires Mapped(m, a, 8)
    ensures v < TWO64
  {
    Pow256Eight();
    FromLE(ReadBytes(m, a, 8))
  }

  function Write64(m: Mem, a: int, v: nat): (r: Mem)
    ensures r.Keys == m.Keys
    ensures forall x :: x in m && !InRange(x, a, 8) ==> r[x] == m[x]
  {
    WriteBytes(m, a, ToLE(v, 8))
  }

  lemma Read64AfterWrite64(m: Mem, a: int, v: nat)
    requires Mapped(m, a, 8) && v < TWO64
    ensures Read64(Write64(m, a, v), a) == v
  {
    Pow256Eight();
    ReadAfterWrite(m, a, ToLE(v, 8));
    FromToLE(v, 8);
  }

  lemma Read64Same(m: Mem, m': Mem, a: int)
    requires Mapped(m, a, 8) && Mapped(m', a, 8)
    requires forall x :: InRange(x, a, 8) ==> m'[x] == m[x]
    ensures Read64(m', a) == Read64(m, a)
  {
    ReadSame(m, m', a, 8);
  }

  /** Equal words are equal bytes. */
  lemma Read64Determines(m: Mem, a: int, m': Mem, a': int)
    requires Mapped(m, a, 8) && Mapped(m', a', 8)
    requires Read64(m, a) == Read64(m', a')
    ensures forall x :: InRange(x, a, 8) ==> m[x] == m'[x - a + a']
  {
    var r, r' := ReadBytes(m, a, 8), ReadBytes(m', a', 8);
    ToFromLE(r);
    ToFromLE(r');
    forall x | InRange(x, a, 8) ensures m[x] == m'[x - a + a'] {
      assert r[x - a] == r'[x - a];
    }
  }
}
