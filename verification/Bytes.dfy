/** Little-endian byte images and the byte-addressed VE memory. */
module Bytes {
  import opened Base

  type byte = b: int | 0 <= b < 256

  function Zeros(n: nat): (r: seq<byte>)
    ensures |r| == n
    ensures forall i :: 0 <= i < n ==> r[i] == 0
  {
    seq(n, i => 0)
  }

  function Pow256(n: nat): (r: nat)
    ensures r > 0
  {
    if n == 0 then 1 else 256 * Pow256(n - 1)
  }

  /** The `w` low bytes of `v`, least significant first. */
  function LE(v: nat, w: nat): (r: seq<byte>)
    ensures |r| == w
  {
    if w == 0 then [] else [v % 256] + LE(v / 256, w - 1)
  }

  function FromLE(s: seq<byte>): nat {
    if s == [] then 0 else s[0] + 256 * FromLE(s[1..])
  }

  lemma {:induction false} Pow256Values()
    ensures Pow256(1) == 0x100 && Pow256(2) == 0x1_0000 && Pow256(4) == 0x1_0000_0000 && Pow256(8) == TWO64
  {
    assert Pow256(3) == 256 * Pow256(2);
    assert Pow256(5) == 256 * Pow256(4);
    assert Pow256(6) == 256 * Pow256(5);
    assert Pow256(7) == 256 * Pow256(6);
  }

  /** Decoding undoes encoding for every value that fits. */
  lemma {:induction false} RoundTripLE(v: nat, w: nat)
    requires v < Pow256(w)
    ensures FromLE(LE(v, w)) == v
    decreases w
  {
    if w > 0 {
      assert v / 256 < Pow256(w - 1);
      RoundTripLE(v / 256, w - 1);
      assert LE(v, w)[1..] == LE(v / 256, w - 1);
    }
  }

  lemma {:induction false} FromLEZeros(n: nat)
    ensures FromLE(Zeros(n)) == 0
  {
    if n > 0 {
      assert Zeros(n)[1..] == Zeros(n - 1);
      FromLEZeros(n - 1);
    }
  }

  /** High zero bytes do not change the value: zero extension. */
  lemma {:induction false} FromLEPad(s: seq<byte>, n: nat)
    ensures FromLE(s + Zeros(n)) == FromLE(s)
    decreases |s|
  {
    if s == [] {
      assert s + Zeros(n) == Zeros(n);
      FromLEZeros(n);
    } else {
      assert (s + Zeros(n))[1..] == s[1..] + Zeros(n);
      FromLEPad(s[1..], n);
    }
  }

  // ----- VE memory -----

  /** VE memory: a byte at each of the 2^64 addresses. */
  type VeMem = nat -> byte

  /** The distance from `a` up to `x`, modulo 2^64. */
  function Offset(x: nat, a: nat): nat {
    U64(x - a)
  }

  function ReadMem(mem: VeMem, a: nat, len: nat): (r: seq<byte>)
    ensures |r| == len
    ensures forall i :: 0 <= i < len ==> r[i] == mem(U64(a + i))
  {
    seq<byte>(len, i requires 0 <= i < len => mem(U64(a + i)))
  }

  /** Memory after a block was written at `a`: the block's bytes there, the old bytes elsewhere. */
  function WriteMem(mem: VeMem, a: nat, data: seq<byte>): VeMem {
    (x: nat) => if Offset(x, a) < |data| then data[Offset(x, a)] else mem(x)
  }

  lemma {:induction false} OffsetOf(a: nat, o: nat)
    requires o < TWO64
    ensures Offset(U64(a + o), a) == o
  {
  }

  lemma {:induction false} AddMod(a: nat, o: nat, i: nat)
    ensures U64(U64(a + o) + i) == U64(a + (o + i))
  {
  }

  /** Reading inside a written block gives the block's bytes, also across the address wraparound. */
  lemma {:induction false} ReadWritten(mem: VeMem, a: nat, data: seq<byte>, o: nat, len: nat)
    requires o + len <= |data| <= TWO64
    ensures ReadMem(WriteMem(mem, a, data), U64(a + o), len) == data[o..o + len]
  {
    var r := ReadMem(WriteMem(mem, a, data), U64(a + o), len);
    forall i | 0 <= i < len ensures r[i] == data[o..o + len][i] {
      AddMod(a, o, i);
      OffsetOf(a, o + i);
    }
  }
}
