/**
 * python/contracts/random.py: an on-chain random generator. The seed is
 * the packed address of a freshly originated contract, read as a
 * big-endian natural number; a window of it, chosen by the low 7 bits of
 * the previous seed, seeds two multiply-with-carry generators whose
 * combined outputs fill `results`.
 *
 * Michelson naturals are unbounded, so the masks, shifts and sums are
 * written here on `nat` exactly as the contract computes them.
 */
module RandomContract {

  newtype byte = x: int | 0 <= x < 256

  function Pow2(n: nat): (r: nat)
    ensures r >= 1
  {
    if n == 0 then 1 else 2 * Pow2(n - 1)
  }

  /** Bitwise AND of two naturals, bit by bit from the least significant one. */
  function BitAnd(a: nat, b: nat): nat
  {
    if a == 0 || b == 0 then 0
    else 2 * BitAnd(a / 2, b / 2) + (if a % 2 == 1 && b % 2 == 1 then 1 else 0)
  }

  lemma SplitMod(v: nat, k: nat)
    requires k > 0
    ensures v % Pow2(k) == 2 * ((v / 2) % Pow2(k - 1)) + v % 2
  {
    var p := Pow2(k - 1);
    var q := v / 2;
    var a := q / p;
    var b := q % p;
    assert v == 2 * q + v % 2;
    assert q == a * p + b;
    assert v == a * (2 * p) + (2 * b + v % 2);
    assert 0 <= 2 * b + v % 2 < 2 * p;
    assert Pow2(k) == 2 * p;
    ModUnique(v, 2 * p, a, 2 * b + v % 2);
  }

  /** The remainder is the only one: `a * d + r` with `r < d` leaves `r` modulo `d`. */
  lemma ModUnique(v: nat, d: nat, a: nat, r: nat)
    requires d > 0 && r < d && v == a * d + r
    ensures v % d == r
  {
    var q := v / d;
    var s := v % d;
    assert v == q * d + s;
    assert (q - a) * d == r - s;
    if q > a {
      MulAtLeast(q - a, d);
    } else if q < a {
      MulAtLeast(a - q, d);
    }
  }

  lemma MulAtLeast(x: int, d: nat)
    requires x >= 1
    ensures x * d >= d
  {
    assert x * d == (x - 1) * d + d;
    assert (x - 1) * d >= 0;
  }

  /** The low `k` bits of `v`, read off one bit at a time. */
  function LowBits(v: nat, k: nat): nat
  {
    if k == 0 then 0 else 2 * LowBits(v / 2, k - 1) + v % 2
  }

  /** Masking with `2^k - 1` keeps exactly the low `k` bits. */
  lemma {:induction false} MaskIsLowBits(v: nat, k: nat)
    ensures BitAnd(v, Pow2(k) - 1) == LowBits(v, k)
  {
    if k > 0 {
      var m := Pow2(k) - 1;
      assert m / 2 == Pow2(k - 1) - 1 && m % 2 == 1;
      MaskIsLowBits(v / 2, k - 1);
      if v == 0 {
        LowBitsZero(k);
      }
    }
  }

  lemma {:induction false} LowBitsZero(k: nat)
    ensures LowBits(0, k) == 0
  {
    if k > 0 {
      LowBitsZero(k - 1);
    }
  }

  /** The low `k` bits are the remainder modulo `2^k`. */
  lemma {:induction false} LowBitsMod(v: nat, k: nat)
    ensures LowBits(v, k) == v % Pow2(k)
  {
    if k > 0 {
      LowBitsMod(v / 2, k - 1);
      SplitMod(v, k);
    }
  }

  /** Masking with `2^k - 1` is the remainder modulo `2^k`. */
  lemma MaskIsMod(v: nat, k: nat)
    ensures BitAnd(v, Pow2(k) - 1) == v % Pow2(k)
  {
    MaskIsLowBits(v, k);
    LowBitsMod(v, k);
  }

  /** `lower(value, mask)`: `value & mask`. */
  function Lower(value: nat, mask: nat): nat
  {
    BitAnd(value, mask)
  }

  /**
   * `lower7`, `lower16` and `lower32`, written as the remainder modulo
   * `mask + 1`; `LowerIsMask` proves each equal to `lower(value, mask)`.
   */
  function Lower7(value: nat): (r: nat)
    ensures r < 128
  {
    value % 128
  }

  function Lower16(value: nat): (r: nat)
    ensures r < 0x1_0000
  {
    value % 0x1_0000
  }

  function Lower32(value: nat): (r: nat)
    ensures r < 0x1_0000_0000
  {
    value % 0x1_0000_0000
  }

  /** Each fixed-width `lower` keeps what the AND with its mask of ones keeps. */
  lemma LowerIsMask(v: nat)
    ensures Lower7(v) == Lower(v, 0x7F)
    ensures Lower16(v) == Lower(v, 0xFFFF)
    ensures Lower32(v) == Lower(v, 0xFFFF_FFFF)
  {
    Pow2Values();
    MaskIsMod(v, 7);
    MaskIsMod(v, 16);
    MaskIsMod(v, 32);
  }

  lemma Pow2Values()
    ensures Pow2(7) == 128 && Pow2(16) == 0x1_0000 && Pow2(32) == 0x1_0000_0000
  {
    assert Pow2(4) == 16;
    assert Pow2(8) == 256 by { assert Pow2(8) == Pow2(4) * 16 by { Pow2Add(4, 4); } }
    Pow2Add(8, 8);
    Pow2Add(16, 16);
  }

  lemma {:induction false} Pow2Add(a: nat, b: nat)
    ensures Pow2(a + b) == Pow2(a) * Pow2(b)
  {
    if b > 0 {
      Pow2Add(a, b - 1);
    }
  }

  /** `x >> s` on naturals: `s` halvings, rounding down. */
  function Shr(x: nat, s: nat): nat
  {
    if s == 0 then x else Shr(x / 2, s - 1)
  }

  /** The big-endian value of a byte string: `result * 256 + byte` for each byte in order. */
  function BigEndian(bs: seq<byte>): nat
  {
    if bs == [] then 0 else BigEndian(bs[..|bs| - 1]) * 256 + bs[|bs| - 1] as nat
  }

  function Pow256(n: nat): (r: nat)
    ensures r >= 1
  {
    if n == 0 then 1 else 256 * Pow256(n - 1)
  }

  /** A string of `n` bytes stands for a number below `256^n`. */
  lemma {:induction false} BigEndianBound(bs: seq<byte>)
    ensures BigEndian(bs) < Pow256(|bs|)
  {
    if bs != [] {
      BigEndianBound(bs[..|bs| - 1]);
    }
  }

  /** The `n`-byte big-endian encoding of `v`, the inverse of `BigEndian`. */
  function ToBytes(v: nat, n: nat): (r: seq<byte>)
    ensures |r| == n
  {
    if n == 0 then [] else ToBytes(v / 256, n - 1) + [(v % 256) as byte]
  }

  /** Decoding an encoding gives the number back, when it fits. */
  lemma {:induction false} BigEndianToBytes(v: nat, n: nat)
    requires v < Pow256(n)
    ensures BigEndian(ToBytes(v, n)) == v
  {
    if n > 0 {
      var r := ToBytes(v, n);
      assert r[..n - 1] == ToBytes(v / 256, n - 1);
      BigEndianToBytes(v / 256, n - 1);
    }
  }

  /** Encoding a decoded byte string gives the same bytes. */
  lemma {:induction false} ToBytesBigEndian(bs: seq<byte>)
    ensures ToBytes(BigEndian(bs), |bs|) == bs
  {
    if bs != [] {
      var init := bs[..|bs| - 1];
      ToBytesBigEndian(init);
      assert bs == init + [bs[|bs| - 1]];
    }
  }

  /** The storage's `bytes_to_nat` table: each one-byte string to its value. */
  function ByteTable(): (t: map<seq<byte>, nat>)
    ensures forall b: byte :: [b] in t && t[[b]] == b as nat
  {
    map b: byte | 0 <= b as int < 256 :: [b] := b as nat
  }

  /** One step of each multiply-with-carry generator. */
  function StepZ(z: nat): nat { Lower32(36969 * Lower16(z) + Shr(z, 16)) }
  function StepW(w: nat): nat { Lower32(18000 * Lower16(w) + Shr(w, 16)) }

  /** The generators' states after `n` steps. */
  function Zs(z: nat, n: nat): nat { if n == 0 then z else StepZ(Zs(z, n - 1)) }
  function Ws(w: nat, n: nat): nat { if n == 0 then w else StepW(Ws(w, n - 1)) }

  /** The value pushed after a step: `lower32((z << 16) + w)`. */
  function Output(z: nat, w: nat): nat
  {
    Lower32(z * 0x1_0000 + w)
  }

  /** The value pushed at step `k` from seeds `z`, `w`. */
  function Draw(z: nat, w: nat, k: nat): (r: nat)
    ensures r < 0x1_0000_0000
  {
    Output(Zs(z, k), Ws(w, k))
  }

  /** The number of values one `run` stores. */
  const Draws: nat := 256

  /** The `Random` contract's storage. */
  class Random {
    var hash: seq<byte>
    var natValue: nat
    const table: map<seq<byte>, nat>
    var results: seq<nat>

    constructor ()
      ensures hash == [] && natValue == 0 && results == [] && table == ByteTable()
    {
      hash := [];
      natValue := 0;
      table := ByteTable();
      results := [];
    }

    /** `bytes_to_nat`: the table lookup of each one-byte slice, accumulated big-endian. */
    method BytesToNat(bytes: seq<byte>) returns (result: nat)
      requires table == ByteTable()
      ensures result == BigEndian(bytes)
    {
      var i := 0;
      result := 0;
      while i < |bytes|
        invariant 0 <= i <= |bytes|
        invariant result == BigEndian(bytes[..i])
      {
        assert bytes[i..i + 1] == [bytes[i]];
        var byteValue := table[bytes[i..i + 1]];
        assert bytes[..i + 1][..i] == bytes[..i];
        result := result * 256 + byteValue;
        i := i + 1;
      }
      assert bytes[..|bytes|] == bytes;
    }

    /**
     * `run`, with the packed address of the new contract as `seed`: the
     * window `shift` comes from the previous value, `z` and `w` are the
     * 32-bit words at bits `shift` and `shift + 32` of the new one, and
     * 256 outputs replace `results`, newest first.
     */
    method Run(seed: seq<byte>)
      requires table == ByteTable()
      modifies this
      ensures hash == seed && natValue == BigEndian(seed)
      ensures var shift := Lower7(old(natValue));
        var z0, w0 := Lower32(Shr(natValue, shift)), Lower32(Shr(natValue, shift + 32));
        |results| == Draws && forall i :: 0 <= i < Draws ==> results[i] == Draw(z0, w0, Draws - i)
    {
      var shift := Lower7(natValue);
      hash := seed;
      natValue := BytesToNat(hash);
      var z := Lower32(Shr(natValue, shift));
      var w := Lower32(Shr(natValue, shift + 32));
      results := Generate(z, w);
    }
  }

  /**
   * The loop of `run`: `Draws` steps of both generators, each output
   * pushed on `results`. `push` puts each value at the head, so position
   * `i` holds the value of step `Draws - i`, the newest first.
   */
  method Generate(z0: nat, w0: nat) returns (results: seq<nat>)
    ensures |results| == Draws
    ensures forall i :: 0 <= i < Draws ==> results[i] == Draw(z0, w0, Draws - i)
  {
    var z := z0;
    var w := w0;
    results := [];
    var j := 0;
    while j < Draws
      invariant 0 <= j <= Draws
      invariant z == Zs(z0, j) && w == Ws(w0, j)
      invariant |results| == j
      invariant forall i :: 0 <= i < j ==> results[i] == Draw(z0, w0, j - i)
    {
      z := StepZ(z);
      w := StepW(w);
      results := [Output(z, w)] + results;
      j := j + 1;
    }
  }
}
