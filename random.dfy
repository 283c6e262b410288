/**
 * The seeded generators of src/random.ts. All arithmetic there is 32-bit
 * (`Math.imul`, `| 0`, `>>> 0`), so states and outputs are `bv32`: `*`
 * and `+` wrap, `>>` is the logical `>>>`. A JavaScript string is a
 * sequence of UTF-16 code units, so a seed is a `seq<bv16>`.
 */
module Prng {

  const Sfc32Max: nat := 0x1_0000_0000

  // ---- xmur3 -------------------------------------------------------------

  /** One seeding round: xor in a code unit, `imul` by 3432918353, rotate left by 13. */
  function MixUnit(h: bv32, u: bv16): bv32
  {
    var x := (h ^ (u as bv32)) * 3432918353;
    (x << 13) | (x >> 19)
  }

  function Absorb(h: bv32, s: seq<bv16>): bv32
    decreases |s|
  {
    if s == [] then h else Absorb(MixUnit(h, s[0]), s[1..])
  }

  /** The state `h` once the seeding loop is done. */
  function SeedState(s: seq<bv16>): bv32
  {
    Absorb(1779033703 ^ ((|s| % 0x1_0000_0000) as bv32), s)
  }

  /** One call of the returned closure: the new `h`, which is also the (unsigned) result. */
  function Avalanche(h: bv32): bv32
  {
    var h1 := (h ^ (h >> 16)) * 2246822507;
    var h2 := (h1 ^ (h1 >> 13)) * 3266489909;
    h2 ^ (h2 >> 16)
  }

  function Iterate(h: bv32, n: nat): bv32
  {
    if n == 0 then h else Avalanche(Iterate(h, n - 1))
  }

  /** The first `n` values the closure returns once it has captured `h`. */
  function Avalanches(h: bv32, n: nat): (r: seq<bv32>)
    ensures |r| == n
  {
    if n == 0 then [] else Avalanches(h, n - 1) + [Iterate(h, n)]
  }

  /** The first `n` values the closure of `xmur3(s)` returns. */
  function Xmur3Stream(s: seq<bv16>, n: nat): (r: seq<bv32>)
    ensures |r| == n
  {
    Avalanches(SeedState(s), n)
  }

  lemma {:induction false} AvalanchesPrefix(h: bv32, m: nat, n: nat)
    requires m <= n
    ensures Avalanches(h, m) == Avalanches(h, n)[..m]
    decreases n
  {
    if m < n {
      AvalanchesPrefix(h, m, n - 1);
      assert Avalanches(h, n)[..n - 1] == Avalanches(h, n - 1);
    } else {
      assert Avalanches(h, n)[..m] == Avalanches(h, n);
    }
  }

  lemma {:induction false} AvalanchesAt(h: bv32, n: nat, i: nat)
    requires i < n
    ensures Avalanches(h, n)[i] == Iterate(h, i + 1)
    decreases n
  {
    if i < n - 1 {
      AvalanchesAt(h, n - 1, i);
    }
  }

  /**
   * Determinism: a longer run from the same seed string begins with the
   * shorter run. The lot names of a set depend on this.
   */
  lemma Xmur3StreamPrefix(s: seq<bv16>, m: nat, n: nat)
    requires m <= n
    ensures Xmur3Stream(s, m) == Xmur3Stream(s, n)[..m]
  {
    AvalanchesPrefix(SeedState(s), m, n);
  }

  /** The `i`-th value of the stream is the state after `i + 1` calls. */
  lemma Xmur3StreamAt(s: seq<bv16>, n: nat, i: nat)
    requires i < n
    ensures Xmur3Stream(s, n)[i] == Iterate(SeedState(s), i + 1)
  {
    AvalanchesAt(SeedState(s), n, i);
  }

  /** The closure returned by `xmur3(str)` with its captured `h`. */
  class Xmur3 {
    var h: bv32
    ghost const seed: seq<bv16>
    ghost var produced: seq<bv32>

    ghost predicate Valid()
      reads this
    {
      h == Iterate(SeedState(seed), |produced|) && produced == Xmur3Stream(seed, |produced|)
    }

    constructor (str: seq<bv16>)
      ensures Valid() && seed == str && produced == []
      ensures h == SeedState(str)
    {
      var i := 0;
      var x: bv32 := 1779033703 ^ ((|str| % 0x1_0000_0000) as bv32);
      while i < |str|
        invariant 0 <= i <= |str|
        invariant Absorb(x, str[i..]) == SeedState(str)
      {
        assert str[i..][1..] == str[i + 1..];
        x := MixUnit(x, str[i]);
        i := i + 1;
      }
      h := x;
      seed := str;
      produced := [];
    }

    method Next() returns (r: bv32)
      requires Valid()
      modifies this
      ensures Valid()
      ensures h == Avalanche(old(h)) && r == h
      ensures produced == old(produced) + [r]
    {
      h := Avalanche(h);
      r := h;
      produced := produced + [r];
    }
  }

  // ---- sfc32 -------------------------------------------------------------

  datatype Sfc32State = Sfc32State(a: bv32, b: bv32, c: bv32, d: bv32)

  /** One call of the closure returned by `sfc32(a, b, c, d)`: its result `t`. */
  function Sfc32Out(s: Sfc32State): bv32
  {
    s.a + s.b + (s.d + 1)
  }

  /** One call of the closure: the captured words afterwards. */
  function Sfc32Next(s: Sfc32State): Sfc32State
  {
    Sfc32State(s.b ^ (s.b >> 9), s.c + (s.c << 3), ((s.c << 21) | (s.c >> 11)) + Sfc32Out(s), s.d + 1)
  }

  /** The state after `n` calls. */
  function Sfc32Iterate(s: Sfc32State, n: nat): Sfc32State
    decreases n
  {
    if n == 0 then s else Sfc32Iterate(Sfc32Next(s), n - 1)
  }

  /** The results of the first `n` calls, in call order. */
  function Sfc32Outputs(s: Sfc32State, n: nat): (r: seq<bv32>)
    ensures |r| == n
    decreases n
  {
    if n == 0 then [] else [Sfc32Out(s)] + Sfc32Outputs(Sfc32Next(s), n - 1)
  }

  /** One more call is one more step at the end. */
  lemma {:induction false} Sfc32IterateLast(s: Sfc32State, n: nat)
    ensures Sfc32Iterate(s, n + 1) == Sfc32Next(Sfc32Iterate(s, n))
    decreases n
  {
    if n > 0 {
      Sfc32IterateLast(Sfc32Next(s), n - 1);
    }
  }

  /** One more call appends the output of the state reached so far. */
  lemma {:induction false} Sfc32OutputsLast(s: Sfc32State, n: nat)
    ensures Sfc32Outputs(s, n + 1) == Sfc32Outputs(s, n) + [Sfc32Out(Sfc32Iterate(s, n))]
    decreases n
  {
    if n > 0 {
      Sfc32OutputsLast(Sfc32Next(s), n - 1);
    }
  }

  /** Running the generator longer only extends what it has produced. */
  lemma {:induction false} Sfc32OutputsPrefix(s: Sfc32State, m: nat, n: nat)
    requires m <= n
    ensures Sfc32Outputs(s, m) == Sfc32Outputs(s, n)[..m]
    decreases m
  {
    if m > 0 {
      Sfc32OutputsPrefix(Sfc32Next(s), m - 1, n - 1);
    }
  }

  /** `after` is `before` followed by `k` more draws. */
  ghost predicate Drew(before: seq<bv32>, after: seq<bv32>, k: nat)
  {
    |after| == |before| + k && after[..|before|] == before
  }

  /** Draws add up. */
  lemma DrewChain(p0: seq<bv32>, p1: seq<bv32>, p2: seq<bv32>, k1: nat, k2: nat)
    requires Drew(p0, p1, k1) && Drew(p1, p2, k2)
    ensures Drew(p0, p2, k1 + k2)
  {
    assert p2[..|p0|] == p2[..|p1|][..|p0|];
  }

  /**
   * The closure returned by `sfc32`, its four captured words as fields.
   * `produced` lists what it has returned so far; the state and the
   * outputs are functions of the seed words and the number of calls.
   */
  class Sfc32 {
    var a: bv32
    var b: bv32
    var c: bv32
    var d: bv32
    ghost const seed: Sfc32State
    ghost var produced: seq<bv32>

    function State(): Sfc32State
      reads this
    {
      Sfc32State(a, b, c, d)
    }

    ghost predicate Valid()
      reads this
    {
      State() == Sfc32Iterate(seed, |produced|) && produced == Sfc32Outputs(seed, |produced|)
    }

    constructor (a: bv32, b: bv32, c: bv32, d: bv32)
      ensures Valid() && seed == Sfc32State(a, b, c, d) && produced == []
      ensures State() == seed
    {
      this.a, this.b, this.c, this.d := a, b, c, d;
      seed := Sfc32State(a, b, c, d);
      produced := [];
    }

    /** `rand()`: `d` grows by one (mod 2^32); the result is the last word produced. */
    method Next() returns (r: bv32)
      requires Valid()
      modifies this
      ensures Valid()
      ensures State() == Sfc32Next(old(State())) && r == Sfc32Out(old(State()))
      ensures d == old(d) + 1
      ensures produced == old(produced) + [r]
    {
      Sfc32IterateLast(seed, |produced|);
      Sfc32OutputsLast(seed, |produced|);
      var next := Sfc32Next(State());
      r := Sfc32Out(State());
      a, b, c, d := next.a, next.b, next.c, next.d;
      produced := produced + [r];
    }

    /** `rand()` as the number the caller sees: the last word produced. */
    method Draw() returns (r: nat)
      requires Valid()
      modifies this
      ensures Valid()
      ensures Drew(old(produced), produced, 1)
      ensures r == produced[|produced| - 1] as nat
    {
      var x := Next();
      r := x as nat;
      assert produced[..|old(produced)|] == old(produced);
    }

    /** One call of the closure of `randrange(lo, hi, rand)`. */
    method NextInRange(lo: int, hi: int) returns (r: int)
      requires Valid()
      modifies this
      ensures Valid()
      ensures Drew(old(produced), produced, 1)
      ensures r == RandRange(lo, hi, produced[|produced| - 1] as nat)
      ensures Min(lo, hi) <= r <= Max(lo, hi)
    {
      var x := Next();
      r := RandRange(lo, hi, x as nat);
      assert produced[..|old(produced)|] == old(produced);
    }
  }

  // ---- randrange ---------------------------------------------------------

  function Min(a: int, b: int): int { if a <= b then a else b }
  function Max(a: int, b: int): int { if a <= b then b else a }

  /** `randrange(a, b, rand)()` for a generator output `x >= 0`: bounds swapped when `a > b`. */
  function RandRange(a: int, b: int, x: nat): (r: int)
    ensures Min(a, b) <= r <= Max(a, b)
  {
    var lo := if a > b then b else a;
    var hi := if a > b then a else b;
    lo + x % (hi - lo + 1)
  }

  /** The order of the bounds does not matter. */
  lemma RandRangeSymmetric(a: int, b: int, x: nat)
    ensures RandRange(a, b, x) == RandRange(b, a, x)
  {
  }

  /** Every value in the range is produced by some generator output. */
  lemma RandRangeCovers(a: int, b: int, v: int)
    requires Min(a, b) <= v <= Max(a, b)
    ensures exists x: nat :: RandRange(a, b, x) == v
  {
    var x: nat := v - Min(a, b);
    assert RandRange(a, b, x) == v;
  }
}
