/**
 * The counting and pack logic of `mintSet` in src/admin.ts, with the
 * uploads, the database and the chain calls cut away. Every random draw
 * comes from one `sfc32` generator, seeded from the set name through
 * `xmur3`, so the outcome is a function of the set name.
 */
module Admin {
  import opened Wrappers
  import opened Tarot
  import Prng

  datatype CardLot = CardLot(name: string, cid: string)

  /** A card of a lot before it becomes a token: lot in [0, 4), catalogue index in [0, 78). */
  datatype CardRef = CardRef(lotIndex: nat, cardIndex: nat)

  const NumLots: nat := 4
  const NumCardsPerPack: nat := 7

  /** `lotSizes`: 780, 7 800, 39 000 and 78 000 cards. */
  const LotSizes: seq<nat> := [10 * TotalCards, 100 * TotalCards, 500 * TotalCards, 1000 * TotalCards]

  /** `numRareDecks = lotSizes[0] / totalCards`. */
  const NumRareDecks: nat := LotSizes[0] / TotalCards

  // ---- lot names -----------------------------------------------------------

  predicate IsLotName(name: string)
  {
    |name| == 4 && forall i :: 0 <= i < 4 ==> 'a' <= name[i] <= 'z'
  }

  predicate NameTaken(lots: seq<CardLot>, name: string)
  {
    exists i :: 0 <= i < |lots| && lots[i].name == name
  }

  predicate DistinctNames(lots: seq<CardLot>)
  {
    forall i, j :: 0 <= i < j < |lots| ==> lots[i].name != lots[j].name
  }

  /** One call of `ch = randrange(97, 122, rand)` as a character. */
  function Letter(x: bv32): (r: char)
    ensures 'a' <= r <= 'z'
  {
    Prng.RandRange(97, 122, x as nat) as char
  }

  /** The name made of four calls of `ch`. */
  function LotName(xs: seq<bv32>): (r: string)
    requires |xs| == 4
    ensures IsLotName(r)
  {
    [Letter(xs[0]), Letter(xs[1]), Letter(xs[2]), Letter(xs[3])]
  }

  /** `String.fromCharCode(ch(), ch(), ch(), ch())`: four draws, one letter each. */
  method RandomLotName(rand: Prng.Sfc32) returns (name: string)
    requires rand.Valid()
    modifies rand
    ensures rand.Valid()
    ensures Prng.Drew(old(rand.produced), rand.produced, 4)
    ensures IsLotName(name)
    ensures name == NameAt(rand.seed, |old(rand.produced)|)
  {
    ghost var p0 := rand.produced;
    var c0 := Ch(rand);
    ghost var p1 := rand.produced;
    var c1 := Ch(rand);
    ghost var p2 := rand.produced;
    var c2 := Ch(rand);
    ghost var p3 := rand.produced;
    var c3 := Ch(rand);
    DrewFour(p0, p1, p2, p3, rand.produced);
    name := [c0, c1, c2, c3];
    assert name == LotName(rand.produced[|p0|..]);
    NameAtWords(rand.seed, |p0|);
  }

  /** One call of `ch`: a single draw, as its letter. */
  method Ch(rand: Prng.Sfc32) returns (c: char)
    requires rand.Valid()
    modifies rand
    ensures rand.Valid()
    ensures Prng.Drew(old(rand.produced), rand.produced, 1)
    ensures c == Letter(rand.produced[|old(rand.produced)|])
  {
    var x := rand.Next();
    c := Letter(x);
    assert rand.produced[..|old(rand.produced)|] == old(rand.produced);
  }

  /** Four single draws in a row are the four words after the first state. */
  lemma DrewFour(p0: seq<bv32>, p1: seq<bv32>, p2: seq<bv32>, p3: seq<bv32>, p4: seq<bv32>)
    requires Prng.Drew(p0, p1, 1) && Prng.Drew(p1, p2, 1) && Prng.Drew(p2, p3, 1) && Prng.Drew(p3, p4, 1)
    ensures Prng.Drew(p0, p4, 4)
    ensures p4[|p0|..] == [p1[|p0|], p2[|p1|], p3[|p2|], p4[|p3|]]
  {
    Prng.DrewChain(p0, p1, p2, 1, 1);
    Prng.DrewChain(p0, p2, p3, 2, 1);
    Prng.DrewChain(p0, p3, p4, 3, 1);
    var n := |p0|;
    DrewKeeps(p3, p4, 1, n + 2);
    DrewKeeps(p3, p4, 1, n + 1);
    DrewKeeps(p2, p3, 1, n + 1);
    DrewKeeps(p1, p4, 3, n);
    assert p4[n..] == [p4[n], p4[n + 1], p4[n + 2], p4[n + 3]];
  }

  /** Words already drawn stay where they are. */
  lemma DrewKeeps(before: seq<bv32>, after: seq<bv32>, k: nat, i: nat)
    requires Prng.Drew(before, after, k) && i < |before|
    ensures after[i] == before[i]
  {
    assert after[..|before|][i] == after[i];
  }

  /**
   * The name four calls of `ch` make once the generator seeded with
   * `seed` has been called `pos` times.
   */
  function NameAt(seed: Prng.Sfc32State, pos: nat): string
    decreases pos
  {
    if pos == 0 then LotName(Prng.Sfc32Outputs(seed, 4)) else NameAt(Prng.Sfc32Next(seed), pos - 1)
  }

  /** The name at a position is the one `LotName` makes of the four words drawn there. */
  lemma {:induction false} NameAtWords(seed: Prng.Sfc32State, pos: nat)
    ensures NameAt(seed, pos) == LotName(Prng.Sfc32Outputs(seed, pos + 4)[pos..])
    decreases pos
  {
    if pos > 0 {
      NameAtWords(Prng.Sfc32Next(seed), pos - 1);
      assert Prng.Sfc32Outputs(seed, pos + 4)[pos..] == Prng.Sfc32Outputs(Prng.Sfc32Next(seed), pos + 3)[pos - 1..];
    } else {
      assert Prng.Sfc32Outputs(seed, 4)[0..] == Prng.Sfc32Outputs(seed, 4);
    }
  }

  /** The names the generator seeded with `seed` offers, by the number of calls before them. */
  function NameStream(seed: Prng.Sfc32State): nat -> string
  {
    (pos: nat) => NameAt(seed, pos)
  }

  /** The outcome of one do/while: the name, the number of calls after it, and the redraws left. */
  datatype NameDraw = NameDraw(name: string, next: nat, left: nat)

  /** The outcome of the lot-name loop: the lots and the number of calls after it. */
  datatype LotsDraw = LotsDraw(lots: seq<CardLot>, next: nat)

  /**
   * The do/while of one lot name on a generator whose four calls after
   * `pos` calls make the name `names(pos)`: a name from four calls,
   * redrawn while it is taken, one unit of `left` per redraw. The first
   * name not taken is the one kept.
   */
  function DrawName(names: nat -> string, pos: nat, taken: seq<CardLot>, left: nat): (r: Option<NameDraw>)
    ensures r.Some? ==> !NameTaken(taken, r.value.name) && r.value.left <= left
    ensures r.Some? ==> r.value.next >= pos + 4
    decreases left
  {
    var name := names(pos);
    if !NameTaken(taken, name) then Some(NameDraw(name, pos + 4, left))
    else if left == 0 then None
    else DrawName(names, pos + 4, taken, left - 1)
  }

  /**
   * The lot names `mintSet` generates from call `pos` of such a
   * generator, after the lots `acc`: a function of the names it offers
   * and of the position alone.
   */
  function LotsDrawn(names: nat -> string, pos: nat, acc: seq<CardLot>, left: nat): (r: Option<LotsDraw>)
    decreases NumLots - |acc|
  {
    if |acc| >= NumLots then Some(LotsDraw(acc, pos))
    else
      match DrawName(names, pos, acc, left)
      case None => None
      case Some(d) => LotsDrawn(names, d.next, acc + [CardLot(d.name, "")], d.left)
  }

  lemma {:induction false} DrawNameMoreFuel(names: nat -> string, pos: nat, taken: seq<CardLot>, left: nat, extra: nat)
    requires DrawName(names, pos, taken, left).Some?
    ensures var d := DrawName(names, pos, taken, left).value;
      DrawName(names, pos, taken, left + extra) == Some(NameDraw(d.name, d.next, d.left + extra))
    decreases left
  {
    if NameTaken(taken, names(pos)) {
      DrawNameMoreFuel(names, pos + 4, taken, left - 1, extra);
    }
  }

  /**
   * The fuel is only a bound: once the lot names are found, more fuel
   * finds the same names, so the lots depend on the names offered alone.
   */
  lemma {:induction false} LotsDrawnMoreFuel(names: nat -> string, pos: nat, acc: seq<CardLot>, left: nat, extra: nat)
    requires LotsDrawn(names, pos, acc, left).Some?
    ensures LotsDrawn(names, pos, acc, left + extra).Some?
    ensures LotsDrawn(names, pos, acc, left + extra).value.lots == LotsDrawn(names, pos, acc, left).value.lots
    decreases NumLots - |acc|
  {
    if |acc| < NumLots {
      var d := DrawName(names, pos, acc, left).value;
      DrawNameMoreFuel(names, pos, acc, left, extra);
      LotsDrawnMoreFuel(names, d.next, acc + [CardLot(d.name, "")], d.left, extra);
    }
  }

  /** A taken name with redraws left: the do/while goes round again, with the same outcome. */
  lemma DrawNameRetry(names: nat -> string, pos: nat, taken: seq<CardLot>, left: nat, outcome: Option<NameDraw>)
    requires NameTaken(taken, names(pos)) && left > 0
    requires outcome == DrawName(names, pos, taken, left)
    ensures outcome == DrawName(names, pos + 4, taken, left - 1)
  {
  }

  /**
   * The do/while of one lot name: names are drawn until one is not taken.
   * Each retry spends one unit of `left`; `None` means it ran out.
   */
  method NextLotName(rand: Prng.Sfc32, taken: seq<CardLot>, left: nat) returns (name: Option<string>, rest: nat)
    requires rand.Valid()
    modifies rand
    ensures rand.Valid()
    ensures var g := DrawName(NameStream(rand.seed), |old(rand.produced)|, taken, left);
      (name.None? <==> g.None?) &&
      (g.Some? ==> name == Some(g.value.name) && rest == g.value.left && |rand.produced| == g.value.next)
    ensures name.Some? ==> IsLotName(name.value) && !NameTaken(taken, name.value)
  {
    ghost var names := NameStream(rand.seed);
    ghost var outcome := DrawName(names, |rand.produced|, taken, left);
    ghost var cur: nat := |rand.produced|;
    rest := left;
    var drawn := RandomLotName(rand);
    while NameTaken(taken, drawn)
      invariant rand.Valid()
      invariant drawn == names(cur) && IsLotName(drawn) && |rand.produced| == cur + 4
      invariant outcome == DrawName(names, cur, taken, rest)
      decreases rest
    {
      if rest == 0 {
        return None, 0;
      }
      DrawNameRetry(names, cur, taken, rest, outcome);
      rest := rest - 1;
      cur := cur + 4;
      drawn := RandomLotName(rand);
    }
    name := Some(drawn);
  }

  /** A lot whose name is not taken keeps the names distinct. */
  lemma AppendFreshLot(acc: seq<CardLot>, name: string)
    requires DistinctNames(acc) && !NameTaken(acc, name)
    ensures DistinctNames(acc + [CardLot(name, "")])
  {
    var next := acc + [CardLot(name, "")];
    forall i, j | 0 <= i < j < |next|
      ensures next[i].name != next[j].name
    {
      if j == |acc| {
        assert acc[i].name == next[i].name;
      }
    }
  }

  /** Lots with fresh names, all of lot-name shape and with no content yet. */
  predicate NewLots(lots: seq<CardLot>)
  {
    DistinctNames(lots) && forall k :: 0 <= k < |lots| ==> IsLotName(lots[k].name) && lots[k].cid == ""
  }

  lemma AppendNewLot(acc: seq<CardLot>, name: string)
    requires NewLots(acc) && IsLotName(name) && !NameTaken(acc, name)
    ensures NewLots(acc + [CardLot(name, "")])
  {
    AppendFreshLot(acc, name);
  }

  /** One round of the lot-name loop: the name drawn is appended, or the loop fails. */
  lemma LotsDrawnStep(names: nat -> string, pos: nat, acc: seq<CardLot>, left: nat)
    requires |acc| < NumLots
    ensures DrawName(names, pos, acc, left).None? ==> LotsDrawn(names, pos, acc, left).None?
    ensures DrawName(names, pos, acc, left).Some? ==>
      var d := DrawName(names, pos, acc, left).value;
      LotsDrawn(names, pos, acc, left) == LotsDrawn(names, d.next, acc + [CardLot(d.name, "")], d.left)
  {
  }

  /**
   * The loop that draws the four lot names, each with its do/while. The
   * retries share one `fuel`; `None` means it ran out. The names are those
   * of `LotsDrawn` on the names the generator's seed offers, from its
   * number of calls so far.
   */
  method GenerateLots(rand: Prng.Sfc32, fuel: nat) returns (lots: Option<seq<CardLot>>)
    requires rand.Valid()
    modifies rand
    ensures rand.Valid()
    ensures var g := LotsDrawn(NameStream(rand.seed), |old(rand.produced)|, [], fuel);
      (lots.None? <==> g.None?) &&
      (lots.Some? ==> lots.value == g.value.lots && |rand.produced| == g.value.next)
    ensures lots.Some? ==> |lots.value| == NumLots
    ensures lots.Some? ==> forall i :: 0 <= i < |lots.value| ==>
      IsLotName(lots.value[i].name) && lots.value[i].cid == ""
    ensures lots.Some? ==> DistinctNames(lots.value)
  {
    ghost var names := NameStream(rand.seed);
    ghost var whole := LotsDrawn(names, |rand.produced|, [], fuel);
    var acc: seq<CardLot> := [];
    var left := fuel;
    for i := 0 to NumLots
      invariant |acc| == i
      invariant NewLots(acc)
      invariant rand.Valid()
      invariant whole == LotsDrawn(names, |rand.produced|, acc, left)
    {
      LotsDrawnStep(names, |rand.produced|, acc, left);
      var name, rest := NextLotName(rand, acc, left);
      if name.None? {
        return None;
      }
      AppendNewLot(acc, name.value);
      acc := acc + [CardLot(name.value, "")];
      left := rest;
    }
    lots := Some(acc);
  }

  // ---- lot contents --------------------------------------------------------

  function Sum(s: seq<nat>): nat
  {
    if s == [] then 0 else Sum(s[..|s| - 1]) + s[|s| - 1]
  }

  lemma {:induction false} SumIncrement(s: seq<nat>, c: nat)
    requires c < |s|
    ensures Sum(s[c := s[c] + 1]) == Sum(s) + 1
  {
    var t := s[c := s[c] + 1];
    if c == |s| - 1 {
      assert t[..|t| - 1] == s[..|s| - 1];
    } else {
      assert t[..|t| - 1] == s[..|s| - 1][c := s[c] + 1];
      SumIncrement(s[..|s| - 1], c);
    }
  }

  lemma {:induction false} SumConstant(n: nat, v: nat)
    ensures Sum(seq(n, _ => v)) == n * v
  {
    if n > 0 {
      assert seq(n, _ => v)[..n - 1] == seq(n - 1, _ => v);
      SumConstant(n - 1, v);
    }
  }

  /** The rarest lot: `numRareDecks` copies of each card index, index by index. */
  method FillRareLot() returns (remaining: seq<CardRef>, rareTotals: seq<nat>)
    ensures |remaining| == LotSizes[0]
    ensures forall k :: 0 <= k < |remaining| ==> remaining[k] == CardRef(0, k / NumRareDecks)
    ensures forall c :: 0 <= c < TotalCards ==> multiset(remaining)[CardRef(0, c)] == NumRareDecks
    ensures rareTotals == seq(TotalCards, _ => NumRareDecks)
    ensures Sum(rareTotals) == LotSizes[0]
  {
    remaining, rareTotals := [], [];
    for i := 0 to TotalCards
      invariant |remaining| == i * NumRareDecks
      invariant forall k :: 0 <= k < |remaining| ==> remaining[k] == CardRef(0, k / NumRareDecks)
      invariant forall c :: 0 <= c < i ==> multiset(remaining)[CardRef(0, c)] == NumRareDecks
      invariant forall c :: i <= c < TotalCards ==> multiset(remaining)[CardRef(0, c)] == 0
      invariant rareTotals == seq(i, _ => NumRareDecks)
    {
      for j := 0 to NumRareDecks
        invariant |remaining| == i * NumRareDecks + j
        invariant forall k :: 0 <= k < |remaining| ==> remaining[k] == CardRef(0, k / NumRareDecks)
        invariant forall c :: 0 <= c < i ==> multiset(remaining)[CardRef(0, c)] == NumRareDecks
        invariant multiset(remaining)[CardRef(0, i)] == j
        invariant forall c :: i < c < TotalCards ==> multiset(remaining)[CardRef(0, c)] == 0
      {
        assert (i * NumRareDecks + j) / NumRareDecks == i;
        remaining := remaining + [CardRef(0, i)];
      }
      rareTotals := rareTotals + [NumRareDecks];
    }
    SumConstant(TotalCards, NumRareDecks);
  }

  /** Cumulative odds: entry i is the sum of odds 0..i. */
  predicate IsCumulative(odds: seq<int>, cumulative: seq<int>)
  {
    |cumulative| == |odds| &&
    forall i :: 0 <= i < |odds| ==> cumulative[i] == (if i == 0 then 0 else cumulative[i - 1]) + odds[i]
  }

  /** One odds value per card from `randrange(900, 1000, rand)`, and their running sums. */
  method AssignOdds(rand: Prng.Sfc32) returns (odds: seq<int>, cumulativeOdds: seq<int>, total: int)
    requires rand.Valid()
    modifies rand
    ensures rand.Valid()
    ensures |odds| == TotalCards
    ensures forall i :: 0 <= i < |odds| ==> 900 <= odds[i] <= 1000
    ensures IsCumulative(odds, cumulativeOdds)
    ensures forall i, j :: 0 <= i < j < |cumulativeOdds| ==> cumulativeOdds[i] < cumulativeOdds[j]
    ensures cumulativeOdds[TotalCards - 1] == total
    ensures 900 * TotalCards <= total <= 1000 * TotalCards
  {
    odds, cumulativeOdds, total := [], [], 0;
    for i := 0 to TotalCards
      invariant |odds| == |cumulativeOdds| == i
      invariant forall k :: 0 <= k < i ==> 900 <= odds[k] <= 1000
      invariant IsCumulative(odds, cumulativeOdds)
      invariant forall k, j :: 0 <= k < j < i ==> cumulativeOdds[k] < cumulativeOdds[j]
      invariant i > 0 ==> cumulativeOdds[i - 1] == total
      invariant forall k :: 0 <= k < i ==> cumulativeOdds[k] <= total
      invariant 900 * i <= total <= 1000 * i
      invariant rand.Valid()
    {
      var o := rand.NextInRange(900, 1000);
      odds := odds + [o];
      total := total + o;
      cumulativeOdds := cumulativeOdds + [total];
    }
  }

  /**
   * `pick()`: the least index whose cumulative odds exceed `rand() % total`.
   * The "Pick failure" fallback cannot be reached, because the last
   * cumulative value is `total` itself.
   */
  method Pick(rand: Prng.Sfc32, cumulativeOdds: seq<int>, total: int) returns (idx: nat)
    requires |cumulativeOdds| == TotalCards && cumulativeOdds[TotalCards - 1] == total && total > 0
    requires rand.Valid()
    modifies rand
    ensures rand.Valid()
    ensures Prng.Drew(old(rand.produced), rand.produced, 1)
    ensures idx < TotalCards
    ensures var n := rand.produced[|rand.produced| - 1] as int % total;
      n < cumulativeOdds[idx] && forall j :: 0 <= j < idx ==> cumulativeOdds[j] <= n
  {
    var x := rand.Next();
    var n := x as int % total;
    var i := 0;
    while i < TotalCards
      invariant 0 <= i <= TotalCards
      invariant forall j :: 0 <= j < i ==> cumulativeOdds[j] <= n
    {
      if n < cumulativeOdds[i] {
        return i;
      }
      i := i + 1;
    }
    assert false;
  }

  /** The cards of `added` from lot `lotIndex` with catalogue index `c`. */
  function CountOf(added: seq<CardRef>, lotIndex: nat, c: nat): nat
  {
    multiset(added)[CardRef(lotIndex, c)]
  }

  /**
   * Lots 1..3: `lotSize` picks appended to `remaining`, with `totals`
   * counting how often each card index was picked.
   */
  method FillLot(rand: Prng.Sfc32, lotIndex: nat, lotSize: nat, cumulativeOdds: seq<int>, total: int,
                 remaining: seq<CardRef>)
    returns (remaining': seq<CardRef>, totals: seq<nat>)
    requires |cumulativeOdds| == TotalCards && cumulativeOdds[TotalCards - 1] == total && total > 0
    requires rand.Valid()
    modifies rand
    ensures rand.Valid()
    ensures |remaining'| == |remaining| + lotSize && remaining'[..|remaining|] == remaining
    ensures forall k :: |remaining| <= k < |remaining'| ==>
      remaining'[k].lotIndex == lotIndex && remaining'[k].cardIndex < TotalCards
    ensures |totals| == TotalCards && Sum(totals) == lotSize
    ensures forall c :: 0 <= c < TotalCards ==> totals[c] == CountOf(remaining'[|remaining|..], lotIndex, c)
  {
    remaining' := remaining;
    totals := seq(TotalCards, _ => 0);
    SumConstant(TotalCards, 0);
    for i := 0 to lotSize
      invariant Filled(remaining, remaining', totals, lotIndex, i)
      invariant rand.Valid()
    {
      var cardIndex := Pick(rand, cumulativeOdds, total);
      FilledStep(remaining, remaining', totals, lotIndex, i, cardIndex);
      remaining' := remaining' + [CardRef(lotIndex, cardIndex)];
      totals := totals[cardIndex := totals[cardIndex] + 1];
    }
  }

  /** `current` is `remaining` and `n` picks of lot `lotIndex`, which `totals` counts card by card. */
  ghost predicate Filled(remaining: seq<CardRef>, current: seq<CardRef>, totals: seq<nat>, lotIndex: nat, n: nat)
  {
    |current| == |remaining| + n && current[..|remaining|] == remaining &&
    (forall k :: |remaining| <= k < |current| ==> current[k].lotIndex == lotIndex && current[k].cardIndex < TotalCards) &&
    |totals| == TotalCards && Sum(totals) == n &&
    forall c :: 0 <= c < TotalCards ==> totals[c] == CountOf(current[|remaining|..], lotIndex, c)
  }

  /** One more pick of card `cardIndex` is appended and counted. */
  lemma FilledStep(remaining: seq<CardRef>, current: seq<CardRef>, totals: seq<nat>, lotIndex: nat, n: nat,
                   cardIndex: nat)
    requires Filled(remaining, current, totals, lotIndex, n) && cardIndex < TotalCards
    ensures Filled(remaining, current + [CardRef(lotIndex, cardIndex)], totals[cardIndex := totals[cardIndex] + 1],
                   lotIndex, n + 1)
  {
    var next := current + [CardRef(lotIndex, cardIndex)];
    assert next[..|remaining|] == remaining;
    assert next[|remaining|..] == current[|remaining|..] + [CardRef(lotIndex, cardIndex)];
    SumIncrement(totals, cardIndex);
  }

  // ---- token ids -----------------------------------------------------------

  /** `tokenId = card.lotIndex * totalCards + card.cardIndex`. */
  function TokenId(r: CardRef): nat
  {
    r.lotIndex * TotalCards + r.cardIndex
  }

  /** `Math.floor(tokenId / totalCards)` and `tokenId % totalCards`. */
  function DecodeTokenId(t: nat): (r: CardRef)
    ensures r.cardIndex < TotalCards
  {
    CardRef(t / TotalCards, t % TotalCards)
  }

  lemma DecodeEncode(r: CardRef)
    requires r.cardIndex < TotalCards
    ensures DecodeTokenId(TokenId(r)) == r
  {
    DivModUnique(TokenId(r), r.lotIndex, r.cardIndex);
  }

  lemma EncodeDecode(t: nat)
    ensures TokenId(DecodeTokenId(t)) == t
  {
  }

  /** Distinct cards of the catalogue have distinct token ids. */
  lemma TokenIdInjective(r1: CardRef, r2: CardRef)
    requires r1.cardIndex < TotalCards && r2.cardIndex < TotalCards
    requires TokenId(r1) == TokenId(r2)
    ensures r1 == r2
  {
    DecodeEncode(r1);
    DecodeEncode(r2);
  }

  lemma DivModUnique(t: nat, q: nat, m: nat)
    requires m < TotalCards && t == q * TotalCards + m
    ensures t / TotalCards == q && t % TotalCards == m
  {
  }

  function TokenIds(cards: seq<CardRef>): (r: seq<nat>)
    ensures |r| == |cards| && forall i :: 0 <= i < |cards| ==> r[i] == TokenId(cards[i])
  {
    seq(|cards|, i requires 0 <= i < |cards| => TokenId(cards[i]))
  }

  lemma TokenIdsSplice(cards: seq<CardRef>, n: nat)
    requires n < |cards|
    ensures TokenIds(cards[..n] + cards[n + 1..]) == TokenIds(cards)[..n] + TokenIds(cards)[n + 1..]
  {
  }

  /** Removing one element from a sequence removes one occurrence from its multiset. */
  lemma MultisetSplice<T>(s: seq<T>, n: nat)
    requires n < |s|
    ensures multiset(s[..n] + s[n + 1..]) + multiset{s[n]} == multiset(s)
  {
    assert s == s[..n] + [s[n]] + s[n + 1..];
  }

  // ---- packs ---------------------------------------------------------------

  datatype CardPack = CardPack(tokenIds: seq<nat>)

  predicate Distinct(s: seq<nat>)
  {
    forall i, j :: 0 <= i < j < |s| ==> s[i] != s[j]
  }

  lemma DistinctAppend(s: seq<nat>, x: nat)
    requires Distinct(s) && x !in s
    ensures Distinct(s + [x])
  {
  }

  /** One to seven token ids, none repeated. */
  predicate WellFormedPack(p: CardPack)
  {
    1 <= |p.tokenIds| <= NumCardsPerPack && Distinct(p.tokenIds)
  }

  /** The token ids of all packs, pack by pack. */
  function Flatten(packs: seq<CardPack>): seq<nat>
  {
    if packs == [] then [] else Flatten(packs[..|packs| - 1]) + packs[|packs| - 1].tokenIds
  }

  lemma FlattenAppend(packs: seq<CardPack>, p: CardPack)
    ensures Flatten(packs + [p]) == Flatten(packs) + p.tokenIds
  {
    assert (packs + [p])[..|packs|] == packs;
  }

  /** One pack as drawn, with what is left, the updated `mintTotals` and the retries left. */
  datatype PackDraw = PackDraw(pack: seq<nat>, left: seq<CardRef>, mintTotals: seq<nat>, retries: nat)

  /**
   * While a pack is drawn: its ids are distinct, and they and the ids of
   * the cards still `rest` are exactly the ids of the cards `left` at the
   * start of the pack.
   */
  ghost predicate PackSplit(pack: seq<nat>, rest: seq<CardRef>, left: seq<CardRef>)
  {
    Distinct(pack) &&
    multiset(pack) + multiset(TokenIds(rest)) == multiset(TokenIds(left)) &&
    multiset(rest) <= multiset(left) &&
    |pack| + |rest| == |left| &&
    forall k :: 0 <= k < |rest| ==> rest[k].cardIndex < TotalCards
  }

  /** Splicing card `n` out of `rest` into the pack keeps the split. */
  lemma PackSplitStep(pack: seq<nat>, rest: seq<CardRef>, left: seq<CardRef>, n: nat)
    requires PackSplit(pack, rest, left) && n < |rest| && TokenId(rest[n]) !in pack
    ensures PackSplit(pack + [TokenId(rest[n])], rest[..n] + rest[n + 1..], left)
  {
    var rest' := rest[..n] + rest[n + 1..];
    TokenIdsSplice(rest, n);
    MultisetSplice(TokenIds(rest), n);
    MultisetSplice(rest, n);
    DistinctAppend(pack, TokenId(rest[n]));
    assert forall k :: 0 <= k < |rest'| ==> rest'[k] in rest;
  }

  /**
   * The body of the pack loop: up to seven draws of `rand() %
   * remaining.length`, each splicing its card into the pack unless its
   * token id is already there. A duplicate ends the pack when at most seven
   * cards remain ("Give up on last pack") and is otherwise redrawn
   * (`--i; continue`), spending one retry; `None` means the retries ran out.
   */
  method DrawPack(rand: Prng.Sfc32, left: seq<CardRef>, mintTotals: seq<nat>, retries: nat)
    returns (d: Option<PackDraw>)
    requires rand.Valid()
    requires |left| >= NumCardsPerPack
    requires forall k :: 0 <= k < |left| ==> left[k].cardIndex < TotalCards
    requires |mintTotals| == TotalCards
    modifies rand
    ensures rand.Valid()
    ensures d.Some? ==> 1 <= |d.value.pack| <= NumCardsPerPack && PackSplit(d.value.pack, d.value.left, left)
    ensures d.Some? ==> |d.value.mintTotals| == TotalCards && Sum(d.value.mintTotals) == Sum(mintTotals) + |d.value.pack|
  {
    var pack: seq<nat> := [];
    var rest := left;
    var totals := mintTotals;
    var tries := retries;
    var i := 0;
    while i < NumCardsPerPack
      invariant rand.Valid()
      invariant 0 <= i <= NumCardsPerPack && |pack| == i
      invariant PackSplit(pack, rest, left)
      invariant |totals| == TotalCards && Sum(totals) == Sum(mintTotals) + i
      decreases NumCardsPerPack - i, tries
    {
      var x := rand.Draw();
      var n := x % |rest|;
      var card := rest[n];
      var tokenId := TokenId(card);
      if tokenId in pack {
        if |rest| <= NumCardsPerPack {
          break;
        }
        if tries == 0 {
          return None;
        }
        tries := tries - 1;
        continue;
      }
      PackSplitStep(pack, rest, left, n);
      SumIncrement(totals, card.cardIndex);
      pack, rest := pack + [tokenId], rest[..n] + rest[n + 1..];
      totals := totals[card.cardIndex := totals[card.cardIndex] + 1];
      i := i + 1;
    }
    d := Some(PackDraw(pack, rest, totals, tries));
  }

  lemma PackSplitMultiset(pack: seq<nat>, rest: seq<CardRef>, left: seq<CardRef>)
    requires PackSplit(pack, rest, left)
    ensures multiset(pack) + multiset(TokenIds(rest)) == multiset(TokenIds(left))
    ensures multiset(rest) <= multiset(left) && Distinct(pack) && |rest| + |pack| == |left|
    ensures forall k :: 0 <= k < |rest| ==> rest[k].cardIndex < TotalCards
  {
  }

  /** What pack generation leaves behind: the packs, the unpacked cards and `mintTotals`. */
  datatype PackRun = PackRun(packs: seq<CardPack>, left: seq<CardRef>, mintTotals: seq<nat>)

  /**
   * `while (remaining.length >= numCardsPerPack)`: packs drawn one after
   * another. `fuel` bounds the redraws of duplicates over the whole run;
   * `None` means it ran out.
   */
  method GeneratePacks(rand: Prng.Sfc32, remaining: seq<CardRef>, fuel: nat) returns (r: Option<PackRun>)
    requires rand.Valid()
    requires forall k :: 0 <= k < |remaining| ==> remaining[k].cardIndex < TotalCards
    modifies rand
    ensures rand.Valid()
    ensures r.Some? ==> |r.value.left| < NumCardsPerPack
    ensures r.Some? ==> forall k :: 0 <= k < |r.value.packs| ==> WellFormedPack(r.value.packs[k])
    ensures r.Some? ==> multiset(Flatten(r.value.packs)) + multiset(TokenIds(r.value.left)) == multiset(TokenIds(remaining))
    ensures r.Some? ==> multiset(r.value.left) <= multiset(remaining)
    ensures r.Some? ==> |r.value.mintTotals| == TotalCards && Sum(r.value.mintTotals) == |Flatten(r.value.packs)|
  {
    var packs: seq<CardPack> := [];
    var left := remaining;
    var mintTotals: seq<nat> := seq(TotalCards, _ => 0);
    var retries := fuel;
    SumConstant(TotalCards, 0);
    while |left| >= NumCardsPerPack
      invariant rand.Valid()
      invariant forall k :: 0 <= k < |left| ==> left[k].cardIndex < TotalCards
      invariant forall k :: 0 <= k < |packs| ==> WellFormedPack(packs[k])
      invariant multiset(Flatten(packs)) + multiset(TokenIds(left)) == multiset(TokenIds(remaining))
      invariant multiset(left) <= multiset(remaining)
      invariant |mintTotals| == TotalCards && Sum(mintTotals) == |Flatten(packs)|
      decreases |left|
    {
      var d := DrawPack(rand, left, mintTotals, retries);
      if d.None? {
        return None;
      }
      PackSplitMultiset(d.value.pack, d.value.left, left);
      FlattenAppend(packs, CardPack(d.value.pack));
      packs := packs + [CardPack(d.value.pack)];
      left, mintTotals, retries := d.value.left, d.value.mintTotals, d.value.retries;
    }
    r := Some(PackRun(packs, left, mintTotals));
  }

  // ---- minting -------------------------------------------------------------

  /** `collection.find({tokenIds: tokenId}).count()`: the packs holding `t`. */
  function PackCount(packs: seq<CardPack>, t: nat): nat
  {
    if packs == [] then 0
    else PackCount(packs[..|packs| - 1], t) + (if t in packs[|packs| - 1].tokenIds then 1 else 0)
  }

  lemma {:induction false} DistinctCount(s: seq<nat>, t: nat)
    requires Distinct(s)
    ensures multiset(s)[t] == if t in s then 1 else 0
  {
    if s != [] {
      var s' := s[..|s| - 1];
      assert s == s' + [s[|s| - 1]];
      DistinctCount(s', t);
    }
  }

  /** With no id repeated inside a pack, counting packs counts occurrences. */
  lemma {:induction false} PackCountFlatten(packs: seq<CardPack>, t: nat)
    requires forall k :: 0 <= k < |packs| ==> WellFormedPack(packs[k])
    ensures PackCount(packs, t) == multiset(Flatten(packs))[t]
  {
    if packs != [] {
      var last := packs[|packs| - 1];
      PackCountFlatten(packs[..|packs| - 1], t);
      DistinctCount(last.tokenIds, t);
    }
  }

  datatype MintCall = MintCall(tokenId: nat, amount: nat, metadataUri: string)

  datatype MintError =
    | LotCidMissing(lotIndex: nat)                         // "Lot CID not initialized"
    | Mismatch(tokenId: nat, count: nat, expected: nat)   // "Mismatch: id=..."

  /** `ipfs://<lot CID>/<card>.json`. */
  function MetadataUri(lot: CardLot, card: string): string
  {
    "ipfs://" + lot.cid + "/" + card + ".json"
  }

  /** `startId > lotIndex * totalCards`: the lot is passed over as already minted. */
  predicate LotSkipped(startId: nat, lotIndex: nat)
  {
    startId > lotIndex * TotalCards
  }

  /** The first lot that is not passed over. */
  function FirstMintedLot(startId: nat): (r: nat)
    ensures forall k: nat :: LotSkipped(startId, k) <==> k < r
  {
    LotSkippedBelow(startId);
    (startId + TotalCards - 1) / TotalCards
  }

  lemma LotSkippedBelow(startId: nat)
    ensures forall k: nat :: LotSkipped(startId, k) <==> k < (startId + TotalCards - 1) / TotalCards
  {
    var f := (startId + TotalCards - 1) / TotalCards;
    assert f * TotalCards < startId + TotalCards && startId <= f * TotalCards;
    forall k: nat
      ensures LotSkipped(startId, k) <==> k < f
    {
      if k < f {
        assert k * TotalCards <= f * TotalCards - TotalCards;
      } else {
        assert k * TotalCards >= f * TotalCards;
      }
    }
  }

  /** Every lot has a CID and, in every lot minted, each token's pack count is the lot total. */
  ghost predicate MintChecksPass(startId: nat, lots: seq<CardLot>, packs: seq<CardPack>, lotsTotals: seq<seq<nat>>)
    requires |lotsTotals| == |lots| && forall k :: 0 <= k < |lots| ==> |lotsTotals[k]| == TotalCards
  {
    (forall k :: 0 <= k < |lots| ==> lots[k].cid != "") &&
    forall k :: 0 <= k < |lots| && !LotSkipped(startId, k) ==> LotCountsMatch(packs, lotsTotals, k, TotalCards)
  }

  /** A mint call as the mint loop builds it for lot `k` and card `c`, named `cards[c]`. */
  ghost predicate IsMintOf(call: MintCall, k: nat, c: nat, lots: seq<CardLot>, cards: seq<string>, packs: seq<CardPack>,
                           lotsTotals: seq<seq<nat>>)
    requires |lotsTotals| == |lots| && forall k :: 0 <= k < |lots| ==> |lotsTotals[k]| == TotalCards
  {
    k < |lots| && c < TotalCards && c < |cards| &&
    call.tokenId == k * TotalCards + c &&
    call.amount == PackCount(packs, call.tokenId) == lotsTotals[k][c] &&
    call.metadataUri == MetadataUri(lots[k], cards[c])
  }

  /** The batch of lot `k`: the mint calls of its 78 cards in catalogue order. */
  ghost predicate IsBatchOf(batch: seq<MintCall>, k: nat, lots: seq<CardLot>, cards: seq<string>, packs: seq<CardPack>,
                            lotsTotals: seq<seq<nat>>)
    requires |lotsTotals| == |lots| && forall k :: 0 <= k < |lots| ==> |lotsTotals[k]| == TotalCards
  {
    |batch| == TotalCards &&
    forall c :: 0 <= c < TotalCards ==> IsMintOf(batch[c], k, c, lots, cards, packs, lotsTotals)
  }

  /** The batches for lots `first .. first + |batches|`, all 78 cards of each. */
  ghost predicate BatchesFrom(batches: seq<seq<MintCall>>, first: nat, lots: seq<CardLot>, cards: seq<string>,
                              packs: seq<CardPack>,
                              lotsTotals: seq<seq<nat>>)
    requires |lotsTotals| == |lots| && forall k :: 0 <= k < |lots| ==> |lotsTotals[k]| == TotalCards
  {
    forall j :: 0 <= j < |batches| ==> IsBatchOf(batches[j], first + j, lots, cards, packs, lotsTotals)
  }

  /** The first `n` cards of lot `k` have as many packs as the lot total says. */
  ghost predicate LotCountsMatch(packs: seq<CardPack>, lotsTotals: seq<seq<nat>>, k: nat, n: nat)
    requires k < |lotsTotals| && n <= |lotsTotals[k]|
  {
    forall c :: 0 <= c < n ==> PackCount(packs, k * TotalCards + c) == lotsTotals[k][c]
  }

  /** What the loop reports for a token whose pack count differs from its lot total. */
  ghost predicate IsMismatch(e: MintError, startId: nat, lots: seq<CardLot>, packs: seq<CardPack>,
                             lotsTotals: seq<seq<nat>>)
    requires |lotsTotals| == |lots| && forall k :: 0 <= k < |lots| ==> |lotsTotals[k]| == TotalCards
  {
    e.Mismatch? &&
    var ref := DecodeTokenId(e.tokenId);
    ref.lotIndex < |lots| && !LotSkipped(startId, ref.lotIndex) &&
    e.count == PackCount(packs, e.tokenId) &&
    e.expected == lotsTotals[ref.lotIndex][ref.cardIndex] &&
    e.count != e.expected
  }

  /**
   * One lot of the mint loop: for each card, check the stored pack count
   * against the lot total and add the mint call to the batch. The
   * `startId > tokenId` skip never fires, because a lot that gets here
   * starts at or above `startId`.
   */
  method LotBatch(startId: nat, lots: seq<CardLot>, cards: seq<string>, lotIndex: nat, packs: seq<CardPack>,
                  lotsTotals: seq<seq<nat>>)
    returns (batch: seq<MintCall>, err: Option<MintError>)
    requires |lotsTotals| == |lots| && forall k :: 0 <= k < |lots| ==> |lotsTotals[k]| == TotalCards
    requires |cards| == TotalCards && lotIndex < |lots| && !LotSkipped(startId, lotIndex)
    ensures err.None? <==> LotCountsMatch(packs, lotsTotals, lotIndex, TotalCards)
    ensures err.None? ==> IsBatchOf(batch, lotIndex, lots, cards, packs, lotsTotals)
    ensures err.Some? ==> IsMismatch(err.value, startId, lots, packs, lotsTotals)
  {
    batch, err := [], None;
    for cardIndex := 0 to TotalCards
      invariant |batch| == cardIndex
      invariant forall c :: 0 <= c < cardIndex ==> IsMintOf(batch[c], lotIndex, c, lots, cards, packs, lotsTotals)
      invariant LotCountsMatch(packs, lotsTotals, lotIndex, cardIndex)
    {
      var card := cards[cardIndex];
      var tokenId := lotIndex * TotalCards + cardIndex;
      if startId > tokenId {
        assert false;
        continue;
      }
      var count := PackCount(packs, tokenId);
      var expected := lotsTotals[lotIndex][cardIndex];
      if count != expected {
        MismatchFound(startId, lots, lotIndex, cardIndex, packs, lotsTotals);
        return batch, Some(Mismatch(tokenId, count, expected));
      }
      var call := MintCall(tokenId, count, MetadataUri(lots[lotIndex], card));
      BatchStep(batch, call, lots, cards, lotIndex, cardIndex, packs, lotsTotals);
      batch := batch + [call];
    }
  }

  /** A token whose pack count differs from its lot total fails the lot's check and is reported as is. */
  lemma MismatchFound(startId: nat, lots: seq<CardLot>, lotIndex: nat, cardIndex: nat, packs: seq<CardPack>,
                      lotsTotals: seq<seq<nat>>)
    requires |lotsTotals| == |lots| && forall k :: 0 <= k < |lots| ==> |lotsTotals[k]| == TotalCards
    requires lotIndex < |lots| && !LotSkipped(startId, lotIndex) && cardIndex < TotalCards
    requires PackCount(packs, lotIndex * TotalCards + cardIndex) != lotsTotals[lotIndex][cardIndex]
    ensures !LotCountsMatch(packs, lotsTotals, lotIndex, TotalCards)
    ensures var tokenId := lotIndex * TotalCards + cardIndex;
      IsMismatch(Mismatch(tokenId, PackCount(packs, tokenId), lotsTotals[lotIndex][cardIndex]),
                 startId, lots, packs, lotsTotals)
  {
    DecodeEncode(CardRef(lotIndex, cardIndex));
  }

  /** A matching card's mint call extends both the batch and the matched prefix of the lot. */
  lemma BatchStep(batch: seq<MintCall>, call: MintCall, lots: seq<CardLot>, cards: seq<string>, k: nat, n: nat,
                  packs: seq<CardPack>,
                  lotsTotals: seq<seq<nat>>)
    requires |lotsTotals| == |lots| && forall k :: 0 <= k < |lots| ==> |lotsTotals[k]| == TotalCards
    requires k < |lots| && n < TotalCards && |batch| == n
    requires |cards| == TotalCards
    requires forall c :: 0 <= c < n ==> IsMintOf(batch[c], k, c, lots, cards, packs, lotsTotals)
    requires LotCountsMatch(packs, lotsTotals, k, n)
    requires PackCount(packs, k * TotalCards + n) == lotsTotals[k][n]
    requires call == MintCall(k * TotalCards + n, PackCount(packs, k * TotalCards + n), MetadataUri(lots[k], cards[n]))
    ensures forall c :: 0 <= c < n + 1 ==> IsMintOf((batch + [call])[c], k, c, lots, cards, packs, lotsTotals)
    ensures LotCountsMatch(packs, lotsTotals, k, n + 1)
  {
    assert IsMintOf(call, k, n, lots, cards, packs, lotsTotals);
  }

  /**
   * The mint loop: lot by lot, fail on a missing CID, pass over minted
   * lots, and mint the others' batches. Batches sent before a failure stay
   * sent, so they are returned with it.
   */
  method MintBatches(startId: nat, lots: seq<CardLot>, cards: seq<string>, packs: seq<CardPack>,
                     lotsTotals: seq<seq<nat>>)
    returns (batches: seq<seq<MintCall>>, err: Option<MintError>)
    requires |lotsTotals| == |lots| && forall k :: 0 <= k < |lots| ==> |lotsTotals[k]| == TotalCards
    requires |cards| == TotalCards
    ensures err.None? <==> MintChecksPass(startId, lots, packs, lotsTotals)
    ensures BatchesFrom(batches, FirstMintedLot(startId), lots, cards, packs, lotsTotals)
    ensures err.None? ==> |batches| == if |lots| <= FirstMintedLot(startId) then 0 else |lots| - FirstMintedLot(startId)
    ensures err.Some? && err.value.LotCidMissing? ==>
      err.value.lotIndex < |lots| && lots[err.value.lotIndex].cid == "" &&
      forall k :: 0 <= k < err.value.lotIndex ==> lots[k].cid != ""
    ensures err.Some? && !err.value.LotCidMissing? ==> IsMismatch(err.value, startId, lots, packs, lotsTotals)
  {
    var first := FirstMintedLot(startId);
    batches, err := [], None;
    for lotIndex := 0 to |lots|
      invariant forall k :: 0 <= k < lotIndex ==> lots[k].cid != ""
      invariant forall k :: 0 <= k < lotIndex && !LotSkipped(startId, k) ==> LotCountsMatch(packs, lotsTotals, k, TotalCards)
      invariant BatchesFrom(batches, first, lots, cards, packs, lotsTotals)
      invariant |batches| == if lotIndex <= first then 0 else lotIndex - first
    {
      if lots[lotIndex].cid == "" {
        return batches, Some(LotCidMissing(lotIndex));
      }
      if startId > lotIndex * TotalCards {
        continue;
      }
      var batch, e := LotBatch(startId, lots, cards, lotIndex, packs, lotsTotals);
      if e.Some? {
        return batches, e;
      }
      BatchesFromStep(batches, batch, first, lots, cards, packs, lotsTotals);
      batches := batches + [batch];
    }
  }

  /** The batch of the next lot extends the batches sent so far. */
  lemma BatchesFromStep(batches: seq<seq<MintCall>>, batch: seq<MintCall>, first: nat, lots: seq<CardLot>,
                        cards: seq<string>, packs: seq<CardPack>, lotsTotals: seq<seq<nat>>)
    requires |lotsTotals| == |lots| && forall k :: 0 <= k < |lots| ==> |lotsTotals[k]| == TotalCards
    requires BatchesFrom(batches, first, lots, cards, packs, lotsTotals)
    requires IsBatchOf(batch, first + |batches|, lots, cards, packs, lotsTotals)
    ensures BatchesFrom(batches + [batch], first, lots, cards, packs, lotsTotals)
  {
    var b := batches + [batch];
    forall j | 0 <= j < |b|
      ensures IsBatchOf(b[j], first + j, lots, cards, packs, lotsTotals)
    {
      if j < |batches| {
        assert b[j] == batches[j];
      } else {
        assert b[j] == batch && j == |batches|;
      }
    }
  }

  // ---- the whole run -------------------------------------------------------

  /** A segment drawn for lot `lotIndex` holds no card of any other lot. */
  lemma OtherLotAbsent(seg: seq<CardRef>, lotIndex: nat, k: nat, c: nat)
    requires forall i :: 0 <= i < |seg| ==> seg[i].lotIndex == lotIndex
    requires k != lotIndex
    ensures multiset(seg)[CardRef(k, c)] == 0
  {
    assert CardRef(k, c) !in seg;
  }

  /**
   * The first `n` lots are in `remaining` and every entry of their totals
   * counts that lot's copies of that card there.
   */
  ghost predicate LotsCounted(remaining: seq<CardRef>, lotsTotals: seq<seq<nat>>, n: nat)
  {
    n <= NumLots && |lotsTotals| == n &&
    (forall k :: 0 <= k < n ==> |lotsTotals[k]| == TotalCards && Sum(lotsTotals[k]) == LotSizes[k]) &&
    |remaining| == Sum(LotSizes[..n]) &&
    (forall i :: 0 <= i < |remaining| ==> remaining[i].lotIndex < n && remaining[i].cardIndex < TotalCards) &&
    forall k, c :: 0 <= k < n && 0 <= c < TotalCards ==> lotsTotals[k][c] == multiset(remaining)[CardRef(k, c)]
  }

  /** Appending the picks of lot `n` with their totals counts one more lot. */
  lemma LotsCountedStep(remaining: seq<CardRef>, lotsTotals: seq<seq<nat>>, n: nat, grown: seq<CardRef>,
                        totals: seq<nat>)
    requires LotsCounted(remaining, lotsTotals, n) && n < NumLots
    requires |grown| == |remaining| + LotSizes[n] && grown[..|remaining|] == remaining
    requires forall k :: |remaining| <= k < |grown| ==> grown[k].lotIndex == n && grown[k].cardIndex < TotalCards
    requires |totals| == TotalCards && Sum(totals) == LotSizes[n]
    requires forall c :: 0 <= c < TotalCards ==> totals[c] == CountOf(grown[|remaining|..], n, c)
    ensures LotsCounted(grown, lotsTotals + [totals], n + 1)
  {
    var seg := grown[|remaining|..];
    assert grown == remaining + seg;
    SegmentOfLot(remaining, grown, n);
    LotCountsStep(remaining, lotsTotals, n, seg, grown, totals);
    LotSumsStep(lotsTotals, totals, n);
    SumPrefixStep(LotSizes, n);
  }

  /** The sum of a prefix one longer adds the next element. */
  lemma SumPrefixStep(s: seq<nat>, n: nat)
    requires n < |s|
    ensures Sum(s[..n + 1]) == Sum(s[..n]) + s[n]
  {
    assert s[..n + 1][..n] == s[..n];
  }

  /** The picks after `remaining` all belong to lot `n`, and every pick to one of the first `n + 1` lots. */
  lemma SegmentOfLot(remaining: seq<CardRef>, grown: seq<CardRef>, n: nat)
    requires |remaining| <= |grown| && grown[..|remaining|] == remaining
    requires forall i :: 0 <= i < |remaining| ==> remaining[i].lotIndex < n && remaining[i].cardIndex < TotalCards
    requires forall k :: |remaining| <= k < |grown| ==> grown[k].lotIndex == n && grown[k].cardIndex < TotalCards
    ensures forall i :: 0 <= i < |grown| - |remaining| ==> grown[|remaining|..][i].lotIndex == n
    ensures forall i :: 0 <= i < |grown| ==> grown[i].lotIndex < n + 1 && grown[i].cardIndex < TotalCards
  {
    forall i | 0 <= i < |grown|
      ensures grown[i].lotIndex < n + 1 && grown[i].cardIndex < TotalCards
    {
      if i < |remaining| {
        assert grown[i] == remaining[i];
      }
    }
  }

  /** Lot `n`'s totals, appended, keep every lot's totals summing to its size. */
  lemma LotSumsStep(lotsTotals: seq<seq<nat>>, totals: seq<nat>, n: nat)
    requires |lotsTotals| == n < NumLots
    requires forall k :: 0 <= k < n ==> |lotsTotals[k]| == TotalCards && Sum(lotsTotals[k]) == LotSizes[k]
    requires |totals| == TotalCards && Sum(totals) == LotSizes[n]
    ensures forall k :: 0 <= k < n + 1 ==>
      |(lotsTotals + [totals])[k]| == TotalCards && Sum((lotsTotals + [totals])[k]) == LotSizes[k]
  {
    var t := lotsTotals + [totals];
    forall k | 0 <= k < n + 1
      ensures |t[k]| == TotalCards && Sum(t[k]) == LotSizes[k]
    {
      if k < n {
        assert t[k] == lotsTotals[k];
      } else {
        assert t[k] == totals;
      }
    }
  }

  /** The counts of the first `n` lots survive lot `n`'s picks, and lot `n`'s are its totals. */
  lemma LotCountsStep(remaining: seq<CardRef>, lotsTotals: seq<seq<nat>>, n: nat, seg: seq<CardRef>,
                      grown: seq<CardRef>, totals: seq<nat>)
    requires grown == remaining + seg
    requires |lotsTotals| == n && forall k :: 0 <= k < n ==> |lotsTotals[k]| == TotalCards
    requires forall i :: 0 <= i < |remaining| ==> remaining[i].lotIndex < n
    requires forall k, c :: 0 <= k < n && 0 <= c < TotalCards ==> lotsTotals[k][c] == multiset(remaining)[CardRef(k, c)]
    requires forall i :: 0 <= i < |seg| ==> seg[i].lotIndex == n
    requires |totals| == TotalCards && forall c :: 0 <= c < TotalCards ==> totals[c] == CountOf(seg, n, c)
    ensures forall k, c :: 0 <= k < n + 1 && 0 <= c < TotalCards ==>
      (lotsTotals + [totals])[k][c] == multiset(grown)[CardRef(k, c)]
  {
    var t := lotsTotals + [totals];
    forall k, c | 0 <= k < n + 1 && 0 <= c < TotalCards
      ensures t[k][c] == multiset(grown)[CardRef(k, c)]
    {
      if k < n {
        OtherLotAbsent(seg, n, k, c);
      } else {
        assert CardRef(n, c) !in remaining;
      }
    }
  }

  /**
   * The rare lot and then lots 1..3 with fresh odds each: `remaining` and
   * `lotsTotals`, where the totals of every lot count its cards in
   * `remaining` exactly.
   */
  method FillLots(rand: Prng.Sfc32) returns (remaining: seq<CardRef>, lotsTotals: seq<seq<nat>>)
    requires rand.Valid()
    modifies rand
    ensures rand.Valid()
    ensures LotsCounted(remaining, lotsTotals, NumLots)
  {
    var rareTotals;
    remaining, rareTotals := FillRareLot();
    lotsTotals := [rareTotals];
    assert LotSizes[..1] == [LotSizes[0]];
    for lotIndex := 1 to NumLots
      invariant LotsCounted(remaining, lotsTotals, lotIndex)
      invariant rand.Valid()
    {
      var odds, cumulativeOdds, total := AssignOdds(rand);
      var grown, totals := FillLot(rand, lotIndex, LotSizes[lotIndex], cumulativeOdds, total, remaining);
      LotsCountedStep(remaining, lotsTotals, lotIndex, grown, totals);
      remaining, lotsTotals := grown, lotsTotals + [totals];
    }
  }

  /** All lots together make 125 580 cards. */
  lemma LotsCountedSize(remaining: seq<CardRef>, lotsTotals: seq<seq<nat>>)
    requires LotsCounted(remaining, lotsTotals, NumLots)
    ensures |remaining| == 125580
  {
    var l := LotSizes;
    assert l[..NumLots] == l;
    assert l[..3][..2][..1][..0] == [];
    assert Sum(l[..3][..2][..1]) == 780;
    assert Sum(l[..3][..2]) == 780 + 7800;
    assert Sum(l[..3]) == 780 + 7800 + 39000;
  }

  /** Counting token ids counts cards, because the encoding is injective on the catalogue. */
  lemma {:induction false} TokenIdCount(s: seq<CardRef>, r: CardRef)
    requires forall i :: 0 <= i < |s| ==> s[i].cardIndex < TotalCards
    requires r.cardIndex < TotalCards
    ensures multiset(TokenIds(s))[TokenId(r)] == multiset(s)[r]
  {
    if s != [] {
      var s' := s[..|s| - 1];
      var x := s[|s| - 1];
      assert s == s' + [x];
      assert TokenIds(s) == TokenIds(s') + [TokenId(x)];
      TokenIdCount(s', r);
      if TokenId(x) == TokenId(r) {
        TokenIdInjective(x, r);
      }
    }
  }

  /**
   * After pack generation, every card of `remaining` is in a pack or left
   * over: the packs holding a token plus its left-over copies are the lot
   * total the mint loop compares against.
   */
  lemma PackCountPlusLeft(packs: seq<CardPack>, left: seq<CardRef>, remaining: seq<CardRef>, r: CardRef)
    requires forall k :: 0 <= k < |packs| ==> WellFormedPack(packs[k])
    requires multiset(Flatten(packs)) + multiset(TokenIds(left)) == multiset(TokenIds(remaining))
    requires multiset(left) <= multiset(remaining)
    requires forall i :: 0 <= i < |remaining| ==> remaining[i].cardIndex < TotalCards
    requires r.cardIndex < TotalCards
    ensures PackCount(packs, TokenId(r)) + multiset(left)[r] == multiset(remaining)[r]
  {
    forall i | 0 <= i < |left|
      ensures left[i].cardIndex < TotalCards
    {
      assert left[i] in multiset(remaining);
    }
    PackCountFlatten(packs, TokenId(r));
    TokenIdCount(left, r);
    TokenIdCount(remaining, r);
  }

  /**
   * Generated packs pass the mint check exactly when every lot has a CID
   * and no card of a lot still to be minted was left out of the packs.
   */
  lemma MintPassesIffAllPacked(startId: nat, lots: seq<CardLot>, run: PackRun, remaining: seq<CardRef>,
                               lotsTotals: seq<seq<nat>>)
    requires |lots| == NumLots && LotsCounted(remaining, lotsTotals, NumLots)
    requires forall k :: 0 <= k < |run.packs| ==> WellFormedPack(run.packs[k])
    requires multiset(Flatten(run.packs)) + multiset(TokenIds(run.left)) == multiset(TokenIds(remaining))
    requires multiset(run.left) <= multiset(remaining)
    ensures MintChecksPass(startId, lots, run.packs, lotsTotals) <==>
      (forall k :: 0 <= k < |lots| ==> lots[k].cid != "") &&
      forall i :: 0 <= i < |run.left| ==> LotSkipped(startId, run.left[i].lotIndex)
  {
    forall i | 0 <= i < |run.left|
      ensures run.left[i].lotIndex < NumLots && run.left[i].cardIndex < TotalCards
    {
      assert run.left[i] in multiset(remaining);
    }
    forall k, c | 0 <= k < NumLots && 0 <= c < TotalCards
      ensures PackCount(run.packs, k * TotalCards + c) == lotsTotals[k][c] <==> CardRef(k, c) !in run.left
    {
      PackCountPlusLeft(run.packs, run.left, remaining, CardRef(k, c));
    }
    PassesIffLeftSkipped(startId, lots, run.packs, run.left, lotsTotals);
  }

  /** When a token's count matches exactly if no copy of it is left over, the check passes iff every leftover is skipped. */
  lemma PassesIffLeftSkipped(startId: nat, lots: seq<CardLot>, packs: seq<CardPack>, left: seq<CardRef>,
                             lotsTotals: seq<seq<nat>>)
    requires |lots| == NumLots && |lotsTotals| == NumLots
    requires forall k :: 0 <= k < NumLots ==> |lotsTotals[k]| == TotalCards
    requires forall i :: 0 <= i < |left| ==> left[i].lotIndex < NumLots && left[i].cardIndex < TotalCards
    requires forall k, c :: 0 <= k < NumLots && 0 <= c < TotalCards ==>
      (PackCount(packs, k * TotalCards + c) == lotsTotals[k][c] <==> CardRef(k, c) !in left)
    ensures MintChecksPass(startId, lots, packs, lotsTotals) <==>
      (forall k :: 0 <= k < |lots| ==> lots[k].cid != "") &&
      forall i :: 0 <= i < |left| ==> LotSkipped(startId, left[i].lotIndex)
  {
    if forall i :: 0 <= i < |left| ==> LotSkipped(startId, left[i].lotIndex) {
      forall k | 0 <= k < |lots| && !LotSkipped(startId, k)
        ensures LotCountsMatch(packs, lotsTotals, k, TotalCards)
      {
        forall c | 0 <= c < TotalCards
          ensures PackCount(packs, k * TotalCards + c) == lotsTotals[k][c]
        {
          forall i | 0 <= i < |left|
            ensures left[i] != CardRef(k, c)
          {
            assert LotSkipped(startId, left[i].lotIndex);
          }
        }
      }
    }
    if MintChecksPass(startId, lots, packs, lotsTotals) {
      forall i | 0 <= i < |left|
        ensures LotSkipped(startId, left[i].lotIndex)
      {
        var r := left[i];
        assert r == CardRef(r.lotIndex, r.cardIndex) && r in left;
        var tokenId: nat, expected := r.lotIndex * TotalCards + r.cardIndex, lotsTotals[r.lotIndex][r.cardIndex];
        assert LotCountsMatch(packs, lotsTotals, r.lotIndex, TotalCards) ==> PackCount(packs, tokenId) == expected;
      }
    }
  }

  /**
   * What `mintSet` works out: the lots with their CIDs, the lot totals,
   * the packs generated now (when the pack collection was empty), the
   * packs the mint check counts, the batches sent, and the error thrown if
   * any.
   */
  datatype MintPlan = MintPlan(lots: seq<CardLot>, lotsTotals: seq<seq<nat>>, generated: Option<PackRun>,
                               packs: seq<CardPack>, batches: seq<seq<MintCall>>, error: Option<MintError>)

  /**
   * `mintSet(set, minting)` with the uploads, the database and the chain
   * cut away: `cids` are the directory CIDs the lot uploads return,
   * `stored` is the pack collection as found, `startId` the contract's
   * `all_tokens`. `fuel` bounds the redraws of lot names and of duplicate
   * pack cards; `None` means it ran out. The lot names are `LotsDrawn` on
   * the generator seeded from the set name, so they are a function of the
   * set name.
   */
  method MintSet(setName: seq<bv16>, cids: seq<string>, stored: seq<CardPack>, startId: nat, fuel: nat)
    returns (plan: Option<MintPlan>)
    requires |cids| == NumLots
    ensures LotsDrawn(NameStream(SetSeed(setName)), 0, [], fuel).None? ==> plan.None?
    ensures plan.Some? ==>
      var g := LotsDrawn(NameStream(SetSeed(setName)), 0, [], fuel);
      g.Some? && |g.value.lots| == NumLots && plan.value.lots == WithCids(g.value.lots, cids)
    ensures plan.Some? ==> |plan.value.lots| == NumLots && DistinctNames(plan.value.lots)
    ensures plan.Some? ==> forall k :: 0 <= k < NumLots ==>
      IsLotName(plan.value.lots[k].name) && plan.value.lots[k].cid == cids[k]
    ensures plan.Some? ==> exists remaining :: LotsCounted(remaining, plan.value.lotsTotals, NumLots)
    ensures plan.Some? ==> (plan.value.generated.Some? <==> stored == [])
    ensures plan.Some? && stored != [] ==> plan.value.packs == stored
    ensures plan.Some? && stored == [] ==>
      var run := plan.value.generated.value;
      plan.value.packs == run.packs && |run.left| < NumCardsPerPack &&
      (forall k :: 0 <= k < |run.packs| ==> WellFormedPack(run.packs[k])) &&
      (plan.value.error.None? <==>
        (forall k :: 0 <= k < NumLots ==> cids[k] != "") &&
        forall i :: 0 <= i < |run.left| ==> LotSkipped(startId, run.left[i].lotIndex))
    ensures plan.Some? ==> (plan.value.error.None? <==>
      MintChecksPass(startId, plan.value.lots, plan.value.packs, plan.value.lotsTotals))
    ensures plan.Some? ==>
      BatchesFrom(plan.value.batches, FirstMintedLot(startId), plan.value.lots, Catalogue(), plan.value.packs,
                  plan.value.lotsTotals)
  {
    var cards := AllCards();
    var rand := SetRandom(setName);
    var names := GenerateLots(rand, fuel);
    if names.None? {
      return None;
    }
    var lots := WithCids(names.value, cids);

    var remaining, lotsTotals := FillLots(rand);

    var generated, packs := PlanPacks(rand, startId, lots, remaining, lotsTotals, stored, fuel);
    if stored == [] && generated.None? {
      return None;
    }

    var batches, error := MintBatches(startId, lots, cards, packs, lotsTotals);
    plan := Some(MintPlan(lots, lotsTotals, generated, packs, batches, error));
  }

  /** The four words `sfc32` is seeded with: four calls of the closure of `xmur3(set)`. */
  function SetSeed(setName: seq<bv16>): Prng.Sfc32State
  {
    var a := Prng.Avalanche(Prng.SeedState(setName));
    var b := Prng.Avalanche(a);
    var c := Prng.Avalanche(b);
    Prng.Sfc32State(a, b, c, Prng.Avalanche(c))
  }

  /** Those are the first four values of the seed stream of the set name. */
  lemma SetSeedStream(setName: seq<bv16>)
    ensures var w := Prng.Xmur3Stream(setName, 4); SetSeed(setName) == Prng.Sfc32State(w[0], w[1], w[2], w[3])
  {
    var h := Prng.SeedState(setName);
    Prng.Xmur3StreamAt(setName, 4, 0);
    Prng.Xmur3StreamAt(setName, 4, 1);
    Prng.Xmur3StreamAt(setName, 4, 2);
    Prng.Xmur3StreamAt(setName, 4, 3);
    assert Prng.Iterate(h, 4) == Prng.Avalanche(Prng.Iterate(h, 3));
    assert Prng.Iterate(h, 3) == Prng.Avalanche(Prng.Iterate(h, 2));
    assert Prng.Iterate(h, 2) == Prng.Avalanche(Prng.Iterate(h, 1));
    assert Prng.Iterate(h, 1) == Prng.Avalanche(h);
  }

  /** The generator `mintSet` draws from: `sfc32` seeded with four values of `xmur3(set)`. */
  method SetRandom(setName: seq<bv16>) returns (rand: Prng.Sfc32)
    ensures fresh(rand) && rand.Valid()
    ensures rand.seed == SetSeed(setName) && rand.produced == []
  {
    var seed := new Prng.Xmur3(setName);
    var a := seed.Next();
    var b := seed.Next();
    var c := seed.Next();
    var d := seed.Next();
    rand := new Prng.Sfc32(a, b, c, d);
  }

  /** The lots with the directory CID of each lot's upload. */
  function WithCids(names: seq<CardLot>, cids: seq<string>): (r: seq<CardLot>)
    requires |names| == NumLots && |cids| == NumLots
    ensures |r| == NumLots
    ensures forall k :: 0 <= k < NumLots ==> r[k].name == names[k].name && r[k].cid == cids[k]
    ensures DistinctNames(names) ==> DistinctNames(r)
  {
    seq(NumLots, k requires 0 <= k < NumLots => CardLot(names[k].name, cids[k]))
  }

  /**
   * The packs `mintSet` checks and mints: the stored ones, or, when the
   * pack collection is empty, packs generated now from the remaining
   * cards (`None` when the redraws ran out of fuel).
   */
  method PlanPacks(rand: Prng.Sfc32, startId: nat, lots: seq<CardLot>, remaining: seq<CardRef>,
                   lotsTotals: seq<seq<nat>>, stored: seq<CardPack>, fuel: nat)
    returns (generated: Option<PackRun>, packs: seq<CardPack>)
    requires rand.Valid()
    requires |lots| == NumLots && LotsCounted(remaining, lotsTotals, NumLots)
    modifies rand
    ensures rand.Valid()
    ensures stored != [] ==> generated.None? && packs == stored
    ensures stored == [] && generated.Some? ==>
      var run := generated.value;
      packs == run.packs && |run.left| < NumCardsPerPack &&
      (forall k :: 0 <= k < |run.packs| ==> WellFormedPack(run.packs[k])) &&
      (MintChecksPass(startId, lots, packs, lotsTotals) <==>
        (forall k :: 0 <= k < NumLots ==> lots[k].cid != "") &&
        forall i :: 0 <= i < |run.left| ==> LotSkipped(startId, run.left[i].lotIndex))
  {
    generated, packs := None, stored;
    if stored == [] {
      generated := GeneratePacks(rand, remaining, fuel);
      if generated.Some? {
        packs := generated.value.packs;
        MintPassesIffAllPacked(startId, lots, generated.value, remaining, lotsTotals);
      }
    }
  }
}
