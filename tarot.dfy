/**
 * The tarot catalogue of src/tarot.ts: 14 ranks in 4 suits, then the 22
 * major arcana. A card's `value` and every token id are indices into it.
 */
module Tarot {

  const MinorCards: seq<string> := [
    "ace", "two", "three", "four", "five", "six", "seven", "eight", "nine", "ten",
    "page", "knight", "queen", "king"
  ]

  const MinorSuits: seq<string> := ["pentacles", "swords", "wands", "cups"]

  const MajorArcana: seq<string> := [
    "the_fool", "the_magician", "high_priestess", "the_empress", "the_emperor", "the_hierophant",
    "the_lovers", "the_chariot", "strength", "the_hermit", "wheel_of_fortune", "justice",
    "hanged_man", "death", "temperance", "the_devil", "the_tower", "the_star", "the_moon",
    "the_sun", "judgment", "the_world"
  ]

  /** `totalCards`, written out; CatalogueSizes ties it to the three arrays. */
  const TotalCards: nat := 78

  /**
   * `totalMinor`, which the two-player game imports but src/tarot.ts does not
   * export; taken to be the number of minor arcana.
   */
  const TotalMinor: nat := 56

  lemma CatalogueSizes()
    ensures |MinorCards| == 14 && |MinorSuits| == 4 && |MajorArcana| == 22
    ensures TotalMinor == |MinorCards| * |MinorSuits|
    ensures TotalCards == |MinorCards| * |MinorSuits| + |MajorArcana|
  {
  }

  /** `minorArcana(card, suit)`. */
  function MinorArcana(card: string, suit: string): string
  {
    card + "_of_" + suit
  }

  /** The name of minor card `i`: suit `i / 14`, rank `i % 14`. */
  function MinorName(i: nat): string
    requires i < TotalMinor
  {
    MinorArcana(MinorCards[i % 14], MinorSuits[i / 14])
  }

  /** The name at catalogue index `i`: the minors suit by suit, then the majors. */
  function CardName(i: nat): string
    requires i < TotalCards
  {
    if i < TotalMinor then MinorName(i) else MajorArcana[i - TotalMinor]
  }

  lemma MinorIndex(s: nat, c: nat)
    requires s < 4 && c < 14
    ensures s * 14 + c < TotalMinor
    ensures CardName(s * 14 + c) == MinorName(s * 14 + c) == MinorArcana(MinorCards[c], MinorSuits[s])
  {
    var i := s * 14 + c;
    assert i / 14 == s && i % 14 == c;
  }

  /** The whole catalogue in index order. */
  function Catalogue(): (r: seq<string>)
    ensures |r| == TotalCards && forall i :: 0 <= i < TotalCards ==> r[i] == CardName(i)
  {
    seq(TotalCards, i requires 0 <= i < TotalCards => CardName(i))
  }

  /** Each prefix of a sequence is the one before it and one more element. */
  lemma PrefixStep<T>(s: seq<T>, n: nat)
    requires n < |s|
    ensures s[..n + 1] == s[..n] + [s[n]]
  {
  }

  /** `allCards()`: pushes every minor card suit by suit, then every major. */
  method AllCards() returns (results: seq<string>)
    ensures results == Catalogue()
  {
    results := [];
    for s := 0 to 4
      invariant results == Catalogue()[..s * 14]
    {
      for c := 0 to 14
        invariant results == Catalogue()[..s * 14 + c]
      {
        MinorIndex(s, c);
        PrefixStep(Catalogue(), s * 14 + c);
        results := results + [MinorArcana(MinorCards[c], MinorSuits[s])];
      }
    }
    for k := 0 to 22
      invariant results == Catalogue()[..TotalMinor + k]
    {
      PrefixStep(Catalogue(), TotalMinor + k);
      results := results + [MajorArcana[k]];
    }
  }

  /** The catalogue lists rank `c` of suit `s` at `14 * s + c`, and major `k` at `56 + k`. */
  lemma CardNameLayout()
    ensures forall s, c :: 0 <= s < 4 && 0 <= c < 14 ==> CardName(s * 14 + c) == MinorArcana(MinorCards[c], MinorSuits[s])
    ensures forall k :: 0 <= k < 22 ==> CardName(56 + k) == MajorArcana[k]
  {
    forall s, c | 0 <= s < 4 && 0 <= c < 14
      ensures CardName(s * 14 + c) == MinorArcana(MinorCards[c], MinorSuits[s])
    {
      MinorIndex(s, c);
    }
  }
}
