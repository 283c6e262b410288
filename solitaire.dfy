/**
 * Solitaire (src/games/solitaire.ts): one player; on a fresh table the
 * player's shuffled deck goes into the draw pile and is dealt into seven
 * piles, pile `i` taking the next `i + 1` cards with its first card
 * flipped and revealed. Dealing uses the front 28 cards, fewer when the
 * deck is short.
 */
module Solitaire {
  import opened Wrappers
  import opened Decks
  import opened Store
  import opened CardTable
  import opened CardGame

  const RequiredPlayers: nat := 1
  const NumPiles: nat := 7
  const Welcome: string := "Welcome to Solitaire!"

  /** How many cards the first `i` piles take: 0, 1, 3, 6, … */
  function Triangle(i: nat): nat
  {
    if i == 0 then 0 else Triangle(i - 1) + i
  }

  /** The closed form of `Triangle`. */
  lemma {:induction false} TriangleClosedForm(i: nat)
    ensures 2 * Triangle(i) == i * (i + 1)
  {
    if i > 0 {
      TriangleClosedForm(i - 1);
    }
  }

  /** A full deal uses 28 cards. */
  lemma DealSize()
    ensures Triangle(NumPiles) == 28
  {
  }

  function Clip(n: nat, len: nat): nat
  {
    if n <= len then n else len
  }

  /** The draw pile once the first `i` piles are dealt from `d`: pile `j` takes up to `j + 1` cards. */
  function Remaining(d: seq<GameCard>, i: nat): seq<GameCard>
  {
    if i == 0 then d
    else
      var r := Remaining(d, i - 1);
      r[Clip(i, |r|)..]
  }

  /** The cards pile `i` receives: the front `i + 1` cards left, or all of them when fewer remain. */
  function Pile(d: seq<GameCard>, i: nat): seq<GameCard>
  {
    var r := Remaining(d, i);
    r[..Clip(i + 1, |r|)]
  }

  /** Pile `i`'s cards by position in the deck: from `Triangle(i)` up to `Triangle(i + 1)`, clipped. */
  function PileCards(d: seq<GameCard>, i: nat): seq<GameCard>
  {
    d[Clip(Triangle(i), |d|)..Clip(Triangle(i + 1), |d|)]
  }

  /** After `i` piles the draw pile starts at position `Triangle(i)`. */
  lemma {:induction false} RemainingSuffix(d: seq<GameCard>, i: nat)
    ensures Remaining(d, i) == d[Clip(Triangle(i), |d|)..]
  {
    if i > 0 {
      RemainingSuffix(d, i - 1);
      var a := Clip(Triangle(i - 1), |d|);
      assert d[a..][Clip(i, |d| - a)..] == d[a + Clip(i, |d| - a)..];
    }
  }

  /** Each pile is the slice of the deck the closed form names. */
  lemma PilePositions(d: seq<GameCard>, i: nat)
    ensures Pile(d, i) == PileCards(d, i)
  {
    RemainingSuffix(d, i);
    var a := Clip(Triangle(i), |d|);
    assert d[a..][..Clip(i + 1, |d| - a)] == d[a..a + Clip(i + 1, |d| - a)];
  }

  /** What the first `n` piles receive, in dealing order. */
  function Dealt(d: seq<GameCard>, n: nat): seq<GameCard>
  {
    if n == 0 then [] else Dealt(d, n - 1) + Pile(d, n - 1)
  }

  /**
   * No card is lost or duplicated: the piles, one after the other, then
   * what is left in the draw pile, are the deck in its original order.
   */
  lemma {:induction false} DealConserves(d: seq<GameCard>, n: nat)
    ensures Dealt(d, n) + Remaining(d, n) == d
  {
    if n > 0 {
      DealConserves(d, n - 1);
      DealStepConserves(d, n);
    }
  }

  /** Pile `n - 1` and the draw pile after it split the draw pile before it. */
  lemma DealStepConserves(d: seq<GameCard>, n: nat)
    requires n > 0 && Dealt(d, n - 1) + Remaining(d, n - 1) == d
    ensures Dealt(d, n) + Remaining(d, n) == d
  {
    var r := Remaining(d, n - 1);
    var c := Clip(n, |r|);
    assert Pile(d, n - 1) == r[..c] && Remaining(d, n) == r[c..];
    SplitJoin(Dealt(d, n - 1), r, c, d);
  }

  /** Splitting the tail of `a + r` at `c` and joining the front to `a` keeps the sequence. */
  lemma SplitJoin<T>(a: seq<T>, r: seq<T>, c: nat, d: seq<T>)
    requires c <= |r| && a + r == d
    ensures (a + r[..c]) + r[c..] == d
  {
    assert r[..c] + r[c..] == r;
  }

  /** With a full deck, pile `i` gets exactly `i + 1` cards, its first being card `Triangle(i)`. */
  lemma PileSize(d: seq<GameCard>, i: nat)
    requires i < NumPiles && 28 <= |d|
    ensures |Pile(d, i)| == i + 1 && Triangle(i) < |d|
    ensures Pile(d, i)[0] == d[Triangle(i)]
  {
    TriangleMonotone(i + 1, NumPiles);
    PilePositions(d, i);
  }

  lemma {:induction false} TriangleMonotone(i: nat, j: nat)
    requires i <= j
    ensures Triangle(i) <= Triangle(j)
    decreases j
  {
    if i < j {
      TriangleMonotone(i, j - 1);
    }
  }

  /** The reveals of the first `n` piles: one per pile that received a card, showing its first card. */
  function Reveals(tableId: string, d: seq<GameCard>, n: nat): seq<Publication>
  {
    if n == 0 then []
    else
      var p := Pile(d, n - 1);
      Reveals(tableId, d, n - 1) + (if p != [] then [RevealOne(tableId, p[0])] else [])
  }

  /** The flips pile `i` records for card `id`: one when its first card is `id`. */
  function TopFlip(d: seq<GameCard>, i: nat, id: nat): nat
  {
    var p := Pile(d, i);
    if p != [] && p[0].id == id then 1 else 0
  }

  /** With a full deck every pile reveals its first card, card `Triangle(i)` of the deck. */
  lemma {:induction false} RevealsFull(tableId: string, d: seq<GameCard>, n: nat)
    requires n <= NumPiles && 28 <= |d|
    ensures |Reveals(tableId, d, n)| == n
    ensures forall i :: 0 <= i < n ==> Triangle(i) < |d| && Reveals(tableId, d, n)[i] == RevealOne(tableId, d[Triangle(i)])
  {
    if n > 0 {
      RevealsFull(tableId, d, n - 1);
      PileSize(d, n - 1);
      TriangleMonotone(n - 1, NumPiles);
    }
  }

  /** All keys distinct. */
  predicate PileKeys(draw: string, piles: seq<string>)
  {
    |piles| == NumPiles && draw !in piles &&
    forall i, j :: 0 <= i < j < |piles| ==> piles[i] != piles[j]
  }

  /** The position of `k` among the piles, `|piles|` when it is none of them. */
  function IndexOf(piles: seq<string>, k: string): (r: nat)
    ensures r <= |piles|
    ensures r < |piles| ==> piles[r] == k
    ensures k in piles ==> r < |piles|
  {
    if piles == [] then 0 else if piles[0] == k then 0 else 1 + IndexOf(piles[1..], k)
  }

  lemma IndexOfPile(draw: string, piles: seq<string>, j: nat)
    requires PileKeys(draw, piles) && j < |piles|
    ensures IndexOf(piles, piles[j]) == j
  {
  }

  /** Deck `k` after one `drawCards(count, pile)`: the front `count` cards of `draw` move to `pile`. */
  function DeckAfterDraw(dk: map<string, seq<GameCard>>, draw: string, pile: string, count: nat, k: string): seq<GameCard>
  {
    var src := DeckIn(dk, draw);
    var n := Clip(count, |src|);
    if k == draw then src[n..] else if k == pile then DeckIn(dk, pile) + src[..n] else DeckIn(dk, k)
  }

  /** Flips of `id` in deck `k` after the callback: the first card drawn from `src`, if any, is flipped once in `pile`. */
  function FlipsAfterDraw(fl: map<string, map<nat, nat>>, src: seq<GameCard>, pile: string, count: nat, k: string, id: nat): nat
  {
    var n := Clip(count, |src|);
    FlipsIn(fl, k, id) + (if k == pile && n > 0 && src[0].id == id then 1 else 0)
  }

  /** The callback's reveal: the first card drawn, if any, is shown to the table. */
  function RevealAfterDraw(src: seq<GameCard>, tableId: string, count: nat): seq<Publication>
  {
    if Clip(count, |src|) > 0 then [RevealOne(tableId, src[0])] else []
  }

  /** What pile `j` has received once the first `i` piles are dealt. */
  function Received(d: seq<GameCard>, j: nat, i: nat): seq<GameCard>
  {
    if j < i then Pile(d, j) else []
  }

  /** The flips of card `id` pile `j` has recorded once the first `i` piles are dealt. */
  function Flipped(d: seq<GameCard>, j: nat, i: nat, id: nat): nat
  {
    if j < i then TopFlip(d, j, id) else 0
  }

  /** Deck `k` once the first `i` piles are dealt from `d`, starting from `dk0`. */
  function DeckDealt(dk0: map<string, seq<GameCard>>, draw: string, piles: seq<string>, d: seq<GameCard>, i: nat, k: string): seq<GameCard>
  {
    if k == draw then Remaining(d, i) else DeckIn(dk0, k) + Received(d, IndexOf(piles, k), i)
  }

  /** Flips of `id` in deck `k` once the first `i` piles are dealt from `d`, starting from `fl0`. */
  function FlipsDealt(fl0: map<string, map<nat, nat>>, piles: seq<string>, d: seq<GameCard>, i: nat, k: string, id: nat): nat
  {
    FlipsIn(fl0, k, id) + Flipped(d, IndexOf(piles, k), i, id)
  }

  /** Dealing pile `i` takes deck `k` from its state after `i` piles to its state after `i + 1`. */
  lemma DeckDealtStep(dk0: map<string, seq<GameCard>>, dk: map<string, seq<GameCard>>,
                      draw: string, piles: seq<string>, d: seq<GameCard>, i: nat, k: string)
    requires PileKeys(draw, piles) && i < NumPiles
    requires DeckIn(dk, draw) == Remaining(d, i)
    requires DeckIn(dk, k) == DeckDealt(dk0, draw, piles, d, i, k)
    ensures DeckAfterDraw(dk, draw, piles[i], i + 1, k) == DeckDealt(dk0, draw, piles, d, i + 1, k)
  {
    IndexOfPile(draw, piles, i);
    if k != draw && k == piles[i] {
      assert DeckIn(dk, k) == DeckIn(dk0, k) + [];
    }
  }

  /** Dealing pile `i` takes the flips of deck `k` from their state after `i` piles to their state after `i + 1`. */
  lemma FlipsDealtStep(fl0: map<string, map<nat, nat>>, fl: map<string, map<nat, nat>>,
                       draw: string, piles: seq<string>, d: seq<GameCard>, i: nat, k: string, id: nat)
    requires PileKeys(draw, piles) && i < NumPiles
    requires FlipsIn(fl, k, id) == FlipsDealt(fl0, piles, d, i, k, id)
    ensures FlipsAfterDraw(fl, Remaining(d, i), piles[i], i + 1, k, id) == FlipsDealt(fl0, piles, d, i + 1, k, id)
  {
    IndexOfPile(draw, piles, i);
  }

  /** Dealing pile `i` takes every deck and every flip count from their state after `i` piles to the next. */
  lemma DealStep(dk0: map<string, seq<GameCard>>, dk: map<string, seq<GameCard>>, dk1: map<string, seq<GameCard>>,
                 fl0: map<string, map<nat, nat>>, fl: map<string, map<nat, nat>>, fl1: map<string, map<nat, nat>>,
                 draw: string, piles: seq<string>, d: seq<GameCard>, i: nat)
    requires PileKeys(draw, piles) && i < NumPiles
    requires forall k :: DeckIn(dk, k) == DeckDealt(dk0, draw, piles, d, i, k)
    requires forall k :: DeckIn(dk1, k) == DeckAfterDraw(dk, draw, piles[i], i + 1, k)
    requires forall k, id :: FlipsIn(fl, k, id) == FlipsDealt(fl0, piles, d, i, k, id)
    requires forall k, id :: FlipsIn(fl1, k, id) == FlipsAfterDraw(fl, Remaining(d, i), piles[i], i + 1, k, id)
    ensures forall k :: DeckIn(dk1, k) == DeckDealt(dk0, draw, piles, d, i + 1, k)
    ensures forall k, id :: FlipsIn(fl1, k, id) == FlipsDealt(fl0, piles, d, i + 1, k, id)
  {
    assert DeckIn(dk, draw) == Remaining(d, i) by {
      assert DeckIn(dk, draw) == DeckDealt(dk0, draw, piles, d, i, draw);
    }
    forall k ensures DeckIn(dk1, k) == DeckDealt(dk0, draw, piles, d, i + 1, k) {
      DeckDealtStep(dk0, dk, draw, piles, d, i, k);
    }
    forall k, id ensures FlipsIn(fl1, k, id) == FlipsDealt(fl0, piles, d, i + 1, k, id) {
      FlipsDealtStep(fl0, fl, draw, piles, d, i, k, id);
    }
  }

  /** Dealing pile `i` adds its reveal, if any, to those of the first `i` piles. */
  lemma RevealsStep(pub0: seq<Publication>, pub: seq<Publication>, tableId: string, d: seq<GameCard>, i: nat)
    requires pub == pub0 + Reveals(tableId, d, i)
    ensures pub + RevealAfterDraw(Remaining(d, i), tableId, i + 1) == pub0 + Reveals(tableId, d, i + 1)
  {
  }

  /** The decks after the whole deal, pile by pile. */
  lemma DealtDecks(dk0: map<string, seq<GameCard>>, dk: map<string, seq<GameCard>>,
                   draw: string, piles: seq<string>, d: seq<GameCard>)
    requires PileKeys(draw, piles)
    requires forall k :: DeckIn(dk, k) == DeckDealt(dk0, draw, piles, d, NumPiles, k)
    ensures DeckIn(dk, draw) == Remaining(d, NumPiles)
    ensures forall i :: 0 <= i < NumPiles ==> DeckIn(dk, piles[i]) == DeckIn(dk0, piles[i]) + Pile(d, i)
    ensures forall k :: k != draw && k !in piles ==> DeckIn(dk, k) == DeckIn(dk0, k)
  {
    forall i | 0 <= i < NumPiles
      ensures DeckIn(dk, piles[i]) == DeckIn(dk0, piles[i]) + Pile(d, i)
    {
      IndexOfPile(draw, piles, i);
      assert DeckIn(dk, piles[i]) == DeckDealt(dk0, draw, piles, d, NumPiles, piles[i]);
    }
    forall k | k != draw && k !in piles
      ensures DeckIn(dk, k) == DeckIn(dk0, k)
    {
      assert DeckIn(dk, k) == DeckDealt(dk0, draw, piles, d, NumPiles, k);
      assert DeckIn(dk0, k) + [] == DeckIn(dk0, k);
    }
  }

  /** The flips after the whole deal, pile by pile. */
  lemma DealtFlips(fl0: map<string, map<nat, nat>>, fl: map<string, map<nat, nat>>,
                   draw: string, piles: seq<string>, d: seq<GameCard>)
    requires PileKeys(draw, piles)
    requires forall k, id :: FlipsIn(fl, k, id) == FlipsDealt(fl0, piles, d, NumPiles, k, id)
    ensures forall i, id :: 0 <= i < NumPiles ==> FlipsIn(fl, piles[i], id) == FlipsIn(fl0, piles[i], id) + TopFlip(d, i, id)
    ensures forall k, id :: k !in piles ==> FlipsIn(fl, k, id) == FlipsIn(fl0, k, id)
  {
    forall i, id | 0 <= i < NumPiles
      ensures FlipsIn(fl, piles[i], id) == FlipsIn(fl0, piles[i], id) + TopFlip(d, i, id)
    {
      IndexOfPile(draw, piles, i);
      assert FlipsIn(fl, piles[i], id) == FlipsDealt(fl0, piles, d, NumPiles, piles[i], id);
    }
    forall k, id | k !in piles
      ensures FlipsIn(fl, k, id) == FlipsIn(fl0, k, id)
    {
      assert FlipsIn(fl, k, id) == FlipsDealt(fl0, piles, d, NumPiles, k, id);
    }
  }

  /** One `drawCards(count, pile)` and its callback. */
  method DealPile(decks: DeckStore, db: Redis, tableId: string, draw: string, pile: string, count: nat)
    requires draw != pile
    modifies decks, db
    ensures forall k :: DeckIn(decks.decks, k) == DeckAfterDraw(old(decks.decks), draw, pile, count, k)
    ensures forall k, id :: FlipsIn(decks.flips, k, id) == FlipsAfterDraw(old(decks.flips), old(decks.Deck(draw)), pile, count, k, id)
    ensures db.published == old(db.published) + RevealAfterDraw(old(decks.Deck(draw)), tableId, count)
    ensures decks.registry == old(decks.registry) && decks.owned == old(decks.owned)
    ensures db.counters == old(db.counters) && db.sets == old(db.sets) && db.hashes == old(db.hashes)
    ensures db.zsets == old(db.zsets) && db.lists == old(db.lists)
  {
    ghost var src := decks.Deck(draw);
    var cards := decks.DrawCards(draw, count, pile);
    forall k
      ensures DeckIn(decks.decks, k) == DeckAfterDraw(old(decks.decks), draw, pile, count, k)
    {
      assert decks.Deck(k) == DeckIn(decks.decks, k);
    }
    if cards == [] {
      assert Clip(count, |src|) == 0 && db.published == old(db.published) + [];
    } else {
      var top := cards[0];
      assert top == src[0] && Clip(count, |src|) > 0;
      decks.FlipIds(pile, [top.id]);
      forall k, id
        ensures FlipsIn(decks.flips, k, id) == FlipsAfterDraw(old(decks.flips), src, pile, count, k, id)
      {
        OccurrencesOne(top.id, id);
        assert decks.Flips(k, id) == FlipsIn(decks.flips, k, id);
      }
      RevealCard(db, tableId, top);
    }
  }

  /** The `forEach` over the seven piles: pile `i` draws `i + 1` cards. */
  method Deal(decks: DeckStore, db: Redis, tableId: string, draw: string, piles: seq<string>)
    requires PileKeys(draw, piles)
    modifies decks, db
    ensures var d := old(decks.Deck(draw));
      decks.Deck(draw) == Remaining(d, NumPiles) &&
      (forall i :: 0 <= i < NumPiles ==> decks.Deck(piles[i]) == old(decks.Deck(piles[i])) + Pile(d, i)) &&
      (forall i, id :: 0 <= i < NumPiles ==> decks.Flips(piles[i], id) == old(decks.Flips(piles[i], id)) + TopFlip(d, i, id)) &&
      db.published == old(db.published) + Reveals(tableId, d, NumPiles)
    ensures forall k :: k != draw && k !in piles ==> decks.Deck(k) == old(decks.Deck(k))
    ensures forall k, id :: k !in piles ==> decks.Flips(k, id) == old(decks.Flips(k, id))
    ensures decks.registry == old(decks.registry) && decks.owned == old(decks.owned)
    ensures db.counters == old(db.counters) && db.sets == old(db.sets) && db.hashes == old(db.hashes)
    ensures db.zsets == old(db.zsets) && db.lists == old(db.lists)
  {
    ghost var d := decks.Deck(draw);
    ghost var dk0, fl0 := decks.decks, decks.flips;
    DealPiles(decks, db, tableId, draw, piles);
    DealtDecks(dk0, decks.decks, draw, piles, d);
    DealtFlips(fl0, decks.flips, draw, piles, d);
  }

  /** The loop of `Deal`, its effect stated pile by pile on the stores' maps. */
  method DealPiles(decks: DeckStore, db: Redis, tableId: string, draw: string, piles: seq<string>)
    requires PileKeys(draw, piles)
    modifies decks, db
    ensures forall k :: DeckIn(decks.decks, k) == DeckDealt(old(decks.decks), draw, piles, old(decks.Deck(draw)), NumPiles, k)
    ensures forall k, id :: FlipsIn(decks.flips, k, id) == FlipsDealt(old(decks.flips), piles, old(decks.Deck(draw)), NumPiles, k, id)
    ensures db.published == old(db.published) + Reveals(tableId, old(decks.Deck(draw)), NumPiles)
    ensures decks.registry == old(decks.registry) && decks.owned == old(decks.owned)
    ensures db.counters == old(db.counters) && db.sets == old(db.sets) && db.hashes == old(db.hashes)
    ensures db.zsets == old(db.zsets) && db.lists == old(db.lists)
  {
    ghost var d := decks.Deck(draw);
    ghost var dk0, fl0, pub0 := decks.decks, decks.flips, db.published;
    assert pub0 + Reveals(tableId, d, 0) == pub0;
    forall k ensures DeckIn(dk0, k) == DeckDealt(dk0, draw, piles, d, 0, k) {
      assert DeckIn(dk0, k) + [] == DeckIn(dk0, k);
    }
    var i := 0;
    while i < NumPiles
      invariant 0 <= i <= NumPiles
      invariant forall k :: DeckIn(decks.decks, k) == DeckDealt(dk0, draw, piles, d, i, k)
      invariant forall k, id :: FlipsIn(decks.flips, k, id) == FlipsDealt(fl0, piles, d, i, k, id)
      invariant db.published == pub0 + Reveals(tableId, d, i)
      invariant decks.registry == old(decks.registry) && decks.owned == old(decks.owned)
      invariant db.counters == old(db.counters) && db.sets == old(db.sets) && db.hashes == old(db.hashes)
      invariant db.zsets == old(db.zsets) && db.lists == old(db.lists)
    {
      ghost var dk, fl, pub := decks.decks, decks.flips, db.published;
      assert DeckIn(dk, draw) == Remaining(d, i);
      DealPile(decks, db, tableId, draw, piles[i], i + 1);
      RevealsStep(pub0, pub, tableId, d, i);
      DealStep(dk0, dk, decks.decks, fl0, fl, decks.flips, draw, piles, d, i);
      i := i + 1;
    }
  }

  /**
   * The `initialSetup` block of `begin`: the shuffled deck is added to the
   * draw pile (the add is not awaited, so a refused add still deals from
   * the unchanged pile) and then dealt.
   */
  method Setup(decks: DeckStore, db: Redis, tableId: string, draw: string, piles: seq<string>, shuffled: seq<GameCard>)
    requires PileKeys(draw, piles)
    modifies decks, db
    ensures var d := Stocked(old(decks.Deck(draw)), shuffled);
      decks.Deck(draw) == Remaining(d, NumPiles) &&
      (forall i :: 0 <= i < NumPiles ==> decks.Deck(piles[i]) == old(decks.Deck(piles[i])) + Pile(d, i)) &&
      (forall i, id :: 0 <= i < NumPiles ==> decks.Flips(piles[i], id) == old(decks.Flips(piles[i], id)) + TopFlip(d, i, id)) &&
      db.published == old(db.published) + Reveals(tableId, d, NumPiles)
    ensures forall k :: k != draw && k !in piles ==> decks.Deck(k) == old(decks.Deck(k))
    ensures forall k, id :: k !in piles ==> decks.Flips(k, id) == old(decks.Flips(k, id))
    ensures decks.registry == old(decks.registry) && decks.owned == old(decks.owned)
    ensures db.counters == old(db.counters) && db.sets == old(db.sets) && db.hashes == old(db.hashes)
    ensures db.zsets == old(db.zsets) && db.lists == old(db.lists)
  {
    var added := decks.Add(draw, shuffled);
    forall i | 0 <= i < NumPiles
      ensures decks.Deck(piles[i]) == old(decks.Deck(piles[i]))
    {
    }
    Deal(decks, db, tableId, draw, piles);
  }

  /** The game: a `CardGame` named "Solitaire" for exactly one player, and its eight decks. */
  class Solitaire {
    const game: CardGame<()>
    const draw: string
    const piles: seq<string>

    /** The game is "Solitaire" for exactly one player, on eight distinct decks. */
    predicate Valid()
    {
      game.name == "Solitaire" && game.minPlayers == RequiredPlayers && game.maxPlayers == RequiredPlayers &&
      PileKeys(draw, piles)
    }

    constructor (tableId: string, draw: string, piles: seq<string>)
      requires PileKeys(draw, piles)
      ensures Valid() && fresh(game) && game.tableId == tableId && game.name == "Solitaire"
      ensures game.minPlayers == RequiredPlayers && game.maxPlayers == RequiredPlayers
      ensures game.players == [] && game.handler == None
      ensures this.draw == draw && this.piles == piles
    {
      game := new CardGame("Solitaire", RequiredPlayers, RequiredPlayers, tableId);
      this.draw := draw;
      this.piles := piles;
    }

    /**
     * `begin(initialSetup)`: if the framework refuses, nothing else
     * happens. Otherwise, on a fresh table the shuffled deck is added
     * to the draw pile and dealt; the welcome line is sent either way.
     */
    method Begin(db: Redis, decks: DeckStore, members: seq<string>, ownedAt: seq<set<string>>,
                 initialSetup: bool, shuffled: seq<GameCard>) returns (ok: bool)
      requires Valid()
      requires |ownedAt| == MaxPolls
      requires Enumerates(members, GetPlayers(db, game.tableId))
      modifies game`players, db, decks
      ensures game.players == members
      ensures ok <==> |members| == RequiredPlayers
      ensures !ok ==> decks.decks == old(decks.decks) && decks.flips == old(decks.flips)
      ensures !ok ==> var t := game.tableId;
        db.ZSet(ChatKey(t)) == LogMsgs(old(db.ZSet(ChatKey(t))), old(db.Counter(MsgCounterKey(t))),
                                       Notices(t, InvalidTexts(members))) &&
        db.published == old(db.published) + Signals(t, |members| + 1)
      ensures ok && initialSetup ==> var d := Stocked(old(decks.Deck(draw)), shuffled);
        decks.Deck(draw) == Remaining(d, NumPiles) &&
        (forall i :: 0 <= i < NumPiles ==> decks.Deck(piles[i]) == old(decks.Deck(piles[i])) + Pile(d, i)) &&
        (forall i, id :: 0 <= i < NumPiles ==> decks.Flips(piles[i], id) == old(decks.Flips(piles[i], id)) + TopFlip(d, i, id))
      ensures ok && !initialSetup ==> decks.decks == old(decks.decks) && decks.flips == old(decks.flips)
      ensures ok ==> var t := game.tableId; var c := old(db.Counter(MsgCounterKey(t)));
        db.ZSet(ChatKey(t)) == ZAdd(old(db.ZSet(ChatKey(t))), c + 1, ChatMsg(t, Welcome, None)) &&
        db.Counter(MsgCounterKey(t)) == c + 1
      ensures ok && initialSetup ==>
        db.published == old(db.published) + [BeginGame(game.tableId, "Solitaire")] +
          Reveals(game.tableId, Stocked(old(decks.Deck(draw)), shuffled), NumPiles) + [Publication(game.tableId, Signal)]
      ensures ok && !initialSetup ==>
        db.published == old(db.published) + [BeginGame(game.tableId, "Solitaire"), Publication(game.tableId, Signal)]
      ensures forall k :: k != draw && k !in piles ==> decks.Deck(k) == old(decks.Deck(k))
      ensures forall k, id :: k !in piles ==> decks.Flips(k, id) == old(decks.Flips(k, id))
      ensures decks.registry == old(decks.registry) && decks.owned == old(decks.owned)
      ensures db.sets == old(db.sets) && db.hashes == old(db.hashes) && db.lists == old(db.lists)
    {
      var polls;
      ok, polls := game.Begin(db, members, ownedAt);
      if !ok {
        return;
      }
      Start(db, decks, game.tableId, draw, piles, initialSetup, shuffled);
    }
  }

  /** What `begin` does once the framework has accepted: the deal on a fresh table, then the welcome line. */
  method Start(db: Redis, decks: DeckStore, tableId: string, draw: string, piles: seq<string>,
               initialSetup: bool, shuffled: seq<GameCard>)
    requires PileKeys(draw, piles)
    modifies db, decks
    ensures initialSetup ==> var d := Stocked(old(decks.Deck(draw)), shuffled);
      decks.Deck(draw) == Remaining(d, NumPiles) &&
      (forall i :: 0 <= i < NumPiles ==> decks.Deck(piles[i]) == old(decks.Deck(piles[i])) + Pile(d, i)) &&
      (forall i, id :: 0 <= i < NumPiles ==> decks.Flips(piles[i], id) == old(decks.Flips(piles[i], id)) + TopFlip(d, i, id))
    ensures !initialSetup ==> decks.decks == old(decks.decks) && decks.flips == old(decks.flips)
    ensures var c := old(db.Counter(MsgCounterKey(tableId)));
      db.ZSet(ChatKey(tableId)) == ZAdd(old(db.ZSet(ChatKey(tableId))), c + 1, ChatMsg(tableId, Welcome, None)) &&
      db.Counter(MsgCounterKey(tableId)) == c + 1
    ensures initialSetup ==>
      db.published == old(db.published) + Reveals(tableId, Stocked(old(decks.Deck(draw)), shuffled), NumPiles) +
        [Publication(tableId, Signal)]
    ensures !initialSetup ==> db.published == old(db.published) + [Publication(tableId, Signal)]
    ensures forall k :: k != draw && k !in piles ==> decks.Deck(k) == old(decks.Deck(k))
    ensures forall k, id :: k !in piles ==> decks.Flips(k, id) == old(decks.Flips(k, id))
    ensures decks.registry == old(decks.registry) && decks.owned == old(decks.owned)
    ensures db.sets == old(db.sets) && db.hashes == old(db.hashes) && db.lists == old(db.lists)
  {
    if initialSetup {
      Setup(decks, db, tableId, draw, piles, shuffled);
    }
    BroadcastMsg(db, tableId, Welcome, None);
  }
}
