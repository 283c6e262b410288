/**
 * The deck and ownership API that src/cardgame.ts, src/games/solitaire.ts,
 * src/games/browse.ts and src/cardcollector.ts import from "./cards" but
 * that the cards module of this snapshot does not define (`registerCard`
 * with a value, `initDeck`, `drawCards`, `drawCard`, `flipIds`,
 * `numCards`, `addOwned`, `clearOwned`, `hasOwned`). It is specified here
 * by what its callers rely on and no more: a deck is a sequence of cards
 * drawn from the front, `add` appends and refuses cards already present,
 * and flips count per deck and card.
 */
module Decks {
  import opened Wrappers

  /** A card of the newer API: `value` is its catalogue index. */
  datatype GameCard = GameCard(id: nat, value: nat, tokenId: int, ipfsUri: string)

  function CardIds(cards: seq<GameCard>): (r: seq<nat>)
    ensures |r| == |cards| && forall i :: 0 <= i < |cards| ==> r[i] == cards[i].id
  {
    seq(|cards|, i requires 0 <= i < |cards| => cards[i].id)
  }

  /** No card of `cards` is in `deck`: what `add` asserts. */
  predicate Disjoint(deck: seq<GameCard>, cards: seq<GameCard>)
  {
    forall i, j :: 0 <= i < |deck| && 0 <= j < |cards| ==> deck[i] != cards[j]
  }

  /** What a deck holds after `add(cards)`: unchanged when the assertion fails. */
  function Stocked(deck: seq<GameCard>, cards: seq<GameCard>): seq<GameCard>
  {
    if Disjoint(deck, cards) then deck + cards else deck
  }

  /** An empty deck takes every card it is given. */
  lemma StockedEmpty(cards: seq<GameCard>)
    ensures Stocked([], cards) == cards
  {
    assert [] + cards == cards;
  }

  /** The deck stored under `key`; a missing key is an empty deck. */
  function DeckIn(decks: map<string, seq<GameCard>>, key: string): seq<GameCard>
  {
    if key in decks then decks[key] else []
  }

  /** The flips of card `id` recorded for deck `key`. */
  function FlipsIn(flips: map<string, map<nat, nat>>, key: string, id: nat): nat
  {
    if key in flips && id in flips[key] then flips[key][id] else 0
  }

  class DeckStore {
    /** Every card registered so far; a card's id is its position. */
    var registry: seq<GameCard>
    /** Deck key to its cards, front first; a missing key is an empty deck. */
    var decks: map<string, seq<GameCard>>
    /** Deck key to the number of flips of each card id. */
    var flips: map<string, map<nat, nat>>
    /** Wallet to the cards it owns; a missing wallet has no owned set yet. */
    var owned: map<string, seq<GameCard>>

    function Deck(key: string): seq<GameCard>
      reads this`decks
    {
      DeckIn(decks, key)
    }

    function Flips(key: string, id: nat): nat
      reads this`flips
    {
      FlipsIn(flips, key, id)
    }

    /** `hasOwned(wallet)`. */
    function HasOwned(wallet: string): bool
      reads this`owned
    {
      wallet in owned
    }

    /** `numCards()`. */
    function NumCards(key: string): nat
      reads this`decks
    {
      |Deck(key)|
    }

    constructor ()
      ensures registry == [] && decks == map[] && flips == map[] && owned == map[]
    {
      registry, decks, flips, owned := [], map[], map[], map[];
    }

    /** `registerCard(value, token_id, ipfsUri)`: the next id. */
    method RegisterCard(value: nat, tokenId: int, ipfsUri: string) returns (card: GameCard)
      modifies this
      ensures card == GameCard(|old(registry)|, value, tokenId, ipfsUri)
      ensures registry == old(registry) + [card]
      ensures decks == old(decks) && flips == old(flips) && owned == old(owned)
    {
      card := GameCard(|registry|, value, tokenId, ipfsUri);
      registry := registry + [card];
    }

    /** `deck.add(cards)`: appends, or fails (the assertion) when a card is already there. */
    method Add(key: string, cards: seq<GameCard>) returns (ok: bool)
      modifies this
      ensures ok <==> Disjoint(old(Deck(key)), cards)
      ensures ok ==> decks == old(decks)[key := old(Deck(key)) + cards] && Deck(key) == old(Deck(key)) + cards
      ensures !ok ==> decks == old(decks)
      ensures Deck(key) == Stocked(old(Deck(key)), cards)
      ensures forall k :: k != key ==> Deck(k) == old(Deck(k))
      ensures registry == old(registry) && flips == old(flips) && owned == old(owned)
    {
      ok := Disjoint(Deck(key), cards);
      if ok {
        decks := decks[key := Deck(key) + cards];
      }
    }

    /**
     * `deck.drawCards(count, dest)`: up to `count` cards from the front of
     * `key`, moved to the end of `dest` and returned in order; fewer when
     * the deck runs out.
     */
    method DrawCards(key: string, count: nat, dest: string) returns (drawn: seq<GameCard>)
      requires key != dest
      modifies this
      ensures var n := if count <= |old(Deck(key))| then count else |old(Deck(key))|;
        drawn == old(Deck(key))[..n] &&
        decks == old(decks)[key := old(Deck(key))[n..]][dest := old(Deck(dest)) + drawn] &&
        Deck(key) == old(Deck(key))[n..] && Deck(dest) == old(Deck(dest)) + drawn
      ensures forall k :: k != key && k != dest ==> Deck(k) == old(Deck(k))
      ensures registry == old(registry) && flips == old(flips) && owned == old(owned)
    {
      var d := Deck(key);
      var n := if count <= |d| then count else |d|;
      drawn := d[..n];
      var rest := Deck(dest) + drawn;
      decks := decks[key := d[n..]][dest := rest];
    }

    /** `deck.drawCard(dest)`: the front card moved to `dest`, or `None` when empty. */
    method DrawCard(key: string, dest: string) returns (card: Option<GameCard>)
      requires key != dest
      modifies this
      ensures old(Deck(key)) == [] ==> card.None? && decks == old(decks)[key := []][dest := old(Deck(dest))]
      ensures old(Deck(key)) != [] ==>
        card == Some(old(Deck(key))[0]) &&
        decks == old(decks)[key := old(Deck(key))[1..]][dest := old(Deck(dest)) + [card.value]] &&
        Deck(dest) == old(Deck(dest)) + [card.value]
      ensures forall k :: k != key && k != dest ==> Deck(k) == old(Deck(k))
      ensures registry == old(registry) && flips == old(flips) && owned == old(owned)
    {
      var d := Deck(key);
      ghost var e := Deck(dest);
      var drawn := DrawCards(key, 1, dest);
      if d == [] {
        assert d[0..] == [] && drawn == [] && e + drawn == e;
        card := None;
      } else {
        assert drawn == [d[0]];
        card := Some(drawn[0]);
      }
    }

    /** `deck.flipIds(ids)`: one more flip for each id. */
    method FlipIds(key: string, ids: seq<nat>)
      modifies this
      ensures forall id :: Flips(key, id) == old(Flips(key, id)) + Occurrences(ids, id)
      ensures forall k, id :: k != key ==> Flips(k, id) == old(Flips(k, id))
      ensures registry == old(registry) && decks == old(decks) && owned == old(owned)
    {
      var i := 0;
      while i < |ids|
        invariant 0 <= i <= |ids|
        invariant forall id :: Flips(key, id) == old(Flips(key, id)) + Occurrences(ids[..i], id)
        invariant forall k, id :: k != key ==> Flips(k, id) == old(Flips(k, id))
        invariant registry == old(registry) && decks == old(decks) && owned == old(owned)
      {
        var counts := if key in flips then flips[key] else map[];
        var id := ids[i];
        counts := counts[id := Flips(key, id) + 1];
        flips := flips[key := counts];
        assert ids[..i + 1] == ids[..i] + [id];
        i := i + 1;
      }
      assert ids[..|ids|] == ids;
    }

    /** `clearOwned(wallet)`. */
    method ClearOwned(wallet: string)
      modifies this
      ensures owned == old(owned) - {wallet}
      ensures registry == old(registry) && decks == old(decks) && flips == old(flips)
    {
      owned := owned - {wallet};
    }

    /** `addOwned(wallet, cards)`. */
    method AddOwned(wallet: string, cards: seq<GameCard>)
      modifies this
      ensures owned == old(owned)[wallet := (if wallet in old(owned) then old(owned)[wallet] else []) + cards]
      ensures registry == old(registry) && decks == old(decks) && flips == old(flips)
    {
      var mine := if wallet in owned then owned[wallet] else [];
      owned := owned[wallet := mine + cards];
    }
  }

  function Occurrences(ids: seq<nat>, id: nat): nat
  {
    if ids == [] then 0 else Occurrences(ids[..|ids| - 1], id) + (if ids[|ids| - 1] == id then 1 else 0)
  }

  /** Flipping one card counts one flip for it and none for any other. */
  lemma OccurrencesOne(x: nat, id: nat)
    ensures Occurrences([x], id) == if x == id then 1 else 0
  {
    assert [x][..0] == [];
  }

  /** Flip counts add up: flipping `a` then `b` is flipping `a + b`. */
  lemma {:induction false} OccurrencesAppend(a: seq<nat>, b: seq<nat>, id: nat)
    ensures Occurrences(a + b, id) == Occurrences(a, id) + Occurrences(b, id)
    decreases |b|
  {
    if b != [] {
      assert (a + b)[..|a + b| - 1] == a + b[..|b| - 1];
      OccurrencesAppend(a, b[..|b| - 1], id);
    } else {
      assert a + b == a;
    }
  }
}
