/**
 * The in-memory card registry and `CardDeck` of src/cards.ts.
 *
 * `registerCard` appends to a process-global array whose length gives the
 * next id, so the registry is a class whose one field is reassigned.
 * `CardDeck.add` checks disjointness and then discards the result of
 * `concat`, so the deck's `cards` never grows: the model keeps that.
 */
module Cards {
  import opened Wrappers

  /** A registered card (src/cards.ts:5-9). */
  datatype Card = Card(id: nat, tokenId: int, ipfsUri: string)

  /** What a deck's socket.io namespace is told. */
  datatype DeckEvent = AddCards(ids: seq<nat>) | RemoveCards(ids: seq<nat>)

  function Ids(cards: seq<Card>): seq<nat>
  {
    seq(|cards|, i requires 0 <= i < |cards| => cards[i].id)
  }

  /** Every entry's id is its position: ids are 0, 1, 2, ... in registration order. */
  ghost predicate IdsArePositions(cards: seq<Card>)
  {
    forall i :: 0 <= i < |cards| ==> cards[i].id == i
  }

  /** The global `cardRegistry` array. */
  class Registry {
    var cards: seq<Card>

    ghost predicate Valid()
      reads this
    {
      IdsArePositions(cards)
    }

    constructor ()
      ensures Valid() && cards == []
    {
      cards := [];
    }

    /** `registerCard(token_id, ipfsUri)`: the new id is the registry length before the call. */
    method RegisterCard(tokenId: int, ipfsUri: string) returns (card: Card)
      requires Valid()
      modifies this
      ensures Valid()
      ensures card == Card(|old(cards)|, tokenId, ipfsUri)
      ensures cards == old(cards) + [card]
    {
      card := Card(|cards|, tokenId, ipfsUri);
      cards := cards + [card];
    }
  }

  /** The deck key `<wallet>.<name>`; the constructor asserts that the wallet is set. */
  function DeckKey(wallet: string, name: string): (r: Result<string, string>)
    ensures r.Failure? <==> wallet == ""
  {
    if wallet == "" then Failure("AssertionError: owner.walletAddress")
    else Success(wallet + "." + name)
  }

  /**
   * Wallet addresses contain no '.', so the key determines the owner and
   * the deck name: two decks get the same namespace only if they are the
   * same deck of the same owner.
   */
  lemma {:induction false} DeckKeyInjective(w1: string, n1: string, w2: string, n2: string)
    requires '.' !in w1 && '.' !in w2
    requires DeckKey(w1, n1).Success? && DeckKey(w2, n2).Success?
    requires DeckKey(w1, n1) == DeckKey(w2, n2)
    ensures w1 == w2 && n1 == n2
  {
    var k := w1 + "." + n1;
    assert k == w2 + "." + n2;
    if |w1| < |w2| {
      DotAfter(w1, n1);
      CharOfPrefix(w2, "." + n2, |w1|);
      assert false;
    } else if |w2| < |w1| {
      DotAfter(w2, n2);
      CharOfPrefix(w1, "." + n1, |w2|);
      assert false;
    }
    assert w1 == k[..|w1|] == w2;
    assert n1 == k[|w1| + 1..] == n2;
  }

  lemma DotAfter(w: string, n: string)
    ensures (w + "." + n)[|w|] == '.'
  {
  }

  lemma CharOfPrefix(w: string, rest: string, i: int)
    ensures 0 <= i < |w| ==> (w + rest)[i] == w[i] && w[i] in w
  {
  }

  /** True when no card of `cards` occurs in `among` (the assertion of `add`). */
  predicate DisjointFrom(cards: seq<Card>, among: seq<Card>)
  {
    forall i :: 0 <= i < |cards| ==> cards[i] !in among
  }

  /** `cards.filter(card => !xs.includes(card))`. */
  function Without(cards: seq<Card>, xs: seq<Card>): (r: seq<Card>)
    ensures forall c :: c in r <==> c in cards && c !in xs
    ensures |r| <= |cards|
  {
    if cards == [] then []
    else (if cards[0] in xs then [] else [cards[0]]) + Without(cards[1..], xs)
  }

  /** Filtering keeps the relative order: it distributes over concatenation. */
  lemma {:induction false} WithoutConcat(s: seq<Card>, t: seq<Card>, xs: seq<Card>)
    ensures Without(s + t, xs) == Without(s, xs) + Without(t, xs)
  {
    if s == [] {
      assert s + t == t;
    } else {
      assert (s + t)[1..] == s[1..] + t;
      WithoutConcat(s[1..], t, xs);
    }
  }

  /** Removing the same cards twice is the same as removing them once. */
  lemma {:induction false} WithoutIdempotent(s: seq<Card>, xs: seq<Card>)
    ensures Without(Without(s, xs), xs) == Without(s, xs)
  {
    if s != [] {
      var head := if s[0] in xs then [] else [s[0]];
      assert Without(s, xs) == head + Without(s[1..], xs);
      WithoutConcat(head, Without(s[1..], xs), xs);
      WithoutIdempotent(s[1..], xs);
      if s[0] !in xs {
        assert Without(head, xs) == [s[0]] + Without([], xs);
      }
    }
  }

  /** Cards absent from `xs` survive removal unchanged and in place. */
  lemma {:induction false} WithoutNone(s: seq<Card>, xs: seq<Card>)
    requires DisjointFrom(s, xs)
    ensures Without(s, xs) == s
  {
    if s != [] {
      assert DisjointFrom(s[1..], xs) by {
        forall i | 0 <= i < |s[1..]| ensures s[1..][i] !in xs {
          assert s[1..][i] == s[i + 1];
        }
      }
      WithoutNone(s[1..], xs);
      assert s[0] !in xs;
      assert s == [s[0]] + s[1..];
    }
  }

  /** A `CardDeck`: a named pile owned by a player, announced on its own namespace. */
  class CardDeck {
    const ownerWallet: string
    const name: string
    const key: string
    var cards: seq<Card>
    ghost var events: seq<DeckEvent>

    constructor (ownerWallet: string, name: string)
      requires ownerWallet != ""
      ensures this.ownerWallet == ownerWallet && this.name == name
      ensures DeckKey(ownerWallet, name) == Success(key)
      ensures cards == [] && events == []
    {
      this.ownerWallet := ownerWallet;
      this.name := name;
      this.key := ownerWallet + "." + name;
      cards := [];
      events := [];
    }

    /**
     * `add`: fails by assertion when a card is already here; otherwise
     * announces the ids, but `cards` stays as it was because the value of
     * `this.cards.concat(cards)` is dropped.
     */
    method Add(args: seq<Card>) returns (ok: bool)
      modifies this
      ensures ok <==> DisjointFrom(old(cards), args)
      ensures cards == old(cards)
      ensures events == old(events) + (if ok then [AddCards(Ids(args))] else [])
    {
      ok := DisjointFrom(cards, args);
      if ok {
        events := events + [AddCards(Ids(args))];
      }
    }

    /** `remove`: keeps the cards not in `args`, then announces every argument id. */
    method Remove(args: seq<Card>)
      modifies this
      ensures cards == Without(old(cards), args)
      ensures events == old(events) + [RemoveCards(Ids(args))]
    {
      cards := Without(cards, args);
      events := events + [RemoveCards(Ids(args))];
    }
  }

  /** `new CardDeck(owner, name)` including the failing assertion on an unset wallet. */
  method NewCardDeck(ownerWallet: string, name: string) returns (r: Option<CardDeck>)
    ensures r.None? <==> ownerWallet == ""
    ensures r.Some? ==> fresh(r.value) && r.value.cards == [] && r.value.events == []
    ensures r.Some? ==> DeckKey(ownerWallet, name) == Success(r.value.key)
  {
    if ownerWallet == "" {
      r := None;
    } else {
      var d := new CardDeck(ownerWallet, name);
      r := Some(d);
    }
  }
}
