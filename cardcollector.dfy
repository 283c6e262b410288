/**
 * src/cardcollector.ts: the server-side collection of a wallet's owned
 * cards. A wallet's active ledger entries give an amount per token; each
 * metadata entry then registers that many cards, which become the
 * wallet's owned set and are revealed to it. At most one collector is
 * started per wallet.
 */
module CardCollector {
  import opened Decks
  import opened Store
  import opened Users
  import opened Ledger
  import Tarot

  /**
   * The cards `registerCard` hands out for `mints`, the first getting id
   * `base`: each has the next id, the catalogue index `token_id % totalCards`
   * as its value, and its token's id and metadata.
   */
  function Registered(base: nat, mints: seq<Mint>): (r: seq<GameCard>)
    ensures |r| == |mints|
    ensures forall i :: 0 <= i < |r| ==> r[i].value < Tarot.TotalCards
  {
    seq(|mints|, i requires 0 <= i < |mints| =>
      GameCard(base + i, mints[i].tokenId % Tarot.TotalCards, mints[i].tokenId, mints[i].ipfsUri))
  }

  /** Registering `a` and then `b` hands out the same cards as registering `a + b`. */
  lemma RegisteredAppend(base: nat, a: seq<Mint>, b: seq<Mint>)
    ensures Registered(base, a + b) == Registered(base, a) + Registered(base + |a|, b)
  {
  }

  /** The inner loop: `amount` registrations of one token. */
  method RegisterCopies(decks: DeckStore, m: Mint, amount: int) returns (cards: seq<GameCard>)
    modifies decks
    ensures cards == Registered(|old(decks.registry)|, Copies(amount, m))
    ensures decks.registry == old(decks.registry) + cards
    ensures decks.decks == old(decks.decks) && decks.flips == old(decks.flips) && decks.owned == old(decks.owned)
  {
    ghost var base := |decks.registry|;
    var n := if amount > 0 then amount else 0;
    cards := [];
    var i := 0;
    while i < n
      invariant 0 <= i <= n
      invariant cards == Registered(base, Copies(i, m)) && |cards| == i
      invariant decks.registry == old(decks.registry) + cards
      invariant decks.decks == old(decks.decks) && decks.flips == old(decks.flips) && decks.owned == old(decks.owned)
    {
      var card := decks.RegisterCard(m.tokenId % Tarot.TotalCards, m.tokenId, m.ipfsUri);
      ghost var done := Copies(i, m);
      assert Copies(i + 1, m) == done + [m];
      RegisteredAppend(base, done, [m]);
      cards := cards + [card];
      i := i + 1;
    }
    assert |Copies(amount, m)| == n;
    if amount <= 0 {
      assert Copies(amount, m) == [] == Copies(i, m);
    }
  }

  /** The metadata loop: `amount` calls of `registerCard` per entry whose amount is truthy. */
  method RegisterAll(decks: DeckStore, metadata: seq<MetadataEntry>, amounts: map<nat, int>)
    returns (cards: seq<GameCard>)
    modifies decks
    ensures cards == Registered(|old(decks.registry)|, Expansion(metadata, amounts))
    ensures decks.registry == old(decks.registry) + cards
    ensures decks.decks == old(decks.decks) && decks.flips == old(decks.flips) && decks.owned == old(decks.owned)
  {
    ghost var base := |decks.registry|;
    cards := [];
    for k := 0 to |metadata|
      invariant cards == Registered(base, Expansion(metadata[..k], amounts))
      invariant decks.registry == old(decks.registry) + cards && |decks.registry| == base + |cards|
      invariant decks.decks == old(decks.decks) && decks.flips == old(decks.flips) && decks.owned == old(decks.owned)
    {
      cards := RegisterNext(decks, metadata, k, amounts, base, old(decks.registry), cards);
    }
    assert metadata[..|metadata|] == metadata;
  }

  /** One turn of the metadata loop: entry `k`'s cards follow those of the entries before it. */
  method RegisterNext(decks: DeckStore, metadata: seq<MetadataEntry>, k: nat, amounts: map<nat, int>,
                      ghost base: nat, ghost origin: seq<GameCard>, cards: seq<GameCard>) returns (next: seq<GameCard>)
    requires k < |metadata|
    requires cards == Registered(base, Expansion(metadata[..k], amounts))
    requires decks.registry == origin + cards && |decks.registry| == base + |cards|
    modifies decks
    ensures next == Registered(base, Expansion(metadata[..k + 1], amounts))
    ensures decks.registry == origin + next && |decks.registry| == base + |next|
    ensures decks.decks == old(decks.decks) && decks.flips == old(decks.flips) && decks.owned == old(decks.owned)
  {
    var more := RegisterEntry(decks, metadata[k], amounts);
    RegisteredStep(base, metadata, k, amounts, cards, more);
    assert (origin + cards) + more == origin + (cards + more);
    next := cards + more;
  }

  lemma RegisteredStep(base: nat, metadata: seq<MetadataEntry>, k: nat, amounts: map<nat, int>,
                       cards: seq<GameCard>, more: seq<GameCard>)
    requires k < |metadata|
    requires cards == Registered(base, Expansion(metadata[..k], amounts))
    requires more == Registered(base + |cards|, Instances(metadata[k], amounts))
    ensures cards + more == Registered(base, Expansion(metadata[..k + 1], amounts))
  {
    assert metadata[..k + 1][..k] == metadata[..k];
    RegisteredAppend(base, Expansion(metadata[..k], amounts), Instances(metadata[k], amounts));
  }

  /** One metadata entry: a missing or zero amount registers nothing. */
  method RegisterEntry(decks: DeckStore, e: MetadataEntry, amounts: map<nat, int>) returns (cards: seq<GameCard>)
    modifies decks
    ensures cards == Registered(|old(decks.registry)|, Instances(e, amounts))
    ensures decks.registry == old(decks.registry) + cards
    ensures decks.decks == old(decks.decks) && decks.flips == old(decks.flips) && decks.owned == old(decks.owned)
  {
    if e.tokenId in amounts && amounts[e.tokenId] != 0 {
      cards := RegisterCopies(decks, Mint(e.tokenId, e.ipfsUri), amounts[e.tokenId]);
    } else {
      cards := [];
    }
  }

  /** Card `c` is an instance of the token of entry `e`, which stands for at least one. */
  predicate CardOf(c: GameCard, e: MetadataEntry, amounts: map<nat, int>)
  {
    c.tokenId == e.tokenId && c.ipfsUri == e.ipfsUri && c.value == e.tokenId % Tarot.TotalCards &&
    Owned(e, amounts) > 0
  }

  /**
   * The collection registers exactly as many cards as the positive amounts
   * add up to, with consecutive ids from `base`; each is a token of a
   * metadata entry with a positive amount, valued `token_id % totalCards`.
   */
  lemma RegisteredOwned(base: nat, metadata: seq<MetadataEntry>, amounts: map<nat, int>)
    ensures var cards := Registered(base, Expansion(metadata, amounts));
      |cards| == TotalOwned(metadata, amounts) &&
      (forall i :: 0 <= i < |cards| ==> cards[i].id == base + i) &&
      (forall i :: 0 <= i < |cards| ==>
         exists j :: 0 <= j < |metadata| && CardOf(cards[i], metadata[j], amounts))
  {
    var x := Expansion(metadata, amounts);
    ExpansionSize(metadata, amounts);
    forall i | 0 <= i < |x|
      ensures exists j :: 0 <= j < |metadata| && CardOf(Registered(base, x)[i], metadata[j], amounts)
    {
      assert x[i] in x;
      var j :| 0 <= j < |metadata| && InstanceOf(x[i], metadata[j], amounts);
      assert CardOf(Registered(base, x)[i], metadata[j], amounts);
    }
  }

  /**
   * `CardCollector.begin()`: the owned set is cleared; when the wallet has
   * active ledger entries the cards are registered, become its owned set
   * and are revealed to it in one event.
   */
  method Collect(decks: DeckStore, db: Redis, wallet: string, ledger: seq<LedgerEntry>, metadata: seq<MetadataEntry>)
    modifies decks, db
    ensures var active := Active(ledger);
      var cards := Registered(|old(decks.registry)|, Expansion(metadata, AmountsOf(active)));
      (active == [] ==> decks.owned == old(decks.owned) - {wallet} && decks.registry == old(decks.registry) &&
                        db.published == old(db.published)) &&
      (active != [] ==> decks.owned == (old(decks.owned) - {wallet})[wallet := cards] &&
                        decks.registry == old(decks.registry) + cards &&
                        db.published == old(db.published) + [Publication(wallet, UserEvent("revealCards", CardList(cards)))])
    ensures decks.decks == old(decks.decks) && decks.flips == old(decks.flips)
    ensures db.counters == old(db.counters) && db.sets == old(db.sets) && db.hashes == old(db.hashes)
    ensures db.zsets == old(db.zsets) && db.lists == old(db.lists)
  {
    decks.ClearOwned(wallet);
    var active := Active(ledger);
    if |active| > 0 {
      var amounts := CollectAmounts(active);
      var cards := RegisterAll(decks, metadata, amounts);
      decks.AddOwned(wallet, cards);
      assert [] + cards == cards;
      SendEvent(db, wallet, "revealCards", CardList(cards));
    }
  }

  /** The module's `collectors` map, as the set of wallets that have one. */
  class Collectors {
    var started: set<string>

    constructor ()
      ensures started == {}
    {
      started := {};
    }

    /** `collectCards(wallet)`: a second call for the same wallet does nothing. */
    method CollectCards(decks: DeckStore, db: Redis, wallet: string, ledger: seq<LedgerEntry>, metadata: seq<MetadataEntry>)
      modifies this, decks, db
      ensures started == old(started) + {wallet}
      ensures wallet in old(started) ==>
        decks.owned == old(decks.owned) && decks.registry == old(decks.registry) && db.published == old(db.published)
      ensures wallet !in old(started) ==> var active := Active(ledger);
        var cards := Registered(|old(decks.registry)|, Expansion(metadata, AmountsOf(active)));
        (active == [] ==> decks.owned == old(decks.owned) - {wallet} && decks.registry == old(decks.registry) &&
                          db.published == old(db.published)) &&
        (active != [] ==> decks.owned == (old(decks.owned) - {wallet})[wallet := cards] &&
                          decks.registry == old(decks.registry) + cards &&
                          db.published == old(db.published) + [Publication(wallet, UserEvent("revealCards", CardList(cards)))])
      ensures decks.decks == old(decks.decks) && decks.flips == old(decks.flips)
      ensures db.counters == old(db.counters) && db.sets == old(db.sets) && db.hashes == old(db.hashes)
      ensures db.zsets == old(db.zsets) && db.lists == old(db.lists)
    {
      if wallet in started {
        return;
      }
      started := started + {wallet};
      Collect(decks, db, wallet, ledger, metadata);
    }
  }
}
