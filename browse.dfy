/**
 * The one-player game of src/games/browse.ts: a shuffled deck and a hand;
 * each draw request moves the deck's front card to the hand and shows it
 * to the table, until the hand holds `HandLimit` cards.
 */
module Browse {
  import opened Wrappers
  import opened Decks
  import opened Store
  import opened CardTable
  import opened CardGame
  import opened Users

  const RequiredPlayers: nat := 1
  /** A draw is ignored once the hand holds this many cards. */
  const HandLimit: nat := 24

  /** What the draw callback captures: the table and its two decks. */
  datatype DrawHandler = DrawHandler(tableId: string, deck: string, hand: string)

  /** The deck and the hand after one draw request. */
  function Drawn(deck: seq<GameCard>, hand: seq<GameCard>): (r: (seq<GameCard>, seq<GameCard>))
    ensures |r.1| == |hand| + (if |hand| < HandLimit && deck != [] then 1 else 0)
    ensures r.1[..|hand|] == hand && |r.0| <= |deck| && r.0 == deck[|deck| - |r.0|..]
  {
    if |hand| >= HandLimit || deck == [] then (deck, hand)
    else (deck[1..], hand + [deck[0]])
  }

  /** The deck and the hand after `n` draw requests. */
  function DrawnN(deck: seq<GameCard>, hand: seq<GameCard>, n: nat): (seq<GameCard>, seq<GameCard>)
  {
    if n == 0 then (deck, hand)
    else
      var r := DrawnN(deck, hand, n - 1);
      Drawn(r.0, r.1)
  }

  function Min(a: nat, b: nat): nat { if a <= b then a else b }

  /**
   * Draws never push the hand past the limit: after `n` requests it holds
   * as many cards as it can, `n` more or the whole deck, capped at the limit.
   */
  lemma {:induction false} DrawnNSize(deck: seq<GameCard>, hand: seq<GameCard>, n: nat)
    requires |hand| <= HandLimit
    ensures var r := DrawnN(deck, hand, n);
      |r.1| == Min(HandLimit, |hand| + Min(n, |deck|)) &&
      |r.0| + |r.1| == |deck| + |hand|
  {
    if n > 0 {
      DrawnNSize(deck, hand, n - 1);
    }
  }

  /** No card is lost or duplicated by any number of draws. */
  lemma {:induction false} DrawnNConserves(deck: seq<GameCard>, hand: seq<GameCard>, n: nat)
    ensures multiset(DrawnN(deck, hand, n).0) + multiset(DrawnN(deck, hand, n).1) == multiset(deck) + multiset(hand)
  {
    if n > 0 {
      DrawnNConserves(deck, hand, n - 1);
      var r := DrawnN(deck, hand, n - 1);
      DrawnConserves(r.0, r.1, multiset(deck) + multiset(hand));
    }
  }

  /** One draw keeps whatever the deck and the hand held together. */
  lemma DrawnConserves(deck: seq<GameCard>, hand: seq<GameCard>, all: multiset<GameCard>)
    requires multiset(deck) + multiset(hand) == all
    ensures multiset(Drawn(deck, hand).0) + multiset(Drawn(deck, hand).1) == all
  {
    if |hand| < HandLimit && deck != [] {
      assert deck == [deck[0]] + deck[1..];
    }
  }

  /** What one draw request publishes: the reveal of exactly the card that moved to the hand, if any. */
  function DrawReveals(tableId: string, deck: seq<GameCard>, hand: seq<GameCard>): (r: seq<Publication>)
    ensures r != [] <==> |Drawn(deck, hand).1| > |hand|
    ensures r != [] ==> r == [RevealOne(tableId, Drawn(deck, hand).1[|hand|])]
  {
    if |hand| < HandLimit && deck != [] then [RevealOne(tableId, deck[0])] else []
  }

  /** The callback of `onDrawCard`: the hand-size check, `drawCard(hand)` and the reveal. */
  method RunDraw(decks: DeckStore, db: Redis, h: DrawHandler)
    requires h.deck != h.hand
    modifies decks, db
    ensures (decks.Deck(h.deck), decks.Deck(h.hand)) == Drawn(old(decks.Deck(h.deck)), old(decks.Deck(h.hand)))
    ensures forall k :: k != h.deck && k != h.hand ==> decks.Deck(k) == old(decks.Deck(k))
    ensures db.published == old(db.published) + DrawReveals(h.tableId, old(decks.Deck(h.deck)), old(decks.Deck(h.hand)))
    ensures decks.registry == old(decks.registry) && decks.flips == old(decks.flips) && decks.owned == old(decks.owned)
    ensures db.counters == old(db.counters) && db.sets == old(db.sets) && db.hashes == old(db.hashes)
    ensures db.zsets == old(db.zsets) && db.lists == old(db.lists)
  {
    ghost var deck0, hand0, p0 := decks.Deck(h.deck), decks.Deck(h.hand), db.published;
    if decks.NumCards(h.hand) >= HandLimit {
      return;
    }
    var card := decks.DrawCard(h.deck, h.hand);
    if card.Some? {
      assert deck0 != [] && card.value == deck0[0];
      assert (decks.Deck(h.deck), decks.Deck(h.hand)) == (deck0[1..], hand0 + [deck0[0]]);
      RevealCard(db, h.tableId, card.value);
      assert db.published == p0 + DrawReveals(h.tableId, deck0, hand0);
    }
  }

  /** The game: a `CardGame` named "Browse" for exactly one player, with its deck and hand. */
  class Browse {
    const game: CardGame<DrawHandler>
    const deck: string
    const hand: string

    /** The game is "Browse" for one player, and any registered handler is this game's. */
    predicate Valid()
      reads this, game
    {
      game.name == "Browse" && game.minPlayers == RequiredPlayers && game.maxPlayers == RequiredPlayers &&
      deck != hand &&
      (game.handler.Some? ==> game.handler.value == DrawHandler(game.tableId, deck, hand))
    }

    constructor (tableId: string, deck: string, hand: string)
      requires deck != hand
      ensures Valid() && fresh(game) && game.tableId == tableId
      ensures game.players == [] && game.handler == None
      ensures this.deck == deck && this.hand == hand
    {
      game := new CardGame("Browse", RequiredPlayers, RequiredPlayers, tableId);
      this.deck := deck;
      this.hand := hand;
    }

    /**
     * `begin(initialSetup)`: if the framework refuses, nothing else
     * happens. Otherwise the draw callback is registered, a fresh table
     * has its shuffled deck added, and the player is told which deck to
     * draw from.
     */
    method Begin(db: Redis, decks: DeckStore, members: seq<string>, ownedAt: seq<set<string>>,
                 initialSetup: bool, shuffled: seq<GameCard>) returns (ok: bool)
      requires Valid()
      requires |ownedAt| == MaxPolls
      requires Enumerates(members, GetPlayers(db, game.tableId))
      modifies game`players, game`handler, db, decks
      ensures Valid() && game.players == members
      ensures ok <==> |members| == RequiredPlayers
      ensures !ok ==> game.handler == old(game.handler) && decks.decks == old(decks.decks)
      ensures !ok ==> var t := game.tableId;
        db.ZSet(ChatKey(t)) == LogMsgs(old(db.ZSet(ChatKey(t))), old(db.Counter(MsgCounterKey(t))),
                                       Notices(t, InvalidTexts(members))) &&
        db.published == old(db.published) + Signals(t, |members| + 1)
      ensures ok ==> game.handler == Some(DrawHandler(game.tableId, deck, hand))
      ensures ok && initialSetup ==> decks.Deck(deck) == Stocked(old(decks.Deck(deck)), shuffled)
      ensures ok && initialSetup ==> forall k :: k != deck ==> decks.Deck(k) == old(decks.Deck(k))
      ensures ok && !initialSetup ==> decks.decks == old(decks.decks)
      ensures ok ==> (db.published == old(db.published) +
        [BeginGame(game.tableId, "Browse"), Publication(members[0], UserEvent("setDrawPile", Text(deck)))])
      ensures ok ==> db.zsets == old(db.zsets) && db.counters == old(db.counters)
      ensures decks.registry == old(decks.registry) && decks.flips == old(decks.flips) && decks.owned == old(decks.owned)
      ensures db.sets == old(db.sets) && db.hashes == old(db.hashes) && db.lists == old(db.lists)
    {
      var polls;
      ok, polls := game.Begin(db, members, ownedAt);
      if !ok {
        return;
      }
      game.OnDrawCard(DrawHandler(game.tableId, deck, hand));
      var player := game.players[0];
      if initialSetup {
        var added := decks.Add(deck, shuffled);
      }
      SendEvent(db, player, "setDrawPile", Text(deck));
    }

    /** A message on a channel the game listens to: the registered callback runs, if any. */
    method OnMessage(decks: DeckStore, db: Redis, channel: string)
      requires Valid()
      modifies decks, db
      ensures var runs := channel == game.drawChannel && game.handler.Some?;
        (runs ==> (decks.Deck(deck), decks.Deck(hand)) == Drawn(old(decks.Deck(deck)), old(decks.Deck(hand)))) &&
        (!runs ==> decks.decks == old(decks.decks) && db.published == old(db.published))
      ensures channel == game.drawChannel && game.handler.Some? ==>
        db.published == old(db.published) + DrawReveals(game.tableId, old(decks.Deck(deck)), old(decks.Deck(hand)))
      ensures forall k :: k != deck && k != hand ==> decks.Deck(k) == old(decks.Deck(k))
      ensures decks.registry == old(decks.registry) && decks.flips == old(decks.flips) && decks.owned == old(decks.owned)
      ensures db.counters == old(db.counters) && db.sets == old(db.sets) && db.hashes == old(db.hashes)
      ensures db.zsets == old(db.zsets) && db.lists == old(db.lists)
    {
      var run := game.DrawRequested(channel);
      if run.Some? {
        RunDraw(decks, db, run.value);
      }
    }
  }
}
