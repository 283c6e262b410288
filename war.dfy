/**
 * The two-player game of src/games/war.ts. Each player has a draw pile, a
 * played pile and a won pile. A draw request puts the player's next card
 * on the board; once both players have a card on the board, the higher
 * value takes both played piles and the board is cleared.
 *
 * The round is specified by the pure functions `Pick`, `Settle` and
 * `Play` over a `Round` value; the `War` class holds the same state in
 * fields and its handler is proved to follow `Play`.
 */
module War {
  import opened Wrappers
  import opened Decks
  import opened Tarot
  import opened CardGame
  import Cards

  /** `getValue`: a minor card counts its rank, a major card its catalogue index. */
  function GetValue(value: nat): (r: nat)
    ensures value < TotalMinor ==> r < |MinorCards| && r % |MinorCards| == value % |MinorCards|
    ensures value >= TotalMinor ==> r == value && r >= TotalMinor
  {
    if value < TotalMinor then value % |MinorCards| else value
  }

  /** Every major arcana beats every minor one, whatever its rank. */
  lemma MajorBeatsMinor(major: nat, minor: nat)
    requires major >= TotalMinor > minor
    ensures GetValue(major) > GetValue(minor)
  {
  }

  /** Suits do not matter: two minor cards of the same rank tie. */
  lemma SameRankTies(s1: nat, s2: nat, rank: nat)
    requires s1 < |MinorSuits| && s2 < |MinorSuits| && rank < |MinorCards|
    ensures GetValue(s1 * 14 + rank) == GetValue(s2 * 14 + rank) == rank
  {
    var a, b := s1 * 14 + rank, s2 * 14 + rank;
    assert a / 14 == s1 && a % 14 == rank;
    assert b / 14 == s2 && b % 14 == rank;
  }

  /** `cards[value]` in a template: the card's name, or "undefined" outside the catalogue. */
  function CardLabel(value: nat): string
  {
    if value < TotalCards then CardName(value) else "undefined"
  }

  /** The six piles, by the role `begin` announces them under. */
  datatype Pile = DeckA | DeckB | PlayedA | PlayedB | WonA | WonB

  /**
   * What the game emits: to everyone at the table through the old table
   * object, or, for `OnPile`, on one pile's own namespace, as every `add`
   * and `remove` of a pile does.
   */
  datatype Emitted =
    | Msg(text: string)
    | NewDeck(role: string, namespace: string)
    | Reveal(cards: seq<GameCard>)
    | OnPile(pile: Pile, event: Cards.DeckEvent)

  /** The six piles and the two board slots the `drawCard` handlers share. */
  datatype Round = Round(drawA: seq<GameCard>, playedA: seq<GameCard>, wonA: seq<GameCard>,
                         drawB: seq<GameCard>, playedB: seq<GameCard>, wonB: seq<GameCard>,
                         cardA: Option<GameCard>, cardB: Option<GameCard>)

  /** The round after a handler step, what it emitted, and whether an `add` assertion threw. */
  datatype Outcome = Outcome(round: Round, events: seq<Emitted>, thrown: bool)

  /** `cards.filter(card => !xs.includes(card))`, the body of `remove`. */
  function Removed(cards: seq<GameCard>, xs: seq<GameCard>): (r: seq<GameCard>)
    ensures forall c :: c in r <==> c in cards && c !in xs
  {
    if cards == [] then [] else (if cards[0] in xs then [] else [cards[0]]) + Removed(cards[1..], xs)
  }

  /** Removing a superset of a pile's cards empties it; so `pile.remove(pile.cards)` does. */
  lemma {:induction false} RemovedAll(cards: seq<GameCard>, xs: seq<GameCard>)
    requires forall c :: c in cards ==> c in xs
    ensures Removed(cards, xs) == []
  {
    if cards != [] {
      RemovedAll(cards[1..], xs);
    }
  }

  /**
   * Selecting a card: the requesting player's slot, if still empty, takes
   * the front of their draw pile, which goes onto their played pile and
   * is shown. An empty draw pile leaves the slot empty.
   */
  function Pick(s: Round, fromA: bool, nameA: string, nameB: string): (r: Outcome)
  {
    if fromA then
      if s.cardA.Some? || s.drawA == [] then Outcome(s, [], false)
      else
        var c := s.drawA[0];
        var s1 := s.(drawA := s.drawA[1..], cardA := Some(c));
        if !Disjoint(s.playedA, [c]) then Outcome(s1, [], true)
        else Outcome(s1.(playedA := s.playedA + [c]),
                     [OnPile(PlayedA, Cards.AddCards([c.id])), Reveal([c]), Msg(nameA + " played " + CardLabel(c.value))],
                     false)
    else
      if s.cardB.Some? || s.drawB == [] then Outcome(s, [], false)
      else
        var c := s.drawB[0];
        var s1 := s.(drawB := s.drawB[1..], cardB := Some(c));
        if !Disjoint(s.playedB, [c]) then Outcome(s1, [], true)
        else Outcome(s1.(playedB := s.playedB + [c]),
                     [OnPile(PlayedB, Cards.AddCards([c.id])), Reveal([c]), Msg(nameB + " played " + CardLabel(c.value))],
                     false)
  }

  /**
   * `wonX.add(playedA.cards); wonX.add(playedB.cards)`, then both played
   * piles removed and the win announced; stops where an `add` throws.
   * Each `add` and `remove` tells its pile's namespace the ids.
   */
  function Award(s: Round, toA: bool, name: string): (r: Outcome)
  {
    var won := if toA then s.wonA else s.wonB;
    var pile := if toA then WonA else WonB;
    var addA := OnPile(pile, Cards.AddCards(CardIds(s.playedA)));
    if !Disjoint(won, s.playedA) then Outcome(s, [], true)
    else
      var won1 := won + s.playedA;
      var s1 := if toA then s.(wonA := won1) else s.(wonB := won1);
      if !Disjoint(won1, s.playedB) then Outcome(s1, [addA], true)
      else
        var won2 := won1 + s.playedB;
        var s2 := if toA then s1.(wonA := won2) else s1.(wonB := won2);
        Outcome(s2.(playedA := Removed(s.playedA, s.playedA), playedB := Removed(s.playedB, s.playedB)),
                [addA, OnPile(pile, Cards.AddCards(CardIds(s.playedB))),
                 OnPile(PlayedA, Cards.RemoveCards(CardIds(s.playedA))),
                 OnPile(PlayedB, Cards.RemoveCards(CardIds(s.playedB))),
                 Msg(name + " wins round")], false)
  }

  /** Both cards are on the board: compare, award, and clear the board. */
  function Settle(s: Round, nameA: string, nameB: string): (r: Outcome)
    requires s.cardA.Some? && s.cardB.Some?
  {
    var va := GetValue(s.cardA.value.value);
    var vb := GetValue(s.cardB.value.value);
    var a := if va > vb then Award(s, true, nameA)
             else if vb > va then Award(s, false, nameB)
             else Outcome(s, [Msg("It's a tie!")], false);
    if a.thrown then a else Outcome(a.round.(cardA := None, cardB := None), a.events, false)
  }

  /** One `drawCard` request, from player A when `fromA`. */
  function Play(s: Round, fromA: bool, nameA: string, nameB: string): (r: Outcome)
  {
    if s.cardA.Some? && s.cardB.Some? then Outcome(s, [], false)
    else
      var p := Pick(s, fromA, nameA, nameB);
      if p.thrown || p.round.cardA.None? || p.round.cardB.None? then p
      else
        var q := Settle(p.round, nameA, nameB);
        Outcome(q.round, p.events + q.events, q.thrown)
  }

  // ---- the conservation invariant -----------------------------------------

  /** How many times card `c` lies in the six piles. */
  function Count(s: Round, c: GameCard): nat
  {
    multiset(s.drawA)[c] + multiset(s.playedA)[c] + multiset(s.wonA)[c] +
    multiset(s.drawB)[c] + multiset(s.playedB)[c] + multiset(s.wonB)[c]
  }

  /** No card is in two places. */
  ghost predicate Unique(s: Round)
  {
    forall c :: Count(s, c) <= 1
  }

  /** `s` and `t` hold the same cards, each as often. */
  ghost predicate SameCards(s: Round, t: Round)
  {
    forall c :: Count(s, c) == Count(t, c)
  }

  /** No card is in two places, and a card on the board lies on its player's played pile. */
  ghost predicate Inv(s: Round)
  {
    Unique(s) &&
    (s.cardA.Some? ==> s.cardA.value in s.playedA) &&
    (s.cardB.Some? ==> s.cardB.value in s.playedB)
  }

  /** Two piles that never hold a card between them twice are disjoint. */
  lemma DisjointByCount(x: seq<GameCard>, y: seq<GameCard>)
    requires forall c :: multiset(x)[c] + multiset(y)[c] <= 1
    ensures Disjoint(x, y)
  {
    forall i, j | 0 <= i < |x| && 0 <= j < |y|
      ensures x[i] != y[j]
    {
      assert multiset(x)[x[i]] >= 1 && multiset(y)[y[j]] >= 1;
      assert multiset(x)[x[i]] + multiset(y)[x[i]] <= 1;
    }
  }

  /** Player A's pick from a non-empty draw pile moves one card and keeps the invariant. */
  lemma PickAConserves(s: Round, nameA: string, nameB: string)
    requires Inv(s) && s.cardA.None? && s.drawA != []
    ensures var r := Pick(s, true, nameA, nameB);
      !r.thrown && SameCards(r.round, s) && Inv(r.round)
  {
    var d := s.drawA[0];
    assert s.drawA == [d] + s.drawA[1..];
    assert forall c :: multiset(s.drawA)[c] == multiset([d])[c] + multiset(s.drawA[1..])[c];
    forall c ensures multiset(s.playedA)[c] + multiset([d])[c] <= 1 {
      assert Count(s, c) <= 1;
    }
    DisjointByCount(s.playedA, [d]);
    var t := s.(drawA := s.drawA[1..], cardA := Some(d), playedA := s.playedA + [d]);
    assert Pick(s, true, nameA, nameB).round == t;
    forall c ensures Count(t, c) == Count(s, c) {
      assert multiset(t.playedA)[c] == multiset(s.playedA)[c] + multiset([d])[c];
    }
  }

  /** Player B's pick, the mirror image. */
  lemma PickBConserves(s: Round, nameA: string, nameB: string)
    requires Inv(s) && s.cardB.None? && s.drawB != []
    ensures var r := Pick(s, false, nameA, nameB);
      !r.thrown && SameCards(r.round, s) && Inv(r.round)
  {
    var d := s.drawB[0];
    assert s.drawB == [d] + s.drawB[1..];
    assert forall c :: multiset(s.drawB)[c] == multiset([d])[c] + multiset(s.drawB[1..])[c];
    forall c ensures multiset(s.playedB)[c] + multiset([d])[c] <= 1 {
      assert Count(s, c) <= 1;
    }
    DisjointByCount(s.playedB, [d]);
    var t := s.(drawB := s.drawB[1..], cardB := Some(d), playedB := s.playedB + [d]);
    assert Pick(s, false, nameA, nameB).round == t;
    forall c ensures Count(t, c) == Count(s, c) {
      assert multiset(t.playedB)[c] == multiset(s.playedB)[c] + multiset([d])[c];
    }
  }

  lemma PickConserves(s: Round, fromA: bool, nameA: string, nameB: string)
    requires Inv(s)
    ensures var r := Pick(s, fromA, nameA, nameB);
      !r.thrown && SameCards(r.round, s) && Inv(r.round)
  {
    if fromA && s.cardA.None? && s.drawA != [] {
      PickAConserves(s, nameA, nameB);
    } else if !fromA && s.cardB.None? && s.drawB != [] {
      PickBConserves(s, nameA, nameB);
    }
  }

  /** The winner's pile gains both played piles; nothing is lost. */
  lemma AwardConserves(s: Round, toA: bool, name: string)
    requires Unique(s)
    ensures var r := Award(s, toA, name);
      !r.thrown && SameCards(r.round, s) && Unique(r.round) &&
      r.round.playedA == [] && r.round.playedB == [] &&
      r.round.drawA == s.drawA && r.round.drawB == s.drawB &&
      (toA ==> r.round.wonA == s.wonA + s.playedA + s.playedB && r.round.wonB == s.wonB) &&
      (!toA ==> r.round.wonB == s.wonB + s.playedA + s.playedB && r.round.wonA == s.wonA)
  {
    RemovedAll(s.playedA, s.playedA);
    RemovedAll(s.playedB, s.playedB);
    AwardDisjoint(s, toA);
    AwardCounts(s, toA);
    var won2 := (if toA then s.wonA else s.wonB) + s.playedA + s.playedB;
    var t := if toA then s.(wonA := won2, playedA := [], playedB := [])
             else s.(wonB := won2, playedA := [], playedB := []);
    assert Award(s, toA, name).round == t;
  }

  /** Neither `add` of `Award` meets a card the winner's pile already holds. */
  lemma AwardDisjoint(s: Round, toA: bool)
    requires Unique(s)
    ensures var won := if toA then s.wonA else s.wonB;
      Disjoint(won, s.playedA) && Disjoint(won + s.playedA, s.playedB)
  {
    var won := if toA then s.wonA else s.wonB;
    forall c ensures multiset(won)[c] + multiset(s.playedA)[c] <= 1 {
      assert Count(s, c) <= 1;
    }
    DisjointByCount(won, s.playedA);
    forall c ensures multiset(won + s.playedA)[c] + multiset(s.playedB)[c] <= 1 {
      assert Count(s, c) <= 1;
    }
    DisjointByCount(won + s.playedA, s.playedB);
  }

  /** Moving both played piles onto the winner's pile keeps every card's count. */
  lemma AwardCounts(s: Round, toA: bool)
    requires Unique(s)
    ensures var won2 := (if toA then s.wonA else s.wonB) + s.playedA + s.playedB;
      var t := if toA then s.(wonA := won2, playedA := [], playedB := [])
               else s.(wonB := won2, playedA := [], playedB := []);
      SameCards(t, s) && Unique(t)
  {
    var won := if toA then s.wonA else s.wonB;
    var won2 := won + s.playedA + s.playedB;
    var t := if toA then s.(wonA := won2, playedA := [], playedB := [])
             else s.(wonB := won2, playedA := [], playedB := []);
    forall c ensures Count(t, c) == Count(s, c) {
      assert multiset(won2)[c] == multiset(won)[c] + multiset(s.playedA)[c] + multiset(s.playedB)[c];
    }
  }

  /** The comparison keeps the cards and the invariant. */
  lemma SettleConserves(s: Round, nameA: string, nameB: string)
    requires Inv(s) && s.cardA.Some? && s.cardB.Some?
    ensures var r := Settle(s, nameA, nameB);
      !r.thrown && SameCards(r.round, s) && Inv(r.round)
  {
    var va, vb := GetValue(s.cardA.value.value), GetValue(s.cardB.value.value);
    if va > vb {
      AwardConserves(s, true, nameA);
    } else if vb > va {
      AwardConserves(s, false, nameB);
    }
  }

  /**
   * While no card is in two places, no `add` assertion fails during play,
   * no card is created or lost, and the invariant is kept.
   */
  lemma PlayConserves(s: Round, fromA: bool, nameA: string, nameB: string)
    requires Inv(s)
    ensures var r := Play(s, fromA, nameA, nameB);
      !r.thrown && SameCards(r.round, s) && Inv(r.round)
  {
    if !(s.cardA.Some? && s.cardB.Some?) {
      PickConserves(s, fromA, nameA, nameB);
      var p := Pick(s, fromA, nameA, nameB).round;
      if p.cardA.Some? && p.cardB.Some? {
        SettleConserves(p, nameA, nameB);
        var q := Settle(p, nameA, nameB).round;
        assert forall c :: Count(q, c) == Count(p, c) == Count(s, c);
      }
    }
  }

  /** A request while both cards are on the board changes nothing. */
  lemma FullBoardIgnored(s: Round, fromA: bool, nameA: string, nameB: string)
    requires s.cardA.Some? && s.cardB.Some?
    ensures Play(s, fromA, nameA, nameB) == Outcome(s, [], false)
  {
  }

  /**
   * A player's second request in a round changes nothing; the other
   * player's side is never touched by a pick.
   */
  lemma PickOwnSlotOnly(s: Round, fromA: bool, nameA: string, nameB: string)
    ensures var r := Pick(s, fromA, nameA, nameB).round;
      (fromA ==> r.drawB == s.drawB && r.playedB == s.playedB && r.cardB == s.cardB) &&
      (!fromA ==> r.drawA == s.drawA && r.playedA == s.playedA && r.cardA == s.cardA) &&
      r.wonA == s.wonA && r.wonB == s.wonB
    ensures fromA && s.cardA.Some? ==> Pick(s, fromA, nameA, nameB) == Outcome(s, [], false)
    ensures !fromA && s.cardB.Some? ==> Pick(s, fromA, nameA, nameB) == Outcome(s, [], false)
  {
  }

  /**
   * The comparison, when no assertion throws: the strictly higher card's
   * owner gains both played piles in order A then B, a tie keeps the
   * played piles, and the board is cleared whatever the outcome.
   */
  lemma SettleOutcome(s: Round, nameA: string, nameB: string)
    requires s.cardA.Some? && s.cardB.Some? && Unique(s)
    ensures var r := Settle(s, nameA, nameB).round;
      var va := GetValue(s.cardA.value.value); var vb := GetValue(s.cardB.value.value);
      r.cardA == None && r.cardB == None && r.drawA == s.drawA && r.drawB == s.drawB &&
      (va > vb ==> r.wonA == s.wonA + s.playedA + s.playedB && r.wonB == s.wonB && r.playedA == [] && r.playedB == []) &&
      (vb > va ==> r.wonB == s.wonB + s.playedA + s.playedB && r.wonA == s.wonA && r.playedA == [] && r.playedB == []) &&
      (va == vb ==> r.wonA == s.wonA && r.wonB == s.wonB && r.playedA == s.playedA && r.playedB == s.playedB)
  {
    var va, vb := GetValue(s.cardA.value.value), GetValue(s.cardB.value.value);
    if va > vb {
      AwardConserves(s, true, nameA);
    } else if vb > va {
      AwardConserves(s, false, nameB);
    }
  }

  /** The `addCards` of both draw piles, filled from the shuffled decks. */
  function Stocking(shuffledA: seq<GameCard>, shuffledB: seq<GameCard>): seq<Emitted>
  {
    [OnPile(DeckA, Cards.AddCards(CardIds(shuffledA))), OnPile(DeckB, Cards.AddCards(CardIds(shuffledB)))]
  }

  /** A seated player of the old table object. */
  datatype WarPlayer = WarPlayer(walletAddress: string, name: string)

  /** The six namespace announcements of `begin`, in order. */
  function NewDecks(a: string, b: string): seq<Emitted>
  {
    [NewDeck("DeckA", "/" + a + ".draw"), NewDeck("DeckB", "/" + b + ".draw"),
     NewDeck("PlayedA", "/" + a + ".played"), NewDeck("PlayedB", "/" + b + ".played"),
     NewDeck("WonA", "/" + a + ".won"), NewDeck("WonB", "/" + b + ".won")]
  }

  /** A game of War on a table; `hooked` once `begin` has registered the handlers. */
  class War {
    const players: seq<WarPlayer>
    var hooked: bool
    var drawA: seq<GameCard>
    var playedA: seq<GameCard>
    var wonA: seq<GameCard>
    var drawB: seq<GameCard>
    var playedB: seq<GameCard>
    var wonB: seq<GameCard>
    var cardA: Option<GameCard>
    var cardB: Option<GameCard>
    /** Everything the table emitted to its players. */
    var emitted: seq<Emitted>

    function State(): Round
      reads this
    {
      Round(drawA, playedA, wonA, drawB, playedB, wonB, cardA, cardB)
    }

    constructor (players: seq<WarPlayer>)
      ensures this.players == players && !hooked && emitted == []
      ensures State() == Round([], [], [], [], [], [], None, None)
    {
      this.players := players;
      hooked := false;
      drawA, playedA, wonA, drawB, playedB, wonB := [], [], [], [], [], [];
      cardA, cardB := None, None;
      emitted := [];
    }

    /**
     * The end of `begin` once both wallets are set: the six piles are
     * opened empty, the handlers hooked, the piles announced and both
     * draw piles filled.
     */
    method Open(a: string, b: string, shuffledA: seq<GameCard>, shuffledB: seq<GameCard>)
      modifies this
      ensures hooked && State() == Round(shuffledA, [], [], shuffledB, [], [], None, None)
      ensures emitted == old(emitted) + NewDecks(a, b) + Stocking(shuffledA, shuffledB)
    {
      var announced := emitted + NewDecks(a, b);
      StockedEmpty(shuffledA);
      StockedEmpty(shuffledB);
      var deckA, deckB := Stocked([], shuffledA), Stocked([], shuffledB);
      hooked, cardA, cardB := true, None, None;
      drawA, playedA, wonA, drawB, playedB, wonB := deckA, [], [], deckB, [], [];
      emitted := announced + Stocking(shuffledA, shuffledB);
    }

    /**
     * `begin()`: refuses any count but two and two seats on one wallet;
     * polls for owned cards; opens the six piles (throwing on an unset
     * wallet), hooks the handlers, announces the piles and fills both
     * draw piles. `ownedAt[k]` is the set of wallets whose owner has
     * owned cards at round `k`.
     */
    method Begin(ownedAt: seq<set<string>>, shuffledA: seq<GameCard>, shuffledB: seq<GameCard>)
      returns (polls: nat)
      requires |ownedAt| == MaxPolls
      modifies this
      ensures |players| != 2 ==> (State() == old(State()) && hooked == old(hooked) &&
        emitted == old(emitted) + [Msg("Invalid number of players!")] && polls == 0)
      ensures |players| == 2 && players[0].walletAddress == players[1].walletAddress ==>
        State() == old(State()) && hooked == old(hooked) &&
        emitted == old(emitted) + [Msg("Players cannot use the same accounts!")] && polls == 0
      ensures |players| == 2 && players[0].walletAddress != players[1].walletAddress ==>
        var wallets := [players[0].walletAddress, players[1].walletAddress];
        1 <= polls <= MaxPolls &&
        (forall k :: 0 <= k < polls - 1 ==> !AllOwned(wallets, ownedAt[k])) &&
        (polls < MaxPolls ==> AllOwned(wallets, ownedAt[polls - 1]))
      ensures hooked <==> (old(hooked) ||
        (|players| == 2 && players[0].walletAddress != players[1].walletAddress &&
         players[0].walletAddress != "" && players[1].walletAddress != ""))
      ensures hooked && !old(hooked) ==>
        State() == Round(shuffledA, [], [], shuffledB, [], [], None, None) &&
        emitted == old(emitted) + NewDecks(players[0].walletAddress, players[1].walletAddress) + Stocking(shuffledA, shuffledB)
      ensures hooked && !old(hooked) && (forall c :: multiset(shuffledA)[c] + multiset(shuffledB)[c] <= 1) ==>
        Inv(State())
      ensures (|players| == 2 && players[0].walletAddress != players[1].walletAddress &&
               (players[0].walletAddress == "" || players[1].walletAddress == "")) ==>
        State() == old(State()) && emitted == old(emitted)
      ensures (|players| == 2 && players[0].walletAddress != players[1].walletAddress &&
               players[0].walletAddress != "" && players[1].walletAddress != "") ==>
        State() == Round(shuffledA, [], [], shuffledB, [], [], None, None) &&
        emitted == old(emitted) + NewDecks(players[0].walletAddress, players[1].walletAddress) + Stocking(shuffledA, shuffledB)
      ensures !hooked ==> State() == old(State())
    {
      polls := 0;
      if |players| != 2 {
        emitted := emitted + [Msg("Invalid number of players!")];
        return;
      }
      var a, b := players[0].walletAddress, players[1].walletAddress;
      if a == b {
        emitted := emitted + [Msg("Players cannot use the same accounts!")];
        return;
      }
      polls := Poll([a, b], ownedAt);
      var keyA := Cards.DeckKey(a, "draw");
      var keyB := Cards.DeckKey(b, "draw");
      if keyA.Failure? || keyB.Failure? {
        return;
      }
      Open(a, b, shuffledA, shuffledB);
    }

    /** The card selection of a `drawCard` request. */
    method PickCard(fromA: bool, nameA: string, nameB: string) returns (thrown: bool)
      modifies this
      ensures var r := Pick(old(State()), fromA, nameA, nameB);
        State() == r.round && emitted == old(emitted) + r.events && thrown == r.thrown
      ensures hooked == old(hooked)
    {
      thrown := false;
      if fromA {
        if cardA.None? && drawA != [] {
          var c := drawA[0];
          drawA, cardA := drawA[1..], Some(c);
          if !Disjoint(playedA, [c]) {
            return true;
          }
          playedA := playedA + [c];
          emitted := emitted + [OnPile(PlayedA, Cards.AddCards([c.id])), Reveal([c]), Msg(nameA + " played " + CardLabel(c.value))];
        }
      } else {
        if cardB.None? && drawB != [] {
          var c := drawB[0];
          drawB, cardB := drawB[1..], Some(c);
          if !Disjoint(playedB, [c]) {
            return true;
          }
          playedB := playedB + [c];
          emitted := emitted + [OnPile(PlayedB, Cards.AddCards([c.id])), Reveal([c]), Msg(nameB + " played " + CardLabel(c.value))];
        }
      }
    }

    /** The winner `name` (player A when `toA`) takes both played piles. */
    method AwardPiles(toA: bool, name: string) returns (thrown: bool)
      modifies this
      ensures var r := Award(old(State()), toA, name);
        State() == r.round && emitted == old(emitted) + r.events && thrown == r.thrown
      ensures hooked == old(hooked)
    {
      var won := if toA then wonA else wonB;
      var pile := if toA then WonA else WonB;
      if !Disjoint(won, playedA) {
        return true;
      }
      var addA := OnPile(pile, Cards.AddCards(CardIds(playedA)));
      won := won + playedA;
      if !Disjoint(won, playedB) {
        if toA { wonA := won; } else { wonB := won; }
        emitted := emitted + [addA];
        return true;
      }
      var addB := OnPile(pile, Cards.AddCards(CardIds(playedB)));
      var removeA := OnPile(PlayedA, Cards.RemoveCards(CardIds(playedA)));
      var removeB := OnPile(PlayedB, Cards.RemoveCards(CardIds(playedB)));
      won := won + playedB;
      if toA { wonA := won; } else { wonB := won; }
      playedA, playedB := Removed(playedA, playedA), Removed(playedB, playedB);
      emitted := emitted + [addA, addB, removeA, removeB, Msg(name + " wins round")];
      thrown := false;
    }

    /** Both cards are on the board: the comparison, the award and the cleared board. */
    method SettleBoard(nameA: string, nameB: string) returns (thrown: bool)
      requires cardA.Some? && cardB.Some?
      modifies this
      ensures var r := Settle(old(State()), nameA, nameB);
        State() == r.round && emitted == old(emitted) + r.events && thrown == r.thrown
      ensures hooked == old(hooked)
    {
      var va, vb := GetValue(cardA.value.value), GetValue(cardB.value.value);
      thrown := false;
      if va > vb {
        thrown := AwardPiles(true, nameA);
      } else if vb > va {
        thrown := AwardPiles(false, nameB);
      } else {
        emitted := emitted + [Msg("It's a tie!")];
      }
      if !thrown {
        cardA, cardB := None, None;
      }
    }

    /** The `drawCard` handler of player A (`fromA`) or player B; nothing is hooked before `begin`. */
    method DrawCard(fromA: bool)
      requires hooked ==> |players| == 2
      modifies this
      ensures !old(hooked) ==> State() == old(State()) && emitted == old(emitted)
      ensures old(hooked) ==> var r := Play(old(State()), fromA, players[0].name, players[1].name);
        State() == r.round && emitted == old(emitted) + r.events
      ensures hooked == old(hooked)
    {
      if !hooked {
        return;
      }
      var nameA, nameB := players[0].name, players[1].name;
      if cardA.Some? && cardB.Some? {
        return;
      }
      var thrown := PickCard(fromA, nameA, nameB);
      if thrown || cardA.None? || cardB.None? {
        return;
      }
      thrown := SettleBoard(nameA, nameB);
    }
  }
}
