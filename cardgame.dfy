/**
 * The game framework of src/cardgame.ts. A game is bound to one table,
 * listens on `<tableId>:drawCard` and may register one draw handler; the
 * handler is a value of the game's own type `H` that its owner runs when
 * `DrawRequested` hands it back. `begin` reads the table's players,
 * refuses a wrong player count with a chat report, and otherwise
 * announces the game and polls, at most five times, until every player
 * owns cards.
 */
module CardGame {
  import opened Wrappers
  import opened Decks
  import opened Store
  import opened CardTable

  /** The polling loop of `begin` runs at most this many rounds. */
  const MaxPolls: nat := 5

  /** `s` lists the members of `members`, each exactly once (what `sMembers` returns). */
  predicate Enumerates(s: seq<string>, members: set<string>)
  {
    (forall i, j :: 0 <= i < j < |s| ==> s[i] != s[j]) &&
    (forall x :: x in s ==> x in members) &&
    (forall x :: x in members ==> x in s)
  }

  /** `owned.every(Boolean)`: every player has an owned set. */
  predicate AllOwned(players: seq<string>, owners: set<string>)
  {
    forall p :: p in players ==> p in owners
  }

  /** The chat lines a refused `begin` sends: a header, then one numbered line per player. */
  function InvalidTexts(players: seq<string>): (r: seq<string>)
    ensures |r| == |players| + 1
    ensures r[0] == "Invalid number of players:"
    ensures forall i :: 0 <= i < |players| ==> r[i + 1] == IntToString(i + 1) + ": " + players[i]
  {
    ["Invalid number of players:"] + seq(|players|, i requires 0 <= i < |players| => IntToString(i + 1) + ": " + players[i])
  }

  /** The chat messages for `texts`, shown to everyone. */
  function Notices(tableId: string, texts: seq<string>): (r: seq<TableMsg>)
    ensures |r| == |texts|
    ensures forall i :: 0 <= i < |texts| ==> r[i] == ChatMsg(tableId, texts[i], None)
  {
    seq(|texts|, i requires 0 <= i < |texts| => ChatMsg(tableId, texts[i], None))
  }

  /** One `broadcastMsg(tableId, text)` per text, in order. */
  method BroadcastMsgs(db: Redis, tableId: string, texts: seq<string>)
    modifies db
    ensures db.ZSet(ChatKey(tableId)) ==
      LogMsgs(old(db.ZSet(ChatKey(tableId))), old(db.Counter(MsgCounterKey(tableId))), Notices(tableId, texts))
    ensures forall k :: k != ChatKey(tableId) ==> db.ZSet(k) == old(db.ZSet(k))
    ensures db.Counter(MsgCounterKey(tableId)) == old(db.Counter(MsgCounterKey(tableId))) + |texts|
    ensures forall k :: k != MsgCounterKey(tableId) ==> db.Counter(k) == old(db.Counter(k))
    ensures db.published == old(db.published) + Signals(tableId, |texts|)
    ensures db.hashes == old(db.hashes) && db.sets == old(db.sets) && db.lists == old(db.lists)
  {
    ghost var z0 := db.ZSet(ChatKey(tableId));
    ghost var c0 := db.Counter(MsgCounterKey(tableId));
    var i := 0;
    while i < |texts|
      invariant 0 <= i <= |texts|
      invariant db.hashes == old(db.hashes) && db.sets == old(db.sets) && db.lists == old(db.lists)
      invariant db.published == old(db.published) + Signals(tableId, i)
      invariant db.Counter(MsgCounterKey(tableId)) == c0 + i
      invariant forall k :: k != MsgCounterKey(tableId) ==> db.Counter(k) == old(db.Counter(k))
      invariant db.ZSet(ChatKey(tableId)) == LogMsgs(z0, c0, Notices(tableId, texts[..i]))
      invariant forall k :: k != ChatKey(tableId) ==> db.ZSet(k) == old(db.ZSet(k))
    {
      BroadcastMsg(db, tableId, texts[i], None);
      assert Notices(tableId, texts[..i + 1])[..i] == Notices(tableId, texts[..i]);
      assert Signals(tableId, i + 1) == Signals(tableId, i) + [Publication(tableId, Signal)];
      i := i + 1;
    }
    assert texts[..i] == texts;
  }

  /**
   * The waiting loop of `begin`: `ownedAt[k]` is the set of wallets that
   * `hasOwned` reports at round `k`. The loop stops at the first round in
   * which every player owns cards, and after `MaxPolls` rounds at the latest.
   */
  method Poll(players: seq<string>, ownedAt: seq<set<string>>) returns (polls: nat)
    requires |ownedAt| == MaxPolls
    ensures 1 <= polls <= MaxPolls
    ensures forall k :: 0 <= k < polls - 1 ==> !AllOwned(players, ownedAt[k])
    ensures polls < MaxPolls ==> AllOwned(players, ownedAt[polls - 1])
  {
    polls := 0;
    while polls < MaxPolls
      invariant 0 <= polls <= MaxPolls
      invariant forall k :: 0 <= k < polls ==> !AllOwned(players, ownedAt[k])
    {
      polls := polls + 1;
      if AllOwned(players, ownedAt[polls - 1]) {
        return;
      }
    }
  }

  /** The chat log after a refused `begin`. */
  lemma InvalidReportOrdered(z: seq<ZEntry>, c: int, tableId: string, players: seq<string>)
    requires ChatOrdered(z, c)
    ensures var j := LogMsgs(z, c, Notices(tableId, InvalidTexts(players)));
      ChatOrdered(j, c + |players| + 1) && j != [] &&
      j[|j| - 1] == ZEntry(c + |players| + 1, ChatMsg(tableId, InvalidTexts(players)[|players|], None))
  {
    var texts := InvalidTexts(players);
    var msgs := Notices(tableId, texts);
    assert |msgs| == |players| + 1;
    assert msgs[|msgs| - 1] == ChatMsg(tableId, texts[|players|], None);
    LogMsgsOrdered(z, c, msgs);
    LogMsgsNewest(z, c, msgs);
  }

  /** The broadcast that shows `card` to the table. */
  function RevealOne(tableId: string, card: GameCard): Publication
  {
    Publication(tableId, Store.Broadcast(TableMsg("revealCards", [CardList([card])], None)))
  }

  /** `revealCard(tableId, card)`: `revealCards` of that one card. */
  method RevealCard(db: Redis, tableId: string, card: GameCard)
    modifies db
    ensures db.published == old(db.published) + [RevealOne(tableId, card)]
    ensures db.counters == old(db.counters) && db.sets == old(db.sets) && db.hashes == old(db.hashes)
    ensures db.zsets == old(db.zsets) && db.lists == old(db.lists)
  {
    RevealCards(db, tableId, [card]);
  }

  /** The `beginGame` announcement of the game `name`. */
  function BeginGame(tableId: string, name: string): Publication
  {
    Publication(tableId, Store.Broadcast(TableMsg("beginGame", [Text(name)], None)))
  }

  /**
   * `CardGame`: the name and player bounds the concrete game supplies, the
   * table it runs on, the players read by `begin` and the draw handler.
   */
  class CardGame<H> {
    const name: string
    const minPlayers: nat
    const maxPlayers: nat
    const tableId: string
    /** The channel the game's subscriber listens on. */
    const drawChannel: string
    var players: seq<string>
    var handler: Option<H>

    constructor (name: string, minPlayers: nat, maxPlayers: nat, tableId: string)
      ensures this.name == name && this.minPlayers == minPlayers && this.maxPlayers == maxPlayers
      ensures this.tableId == tableId && drawChannel == tableId + ":drawCard"
      ensures players == [] && handler == None
    {
      this.name, this.minPlayers, this.maxPlayers := name, minPlayers, maxPlayers;
      this.tableId := tableId;
      drawChannel := tableId + ":drawCard";
      players := [];
      handler := None;
    }

    /** `onDrawCard(fn)`: replaces the handler. */
    method OnDrawCard(fn: H)
      modifies this`handler
      ensures handler == Some(fn)
    {
      handler := Some(fn);
    }

    /** A message on the draw channel: the handler to run, if one is registered. */
    method DrawRequested(channel: string) returns (run: Option<H>)
      ensures channel == drawChannel && handler.Some? <==> run.Some?
      ensures run.Some? ==> run == handler
    {
      run := if channel == drawChannel then handler else None;
    }

    /**
     * `begin()`: the table's players are read into `players`; a count
     * outside `[minPlayers, maxPlayers]` is reported in the chat and
     * refused; otherwise `beginGame` is broadcast and the loop polls.
     */
    method Begin(db: Redis, members: seq<string>, ownedAt: seq<set<string>>) returns (ok: bool, polls: nat)
      requires |ownedAt| == MaxPolls
      requires Enumerates(members, GetPlayers(db, tableId))
      modifies this`players, db
      ensures players == members
      ensures ok <==> minPlayers <= |members| <= maxPlayers
      ensures !ok ==> (polls == 0 &&
        db.ZSet(ChatKey(tableId)) == LogMsgs(old(db.ZSet(ChatKey(tableId))), old(db.Counter(MsgCounterKey(tableId))),
                                             Notices(tableId, InvalidTexts(members))) &&
        db.Counter(MsgCounterKey(tableId)) == old(db.Counter(MsgCounterKey(tableId))) + |members| + 1 &&
        db.published == old(db.published) + Signals(tableId, |members| + 1))
      ensures !ok ==> ((forall k :: k != ChatKey(tableId) ==> db.ZSet(k) == old(db.ZSet(k))) &&
        (forall k :: k != MsgCounterKey(tableId) ==> db.Counter(k) == old(db.Counter(k))))
      ensures ok ==> db.published == old(db.published) + [BeginGame(tableId, name)]
      ensures ok ==> db.zsets == old(db.zsets) && db.counters == old(db.counters)
      ensures ok ==> (1 <= polls <= MaxPolls &&
        (forall k :: 0 <= k < polls - 1 ==> !AllOwned(members, ownedAt[k])) &&
        (polls < MaxPolls ==> AllOwned(members, ownedAt[polls - 1])))
      ensures db.hashes == old(db.hashes) && db.sets == old(db.sets) && db.lists == old(db.lists)
    {
      players := members;
      if |players| < minPlayers || |players| > maxPlayers {
        BroadcastMsgs(db, tableId, InvalidTexts(players));
        return false, 0;
      }
      CardTable.Broadcast(db, tableId, "beginGame", [Text(name)]);
      polls := Poll(players, ownedAt);
      ok := true;
    }
  }
}
