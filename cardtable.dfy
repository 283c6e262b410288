/**
 * The Redis-backed table of src/cardtable.ts: a table id drawn from a
 * global counter, the table's player set, and a chat log kept as a sorted
 * set scored by a per-table counter, with a "msg" signal published on the
 * table's channel after each entry.
 */
module CardTable {
  import opened Wrappers
  import opened Decks
  import opened Store
  import opened Users

  // ---- decimal text of a number (template literals) ----------------------

  function Digit(d: nat): (c: char)
    requires d < 10
    ensures '0' <= c <= '9'
  {
    "0123456789"[d]
  }

  /** The decimal digits of `n`, most significant first, no leading zeros. */
  function NatToString(n: nat): (s: string)
    ensures |s| >= 1 && (n >= 10 <==> |s| >= 2)
    ensures forall i :: 0 <= i < |s| ==> '0' <= s[i] <= '9'
  {
    if n < 10 then [Digit(n)] else NatToString(n / 10) + [Digit(n % 10)]
  }

  /** `${n}` for an integer. */
  function IntToString(n: int): string
  {
    if n < 0 then "-" + NatToString(-n) else NatToString(n)
  }

  lemma DigitInjective(a: nat, b: nat)
    requires a < 10 && b < 10 && Digit(a) == Digit(b)
    ensures a == b
  {
  }

  /** Different numbers print differently. */
  lemma {:induction false} NatToStringInjective(n: nat, m: nat)
    requires NatToString(n) == NatToString(m)
    ensures n == m
    decreases n
  {
    if n >= 10 && m >= 10 {
      var s := NatToString(n);
      assert s[|s| - 1] == Digit(n % 10) && s[|s| - 1] == Digit(m % 10);
      DigitInjective(n % 10, m % 10);
      assert s[..|s| - 1] == NatToString(n / 10) == NatToString(m / 10);
      NatToStringInjective(n / 10, m / 10);
    } else if n < 10 && m < 10 {
      DigitInjective(n, m);
    }
  }

  /** Only a negative number prints with a leading '-'. */
  lemma IntToStringSign(n: int)
    ensures IntToString(n) != [] && (IntToString(n)[0] == '-' <==> n < 0)
  {
  }

  lemma IntToStringInjective(n: int, m: int)
    requires IntToString(n) == IntToString(m)
    ensures n == m
  {
    IntToStringSign(n);
    IntToStringSign(m);
    if n < 0 && m < 0 {
      assert NatToString(-n) == IntToString(n)[1..] == NatToString(-m);
      NatToStringInjective(-n, -m);
    } else if n >= 0 && m >= 0 {
      NatToStringInjective(n, m);
    } else {
      assert false;
    }
  }

  // ---- keys ----------------------------------------------------------------

  const NextTableIdKey: string := "nextTableId"

  /** `table:${id}`. */
  function TableId(id: int): string
  {
    "table:" + IntToString(id)
  }

  /** Successive counter values give distinct tables. */
  lemma TableIdInjective(a: int, b: int)
    requires TableId(a) == TableId(b)
    ensures a == b
  {
    assert IntToString(a) == TableId(a)[6..] == IntToString(b);
    IntToStringInjective(a, b);
  }

  function PlayersKey(tableId: string): string { tableId + ":players" }
  function MsgCounterKey(tableId: string): string { tableId + ":nextMsgId" }
  function ChatKey(tableId: string): string { tableId + ":chat" }

  /** The per-table counter is never the global one. */
  lemma CounterKeysDiffer(tableId: string)
    ensures TableId(0)[0] == 't' && (tableId != "" && tableId[0] == 't' ==> MsgCounterKey(tableId) != NextTableIdKey)
  {
    if tableId != "" && tableId[0] == 't' {
      assert MsgCounterKey(tableId)[0] == 't' && NextTableIdKey[0] == 'n';
    }
  }

  // ---- the chat log --------------------------------------------------------

  /** The entry `broadcastMsg(tableId, text, exclude)` writes: the text prefixed with `<tableId>> `. */
  function ChatMsg(tableId: string, text: string, exclude: Option<string>): TableMsg
  {
    TableMsg("msg", [Text(tableId + "> " + text)], exclude)
  }

  /**
   * A table's chat log as `broadcastMsg` keeps it: scores strictly
   * increasing, none above the table's message counter, each message once.
   */
  predicate ChatOrdered(z: seq<ZEntry>, counter: int)
  {
    Strict(z) && (forall i :: 0 <= i < |z| ==> z[i].score <= counter) && ZUnique(z)
  }

  lemma AppendStrict(z: seq<ZEntry>, e: ZEntry)
    requires Strict(z)
    requires forall i :: 0 <= i < |z| ==> z[i].score < e.score
    ensures Strict(z + [e])
  {
    forall i, j | 0 <= i < j < |z + [e]| ensures (z + [e])[i].score < (z + [e])[j].score {
      assert (z + [e])[i] == z[i];
    }
  }

  lemma AppendUnique(z: seq<ZEntry>, e: ZEntry)
    requires ZUnique(z)
    requires forall x :: x in z ==> x.value != e.value
    ensures ZUnique(z + [e])
  {
    forall i, j | 0 <= i < j < |z + [e]| ensures (z + [e])[i].value != (z + [e])[j].value {
      assert (z + [e])[i] == z[i] && z[i] in z;
    }
  }

  /**
   * Adding a message under the next counter value keeps the log ordered
   * and puts that message last: a later message always scores higher.
   */
  lemma ChatAppend(z: seq<ZEntry>, counter: int, m: TableMsg)
    requires ChatOrdered(z, counter)
    ensures ZAdd(z, counter + 1, m) == ZRemove(z, m) + [ZEntry(counter + 1, m)]
    ensures ChatOrdered(ZAdd(z, counter + 1, m), counter + 1)
  {
    var r := ZRemove(z, m);
    var e := ZEntry(counter + 1, m);
    ZRemoveMembers(z, m);
    forall i | 0 <= i < |r| ensures r[i].score < counter + 1 {
      assert r[i] in r;
      var k :| 0 <= k < |z| && z[k] == r[i];
    }
    ZInsertLast(r, e);
    ZRemoveStrict(z, m);
    ZRemoveUnique(z, m);
    AppendStrict(r, e);
    AppendUnique(r, e);
  }

  /** `getMessages(tableId, min, max)`: the table's log between the bounds, oldest first. */
  function GetMessages(db: Redis, tableId: string, min: Option<int>, max: Option<int>): seq<ZEntry>
    reads db`zsets
  {
    ZRange(db.ZSet(ChatKey(tableId)), min, max)
  }

  /** The members of the table's player set (`getPlayers`). */
  function GetPlayers(db: Redis, tableId: string): set<string>
    reads db`sets
  {
    db.Members(PlayersKey(tableId))
  }

  /** `broadcastMsg(tableId, text, exclude)`. */
  method BroadcastMsg(db: Redis, tableId: string, text: string, exclude: Option<string>)
    modifies db
    ensures db.counters == old(db.counters)[MsgCounterKey(tableId) := old(db.Counter(MsgCounterKey(tableId))) + 1]
    ensures db.zsets == old(db.zsets)[ChatKey(tableId) :=
      ZAdd(old(db.ZSet(ChatKey(tableId))), old(db.Counter(MsgCounterKey(tableId))) + 1, ChatMsg(tableId, text, exclude))]
    ensures db.published == old(db.published) + [Publication(tableId, Signal)]
    ensures db.sets == old(db.sets) && db.hashes == old(db.hashes) && db.lists == old(db.lists)
    ensures forall k :: k != MsgCounterKey(tableId) ==> db.Counter(k) == old(db.Counter(k))
    ensures forall k :: k != ChatKey(tableId) ==> db.ZSet(k) == old(db.ZSet(k))
  {
    var line := tableId + "> " + text;
    var id := db.Incr(MsgCounterKey(tableId));
    db.ZAddTo(ChatKey(tableId), id, TableMsg("msg", [Text(line)], exclude));
    db.Publish(tableId, Signal);
  }

  /** `broadcast(tableId, event, ...args)`: published directly, never logged. */
  method Broadcast(db: Redis, tableId: string, event: string, args: seq<Arg>)
    modifies db
    ensures db.published == old(db.published) + [Publication(tableId, Store.Broadcast(TableMsg(event, args, None)))]
    ensures db.counters == old(db.counters) && db.sets == old(db.sets) && db.hashes == old(db.hashes)
    ensures db.zsets == old(db.zsets) && db.lists == old(db.lists)
  {
    db.Publish(tableId, Store.Broadcast(TableMsg(event, args, None)));
  }

  /** `revealCards(tableId, cards)`. */
  method RevealCards(db: Redis, tableId: string, cards: seq<GameCard>)
    modifies db
    ensures db.published == old(db.published) +
      [Publication(tableId, Store.Broadcast(TableMsg("revealCards", [CardList(cards)], None)))]
    ensures db.counters == old(db.counters) && db.sets == old(db.sets) && db.hashes == old(db.hashes)
    ensures db.zsets == old(db.zsets) && db.lists == old(db.lists)
  {
    Broadcast(db, tableId, "revealCards", [CardList(cards)]);
  }

  // ---- newTable ------------------------------------------------------------

  /** The announcement for `userId` joining. */
  function JoinMsg(tableId: string, userId: string, hashes: map<string, map<string, string>>): TableMsg
  {
    ChatMsg(tableId, "Player " + UserNameIn(hashes, userId) + " has joined the table!", Some(userId))
  }

  /** The announcements for `users`, in seating order. */
  function JoinMsgs(tableId: string, users: seq<string>, hashes: map<string, map<string, string>>): (r: seq<TableMsg>)
    ensures |r| == |users|
  {
    seq(|users|, i requires 0 <= i < |users| => JoinMsg(tableId, users[i], hashes))
  }

  /** The chat log after `broadcastMsg` logs each of `msgs` in turn, from log `z` and counter `c`. */
  function LogMsgs(z: seq<ZEntry>, c: int, msgs: seq<TableMsg>): seq<ZEntry>
    decreases |msgs|
  {
    if msgs == [] then z
    else
      var n := |msgs| - 1;
      ZAdd(LogMsgs(z, c, msgs[..n]), c + n + 1, msgs[n])
  }

  /** Logging messages under successive counter values keeps the log ordered. */
  lemma {:induction false} LogMsgsOrdered(z: seq<ZEntry>, c: int, msgs: seq<TableMsg>)
    requires ChatOrdered(z, c)
    ensures ChatOrdered(LogMsgs(z, c, msgs), c + |msgs|)
    decreases |msgs|
  {
    if msgs != [] {
      var n := |msgs| - 1;
      var prev := LogMsgs(z, c, msgs[..n]);
      LogMsgsOrdered(z, c, msgs[..n]);
      ChatAppend(prev, c + n, msgs[n]);
      assert LogMsgs(z, c, msgs) == ZAdd(prev, c + n + 1, msgs[n]);
    }
  }

  /** The newest entry is the last message logged, under the counter's new value. */
  lemma LogMsgsNewest(z: seq<ZEntry>, c: int, msgs: seq<TableMsg>)
    requires ChatOrdered(z, c) && msgs != []
    ensures var j := LogMsgs(z, c, msgs); j != [] && j[|j| - 1] == ZEntry(c + |msgs|, msgs[|msgs| - 1])
  {
    var n := |msgs| - 1;
    var prev := LogMsgs(z, c, msgs[..n]);
    LogMsgsOrdered(z, c, msgs[..n]);
    ChatAppend(prev, c + n, msgs[n]);
    assert LogMsgs(z, c, msgs) == ZRemove(prev, msgs[n]) + [ZEntry(c + n + 1, msgs[n])];
  }

  /**
   * After `newTable`, the newest chat entry announces the last user seated
   * and names that user as the one not to show it to.
   */
  lemma JoinChatNewest(z: seq<ZEntry>, c: int, tableId: string, users: seq<string>,
                       hashes: map<string, map<string, string>>)
    requires ChatOrdered(z, c) && users != []
    ensures var j := LogMsgs(z, c, JoinMsgs(tableId, users, hashes));
      j != [] && j[|j| - 1].score == c + |users| &&
      j[|j| - 1].value.exclude == Some(users[|users| - 1])
  {
    LogMsgsNewest(z, c, JoinMsgs(tableId, users, hashes));
  }

  function SetTableEvents(users: seq<string>, tableId: string): (r: seq<Publication>)
    ensures |r| == |users|
  {
    seq(|users|, i requires 0 <= i < |users| => Publication(users[i], UserEvent("setTable", Text(tableId))))
  }

  function Signals(tableId: string, n: nat): (r: seq<Publication>)
    ensures |r| == n
  {
    seq(n, i => Publication(tableId, Signal))
  }

  /**
   * `newTable(userIds)`: the table is `table:<n>` for the incremented global
   * counter; every user is added to its player set, has the table stored
   * under its `table` field and is sent one `setTable` event; then every
   * user is announced in the chat, excluded from its own announcement.
   * The announcements run after the seating, as the `then` callbacks do.
   */
  method NewTable(db: Redis, userIds: seq<string>) returns (tableId: string)
    modifies db
    ensures tableId == TableId(old(db.Counter(NextTableIdKey)) + 1)
    ensures db.Counter(NextTableIdKey) == old(db.Counter(NextTableIdKey)) + 1
    ensures db.sets == old(db.sets)[PlayersKey(tableId) := old(db.Members(PlayersKey(tableId))) + set u | u in userIds]
    ensures forall u :: u in userIds ==> db.Field(u, "table") == Some(tableId)
    ensures forall k, f :: f != "table" || k !in userIds ==> db.Field(k, f) == old(db.Field(k, f))
    ensures db.published == old(db.published) + SetTableEvents(userIds, tableId) + Signals(tableId, |userIds|)
    ensures db.Counter(MsgCounterKey(tableId)) == old(db.Counter(MsgCounterKey(tableId))) + |userIds|
    ensures db.ZSet(ChatKey(tableId)) ==
      LogMsgs(old(db.ZSet(ChatKey(tableId))), old(db.Counter(MsgCounterKey(tableId))), JoinMsgs(tableId, userIds, old(db.hashes)))
    ensures forall k :: k != NextTableIdKey && k != MsgCounterKey(tableId) ==> db.Counter(k) == old(db.Counter(k))
    ensures forall k :: k != ChatKey(tableId) ==> db.ZSet(k) == old(db.ZSet(k))
    ensures db.lists == old(db.lists)
  {
    tableId := OpenTable(db, userIds);
    ghost var h1 := db.hashes;
    AnnounceUsers(db, tableId, userIds);
    JoinMsgsNames(tableId, userIds, old(db.hashes), h1);
  }

  /** `newTable` up to the welcome callbacks: the table id drawn, the players added and seated. */
  method OpenTable(db: Redis, userIds: seq<string>) returns (tableId: string)
    modifies db
    ensures tableId == TableId(old(db.Counter(NextTableIdKey)) + 1) && MsgCounterKey(tableId) != NextTableIdKey
    ensures db.counters == old(db.counters)[NextTableIdKey := old(db.Counter(NextTableIdKey)) + 1]
    ensures db.sets == old(db.sets)[PlayersKey(tableId) := old(db.Members(PlayersKey(tableId))) + set u | u in userIds]
    ensures forall u :: u in userIds ==> db.Field(u, "table") == Some(tableId)
    ensures forall k, f :: f != "table" || k !in userIds ==> db.Field(k, f) == old(db.Field(k, f))
    ensures forall k :: UserNameIn(db.hashes, k) == UserNameIn(old(db.hashes), k)
    ensures db.published == old(db.published) + SetTableEvents(userIds, tableId)
    ensures db.zsets == old(db.zsets) && db.lists == old(db.lists)
  {
    var id := db.Incr(NextTableIdKey);
    tableId := TableId(id);
    CounterKeysDiffer(tableId);
    assert tableId[0] == 't';
    db.SAdd(PlayersKey(tableId), userIds);
    SeatUsers(db, tableId, userIds);
  }

  /** The announcements depend on the users' names only. */
  lemma JoinMsgsNames(tableId: string, users: seq<string>, h0: map<string, map<string, string>>,
                      h1: map<string, map<string, string>>)
    requires forall k :: UserNameIn(h1, k) == UserNameIn(h0, k)
    ensures JoinMsgs(tableId, users, h1) == JoinMsgs(tableId, users, h0)
  {
  }

  /** The `forEach` of `newTable`: each user's `table` field set and one `setTable` event sent. */
  method SeatUsers(db: Redis, tableId: string, userIds: seq<string>)
    modifies db
    ensures forall u :: u in userIds ==> db.Field(u, "table") == Some(tableId)
    ensures forall k, f :: f != "table" || k !in userIds ==> db.Field(k, f) == old(db.Field(k, f))
    ensures forall k :: UserNameIn(db.hashes, k) == UserNameIn(old(db.hashes), k)
    ensures db.published == old(db.published) + SetTableEvents(userIds, tableId)
    ensures db.counters == old(db.counters) && db.sets == old(db.sets)
    ensures db.zsets == old(db.zsets) && db.lists == old(db.lists)
  {
    var i := 0;
    while i < |userIds|
      invariant 0 <= i <= |userIds|
      invariant forall u :: u in userIds[..i] ==> db.Field(u, "table") == Some(tableId)
      invariant forall k, f :: f != "table" || k !in userIds[..i] ==> db.Field(k, f) == old(db.Field(k, f))
      invariant db.published == old(db.published) + SetTableEvents(userIds[..i], tableId)
      invariant db.counters == old(db.counters) && db.sets == old(db.sets)
      invariant db.zsets == old(db.zsets) && db.lists == old(db.lists)
    {
      var u := userIds[i];
      db.HSet(u, "table", tableId);
      SendEvent(db, u, "setTable", Text(tableId));
      assert userIds[..i + 1] == userIds[..i] + [u];
      assert SetTableEvents(userIds[..i + 1], tableId) ==
        SetTableEvents(userIds[..i], tableId) + [Publication(u, UserEvent("setTable", Text(tableId)))];
      i := i + 1;
    }
    assert userIds[..i] == userIds;
    forall k ensures UserNameIn(db.hashes, k) == UserNameIn(old(db.hashes), k) {
      assert db.Field(k, "name") == old(db.Field(k, "name"));
    }
  }

  /** Announcing one more user adds its message to the log under the next counter value. */
  lemma JoinLogStep(z: seq<ZEntry>, c: int, tableId: string, users: seq<string>, i: nat,
                    hashes: map<string, map<string, string>>)
    requires i < |users|
    ensures LogMsgs(z, c, JoinMsgs(tableId, users[..i + 1], hashes)) ==
      ZAdd(LogMsgs(z, c, JoinMsgs(tableId, users[..i], hashes)), c + i + 1, JoinMsg(tableId, users[i], hashes))
  {
    assert JoinMsgs(tableId, users[..i + 1], hashes)[..i] == JoinMsgs(tableId, users[..i], hashes);
  }

  /** The welcome callbacks of `newTable`: one announcement per user, in seating order. */
  method AnnounceUsers(db: Redis, tableId: string, userIds: seq<string>)
    requires MsgCounterKey(tableId) != NextTableIdKey
    modifies db
    ensures db.published == old(db.published) + Signals(tableId, |userIds|)
    ensures db.Counter(MsgCounterKey(tableId)) == old(db.Counter(MsgCounterKey(tableId))) + |userIds|
    ensures forall k :: k != MsgCounterKey(tableId) ==> db.Counter(k) == old(db.Counter(k))
    ensures db.ZSet(ChatKey(tableId)) ==
      LogMsgs(old(db.ZSet(ChatKey(tableId))), old(db.Counter(MsgCounterKey(tableId))), JoinMsgs(tableId, userIds, old(db.hashes)))
    ensures forall k :: k != ChatKey(tableId) ==> db.ZSet(k) == old(db.ZSet(k))
    ensures db.hashes == old(db.hashes) && db.sets == old(db.sets) && db.lists == old(db.lists)
  {
    ghost var z0 := db.ZSet(ChatKey(tableId));
    ghost var c0 := db.Counter(MsgCounterKey(tableId));
    var i := 0;
    while i < |userIds|
      invariant 0 <= i <= |userIds|
      invariant db.hashes == old(db.hashes) && db.sets == old(db.sets) && db.lists == old(db.lists)
      invariant db.published == old(db.published) + Signals(tableId, i)
      invariant db.Counter(MsgCounterKey(tableId)) == c0 + i
      invariant forall k :: k != MsgCounterKey(tableId) ==> db.Counter(k) == old(db.Counter(k))
      invariant db.ZSet(ChatKey(tableId)) == LogMsgs(z0, c0, JoinMsgs(tableId, userIds[..i], old(db.hashes)))
      invariant forall k :: k != ChatKey(tableId) ==> db.ZSet(k) == old(db.ZSet(k))
    {
      JoinLogStep(z0, c0, tableId, userIds, i, old(db.hashes));
      assert Signals(tableId, i + 1) == Signals(tableId, i) + [Publication(tableId, Signal)];
      AnnounceUser(db, tableId, userIds[i]);
      i := i + 1;
    }
    assert userIds[..i] == userIds;
  }

  /** One welcome callback: the user's name is read and the join line broadcast. */
  method AnnounceUser(db: Redis, tableId: string, u: string)
    modifies db
    ensures db.published == old(db.published) + [Publication(tableId, Signal)]
    ensures db.Counter(MsgCounterKey(tableId)) == old(db.Counter(MsgCounterKey(tableId))) + 1
    ensures forall k :: k != MsgCounterKey(tableId) ==> db.Counter(k) == old(db.Counter(k))
    ensures db.ZSet(ChatKey(tableId)) ==
      ZAdd(old(db.ZSet(ChatKey(tableId))), old(db.Counter(MsgCounterKey(tableId))) + 1, JoinMsg(tableId, u, old(db.hashes)))
    ensures forall k :: k != ChatKey(tableId) ==> db.ZSet(k) == old(db.ZSet(k))
    ensures db.hashes == old(db.hashes) && db.sets == old(db.sets) && db.lists == old(db.lists)
  {
    var name := GetUserName(db, u);
    BroadcastMsg(db, tableId, "Player " + name + " has joined the table!", Some(u));
  }
}
