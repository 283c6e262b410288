/**
 * The free functions src/connection.ts exports to the table code: a
 * user's display name and the per-user event channel.
 */
module Users {
  import opened Store

  /** `getUserName`: the cached `name` field, "Unknown" when there is none. */
  function UserNameIn(hashes: map<string, map<string, string>>, userId: string): string
  {
    if userId in hashes && "name" in hashes[userId] then hashes[userId]["name"] else "Unknown"
  }

  function GetUserName(db: Redis, userId: string): string
    reads db`hashes
  {
    UserNameIn(db.hashes, userId)
  }

  /** `sendEvent(userId, event, payload)`: published on the user's own channel. */
  method SendEvent(db: Redis, userId: string, event: string, payload: Arg)
    modifies db
    ensures db.published == old(db.published) + [Publication(userId, UserEvent(event, payload))]
    ensures db.counters == old(db.counters) && db.sets == old(db.sets) && db.hashes == old(db.hashes)
    ensures db.zsets == old(db.zsets) && db.lists == old(db.lists)
  {
    db.Publish(userId, UserEvent(event, payload));
  }
}

/**
 * One socket connection of src/connection.ts. The socket is the log of
 * what was emitted to it; the two Redis subscriber clients are the
 * channels they listen on. The chat cursor `last` is the variable the
 * `onMsg` closure of `setTable` captures.
 */
module Connection {
  import opened Wrappers
  import opened Store
  import opened Users
  import opened CardTable

  /** One `socket.emit(event, ...args)`. */
  datatype Emit = Emit(event: string, args: seq<Arg>)

  /** A table id that is set and not the empty string, as `if (tableId)` reads it. */
  predicate Truthy(t: Option<string>)
  {
    t.Some? && t.value != ""
  }

  const PendingKey: string := "pendingTable"
  const NoWallet: string := "You must choose a wallet before setting your name."
  const Waiting: string := "Waiting for another player..."

  /** What `handleMsg` shows for one message: nothing to the excluded user. */
  function Shown(m: TableMsg, userId: string): (r: seq<Emit>)
    ensures r == [] <==> m.exclude == Some(userId)
  {
    if m.exclude == Some(userId) then [] else [Emit(m.event, m.args)]
  }

  function ShownAll(entries: seq<ZEntry>, userId: string): seq<Emit>
    decreases |entries|
  {
    if entries == [] then []
    else ShownAll(entries[..|entries| - 1], userId) + Shown(entries[|entries| - 1].value, userId)
  }

  // ---- the cursor ----------------------------------------------------------

  /** The cursor after the loop of `onMsg` has gone over `entries`. */
  function Cursor(entries: seq<ZEntry>, last: int): int
    decreases |entries|
  {
    if entries == [] then last
    else
      var l := Cursor(entries[..|entries| - 1], last);
      if entries[|entries| - 1].score <= l then l else entries[|entries| - 1].score
  }

  /** The entries that loop hands to `handleMsg`, in order. */
  function Delivered(entries: seq<ZEntry>, last: int): seq<ZEntry>
    decreases |entries|
  {
    if entries == [] then []
    else
      var e := entries[|entries| - 1];
      var d := Delivered(entries[..|entries| - 1], last);
      if e.score <= Cursor(entries[..|entries| - 1], last) then d else d + [e]
  }

  /**
   * Whatever the fetched entries are, the delivered ones come in strictly
   * increasing score order, all above the starting cursor, and the cursor
   * ends on the last of them.
   */
  lemma {:induction false} DeliveredIncreasing(entries: seq<ZEntry>, last: int)
    ensures var d := Delivered(entries, last);
      (forall i, j :: 0 <= i < j < |d| ==> d[i].score < d[j].score) &&
      (forall i :: 0 <= i < |d| ==> last < d[i].score <= Cursor(entries, last)) &&
      (d == [] ==> Cursor(entries, last) == last) &&
      (d != [] ==> Cursor(entries, last) == d[|d| - 1].score) &&
      (forall e :: e in d ==> e in entries)
    decreases |entries|
  {
    if entries != [] {
      var p := entries[..|entries| - 1];
      DeliveredIncreasing(p, last);
      assert forall e :: e in p ==> e in entries;
    }
  }

  /** One more fetched entry: delivered exactly when it scores above the cursor. */
  lemma CursorStep(p: seq<ZEntry>, e: ZEntry, last: int, userId: string)
    ensures Cursor(p + [e], last) == (if e.score <= Cursor(p, last) then Cursor(p, last) else e.score)
    ensures Delivered(p + [e], last) == (if e.score <= Cursor(p, last) then Delivered(p, last) else Delivered(p, last) + [e])
    ensures ShownAll(Delivered(p, last) + [e], userId) == ShownAll(Delivered(p, last), userId) + Shown(e.value, userId)
  {
    assert (p + [e])[..|p|] == p;
    var d := Delivered(p, last);
    assert (d + [e])[..|d|] == d;
  }

  /** The cursor and the log after one more entry, in the form a delivery loop keeps them. */
  lemma DeliveredStep(p: seq<ZEntry>, e: ZEntry, last: int, userId: string, base: seq<Emit>, log: seq<Emit>)
    requires log == base + ShownAll(Delivered(p, last), userId)
    ensures var l := Cursor(p, last);
      Cursor(p + [e], last) == (if e.score <= l then l else e.score) &&
      base + ShownAll(Delivered(p + [e], last), userId) == log + (if e.score <= l then [] else Shown(e.value, userId))
  {
    CursorStep(p, e, last, userId);
    if e.score > Cursor(p, last) {
      assert base + (ShownAll(Delivered(p, last), userId) + Shown(e.value, userId)) == log + Shown(e.value, userId);
    }
  }

  /**
   * No message is delivered twice: whatever a later fetch returns, what it
   * delivers scores above everything an earlier fetch delivered.
   */
  lemma NoRedelivery(first: seq<ZEntry>, second: seq<ZEntry>, last: int)
    ensures var d1 := Delivered(first, last);
      var d2 := Delivered(second, Cursor(first, last));
      forall i, j :: 0 <= i < |d1| && 0 <= j < |d2| ==> d1[i].score < d2[j].score
  {
    DeliveredIncreasing(first, last);
    DeliveredIncreasing(second, Cursor(first, last));
  }

  /** Entries in strictly increasing order, all above the cursor, are every one delivered. */
  lemma {:induction false} DeliveredAll(entries: seq<ZEntry>, last: int)
    requires Strict(entries)
    requires forall i :: 0 <= i < |entries| ==> last < entries[i].score
    ensures Delivered(entries, last) == entries
    ensures entries != [] ==> Cursor(entries, last) == entries[|entries| - 1].score
    ensures entries == [] ==> Cursor(entries, last) == last
    decreases |entries|
  {
    if entries != [] {
      var p, e := entries[..|entries| - 1], entries[|entries| - 1];
      assert Strict(p) by {
        forall i, j | 0 <= i < j < |p| ensures p[i].score < p[j].score {
          assert p[i] == entries[i] && p[j] == entries[j];
        }
      }
      DeliveredAll(p, last);
      assert Cursor(p, last) < e.score by {
        if p != [] {
          assert p[|p| - 1] == entries[|entries| - 2];
        }
      }
      assert entries == p + [e];
    }
  }

  /**
   * On a table log kept by `broadcastMsg`, fetching from `last + 1`
   * delivers every logged message above the cursor, oldest first, and
   * leaves the cursor on the newest.
   */
  lemma CursorDeliversLog(z: seq<ZEntry>, counter: int, last: int)
    requires ChatOrdered(z, counter)
    ensures var r := ZRange(z, Some(last + 1), None);
      Delivered(r, last) == r &&
      (forall e :: e in r <==> e in z && last < e.score) &&
      (r != [] ==> Cursor(r, last) == r[|r| - 1].score)
  {
    var r := ZRange(z, Some(last + 1), None);
    ZRangeStrict(z, Some(last + 1), None);
    ZRangeMembers(z, Some(last + 1), None);
    forall i | 0 <= i < |r| ensures last < r[i].score {
      assert r[i] in r;
    }
    DeliveredAll(r, last);
  }

  // ---- the connection ------------------------------------------------------

  class Connection {
    /** The wallet address; "" until `setWallet`. */
    var userId: string
    var tableId: Option<string>
    /** The chat cursor of the current table. */
    var last: int
    /** The channel the `sub` client listens on (the user's own). */
    var userSub: Option<string>
    /** The channel the `msg` client listens on (the table's). */
    var tableSub: Option<string>
    /** Everything emitted on the socket, oldest first. */
    var emitted: seq<Emit>

    /** The table client listens exactly on the current table, when there is one. */
    predicate Valid()
      reads this
    {
      tableSub == (if Truthy(tableId) then tableId else None)
    }

    constructor ()
      ensures Valid()
      ensures userId == "" && tableId.None? && userSub.None? && tableSub.None? && emitted == []
    {
      userId, tableId, last, userSub, tableSub, emitted := "", None, -1, None, None, [];
    }

    /** `verifyUserId()`: false, with a notice, exactly when no wallet is set. */
    method VerifyUserId() returns (ok: bool)
      modifies this
      ensures ok <==> userId != ""
      ensures emitted == old(emitted) + (if ok then [] else [Emit("msg", [Text(NoWallet)])])
      ensures userId == old(userId) && tableId == old(tableId) && last == old(last)
      ensures userSub == old(userSub) && tableSub == old(tableSub)
    {
      ok := userId != "";
      if !ok {
        emitted := emitted + [Emit("msg", [Text(NoWallet)])];
      }
    }

    /** `handleMsg(msg)`: emitted unless this user is the excluded one. */
    method HandleMsg(m: TableMsg)
      modifies this
      ensures emitted == old(emitted) + Shown(m, userId)
      ensures userId == old(userId) && tableId == old(tableId) && last == old(last)
      ensures userSub == old(userSub) && tableSub == old(tableSub)
    {
      if m.exclude == Some(userId) {
        return;
      }
      emitted := emitted + [Emit(m.event, m.args)];
    }

    /**
     * The `onMsg` handler of the current table: on the "msg" signal
     * (`None`) it fetches the log from `last + 1` and delivers each entry
     * above the cursor; a broadcast is shown directly.
     */
    method OnMsg(db: Redis, signal: Option<TableMsg>)
      requires Truthy(tableId)
      modifies this
      ensures userId == old(userId) && tableId == old(tableId)
      ensures userSub == old(userSub) && tableSub == old(tableSub)
      ensures signal.None? ==>
        var fetched := GetMessages(db, tableId.value, Some(old(last) + 1), None);
        last == Cursor(fetched, old(last)) &&
        emitted == old(emitted) + ShownAll(Delivered(fetched, old(last)), userId)
      ensures signal.Some? ==> emitted == old(emitted) + Shown(signal.value, userId) && last == old(last)
    {
      if signal.Some? {
        HandleMsg(signal.value);
        return;
      }
      var msgs := GetMessages(db, tableId.value, Some(last + 1), None);
      Deliver(msgs);
    }

    /** One fetched entry: skipped at or below the cursor, otherwise it moves the cursor and is handled. */
    method DeliverOne(e: ZEntry)
      modifies this
      ensures last == (if e.score <= old(last) then old(last) else e.score)
      ensures emitted == old(emitted) + (if e.score <= old(last) then [] else Shown(e.value, userId))
      ensures userId == old(userId) && tableId == old(tableId)
      ensures userSub == old(userSub) && tableSub == old(tableSub)
    {
      if e.score <= last {
        return;
      }
      last := e.score;
      HandleMsg(e.value);
    }

    /** The loop of `onMsg` over the fetched entries: each one above the cursor advances it and is handled. */
    method Deliver(msgs: seq<ZEntry>)
      modifies this
      ensures last == Cursor(msgs, old(last))
      ensures emitted == old(emitted) + ShownAll(Delivered(msgs, old(last)), userId)
      ensures userId == old(userId) && tableId == old(tableId)
      ensures userSub == old(userSub) && tableSub == old(tableSub)
    {
      ghost var last0, emitted0, user := last, emitted, userId;
      var i := 0;
      while i < |msgs|
        invariant 0 <= i <= |msgs|
        invariant last == Cursor(msgs[..i], last0)
        invariant emitted == emitted0 + ShownAll(Delivered(msgs[..i], last0), user)
        invariant userId == user && tableId == old(tableId)
        invariant userSub == old(userSub) && tableSub == old(tableSub)
      {
        var e := msgs[i];
        assert msgs[..i + 1] == msgs[..i] + [e];
        DeliveredStep(msgs[..i], e, last0, user, emitted0, emitted);
        DeliverOne(e);
        i := i + 1;
      }
      assert msgs[..i] == msgs;
    }

    /**
     * `setTable(tableId)`: stops listening on the previous table, and for a
     * table that is set, starts a cursor at -1, listens on the table and
     * delivers what is already logged.
     */
    method SetTable(db: Redis, t: Option<string>)
      requires Valid()
      modifies this
      ensures Valid()
      ensures tableId == t
      ensures !Truthy(t) ==> emitted == old(emitted) && last == old(last)
      ensures Truthy(t) ==>
        var fetched := GetMessages(db, t.value, Some(0), None);
        last == Cursor(fetched, -1) && emitted == old(emitted) + ShownAll(Delivered(fetched, -1), userId)
      ensures userId == old(userId) && userSub == old(userSub)
    {
      if Truthy(tableId) {
        tableSub := None;
      }
      tableId := t;
      if !Truthy(t) {
        return;
      }
      last := -1;
      tableSub := t;
      OnMsg(db, None);
    }

    /** `handleEvent(event, payload)` for an event sent on the user's channel. */
    method HandleEvent(db: Redis, event: string, payload: Arg)
      requires Valid()
      requires event == "setTable" ==> payload.Text?
      modifies this
      ensures Valid()
      ensures event == "setTable" ==> tableId == Some(payload.text)
      ensures event == "setTable" && payload.text == "" ==> emitted == old(emitted) && last == old(last)
      ensures event == "setTable" && payload.text != "" ==>
        var fetched := GetMessages(db, payload.text, Some(0), None);
        last == Cursor(fetched, -1) && emitted == old(emitted) + ShownAll(Delivered(fetched, -1), userId)
      ensures event != "setTable" ==>
        emitted == old(emitted) + [Emit(event, [payload])] &&
        tableId == old(tableId) && last == old(last) && tableSub == old(tableSub)
      ensures userId == old(userId) && userSub == old(userSub)
    {
      if event == "setTable" {
        SetTable(db, Some(payload.text));
      } else if event == "revealCards" {
        RevealCards(payload);
      } else {
        emitted := emitted + [Emit(event, [payload])];
      }
    }

    /** `revealCards(cards)`: passed on to the socket. */
    method RevealCards(cards: Arg)
      modifies this
      ensures emitted == old(emitted) + [Emit("revealCards", [cards])]
      ensures userId == old(userId) && tableId == old(tableId) && last == old(last)
      ensures userSub == old(userSub) && tableSub == old(tableSub)
    {
      emitted := emitted + [Emit("revealCards", [cards])];
    }

    /** The `userName` handler: a welcome and the name cached under the wallet. */
    method UserName(db: Redis, name: string)
      modifies this, db
      ensures userId == "" ==> emitted == old(emitted) + [Emit("msg", [Text(NoWallet)])] && db.hashes == old(db.hashes)
      ensures userId != "" ==>
        emitted == old(emitted) + [Emit("msg", [Text("Welcome " + name + "!")])] &&
        db.Field(userId, "name") == Some(name) &&
        db.hashes == old(db.hashes)[userId :=
          (if userId in old(db.hashes) then old(db.hashes)[userId] else map[])["name" := name]]
      ensures db.counters == old(db.counters) && db.sets == old(db.sets) && db.zsets == old(db.zsets)
      ensures db.lists == old(db.lists) && db.published == old(db.published)
      ensures userId == old(userId) && tableId == old(tableId) && tableSub == old(tableSub) && last == old(last)
    {
      var ok := VerifyUserId();
      if !ok {
        return;
      }
      emitted := emitted + [Emit("msg", [Text("Welcome " + name + "!")])];
      db.HSet(userId, "name", name);
    }

    /** The `chat` handler: the line goes to the table's log when seated, else back to the socket. */
    method Chat(db: Redis, msg: string)
      modifies this, db
      ensures userId == old(userId) && tableId == old(tableId) && tableSub == old(tableSub)
      ensures var name := UserNameIn(old(db.hashes), userId);
        var line := if name != "" then name + ": " + msg else msg;
        (Truthy(tableId) ==>
          db.zsets == old(db.zsets)[ChatKey(tableId.value) :=
            ZAdd(old(db.ZSet(ChatKey(tableId.value))), old(db.Counter(MsgCounterKey(tableId.value))) + 1,
                 ChatMsg(tableId.value, line, None))] &&
          db.counters == old(db.counters)[MsgCounterKey(tableId.value) := old(db.Counter(MsgCounterKey(tableId.value))) + 1] &&
          db.published == old(db.published) + [Publication(tableId.value, Signal)] &&
          emitted == old(emitted)) &&
        (!Truthy(tableId) ==>
          emitted == old(emitted) + [Emit("msg", [Text(line)])] && db.zsets == old(db.zsets) &&
          db.counters == old(db.counters) && db.published == old(db.published))
      ensures db.sets == old(db.sets) && db.hashes == old(db.hashes) && db.lists == old(db.lists)
      ensures last == old(last)
    {
      var name := GetUserName(db, userId);
      var line := msg;
      if name != "" {
        line := name + ": " + msg;
      }
      if Truthy(tableId) {
        BroadcastMsg(db, tableId.value, line, None);
      } else {
        emitted := emitted + [Emit("msg", [Text(line)])];
      }
    }

    /** `setWaiting(game)`: this user joins the head of the queue. */
    method SetWaiting(db: Redis)
      modifies db
      ensures db.lists == old(db.lists)[PendingKey := [userId] + old(db.List(PendingKey))]
      ensures db.counters == old(db.counters) && db.sets == old(db.sets) && db.hashes == old(db.hashes)
      ensures db.zsets == old(db.zsets) && db.published == old(db.published)
    {
      db.LPush(PendingKey, userId);
    }

    /**
     * `getNextWaiting()`: the user at the tail of the queue, the one who
     * has waited longest. An empty entry is consumed and reads as nobody.
     */
    method GetNextWaiting(db: Redis) returns (w: Option<string>)
      modifies db
      ensures var l := old(db.List(PendingKey));
        (l == [] ==> w.None? && db.lists == old(db.lists)) &&
        (l != [] ==>
          w == (if l[|l| - 1] == "" then None else Some(l[|l| - 1])) &&
          db.lists == old(db.lists)[PendingKey := l[..|l| - 1]])
      ensures db.counters == old(db.counters) && db.sets == old(db.sets) && db.hashes == old(db.hashes)
      ensures db.zsets == old(db.zsets) && db.published == old(db.published)
    {
      var pending := db.RPop(PendingKey);
      if pending.None? || pending.value == "" {
        return None;
      }
      return pending;
    }

    /** The pairing of `playOnline`: a new table for the waiting user and this one, in that order. */
    method Pair(db: Redis, other: string) returns (table: string)
      modifies db
      ensures table == TableId(old(db.Counter(NextTableIdKey)) + 1)
      ensures db.Field(other, "table") == Some(table) && db.Field(userId, "table") == Some(table)
      ensures forall k :: k != NextTableIdKey && k != MsgCounterKey(table) ==> db.Counter(k) == old(db.Counter(k))
      ensures forall k :: k != ChatKey(table) ==> db.ZSet(k) == old(db.ZSet(k))
      ensures db.sets == old(db.sets)[PlayersKey(table) := old(db.Members(PlayersKey(table))) + {other, userId}]
      ensures forall k, f :: f != "table" || (k != other && k != userId) ==> db.Field(k, f) == old(db.Field(k, f))
      ensures db.ZSet(ChatKey(table)) ==
        LogMsgs(old(db.ZSet(ChatKey(table))), old(db.Counter(MsgCounterKey(table))), JoinMsgs(table, [other, userId], old(db.hashes)))
      ensures db.published == old(db.published) + SetTableEvents([other, userId], table) + Signals(table, 2)
      ensures db.lists == old(db.lists)
    {
      table := NewTable(db, [other, userId]);
      assert (set u | u in [other, userId]) == {other, userId};
    }

    /**
     * The waiting-queue half of `playOnline`: the user who has waited
     * longest is taken off the queue and, unless the entry is empty,
     * seated with this user at a new table.
     */
    method TakePartner(db: Redis) returns (table: Option<string>)
      modifies db
      ensures var l := old(db.List(PendingKey));
        l != [] && l[|l| - 1] != "" ==>
          var t := TableId(old(db.Counter(NextTableIdKey)) + 1); var w := l[|l| - 1];
          table == Some(t) &&
          db.Field(w, "table") == table && db.Field(userId, "table") == table &&
          (forall k :: k != NextTableIdKey && k != MsgCounterKey(t) ==> db.Counter(k) == old(db.Counter(k))) &&
          (forall k :: k != ChatKey(t) ==> db.ZSet(k) == old(db.ZSet(k))) &&
          db.sets == old(db.sets)[PlayersKey(t) := old(db.Members(PlayersKey(t))) + {w, userId}] &&
          (forall k, f :: f != "table" || (k != w && k != userId) ==> db.Field(k, f) == old(db.Field(k, f))) &&
          db.ZSet(ChatKey(t)) ==
            LogMsgs(old(db.ZSet(ChatKey(t))), old(db.Counter(MsgCounterKey(t))), JoinMsgs(t, [w, userId], old(db.hashes))) &&
          db.published == old(db.published) + SetTableEvents([w, userId], t) + Signals(t, 2) &&
          db.lists == old(db.lists)[PendingKey := l[..|l| - 1]]
      ensures var l := old(db.List(PendingKey));
        (l == [] || l[|l| - 1] == "") ==>
          table.None? &&
          db.List(PendingKey) == (if l == [] then [] else l[..|l| - 1]) &&
          db.counters == old(db.counters) && db.sets == old(db.sets) && db.hashes == old(db.hashes) &&
          db.zsets == old(db.zsets) && db.published == old(db.published)
    {
      var waiting := GetNextWaiting(db);
      if waiting.None? {
        return None;
      }
      var t := Pair(db, waiting.value);
      return Some(t);
    }

    /**
     * The `playOnline` handler: with a wallet set, pairs with the user who
     * has waited longest, seating that user first, or else joins the queue.
     */
    method PlayOnline(db: Redis) returns (table: Option<string>)
      modifies this, db
      ensures userId == "" ==>
        table.None? && emitted == old(emitted) + [Emit("msg", [Text(NoWallet)])] &&
        db.counters == old(db.counters) && db.sets == old(db.sets) && db.hashes == old(db.hashes) &&
        db.zsets == old(db.zsets) && db.lists == old(db.lists) && db.published == old(db.published)
      ensures var l := old(db.List(PendingKey));
        userId != "" && l != [] && l[|l| - 1] != "" ==>
          table == Some(TableId(old(db.Counter(NextTableIdKey)) + 1)) &&
          emitted == old(emitted) &&
          db.Field(l[|l| - 1], "table") == table && db.Field(userId, "table") == table &&
          (forall k :: k != NextTableIdKey && k != MsgCounterKey(table.value) ==> db.Counter(k) == old(db.Counter(k))) &&
          (forall k :: k != ChatKey(table.value) ==> db.ZSet(k) == old(db.ZSet(k))) &&
          db.published == old(db.published) + SetTableEvents([l[|l| - 1], userId], table.value) + Signals(table.value, 2) &&
          db.lists == old(db.lists)[PendingKey := l[..|l| - 1]]
      ensures var l := old(db.List(PendingKey));
        userId != "" && l != [] && l[|l| - 1] != "" ==>
          var t := table.value; var w := l[|l| - 1];
          db.sets == old(db.sets)[PlayersKey(t) := old(db.Members(PlayersKey(t))) + {w, userId}] &&
          (forall k, f :: f != "table" || (k != w && k != userId) ==> db.Field(k, f) == old(db.Field(k, f))) &&
          db.ZSet(ChatKey(t)) ==
            LogMsgs(old(db.ZSet(ChatKey(t))), old(db.Counter(MsgCounterKey(t))), JoinMsgs(t, [w, userId], old(db.hashes)))
      ensures var l := old(db.List(PendingKey));
        userId != "" && (l == [] || l[|l| - 1] == "") ==>
          table.None? &&
          db.List(PendingKey) == [userId] + (if l == [] then [] else l[..|l| - 1]) &&
          emitted == old(emitted) + [Emit("msg", [Text(Waiting)])] &&
          db.counters == old(db.counters) && db.sets == old(db.sets) && db.hashes == old(db.hashes) &&
          db.zsets == old(db.zsets) && db.published == old(db.published)
      ensures userId == old(userId) && tableId == old(tableId) && tableSub == old(tableSub)
    {
      var ok := VerifyUserId();
      if !ok {
        return None;
      }
      ghost var l, n, h := db.List(PendingKey), db.Counter(NextTableIdKey), db.hashes;
      ghost var t := TableId(n + 1);
      ghost var z, c := db.ZSet(ChatKey(t)), db.Counter(MsgCounterKey(t));
      table := TakePartner(db);
      if l != [] && l[|l| - 1] != "" {
        assert db.ZSet(ChatKey(t)) == LogMsgs(z, c, JoinMsgs(t, [l[|l| - 1], userId], h));
      }
      if table.None? {
        SetWaiting(db);
        emitted := emitted + [Emit("msg", [Text(Waiting)])];
      }
    }

    /** The `drawCard` handler: the request is published on `<userId>:drawCard`. */
    method DrawCard(db: Redis)
      modifies db
      ensures db.published == old(db.published) + [Publication(userId + ":drawCard", Blank)]
      ensures db.counters == old(db.counters) && db.sets == old(db.sets) && db.hashes == old(db.hashes)
      ensures db.zsets == old(db.zsets) && db.lists == old(db.lists)
    {
      db.Publish(userId + ":drawCard", Blank);
    }
  }
}
