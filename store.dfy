/**
 * The part of Redis that the table, connection and game code rely on,
 * as one in-memory store: integer counters (`incr`), sets (`sAdd`,
 * `sMembers`), hashes (`hSet`, `hGet`, `hGetAll`), sorted sets (`zAdd`,
 * `zRangeByScoreWithScores`), lists (`lPush`, `rPop`) and a log of
 * everything published (`publish`). Each kind of value lives in its own
 * map, so a key used as a counter and as a hash are two different things.
 *
 * What travels is kept structured rather than as JSON text: a chat entry
 * or a broadcast is a `TableMsg`, the same value `JSON.stringify` would
 * write, and two messages are the same member of a sorted set exactly
 * when they are equal values.
 */
module Store {
  import opened Wrappers
  import opened Decks

  /** One argument of an emitted event: a string or a list of cards. */
  datatype Arg = Text(text: string) | CardList(cards: seq<GameCard>)

  /** `{event, args, exclude}` as written by `broadcastMsg` and `broadcast`. */
  datatype TableMsg = TableMsg(event: string, args: seq<Arg>, exclude: Option<string>)

  /**
   * What is published on a channel: the bare string "msg" that tells a
   * table's listeners to fetch the chat log, a broadcast to a table,
   * `{event, payload}` sent to one user, or the empty string.
   */
  datatype Payload = Signal | Broadcast(msg: TableMsg) | UserEvent(event: string, payload: Arg) | Blank

  datatype Publication = Publication(channel: string, payload: Payload)

  /** A sorted-set member with its score. */
  datatype ZEntry = ZEntry(score: int, value: TableMsg)

  // ---- sorted sets as sequences ------------------------------------------

  /** Entries are in non-decreasing score order. */
  predicate ZSorted(z: seq<ZEntry>)
  {
    forall i, j :: 0 <= i < j < |z| ==> z[i].score <= z[j].score
  }

  /** Scores strictly increase along the set. */
  predicate Strict(z: seq<ZEntry>)
  {
    forall i, j :: 0 <= i < j < |z| ==> z[i].score < z[j].score
  }

  /** No member occurs twice. */
  predicate ZUnique(z: seq<ZEntry>)
  {
    forall i, j :: 0 <= i < j < |z| ==> z[i].value != z[j].value
  }

  /** The well-formed sorted sets: ordered by score, each member once. */
  predicate ZValid(z: seq<ZEntry>)
  {
    ZSorted(z) && ZUnique(z)
  }

  /** `z` without the member `v`, order kept. */
  function ZRemove(z: seq<ZEntry>, v: TableMsg): seq<ZEntry>
  {
    if z == [] then []
    else if z[0].value == v then ZRemove(z[1..], v)
    else [z[0]] + ZRemove(z[1..], v)
  }

  /** `e` placed before the first entry with a higher score. */
  function ZInsert(z: seq<ZEntry>, e: ZEntry): seq<ZEntry>
  {
    if z == [] then [e]
    else if e.score < z[0].score then [e] + z
    else [z[0]] + ZInsert(z[1..], e)
  }

  /** `zAdd(key, {score, value})`: a member already present takes the new score. */
  function ZAdd(z: seq<ZEntry>, score: int, v: TableMsg): seq<ZEntry>
  {
    ZInsert(ZRemove(z, v), ZEntry(score, v))
  }

  predicate InBounds(score: int, min: Option<int>, max: Option<int>)
  {
    (min.None? || min.value <= score) && (max.None? || score <= max.value)
  }

  /** `zRangeByScore(min, max)`: the entries within the bounds, in stored order; `None` is infinite. */
  function ZRange(z: seq<ZEntry>, min: Option<int>, max: Option<int>): seq<ZEntry>
  {
    if z == [] then []
    else if InBounds(z[0].score, min, max) then [z[0]] + ZRange(z[1..], min, max)
    else ZRange(z[1..], min, max)
  }

  lemma Split(z: seq<ZEntry>)
    requires z != []
    ensures z == [z[0]] + z[1..]
    ensures forall x :: x in z <==> x == z[0] || x in z[1..]
  {
  }

  /** Removal keeps exactly the entries of other members. */
  lemma {:induction false} ZRemoveMembers(z: seq<ZEntry>, v: TableMsg)
    ensures forall e :: e in ZRemove(z, v) <==> e in z && e.value != v
    decreases |z|
  {
    if z != [] {
      Split(z);
      ZRemoveMembers(z[1..], v);
    }
  }

  /** Insertion adds the one entry and loses none. */
  lemma {:induction false} ZInsertMembers(z: seq<ZEntry>, e: ZEntry)
    ensures forall x :: x in ZInsert(z, e) <==> x == e || x in z
    ensures |ZInsert(z, e)| == |z| + 1
    decreases |z|
  {
    if z != [] {
      Split(z);
      ZInsertMembers(z[1..], e);
    }
  }

  /** The range is exactly the entries within the bounds. */
  lemma {:induction false} ZRangeMembers(z: seq<ZEntry>, min: Option<int>, max: Option<int>)
    ensures forall e :: e in ZRange(z, min, max) <==> e in z && InBounds(e.score, min, max)
    decreases |z|
  {
    if z != [] {
      Split(z);
      ZRangeMembers(z[1..], min, max);
    }
  }

  lemma SortedHead(z: seq<ZEntry>)
    requires ZSorted(z) && z != []
    ensures ZSorted(z[1..])
    ensures forall x :: x in z[1..] ==> z[0].score <= x.score
  {
    forall x | x in z[1..] ensures z[0].score <= x.score {
      var k :| 0 <= k < |z[1..]| && z[1..][k] == x;
      assert z[k + 1] == x;
    }
    forall i, j | 0 <= i < j < |z[1..]| ensures z[1..][i].score <= z[1..][j].score {
      assert z[1..][i] == z[i + 1] && z[1..][j] == z[j + 1];
    }
  }

  lemma StrictHead(z: seq<ZEntry>)
    requires Strict(z) && z != []
    ensures Strict(z[1..])
    ensures forall x :: x in z[1..] ==> z[0].score < x.score
  {
    forall x | x in z[1..] ensures z[0].score < x.score {
      var k :| 0 <= k < |z[1..]| && z[1..][k] == x;
      assert z[k + 1] == x;
    }
    forall i, j | 0 <= i < j < |z[1..]| ensures z[1..][i].score < z[1..][j].score {
      assert z[1..][i] == z[i + 1] && z[1..][j] == z[j + 1];
    }
  }

  lemma UniqueHead(z: seq<ZEntry>)
    requires ZUnique(z) && z != []
    ensures ZUnique(z[1..])
    ensures forall x :: x in z[1..] ==> z[0].value != x.value
  {
    forall x | x in z[1..] ensures z[0].value != x.value {
      var k :| 0 <= k < |z[1..]| && z[1..][k] == x;
      assert z[k + 1] == x;
    }
    forall i, j | 0 <= i < j < |z[1..]| ensures z[1..][i].value != z[1..][j].value {
      assert z[1..][i] == z[i + 1] && z[1..][j] == z[j + 1];
    }
  }

  lemma SortedCons(e: ZEntry, z: seq<ZEntry>)
    requires ZSorted(z)
    requires forall x :: x in z ==> e.score <= x.score
    ensures ZSorted([e] + z)
  {
    forall i, j | 0 <= i < j < |[e] + z| ensures ([e] + z)[i].score <= ([e] + z)[j].score {
      assert ([e] + z)[j] == z[j - 1] && z[j - 1] in z;
      if i > 0 {
        assert ([e] + z)[i] == z[i - 1];
      }
    }
  }

  lemma StrictCons(e: ZEntry, z: seq<ZEntry>)
    requires Strict(z)
    requires forall x :: x in z ==> e.score < x.score
    ensures Strict([e] + z)
  {
    forall i, j | 0 <= i < j < |[e] + z| ensures ([e] + z)[i].score < ([e] + z)[j].score {
      assert ([e] + z)[j] == z[j - 1] && z[j - 1] in z;
      if i > 0 {
        assert ([e] + z)[i] == z[i - 1];
      }
    }
  }

  lemma UniqueCons(e: ZEntry, z: seq<ZEntry>)
    requires ZUnique(z)
    requires forall x :: x in z ==> e.value != x.value
    ensures ZUnique([e] + z)
  {
    forall i, j | 0 <= i < j < |[e] + z| ensures ([e] + z)[i].value != ([e] + z)[j].value {
      assert ([e] + z)[j] == z[j - 1] && z[j - 1] in z;
      if i > 0 {
        assert ([e] + z)[i] == z[i - 1];
      }
    }
  }

  lemma {:induction false} ZRemoveSorted(z: seq<ZEntry>, v: TableMsg)
    requires ZSorted(z)
    ensures ZSorted(ZRemove(z, v))
    decreases |z|
  {
    if z != [] {
      SortedHead(z);
      ZRemoveSorted(z[1..], v);
      ZRemoveMembers(z[1..], v);
      if z[0].value != v {
        SortedCons(z[0], ZRemove(z[1..], v));
      }
    }
  }

  lemma {:induction false} ZRemoveStrict(z: seq<ZEntry>, v: TableMsg)
    requires Strict(z)
    ensures Strict(ZRemove(z, v))
    decreases |z|
  {
    if z != [] {
      StrictHead(z);
      ZRemoveStrict(z[1..], v);
      ZRemoveMembers(z[1..], v);
      if z[0].value != v {
        StrictCons(z[0], ZRemove(z[1..], v));
      }
    }
  }

  lemma {:induction false} ZRemoveUnique(z: seq<ZEntry>, v: TableMsg)
    requires ZUnique(z)
    ensures ZUnique(ZRemove(z, v))
    decreases |z|
  {
    if z != [] {
      UniqueHead(z);
      ZRemoveUnique(z[1..], v);
      ZRemoveMembers(z[1..], v);
      if z[0].value != v {
        UniqueCons(z[0], ZRemove(z[1..], v));
      }
    }
  }

  lemma {:induction false} ZRangeStrict(z: seq<ZEntry>, min: Option<int>, max: Option<int>)
    requires Strict(z)
    ensures Strict(ZRange(z, min, max))
    decreases |z|
  {
    if z != [] {
      StrictHead(z);
      ZRangeStrict(z[1..], min, max);
      ZRangeMembers(z[1..], min, max);
      if InBounds(z[0].score, min, max) {
        StrictCons(z[0], ZRange(z[1..], min, max));
      }
    }
  }

  lemma {:induction false} ZInsertSorted(z: seq<ZEntry>, e: ZEntry)
    requires ZSorted(z)
    ensures ZSorted(ZInsert(z, e))
    decreases |z|
  {
    if z != [] {
      Split(z);
      SortedHead(z);
      if e.score < z[0].score {
        SortedCons(e, z);
      } else {
        ZInsertSorted(z[1..], e);
        ZInsertMembers(z[1..], e);
        SortedCons(z[0], ZInsert(z[1..], e));
      }
    }
  }

  /** Inserting a member not yet present keeps every member unique. */
  lemma {:induction false} ZInsertUnique(z: seq<ZEntry>, e: ZEntry)
    requires ZUnique(z)
    requires forall x :: x in z ==> x.value != e.value
    ensures ZUnique(ZInsert(z, e))
    decreases |z|
  {
    if z != [] {
      Split(z);
      if e.score < z[0].score {
        UniqueCons(e, z);
      } else {
        UniqueHead(z);
        ZInsertUnique(z[1..], e);
        ZInsertMembers(z[1..], e);
        UniqueCons(z[0], ZInsert(z[1..], e));
      }
    }
  }

  /** An entry that scores above everything present goes to the end. */
  lemma {:induction false} ZInsertLast(z: seq<ZEntry>, e: ZEntry)
    requires forall i :: 0 <= i < |z| ==> z[i].score < e.score
    ensures ZInsert(z, e) == z + [e]
    decreases |z|
  {
    if z != [] {
      assert z[1..] + [e] == (z + [e])[1..];
      ZInsertLast(z[1..], e);
      assert z == [z[0]] + z[1..];
    }
  }

  /**
   * `zAdd` keeps a sorted set well formed, and afterwards `v` is present
   * exactly once, with the new score, while every other member keeps its
   * entry.
   */
  lemma ZAddSpec(z: seq<ZEntry>, score: int, v: TableMsg)
    requires ZValid(z)
    ensures ZValid(ZAdd(z, score, v))
    ensures forall e :: e in ZAdd(z, score, v) <==> e == ZEntry(score, v) || (e in z && e.value != v)
  {
    var r := ZRemove(z, v);
    ZRemoveMembers(z, v);
    ZRemoveSorted(z, v);
    ZRemoveUnique(z, v);
    ZInsertSorted(r, ZEntry(score, v));
    ZInsertUnique(r, ZEntry(score, v));
    ZInsertMembers(r, ZEntry(score, v));
  }

  // ---- the store -----------------------------------------------------------

  class Redis {
    var counters: map<string, int>
    var sets: map<string, set<string>>
    var hashes: map<string, map<string, string>>
    var zsets: map<string, seq<ZEntry>>
    var lists: map<string, seq<string>>
    /** Every `publish`, oldest first. */
    var published: seq<Publication>

    constructor ()
      ensures counters == map[] && sets == map[] && hashes == map[]
      ensures zsets == map[] && lists == map[] && published == []
    {
      counters, sets, hashes, zsets, lists, published := map[], map[], map[], map[], map[], [];
    }

    /** A missing counter reads as 0. */
    function Counter(key: string): int
      reads this`counters
    {
      if key in counters then counters[key] else 0
    }

    function Members(key: string): set<string>
      reads this`sets
    {
      if key in sets then sets[key] else {}
    }

    function Field(key: string, field: string): Option<string>
      reads this`hashes
    {
      if key in hashes && field in hashes[key] then Some(hashes[key][field]) else None
    }

    function ZSet(key: string): seq<ZEntry>
      reads this`zsets
    {
      if key in zsets then zsets[key] else []
    }

    function List(key: string): seq<string>
      reads this`lists
    {
      if key in lists then lists[key] else []
    }

    /** `incr(key)`: the counter after adding one. */
    method Incr(key: string) returns (n: int)
      modifies this
      ensures n == old(Counter(key)) + 1
      ensures counters == old(counters)[key := n]
      ensures sets == old(sets) && hashes == old(hashes) && zsets == old(zsets)
      ensures lists == old(lists) && published == old(published)
    {
      n := Counter(key) + 1;
      counters := counters[key := n];
    }

    /** `sAdd(key, members)`. */
    method SAdd(key: string, members: seq<string>)
      modifies this
      ensures sets == old(sets)[key := old(Members(key)) + set m | m in members]
      ensures counters == old(counters) && hashes == old(hashes) && zsets == old(zsets)
      ensures lists == old(lists) && published == old(published)
    {
      sets := sets[key := Members(key) + set m | m in members];
    }

    /** `hSet(key, field, value)`. */
    method HSet(key: string, field: string, value: string)
      modifies this
      ensures hashes == old(hashes)[key := (if key in old(hashes) then old(hashes)[key] else map[])[field := value]]
      ensures counters == old(counters) && sets == old(sets) && zsets == old(zsets)
      ensures lists == old(lists) && published == old(published)
    {
      var h := if key in hashes then hashes[key] else map[];
      hashes := hashes[key := h[field := value]];
    }

    /** `zAdd(key, {score, value})`. */
    method ZAddTo(key: string, score: int, value: TableMsg)
      modifies this
      ensures zsets == old(zsets)[key := ZAdd(old(ZSet(key)), score, value)]
      ensures counters == old(counters) && sets == old(sets) && hashes == old(hashes)
      ensures lists == old(lists) && published == old(published)
    {
      zsets := zsets[key := ZAdd(ZSet(key), score, value)];
    }

    /** `lPush(key, value)`: in at the head. */
    method LPush(key: string, value: string)
      modifies this
      ensures lists == old(lists)[key := [value] + old(List(key))]
      ensures counters == old(counters) && sets == old(sets) && hashes == old(hashes)
      ensures zsets == old(zsets) && published == old(published)
    {
      lists := lists[key := [value] + List(key)];
    }

    /** `rPop(key)`: out at the tail, `None` on an empty list. */
    method RPop(key: string) returns (v: Option<string>)
      modifies this
      ensures old(List(key)) == [] ==> v.None? && lists == old(lists)
      ensures old(List(key)) != [] ==>
        v == Some(old(List(key))[|old(List(key))| - 1]) &&
        lists == old(lists)[key := old(List(key))[..|old(List(key))| - 1]]
      ensures counters == old(counters) && sets == old(sets) && hashes == old(hashes)
      ensures zsets == old(zsets) && published == old(published)
    {
      var l := List(key);
      if l == [] {
        v := None;
      } else {
        v := Some(l[|l| - 1]);
        lists := lists[key := l[..|l| - 1]];
      }
    }

    /** `publish(channel, payload)`. */
    method Publish(channel: string, payload: Payload)
      modifies this
      ensures published == old(published) + [Publication(channel, payload)]
      ensures counters == old(counters) && sets == old(sets) && hashes == old(hashes)
      ensures zsets == old(zsets) && lists == old(lists)
    {
      published := published + [Publication(channel, payload)];
    }
  }

  /**
   * The list as a queue: after `lPush`ing each of `pushed` in turn, the old
   * list is still at the tail and the pushed values stand in front of it
   * newest first, so popping at the tail hands out the old values and then
   * the pushed ones in the order they were pushed.
   */
  lemma {:induction false} QueueOrder(l: seq<string>, pushed: seq<string>)
    ensures var r := PushAll(l, pushed);
      r[|pushed|..] == l &&
      (forall k :: 0 <= k < |pushed| ==> r[|pushed| - 1 - k] == pushed[k])
    ensures l != [] ==> PushAll(l, pushed)[|PushAll(l, pushed)| - 1] == l[|l| - 1]
    ensures l == [] && pushed != [] ==> PushAll(l, pushed)[|PushAll(l, pushed)| - 1] == pushed[0]
    decreases |pushed|
  {
    if pushed != [] {
      var n := |pushed|;
      var q := pushed[..n - 1];
      QueueOrder(l, q);
      var r := PushAll(l, pushed);
      assert r == [pushed[n - 1]] + PushAll(l, q);
      assert r[n..] == PushAll(l, q)[n - 1..];
      forall k | 0 <= k < n
        ensures r[n - 1 - k] == pushed[k]
      {
        if k < n - 1 {
          assert r[n - 1 - k] == PushAll(l, q)[n - 2 - k];
          assert q[k] == pushed[k];
        }
      }
    }
  }

  /** The list after `lPush`ing each of `pushed` in turn. */
  function PushAll(l: seq<string>, pushed: seq<string>): (r: seq<string>)
    ensures |r| == |l| + |pushed|
    decreases |pushed|
  {
    if pushed == [] then l else [pushed[|pushed| - 1]] + PushAll(l, pushed[..|pushed| - 1])
  }
}
