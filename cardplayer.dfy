/**
 * The older player object of src/cardplayer.ts: one `CardPlayer` per
 * socket, kept in the process-global `players` array of src/server.ts.
 * Its handlers set the name and wallet, route chat, pair players for an
 * online game through the `pendingTable` flags, and register the wallet's
 * owned cards in the in-memory registry of src/cards.ts.
 *
 * The `CardTable` class this file uses (join, leave, welcome, emit,
 * destroy, players) is an older one than src/cardtable.ts and is not part
 * of this model; `Table` below is a minimal stand-in for it.
 */
module CardPlayer {
  import opened Wrappers
  import opened Cards
  import opened Ledger

  /** What a player's own socket is sent. */
  datatype SocketEvent = Msg(text: string) | RevealCards(cards: seq<Card>)

  const WaitingText: string := "Waiting for another player..."
  const OwnedDeck: string := "owned"

  function Greeting(name: string): string
  {
    "Welcome " + name + "!"
  }

  /** `chat`: the line is the message, preceded by `name: ` when the player has a name. */
  function ChatLine(name: string, msg: string): (r: string)
    ensures |r| >= |msg| && r[|r| - |msg|..] == msg
    ensures name == "" <==> |r| == |msg|
    ensures name != "" ==> |r| == |name| + 2 + |msg| && r[..|name|] == name && r[|name|..|name| + 2] == ": "
  {
    if name != "" then name + ": " + msg else msg
  }

  /** `table.leave(player)`: the player, every seat of theirs, leaves the roster. */
  function Unseat(ps: seq<Player>, p: Player): (r: seq<Player>)
    ensures p !in r && |r| <= |ps|
    ensures forall i :: 0 <= i < |r| ==> r[i] in ps
    ensures forall i :: 0 <= i < |ps| && ps[i] != p ==> ps[i] in r
  {
    if ps == [] then []
    else (if ps[0] == p then [] else [ps[0]]) + Unseat(ps[1..], p)
  }

  /** A table of the older `CardTable` class: its roster, its chat, and whether it was welcomed or destroyed. */
  class Table {
    var players: seq<Player>
    var log: seq<string>
    var welcomed: bool
    var destroyed: bool

    constructor ()
      ensures players == [] && log == [] && !welcomed && !destroyed
    {
      players := [];
      log := [];
      welcomed := false;
      destroyed := false;
    }

    /** `join(player)`: taken to seat the player last and make this the player's table. */
    method Join(p: Player)
      modifies this, p
      ensures players == old(players) + [p] && p.table == Some(this)
      ensures log == old(log) && welcomed == old(welcomed) && destroyed == old(destroyed)
      ensures p.name == old(p.name) && p.walletAddress == old(p.walletAddress) && p.owned == old(p.owned)
      ensures p.pendingTable == old(p.pendingTable) && p.socket == old(p.socket)
    {
      players := players + [p];
      p.table := Some(this);
    }

    method Leave(p: Player)
      modifies this
      ensures players == Unseat(old(players), p)
      ensures log == old(log) && welcomed == old(welcomed) && destroyed == old(destroyed)
    {
      players := Unseat(players, p);
    }

    method Welcome()
      modifies this
      ensures welcomed && players == old(players) && log == old(log) && destroyed == old(destroyed)
    {
      welcomed := true;
    }

    /** `emit(null, 'msg', text)`: a message to everyone at the table. */
    method Emit(text: string)
      modifies this
      ensures log == old(log) + [text]
      ensures players == old(players) && welcomed == old(welcomed) && destroyed == old(destroyed)
    {
      log := log + [text];
    }

    method Destroy()
      modifies this
      ensures destroyed && players == old(players) && log == old(log) && welcomed == old(welcomed)
    {
      destroyed := true;
    }
  }

  /** The module-level `tables` array. */
  class Tables {
    var tables: seq<Table>

    constructor ()
      ensures tables == []
    {
      tables := [];
    }
  }

  /** The first player, in `players` order, whose `pendingTable` flag is set. */
  function FirstPending(ps: seq<Player>): (r: Option<nat>)
    reads set p | p in ps
    ensures r.Some? ==> r.value < |ps| && ps[r.value].pendingTable
    ensures r.Some? ==> forall j :: 0 <= j < r.value ==> !ps[j].pendingTable
    ensures r.None? <==> forall j :: 0 <= j < |ps| ==> !ps[j].pendingTable
  {
    if ps == [] then None
    else if ps[0].pendingTable then Some(0)
    else
      match FirstPending(ps[1..])
      case None => None
      case Some(k) => Some(k + 1)
  }

  /** `indexOf(x, from)`: the first index at or after `from` holding `x`, or -1. */
  function IndexOfFrom<T(==)>(s: seq<T>, x: T, from: nat): (r: int)
    ensures r == -1 || (from <= r < |s| && s[r] == x)
    ensures r == -1 <==> forall i :: from <= i < |s| ==> s[i] != x
    ensures r != -1 ==> forall i :: from <= i < r ==> s[i] != x
    decreases |s| - from
  {
    if from >= |s| then -1
    else if s[from] == x then from
    else IndexOfFrom(s, x, from + 1)
  }

  /**
   * `splice(start)` with no delete count: everything from `start` on is
   * removed, a negative `start` counting back from the end; what is left
   * is a prefix.
   */
  function SpliceFrom<T>(s: seq<T>, start: int): (r: seq<T>)
    ensures |r| <= |s| && r == s[..|r|]
    ensures 0 <= start <= |s| ==> |r| == start
    ensures start > |s| ==> r == s
    ensures start < 0 ==> |r| == (if |s| + start > 0 then |s| + start else 0)
  {
    var n := if start < 0 then (if |s| + start > 0 then |s| + start else 0)
             else if start > |s| then |s| else start;
    s[..n]
  }

  /** What `destroy` does to `tables`: `tables.splice(tables.indexOf(table, 1))`. */
  function DestroyAsWritten<T(==)>(tables: seq<T>, t: T): (r: seq<T>)
  {
    SpliceFrom(tables, IndexOfFrom(tables, t, 1))
  }

  /**
   * As written: when the table occurs past the front, it and every later
   * table are removed; when it does not (it is the first one, or not
   * listed), the LAST table is removed, whichever it is.
   */
  lemma DestroyAsWrittenCases<T>(tables: seq<T>, t: T)
    ensures var r := DestroyAsWritten(tables, t);
      var i := IndexOfFrom(tables, t, 1);
      (i != -1 ==> r == tables[..i] && t !in tables[1..i]) &&
      (i == -1 && tables != [] ==> r == tables[..|tables| - 1]) &&
      (tables == [] ==> r == [])
  {
  }

  /**
   * The input that shows it: with two tables, destroying the first keeps
   * it and removes the second.
   */
  lemma DestroyFirstOfTwo()
    ensures DestroyAsWritten([1, 2], 1) == [1]
  {
    assert IndexOfFrom([1, 2], 1, 1) == -1;
  }

  /** What `tables.splice(tables.indexOf(table), 1)` would do: drop the table's first occurrence. */
  function RemoveTable<T(==)>(tables: seq<T>, t: T): (r: seq<T>)
    ensures t !in tables ==> r == tables
    ensures t in tables ==> multiset(r) == multiset(tables) - multiset{t}
    ensures t in tables ==> var i := IndexOfFrom(tables, t, 0); r == tables[..i] + tables[i + 1..]
  {
    var i := IndexOfFrom(tables, t, 0);
    if i == -1 then tables
    else
      assert tables == tables[..i] + [t] + tables[i + 1..];
      tables[..i] + tables[i + 1..]
  }

  /** With the intended splice, destroying the first of two tables keeps the second. */
  lemma RemoveFirstOfTwo()
    ensures RemoveTable([1, 2], 1) == [2]
  {
    assert IndexOfFrom([1, 2], 1, 0) == 0;
  }

  /** The cards `registerCard(token_id, ipfsUri)` hands out for `mints`, the first getting id `base`. */
  function Minted(base: nat, mints: seq<Mint>): seq<Card>
  {
    seq(|mints|, i requires 0 <= i < |mints| => Card(base + i, mints[i].tokenId, mints[i].ipfsUri))
  }

  /** Registering `a` and then `b` hands out the same cards as registering `a + b`. */
  lemma MintedAppend(base: nat, a: seq<Mint>, b: seq<Mint>)
    ensures Minted(base, a + b) == Minted(base, a) + Minted(base + |a|, b)
  {
  }

  /** Card `c` is an instance of the token of entry `e`, which stands for at least one. */
  predicate CardOf(c: Card, e: MetadataEntry, amounts: map<nat, int>)
  {
    c.tokenId == e.tokenId && c.ipfsUri == e.ipfsUri && Owned(e, amounts) > 0
  }

  /**
   * `getCards` registers exactly as many cards as the positive amounts add
   * up to, with consecutive ids from `base`, each the token of a metadata
   * entry whose amount is positive.
   */
  lemma MintedOwned(base: nat, metadata: seq<MetadataEntry>, amounts: map<nat, int>)
    ensures var cards := Minted(base, Expansion(metadata, amounts));
      |cards| == TotalOwned(metadata, amounts) &&
      (forall i :: 0 <= i < |cards| ==> cards[i].id == base + i) &&
      (forall i :: 0 <= i < |cards| ==>
         exists j :: 0 <= j < |metadata| && CardOf(cards[i], metadata[j], amounts))
  {
    var x := Expansion(metadata, amounts);
    ExpansionSize(metadata, amounts);
    forall i | 0 <= i < |x|
      ensures exists j :: 0 <= j < |metadata| && CardOf(Minted(base, x)[i], metadata[j], amounts)
    {
      assert x[i] in x;
      var j :| 0 <= j < |metadata| && InstanceOf(x[i], metadata[j], amounts);
      assert CardOf(Minted(base, x)[i], metadata[j], amounts);
    }
  }

  /** The inner loop of `getCards`: `amount` registrations of one token. */
  method RegisterCopies(registry: Registry, m: Mint, amount: int) returns (cards: seq<Card>)
    requires registry.Valid()
    modifies registry
    ensures registry.Valid()
    ensures cards == Minted(|old(registry.cards)|, Copies(amount, m))
    ensures registry.cards == old(registry.cards) + cards
  {
    ghost var base := |registry.cards|;
    var n := if amount > 0 then amount else 0;
    cards := [];
    var i := 0;
    while i < n
      invariant 0 <= i <= n
      invariant registry.Valid()
      invariant cards == Minted(base, Copies(i, m)) && |cards| == i
      invariant registry.cards == old(registry.cards) + cards
    {
      var card := registry.RegisterCard(m.tokenId, m.ipfsUri);
      ghost var done := Copies(i, m);
      assert Copies(i + 1, m) == done + [m];
      MintedAppend(base, done, [m]);
      cards := cards + [card];
      i := i + 1;
    }
    assert |Copies(amount, m)| == n;
    if amount <= 0 {
      assert Copies(amount, m) == [] == Copies(i, m);
    }
  }

  lemma MintedStep(base: nat, metadata: seq<MetadataEntry>, k: nat, amounts: map<nat, int>,
                   cards: seq<Card>, more: seq<Card>)
    requires k < |metadata|
    requires cards == Minted(base, Expansion(metadata[..k], amounts))
    requires more == Minted(base + |cards|, Instances(metadata[k], amounts))
    ensures cards + more == Minted(base, Expansion(metadata[..k + 1], amounts))
  {
    assert metadata[..k + 1][..k] == metadata[..k];
    MintedAppend(base, Expansion(metadata[..k], amounts), Instances(metadata[k], amounts));
  }

  /** One metadata entry of `getCards`: a missing or zero amount registers nothing. */
  method RegisterEntry(registry: Registry, e: MetadataEntry, amounts: map<nat, int>) returns (cards: seq<Card>)
    requires registry.Valid()
    modifies registry
    ensures registry.Valid()
    ensures cards == Minted(|old(registry.cards)|, Instances(e, amounts))
    ensures registry.cards == old(registry.cards) + cards
  {
    if e.tokenId in amounts && amounts[e.tokenId] != 0 {
      cards := RegisterCopies(registry, Mint(e.tokenId, e.ipfsUri), amounts[e.tokenId]);
    } else {
      cards := [];
    }
  }

  lemma AppendAssoc<T>(a: seq<T>, b: seq<T>, c: seq<T>)
    ensures (a + b) + c == a + (b + c)
  {
  }

  /** One turn of the metadata loop: entry `k`'s cards follow those of the entries before it. */
  method RegisterNext(registry: Registry, metadata: seq<MetadataEntry>, k: nat, amounts: map<nat, int>,
                      ghost base: nat, ghost origin: seq<Card>, cards: seq<Card>) returns (next: seq<Card>)
    requires registry.Valid() && k < |metadata|
    requires cards == Minted(base, Expansion(metadata[..k], amounts))
    requires registry.cards == origin + cards && |registry.cards| == base + |cards|
    modifies registry
    ensures registry.Valid()
    ensures next == Minted(base, Expansion(metadata[..k + 1], amounts))
    ensures registry.cards == origin + next && |registry.cards| == base + |next|
  {
    var more := RegisterEntry(registry, metadata[k], amounts);
    MintedStep(base, metadata, k, amounts, cards, more);
    AppendAssoc(origin, cards, more);
    next := cards + more;
  }

  /** The metadata loop of `getCards`. */
  method RegisterAll(registry: Registry, metadata: seq<MetadataEntry>, amounts: map<nat, int>)
    returns (cards: seq<Card>)
    requires registry.Valid()
    modifies registry
    ensures registry.Valid()
    ensures cards == Minted(|old(registry.cards)|, Expansion(metadata, amounts))
    ensures registry.cards == old(registry.cards) + cards
  {
    ghost var base := |registry.cards|;
    cards := [];
    for k := 0 to |metadata|
      invariant registry.Valid()
      invariant cards == Minted(base, Expansion(metadata[..k], amounts))
      invariant registry.cards == old(registry.cards) + cards && |registry.cards| == base + |cards|
    {
      cards := RegisterNext(registry, metadata, k, amounts, base, old(registry.cards), cards);
    }
    assert metadata[..|metadata|] == metadata;
  }

  /** A connected player. */
  class Player {
    var name: string
    var walletAddress: string
    var table: Option<Table>
    var owned: Option<CardDeck>
    var pendingTable: bool
    var socket: seq<SocketEvent>

    constructor ()
      ensures name == "Unknown" && walletAddress == "" && table == None && owned == None
      ensures !pendingTable && socket == []
    {
      name := "Unknown";
      walletAddress := "";
      table := None;
      owned := None;
      pendingTable := false;
      socket := [];
    }

    /** `userName`: the name is set and the player is welcomed by it. */
    method UserName(name: string)
      modifies this
      ensures this.name == name && socket == old(socket) + [Msg(Greeting(name))]
      ensures walletAddress == old(walletAddress) && table == old(table) && owned == old(owned)
      ensures pendingTable == old(pendingTable)
    {
      this.name := name;
      socket := socket + [Msg(Greeting(name))];
    }

    /** `chat`: to the whole table when seated, otherwise back to the player's own socket. */
    method Chat(msg: string)
      modifies this, if table.Some? then {table.value} else {}
      ensures table == old(table) && name == old(name)
      ensures table.Some? ==> table.value.log == old(table.value.log) + [ChatLine(name, msg)] && socket == old(socket)
      ensures table.Some? ==> table.value.players == old(table.value.players)
      ensures table.None? ==> socket == old(socket) + [Msg(ChatLine(name, msg))]
      ensures walletAddress == old(walletAddress) && owned == old(owned) && pendingTable == old(pendingTable)
    {
      var line := ChatLine(name, msg);
      if table.Some? {
        table.value.Emit(line);
      } else {
        socket := socket + [Msg(line)];
      }
    }

    /**
     * `playOnline`: the first pending player in `players` is taken off the
     * waiting flag and a new table seats them first and the caller second;
     * when nobody is pending the caller starts waiting. The caller is not
     * skipped: a caller who is already waiting, and first, gets a table
     * seating them twice.
     */
    method PlayOnline(players: seq<Player>, tables: Tables)
      modifies this, tables, set p | p in players
      ensures old(FirstPending(players)).Some? ==>
        var q := players[old(FirstPending(players)).value];
        |tables.tables| == |old(tables.tables)| + 1 &&
        tables.tables[..|old(tables.tables)|] == old(tables.tables) &&
        var t := tables.tables[|old(tables.tables)|];
        fresh(t) && t.players == [q, this] && t.welcomed && !t.destroyed && t.log == [] &&
        !q.pendingTable && q.table == Some(t) && table == Some(t) &&
        pendingTable == (this != q && old(pendingTable)) && socket == old(socket) &&
        // nothing stops the caller being the first pending player: then
        // the caller is paired with themself and seated twice
        (q == this ==> t.players == [this, this] && !pendingTable)
      ensures old(FirstPending(players)).None? ==>
        tables.tables == old(tables.tables) && pendingTable && table == old(table) &&
        socket == old(socket) + [Msg(WaitingText)]
      ensures forall p :: p in players && p != this && Some(p) != old(PendingPlayer(players)) ==>
        p.pendingTable == old(p.pendingTable) && p.table == old(p.table)
      ensures forall p :: p in players && p != this ==> p.socket == old(p.socket)
      ensures name == old(name) && walletAddress == old(walletAddress) && owned == old(owned)
    {
      var i := 0;
      while i < |players|
        invariant 0 <= i <= |players|
        invariant forall j :: 0 <= j < i ==> !players[j].pendingTable
      {
        var player := players[i];
        if player.pendingTable {
          assert FirstPending(players) == Some(i);
          player.pendingTable := false;
          var t := new Table();
          t.Join(player);
          t.Join(this);
          t.Welcome();
          tables.tables := tables.tables + [t];
          return;
        }
        i := i + 1;
      }
      pendingTable := true;
      socket := socket + [Msg(WaitingText)];
    }

    /**
     * `destroy`: the player leaves their table; when at most one player
     * is left the table is destroyed and `tables` is spliced as written.
     */
    method Destroy(tables: Tables)
      modifies tables, if table.Some? then {table.value} else {}
      ensures table == old(table)
      ensures table.None? ==> tables.tables == old(tables.tables)
      ensures table.Some? ==> table.value.players == Unseat(old(table.value.players), this)
      ensures table.Some? && |table.value.players| <= 1 ==>
        tables.tables == DestroyAsWritten(old(tables.tables), table.value) && table.value.destroyed
      ensures table.Some? && |table.value.players| > 1 ==>
        tables.tables == old(tables.tables) && table.value.destroyed == old(table.value.destroyed)
    {
      if table.Some? {
        var t := table.value;
        t.Leave(this);
        if |t.players| <= 1 {
          tables.tables := SpliceFrom(tables.tables, IndexOfFrom(tables.tables, t, 1));
          t.Destroy();
        }
      }
    }

    /**
     * `getCards`: the wallet's active ledger entries give the amounts;
     * each metadata entry registers that many cards. The `owned` deck is
     * then created (which asserts that the wallet is set, aborting the
     * rest otherwise), announced the cards, and the cards are revealed.
     */
    method GetCards(registry: Registry, ledger: seq<LedgerEntry>, metadata: seq<MetadataEntry>)
      requires registry.Valid()
      modifies this, registry
      ensures registry.Valid()
      ensures var active := Active(ledger);
        var cards := Minted(|old(registry.cards)|, Expansion(metadata, AmountsOf(active)));
        (active == [] ==> registry.cards == old(registry.cards) && owned == old(owned) && socket == old(socket)) &&
        (active != [] ==> registry.cards == old(registry.cards) + cards) &&
        (active != [] && walletAddress == "" ==> owned == old(owned) && socket == old(socket)) &&
        (active != [] && walletAddress != "" ==>
           (owned.Some? && fresh(owned.value) &&
            DeckKey(walletAddress, OwnedDeck) == Success(owned.value.key) &&
            owned.value.cards == [] && owned.value.events == [AddCards(Ids(cards))] &&
            socket == old(socket) + [RevealCards(cards)]))
      ensures name == old(name) && walletAddress == old(walletAddress) && table == old(table)
      ensures pendingTable == old(pendingTable)
    {
      var active := Active(ledger);
      if |active| > 0 {
        var amounts := CollectAmounts(active);
        var cards := RegisterAll(registry, metadata, amounts);
        var deck := NewCardDeck(walletAddress, OwnedDeck);
        if deck.None? {
          return;
        }
        owned := deck;
        var ok := deck.value.Add(cards);
        socket := socket + [RevealCards(cards)];
      }
    }

    /** `setWallet`: the address is stored and the owned cards are fetched for it. */
    method SetWallet(address: string, registry: Registry, ledger: seq<LedgerEntry>, metadata: seq<MetadataEntry>)
      requires registry.Valid()
      modifies this, registry
      ensures registry.Valid() && walletAddress == address
      ensures var active := Active(ledger);
        var cards := Minted(|old(registry.cards)|, Expansion(metadata, AmountsOf(active)));
        (active == [] ==> registry.cards == old(registry.cards) && owned == old(owned) && socket == old(socket)) &&
        (active != [] ==> registry.cards == old(registry.cards) + cards) &&
        (active != [] && address == "" ==> owned == old(owned) && socket == old(socket)) &&
        (active != [] && address != "" ==>
           (owned.Some? && fresh(owned.value) &&
            DeckKey(address, OwnedDeck) == Success(owned.value.key) &&
            owned.value.cards == [] && owned.value.events == [AddCards(Ids(cards))] &&
            socket == old(socket) + [RevealCards(cards)]))
      ensures name == old(name) && table == old(table) && pendingTable == old(pendingTable)
    {
      walletAddress := address;
      GetCards(registry, ledger, metadata);
    }
  }

  /** The pending player `playOnline` pairs with, if any. */
  function PendingPlayer(ps: seq<Player>): (r: Option<Player>)
    reads set p | p in ps
    ensures r.Some? <==> exists j :: 0 <= j < |ps| && ps[j].pendingTable
    ensures r.Some? ==> r.value in ps && r.value.pendingTable
  {
    match FirstPending(ps)
    case None => None
    case Some(k) => Some(ps[k])
  }
}
