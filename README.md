# Digital Arcana, modelled in Dafny

Digital Arcana is an online tarot-card game whose cards are FA2 tokens on Tezos. This project models its core in Dafny and proves properties of that model. The core has three parts:

- **The server** (TypeScript in `src/`):
  - the in-memory card registry and `CardDeck` (`src/cards.ts`) and the 78-card tarot catalogue (`src/tarot.ts`);
  - the seeded generators `xmur3`, `sfc32` and `randrange` (`src/random.ts`), on 32-bit words;
  - the Redis-backed table chat log (`src/cardtable.ts`) and the per-socket connection with its message cursor and waiting queue (`src/connection.ts`);
  - the game framework (`src/cardgame.ts`) and the games War, Solitaire and Browse (`src/games/`).
- **Owned cards and pairing**:
  - collecting a wallet's owned cards from its ledger entries (`src/cardcollector.ts`, and the older `src/cardplayer.ts`, which also pairs players for an online game);
  - the lot, odds, pack and mint-check logic of `mintSet` (`src/admin.ts`).
- **The SmartPy contracts** (`python/contracts/`):
  - the mutez escrow and its marketplace (`escrow.py`);
  - the same on Tezos tickets (`tickets.py`);
  - the on-chain random generator (`random.py`).

Each source file is one module, named after it:

| module | file |
|---|---|
| `Cards` | `cards.dfy` |
| `Tarot` | `tarot.dfy` |
| `Prng` | `random.dfy` |
| `CardTable` | `cardtable.dfy` |
| `Users`, `Connection` | `connection.dfy` |
| `CardGame` | `cardgame.dfy` |
| `War` | `war.dfy` |
| `Solitaire` | `solitaire.dfy` |
| `Browse` | `browse.dfy` |
| `CardCollector` | `cardcollector.dfy` |
| `CardPlayer` | `cardplayer.dfy` |
| `Admin` | `admin.dfy` |
| `Escrow` | `escrow.dfy` |
| `Tickets` | `tickets.dfy` |
| `RandomContract` | `randomcontract.dfy` |

Shared modules:

- `Wrappers`: Option and Result.
- `Tezos`: addresses, operations, the FA2 transfer, the mutez sum.
- `Store`: Redis as an in-memory store of counters, sets, hashes, sorted sets, lists and published messages.
- `Decks`: the deck and ownership API that the newer game code calls. The cards file of this snapshot does not define it.
- `Ledger`: the ledger-to-cards expansion shared by the collector and the player.

The model takes the source's own form:

- Objects whose fields change are classes, with `modifies` frames.
- Loops are `while`/`for` loops, proved against specification functions.
- The lemmas beside them state what the code promises:
  - round trips (token ids, big-endian bytes);
  - conservation (cards moved between piles, escrowed mutez against the balance);
  - ordering (chat scores, the FIFO queue);
  - exact error conditions (the contracts' failures).

## Model

| member | source | states |
|---|---|---|
| Cards.Registry.constructor | src/cards.ts:12 | the registry starts empty, with ids equal to positions |
| Cards.Registry.RegisterCard | src/cards.ts:14-18 | the new card's id is the registry's previous length; the card is appended and ids stay positions |
| Cards.DeckKey | src/cards.ts:34-35 | the key fails exactly when the owner has no wallet address; otherwise it is `<wallet>.<name>` |
| Cards.DeckKeyInjective | src/cards.ts:35 | for dot-free wallet addresses the key determines both the owner and the deck name |
| Cards.Without | src/cards.ts:48-49 | the filter keeps exactly the cards not among the arguments and never grows the pile |
| Cards.WithoutConcat | src/cards.ts:48-49 | filtering distributes over concatenation |
| Cards.WithoutIdempotent | src/cards.ts:48-49 | removing the same cards twice is the same as removing them once |
| Cards.WithoutNone | src/cards.ts:48-49 | removing cards that are not in the pile leaves it as it was |
| Cards.CardDeck.constructor | src/cards.ts:31-39 | records owner and name, keys the namespace by `DeckKey`, starts empty |
| Cards.NewCardDeck | src/cards.ts:31-39 | construction fails exactly when the owner's wallet is unset; otherwise a fresh empty deck with key `<wallet>.<name>` |
| Cards.CardDeck.Add | src/cards.ts:42-46 | succeeds exactly when no argument is already in the deck; the pile is unchanged because the `concat` result is dropped; on success the ids are announced |
| Cards.CardDeck.Remove | src/cards.ts:47-51 | the pile becomes the filtered pile and every argument id is announced |
| Tarot.CatalogueSizes | src/tarot.ts:1-32 | 14 ranks, 4 suits and 22 major arcana, so `totalCards` is 78 |
| Tarot.MinorIndex | src/tarot.ts:19-25 | card `s * 14 + c` of the catalogue is `<rank c>_of_<suit s>` |
| Tarot.Catalogue | src/tarot.ts:19-30 | 78 names, position `i` holding the name of card `i` |
| Tarot.AllCards | src/tarot.ts:19-30 | the nested loops return exactly the catalogue |
| Tarot.CardNameLayout | src/tarot.ts:19-30 | suits outermost, ranks inside, then the 22 major arcana in order |
| Prng.Xmur3Stream | src/random.ts:3-12 | `n` calls of the returned function give `n` values |
| Prng.Avalanches | src/random.ts:7-11 | `n` calls from a captured state give `n` values |
| Prng.AvalanchesPrefix | src/random.ts:7-11 | more calls from a state extend the earlier values |
| Prng.AvalanchesAt | src/random.ts:7-11 | value `i` is the state after `i + 1` avalanche steps |
| Prng.Xmur3StreamAt | src/random.ts:3-11 | value `i` of `xmur3(s)` is the hashed string after `i + 1` avalanche steps |
| Prng.Xmur3StreamPrefix | src/random.ts:7-11 | more calls extend the earlier outputs, they never change them |
| Prng.Xmur3.constructor | src/random.ts:3-6 | the state is the string hashed one UTF-16 code unit at a time |
| Prng.Xmur3.Next | src/random.ts:7-11 | one avalanche step; the returned value is the new state, appended to the outputs |
| Prng.Sfc32Outputs | src/random.ts:16-28 | `n` calls give `n` values |
| Prng.Sfc32OutputsPrefix | src/random.ts:16-28 | more calls extend the earlier outputs |
| Prng.Sfc32IterateLast | src/random.ts:17-27 | one more call is one more step on the state reached |
| Prng.Sfc32OutputsLast | src/random.ts:17-27 | one more call appends the output of the state reached |
| Prng.DrewChain | src/random.ts:16-28 | `k1` draws followed by `k2` draws are `k1 + k2` draws of the same stream |
| Prng.Sfc32.constructor | src/random.ts:16 | the state is the four seeds, nothing drawn yet |
| Prng.Sfc32.Next | src/random.ts:17-27 | one step of the generator; the counter word grows by one and the output is appended to the stream |
| Prng.Sfc32.Draw | src/random.ts:26 | draws one value of the stream as an unsigned number |
| Prng.Sfc32.NextInRange | src/random.ts:32-36 | draws one value and maps it into the inclusive range |
| Prng.RandRange | src/random.ts:32-36 | the value lies between the two bounds inclusive, in either order |
| Prng.RandRangeSymmetric | src/random.ts:33 | swapping the bounds gives the same function |
| Prng.RandRangeCovers | src/random.ts:34-35 | every value between the bounds is produced by some draw |
| Store.ZRemoveMembers | src/cardtable.ts:46-47 | after removing a value the set holds exactly the old entries with other values |
| Store.ZInsertMembers | src/cardtable.ts:47 | inserting by score adds exactly the new entry |
| Store.ZRangeMembers | src/cardtable.ts:51-53 | a score range holds exactly the entries whose scores lie within the bounds |
| Store.ZRemoveSorted | src/cardtable.ts:46-47 | removing a value keeps the entries in score order |
| Store.ZRemoveStrict | src/cardtable.ts:46-47 | removing a value keeps scores strictly increasing |
| Store.ZRemoveUnique | src/cardtable.ts:46-47 | removing a value keeps each value at most once |
| Store.ZRangeStrict | src/cardtable.ts:51-53 | a range of a strictly ordered set is strictly ordered |
| Store.ZInsertSorted | src/cardtable.ts:47 | inserting by score keeps the set in score order |
| Store.ZInsertUnique | src/cardtable.ts:47 | inserting a value not present keeps each value once |
| Store.ZInsertLast | src/cardtable.ts:47 | an entry scored above all others goes at the end |
| Store.ZAddSpec | src/cardtable.ts:46-47 | `zAdd` keeps the set ordered and duplicate-free; afterwards it holds the new entry and the old entries of other values, so the same text replaces its previous entry with the new score |
| Store.Redis.Incr | src/cardtable.ts:8 | returns the counter plus one and stores it; nothing else changes |
| Store.Redis.SAdd | src/cardtable.ts:13 | the set gains exactly the given members; nothing else changes |
| Store.Redis.HSet | src/cardtable.ts:20 | sets one field of one hash, creating the hash if needed; nothing else changes |
| Store.Redis.ZAddTo | src/cardtable.ts:47 | the key's sorted set becomes `ZAdd` of it; nothing else changes |
| Store.Redis.LPush | src/connection.ts:143 | the value goes at the head of the list; nothing else changes |
| Store.Redis.RPop | src/connection.ts:151 | an empty list gives nothing and stays empty; otherwise the tail value is returned and removed |
| Store.Redis.Publish | src/cardtable.ts:48 | appends exactly one publication to the log |
| Store.PushAll | src/connection.ts:143 | pushing grows the list by the number of values pushed |
| Store.QueueOrder | src/connection.ts:141-166 | pushing puts the values at the head newest first, ahead of the list as it was; so `rPop` at the tail hands out the old values and then the pushed ones, in push order |
| CardTable.NatToString | src/cardtable.ts:9 | decimal digits only, at least one, and more than one exactly from 10 on |
| CardTable.NatToStringInjective | src/cardtable.ts:9 | distinct numbers print differently |
| CardTable.IntToStringSign | src/cardtable.ts:9 | the printed form starts with `-` exactly for negative numbers |
| CardTable.IntToStringInjective | src/cardtable.ts:9 | distinct integers print differently |
| CardTable.TableIdInjective | src/cardtable.ts:7-10 | distinct counter values give distinct table ids |
| CardTable.CounterKeysDiffer | src/cardtable.ts:44 | a table's message counter is never the `nextTableId` counter |
| CardTable.ChatAppend | src/cardtable.ts:44-47 | while every score is at most the counter, `zAdd` under the next id removes an equal message and appends the entry last, and the log stays strictly ordered below the new counter |
| CardTable.BroadcastMsg | src/cardtable.ts:39-49 | the table's message counter grows by one, the chat gains the `<tableId>> ` prefixed message under the new id, and one "msg" signal is published; nothing else changes |
| CardTable.Broadcast | src/cardtable.ts:55-58 | publishes exactly one event message on the table's channel |
| CardTable.RevealCards | src/cardtable.ts:60-62 | publishes exactly one `revealCards` broadcast carrying the cards |
| CardTable.LogMsgsOrdered | src/cardtable.ts:44-47 | logging messages under successive ids keeps the chat strictly ordered below the counter |
| CardTable.LogMsgsNewest | src/cardtable.ts:44-47 | the newest chat entry is the last message logged, under the counter's new value |
| CardTable.JoinChatNewest | src/cardtable.ts:26-27 | after seating, the newest chat entry welcomes the last user seated and is hidden from that user |
| CardTable.JoinMsgsNames | src/cardtable.ts:20 | seating changes only the `table` field, so the names in the welcome messages are the ones known before |
| CardTable.OpenTable | src/cardtable.ts:7-24 | the id is `table:<counter+1>`; the counter, the players set and each user's `table` field are updated and one `setTable` event per user is published |
| CardTable.SeatUsers | src/cardtable.ts:14-24 | each user's `table` field is the new table, all other fields are unchanged, and one `setTable` event per user is published in order |
| CardTable.JoinLogStep | src/cardtable.ts:14-28 | welcoming one more user logs exactly that user's message after the others |
| CardTable.AnnounceUser | src/cardtable.ts:26-27 | one welcome under the table's next message id, hidden from the new user |
| CardTable.AnnounceUsers | src/cardtable.ts:14-28 | one welcome per user in seating order, under successive message ids, with one signal each |
| CardTable.NewTable | src/cardtable.ts:5-31 | the whole `newTable`: new id from the counter, players recorded, users seated, `setTable` events and then welcome signals published, the chat holding the welcomes in order; every other counter and every other sorted set is left as it was |
| Users.SendEvent | src/connection.ts:16-18 | publishes exactly one event on the user's own channel; nothing else changes |
| Connection.Shown | src/connection.ts:205-211 | a message shows nothing exactly when its `exclude` is this user |
| Connection.DeliveredIncreasing | src/connection.ts:182-192 | whatever is fetched, the delivered entries have strictly increasing scores, all above the starting cursor, come from the fetch, and the cursor ends on the last one delivered |
| Connection.CursorStep | src/connection.ts:186-192 | one more fetched entry is delivered, and moves the cursor, exactly when it scores above the cursor |
| Connection.DeliveredStep | src/connection.ts:186-192 | one more fetched entry extends the cursor and the shown log exactly as one handled entry does |
| Connection.NoRedelivery | src/connection.ts:182-192 | everything a later fetch delivers scores above everything an earlier fetch delivered, so no message is delivered twice |
| Connection.DeliveredAll | src/connection.ts:186-192 | strictly ordered entries above the cursor are all delivered, and the cursor ends on the last |
| Connection.CursorDeliversLog | src/connection.ts:183-192 | on a table's chat log, fetching from `last + 1` delivers exactly the logged entries above the cursor, oldest first |
| Connection.Connection.constructor | src/connection.ts:25-26 | no wallet, no table, nothing subscribed or emitted |
| Connection.Connection.VerifyUserId | src/connection.ts:36-42 | true exactly when a wallet is set; otherwise the notice is emitted |
| Connection.Connection.HandleMsg | src/connection.ts:205-211 | emits the message's event unless this user is excluded |
| Connection.Connection.OnMsg | src/connection.ts:183-196 | on the "msg" signal the fetched entries above the cursor are shown in order and the cursor moves to the last delivered; any other message is shown directly |
| Connection.Connection.DeliverOne | src/connection.ts:187-191 | an entry at or below the cursor is skipped; one above it becomes the cursor and is shown unless it excludes this user |
| Connection.Connection.Deliver | src/connection.ts:186-192 | the cursor ends at `Cursor` of the fetched entries and exactly the entries `Delivered` above the cursor are shown, oldest first; the user and table fields are unchanged |
| Connection.Connection.SetTable | src/connection.ts:169-203 | leaves the previous table's channel, records the new table, and for a set table listens on it, starts the cursor at -1 and delivers what is logged; for none it only clears the table |
| Connection.Connection.HandleEvent | src/connection.ts:133-139 | `setTable` does what `SetTable` does: for a set table the cursor ends on and the socket gets the logged messages above -1, for none nothing is emitted; `revealCards` is passed to the socket; any other event is forwarded unchanged |
| Connection.Connection.RevealCards | src/connection.ts:213-215 | emits the cards on the socket |
| Connection.Connection.UserName | src/connection.ts:79-88 | without a wallet only the notice is emitted; otherwise the welcome is emitted and the name field of the user's hash is set; no other part of the store changes |
| Connection.Connection.Chat | src/connection.ts:90-101 | the line, prefixed with the cached name, goes into the table's chat under the message counter plus one, which is stored, with one "msg" signal published, when seated; otherwise back to the socket, the store unchanged |
| Connection.Connection.SetWaiting | src/connection.ts:141-145 | the user is pushed at the head of the waiting list; nothing else changes |
| Connection.Connection.GetNextWaiting | src/connection.ts:147-167 | an empty queue gives nobody; otherwise the tail entry is consumed and returned, an empty entry reading as nobody |
| Connection.Connection.Pair | src/connection.ts:115 | `newTable([waiting, userId])`: the next table id; its players set gains both users; both users' `table` field is set to it and no other hash field changes; the chat holds the two welcomes in seating order; its `setTable` events and two welcome signals are published; every other counter and sorted set and the lists are unchanged |
| Connection.Connection.TakePartner | src/connection.ts:110-115 | the longest-waiting entry leaves the queue; a non-empty entry is paired with the caller at a new table with the whole effect of `newTable`; an empty queue or empty entry gives no table and leaves the rest of the store as it was |
| Connection.Connection.PlayOnline | src/connection.ts:103-128 | without a wallet only the notice of `verifyUserId` is emitted and the store is untouched; with someone waiting, a new table seats the longest-waiting user first and the caller second, with the whole effect of `newTable` (players set, both `table` fields and no other hash field, the welcomes in the chat, the events, no other counter or sorted set changed) and nothing emitted on the socket; otherwise the caller queues and is told to wait |
| Connection.Connection.DrawCard | src/connection.ts:130 | publishes one empty message on `<userId>:drawCard` |
| CardGame.InvalidTexts | src/cardgame.ts:44-47 | the report is the header followed by one line per player, numbered from 1 in player order |
| CardGame.BroadcastMsgs | src/cardgame.ts:44-47 | the texts enter the chat log in order under successive message ids, with one signal each; nothing else changes |
| CardGame.InvalidReportOrdered | src/cardgame.ts:44-47 | after a refused `begin` the chat stays ordered and its newest entry is the last player's numbered line |
| CardGame.Poll | src/cardgame.ts:54-63 | between one and five rounds; every round before the last finds a player without cards, and stopping before the fifth round means every player owns cards |
| CardGame.RevealCard | src/games/solitaire.ts:29 | publishes one `revealCards` broadcast of exactly that card |
| CardGame.CardGame.constructor | src/cardgame.ts:26-35 | bound to the table, listening on `<tableId>:drawCard`, no players and no handler yet |
| CardGame.CardGame.OnDrawCard | src/cardgame.ts:14-15 | the handler becomes `fn`, replacing any earlier one |
| CardGame.CardGame.DrawRequested | src/cardgame.ts:30-34 | a request on the draw channel runs the registered handler exactly when there is one |
| CardGame.CardGame.Begin | src/cardgame.ts:37-66 | true exactly when the player count is within bounds; a refusal logs the numbered report and polls nothing; an acceptance broadcasts `beginGame` with the name and then polls as `Poll` says |
| War.GetValue | src/games/war.ts:57-62 | a minor card's value is its rank, below 14 and congruent to the card modulo 14; a major card keeps its catalogue index, at least 56 |
| War.MajorBeatsMinor | src/games/war.ts:56-62 | every major arcana scores above every minor card |
| War.SameRankTies | src/games/war.ts:58-59 | two minor cards of the same rank score the same, whatever their suits |
| War.Removed | src/cards.ts:48-49 | the filter keeps exactly the cards not among the arguments |
| War.RemovedAll | src/games/war.ts:103-104 | `pile.remove(pile.cards)` empties the pile |
| War.DisjointByCount | src/games/war.ts:78 | when no card lies in both piles, the `add` assertion holds |
| War.PickAConserves | src/games/war.ts:74-82 | player A's pick into an empty slot throws no assertion, keeps every card's count and keeps the invariant |
| War.PickBConserves | src/games/war.ts:83-92 | the same for player B |
| War.PickConserves | src/games/war.ts:73-92 | any pick keeps every card's count and the invariant, and throws nothing |
| War.AwardDisjoint | src/games/war.ts:101-102 | neither `add` onto the winner's pile meets a card it already holds |
| War.AwardCounts | src/games/war.ts:101-104 | moving both played piles onto the winner's pile keeps every card's count and uniqueness |
| War.AwardConserves | src/games/war.ts:99-112 | the winner's won pile gains A's then B's played pile, both played piles end empty, draw piles and the loser's pile are untouched, nothing throws |
| War.SettleConserves | src/games/war.ts:94-117 | the comparison keeps every card's count and the invariant |
| War.SettleOutcome | src/games/war.ts:97-116 | a strictly higher value gives both played piles to its owner, a tie leaves the piles alone, and both slots are cleared whatever the outcome |
| War.PlayConserves | src/games/war.ts:66-117 | while no card is in two places, a draw request throws no assertion, creates or loses no card, and keeps the invariant |
| War.FullBoardIgnored | src/games/war.ts:69-71 | a request while both slots are filled changes nothing and emits nothing |
| War.PickOwnSlotOnly | src/games/war.ts:73-92 | a pick touches only the requester's side, and a second request in the same round changes nothing |
| War.War.constructor | src/games/war.ts:10-12 | the game holds the table's players and empty piles, with no handlers yet |
| War.War.Open | src/games/war.ts:39-146 | six empty piles opened, handlers hooked, the six piles announced in order, both draw piles filled from the shuffled decks, each `add` telling its pile's namespace the ids |
| War.War.Begin | src/games/war.ts:14-146 | refuses any count but two and two seats on one wallet, each with its message and nothing else; otherwise polls as the framework does; an unset wallet then stops it with no state change and no event, while two set wallets open the game with its announcements and `addCards` events (also when already hooked); unhooked means unchanged; starting from disjoint decks the invariant holds |
| War.War.PickCard | src/games/war.ts:73-92 | the fields after a pick are the `Pick` round, and its events are emitted: the played pile's `addCards`, the reveal and the message |
| War.War.AwardPiles | src/games/war.ts:99-112 | the fields after an award are the `Award` round: the won pile's two `addCards`, each played pile's `removeCards`, then the message, stopping where an `add` throws |
| War.War.SettleBoard | src/games/war.ts:94-117 | the fields and events after a comparison are the `Settle` round, the award's namespace events included |
| War.War.DrawCard | src/games/war.ts:66-117 | before `begin` hooks the handlers nothing happens; afterwards a request leaves the fields at the `Play` round and emits its table and namespace events |
| Solitaire.TriangleClosedForm | src/games/solitaire.ts:24 | the first `i` piles take `i(i+1)/2` cards |
| Solitaire.DealSize | src/games/solitaire.ts:18-24 | the seven piles take 28 cards |
| Solitaire.RemainingSuffix | src/games/solitaire.ts:24 | after `i` piles the draw pile is the deck from position `Triangle(i)` on |
| Solitaire.PilePositions | src/games/solitaire.ts:24 | pile `i` receives the deck's cards from `Triangle(i)` up to `Triangle(i+1)`, clipped to the deck |
| Solitaire.DealConserves | src/games/solitaire.ts:24 | what the piles receive, followed by what is left, is the whole draw pile: no card is lost or copied |
| Solitaire.DealStepConserves | src/games/solitaire.ts:24 | dealing one more pile keeps that split |
| Solitaire.PileSize | src/games/solitaire.ts:24-26 | with at least 28 cards, pile `i` gets exactly `i + 1` cards and its first is card `Triangle(i)` |
| Solitaire.TriangleMonotone | src/games/solitaire.ts:24 | later piles start further into the deck |
| Solitaire.RevealsFull | src/games/solitaire.ts:25-30 | with a full deck every pile reveals exactly one card, card `Triangle(i)` of the deck |
| Solitaire.IndexOf | src/games/solitaire.ts:18-19 | the position of a key among the piles, or past the end when it is none of them |
| Solitaire.IndexOfPile | src/games/solitaire.ts:18-19 | with distinct keys, pile `j`'s key is found at `j` |
| Solitaire.DeckDealtStep | src/games/solitaire.ts:24 | drawing `i + 1` cards into pile `i` takes each deck from its state after `i` piles to its state after `i + 1` |
| Solitaire.FlipsDealtStep | src/games/solitaire.ts:25-30 | the callback for pile `i` takes each flip count from its state after `i` piles to its state after `i + 1` |
| Solitaire.DealStep | src/games/solitaire.ts:24-31 | one pile dealt takes every deck and every flip count one step further |
| Solitaire.RevealsStep | src/games/solitaire.ts:25-30 | one pile dealt adds its reveal, if any, after those of the earlier piles |
| Solitaire.DealtDecks | src/games/solitaire.ts:24 | after the deal the draw pile holds what is left, pile `i` has gained `Pile(d, i)`, other decks are unchanged |
| Solitaire.DealtFlips | src/games/solitaire.ts:26-28 | after the deal each pile has flipped only its first card received, once; other decks have no new flips |
| Solitaire.DealPile | src/games/solitaire.ts:24-31 | one `drawCards(i+1, pile)` with its callback: the front cards move, only the first one drawn is flipped and revealed, an empty draw flips nothing |
| Solitaire.DealPiles | src/games/solitaire.ts:24-31 | the loop over the seven piles leaves every deck and flip count in the dealt state, with the reveals in pile order |
| Solitaire.Deal | src/games/solitaire.ts:24-31 | pile `i` draws `i + 1` cards from the draw pile and flips and reveals its first; the draw pile keeps the rest; no other deck changes |
| Solitaire.Setup | src/games/solitaire.ts:22-31 | the shuffled deck is added to the draw pile, and the deal follows from what the draw pile then holds |
| Solitaire.Start | src/games/solitaire.ts:21-35 | on initial setup the deal happens and then the welcome line is logged; otherwise only the welcome line; no other deck and no other deck's flips change, nor the store's sets, hashes or lists |
| Solitaire.Solitaire.constructor | src/games/solitaire.ts:5-10 | a game named "Solitaire" for exactly one player, on eight distinct decks |
| Solitaire.Solitaire.Begin | src/games/solitaire.ts:12-36 | true exactly for one player; a refusal touches no deck and logs the invalid-players report in the chat with one signal per line; an acceptance deals only on initial setup and always logs the welcome; no deck but the game's and no flips but the piles' change, nor the store's sets, hashes or lists |
| Browse.Drawn | src/games/browse.ts:24-31 | the hand grows by one card exactly when it holds fewer than 24 and the deck is not empty, keeping its earlier cards; the deck only loses its front |
| Browse.DrawnConserves | src/games/browse.ts:28 | a draw moves a card without losing or copying one |
| Browse.DrawnNSize | src/games/browse.ts:24-31 | after `n` requests the hand holds `min(24, |hand| + min(n, |deck|))` cards, so it never passes 24 |
| Browse.DrawnNConserves | src/games/browse.ts:24-31 | any number of requests keeps the cards of deck and hand together |
| Browse.DrawReveals | src/games/browse.ts:24-31 | a reveal is published exactly when a card moves to the hand, and it reveals that card |
| Browse.RunDraw | src/games/browse.ts:22-32 | the handler leaves deck and hand as `Drawn` says, and publishes `DrawReveals`: a card is revealed exactly when one was drawn |
| Browse.Browse.constructor | src/games/browse.ts:6-10 | a game for exactly one player on two distinct decks |
| Browse.Browse.Begin | src/games/browse.ts:12-43 | true exactly for one player; a refusal keeps the handler and the decks and logs the invalid-players report in the chat with one signal per line; an acceptance registers the draw handler, fills the deck only on initial setup, and tells the player the draw pile's name; the store's sets, hashes and lists never change |
| Browse.Browse.OnMessage | src/cardgame.ts:30-34 | a draw request runs the registered handler as `Drawn` says and publishes the reveal of the drawn card; anything else changes nothing |
| Decks.CardIds | src/games/solitaire.ts:28 | the ids of the cards, in order |
| Decks.StockedEmpty | src/games/war.ts:145-146 | an empty deck takes every card it is given |
| Decks.DeckStore.RegisterCard | src/cardcollector.ts:76 | the new card's id is the registry's previous length and it is appended; nothing else changes |
| Decks.DeckStore.Add | src/games/solitaire.ts:23 | succeeds exactly when no card is already in the deck, and then appends them; otherwise the deck is unchanged; no other deck changes |
| Decks.DeckStore.DrawCards | src/games/solitaire.ts:24 | the front `count` cards, or all when fewer remain, move in order to the destination deck |
| Decks.DeckStore.DrawCard | src/games/browse.ts:28 | from an empty deck nothing; otherwise the front card moves to the destination's end |
| Decks.DeckStore.FlipIds | src/games/solitaire.ts:28 | each listed id gains one flip per occurrence in that deck only |
| Decks.DeckStore.ClearOwned | src/cardcollector.ts:45 | the wallet's owned cards are forgotten |
| Decks.DeckStore.AddOwned | src/cardcollector.ts:85 | the cards are appended to the wallet's owned cards |
| Decks.OccurrencesAppend | src/games/solitaire.ts:28 | flips of several id lists add up |
| Ledger.Active | src/cardcollector.ts:52 | an entry is kept exactly when it is in the ledger answer and active |
| Ledger.CollectAmounts | src/cardcollector.ts:56-59 | the loop leaves the map that setting each entry's amount in order gives |
| Ledger.AmountsDomain | src/cardcollector.ts:56-59 | a token id has an amount exactly when some active entry names it |
| Ledger.AmountsLastWins | src/cardcollector.ts:57-58 | when a token id repeats, the amount of its last entry is the one looked up |
| Ledger.Copies | src/cardcollector.ts:75-77 | `amount` instances of one token, none for a zero or negative amount |
| Ledger.Instances | src/cardcollector.ts:73-81 | an entry whose amount is missing or zero registers nothing; otherwise as many instances of its token as the amount |
| Ledger.ExpansionSize | src/cardcollector.ts:70-82 | the metadata loop registers as many instances as the positive amounts add up to, each one the token of an entry with a positive amount |
| CardCollector.Registered | src/cardcollector.ts:76 | one card per instance, valued `token_id % totalCards`, so below the catalogue's size |
| CardCollector.RegisteredAppend | src/cardcollector.ts:70-82 | registering the entries one after the other hands out the same cards as registering them together |
| CardCollector.RegisterCopies | src/cardcollector.ts:75-77 | the inner loop registers `amount` cards of the token with consecutive ids and changes nothing but the registry |
| CardCollector.RegisterEntry | src/cardcollector.ts:73-81 | one metadata entry registers its instances, and nothing for a missing or zero amount |
| CardCollector.RegisteredStep | src/cardcollector.ts:70-82 | one more metadata entry appends its cards to those of the entries before it |
| CardCollector.RegisterAll | src/cardcollector.ts:70-84 | the metadata loop appends to the registry exactly the cards of the expansion of every entry, in order |
| CardCollector.RegisteredOwned | src/cardcollector.ts:70-85 | the registered cards number the sum of the positive amounts, have consecutive ids and each belongs to an entry with a positive amount |
| CardCollector.Collect | src/cardcollector.ts:43-93 | the owned set is cleared; with no active entry nothing else happens; otherwise the registered cards become the wallet's owned set and one `revealCards` event with them is sent to the wallet |
| CardCollector.Collectors.constructor | src/cardcollector.ts:24 | no collector has been started |
| CardCollector.Collectors.CollectCards | src/cardcollector.ts:26-33 | a wallet that already has a collector changes nothing; otherwise it gets one and the collection runs as `Collect` says |
| CardPlayer.ChatLine | src/cardplayer.ts:53-55 | the line ends with the message; it is exactly the message when the name is empty, and otherwise starts with the name and `: ` |
| CardPlayer.Unseat | src/cardplayer.ts:92 | the leaving player has no seat left, and every other player keeps theirs |
| CardPlayer.Table.constructor | src/cardplayer.ts:73 | a new table has no players and no messages and is neither welcomed nor destroyed |
| CardPlayer.Table.Join | src/cardplayer.ts:74-75 | the player is seated last and the table becomes theirs; nothing else about them changes |
| CardPlayer.Table.Leave | src/cardplayer.ts:92 | the roster loses the player as `Unseat` says |
| CardPlayer.Table.Welcome | src/cardplayer.ts:76 | the table is marked welcomed and nothing else changes |
| CardPlayer.Table.Emit | src/cardplayer.ts:58 | the message is appended to the table's messages |
| CardPlayer.Table.Destroy | src/cardplayer.ts:97 | the table is marked destroyed and nothing else changes |
| CardPlayer.Tables.constructor | src/cardplayer.ts:9 | the list of tables starts empty |
| CardPlayer.FirstPending | src/cardplayer.ts:68-69 | the index found holds a waiting player and none before it does; nothing is found exactly when nobody waits |
| CardPlayer.PendingPlayer | src/cardplayer.ts:68-70 | a partner exists exactly when some player waits, and it is a waiting player of the list |
| CardPlayer.IndexOfFrom | src/cardplayer.ts:96 | `indexOf(x, from)`: a found index holds `x` with none between `from` and it; -1 exactly when `x` is absent from `from` on |
| CardPlayer.SpliceFrom | src/cardplayer.ts:96 | `splice(start)` without a count keeps a prefix of length `start`, all of it past the end, and counts a negative start from the end |
| CardPlayer.DestroyAsWrittenCases | src/cardplayer.ts:96 | as written, a table found past the front is removed with every later one, and otherwise the last table is removed |
| CardPlayer.DestroyFirstOfTwo | src/cardplayer.ts:96 | destroying the first of two tables keeps it and removes the second |
| CardPlayer.RemoveTable | src/cardplayer.ts:96 | the intended splice removes exactly the table's first occurrence and leaves the list alone when it is absent |
| CardPlayer.RemoveFirstOfTwo | src/cardplayer.ts:96 | with the intended splice, destroying the first of two tables keeps the second |
| CardPlayer.MintedAppend | src/cardplayer.ts:129-141 | registering the entries one after the other hands out the same cards as registering them together |
| CardPlayer.MintedOwned | src/cardplayer.ts:129-141 | the cards registered number the sum of the positive amounts, have consecutive ids and each is the token of an entry with a positive amount |
| CardPlayer.RegisterCopies | src/cardplayer.ts:134-136 | the inner loop registers `amount` cards of the token with consecutive ids |
| CardPlayer.MintedStep | src/cardplayer.ts:129-141 | one more metadata entry appends its cards to those of the entries before it |
| CardPlayer.RegisterEntry | src/cardplayer.ts:132-140 | one metadata entry registers its instances, and nothing for a missing or zero amount |
| CardPlayer.RegisterAll | src/cardplayer.ts:128-141 | the metadata loop appends to the registry exactly the cards of the expansion of every entry, in order |
| CardPlayer.Player.constructor | src/cardplayer.ts:29-35 | a player starts named `Unknown`, without wallet, table or owned deck, not waiting, with nothing sent |
| CardPlayer.Player.UserName | src/cardplayer.ts:47-50 | the name is set and `Welcome <name>!` is sent to the player; nothing else changes |
| CardPlayer.Player.Chat | src/cardplayer.ts:52-62 | the chat line goes to the whole table when the player is seated and back to the player's own socket otherwise |
| CardPlayer.Player.PlayOnline | src/cardplayer.ts:64-86 | with a waiting player, the first one stops waiting and a new welcomed table seating them and then the caller is appended to the tables; a caller who is the first waiting player is seated twice; otherwise the caller waits and is told so; no other player changes |
| CardPlayer.Player.Destroy | src/cardplayer.ts:89-100 | the player leaves their table; when at most one player remains the table is destroyed and the tables are spliced as written; without a table nothing changes |
| CardPlayer.Player.GetCards | src/cardplayer.ts:106-152 | with no active entry nothing changes; otherwise the expansion's cards are registered, and when the wallet is set an owned deck named `owned` is created, announced those cards, and the cards are revealed to the player |
| CardPlayer.Player.SetWallet | src/cardplayer.ts:41-45 | the address is stored and the owned cards are fetched for it as `GetCards` says |
| Admin.Letter | src/admin.ts:89 | one draw of `ch` is a letter from `a` to `z` |
| Admin.LotName | src/admin.ts:93 | four draws make a name of four lower-case letters |
| Admin.RandomLotName | src/admin.ts:89-93 | a name takes exactly four draws and is four lower-case letters: the name `NameAt` gives for the seed and the number of calls made before |
| Admin.Ch | src/admin.ts:89 | one call of `ch` takes one draw and gives its letter |
| Admin.DrewFour | src/admin.ts:93 | four single draws in a row are the next four words of the generator, in order |
| Admin.DrewKeeps | src/admin.ts:93 | a draw never changes the words drawn before it |
| Admin.NameAtWords | src/admin.ts:89-93 | the name at a position is the one the four words after that many calls make, one letter each |
| Admin.DrawName | src/admin.ts:93-94 | a name kept is not taken, comes after at least the four calls of its draw, and spends no more redraws than there were |
| Admin.DrawNameMoreFuel | src/admin.ts:93-94 | once a name is found, more redraws find the same name after the same calls |
| Admin.DrawNameRetry | src/admin.ts:93-94 | a taken name with redraws left sends the do/while round again, with the same outcome |
| Admin.NextLotName | src/admin.ts:93-94 | the do/while keeps the first name offered that is not taken, as `DrawName` says, after exactly the calls it made; it is a four-letter name |
| Admin.AppendFreshLot | src/admin.ts:94-95 | pushing a name that is not taken keeps the names distinct |
| Admin.AppendNewLot | src/admin.ts:94-95 | pushing it keeps every lot a distinct four-letter name with no CID |
| Admin.LotsDrawnStep | src/admin.ts:91-96 | one round of the for loop: the lots found are those after appending the round's name, or none when its redraws ran out |
| Admin.LotsDrawnMoreFuel | src/admin.ts:88-98 | once the lots are found, more fuel finds the same lots, so they depend on the names the generator offers alone |
| Admin.GenerateLots | src/admin.ts:88-98 | the lots are exactly those `LotsDrawn` finds among the names the seed offers from the calls made before, so they follow from the seed; four lots with four-letter names, no name repeated, no CID yet |
| Admin.SumIncrement | src/admin.ts:217 | counting one more pick of a card adds one to the lot total |
| Admin.SumConstant | src/admin.ts:179-184 | `n` entries of `v` add up to `n * v` |
| Admin.FillRareLot | src/admin.ts:177-184 | the rare lot is 780 cards, ten copies of each catalogue index in index order, and its totals are ten per card |
| Admin.AssignOdds | src/admin.ts:189-197 | every card's odds lie in [900, 1000], the cumulative odds are their running sums, strictly increasing, and end at `total` |
| Admin.Pick | src/admin.ts:200-209 | one draw, and the index returned is the least whose cumulative odds exceed `rand() % total`, so the failure fallback is never taken |
| Admin.FillLot | src/admin.ts:211-220 | `lotSize` picks of the lot are appended after the earlier cards and `totals` counts each card index among them, adding up to `lotSize` |
| Admin.FilledStep | src/admin.ts:214-218 | one more pick is appended and counted |
| Admin.DecodeTokenId | src/admin.ts:279-280 | the decoded card index is below `totalCards` |
| Admin.DecodeEncode | src/admin.ts:253 | decoding the token id of a catalogue card gives the card back |
| Admin.EncodeDecode | src/admin.ts:279-280 | encoding a decoded token id gives the id back |
| Admin.TokenIdInjective | src/admin.ts:253 | two cards of the catalogue with the same token id are the same card |
| Admin.TokenIds | src/admin.ts:253 | the token id of each card, in order |
| Admin.TokenIdsSplice | src/admin.ts:265 | splicing a card out of `remaining` splices its id out of the ids |
| Admin.MultisetSplice | src/admin.ts:265 | splicing one element out removes one occurrence of it |
| Admin.DistinctAppend | src/admin.ts:255-264 | an id not yet in the pack keeps the pack free of repeats |
| Admin.FlattenAppend | src/admin.ts:268 | a new pack adds its ids after those of the earlier packs |
| Admin.PackSplitStep | src/admin.ts:264-265 | moving a card from `remaining` into the pack keeps the pack free of repeats and every card in the pack or still remaining |
| Admin.DrawPack | src/admin.ts:249-268 | a drawn pack has one to seven distinct ids, which with the ids still remaining are exactly the ids remaining before it, and `mintTotals` grows by the pack's size |
| Admin.PackSplitMultiset | src/admin.ts:249-268 | a finished pack and what remains account for the cards before it, and the remaining cards are among them |
| Admin.GeneratePacks | src/admin.ts:243-269 | at the end fewer than seven cards are left, every pack is well formed, the packs' ids and the left-over ids are exactly the ids of all cards, and `mintTotals` adds up to the number of packed ids |
| Admin.DistinctCount | src/admin.ts:255 | in a pack without repeats each id occurs at most once |
| Admin.PackCountFlatten | src/admin.ts:331 | counting the packs that hold a token counts its occurrences in all packs |
| Admin.FirstMintedLot | src/admin.ts:312 | a lot is passed over as already minted exactly when its index is below the first lot minted |
| Admin.LotSkippedBelow | src/admin.ts:312 | the passed-over lots are those below `ceil(startId / totalCards)` |
| Admin.LotBatch | src/admin.ts:317-346 | a lot's batch has the mint call of each of its 78 cards in order, or the first token whose pack count differs from its lot total is reported with both numbers; no error exactly when every count matches |
| Admin.MismatchFound | src/admin.ts:333-334 | a differing token fails the lot's check and is reported with its count and its expected total |
| Admin.BatchStep | src/admin.ts:319-346 | a matching card's mint call extends the batch and the matched cards of the lot |
| Admin.MintBatches | src/admin.ts:306-353 | no error exactly when every lot has a CID and every lot not passed over matches its totals; the batches sent are those of the lots from the first minted one; a missing CID is reported for the first lot without one |
| Admin.BatchesFromStep | src/admin.ts:306-353 | the next lot's batch extends the batches sent so far |
| Admin.OtherLotAbsent | src/admin.ts:216 | the picks of one lot hold no card of another lot |
| Admin.LotsCountedStep | src/admin.ts:189-221 | appending a lot's picks with their totals keeps every lot's totals equal to its count of cards in `remaining` |
| Admin.SumPrefixStep | src/admin.ts:166-171 | the lot sizes so far add up one lot at a time |
| Admin.SegmentOfLot | src/admin.ts:216 | the cards after the earlier lots all belong to the new lot |
| Admin.LotSumsStep | src/admin.ts:220 | each lot's totals add up to its size |
| Admin.LotCountsStep | src/admin.ts:214-220 | earlier lots' counts survive a new lot, whose counts are its totals |
| Admin.FillLots | src/admin.ts:174-221 | after the four lots, every total counts exactly the copies of that card of that lot in `remaining` and each lot's totals add up to its size |
| Admin.LotsCountedSize | src/admin.ts:166-171 | all lots together make 125 580 cards |
| Admin.TokenIdCount | src/admin.ts:253 | counting a token id among the cards counts the card itself |
| Admin.PackCountPlusLeft | src/admin.ts:243-269 | the packs holding a token plus its left-over copies make up its lot total |
| Admin.MintPassesIffAllPacked | src/admin.ts:306-335 | freshly generated packs pass the mint check exactly when every lot has a CID and every left-over card belongs to a lot passed over |
| Admin.PassesIffLeftSkipped | src/admin.ts:312-335 | when a count matches exactly if no copy is left over, the check passes exactly when every left-over card is in a passed-over lot |
| Admin.MintSet | src/admin.ts:47-364 | the lot names are those `LotsDrawn` finds for the seed of the set name, with the uploaded CIDs, so two runs on one set name make the same lots; totals that count the lots' cards; packs generated exactly when none are stored, and the stored packs used otherwise; no error exactly when the mint check passes; the batches of the minted lots |
| Admin.SetRandom | src/admin.ts:83-84 | a new generator with nothing drawn, seeded with `SetSeed(set)`, the four calls of the closure of `xmur3(set)` |
| Admin.SetSeedStream | src/admin.ts:83-84 | the four seed words are the first four values of `xmur3(set)` |
| Admin.WithCids | src/admin.ts:157-163 | each lot keeps its name and gets its upload's CID, and distinct names stay distinct |
| Admin.PlanPacks | src/admin.ts:235-294 | stored packs are used as found; otherwise packs are generated, and they pass the mint check exactly when every lot has a CID and only cards of passed-over lots are left out |
| Tezos.Txs | python/contracts/escrow.py:30-32 | one item per id, amount 1 to `to_`, in reverse order of `ids` because `push` conses at the head |
| Tezos.Fa2Transfer | python/contracts/escrow.py:27-33 | fails, as `open_some()` does, exactly when `fa2` has no `transfer` entry point of the expected type; otherwise emits one zero-mutez call of it carrying one batch from `from_` with the items of `Txs` |
| Tezos.TotalRemove | python/contracts/escrow.py:19-20 | deleting a user's entry takes exactly its amount off the total held, whichever entry is taken first |
| Tezos.TotalAdd | python/contracts/escrow.py:14 | storing a new user's amount adds exactly that amount to the total held |
| Tezos.TotalEmpty | python/contracts/escrow.py:75 | the total held is zero exactly when every stored amount is zero |
| Escrow.Escrow.constructor | python/contracts/escrow.py:4-5 | empty map, zero balance |
| Escrow.Escrow.AddFunds | python/contracts/escrow.py:11-14 | fails exactly on a zero amount or a sender with a pending entry, with the contract's message for each, rolling everything back; otherwise stores the amount, the balance grows by it and still equals the escrowed total plus other receipts |
| Escrow.Escrow.PullFunds | python/contracts/escrow.py:17-20 | fails with "no pending transaction" exactly when the sender has no entry; otherwise sends the stored amount back, deletes the entry and keeps the balance invariant |
| Escrow.Marketplace.constructor | python/contracts/escrow.py:23-25 | an empty escrow with the given FA2 contract and administrator |
| Escrow.Marketplace.RedeemFunds | python/contracts/escrow.py:35-46 | fails exactly when the sender is not the administrator, the buyer has no entry, the entry differs from the price, or `fa2` has no typed `transfer` entry point, with each message; otherwise pays the administrator, emits the FA2 transfer to the buyer, deletes the entry, keeps the balance invariant |
| Escrow.EscrowScenario | python/contracts/escrow.py:61-75 | of the five calls only the second and fifth succeed, and the balance ends at zero |
| Escrow.MarketplaceScenario | python/contracts/escrow.py:80-90 | only the purchase and the last redemption succeed, and the balance ends at zero |
| Tickets.GetAndUpdate | python/contracts/tickets.py:12 | returns the previous binding and the map with the key bound to the new ticket or removed |
| Tickets.Contents | python/contracts/tickets.py:5 | the mutez paid per holder is the content of that holder's ticket, for exactly the holders |
| Tickets.ContentsAdd | python/contracts/tickets.py:11-13 | storing a ticket records its content for that holder and nothing else changes |
| Tickets.ContentsRemove | python/contracts/tickets.py:19-20 | taking a ticket out removes exactly that holder's content |
| Tickets.Escrow.constructor | python/contracts/tickets.py:4-5 | no tickets, zero balance |
| Tickets.Escrow.PurchaseTicket | python/contracts/tickets.py:7-14 | fails exactly on a zero amount or a sender already holding a ticket (the swap is rolled back, the old ticket kept); otherwise stores a self-minted ticket of content `amount` and quantity 1 and keeps the balance invariant |
| Tickets.Escrow.RefundTicket | python/contracts/tickets.py:16-23 | fails exactly when the sender holds no ticket; otherwise removes it and sends its content back |
| Tickets.Marketplace.constructor | python/contracts/tickets.py:26-28 | an empty ticket escrow with the given FA2 contract and administrator |
| Tickets.Marketplace.RedeemTicket | python/contracts/tickets.py:38-51 | fails exactly for a non-administrator sender, a buyer without a ticket, a content other than the price, or an `fa2` without a typed `transfer` entry point; otherwise consumes the ticket, pays the administrator and emits the FA2 transfer to the buyer |
| Tickets.EscrowScenario | python/contracts/tickets.py:64-78 | only the second and fifth calls succeed, the rejected purchase keeps the 5-tez ticket, and the balance ends at zero |
| Tickets.MarketplaceScenario | python/contracts/tickets.py:83-92 | only the purchase and the last redemption succeed, and the balance ends at zero |
| RandomContract.Lower7 | python/contracts/random.py:9-10 | the result is below 128 |
| RandomContract.Lower16 | python/contracts/random.py:12-13 | the result is below 2^16 |
| RandomContract.Lower32 | python/contracts/random.py:15-16 | the result is below 2^32 |
| RandomContract.LowerIsMask | python/contracts/random.py:4-16 | each fixed-width `lower` equals the bitwise AND with its mask |
| RandomContract.MaskIsMod | python/contracts/random.py:4-7 | AND with `2^k - 1` is the remainder modulo `2^k`, the alternative the contract's comment names |
| RandomContract.MaskIsLowBits | python/contracts/random.py:4-5 | AND with `2^k - 1` keeps exactly the low `k` bits |
| RandomContract.LowBitsMod | python/contracts/random.py:4-7 | the low `k` bits are the remainder modulo `2^k` |
| RandomContract.ByteTable | python/contracts/random.py:28-29 | every one-byte string maps to its value |
| RandomContract.Random.constructor | python/contracts/random.py:24-31 | empty hash, zero value, the byte table, no results |
| RandomContract.Random.BytesToNat | python/contracts/random.py:33-43 | the loop computes the big-endian value of the bytes |
| RandomContract.BigEndianBound | python/contracts/random.py:33-43 | an `n`-byte string decodes below `256^n` |
| RandomContract.ToBytes | python/contracts/random.py:33-43 | the encoding has exactly `n` bytes |
| RandomContract.BigEndianToBytes | python/contracts/random.py:33-43 | decoding the `n`-byte encoding of a number below `256^n` gives it back |
| RandomContract.ToBytesBigEndian | python/contracts/random.py:33-43 | encoding a decoded string gives the same bytes |
| RandomContract.Draw | python/contracts/random.py:65-67 | each pushed value is below 2^32 |
| RandomContract.Generate | python/contracts/random.py:62-68 | 256 values, position `i` holding the output of step `256 - i`, newest first |
| RandomContract.Random.Run | python/contracts/random.py:45-68 | the new hash is the seed and its value the seed's big-endian value; the window comes from the low 7 bits of the previous value; results are the 256 outputs of the generators seeded from that window |

## Left out

- **Redis and messaging**:
  - Redis itself, its network round trips and pub/sub delivery are not modelled. The store is one in-memory object, and published messages are an appended log.
  - JSON text is kept as structured values: two chat entries are the same sorted-set member exactly when they are equal values.
  - Socket `emit` is an appended per-player or per-table log.
- **Async code** is treated as sequential; each handler runs to completion:
  - the un-awaited `add` in `src/games/solitaire.ts:23`;
  - the `Promise.all` of the collector;
  - the `sleep` delays in war.ts.
  - For the solitaire `add`, this means a refused add still lets the deal draw from the unchanged pile, as the code does.
- **Values taken as parameters**:
  - the indexer (axios) answers: the ledger entries and metadata entries;
  - the shuffled decks from `getShuffledDeck`;
  - the answers of the `hasOwned`/`owned` polls: `ownedAt[k]`, the wallets owning cards at poll `k`;
  - the order in which `sMembers` lists a set;
  - the CIDs returned by the uploads of `mintSet`, the pack collection as found, and the contract's `all_tokens`;
  - the packed address of the originated contract in `random.py`.
- **The deck API of the newer game code** (`initDeck`, `drawCards`, `drawCard`, `flipIds`, `numCards`, `addOwned`, `clearOwned`, `hasOwned`, the valued `registerCard`): `src/cards.ts` does not define it. `Decks` specifies only what the callers rely on: a deck is drawn from the front, `add` appends and refuses cards already present, and flips are counted per deck and card. `getShuffledDeck` is not part of this model, beyond its result as a parameter.
- **War's decks**: War uses `CardDeck`, but the `CardDeck` of `src/cards.ts` has no `drawCard`, and its `add` never grows a deck. War is therefore modelled on the `Decks` semantics, where `add` appends. Each `add` and `remove` still tells its pile's namespace the ids, as `src/cards.ts:45` and `:50` do; `drawCard` is taken to emit nothing, since no file of this snapshot defines it.
- **Card identity**: `cards.includes(card)` (`src/cards.ts:43`, `:49`) compares card objects by reference; the model compares card values. The two agree because every card is made once by a registry that hands out fresh ids: `Cards.Registry.RegisterCard` keeps every id equal to its registry position, and so does `Decks.DeckStore.RegisterCard`, so two distinct cards never have equal values.
- CardGame.CardGame.DrawRequested: the handler runs without the `player` argument that `src/cardgame.ts:32` passes it; the only handler registered in this snapshot (`src/games/browse.ts:22`) ignores it.
- **The older `CardTable` class** that `src/cardplayer.ts` and `src/games/war.ts` use is not part of this model: `src/cardtable.ts` defines no class. `CardPlayer.Table` is a minimal stand-in: join, leave, welcome, emit, destroy, players.
- **`revealCard`**: `src/games/solitaire.ts` and `src/games/browse.ts` import it, but no file of this snapshot defines it. It is modelled as `revealCards` of a one-card list.
- **`totalMinor`**: `src/games/war.ts` imports it, but `src/tarot.ts` does not export it. It is taken to be 56 = 14 × 4.
- **Connection, unmodelled handlers and outcomes**:
  - `setWallet` (`src/connection.ts:56-77`) and `disconnect` (`src/connection.ts:44-47`) are not modelled.
  - `Connection.Connection.PlayOnline` models the pairing, but not the game it starts: `src/connection.ts:118` passes a table id where War's constructor takes a table object.
  - The `drawCard` request is published on `<userId>:drawCard` (`src/connection.ts:130`), while the game framework listens on `<tableId>:drawCard`. The model keeps both channels as written, so such a request never reaches a game.
- CardGame.CardGame.Begin: `begin` (`src/cardgame.ts:37`) takes no argument and always validates and polls.
- **`parseInt`**: ledger keys, amounts and token ids arrive already parsed as integers. A malformed string (`NaN`) is not modelled.
- **Multi-version mismatch**: `src/cardplayer.ts` registers cards as `registerCard(token_id, ipfsUri)` with the registry of `src/cards.ts`. `src/cardcollector.ts` registers them as `registerCard(token_id % totalCards, token_id, ipfsUri)` with the newer API. Both are modelled as written.
- **I/O of `mintSet`** is left out:
  - the asset checks, the directory writes and the metadata JSON files;
  - the NFT.Storage uploads and MongoDB;
  - the signer and the batch sends with their confirmations;
  - the `pct`, `odds` and `totals` progress events.
  - The floating-point progress values are left out with them.
- **The mint loop's token skip**: the inner `startId > tokenId` skip of the mint loop (`src/admin.ts:326-328`) can never fire, because a lot that reaches it starts at or above `startId`. `Admin.LotBatch` proves that branch dead.
- Admin.GenerateLots: the do/while that redraws a duplicate lot name (`src/admin.ts:93-94`) ends only when the generator yields a new name. Each redraw spends one unit of `fuel`, shared by the four lots, and `None` stands for running out. `Admin.LotsDrawnMoreFuel` shows that more fuel never changes lots already found; nothing is said about a run that needs more redraws.
- Admin.DrawPack: a duplicate pack card (`src/admin.ts:255-262`) is redrawn until a new one comes up. Each redraw spends one retry, and `None` stands for running out. This bound hides a possible non-termination of the loop as written: when more than seven cards remain and every one of them carries a token id already in the pack, no draw can succeed and the give-up test never fires, so the loop never ends. The model returns `None` there.
- Admin.GeneratePacks: the retries of all packs share one `fuel` bound, and `None` stands for running out.
- Admin.MintSet: it returns `None` when the fuel of the lot-name or pack redraws runs out. It does not model I/O failures (a failing upload, connection or send); the error it reports is one of the two the code throws.
- RandomContract.Lower7: written as the remainder modulo 128; `RandomContract.LowerIsMask` proves it equal to `value & 0x7F`.
- RandomContract.Lower16: written as the remainder modulo 2^16; `RandomContract.LowerIsMask` proves it equal to `value & 0xFFFF`.
- RandomContract.Lower32: written as the remainder modulo 2^32; `RandomContract.LowerIsMask` proves it equal to `value & 0xFFFFFFFF`.
- **Contract failure messages**: the messages of `sp.verify` calls without a message of their own, and of `open_some()`, are approximations of SmartPy's wording. Whether `fa2` has a `transfer` entry point of the expected type is a fact of the chain, passed to the redemptions as a parameter; the test scenarios pass `true`, as their FA2 contract has one.
- **Ghost `surplus` in the escrow models**: mutez attached to calls that keep them without recording them (`pull_funds` with an amount, for instance) are counted in a ghost `surplus`. With it, the balance invariant is exact.
- **Other files** are not part of this model:
  - `src/server.ts` (Express and socket.io wiring);
  - `src/marketplace.ts`, `src/escrow.ts`, `src/escrow-utils.ts` (wallet and chain calls);
  - `src/App.tsx` (user interface);
  - `src/utils.ts` (filesystem);
  - `src/avatars.ts`;
  - `src/contracts.ts` (constants);
  - `src/tests/test.ts` (a live Redis check);
  - the image scripts under `python/scripts/`.
- **Solitaire pile names**: `getDeckName` builds them from floating-point coordinates. They are taken as opaque, pairwise distinct strings.

## Findings

| source | as written | input that shows it | evidently intended | confidence | as-written member | corrected member |
|---|---|---|---|---|---|---|
| src/cardplayer.ts:96 | `tables.splice(tables.indexOf(table, 1))`: the search starts at index 1 and the splice has no delete count, so everything from the found index to the end is removed; a table at index 0 is not found, and `splice(-1)` then removes the last table | two tables `[t1, t2]`, destroying `t1`: `t1` stays and `t2` is removed | `tables.splice(tables.indexOf(table), 1)`, removing exactly that table | not executed | CardPlayer.DestroyFirstOfTwo | CardPlayer.RemoveFirstOfTwo |

`CardPlayer.DestroyAsWrittenCases` states the as-written behaviour for every input. `CardPlayer.RemoveTable` states the intended removal for every input. `CardPlayer.Player.Destroy` keeps the code as written.
