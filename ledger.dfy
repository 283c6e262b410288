/**
 * The owned-token lookup that src/cardcollector.ts and src/cardplayer.ts
 * both perform: the active ledger entries of a wallet give an amount per
 * token id, and each token's metadata entry then stands for that many
 * card instances. The indexer queries themselves are left out; their
 * answers are parameters.
 */
module Ledger {

  /** A ledger entry of the FA2 contract, its `nat` key and `value` already parsed. */
  datatype LedgerEntry = LedgerEntry(tokenId: nat, amount: int, active: bool)

  /** A token metadata entry: the token id and its decoded `token_info['']`. */
  datatype MetadataEntry = MetadataEntry(tokenId: nat, ipfsUri: string)

  /** One card instance to register. */
  datatype Mint = Mint(tokenId: nat, ipfsUri: string)

  /** `data.filter(entry => entry.active)`. */
  function Active(entries: seq<LedgerEntry>): (r: seq<LedgerEntry>)
    ensures forall e :: e in r <==> e in entries && e.active
    ensures |r| <= |entries|
  {
    if entries == [] then []
    else (if entries[0].active then [entries[0]] else []) + Active(entries[1..])
  }

  /** The `amounts` map after `amounts.set(tokenId, amount)` for each entry in order. */
  function AmountsOf(entries: seq<LedgerEntry>): map<nat, int>
  {
    if entries == [] then map[]
    else
      var e := entries[|entries| - 1];
      AmountsOf(entries[..|entries| - 1])[e.tokenId := e.amount]
  }

  /** The loop that fills `amounts`. */
  method CollectAmounts(entries: seq<LedgerEntry>) returns (amounts: map<nat, int>)
    ensures amounts == AmountsOf(entries)
  {
    amounts := map[];
    for i := 0 to |entries|
      invariant amounts == AmountsOf(entries[..i])
    {
      assert entries[..i + 1][..i] == entries[..i];
      amounts := amounts[entries[i].tokenId := entries[i].amount];
    }
    assert entries[..|entries|] == entries;
  }

  /** A token id has an amount exactly when some entry names it. */
  lemma {:induction false} AmountsDomain(entries: seq<LedgerEntry>, k: nat)
    ensures k in AmountsOf(entries) <==> exists i :: 0 <= i < |entries| && entries[i].tokenId == k
  {
    if entries != [] {
      var init := entries[..|entries| - 1];
      AmountsDomain(init, k);
      if k in AmountsOf(init) {
        var i :| 0 <= i < |init| && init[i].tokenId == k;
        assert entries[i] == init[i];
      }
      if exists i :: 0 <= i < |entries| && entries[i].tokenId == k {
        var i :| 0 <= i < |entries| && entries[i].tokenId == k;
        if i < |init| {
          assert init[i] == entries[i];
        }
      }
    }
  }

  /** When a token id repeats, the last entry's amount wins. */
  lemma {:induction false} AmountsLastWins(entries: seq<LedgerEntry>, i: nat)
    requires i < |entries|
    requires forall j :: i < j < |entries| ==> entries[j].tokenId != entries[i].tokenId
    ensures entries[i].tokenId in AmountsOf(entries)
    ensures AmountsOf(entries)[entries[i].tokenId] == entries[i].amount
  {
    if i < |entries| - 1 {
      var init := entries[..|entries| - 1];
      assert init[i] == entries[i];
      AmountsLastWins(init, i);
    }
  }

  /** `n` instances of one token; none when `n` is not positive. */
  function Copies(n: int, m: Mint): (r: seq<Mint>)
    ensures |r| == (if n > 0 then n else 0)
    ensures forall x :: x in r ==> x == m
  {
    if n <= 0 then [] else Copies(n - 1, m) + [m]
  }

  /**
   * The registrations of the metadata loop: an entry whose amount is
   * missing or zero (falsy) registers nothing, any other entry `amount`
   * instances of its token.
   */
  function Expansion(metadata: seq<MetadataEntry>, amounts: map<nat, int>): seq<Mint>
  {
    if metadata == [] then []
    else Expansion(metadata[..|metadata| - 1], amounts) + Instances(metadata[|metadata| - 1], amounts)
  }

  /** What one metadata entry registers: as many instances of its token as it stands for. */
  function Instances(e: MetadataEntry, amounts: map<nat, int>): (r: seq<Mint>)
    ensures |r| == Owned(e, amounts)
    ensures forall x :: x in r ==> x == Mint(e.tokenId, e.ipfsUri)
  {
    if e.tokenId in amounts && amounts[e.tokenId] != 0
    then Copies(amounts[e.tokenId], Mint(e.tokenId, e.ipfsUri)) else []
  }

  /** The number of instances an entry stands for. */
  function Owned(e: MetadataEntry, amounts: map<nat, int>): nat
  {
    if e.tokenId in amounts && amounts[e.tokenId] > 0 then amounts[e.tokenId] else 0
  }

  function TotalOwned(metadata: seq<MetadataEntry>, amounts: map<nat, int>): nat
  {
    if metadata == [] then 0
    else TotalOwned(metadata[..|metadata| - 1], amounts) + Owned(metadata[|metadata| - 1], amounts)
  }

  /** `x` is an instance of the token of entry `e`, which stands for at least one. */
  predicate InstanceOf(x: Mint, e: MetadataEntry, amounts: map<nat, int>)
  {
    x == Mint(e.tokenId, e.ipfsUri) && Owned(e, amounts) > 0
  }

  /**
   * The expansion registers exactly the positive amounts, each instance
   * being a token of a metadata entry with a positive amount.
   */
  lemma {:induction false} ExpansionSize(metadata: seq<MetadataEntry>, amounts: map<nat, int>)
    ensures |Expansion(metadata, amounts)| == TotalOwned(metadata, amounts)
    ensures forall x :: x in Expansion(metadata, amounts) ==>
      exists i :: 0 <= i < |metadata| && InstanceOf(x, metadata[i], amounts)
  {
    if metadata != [] {
      var init := metadata[..|metadata| - 1];
      var e := metadata[|metadata| - 1];
      ExpansionSize(init, amounts);
      forall x | x in Expansion(metadata, amounts)
        ensures exists i :: 0 <= i < |metadata| && InstanceOf(x, metadata[i], amounts)
      {
        if x in Expansion(init, amounts) {
          var i :| 0 <= i < |init| && InstanceOf(x, init[i], amounts);
          assert metadata[i] == init[i];
        } else {
          assert InstanceOf(x, e, amounts);
          assert metadata[|metadata| - 1] == e;
        }
      }
    }
  }
}
