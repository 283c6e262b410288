/**
 * What the SmartPy contracts in python/contracts share: addresses, the
 * operations an entry point emits, the FA2 `transfer` call that the
 * marketplaces build, and the sum of the mutez a contract holds for its
 * users.
 */
module Tezos {
  type Address = string

  /** `sp.tez(n)` in mutez. */
  function Tez(n: nat): nat { n * 1000000 }

  /** The accounts of the contracts' test scenarios. */
  const Admin: Address := "Administrator"
  const Alice: Address := "Alice"
  const Bob: Address := "Robert"

  /** One FA2 transfer item: `amount` of token `tokenId` to `to_`. */
  datatype Tx = Tx(to_: Address, tokenId: nat, amount: nat)

  /** One FA2 transfer batch from `from_`. */
  datatype Transfer = Transfer(from_: Address, txs: seq<Tx>)

  /** An emitted operation: `sp.send` of mutez, or `sp.transfer` calling a contract's entry point. */
  datatype Operation =
    | Send(to: Address, amount: nat)
    | Call(target: Address, entryPoint: string, batch: seq<Transfer>, amount: nat)

  /** An entry point either fails, rolling back the whole call, or emits its operations. */
  datatype Outcome = Failed(message: string) | Emitted(ops: seq<Operation>)

  /**
   * The transfer items of `fa2_transfer`: one of each id to `to_`, built by
   * `push`, which puts each new item at the head of the list.
   */
  function Txs(to_: Address, ids: seq<nat>): (r: seq<Tx>)
    ensures |r| == |ids|
    ensures forall i :: 0 <= i < |ids| ==> r[i] == Tx(to_, ids[|ids| - 1 - i], 1)
  {
    if ids == [] then []
    else [Tx(to_, ids[|ids| - 1], 1)] + Txs(to_, ids[..|ids| - 1])
  }

  /** The failure of `open_some()` on the missing `transfer` entry point. */
  const NoTransferEntry: string := "OpenSome"

  /**
   * `fa2_transfer(fa2, from_, to_, ids)`: a zero-tez call of the FA2
   * `transfer` entry point. `sp.contract(...).open_some()` fails the whole
   * call when `fa2` has no `transfer` entry point of the expected type;
   * `hasTransfer` says whether it has one, a fact of the chain.
   */
  method Fa2Transfer(fa2: Address, hasTransfer: bool, from_: Address, to_: Address, ids: seq<nat>)
    returns (r: Outcome)
    ensures !hasTransfer <==> r.Failed?
    ensures !hasTransfer ==> r == Failed(NoTransferEntry)
    ensures hasTransfer ==> r == Emitted([Call(fa2, "transfer", [Transfer(from_, Txs(to_, ids))], 0)])
  {
    if !hasTransfer {
      return Failed(NoTransferEntry);
    }
    var txs: seq<Tx> := [];
    for k := 0 to |ids|
      invariant txs == Txs(to_, ids[..k])
    {
      assert ids[..k + 1][..k] == ids[..k];
      txs := [Tx(to_, ids[k], 1)] + txs;
    }
    assert ids[..|ids|] == ids;
    r := Emitted([Call(fa2, "transfer", [Transfer(from_, txs)], 0)]);
  }

  /** The mutez held for all users of a contract. */
  ghost function Total(m: map<Address, nat>): nat
    decreases |m|
  {
    if m == map[] then 0
    else
      var k :| k in m;
      m[k] + Total(m - {k})
  }

  /** The sum does not depend on which entry is taken out first. */
  lemma {:induction false} TotalRemove(m: map<Address, nat>, k: Address)
    requires k in m
    ensures Total(m) == m[k] + Total(m - {k})
    decreases |m|
  {
    var j :| j in m && Total(m) == m[j] + Total(m - {j});
    if j != k {
      var mj := m - {j};
      var mk := m - {k};
      assert k in mj && j in mk;
      TotalRemove(mj, k);
      TotalRemove(mk, j);
      assert mj - {k} == mk - {j};
    }
  }

  /** Adding an entry for a new user adds its amount to the sum. */
  lemma TotalAdd(m: map<Address, nat>, k: Address, v: nat)
    requires k !in m
    ensures Total(m[k := v]) == Total(m) + v
  {
    TotalRemove(m[k := v], k);
    assert m[k := v] - {k} == m;
  }

  lemma {:induction false} TotalEmpty(m: map<Address, nat>)
    ensures Total(m) == 0 <==> forall k :: k in m ==> m[k] == 0
  {
    if m != map[] {
      var k :| k in m;
      TotalRemove(m, k);
      TotalEmpty(m - {k});
      if Total(m) == 0 {
        forall j | j in m ensures m[j] == 0 {
          if j != k {
            assert j in m - {k};
          }
        }
      }
    }
  }
}
