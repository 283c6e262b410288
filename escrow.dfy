/**
 * python/contracts/escrow.py: an escrow of mutez per sender, and the
 * marketplace built on it, whose administrator redeems a buyer's escrowed
 * payment and has FA2 tokens transferred to the buyer in return.
 *
 * An entry point that fails is rolled back entirely, so a failure leaves
 * the storage and the balance as they were and emits nothing. `amount`
 * is the mutez attached to the call.
 */
module Escrow {
  import opened Tezos

  const NoPending: string := "no pending transaction"
  const Pending: string := "pending transaction"
  const Mismatch: string := "amount mismatch"
  /** The messages of the two `sp.verify` calls that carry none of their own. */
  const NotPositive: string := "WrongCondition: sp.amount > sp.tez(0)"
  const NotAdmin: string := "WrongCondition: sp.sender == self.data.administrator"

  /** The `Escrow` contract: the big map `m` from sender to escrowed mutez, and its balance. */
  class Escrow {
    var m: map<Address, nat>
    var balance: nat
    /** Mutez attached to calls that keep them without recording them in `m`. */
    ghost var surplus: nat

    /** The balance is every escrowed amount plus what was attached to other calls. */
    ghost predicate Valid()
      reads this
    {
      balance == Total(m) + surplus
    }

    constructor ()
      ensures Valid() && m == map[] && balance == 0 && surplus == 0
    {
      m := map[];
      balance := 0;
      surplus := 0;
    }

    /** `add_funds`: a positive amount from a sender with nothing escrowed yet is stored. */
    method AddFunds(sender: Address, amount: nat) returns (r: Outcome)
      requires Valid()
      modifies this
      ensures Valid()
      ensures r.Failed? <==> amount == 0 || sender in old(m)
      ensures amount == 0 ==> r == Failed(NotPositive)
      ensures amount > 0 && sender in old(m) ==> r == Failed(Pending)
      ensures r.Failed? ==> m == old(m) && balance == old(balance) && surplus == old(surplus)
      ensures r.Emitted? ==> r.ops == [] && m == old(m)[sender := amount] &&
                             balance == old(balance) + amount && surplus == old(surplus)
    {
      if amount == 0 {
        return Failed(NotPositive);
      }
      if sender in m {
        return Failed(Pending);
      }
      TotalAdd(m, sender, amount);
      m := m[sender := amount];
      balance := balance + amount;
      r := Emitted([]);
    }

    /** `pull_funds`: the sender's escrowed amount is sent back and the entry deleted. */
    method PullFunds(sender: Address, amount: nat) returns (r: Outcome)
      requires Valid()
      modifies this
      ensures Valid()
      ensures r.Failed? <==> sender !in old(m)
      ensures r.Failed? ==> r == Failed(NoPending) &&
                            m == old(m) && balance == old(balance) && surplus == old(surplus)
      ensures r.Emitted? ==> r.ops == [Send(sender, old(m)[sender])] && m == old(m) - {sender} &&
                             balance + old(m)[sender] == old(balance) + amount &&
                             surplus == old(surplus) + amount
    {
      if sender !in m {
        return Failed(NoPending);
      }
      var stored := m[sender];
      TotalRemove(m, sender);
      m := m - {sender};
      surplus := surplus + amount;
      balance := balance + amount - stored;
      r := Emitted([Send(sender, stored)]);
    }
  }

  /** The `Marketplace` contract: an escrow with an FA2 contract and an administrator. */
  class Marketplace {
    const escrow: Escrow
    const fa2: Address
    const administrator: Address

    constructor (fa2: Address, administrator: Address)
      ensures fresh(escrow) && escrow.Valid()
      ensures escrow.m == map[] && escrow.balance == 0 && escrow.surplus == 0
      ensures this.fa2 == fa2 && this.administrator == administrator
    {
      escrow := new Escrow();
      this.fa2 := fa2;
      this.administrator := administrator;
    }

    /**
     * `redeem_funds`: only the administrator, only for a buyer `to` with an
     * escrowed amount equal to `price`. The amount goes to the
     * administrator, the tokens `ids` from the sender to the buyer, and the
     * buyer's entry is deleted.
     */
    method RedeemFunds(sender: Address, to: Address, ids: seq<nat>, price: nat, amount: nat, fa2Typed: bool)
      returns (r: Outcome)
      requires escrow.Valid()
      modifies escrow
      ensures escrow.Valid()
      ensures r.Failed? <==>
        sender != administrator || to !in old(escrow.m) || old(escrow.m)[to] != price || !fa2Typed
      ensures sender != administrator ==> r == Failed(NotAdmin)
      ensures sender == administrator && to !in old(escrow.m) ==> r == Failed(NoPending)
      ensures sender == administrator && to in old(escrow.m) && old(escrow.m)[to] != price ==> r == Failed(Mismatch)
      ensures sender == administrator && to in old(escrow.m) && old(escrow.m)[to] == price && !fa2Typed ==>
        r == Failed(NoTransferEntry)
      ensures r.Failed? ==> escrow.m == old(escrow.m) && escrow.balance == old(escrow.balance) &&
                            escrow.surplus == old(escrow.surplus)
      ensures r.Emitted? ==>
        r.ops == [Send(administrator, price), Call(fa2, "transfer", [Transfer(sender, Txs(to, ids))], 0)] &&
        escrow.m == old(escrow.m) - {to} &&
        escrow.balance + price == old(escrow.balance) + amount && escrow.surplus == old(escrow.surplus) + amount
    {
      if sender != administrator {
        return Failed(NotAdmin);
      }
      if to !in escrow.m {
        return Failed(NoPending);
      }
      var stored := escrow.m[to];
      if stored != price {
        return Failed(Mismatch);
      }
      var transfer := Fa2Transfer(fa2, fa2Typed, sender, to, ids);
      if transfer.Failed? {
        return transfer;
      }
      TotalRemove(escrow.m, to);
      escrow.m := escrow.m - {to};
      escrow.surplus := escrow.surplus + amount;
      escrow.balance := escrow.balance + amount - stored;
      r := Emitted([Send(administrator, stored)] + transfer.ops);
    }
  }

  /**
   * The "Escrow" scenario of the contract's test: which calls succeed,
   * and the balance at the end.
   */
  method EscrowScenario() returns (succeeded: seq<bool>, balance: nat)
    ensures succeeded == [false, true, false, false, true] && balance == 0
  {
    var c := new Escrow();
    var r1 := c.AddFunds(Alice, 0);
    var r2 := c.AddFunds(Alice, Tez(5));
    var r3 := c.AddFunds(Alice, Tez(1));
    var r4 := c.PullFunds(Bob, 0);
    var r5 := c.PullFunds(Alice, 0);
    succeeded := [r1.Emitted?, r2.Emitted?, r3.Emitted?, r4.Emitted?, r5.Emitted?];
    assert c.m == map[];
    balance := c.balance;
  }

  /** The "Marketplace" scenario: only the last redemption is valid, and it empties the balance. */
  method MarketplaceScenario() returns (succeeded: seq<bool>, balance: nat)
    ensures succeeded == [true, false, false, false, false, true] && balance == 0
  {
    var c := new Marketplace("FA2", Admin);
    var ids := [1, 2, 3];
    var r1 := c.escrow.AddFunds(Alice, Tez(1));
    var r2 := c.RedeemFunds(Alice, Alice, ids, Tez(1), 0, true);
    var r3 := c.RedeemFunds(Admin, Bob, ids, Tez(1), 0, true);
    var r4 := c.RedeemFunds(Admin, Alice, ids, Tez(0), 0, true);
    var r5 := c.RedeemFunds(Admin, Alice, ids, Tez(5), 0, true);
    var r6 := c.RedeemFunds(Admin, Alice, ids, Tez(1), 0, true);
    succeeded := [r1.Emitted?, r2.Emitted?, r3.Emitted?, r4.Emitted?, r5.Emitted?, r6.Emitted?];
    assert c.escrow.m == map[];
    balance := c.escrow.balance;
  }
}
