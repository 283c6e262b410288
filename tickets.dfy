/**
 * python/contracts/tickets.py: the escrow of escrow.py rebuilt on Tezos
 * tickets. A purchase stores a ticket, minted by the contract itself,
 * whose content is the mutez paid; the ticket is taken out of the map
 * again by `get_and_update` to refund or redeem it.
 *
 * An entry point that fails is rolled back entirely, so a failure leaves
 * the storage and the balance as they were and emits nothing. `amount`
 * is the mutez attached to the call.
 */
module Tickets {
  import opened Wrappers
  import opened Tezos

  const Pending: string := "pending transaction"
  const Mismatch: string := "amount mismatch"
  const NotPositive: string := "WrongCondition: sp.amount > sp.tez(0)"
  const NotAdmin: string := "WrongCondition: sp.sender == data.administrator"
  /** The failure of `open_some()` on a missing ticket. */
  const NoTicket: string := "OpenSome"

  /** A ticket: who minted it, its content and its quantity. */
  datatype Ticket = Ticket(ticketer: Address, content: nat, amount: nat)

  /** `sp.get_and_update(m, k, v)`: the old binding of `k`, and `m` with `k` bound to `v` or removed. */
  function GetAndUpdate(m: map<Address, Ticket>, k: Address, v: Option<Ticket>): (r: (Option<Ticket>, map<Address, Ticket>))
    ensures r.0 == (if k in m then Some(m[k]) else None)
    ensures v.Some? ==> r.1 == m[k := v.value]
    ensures v.None? ==> r.1 == m - {k}
  {
    (if k in m then Some(m[k]) else None, if v.Some? then m[k := v.value] else m - {k})
  }

  /** The mutez each ticket holder has paid. */
  function Contents(tickets: map<Address, Ticket>): (r: map<Address, nat>)
    ensures r.Keys == tickets.Keys
    ensures forall k :: k in r ==> r[k] == tickets[k].content
  {
    map k | k in tickets :: tickets[k].content
  }

  lemma ContentsAdd(tickets: map<Address, Ticket>, k: Address, t: Ticket)
    ensures Contents(tickets[k := t]) == Contents(tickets)[k := t.content]
  {
  }

  lemma ContentsRemove(tickets: map<Address, Ticket>, k: Address)
    ensures Contents(tickets - {k}) == Contents(tickets) - {k}
  {
  }

  /** The ticket `Escrow` contract, at address `self`. */
  class Escrow {
    const self: Address
    var tickets: map<Address, Ticket>
    var balance: nat
    /** Mutez attached to calls that keep them without a ticket for them. */
    ghost var surplus: nat

    /** The balance is every ticket's content plus what was attached to other calls. */
    ghost predicate Valid()
      reads this
    {
      balance == Total(Contents(tickets)) + surplus
    }

    constructor (self: Address)
      ensures Valid() && this.self == self && tickets == map[] && balance == 0 && surplus == 0
    {
      this.self := self;
      tickets := map[];
      balance := 0;
      surplus := 0;
    }

    /**
     * `purchase_ticket`: a ticket of content `amount` and quantity 1 is
     * stored for the sender. When the sender already held one the call
     * fails after the swap, so the original ticket is kept.
     */
    method PurchaseTicket(sender: Address, amount: nat) returns (r: Outcome)
      requires Valid()
      modifies this
      ensures Valid()
      ensures r.Failed? <==> amount == 0 || sender in old(tickets)
      ensures amount == 0 ==> r == Failed(NotPositive)
      ensures amount > 0 && sender in old(tickets) ==> r == Failed(Pending)
      ensures r.Failed? ==> tickets == old(tickets) && balance == old(balance) && surplus == old(surplus)
      ensures r.Emitted? ==> r.ops == [] && tickets == old(tickets)[sender := Ticket(self, amount, 1)] &&
                             balance == old(balance) + amount && surplus == old(surplus)
    {
      if amount == 0 {
        return Failed(NotPositive);
      }
      var (previous, updated) := GetAndUpdate(tickets, sender, Some(Ticket(self, amount, 1)));
      if previous.Some? {
        return Failed(Pending);
      }
      ContentsAdd(tickets, sender, Ticket(self, amount, 1));
      TotalAdd(Contents(tickets), sender, amount);
      tickets := updated;
      balance := balance + amount;
      r := Emitted([]);
    }

    /** `refund_ticket`: the sender's ticket is taken out and its content sent back. */
    method RefundTicket(sender: Address, amount: nat) returns (r: Outcome)
      requires Valid()
      modifies this
      ensures Valid()
      ensures r.Failed? <==> sender !in old(tickets)
      ensures r.Failed? ==> r == Failed(NoTicket) &&
                            tickets == old(tickets) && balance == old(balance) && surplus == old(surplus)
      ensures r.Emitted? ==> r.ops == [Send(sender, old(tickets)[sender].content)] &&
                             tickets == old(tickets) - {sender} &&
                             balance + old(tickets)[sender].content == old(balance) + amount &&
                             surplus == old(surplus) + amount
    {
      var (ticket, updated) := GetAndUpdate(tickets, sender, None);
      if ticket.None? {
        return Failed(NoTicket);
      }
      var content := ticket.value.content;
      ContentsRemove(tickets, sender);
      TotalRemove(Contents(tickets), sender);
      tickets := updated;
      surplus := surplus + amount;
      balance := balance + amount - content;
      r := Emitted([Send(sender, content)]);
    }
  }

  /** The ticket `Marketplace` contract. */
  class Marketplace {
    const escrow: Escrow
    const fa2: Address
    const administrator: Address

    constructor (self: Address, fa2: Address, administrator: Address)
      ensures fresh(escrow) && escrow.Valid() && escrow.self == self
      ensures escrow.tickets == map[] && escrow.balance == 0 && escrow.surplus == 0
      ensures this.fa2 == fa2 && this.administrator == administrator
    {
      escrow := new Escrow(self);
      this.fa2 := fa2;
      this.administrator := administrator;
    }

    /**
     * `redeem_ticket`: only the administrator, only for a buyer `to`
     * holding a ticket whose content is `price`. The ticket is consumed,
     * its content goes to the administrator and one of each token `ids`
     * from the sender to the buyer.
     */
    method RedeemTicket(sender: Address, to: Address, ids: seq<nat>, price: nat, amount: nat, fa2Typed: bool)
      returns (r: Outcome)
      requires escrow.Valid()
      modifies escrow
      ensures escrow.Valid()
      ensures r.Failed? <==>
        sender != administrator || to !in old(escrow.tickets) || old(escrow.tickets)[to].content != price ||
        !fa2Typed
      ensures sender != administrator ==> r == Failed(NotAdmin)
      ensures sender == administrator && to !in old(escrow.tickets) ==> r == Failed(NoTicket)
      ensures sender == administrator && to in old(escrow.tickets) && old(escrow.tickets)[to].content != price ==>
        r == Failed(Mismatch)
      ensures sender == administrator && to in old(escrow.tickets) && old(escrow.tickets)[to].content == price &&
              !fa2Typed ==>
        r == Failed(NoTransferEntry)
      ensures r.Failed? ==> escrow.tickets == old(escrow.tickets) && escrow.balance == old(escrow.balance) &&
                            escrow.surplus == old(escrow.surplus)
      ensures r.Emitted? ==>
        r.ops == [Send(administrator, price), Call(fa2, "transfer", [Transfer(sender, Txs(to, ids))], 0)] &&
        escrow.tickets == old(escrow.tickets) - {to} &&
        escrow.balance + price == old(escrow.balance) + amount && escrow.surplus == old(escrow.surplus) + amount
    {
      if sender != administrator {
        return Failed(NotAdmin);
      }
      var (ticket, updated) := GetAndUpdate(escrow.tickets, to, None);
      if ticket.None? {
        return Failed(NoTicket);
      }
      var content := ticket.value.content;
      if content != price {
        return Failed(Mismatch);
      }
      var transfer := Fa2Transfer(fa2, fa2Typed, sender, to, ids);
      if transfer.Failed? {
        return transfer;
      }
      ContentsRemove(escrow.tickets, to);
      TotalRemove(Contents(escrow.tickets), to);
      escrow.tickets := updated;
      escrow.surplus := escrow.surplus + amount;
      escrow.balance := escrow.balance + amount - content;
      r := Emitted([Send(administrator, content)] + transfer.ops);
    }
  }

  /** The first half of the contract's test: purchases and refunds on an `Escrow`. */
  method EscrowScenario() returns (succeeded: seq<bool>, balance: nat, kept: nat)
    ensures succeeded == [false, true, false, false, true] && balance == 0
    ensures kept == Tez(5)
  {
    var c := new Escrow("KT1Escrow");
    var r1 := c.PurchaseTicket(Alice, 0);
    var r2 := c.PurchaseTicket(Alice, Tez(5));
    var r3 := c.PurchaseTicket(Alice, Tez(1));
    kept := c.tickets[Alice].content;
    var r4 := c.RefundTicket(Bob, 0);
    var r5 := c.RefundTicket(Alice, 0);
    succeeded := [r1.Emitted?, r2.Emitted?, r3.Emitted?, r4.Emitted?, r5.Emitted?];
    assert Contents(c.tickets) == map[];
    balance := c.balance;
  }

  /** The second half: only the last redemption is valid, and it empties the balance. */
  method MarketplaceScenario() returns (succeeded: seq<bool>, balance: nat)
    ensures succeeded == [true, false, false, false, false, true] && balance == 0
  {
    var c := new Marketplace("KT1Marketplace", "FA2", Admin);
    var ids := [1, 2, 3];
    var r1 := c.escrow.PurchaseTicket(Alice, Tez(1));
    var r2 := c.RedeemTicket(Alice, Alice, ids, Tez(1), 0, true);
    var r3 := c.RedeemTicket(Admin, Bob, ids, Tez(1), 0, true);
    var r4 := c.RedeemTicket(Admin, Alice, ids, Tez(0), 0, true);
    var r5 := c.RedeemTicket(Admin, Alice, ids, Tez(5), 0, true);
    var r6 := c.RedeemTicket(Admin, Alice, ids, Tez(1), 0, true);
    succeeded := [r1.Emitted?, r2.Emitted?, r3.Emitted?, r4.Emitted?, r5.Emitted?, r6.Emitted?];
    assert Contents(c.escrow.tickets) == map[];
    balance := c.escrow.balance;
  }
}
