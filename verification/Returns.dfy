/** Returns, which overwrite the order's status without claiming it: exactly when that is safe for the escrow. A
    return may be opened on a Completed order, whose escrow has already been paid out. */
module Returns {
  import opened Basics
  import opened Types
  import opened Transactions
  import opened Reads
  import opened Runs
  import opened Refunds
  import Escrow
  import Races

  /** The seller approves a received return. `seen` is the order as read before; a refund row already there rolls
      everything back. */
  function Approve(db: Db, o: nat, seen: Order): Db
    requires o < |db.orders|
  {
    if HasRefund(db.ledger, seen.buyer, o) then db
    else
      var refunded := db.orders[o].(status := Refunded, escrowReleasesAt := None, snapshot := false);
      CreditBuyer(Reverse(Put(db, o, refunded), o, seen), o, seen)
  }

  /** The seller rejects a return, or does not inspect it in time: a dispute is opened unless there is one. */
  function Escalate(db: Db, o: nat): Db
    requires o < |db.orders|
  {
    if db.orders[o].dispute.Some? then db
    else Put(db, o, db.orders[o].(status := Disputed, dispute := Some(Open)))
  }

  /** The guard the code lacks. */
  predicate EscrowIntact(row: Order) {
    InEscrow(row.status) || row.item == 0
  }

  /** Rewriting one order and moving its seller's pending balance by `delta` keeps the escrow sum exactly when
      delta is the change of the order's share. */
  lemma KeepsIff(a: Db, b: Db, o: nat, delta: int)
    requires Escrow.Inv(a) && o < |a.orders| == |b.orders| && b.orders == a.orders[o := b.orders[o]]
    requires b.orders[o].seller == a.orders[o].seller
    requires forall s: nat ::
      PendingOf(b.wallets, s) == PendingOf(a.wallets, s) + if s == a.orders[o].seller then delta else 0
    ensures var s := a.orders[o].seller;
      Escrow.Inv(b) <==> delta == Escrow.Share(b.orders[o], s) - Escrow.Share(a.orders[o], s)
  {
    var s := a.orders[o].seller;
    Escrow.TotalPut(a.orders, o, b.orders[o], s);
    assert PendingOf(a.wallets, s) == Escrow.Total(a.orders, s);
    if delta == Escrow.Share(b.orders[o], s) - Escrow.Share(a.orders[o], s) {
      Escrow.Moves(a, b, o);
    } else {
      assert PendingOf(b.wallets, s) != Escrow.Total(b.orders, s);
    }
  }

  /** Approving a return keeps every seller's pending balance equal to the orders in escrow exactly when the order's
      price is still there (or the return was already refunded). */
  lemma ApproveKeepsEscrowIff(db: Db, o: nat, seen: Order)
    requires Escrow.Inv(db) && Agrees(db, o, seen)
    ensures Escrow.Inv(Approve(db, o, seen)) <==> EscrowIntact(db.orders[o]) || HasRefund(db.ledger, seen.buyer, o)
  {
    if !HasRefund(db.ledger, seen.buyer, o) {
      KeepsIff(db, Approve(db, o, seen), o, 0 - seen.item);
    }
  }

  /** Escalating one keeps it exactly when the price is still there (or the order already has a dispute). */
  lemma EscalateKeepsEscrowIff(db: Db, o: nat)
    requires Escrow.Inv(db) && o < |db.orders|
    ensures Escrow.Inv(Escalate(db, o)) <==> EscrowIntact(db.orders[o]) || db.orders[o].dispute.Some?
  {
    if db.orders[o].dispute == None {
      KeepsIff(db, Escalate(db, o), o, 0);
    }
  }

  /** A run after which the seller has completed one sale and has nothing in escrow: approving its return takes the
      seller's pending balance below zero, and escalating it leaves an order in escrow with nothing pending. */
  lemma CompletedReturnOverdraws() returns (steps: seq<Step>)
    ensures var db := Run(Races.Start(), steps).db;
      && |db.orders| == 1 && db.orders[0].status == Completed
      && PendingOf(Approve(db, 0, db.orders[0]).wallets, Races.SELLER) == 0 - Races.ITEM.price
      && !Escrow.Inv(Approve(db, 0, db.orders[0])) && !Escrow.Inv(Escalate(db, 0))
  {
    steps := Races.ReachCompleted();
    Runs.RunKeeps(Races.Start(), steps);
    var db := Run(Races.Start(), steps).db;
    ApproveKeepsEscrowIff(db, 0, db.orders[0]);
    EscalateKeepsEscrowIff(db, 0);
  }

  // ----- The provider is asked too -----

  /** The whole approval: once its transaction is through, which credits the buyer's wallet, the provider is asked to
      return the same money. */
  function ApproveAndAsk(w: World, o: nat, seen: Order, ok: bool): World
    requires o < |w.db.orders|
  {
    if HasRefund(w.db.ledger, seen.buyer, o) then w
    else w.(db := Approve(w.db, o, seen), accepted := Answered(w, seen, ok))
  }

  /** Approving the return of an order not refunded before always credits the buyer's wallet, so it pays the buyer
      twice exactly when the order has a payment and the provider accepts its key. It changes no other order's
      refunds. */
  lemma ApprovePaysTwiceIff(w: World, o: nat, seen: Order, ok: bool)
    requires Refunds.Inv(w) && Agrees(w.db, o, seen) && seen.status != Pending && !ByWallet(w.db, o)
    ensures var next := ApproveAndAsk(w, o, seen, ok);
      && |next.db.orders| == |w.db.orders| && ByWallet(next.db, o)
      && (BySource(next, o) <==> Granted(w, seen, ok))
      && forall p :: 0 <= p < |w.db.orders| && p != o ==>
           BySource(next, p) == BySource(w, p) && ByWallet(next.db, p) == ByWallet(w.db, p)
  {
    var next := ApproveAndAsk(w, o, seen, ok);
    assert IsRefundOf(next.db.ledger[|next.db.ledger| - 1], w.db.orders[o].buyer, o);
    forall p | 0 <= p < |w.db.orders| && p != o
      ensures BySource(next, p) == BySource(w, p) && ByWallet(next.db, p) == ByWallet(w.db, p)
    {
      OtherRefundsStay(w, o, seen, ok, p);
    }
  }

  lemma OtherRefundsStay(w: World, o: nat, seen: Order, ok: bool, p: nat)
    requires Refunds.Inv(w) && Agrees(w.db, o, seen) && seen.status != Pending && !ByWallet(w.db, o)
    requires p < |w.db.orders| && p != o
    ensures var next := ApproveAndAsk(w, o, seen, ok);
      BySource(next, p) == BySource(w, p) && ByWallet(next.db, p) == ByWallet(w.db, p)
  {
    var next, u := ApproveAndAsk(w, o, seen, ok), w.db.orders[p].buyer;
    assert p < o ==> w.db.orders[p].payment == None || w.db.orders[p].payment != w.db.orders[o].payment;
    assert o < p ==> w.db.orders[o].payment == None || w.db.orders[o].payment != w.db.orders[p].payment;
    var earlier, rows := w.db.ledger, next.db.ledger;
    assert |rows| == |earlier| + 2 && rows[..|earlier|] == earlier;
    forall i | 0 <= i < |rows|
      ensures IsRefundOf(rows[i], u, p) <==> i < |earlier| && IsRefundOf(earlier[i], u, p)
    {
      assert i < |earlier| ==> rows[i] == rows[..|earlier|][i];
    }
    if HasRefund(earlier, u, p) {
      var i :| 0 <= i < |earlier| && IsRefundOf(earlier[i], u, p);
      assert IsRefundOf(rows[i], u, p);
    }
  }

  /** The completed sale's return, approved while the provider answers: the buyer is paid twice. */
  lemma ApprovedReturnPaysTwice() returns (steps: seq<Step>)
    ensures var v := Run(Races.Start(), steps);
      |v.db.orders| == 1 && v.db.orders[0].status == Completed &&
      var next := ApproveAndAsk(v, 0, v.db.orders[0], true);
      |next.db.orders| == 1 && ByWallet(next.db, 0) && BySource(next, 0)
  {
    steps := Races.ReachCompleted();
    Refunds.RunKeeps(Races.Start(), steps);
    var v := Run(Races.Start(), steps);
    ApprovePaysTwiceIff(v, 0, v.db.orders[0], true);
  }
}
