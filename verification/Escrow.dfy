/** Each seller's pending balance is the sum of the item prices of that seller's orders in escrow. The pending
    decrements carry no guard of their own; this is the invariant that keeps them from going below zero. */
module Escrow {
  import opened Basics
  import opened Types
  import opened Transactions
  import opened Reads
  import Pricing

  function Share(row: Order, s: nat): nat {
    if row.seller == s && InEscrow(row.status) then row.item else 0
  }

  function Total(orders: seq<Order>, s: nat): nat {
    if |orders| == 0 then 0 else Total(orders[..|orders| - 1], s) + Share(orders[|orders| - 1], s)
  }

  ghost predicate Inv(db: Db) {
    forall s: nat :: PendingOf(db.wallets, s) == Total(db.orders, s)
  }

  lemma {:induction false} TotalPut(orders: seq<Order>, o: nat, row: Order, s: nat)
    requires o < |orders|
    ensures Total(orders[o := row], s) == Total(orders, s) - Share(orders[o], s) + Share(row, s)
    ensures Share(orders[o], s) <= Total(orders, s)
    decreases |orders|
  {
    var n := |orders| - 1;
    if o < n {
      TotalPut(orders[..n], o, row, s);
      assert orders[o := row][..n] == orders[..n][o := row];
    } else {
      assert orders[o := row][..n] == orders[..n];
    }
  }

  lemma {:induction false} TotalAppend(orders: seq<Order>, more: seq<Order>, s: nat)
    requires forall i :: 0 <= i < |more| - 1 ==> Share(more[i], s) == 0
    ensures Total(orders + more, s) == Total(orders, s) + if |more| == 0 then 0 else Share(more[|more| - 1], s)
    decreases |more|
  {
    if |more| == 0 {
      assert orders + more == orders;
    } else {
      var n := |more| - 1;
      assert (orders + more)[..|orders + more| - 1] == orders + more[..n];
      TotalAppend(orders, more[..n], s);
    }
  }

  /** A transaction that rewrites one order must move pending by exactly the change of that order's share. */
  lemma Moves(a: Db, b: Db, o: nat)
    requires Inv(a) && o < |a.orders| == |b.orders|
    requires b.orders == a.orders[o := b.orders[o]]
    requires forall s: nat ::
      PendingOf(b.wallets, s) == PendingOf(a.wallets, s) + Share(b.orders[o], s) - Share(a.orders[o], s)
    ensures Inv(b)
  {
    forall s: nat ensures PendingOf(b.wallets, s) == Total(b.orders, s) {
      TotalPut(a.orders, o, b.orders[o], s);
    }
  }

  lemma Appends(a: Db, b: Db, more: seq<Order>)
    requires Inv(a) && b.orders == a.orders + more
    requires forall s: nat, i :: 0 <= i < |more| - 1 ==> Share(more[i], s) == 0
    requires forall s: nat ::
      PendingOf(b.wallets, s) == PendingOf(a.wallets, s) + if |more| == 0 then 0 else Share(more[|more| - 1], s)
    ensures Inv(b)
  {
    forall s: nat ensures PendingOf(b.wallets, s) == Total(b.orders, s) {
      TotalAppend(a.orders, more, s);
    }
  }

  /** The unguarded writes after a won claim move one seller's pending balance, or none. */
  lemma AfterMoves(db: Db, o: nat, row: Order, act: Act, s: nat)
    ensures PendingOf(After(db, o, row, act).wallets, s) - PendingOf(db.wallets, s) ==
      match act
      case Settle(seen) => if seen.seller == s then seen.item else 0
      case AutoCancel(seen, _) => if seen.seller == s && s in db.wallets then 0 - seen.item else 0
      case FinalizeEscrow => if row.seller == s then 0 - row.item else 0
      case ForceHold => if row.seller == s then row.item else 0
      case Resolve(seen, _) => if seen.seller == s then 0 - seen.item else 0
      case _ => 0
  {
  }

  lemma PendingMoves(db: Db, o: nat, row: Order, act: Act, s: nat)
    requires o < |db.orders| && ActGrounded(db, o, act) && Claim(db.orders[o], db.now, db.hold, act) == Some(row)
    requires db.orders[o].dispute == Some(Open) ==> db.orders[o].status == Disputed
    requires InEscrow(db.orders[o].status) && db.orders[o].seller !in db.wallets ==> db.orders[o].item == 0
    ensures PendingOf(After(Put(db, o, row), o, row, act).wallets, s)
         == PendingOf(db.wallets, s) + Share(row, s) - Share(db.orders[o], s)
  {
    AfterMoves(Put(db, o, row), o, row, act, s);
  }

  lemma PerformKeeps(db: Db, o: nat, act: Act)
    requires Inv(db) && ActGrounded(db, o, act)
    requires o < |db.orders| && (db.orders[o].dispute == Some(Open) ==> db.orders[o].status == Disputed)
    ensures Inv(Perform(db, o, act))
  {
    match Claim(db.orders[o], db.now, db.hold, act) {
      case None =>
      case Some(row) =>
        AfterKeepsRows(Put(db, o, row), o, act);
        // No wallet means nothing pending, so an order in escrow can only be worth nothing.
        TotalPut(db.orders, o, db.orders[o], db.orders[o].seller);
        assert PendingOf(db.wallets, db.orders[o].seller) == Total(db.orders, db.orders[o].seller);
        var next := Perform(db, o, act);
        forall s: nat
          ensures PendingOf(next.wallets, s) ==
            PendingOf(db.wallets, s) + Share(next.orders[o], s) - Share(db.orders[o], s)
        {
          PendingMoves(db, o, row, act, s);
        }
        Moves(db, next, o);
    }
  }

  /** Every transaction, whatever stale copy it carries, keeps the sum. A dispute can be settled only while its
      order is Disputed, which is the one fact needed from outside this file. */
  lemma Keeps(db: Db, tx: Tx)
    requires Inv(db) && Grounded(db, tx)
    requires forall o :: 0 <= o < |db.orders| && db.orders[o].dispute == Some(Open) ==> db.orders[o].status == Disputed
    ensures Inv(Exec(db, tx))
  {
    var next := Exec(db, tx);
    match tx {
      case OrderTx(o, act) => if o < |db.orders| { PerformKeeps(db, o, act); }
      case CreateOrderTx(buyer, l, seen, coupon) =>
        if next.orders != db.orders {
          Appends(db, next, [next.orders[|db.orders|]]);
        }
      case CheckoutBundleTx(b, items) =>
        if next.orders != db.orders {
          Appends(db, next, BundleOrders(db, db.bundles[b], items));
        }
      case _ => OthersKeep(db, tx);
    }
  }

  lemma OthersKeep(db: Db, tx: Tx)
    requires Inv(db) && !tx.OrderTx? && !tx.CreateOrderTx? && !tx.CheckoutBundleTx?
    ensures Inv(Exec(db, tx))
  {
    assert Exec(db, tx).orders == db.orders + [];
    Appends(db, Exec(db, tx), []);
  }
}
