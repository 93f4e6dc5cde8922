/** What each order row keeps on its own: dispute and snapshot rows that match its status, deadlines that are set
    once, and a status that only moves forward. */
module Lifecycle {
  import opened Basics
  import opened Types
  import opened Transactions
  import opened Reads

  predicate Escrowable(s: OrderStatus) {
    s == Pending || s == Paid || s == Shipped || s == Delivered || s == Disputed
  }

  /** Holds in every run, administrators' re-holds included. */
  predicate RowInv(row: Order) {
    && (row.dispute == Some(Open) <==> row.status == Disputed)
    && (row.dispute.Some?
       ==> row.status == Disputed || row.status == Completed || row.status == Refunded || row.status == Held)
    && (Escrowable(row.status) ==> row.snapshot)
    && (row.status == Refunded || row.status == Completed ==> !row.snapshot)
    && (row.shippedAt.Some? ==> row.status != Pending && row.status != Paid && row.status != Cancelled)
  }

  /** Holds in every run without re-holds. */
  predicate StrictRowInv(row: Order, now: int, hold: nat) {
    && RowInv(row)
    && (row.snapshot ==> !Terminal(row.status) || (row.status == Cancelled && row.paidAt == None))
    && (!Terminal(row.status) ==> row.snapshot)
    && (row.dispute.Some? ==> row.status == Disputed || row.status == Completed || row.status == Refunded)
    && row.createdAt <= now
    && (row.paidAt.Some? <==> Rank(row.status) > 0 && !(row.status == Cancelled && row.paidAt == None))
    && (row.paidAt.Some? ==> row.createdAt <= row.paidAt.value <= now)
    && (row.disputeDeadline.Some? <==> row.deliveredAt.Some?)
    && (row.deliveredAt.Some? ==>
          row.disputeDeadline == Some(row.deliveredAt.value + DISPUTE_WINDOW) && row.deliveredAt.value <= now)
    && (row.status == Delivered ==> row.deliveredAt.Some?)
    && (row.status == Shipped ==> row.shippedAt.Some? && row.shippedAt.value <= now && row.deliveredAt == None)
    && (row.status == Pending || row.status == Paid ==> row.shippedAt == None && row.deliveredAt == None)
    && (row.status == Held ==>
          (row.confirmedAt.Some? && row.confirmedAt.value <= now
            && row.escrowReleasesAt == Some(row.confirmedAt.value + hold)))
    && (row.status != Held ==> row.escrowReleasesAt == None)
  }

  function Rank(s: OrderStatus): nat {
    match s
    case Pending => 0
    case Paid => 1
    case Shipped => 2
    case Delivered => 3
    case Held => 4
    case Disputed => 4
    case _ => 5
  }

  ghost predicate Inv(db: Db) {
    forall o :: 0 <= o < |db.orders| ==> RowInv(db.orders[o])
  }

  ghost predicate StrictInv(db: Db) {
    forall o :: 0 <= o < |db.orders| ==> StrictRowInv(db.orders[o], db.now, db.hold)
  }

  predicate Rehold(tx: Tx) {
    tx.OrderTx? && tx.act.ForceHold?
  }

  /** A transaction on an order changes that order's row by its claim and touches no other. */
  lemma OnlyOneRow(db: Db, o: nat, act: Act)
    requires o < |db.orders|
    ensures var next := Perform(db, o, act);
      && next.now == db.now && next.hold == db.hold
      && next.orders == match Claim(db.orders[o], db.now, db.hold, act)
                        case None => db.orders
                        case Some(row) => db.orders[o := row]
  {
    match Claim(db.orders[o], db.now, db.hold, act) {
      case None =>
      case Some(row) => AfterKeepsRows(Put(db, o, row), o, act);
    }
  }

  lemma ClaimKeeps(row: Order, now: int, hold: nat, act: Act)
    requires RowInv(row)
    ensures Claim(row, now, hold, act).Some? ==> RowInv(Claim(row, now, hold, act).value)
  {
  }

  lemma Keeps(db: Db, tx: Tx)
    requires Inv(db)
    ensures Inv(Exec(db, tx))
  {
    var next := Exec(db, tx);
    match tx {
      case OrderTx(o, act) =>
        if o < |db.orders| {
          OnlyOneRow(db, o, act);
          ClaimKeeps(db.orders[o], db.now, db.hold, act);
        }
      case CreateOrderTx(_, _, _, _) =>
      case CheckoutBundleTx(_, _) =>
        assert forall o :: |db.orders| <= o < |next.orders| ==> RowInv(next.orders[o]);
      case _ =>
        assert next.orders == db.orders;
    }
  }

  predicate Ends(act: Act) {
    act.CancelByBuyer? || act.CancelStalePending? || act.CancelOnDeletion? || act.AutoCancel? || act.FinalizeEscrow?
    || act.Resolve?
  }

  lemma StrictEnd(row: Order, now: int, hold: nat, act: Act)
    requires StrictRowInv(row, now, hold) && Ends(act)
    ensures Claim(row, now, hold, act).Some? ==> StrictRowInv(Claim(row, now, hold, act).value, now, hold)
  {
  }

  lemma StrictClaim(row: Order, now: int, hold: nat, act: Act)
    requires StrictRowInv(row, now, hold) && !act.ForceHold?
    ensures Claim(row, now, hold, act).Some? ==> StrictRowInv(Claim(row, now, hold, act).value, now, hold)
  {
    if Ends(act) {
      StrictEnd(row, now, hold, act);
    }
  }

  lemma CreatedStrict(db: Db, tx: Tx, o: nat)
    requires (tx.CreateOrderTx? || tx.CheckoutBundleTx?) && |db.orders| <= o < |Exec(db, tx).orders|
    ensures StrictRowInv(Exec(db, tx).orders[o], db.now, db.hold)
  {
  }

  lemma CreationFrame(db: Db, tx: Tx)
    requires tx.CreateOrderTx? || tx.CheckoutBundleTx?
    ensures Exec(db, tx).now == db.now && Exec(db, tx).hold == db.hold && |db.orders| <= |Exec(db, tx).orders|
    ensures forall o :: 0 <= o < |db.orders| ==> Exec(db, tx).orders[o] == db.orders[o]
  {
  }

  lemma StrictKeeps(db: Db, tx: Tx)
    requires StrictInv(db) && !Rehold(tx)
    ensures StrictInv(Exec(db, tx))
  {
    var next := Exec(db, tx);
    if tx.OrderTx? {
      if tx.o < |db.orders| {
        OnlyOneRow(db, tx.o, tx.act);
        StrictClaim(db.orders[tx.o], db.now, db.hold, tx.act);
      }
    } else if tx.CreateOrderTx? || tx.CheckoutBundleTx? {
      CreationFrame(db, tx);
      forall o | |db.orders| <= o < |next.orders| ensures StrictRowInv(next.orders[o], db.now, db.hold) {
        CreatedStrict(db, tx, o);
      }
    } else {
      assert next.orders == db.orders && next.now == db.now && next.hold == db.hold;
    }
  }

  /** Without re-holds a status is left for good: every change of status climbs in rank. */
  lemma StatusOnlyClimbs(db: Db, tx: Tx, o: nat)
    requires Inv(db) && !Rehold(tx) && o < |db.orders|
    ensures o < |Exec(db, tx).orders|
    ensures var a, b := db.orders[o].status, Exec(db, tx).orders[o].status;
      a != b ==> Rank(a) < Rank(b)
  {
    ExecExtends(db, tx);
    match tx {
      case OrderTx(p, act) => if p < |db.orders| { OnlyOneRow(db, p, act); }
      case _ =>
    }
  }

  /** A deadline, once set, is never moved, and a release date not while the order is Held. */
  lemma DeadlinesStay(db: Db, tx: Tx, o: nat)
    requires StrictInv(db) && !Rehold(tx) && o < |db.orders|
    ensures o < |Exec(db, tx).orders|
    ensures var a, b := db.orders[o], Exec(db, tx).orders[o];
      && (a.deliveredAt.Some? ==> b.deliveredAt == a.deliveredAt && b.disputeDeadline == a.disputeDeadline)
      && (a.status == Held && b.status == Held
         ==> b.escrowReleasesAt == a.escrowReleasesAt && b.confirmedAt == a.confirmedAt)
      && (a.status == Held && b.status != Held ==> b.status == Completed && b.escrowReleasesAt == None)
  {
    ExecExtends(db, tx);
    match tx {
      case OrderTx(p, act) => if p < |db.orders| { OnlyOneRow(db, p, act); }
      case _ =>
    }
  }
}
