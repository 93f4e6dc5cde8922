/** How often a buyer gets an order's money back. Two services may refund the same order, each first through the
    payment provider (whose refund key is the payment and the amount, and which answers a key it has accepted
    with success ever after) and, refused, by a wallet credit. */
module Refunds {
  import opened Basics
  import opened Types
  import opened Transactions
  import opened Reads
  import opened Runs
  import L = Lifecycle

  // ----- What an order's money-back record is -----

  /** The provider has returned the order's payment. */
  predicate BySource(w: World, o: nat)
    requires o < |w.db.orders|
  {
    Key(w.db.orders[o]).Some? && Key(w.db.orders[o]).value in w.accepted
  }

  /** The buyer's wallet has been credited for the order. */
  predicate ByWallet(db: Db, o: nat)
    requires o < |db.orders|
  {
    HasRefund(db.ledger, db.orders[o].buyer, o)
  }

  predicate RefundRowOk(orders: seq<Order>, r: LedgerRow) {
    r.kind == Refund ==>
      r.order.Some? && r.order.value < |orders| && r.user == orders[r.order.value].buyer
        && r.amount == orders[r.order.value].total
  }

  /** Every refund row credits some order's buyer with that order's total, and no order has two. */
  ghost predicate RowsOk(db: Db) {
    && (forall i :: 0 <= i < |db.ledger| ==> RefundRowOk(db.orders, db.ledger[i]))
    && (forall i, j :: 0 <= i < j < |db.ledger| && db.ledger[i].kind == Refund && db.ledger[j].kind == Refund ==>
          db.ledger[i].order != db.ledger[j].order)
  }

  /** Payments belong to one order each, and the provider has only seen payments that were made. */
  ghost predicate PaymentsOk(w: World) {
    && (forall o :: 0 <= o < |w.db.orders| && w.db.orders[o].payment.Some? ==>
         w.db.orders[o].payment.value < w.db.nextPayment)
    && (forall o, p :: 0 <= o < p < |w.db.orders| && w.db.orders[o].payment.Some? ==>
          w.db.orders[o].payment != w.db.orders[p].payment)
    && (forall k <- w.accepted :: k.0 < w.db.nextPayment)
  }

  predicate OrderOk(w: World, o: nat)
    requires o < |w.db.orders|
  {
    var row := w.db.orders[o];
    && (ByWallet(w.db, o) ==> row.status == Cancelled || row.status == Refunded)
    && (ByWallet(w.db, o) && BySource(w, o) ==> o in w.late)
    && (o in w.late ==> BySource(w, o) && (row.status == Refunded || row.status == Cancelled))
    && (BySource(w, o) ==> row.status != Pending)
    && (row.refundMethod.Some? ==>
          && row.status == Cancelled
          && if row.refundMethod.value.OriginalPayment? then BySource(w, o) && !ByWallet(w.db, o)
             else ByWallet(w.db, o))
    && (row.status == Cancelled && row.paidAt.Some? ==> row.refundMethod.Some?)
    && (row.status == Pending ==> row.paidAt == None)
  }

  // ----- What a call in flight still knows -----

  predicate Refunding(call: Call, o: nat) {
    || (call.RefundAsking? && call.o == o)
    || (call.Committing? && call.tx.RefundFallbackTx? && call.tx.o == o)
  }

  predicate CallKnows(w: World, call: Call) {
    match call
    case CancelAsking(o, seen) => o < |w.db.orders| && seen.status != Pending
    case Committing(OrderTx(o, AutoCancel(seen, toSource))) =>
      o < |w.db.orders| && seen.status != Pending && (toSource ==> BySource(w, o))
    case Committing(OrderTx(o, Resolve(seen, _))) => seen.status != Pending
    case RefundAsking(o, seen) => o < |w.db.orders| && seen.status != Pending && RefundKnows(w, o)
    case Committing(RefundFallbackTx(o, seen)) =>
      o < |w.db.orders| && seen.status != Pending && RefundKnows(w, o) && (BySource(w, o) ==> o in w.late)
    case _ => true
  }

  predicate RefundKnows(w: World, o: nat)
    requires o < |w.db.orders|
  {
    w.db.orders[o].status == Refunded && !ByWallet(w.db, o)
  }

  /** At most one dispute refund of an order is in flight. Of auto-cancellations there may be any number. */
  ghost predicate OneRefund(w: World) {
    forall i, j, o: nat ::
      i in w.calls && j in w.calls && Refunding(w.calls[i], o) && Refunding(w.calls[j], o) ==> i == j
  }

  ghost predicate Known(w: World) {
    && RowsOk(w.db) && PaymentsOk(w)
    && (forall o :: 0 <= o < |w.db.orders| ==> OrderOk(w, o))
    && (forall o <- w.late :: o < |w.db.orders|)
  }

  ghost predicate Inv(w: World) {
    Runs.Inv(w) && Known(w) && OneRefund(w) && forall id <- w.calls :: CallKnows(w, w.calls[id])
  }

  // ----- Ledger rows a transaction adds -----

  /** The transaction credits o's buyer. */
  predicate Credits(db: Db, tx: Tx, o: nat) {
    match tx
    case OrderTx(p, AutoCancel(seen, toSource)) => p == o && !toSource && Won(db, tx)
    case RefundFallbackTx(p, seen) => p == o && !HasRefund(db.ledger, seen.buyer, o)
    case _ => false
  }

  function CreditRow(db: Db, o: nat): LedgerRow
    requires o < |db.orders|
  {
    LedgerRow(db.orders[o].buyer, Refund, db.orders[o].total, Some(o))
  }

  /** The ledger gained these rows, of which a refund can only be the last, and then credits o's buyer exactly. */
  predicate Gained(a: Db, b: Db, o: nat, credited: bool) {
    && |a.ledger| <= |b.ledger| && b.ledger[..|a.ledger|] == a.ledger
    && (forall i :: |a.ledger| <= i < |b.ledger| - 1 ==> b.ledger[i].kind != Refund)
    && (|b.ledger| > |a.ledger| && b.ledger[|b.ledger| - 1].kind == Refund <==> credited)
    && (credited ==> o < |a.orders| && b.ledger[|b.ledger| - 1] == CreditRow(a, o))
  }

  lemma AfterGains(db: Db, o: nat, row: Order, act: Act)
    requires o < |db.orders|
      && (act.AutoCancel? ==> act.seen.buyer == db.orders[o].buyer && act.seen.total == db.orders[o].total)
    ensures Gained(db, After(db, o, row, act), o, act.AutoCancel? && !act.toSource)
  {
  }

  lemma PerformGains(db: Db, o: nat, act: Act)
    requires ActGrounded(db, o, act)
    ensures Gained(db, Perform(db, o, act), o, Credits(db, OrderTx(o, act), o))
  {
    if o < |db.orders| && Claim(db.orders[o], db.now, db.hold, act).Some? {
      var row := Claim(db.orders[o], db.now, db.hold, act).value;
      ClaimKeepsDeal(db.orders[o], db.now, db.hold, act);
      AfterGains(Put(db, o, row), o, row, act);
    }
  }

  function OrderOf(tx: Tx): nat {
    if tx.OrderTx? || tx.RefundFallbackTx? then tx.o else 0
  }

  lemma LedgerGrows(db: Db, tx: Tx)
    requires Grounded(db, tx)
    ensures Gained(db, Exec(db, tx), OrderOf(tx), Credits(db, tx, OrderOf(tx)))
  {
    match tx {
      case OrderTx(o, act) => PerformGains(db, o, act);
      case _ =>
    }
  }

  // ----- What a transaction keeps -----

  lemma RowsKeep(a: Db, b: Db, o: nat, credited: bool)
    requires RowsOk(a) && Extends(a, b) && Gained(a, b, o, credited)
    requires credited ==> o < |a.orders| && !ByWallet(a, o)
    ensures RowsOk(b)
    ensures forall p :: 0 <= p < |b.orders| ==>
      (ByWallet(b, p) <==> p < |a.orders| && (ByWallet(a, p) || (credited && p == o)))
  {
    var n, m := |a.ledger|, |b.ledger|;
    assert forall i :: 0 <= i < n ==> b.ledger[i] == a.ledger[i] by {
      assert forall i :: 0 <= i < n ==> b.ledger[..n][i] == b.ledger[i];
    }
    forall i, j | 0 <= i < j < m && b.ledger[i].kind == Refund && b.ledger[j].kind == Refund
      ensures b.ledger[i].order != b.ledger[j].order
    {
      if j >= n {
        assert j == m - 1 && credited && i < n;
        assert RefundRowOk(a.orders, a.ledger[i]);
        if a.ledger[i].order == Some(o) {
          assert IsRefundOf(a.ledger[i], a.orders[o].buyer, o);
        }
      }
    }
    forall p | 0 <= p < |b.orders|
      ensures ByWallet(b, p) <==> p < |a.orders| && (ByWallet(a, p) || (credited && p == o))
    {
      WalletAfter(a, b, o, credited, p);
    }
  }

  lemma WalletAfter(a: Db, b: Db, o: nat, credited: bool, p: nat)
    requires RowsOk(a) && Extends(a, b) && Gained(a, b, o, credited) && p < |b.orders|
    requires forall i :: 0 <= i < |a.ledger| ==> b.ledger[i] == a.ledger[i]
    requires credited ==> o < |a.orders|
    ensures ByWallet(b, p) <==> p < |a.orders| && (ByWallet(a, p) || (credited && p == o))
  {
    var u := b.orders[p].buyer;
    if p < |a.orders| && ByWallet(a, p) {
      var i :| 0 <= i < |a.ledger| && IsRefundOf(a.ledger[i], u, p);
      assert IsRefundOf(b.ledger[i], u, p);
    } else if credited && p == o {
      assert IsRefundOf(b.ledger[|b.ledger| - 1], u, p);
    } else {
      forall i | 0 <= i < |b.ledger|
        ensures !IsRefundOf(b.ledger[i], u, p)
      {
        if i < |a.ledger| {
          assert RefundRowOk(a.orders, a.ledger[i]);
          assert p < |a.orders| ==> !IsRefundOf(a.ledger[i], u, p);
        }
      }
    }
  }

  /** The order's row after the transaction. */
  function RowAfter(db: Db, tx: Tx, o: nat): Order
    requires o < |db.orders|
  {
    if tx.OrderTx? && tx.o == o && Won(db, tx) then Claim(db.orders[o], db.now, db.hold, tx.act).value else db.orders[o]
  }

  predicate Attaches(db: Db, tx: Tx) {
    Won(db, tx) && tx.act.AttachPayment?
  }

  predicate Fresh(row: Order, now: int) {
    && row.payment == None && row.refundMethod == None
    && ((row.status == Paid && row.paidAt == Some(now)) || (row.status == Pending && row.paidAt == None))
  }

  lemma AfterPays(db: Db, o: nat, row: Order, act: Act)
    ensures After(db, o, row, act).nextPayment == if act.AttachPayment? then act.id + 1 else db.nextPayment
  {
  }

  lemma OrdersAfter(db: Db, tx: Tx)
    ensures var next := Exec(db, tx);
      && |db.orders| <= |next.orders|
      && (forall p :: 0 <= p < |db.orders| ==> next.orders[p] == RowAfter(db, tx, p))
      && (forall p :: |db.orders| <= p < |next.orders| ==> Fresh(next.orders[p], db.now))
      && next.nextPayment == if Attaches(db, tx) then tx.act.id + 1 else db.nextPayment
  {
    match tx {
      case OrderTx(o, act) =>
        if o < |db.orders| {
          L.OnlyOneRow(db, o, act);
          match Claim(db.orders[o], db.now, db.hold, act) {
            case None =>
            case Some(row) => AfterPays(Put(db, o, row), o, row, act);
          }
        }
      case _ =>
    }
  }

  /** The order's payment stays, or is new, with an id never used before. */
  predicate PaymentMoves(w: World, next: World, tx: Tx, o: nat)
    requires o < |next.db.orders|
  {
    if o < |w.db.orders| && next.db.orders[o].payment == w.db.orders[o].payment then
      next.db.orders[o].total == w.db.orders[o].total
    else
      next.db.orders[o].payment == None
      || (Attaches(w.db, tx) && tx.o == o && next.db.orders[o].payment == Some(tx.act.id)
         && tx.act.id >= w.db.nextPayment)
  }

  lemma PaymentAfter(w: World, next: World, tx: Tx, o: nat)
    requires Grounded(w.db, tx) && next.db == Exec(w.db, tx) && o < |next.db.orders|
    ensures PaymentMoves(w, next, tx, o)
  {
    OrdersAfter(w.db, tx);
    if o < |w.db.orders| {
      assert next.db.orders[o] == RowAfter(w.db, tx, o);
    }
  }

  /** A payment changes only while its order is Pending, and then to one never used before. */
  lemma PaymentsKeep(w: World, next: World, tx: Tx)
    requires PaymentsOk(w) && Grounded(w.db, tx) && next.db == Exec(w.db, tx) && next.accepted == w.accepted
    ensures PaymentsOk(next)
    ensures forall o :: 0 <= o < |next.db.orders| && BySource(next, o) ==>
      o < |w.db.orders| && BySource(w, o) && next.db.orders[o].payment == w.db.orders[o].payment
  {
    OrdersAfter(w.db, tx);
    forall o | 0 <= o < |next.db.orders|
      ensures PaymentMoves(w, next, tx, o)
    {
      PaymentAfter(w, next, tx, o);
    }
    forall o, p | 0 <= o < p < |next.db.orders| && next.db.orders[o].payment.Some?
      ensures next.db.orders[o].payment != next.db.orders[p].payment
    {
      assert PaymentMoves(w, next, tx, o) && PaymentMoves(w, next, tx, p);
    }
    forall o | 0 <= o < |next.db.orders| && BySource(next, o)
      ensures o < |w.db.orders| && BySource(w, o) && next.db.orders[o].payment == w.db.orders[o].payment
    {
      assert PaymentMoves(w, next, tx, o) && Key(next.db.orders[o]).value in w.accepted;
    }
  }

  function LateAfter(w: World, tx: Tx): set<nat> {
    if Crosses(w, tx) then w.late + {tx.o} else w.late
  }

  /** Everything a transaction does to the facts above, for a transaction whose caller knows what it should. */
  ghost predicate Effects(w: World, next: World, tx: Tx) {
    && |w.db.orders| <= |next.db.orders| && next.late == LateAfter(w, tx)
    && (forall p :: 0 <= p < |w.db.orders| ==>
          && next.db.orders[p] == RowAfter(w.db, tx, p)
          && (BySource(next, p) <==> BySource(w, p))
          && (ByWallet(next.db, p) <==> ByWallet(w.db, p) || Credits(w.db, tx, p)))
    && (forall p :: |w.db.orders| <= p < |next.db.orders| ==>
          Fresh(next.db.orders[p], w.db.now) && !BySource(next, p) && !ByWallet(next.db, p) && p !in w.late)
  }

  lemma TxEffects(w: World, next: World, tx: Tx)
    requires Known(w) && Grounded(w.db, tx) && CallKnows(w, Committing(tx))
    requires next.db == Exec(w.db, tx) && next.accepted == w.accepted && next.late == LateAfter(w, tx)
    ensures RowsOk(next.db) && PaymentsOk(next) && Effects(w, next, tx)
  {
    var o := OrderOf(tx);
    ExecExtends(w.db, tx);
    OrdersAfter(w.db, tx);
    PaymentsKeep(w, next, tx);
    LedgerGrows(w.db, tx);
    assert o < |w.db.orders| ==> OrderOk(w, o);
    RowsKeep(w.db, next.db, o, Credits(w.db, tx, o));
    forall p | 0 <= p < |w.db.orders|
      ensures BySource(next, p) <==> BySource(w, p)
      ensures ByWallet(next.db, p) <==> ByWallet(w.db, p) || Credits(w.db, tx, p)
    {
      assert OrderOk(w, p);
      assert SameDeal(w.db.orders[p], next.db.orders[p]);
    }
  }

  lemma OrderStays(w: World, next: World, tx: Tx, p: nat)
    requires Effects(w, next, tx) && CallKnows(w, Committing(tx)) && Grounded(w.db, tx) && p < |next.db.orders|
    requires p < |w.db.orders| ==> OrderOk(w, p) && L.RowInv(w.db.orders[p])
    ensures OrderOk(next, p)
  {
    if p < |w.db.orders| {
      assert next.db.orders[p] == RowAfter(w.db, tx, p);
    }
  }

  /** What one call knows survives another call's transaction. */
  lemma RefundStillKnown(w: World, next: World, tx: Tx, o: nat)
    requires Effects(w, next, tx) && o < |w.db.orders| && RefundKnows(w, o) && L.RowInv(w.db.orders[o])
    requires !Refunding(Committing(tx), o)
    ensures RefundKnows(next, o)
  {
    assert next.db.orders[o] == RowAfter(w.db, tx, o);
  }

  lemma CallStillKnows(w: World, next: World, tx: Tx, call: Call)
    requires Effects(w, next, tx) && CallKnows(w, call)
    requires forall o :: 0 <= o < |w.db.orders| ==> L.RowInv(w.db.orders[o])
    requires forall o: nat :: Refunding(call, o) ==> !Refunding(Committing(tx), o)
    ensures CallKnows(next, call)
  {
    match call {
      case RefundAsking(o, seen) =>
        assert Refunding(call, o);
        RefundStillKnown(w, next, tx, o);
      case Committing(RefundFallbackTx(o, seen)) =>
        assert Refunding(call, o);
        RefundStillKnown(w, next, tx, o);
      case _ =>
    }
  }

  // ----- What asking the provider keeps -----

  /** The order whose refund the step asks for, and whether the provider accepts it now. */
  predicate Asks(w: World, s: Step, o: nat, seen: Order) {
    && s.AskProvider? && s.id in w.calls && Asking(w.calls[s.id]) && w.calls[s.id].o == o && w.calls[s.id].seen == seen
  }

  lemma AskEffects(w: World, s: Step, o: nat, seen: Order)
    requires Known(w) && Asks(w, s, o, seen) && CallOk(w.db, w.calls[s.id]) && CallKnows(w, w.calls[s.id])
    ensures var next := Next(w, s);
      && next.db == w.db && PaymentsOk(next)
      && (BySource(next, o) <==> BySource(w, o) || Granted(w, seen, s.ok))
      && (Granted(w, seen, s.ok) || !BySource(w, o))
      && forall p :: 0 <= p < |w.db.orders| && p != o ==> BySource(next, p) == BySource(w, p)
  {
    var next := Next(w, s);
    assert SameDeal(seen, w.db.orders[o]) && seen.payment == w.db.orders[o].payment;
    forall p | 0 <= p < |w.db.orders| && p != o
      ensures BySource(next, p) == BySource(w, p)
    {
      assert w.db.orders[p].payment.Some? ==> w.db.orders[p].payment != w.db.orders[o].payment;
    }
  }

  lemma AskKeepsOrders(w: World, s: Step, o: nat, seen: Order, p: nat)
    requires Known(w) && Asks(w, s, o, seen) && CallOk(w.db, w.calls[s.id]) && CallKnows(w, w.calls[s.id])
      && p < |w.db.orders|
    ensures OrderOk(Next(w, s), p)
  {
    AskEffects(w, s, o, seen);
    assert OrderOk(w, p) && OrderOk(w, o);
  }

  /** What other calls know survives the provider's answer. */
  lemma AskKeepsOthers(w: World, s: Step, o: nat, seen: Order, call: Call)
    requires Inv(w) && Asks(w, s, o, seen) && CallKnows(w, call)
    requires Refunding(w.calls[s.id], o) ==> !Refunding(call, o)
    ensures CallKnows(Next(w, s), call)
  {
    assert CallKnows(w, w.calls[s.id]) && CallOk(w.db, w.calls[s.id]);
    AskEffects(w, s, o, seen);
  }

  /** What the asking call goes on to do, it knows. */
  lemma AskKeepsOwn(w: World, s: Step, o: nat, seen: Order)
    requires Inv(w) && Asks(w, s, o, seen) && s.id in Next(w, s).calls
    ensures CallKnows(Next(w, s), Next(w, s).calls[s.id])
  {
    assert CallKnows(w, w.calls[s.id]) && CallOk(w.db, w.calls[s.id]);
    AskEffects(w, s, o, seen);
    assert OrderOk(w, o);
  }

  lemma AskKeepsCall(w: World, s: Step, o: nat, seen: Order, id: nat)
    requires Inv(w) && Asks(w, s, o, seen) && id in Next(w, s).calls
    ensures CallKnows(Next(w, s), Next(w, s).calls[id])
  {
    if id == s.id {
      AskKeepsOwn(w, s, o, seen);
    } else {
      AskKeepsOthers(w, s, o, seen, w.calls[id]);
    }
  }

  // ----- One step -----

  /** A follow-up refund belongs to an order that was still Disputed, so no other refund of it is in flight. */
  lemma FollowUpIsFirst(w: World, id: nat)
    requires Inv(w) && id in w.calls && !Asking(w.calls[id]) && FollowUp(w.db, w.calls[id]).Some?
    ensures var call := FollowUp(w.db, w.calls[id]).value;
      && (forall o: nat, j :: Refunding(call, o) && j in w.calls ==> !Refunding(w.calls[j], o))
      && (call.RefundAsking? ==>
            && call.o < |w.db.orders| && w.db.orders[call.o].status == Disputed
            && w.calls[id] == Committing(OrderTx(call.o, Resolve(call.seen, true))) && Won(w.db, TxOf(w.calls[id])))
  {
    var call := FollowUp(w.db, w.calls[id]).value;
    if call.RefundAsking? {
      assert L.RowInv(w.db.orders[call.o]);
      forall j | j in w.calls
        ensures !Refunding(w.calls[j], call.o)
      {
        assert CallKnows(w, w.calls[j]);
      }
    }
  }

  /** A call that refunds an order did so before, or follows up what the step commits. */
  lemma RefundGoesBack(w: World, s: Step, i: nat, o: nat)
    requires i in Next(w, s).calls && Refunding(Next(w, s).calls[i], o)
    ensures i in w.calls
    ensures Refunding(w.calls[i], o)
         || (s.Commit? && i == s.id && !Asking(w.calls[i]) && FollowUp(w.db, w.calls[i]) == Some(Next(w, s).calls[i]))
  {
    if i !in w.calls {
      NewCall(w, s, i);
    }
  }

  /** And then it is the first that does. */
  lemma RefundIsFirst(w: World, s: Step, i: nat, o: nat)
    requires Inv(w) && i in Next(w, s).calls && Refunding(Next(w, s).calls[i], o)
    ensures i in w.calls
    ensures Refunding(w.calls[i], o) || (s.Commit? && i == s.id && forall j <- w.calls :: !Refunding(w.calls[j], o))
  {
    RefundGoesBack(w, s, i, o);
    if !Refunding(w.calls[i], o) {
      FollowUpIsFirst(w, i);
    }
  }

  lemma StillOneRefund(w: World, s: Step)
    requires Inv(w)
    ensures OneRefund(Next(w, s))
  {
    var next := Next(w, s);
    forall i, j, o: nat | i in next.calls && j in next.calls && Refunding(next.calls[i], o)
      && Refunding(next.calls[j], o)
      ensures i == j
    {
      RefundIsFirst(w, s, i, o);
      RefundIsFirst(w, s, j, o);
    }
  }

  /** The transaction a step commits is made by a caller that knows what its call should. */
  lemma CommitterKnows(w: World, s: Step)
    requires Inv(w) && StepTx(w, s).Some?
    ensures CallKnows(w, Committing(StepTx(w, s).value))
  {
    if s.Commit? {
      assert CallKnows(w, w.calls[s.id]);
    }
  }

  lemma CommitKeepsCall(w: World, s: Step, id: nat)
    requires Inv(w) && StepTx(w, s).Some? && id in Next(w, s).calls
    requires Effects(w, Next(w, s), StepTx(w, s).value)
    ensures CallKnows(Next(w, s), Next(w, s).calls[id])
  {
    var tx, next := StepTx(w, s).value, Next(w, s);
    StepIsGrounded(w, s);
    if s.Commit? && id == s.id {
      FollowUpIsFirst(w, id);
      var call := next.calls[id];
      if call.RefundAsking? {
        assert OrderOk(w, call.o) && CallKnows(w, w.calls[id]);
        assert next.db.orders[call.o] == RowAfter(w.db, tx, call.o);
      }
    } else {
      var call := w.calls[id];
      assert CallKnows(w, call) && CallOk(w.db, call);
      if s.Commit? {
        assert forall o: nat :: Refunding(Committing(tx), o) ==> Refunding(w.calls[s.id], o);
      }
      CallStillKnows(w, next, tx, call);
    }
  }

  lemma CommitKeepsOrders(w: World, s: Step)
    requires Inv(w) && StepTx(w, s).Some?
    ensures Known(Next(w, s))
  {
    var tx, next := StepTx(w, s).value, Next(w, s);
    StepIsGrounded(w, s);
    CommitterKnows(w, s);
    TxEffects(w, next, tx);
    forall p | 0 <= p < |next.db.orders|
      ensures OrderOk(next, p)
    {
      OrderStays(w, next, tx, p);
    }
  }

  lemma CommitKeepsCalls(w: World, s: Step)
    requires Inv(w) && StepTx(w, s).Some?
    ensures forall id <- Next(w, s).calls :: CallKnows(Next(w, s), Next(w, s).calls[id])
  {
    var next := Next(w, s);
    StepIsGrounded(w, s);
    CommitterKnows(w, s);
    TxEffects(w, next, StepTx(w, s).value);
    forall id | id in next.calls
      ensures CallKnows(next, next.calls[id])
    {
      CommitKeepsCall(w, s, id);
    }
  }

  lemma AskKeeps(w: World, s: Step)
    requires Inv(w) && s.AskProvider? && s.id in w.calls && Asking(w.calls[s.id])
    ensures Known(Next(w, s)) && forall id <- Next(w, s).calls :: CallKnows(Next(w, s), Next(w, s).calls[id])
  {
    var o, seen, next := w.calls[s.id].o, w.calls[s.id].seen, Next(w, s);
    assert CallKnows(w, w.calls[s.id]) && CallOk(w.db, w.calls[s.id]);
    AskEffects(w, s, o, seen);
    forall p | 0 <= p < |next.db.orders|
      ensures OrderOk(next, p)
    {
      AskKeepsOrders(w, s, o, seen, p);
    }
    forall id | id in next.calls
      ensures CallKnows(next, next.calls[id])
    {
      AskKeepsCall(w, s, o, seen, id);
    }
  }

  lemma BeginKnows(w: World, call: Call)
    requires Runs.Inv(w) && FirstRead(w, call)
    ensures CallKnows(w, call)
  {
    if call.Committing? && call.tx.OrderTx? {
      assert L.RowInv(w.db.orders[call.tx.o]);
    }
  }

  /** Steps that neither commit nor ask leave every fact as it was. */
  lemma QuietKeeps(w: World, s: Step)
    requires Inv(w) && IsQuiet(w, s)
    ensures Known(Next(w, s)) && forall id <- Next(w, s).calls :: CallKnows(Next(w, s), Next(w, s).calls[id])
  {
    var next := Next(w, s);
    QuietFrame(w, s);
    forall p | 0 <= p < |next.db.orders|
      ensures OrderOk(next, p)
    {
      assert OrderOk(w, p);
    }
    forall id | id in next.calls
      ensures CallKnows(next, next.calls[id])
    {
      if id in w.calls {
        assert CallKnows(w, w.calls[id]);
      } else {
        NewCall(w, s, id);
        BeginKnows(w, next.calls[id]);
      }
    }
  }

  lemma NextKeeps(w: World, s: Step)
    requires Inv(w)
    ensures Inv(Next(w, s))
  {
    Runs.NextKeeps(w, s);
    StillOneRefund(w, s);
    if StepTx(w, s).Some? {
      CommitKeepsOrders(w, s);
      CommitKeepsCalls(w, s);
    } else if s.AskProvider? && s.id in w.calls && Asking(w.calls[s.id]) {
      AskKeeps(w, s);
    } else {
      QuietKeeps(w, s);
    }
  }

  lemma {:induction false} RunKeeps(w: World, steps: seq<Step>)
    requires Init(w)
    ensures Inv(Run(w, steps))
  {
    if |steps| > 0 {
      RunKeeps(w, steps[..|steps| - 1]);
      NextKeeps(Run(w, steps[..|steps| - 1]), steps[|steps| - 1]);
    }
  }

  // ----- Every run -----

  predicate RefundAt(db: Db, i: nat, o: nat) {
    i < |db.ledger| && db.ledger[i].kind == Refund && db.ledger[i].order == Some(o)
  }

  /** The order's only wallet refund, if it has one, is this row. */
  ghost predicate OnlyRefundIs(db: Db, o: nat, row: LedgerRow) {
    forall i: nat, j: nat :: RefundAt(db, i, o) && RefundAt(db, j, o) ==> i == j && db.ledger[i] == row
  }

  lemma RowsAreOne(db: Db, o: nat)
    requires RowsOk(db) && o < |db.orders|
    ensures OnlyRefundIs(db, o, CreditRow(db, o))
  {
    forall i: nat, j: nat | RefundAt(db, i, o) && RefundAt(db, j, o)
      ensures i == j && db.ledger[i] == CreditRow(db, o)
    {
      assert RefundRowOk(db.orders, db.ledger[i]);
    }
  }

  /** An auto-cancelled order's buyer was refunded by the method the order records, and only by that one unless
      another auto-cancel of the order got a refund accepted too. */
  predicate RefundedAsRecorded(w: World, o: nat, crossed: bool)
    requires o < |w.db.orders|
  {
    var row := w.db.orders[o];
    row.status == Cancelled && row.paidAt.Some? ==>
      && row.refundMethod.Some?
      && ByWallet(w.db, o) == row.refundMethod.value.WalletCredit?
      && BySource(w, o) == (row.refundMethod.value.OriginalPayment? || crossed)
  }

  /** The step commits an auto-cancel's wallet credit of o after another auto-cancel's refund has been accepted. */
  predicate LateCredit(w: World, s: Step, o: nat) {
    s.Commit? && StepTx(w, s).Some? && Crosses(w, StepTx(w, s).value) && StepTx(w, s).value.o == o
  }

  predicate Crossed(w: World, steps: seq<Step>, o: nat) {
    |steps| > 0 &&
      var n := |steps| - 1;
      Crossed(w, steps[..n], o) || LateAsk(Run(w, steps[..n]), steps[n], o)
        || LateCredit(Run(w, steps[..n]), steps[n], o)
  }

  lemma StepCrosses(w: World, s: Step, o: nat)
    ensures o in Next(w, s).late <==> o in w.late || LateAsk(w, s, o) || LateCredit(w, s, o)
  {
  }

  lemma {:induction false} LateMeansCrossed(w: World, steps: seq<Step>, o: nat)
    requires Init(w)
    ensures o in Run(w, steps).late <==> Crossed(w, steps, o)
  {
    if |steps| > 0 {
      var n := |steps| - 1;
      LateMeansCrossed(w, steps[..n], o);
      StepCrosses(Run(w, steps[..n]), steps[n], o);
    }
  }

  /** In every run, with any number of auto-cancels of an order in flight at once, all wallet refunds of the order are
      one row, to its buyer, for exactly its total; and an auto-cancelled order has been refunded as recorded, and in no
      other way unless two refunds crossed. */
  lemma RefundedExactly(w: World, steps: seq<Step>, o: nat)
    requires Init(w) && o < |Run(w, steps).db.orders|
    ensures OnlyRefundIs(Run(w, steps).db, o, CreditRow(Run(w, steps).db, o))
    ensures RefundedAsRecorded(Run(w, steps), o, Crossed(w, steps, o))
  {
    RunKeeps(w, steps);
    RowsAreOne(Run(w, steps).db, o);
    LateMeansCrossed(w, steps, o);
    assert OrderOk(Run(w, steps), o);
  }

  /** A buyer credited in the wallet is paid back a second time, by the provider, exactly when auto-cancel's refund was
      first accepted after a dispute or another auto-cancel was through with the order, or was accepted before a refused
      auto-cancel made its wallet credit. */
  lemma PaidBackTwiceIff(w: World, steps: seq<Step>, o: nat)
    requires Init(w) && o < |Run(w, steps).db.orders| && ByWallet(Run(w, steps).db, o)
    ensures BySource(Run(w, steps), o) <==> Crossed(w, steps, o)
  {
    RunKeeps(w, steps);
    LateMeansCrossed(w, steps, o);
    assert OrderOk(Run(w, steps), o);
  }

  // ----- If auto-cancels of an order do not overlap -----

  /** At most one auto-cancel of the order is in flight. */
  ghost predicate Alone(w: World, o: nat) {
    forall i, j :: i in w.calls && j in w.calls && Cancelling(w.calls[i], o) && Cancelling(w.calls[j], o) ==> i == j
  }

  ghost predicate NoOverlap(w: World, steps: seq<Step>, o: nat) {
    Alone(Run(w, steps), o) && (|steps| > 0 ==> NoOverlap(w, steps[..|steps| - 1], o))
  }

  /** No auto-cancel of the order is through with it, and the provider has not accepted what it refused one. */
  predicate AloneKnows(w: World, call: Call, o: nat) {
    Cancelling(call, o) ==>
      && o < |w.db.orders| && w.db.orders[o].status != Pending && w.db.orders[o].status != Cancelled
      && (call.Committing? && !call.tx.act.toSource && w.db.orders[o].status == Paid ==> !BySource(w, o))
  }

  ghost predicate Unhurried(w: World, o: nat) {
    forall id <- w.calls :: AloneKnows(w, w.calls[id], o)
  }

  /** What a transaction by another call leaves. */
  lemma StaysUnhurried(w: World, next: World, tx: Tx, call: Call, o: nat)
    requires Effects(w, next, tx) && AloneKnows(w, call, o) && !Cancelling(Committing(tx), o)
    requires o < |w.db.orders| ==> L.RowInv(w.db.orders[o])
    ensures AloneKnows(next, call, o)
  {
    assert o < |w.db.orders| ==> next.db.orders[o] == RowAfter(w.db, tx, o);
  }

  /** Of two calls on the order the one that commits is not also the one that stays in flight. */
  lemma CommitterGoes(w: World, s: Step, o: nat, id: nat)
    requires StepTx(w, s).Some? && Alone(w, o) && id in Next(w, s).calls && Cancelling(Next(w, s).calls[id], o)
    ensures id in w.calls && Next(w, s).calls[id] == w.calls[id] && !Cancelling(Committing(StepTx(w, s).value), o)
  {
    if s.Commit? && Cancelling(Committing(StepTx(w, s).value), o) {
      assert Cancelling(w.calls[s.id], o);
    }
  }

  lemma CommitUnhurried(w: World, s: Step, o: nat, id: nat)
    requires Inv(w) && StepTx(w, s).Some? && Unhurried(w, o) && Alone(w, o) && id in Next(w, s).calls
    ensures AloneKnows(Next(w, s), Next(w, s).calls[id], o)
  {
    if Cancelling(Next(w, s).calls[id], o) {
      NextExtends(w, s);
      StepIsGrounded(w, s);
      CommitterKnows(w, s);
      TxEffects(w, Next(w, s), StepTx(w, s).value);
      CommitterGoes(w, s, o, id);
      StaysUnhurried(w, Next(w, s), StepTx(w, s).value, w.calls[id], o);
    }
  }

  /** What asking the provider changes about one order. */
  lemma AskMoney(w: World, s: Step, o: nat)
    requires Inv(w) && s.AskProvider? && s.id in w.calls && Asking(w.calls[s.id])
    ensures Next(w, s).db == w.db && w.calls[s.id].o < |w.db.orders|
    ensures o < |w.db.orders| ==>
      (BySource(Next(w, s), o) <==>
       BySource(w, o) || (w.calls[s.id].o == o && Granted(w, w.calls[s.id].seen, s.ok)))
    ensures w.calls[s.id].RefundAsking? ==> w.db.orders[w.calls[s.id].o].status == Refunded
  {
    assert CallKnows(w, w.calls[s.id]) && CallOk(w.db, w.calls[s.id]);
    AskEffects(w, s, w.calls[s.id].o, w.calls[s.id].seen);
  }

  lemma AskedUnhurried(w: World, s: Step, o: nat)
    requires Inv(w) && s.AskProvider? && s.id in w.calls && Cancelling(w.calls[s.id], o) && Asking(w.calls[s.id])
    requires AloneKnows(w, w.calls[s.id], o) && s.id in Next(w, s).calls
    ensures AloneKnows(Next(w, s), Next(w, s).calls[s.id], o)
  {
    AskMoney(w, s, o);
    var call := w.calls[s.id];
    assert CallKnows(w, call) && CallOk(w.db, call);
    AskEffects(w, s, o, call.seen);
  }

  lemma OthersUnhurried(w: World, s: Step, o: nat, id: nat)
    requires s.AskProvider? && s.id in w.calls && id in w.calls && id != s.id && Unhurried(w, o) && Alone(w, o)
    requires Next(w, s).db == w.db
    requires o < |w.db.orders| && BySource(Next(w, s), o) && !BySource(w, o) ==>
      Cancelling(w.calls[s.id], o) || w.db.orders[o].status == Refunded
    ensures AloneKnows(Next(w, s), w.calls[id], o)
  {
    assert AloneKnows(w, w.calls[id], o);
  }

  lemma AskUnhurried(w: World, s: Step, o: nat, id: nat)
    requires Inv(w) && s.AskProvider? && s.id in w.calls && Asking(w.calls[s.id]) && Unhurried(w, o) && Alone(w, o)
    requires id in Next(w, s).calls
    ensures AloneKnows(Next(w, s), Next(w, s).calls[id], o)
  {
    AskMoney(w, s, o);
    if id != s.id {
      OthersUnhurried(w, s, o, id);
    } else if Cancelling(Next(w, s).calls[id], o) {
      assert AloneKnows(w, w.calls[id], o);
      AskedUnhurried(w, s, o);
    }
  }

  lemma QuietUnhurried(w: World, s: Step, o: nat, id: nat)
    requires IsQuiet(w, s) && Unhurried(w, o) && id in Next(w, s).calls
    ensures AloneKnows(Next(w, s), Next(w, s).calls[id], o)
  {
    QuietFrame(w, s);
    if id in w.calls {
      assert AloneKnows(w, w.calls[id], o);
    } else {
      NewCall(w, s, id);
    }
  }

  lemma StepUnhurried(w: World, s: Step, o: nat)
    requires Inv(w) && Unhurried(w, o) && Alone(w, o)
    ensures Unhurried(Next(w, s), o)
  {
    forall id | id in Next(w, s).calls
      ensures AloneKnows(Next(w, s), Next(w, s).calls[id], o)
    {
      if StepTx(w, s).Some? {
        CommitUnhurried(w, s, o, id);
      } else if s.AskProvider? && s.id in w.calls && Asking(w.calls[s.id]) {
        AskUnhurried(w, s, o, id);
      } else {
        QuietUnhurried(w, s, o, id);
      }
    }
  }

  /** Then only a dispute can come first. */
  lemma CrossesAfterDispute(w: World, s: Step, o: nat)
    requires Inv(w) && Unhurried(w, o)
    ensures !LateCredit(w, s, o) && (LateAsk(w, s, o) ==> w.db.orders[o].status == Refunded)
  {
    if s.Commit? && StepTx(w, s).Some? {
      assert AloneKnows(w, w.calls[s.id], o) && CallKnows(w, w.calls[s.id]) && CallOk(w.db, w.calls[s.id]);
    } else if LateAsk(w, s, o) {
      assert AloneKnows(w, w.calls[s.id], o);
    }
  }

  predicate AskedAfterDispute(w: World, steps: seq<Step>, o: nat) {
    |steps| > 0 &&
      var n := |steps| - 1;
      var before := Run(w, steps[..n]);
      AskedAfterDispute(w, steps[..n], o)
      || (LateAsk(before, steps[n], o) && before.db.orders[o].status == Refunded)
  }

  lemma {:induction false} CrossedIsAfterDispute(w: World, steps: seq<Step>, o: nat)
    requires Init(w) && NoOverlap(w, steps, o)
    ensures Unhurried(Run(w, steps), o) && Crossed(w, steps, o) == AskedAfterDispute(w, steps, o)
  {
    if |steps| > 0 {
      var n := |steps| - 1;
      CrossedIsAfterDispute(w, steps[..n], o);
      RunKeeps(w, steps[..n]);
      StepUnhurried(Run(w, steps[..n]), steps[n], o);
      CrossesAfterDispute(Run(w, steps[..n]), steps[n], o);
    }
  }

  /** When the job's lock keeps auto-cancels of the order apart, a credited buyer is paid back a second time exactly
      when auto-cancel's refund was first accepted after a dispute had already refunded the order. */
  lemma PaidBackTwiceAloneIff(w: World, steps: seq<Step>, o: nat)
    requires Init(w) && o < |Run(w, steps).db.orders| && ByWallet(Run(w, steps).db, o) && NoOverlap(w, steps, o)
    ensures BySource(Run(w, steps), o) <==> AskedAfterDispute(w, steps, o)
  {
    PaidBackTwiceIff(w, steps, o);
    CrossedIsAfterDispute(w, steps, o);
  }
}
