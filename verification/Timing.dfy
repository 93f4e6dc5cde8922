/** When the seller's money moves, in runs without re-holds: never early. */
module Timing {
  import opened Basics
  import opened Types
  import opened Transactions
  import opened Reads
  import opened Due
  import opened Runs
  import SettledRuns
  import Refunds
  import L = Lifecycle

  // ----- Never early -----

  /** The dispute deadline is past, or the order is. */
  predicate ConfirmWaited(row: Order, now: int) {
    && L.Rank(row.status) >= L.Rank(Delivered)
    && (row.status == Delivered ==> row.disputeDeadline.Some? && row.disputeDeadline.value < now)
  }

  /** The release date has come, or the order is completed. */
  predicate ReleaseWaited(row: Order, now: int) {
    || row.status == Completed
    || (row.status == Held && row.escrowReleasesAt.Some? && row.escrowReleasesAt.value <= now)
  }

  predicate CallWaited(db: Db, call: Call) {
    match call
    case Confirming(o, false) => o < |db.orders| && ConfirmWaited(db.orders[o], db.now)
    case Finalizing(o, false) => o < |db.orders| && ReleaseWaited(db.orders[o], db.now)
    case _ => true
  }

  ghost predicate Inv(w: World) {
    SettledRuns.Inv(w) && forall id <- w.calls :: CallWaited(w.db, w.calls[id])
  }

  /** Waiting is never undone. */
  lemma RowStillWaited(a: Order, b: Order, now: int, later: int)
    requires SettledRuns.Follows(a, b) && now <= later
    requires a.status == Delivered ==> a.deliveredAt.Some?
    requires b.status == Delivered ==> a.status == Delivered || L.Rank(a.status) < L.Rank(Delivered)
    ensures ConfirmWaited(a, now) ==> ConfirmWaited(b, later)
    ensures ReleaseWaited(a, now) ==> ReleaseWaited(b, later)
  {
  }

  lemma StillWaited(w: World, s: Step, call: Call)
    requires SettledRuns.Inv(w) && !IsRehold(s) && CallWaited(w.db, call)
    ensures CallWaited(Next(w, s).db, call)
  {
    if call.Confirming? || call.Finalizing? {
      var o := call.o;
      if o < |w.db.orders| {
        SettledRuns.StepFollows(w, s, o);
        ClockRuns(w, s);
        assert L.StrictRowInv(w.db.orders[o], w.db.now, w.db.hold);
        RowStillWaited(w.db.orders[o], Next(w, s).db.orders[o], w.db.now, Next(w, s).db.now);
      }
    }
  }

  lemma ClockRuns(w: World, s: Step)
    ensures Next(w, s).db.now >= w.db.now
  {
    NextExtends(w, s);
    if StepTx(w, s).Some? && StepTx(w, s).value.OrderTx? && StepTx(w, s).value.o < |w.db.orders| {
      L.OnlyOneRow(w.db, StepTx(w, s).value.o, StepTx(w, s).value.act);
    }
  }

  /** A confirmation with no hold window goes on to release the escrow it has just put on hold. */
  lemma FollowUpWaited(w: World, id: nat)
    requires Inv(w) && id in w.calls && !Asking(w.calls[id]) && FollowUp(w.db, w.calls[id]).Some?
    ensures CallWaited(Next(w, Commit(id)).db, FollowUp(w.db, w.calls[id]).value)
  {
    var call := FollowUp(w.db, w.calls[id]).value;
    if call.Finalizing? {
      assert TxOf(w.calls[id]) == OrderTx(call.o, EnterHold) && w.db.hold == 0;
      NextExtends(w, Commit(id));
      L.OnlyOneRow(w.db, call.o, EnterHold);
    }
  }

  lemma NewCallWaited(w: World, s: Step, id: nat)
    requires Inv(w) && id in Next(w, s).calls && id !in w.calls && FirstRead(w, Next(w, s).calls[id])
    ensures CallWaited(Next(w, s).db, Next(w, s).calls[id])
  {
    assert Next(w, s).db == w.db;
  }

  lemma EachWaited(w: World, s: Step, id: nat)
    requires Inv(w) && !IsRehold(s) && id in Next(w, s).calls
    ensures CallWaited(Next(w, s).db, Next(w, s).calls[id])
  {
    var next := Next(w, s);
    if id in w.calls && next.calls[id] == w.calls[id] {
      StillWaited(w, s, w.calls[id]);
    } else if id !in w.calls {
      NewCall(w, s, id);
      NewCallWaited(w, s, id);
    } else if s.Commit? {
      FollowUpWaited(w, id);
    }
  }

  lemma NextKeeps(w: World, s: Step)
    requires Inv(w) && !IsRehold(s)
    ensures Inv(Next(w, s))
  {
    SettledRuns.NextKeeps(w, s);
    forall id | id in Next(w, s).calls
      ensures CallWaited(Next(w, s).db, Next(w, s).calls[id])
    {
      EachWaited(w, s, id);
    }
  }

  lemma {:induction false} RunKeeps(w: World, steps: seq<Step>)
    requires Init(w) && Settled(steps)
    ensures Inv(Run(w, steps))
  {
    if |steps| == 0 {
      SettledRuns.RunKeeps(w, steps);
    } else {
      var n := |steps| - 1;
      RunKeeps(w, steps[..n]);
      NextKeeps(Run(w, steps[..n]), steps[n]);
    }
  }

  /** The step commits this call. */
  predicate Commits(w: World, s: Step, call: Call) {
    s.Commit? && s.id in w.calls && w.calls[s.id] == call
  }

  /** How o's status changes in one step of such a run, on the way to the seller's money. */
  predicate NotEarly(w: World, s: Step, o: nat)
    requires o < |w.db.orders| && o < |Next(w, s).db.orders|
  {
    var a, b, now := w.db.orders[o], Next(w, s).db.orders[o], w.db.now;
    && (a.status != Held && b.status == Held ==>
          && a.status == Delivered && b.escrowReleasesAt == Some(now + w.db.hold)
          && (Commits(w, s, Confirming(o, true))
              || (Commits(w, s, Confirming(o, false)) && a.deliveredAt.Some?
                 && now > a.deliveredAt.value + DISPUTE_WINDOW)))
    && (a.status == Held && b.status != Held ==>
          && b.status == Completed
          && (Commits(w, s, Finalizing(o, true))
              || (Commits(w, s, Finalizing(o, false)) && a.confirmedAt.Some?
                 && now >= a.confirmedAt.value + w.db.hold)))
    && (a.status != Completed && b.status == Completed ==> a.status == Held || a.status == Disputed)
  }

  predicate EntersLate(w: World, s: Step, o: nat)
    requires o < |w.db.orders|
  {
    Commits(w, s, Confirming(o, true))
      || (Commits(w, s, Confirming(o, false)) && ConfirmWaited(w.db.orders[o], w.db.now))
  }

  predicate LeavesLate(w: World, s: Step, o: nat)
    requires o < |w.db.orders|
  {
    Commits(w, s, Finalizing(o, true))
      || (Commits(w, s, Finalizing(o, false)) && ReleaseWaited(w.db.orders[o], w.db.now))
  }

  /** Only the two kinds of call that wait make these transactions. */
  lemma WhoCommits(w: World, s: Step, o: nat)
    requires CallsOk(w) && o < |w.db.orders| && forall id <- w.calls :: CallWaited(w.db, w.calls[id])
    ensures StepTx(w, s) == Some(OrderTx(o, EnterHold)) ==> EntersLate(w, s, o)
    ensures StepTx(w, s) == Some(OrderTx(o, FinalizeEscrow)) ==> LeavesLate(w, s, o)
  {
    if s.Commit? && s.id in w.calls {
      assert CallOk(w.db, w.calls[s.id]) && CallWaited(w.db, w.calls[s.id]);
    }
  }

  /** The claims that lead to the seller's money. */
  lemma ClaimsOnTheWay(row: Order, now: int, hold: nat, act: Act)
    requires L.StrictRowInv(row, now, hold) && Claim(row, now, hold, act).Some? && !act.ForceHold?
    ensures var next := Claim(row, now, hold, act).value;
      && (next.status == Held
         ==> act.EnterHold? && row.status == Delivered && next.escrowReleasesAt == Some(now + hold))
      && (row.status == Held ==> act.FinalizeEscrow? && next.status == Completed)
      && (next.status == Completed ==> row.status == Held || row.status == Disputed)
  {
  }

  lemma ClaimNotEarly(w: World, s: Step, o: nat, act: Act)
    requires o < |w.db.orders| && o < |Next(w, s).db.orders|
    requires L.StrictRowInv(w.db.orders[o], w.db.now, w.db.hold) && !act.ForceHold? && Won(w.db, OrderTx(o, act))
    requires Next(w, s).db.orders[o] == Claim(w.db.orders[o], w.db.now, w.db.hold, act).value
    requires (act.EnterHold? ==> EntersLate(w, s, o)) && (act.FinalizeEscrow? ==> LeavesLate(w, s, o))
    ensures NotEarly(w, s, o)
  {
    ClaimsOnTheWay(w.db.orders[o], w.db.now, w.db.hold, act);
  }

  lemma StepNotEarly(w: World, s: Step, o: nat)
    requires Inv(w) && !IsRehold(s) && o < |w.db.orders|
    ensures o < |Next(w, s).db.orders| && NotEarly(w, s, o)
  {
    NextExtends(w, s);
    if StepTx(w, s).Some? {
      var tx := StepTx(w, s).value;
      Refunds.OrdersAfter(w.db, tx);
      assert Next(w, s).db.orders[o] == Refunds.RowAfter(w.db, tx, o);
      WhoCommits(w, s, o);
      assert L.StrictRowInv(w.db.orders[o], w.db.now, w.db.hold);
      if Won(w.db, tx) && tx.o == o {
        ClaimNotEarly(w, s, o, tx.act);
      }
    }
  }

  /** In every run without re-holds an order enters its hold window only by the buyer's confirmation or more than
      five days after delivery, and leaves it, completed, only by an administrator's release or when the whole
      window has passed; apart from settled disputes nothing else completes an order. */
  lemma NeverReleasedEarly(w: World, steps: seq<Step>, s: Step, o: nat)
    requires Init(w) && Settled(steps) && !IsRehold(s) && o < |Run(w, steps).db.orders|
    ensures o < |Next(Run(w, steps), s).db.orders| && NotEarly(Run(w, steps), s, o)
  {
    RunKeeps(w, steps);
    StepNotEarly(Run(w, steps), s, o);
  }

  // ----- And nor is the balance -----

  /** What a won claim and its writes do to a user's balance. */
  lemma AfterBalance(db: Db, o: nat, row: Order, act: Act, u: nat)
    ensures BalanceOf(After(db, o, row, act).wallets, u) - BalanceOf(db.wallets, u) ==
      match act
      case AutoCancel(seen, toSource) => if !toSource && seen.buyer == u then seen.total else 0
      case FinalizeEscrow => if row.seller == u then row.item else 0
      case ForceHold => if row.seller == u then 0 - row.item else 0
      case Resolve(seen, refund) => if !refund && seen.seller == u then seen.item else 0
      case _ => 0
  {
  }

  function Rise(w: World, s: Step, u: nat): int {
    BalanceOf(Next(w, s).db.wallets, u) - BalanceOf(w.db.wallets, u)
  }

  /** The step releases o's price to its seller: when the whole hold window has passed or an administrator says so. */
  predicate Releases(w: World, s: Step, o: nat)
    requires o < |w.db.orders| && o < |Next(w, s).db.orders|
  {
    var a, b := w.db.orders[o], Next(w, s).db.orders[o];
    && a.status == Held && b.status == Completed
    && (Commits(w, s, Finalizing(o, true))
        || (Commits(w, s, Finalizing(o, false)) && a.confirmedAt.Some? && w.db.now >= a.confirmedAt.value + w.db.hold))
  }

  /** Why u's balance rises by this much: a release, a dispute settled for the seller, or a refund. */
  predicate Earned(w: World, s: Step, o: nat, u: nat, rise: int) {
    && o < |w.db.orders| && o < |Next(w, s).db.orders|
    && var a, b := w.db.orders[o], Next(w, s).db.orders[o];
       || (u == a.seller && rise == a.item && (Releases(w, s, o) || (a.status == Disputed && b.status == Completed)))
       || (u == a.buyer && rise == a.total && (b.status == Cancelled || b.status == Refunded)
           && StepTx(w, s).Some? && Refunds.Credits(w.db, StepTx(w, s).value, o))
  }

  /** A transaction on an order that raises a balance does so for one of three reasons. */
  lemma ActRaises(db: Db, o: nat, act: Act, u: nat)
    requires o < |db.orders| && ActGrounded(db, o, act) && L.RowInv(db.orders[o])
    requires BalanceOf(Perform(db, o, act).wallets, u) > BalanceOf(db.wallets, u)
    ensures Won(db, OrderTx(o, act))
    ensures var row, next, rise := db.orders[o], Claim(db.orders[o], db.now, db.hold, act).value,
                                   BalanceOf(Perform(db, o, act).wallets, u) - BalanceOf(db.wallets, u);
      || (act.FinalizeEscrow? && u == row.seller && rise == row.item)
      || (act.Resolve? && row.status == Disputed && next.status == Completed && u == row.seller && rise == row.item)
      || (act.AutoCancel? && next.status == Cancelled && u == row.buyer && rise == row.total)
  {
    if Claim(db.orders[o], db.now, db.hold, act).Some? {
      var row := Claim(db.orders[o], db.now, db.hold, act).value;
      AfterBalance(Put(db, o, row), o, row, act, u);
    }
  }

  lemma ActEarns(w: World, s: Step, o: nat, act: Act, u: nat)
    requires Inv(w) && !IsRehold(s) && StepTx(w, s) == Some(OrderTx(o, act)) && o < |w.db.orders|
    requires Rise(w, s, u) > 0
    ensures Earned(w, s, o, u, Rise(w, s, u))
  {
    NextExtends(w, s);
    StepIsGrounded(w, s);
    StepNotEarly(w, s, o);
    L.OnlyOneRow(w.db, o, act);
    ActRaises(w.db, o, act, u);
  }

  /** No other transaction raises a balance but the wallet refund. */
  lemma OthersDoNotRaise(db: Db, tx: Tx, u: nat)
    requires !tx.OrderTx? && !tx.RefundFallbackTx?
    ensures BalanceOf(Exec(db, tx).wallets, u) <= BalanceOf(db.wallets, u)
  {
  }

  lemma RefundEarns(w: World, s: Step, o: nat, seen: Order, u: nat)
    requires Refunds.Inv(w) && StepTx(w, s) == Some(RefundFallbackTx(o, seen)) && Rise(w, s, u) > 0
    ensures Earned(w, s, o, u, Rise(w, s, u))
  {
    NextExtends(w, s);
    StepIsGrounded(w, s);
    Refunds.CommitterKnows(w, s);
    assert Refunds.RefundKnows(w, o);
  }

  /** In every run without re-holds a balance rises only by an order's price, for its seller, when the order's hold
      window has passed in full, an administrator releases it or a dispute is settled; or by an order's total, for its
      buyer, when the order is over without completing. */
  lemma BalanceNeverEarly(w: World, steps: seq<Step>, s: Step, u: nat)
    requires Init(w) && Settled(steps) && !IsRehold(s) && Rise(Run(w, steps), s, u) > 0
    ensures exists o: nat :: Earned(Run(w, steps), s, o, u, Rise(Run(w, steps), s, u))
  {
    var v := Run(w, steps);
    RunKeeps(w, steps);
    Refunds.RunKeeps(w, steps);
    NextExtends(v, s);
    match StepTx(v, s) {
      case Some(OrderTx(o, act)) => ActEarns(v, s, o, act, u);
      case Some(RefundFallbackTx(o, seen)) => RefundEarns(v, s, o, seen, u);
      case Some(tx) => OthersDoNotRaise(v.db, tx, u);
      case None =>
    }
  }
}
