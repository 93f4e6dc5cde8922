/** Whether a buyer who won a dispute ever sees the money: exactly when no crash dropped the refund, or auto-cancel had
    its own refund of the order accepted. No job looks for refunds that were never made. */
module MoneyBack {
  import opened Basics
  import opened Types
  import opened Transactions
  import opened Reads
  import opened Runs
  import opened Refunds
  import L = Lifecycle

  /** A dispute refund of o is under way. */
  ghost predicate Owed(w: World, o: nat) {
    exists id <- w.calls :: Refunding(w.calls[id], o)
  }

  /** The step crashes a dispute refund of o. */
  predicate DropsRefund(w: World, s: Step, o: nat) {
    s.Crash? && s.id in w.calls && Refunding(w.calls[s.id], o)
  }

  /** The step has an auto-cancel's refund of o accepted. */
  predicate AcceptsCancel(w: World, s: Step, o: nat) {
    && s.AskProvider? && s.id in w.calls && w.calls[s.id].CancelAsking? && w.calls[s.id].o == o
    && Granted(w, w.calls[s.id].seen, s.ok)
  }

  predicate Dropped(w: World, steps: seq<Step>, o: nat) {
    |steps| > 0 &&
      var n := |steps| - 1;
      Dropped(w, steps[..n], o) || DropsRefund(Run(w, steps[..n]), steps[n], o)
  }

  predicate CancelAccepted(w: World, steps: seq<Step>, o: nat) {
    |steps| > 0 &&
      var n := |steps| - 1;
      CancelAccepted(w, steps[..n], o) || AcceptsCancel(Run(w, steps[..n]), steps[n], o)
  }

  /** How the order's money stands to its history. */
  ghost predicate Account(w: World, o: nat, dropped: bool, accepted: bool) {
    if o >= |w.db.orders| then !dropped && !accepted
    else
      && (w.db.orders[o].status == Refunded && !dropped ==> ByWallet(w.db, o) || BySource(w, o) || Owed(w, o))
      && (dropped ==> w.db.orders[o].status == Refunded && !ByWallet(w.db, o) && !Owed(w, o))
      && (accepted ==> BySource(w, o))
      && (BySource(w, o) ==> accepted || (w.db.orders[o].status == Refunded && !Owed(w, o) && !dropped))
  }

  /** A refund in flight goes on, or is what the step finishes or drops. */
  lemma RefundGoesOn(w: World, s: Step, o: nat, id: nat)
    requires id in w.calls && Refunding(w.calls[id], o)
    ensures if id in Next(w, s).calls then Refunding(Next(w, s).calls[id], o)
            else (s.Commit? || s.AskProvider? || s.Crash?) && s.id == id
  {
    match s {
      case Commit(i) => if i == id && w.calls[id].Committing? { assert FollowUp(w.db, w.calls[id]) == None; }
      case _ =>
    }
  }

  lemma StillOwed(w: World, s: Step, o: nat)
    requires Owed(w, o)
    ensures Owed(Next(w, s), o) ||
      ((s.Commit? || s.AskProvider? || s.Crash?) && s.id in w.calls && Refunding(w.calls[s.id], o)
        && s.id !in Next(w, s).calls)
  {
    var id :| id in w.calls && Refunding(w.calls[id], o);
    RefundGoesOn(w, s, o, id);
  }

  /** A refund comes into flight only when its order's dispute is settled. */
  lemma NewlyOwed(w: World, s: Step, o: nat)
    requires Refunds.Inv(w) && Owed(Next(w, s), o) && !Owed(w, o)
    ensures o < |w.db.orders| && w.db.orders[o].status == Disputed
  {
    var id :| id in Next(w, s).calls && Refunding(Next(w, s).calls[id], o);
    RefundIsFirst(w, s, id, o);
    FollowUpIsFirst(w, id);
  }

  /** A step that takes the last refund of o out of flight leaves none. */
  lemma NoLongerOwed(w: World, s: Step, o: nat)
    requires Refunds.Inv(w) && (s.Commit? || s.AskProvider? || s.Crash?)
    requires s.id in w.calls && Refunding(w.calls[s.id], o) && s.id !in Next(w, s).calls
    ensures o < |w.db.orders| && RefundKnows(w, o) && !Owed(Next(w, s), o)
  {
    assert CallKnows(w, w.calls[s.id]);
    if Owed(Next(w, s), o) {
      var id :| id in Next(w, s).calls && Refunding(Next(w, s).calls[id], o);
      RefundIsFirst(w, s, id, o);
    }
  }

  /** A step that refunds an order leaves its refund under way. */
  lemma NewlyRefundedIsOwed(w: World, s: Step, o: nat)
    requires Refunds.Inv(w) && StepTx(w, s).Some? && o < |w.db.orders| && w.db.orders[o].status != Refunded
    requires RowAfter(w.db, StepTx(w, s).value, o).status == Refunded
    ensures Owed(Next(w, s), o)
  {
    var tx := StepTx(w, s).value;
    assert tx.act.Resolve? && tx.act.refund && s.Commit?;
    assert Refunding(Next(w, s).calls[s.id], o);
  }

  lemma CommitEffects(w: World, s: Step)
    requires Refunds.Inv(w) && StepTx(w, s).Some?
    ensures Effects(w, Next(w, s), StepTx(w, s).value)
  {
    NextExtends(w, s);
    StepIsGrounded(w, s);
    CommitterKnows(w, s);
    TxEffects(w, Next(w, s), StepTx(w, s).value);
  }

  /** Who credits a wallet: an auto-cancel of a PAID order, or a refund under way. */
  lemma WhoCredits(w: World, s: Step, o: nat)
    requires Refunds.Inv(w) && StepTx(w, s).Some? && Credits(w.db, StepTx(w, s).value, o)
    ensures o < |w.db.orders| && (w.db.orders[o].status == Paid || Owed(w, o))
  {
    if StepTx(w, s).value.RefundFallbackTx? {
      assert s.Commit? && CallKnows(w, w.calls[s.id]) && Refunding(w.calls[s.id], o);
    }
  }

  /** A dispute refund that a commit takes out of flight has been paid. */
  lemma PaidWhenDone(w: World, s: Step, o: nat)
    requires Refunds.Inv(w) && StepTx(w, s).Some? && Owed(w, o) && !Owed(Next(w, s), o)
    ensures Credits(w.db, StepTx(w, s).value, o)
  {
    StillOwed(w, s, o);
    assert CallKnows(w, w.calls[s.id]) && CallOk(w.db, w.calls[s.id]);
  }

  lemma CommitAccounts(w: World, s: Step, o: nat, dropped: bool, accepted: bool)
    requires Refunds.Inv(w) && StepTx(w, s).Some? && Account(w, o, dropped, accepted)
    ensures Account(Next(w, s), o, dropped, accepted)
  {
    var next := Next(w, s);
    CommitEffects(w, s);
    if o < |w.db.orders| {
      assert next.db.orders[o] == RowAfter(w.db, StepTx(w, s).value, o);
      if w.db.orders[o].status == Refunded { StaysRefunded(w, s, o); }
      if Credits(w.db, StepTx(w, s).value, o) { WhoCredits(w, s, o); }
      if Owed(w, o) && !Owed(next, o) { PaidWhenDone(w, s, o); }
      if Owed(next, o) && !Owed(w, o) { NewlyOwed(w, s, o); }
      if next.db.orders[o].status == Refunded && w.db.orders[o].status != Refunded { NewlyRefundedIsOwed(w, s, o); }
    }
  }

  lemma AskAccounts(w: World, s: Step, o: nat, dropped: bool, accepted: bool)
    requires Refunds.Inv(w) && s.AskProvider? && s.id in w.calls && Asking(w.calls[s.id])
      && Account(w, o, dropped, accepted)
    ensures Account(Next(w, s), o, dropped, accepted || AcceptsCancel(w, s, o))
  {
    var next := Next(w, s);
    AskMoney(w, s, o);
    if Owed(w, o) { StillOwed(w, s, o); }
    if Owed(next, o) && !Owed(w, o) { NewlyOwed(w, s, o); }
    if Refunding(w.calls[s.id], o) && s.id !in next.calls { NoLongerOwed(w, s, o); }
  }

  lemma QuietAccounts(w: World, s: Step, o: nat, dropped: bool, accepted: bool)
    requires Refunds.Inv(w) && IsQuiet(w, s) && Account(w, o, dropped, accepted)
    ensures Account(Next(w, s), o, dropped || DropsRefund(w, s, o), accepted)
  {
    var next := Next(w, s);
    QuietFrame(w, s);
    if Owed(w, o) { StillOwed(w, s, o); }
    if Owed(next, o) && !Owed(w, o) { NewlyOwed(w, s, o); }
    if DropsRefund(w, s, o) { NoLongerOwed(w, s, o); }
  }

  lemma {:induction false} RunAccounts(w: World, steps: seq<Step>, o: nat)
    requires Init(w)
    ensures Refunds.Inv(Run(w, steps)) && Account(Run(w, steps), o, Dropped(w, steps, o), CancelAccepted(w, steps, o))
  {
    Refunds.RunKeeps(w, steps);
    if |steps| > 0 {
      var n := |steps| - 1;
      var before, s := Run(w, steps[..n]), steps[n];
      RunAccounts(w, steps[..n], o);
      if StepTx(before, s).Some? {
        CommitAccounts(before, s, o, Dropped(w, steps[..n], o), CancelAccepted(w, steps[..n], o));
      } else if s.AskProvider? && s.id in before.calls && Asking(before.calls[s.id]) {
        AskAccounts(before, s, o, Dropped(w, steps[..n], o), CancelAccepted(w, steps[..n], o));
      } else {
        QuietAccounts(before, s, o, Dropped(w, steps[..n], o), CancelAccepted(w, steps[..n], o));
      }
    }
  }

  /** In every run, once no refund of a REFUNDED order is under way, its buyer has been paid back exactly when no crash
      dropped the refund or an auto-cancel had its own accepted. */
  lemma PaidBackIff(w: World, steps: seq<Step>, o: nat)
    requires Init(w) && o < |Run(w, steps).db.orders| && Run(w, steps).db.orders[o].status == Refunded
    requires !Owed(Run(w, steps), o)
    ensures ByWallet(Run(w, steps).db, o) || BySource(Run(w, steps), o) <==>
      !Dropped(w, steps, o) || CancelAccepted(w, steps, o)
  {
    RunAccounts(w, steps, o);
  }

  /** So unless a crash drops the order's own refund, a paid order that is over without completing has been paid back
      to its buyer, once its dispute refund (if any) is no longer under way. */
  lemma MoneyComesBack(w: World, steps: seq<Step>, o: nat)
    requires Init(w) && o < |Run(w, steps).db.orders| && !Dropped(w, steps, o) && !Owed(Run(w, steps), o)
    ensures var v := Run(w, steps); var row := v.db.orders[o];
      row.status == Refunded || (row.status == Cancelled && row.paidAt.Some?) ==> ByWallet(v.db, o) || BySource(v, o)
  {
    RunAccounts(w, steps, o);
    assert OrderOk(Run(w, steps), o);
  }

  // ----- And if one is lost it stays lost -----

  /** Refunded, with no auto-cancel of the order in flight. */
  ghost predicate Closed(w: World, o: nat) {
    && o < |w.db.orders| && w.db.orders[o].status == Refunded
    && forall id <- w.calls :: !Cancelling(w.calls[id], o)
  }

  /** Nothing claims a REFUNDED order. */
  lemma StaysRefunded(w: World, s: Step, o: nat)
    requires o < |w.db.orders| && w.db.orders[o].status == Refunded && L.RowInv(w.db.orders[o])
    ensures o < |Next(w, s).db.orders| && Next(w, s).db.orders[o].status == Refunded
  {
    NextExtends(w, s);
    if StepTx(w, s).Some? {
      OrdersAfter(w.db, StepTx(w, s).value);
      assert Next(w, s).db.orders[o] == RowAfter(w.db, StepTx(w, s).value, o);
    }
  }

  lemma NotCancelling(w: World, s: Step, o: nat, id: nat)
    requires Closed(w, o) && id in Next(w, s).calls
    ensures !Cancelling(Next(w, s).calls[id], o)
  {
    if id !in w.calls {
      NewCall(w, s, id);
    } else {
      assert !Cancelling(w.calls[id], o);
    }
  }

  lemma StaysClosed(w: World, s: Step, o: nat)
    requires L.Inv(w.db) && Closed(w, o)
    ensures Closed(Next(w, s), o) && !AcceptsCancel(w, s, o)
  {
    StaysRefunded(w, s, o);
    forall id | id in Next(w, s).calls
      ensures !Cancelling(Next(w, s).calls[id], o)
    {
      NotCancelling(w, s, o, id);
    }
  }

  lemma HistoryGrows(w: World, steps: seq<Step>, s: Step, o: nat)
    ensures CancelAccepted(w, steps + [s], o) == (CancelAccepted(w, steps, o) || AcceptsCancel(Run(w, steps), s, o))
    ensures Dropped(w, steps + [s], o) == (Dropped(w, steps, o) || DropsRefund(Run(w, steps), s, o))
  {
    assert (steps + [s])[..|steps|] == steps;
  }

  /** The order is closed in the end, with no refund accepted since, and none dropped that is not still. */
  ghost predicate NothingNew(w: World, steps: seq<Step>, all: seq<Step>, o: nat) {
    && Closed(Run(w, all), o)
    && CancelAccepted(w, all, o) == CancelAccepted(w, steps, o)
    && (Dropped(w, steps, o) ==> Dropped(w, all, o))
  }

  lemma ClosedOnce(w: World, steps: seq<Step>, s: Step, o: nat)
    requires Init(w) && Closed(Run(w, steps), o)
    ensures NothingNew(w, steps, steps + [s], o)
  {
    Runs.RunKeeps(w, steps);
    StaysClosed(Run(w, steps), s, o);
    HistoryGrows(w, steps, s, o);
    OneMore(w, steps, s);
  }

  lemma NothingNewOnce(w: World, steps: seq<Step>, front: seq<Step>, s: Step, all: seq<Step>, o: nat)
    requires Init(w) && NothingNew(w, steps, front, o) && all == front + [s]
    ensures NothingNew(w, steps, all, o)
  {
    ClosedOnce(w, front, s, o);
  }

  lemma {:induction false} NothingMoreAccepted(w: World, steps: seq<Step>, later: seq<Step>, o: nat)
    requires Init(w) && Closed(Run(w, steps), o)
    ensures NothingNew(w, steps, steps + later, o)
    decreases |later|
  {
    if |later| == 0 {
      assert steps + later == steps;
    } else {
      var n := |later| - 1;
      NothingMoreAccepted(w, steps, later[..n], o);
      assert steps + later == steps + later[..n] + [later[n]];
      NothingNewOnce(w, steps, steps + later[..n], later[n], steps + later, o);
    }
  }

  /** Refunded in name only, with no call left that would pay. */
  ghost predicate Forgotten(w: World, o: nat) {
    Closed(w, o) && !Owed(w, o) && !ByWallet(w.db, o) && !BySource(w, o)
  }

  /** An order forgotten at any moment had its refund dropped by a crash, and stays unpaid whatever happens. */
  lemma ForgottenForGood(w: World, steps: seq<Step>, later: seq<Step>, o: nat)
    requires Init(w) && Forgotten(Run(w, steps), o)
    ensures Dropped(w, steps, o) && Forgotten(Run(w, steps + later), o)
  {
    PaidBackIff(w, steps, o);
    NothingMoreAccepted(w, steps, later, o);
    RunAccounts(w, steps + later, o);
  }
}
