/** Auto-cancel asks for the refund before it claims the order. Exactly when the buyer ends up with the money while
    the order goes on. */
module Outrun {
  import opened Basics
  import opened Types
  import opened Transactions
  import opened Reads
  import opened Runs
  import opened Refunds
  import L = Lifecycle

  predicate GoesOn(row: Order) {
    row.status != Cancelled && row.status != Refunded
  }

  /** An auto-cancel of o whose refund the provider has accepted, yet to claim the order. */
  predicate Accepted(call: Call, o: nat) {
    call.Committing? && call.tx.OrderTx? && call.tx.o == o && call.tx.act.AutoCancel? && call.tx.act.toSource
  }

  ghost predicate AcceptedInFlight(w: World, o: nat) {
    exists id <- w.calls :: Accepted(w.calls[id], o)
  }

  predicate CommitsAccepted(w: World, s: Step, o: nat) {
    s.Commit? && s.id in w.calls && Accepted(w.calls[s.id], o)
  }

  /** An accepted auto-cancel finds that the order has left PAID and is not over: the order has outrun it. */
  predicate Outruns(w: World, s: Step, o: nat) {
    CommitsAccepted(w, s, o) && o < |w.db.orders| && GoesOn(w.db.orders[o]) && w.db.orders[o].status != Paid
  }

  /** An accepted auto-cancel is lost while the order goes on. */
  predicate Loses(w: World, s: Step, o: nat) {
    s.Crash? && s.id in w.calls && Accepted(w.calls[s.id], o) && o < |w.db.orders| && GoesOn(w.db.orders[o])
  }

  /** A dispute is settled for the buyer, or an auto-cancel wins its claim. */
  predicate CallsOff(w: World, s: Step, o: nat) {
    && StepTx(w, s).Some? && Won(w.db, StepTx(w, s).value) && StepTx(w, s).value.o == o
    && var act := StepTx(w, s).value.act; act.AutoCancel? || (act.Resolve? && act.refund)
  }

  /** The order has outrun an accepted auto-cancel, or lost one, and has not been called off since. */
  predicate Stranded(w: World, steps: seq<Step>, o: nat) {
    |steps| > 0 &&
      var n := |steps| - 1;
      var before := Run(w, steps[..n]);
      (Stranded(w, steps[..n], o) || Outruns(before, steps[n], o) || Loses(before, steps[n], o))
      && !CallsOff(before, steps[n], o)
  }

  ghost predicate Account(w: World, o: nat, stranded: bool) {
    if o >= |w.db.orders| then !stranded
    else
      && (stranded ==> BySource(w, o) && GoesOn(w.db.orders[o]))
      && (BySource(w, o) && GoesOn(w.db.orders[o]) ==> stranded || AcceptedInFlight(w, o))
  }

  /** What a won claim does to an order that is past PENDING. */
  lemma ClaimGoesOn(row: Order, now: int, hold: nat, act: Act)
    requires L.RowInv(row) && row.status != Pending && Claim(row, now, hold, act).Some?
    ensures var next := Claim(row, now, hold, act).value;
      GoesOn(next) <==> GoesOn(row) && !(act.AutoCancel? || (act.Resolve? && act.refund))
  {
  }

  lemma StillInFlight(w: World, s: Step, o: nat)
    requires AcceptedInFlight(w, o)
    ensures AcceptedInFlight(Next(w, s), o)
         || ((s.Commit? || s.Crash?) && s.id in w.calls && Accepted(w.calls[s.id], o))
  {
    var id :| id in w.calls && Accepted(w.calls[id], o);
    assert id in Next(w, s).calls ==> Next(w, s).calls[id] == w.calls[id] || (s.Commit? && s.id == id);
  }

  /** A commit of an accepted auto-cancel: the buyer has the money, and the order goes on exactly when it had left
      PAID and was not over. */
  lemma CommitGoesOn(w: World, s: Step, o: nat)
    requires Refunds.Inv(w) && StepTx(w, s).Some? && o < |w.db.orders|
    ensures o < |Next(w, s).db.orders| && (BySource(Next(w, s), o) <==> BySource(w, o))
    ensures BySource(w, o) ==> (GoesOn(Next(w, s).db.orders[o]) <==> GoesOn(w.db.orders[o]) && !CallsOff(w, s, o))
    ensures CommitsAccepted(w, s, o) ==>
      BySource(w, o) && (CallsOff(w, s, o) <==> w.db.orders[o].status == Paid)
  {
    var tx := StepTx(w, s).value;
    NextExtends(w, s);
    StepIsGrounded(w, s);
    CommitterKnows(w, s);
    TxEffects(w, Next(w, s), tx);
    assert Next(w, s).db.orders[o] == RowAfter(w.db, tx, o);
    assert OrderOk(w, o) && L.RowInv(w.db.orders[o]);
    if Won(w.db, tx) && tx.o == o && BySource(w, o) {
      ClaimGoesOn(w.db.orders[o], w.db.now, w.db.hold, tx.act);
    }
  }

  lemma CommitAccounts(w: World, s: Step, o: nat, stranded: bool)
    requires Refunds.Inv(w) && StepTx(w, s).Some? && Account(w, o, stranded)
    ensures Account(Next(w, s), o, (stranded || Outruns(w, s, o)) && !CallsOff(w, s, o))
  {
    if o < |w.db.orders| {
      CommitGoesOn(w, s, o);
      if AcceptedInFlight(w, o) { StillInFlight(w, s, o); }
    } else {
      NextExtends(w, s);
      StepIsGrounded(w, s);
      CommitterKnows(w, s);
      TxEffects(w, Next(w, s), StepTx(w, s).value);
    }
  }

  lemma AskAccounts(w: World, s: Step, o: nat, stranded: bool)
    requires Refunds.Inv(w) && s.AskProvider? && s.id in w.calls && Asking(w.calls[s.id]) && Account(w, o, stranded)
    ensures Account(Next(w, s), o, stranded)
  {
    assert CallKnows(w, w.calls[s.id]) && CallOk(w.db, w.calls[s.id]);
    AskEffects(w, s, w.calls[s.id].o, w.calls[s.id].seen);
    if AcceptedInFlight(w, o) { StillInFlight(w, s, o); }
    if w.calls[s.id].CancelAsking? && w.calls[s.id].o == o && Granted(w, w.calls[s.id].seen, s.ok) {
      assert Accepted(Next(w, s).calls[s.id], o);
    }
  }

  lemma QuietAccounts(w: World, s: Step, o: nat, stranded: bool)
    requires Refunds.Inv(w) && IsQuiet(w, s) && Account(w, o, stranded)
    ensures Account(Next(w, s), o, stranded || Loses(w, s, o))
  {
    QuietFrame(w, s);
    if AcceptedInFlight(w, o) { StillInFlight(w, s, o); }
    if Loses(w, s, o) { assert CallKnows(w, w.calls[s.id]); }
  }

  lemma StepAccounts(w: World, s: Step, o: nat, stranded: bool)
    requires Refunds.Inv(w) && Account(w, o, stranded)
    ensures Account(Next(w, s), o, (stranded || Outruns(w, s, o) || Loses(w, s, o)) && !CallsOff(w, s, o))
  {
    if StepTx(w, s).Some? {
      CommitAccounts(w, s, o, stranded);
    } else if s.AskProvider? && s.id in w.calls && Asking(w.calls[s.id]) {
      AskAccounts(w, s, o, stranded);
    } else {
      QuietAccounts(w, s, o, stranded);
    }
  }

  lemma {:induction false} RunAccounts(w: World, steps: seq<Step>, o: nat)
    requires Init(w)
    ensures Refunds.Inv(Run(w, steps)) && Account(Run(w, steps), o, Stranded(w, steps, o))
  {
    Refunds.RunKeeps(w, steps);
    if |steps| > 0 {
      var n := |steps| - 1;
      RunAccounts(w, steps[..n], o);
      StepAccounts(Run(w, steps[..n]), steps[n], o, Stranded(w, steps[..n], o));
    }
  }

  /** In every run, when an auto-cancel whose refund was accepted commits, the buyer has the money back, and the order
      goes on exactly when it had left PAID by then without being over. */
  lemma GoesOnIff(w: World, steps: seq<Step>, s: Step, o: nat)
    requires Init(w) && CommitsAccepted(Run(w, steps), s, o)
    ensures o < |Run(w, steps).db.orders| && o < |Next(Run(w, steps), s).db.orders|
    ensures BySource(Next(Run(w, steps), s), o)
    ensures var before := Run(w, steps).db.orders[o];
      GoesOn(Next(Run(w, steps), s).db.orders[o]) <==> before.status != Paid && GoesOn(before)
  {
    var v := Run(w, steps);
    Refunds.RunKeeps(w, steps);
    assert CallKnows(v, v.calls[s.id]);
    CommitGoesOn(v, s, o);
  }

  /** In every run with no accepted auto-cancel of the order in flight, the provider has paid the buyer back for an
      order that goes on exactly when the order has outrun (or a crash has lost) an accepted auto-cancel and was not
      called off since. */
  lemma RefundedYetGoesOnIff(w: World, steps: seq<Step>, o: nat)
    requires Init(w) && o < |Run(w, steps).db.orders| && !AcceptedInFlight(Run(w, steps), o)
    ensures BySource(Run(w, steps), o) && GoesOn(Run(w, steps).db.orders[o]) <==> Stranded(w, steps, o)
  {
    RunAccounts(w, steps, o);
  }
}
