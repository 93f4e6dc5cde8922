/** Runs in which no administrator re-holds a completed order: the books, the history of each order, and the
    settlement of each dispute. */
module SettledRuns {
  import opened Basics
  import opened Types
  import opened Transactions
  import opened Reads
  import opened Runs
  import L = Lifecycle
  import Books = Ledger

  ghost predicate Inv(w: World) {
    Runs.Inv(w) && L.StrictInv(w.db) && Books.Inv(w.db)
  }

  lemma NextKeeps(w: World, s: Step)
    requires Inv(w) && !IsRehold(s)
    ensures Inv(Next(w, s))
  {
    Runs.NextKeeps(w, s);
    NextExtends(w, s);
    match StepTx(w, s) {
      case Some(tx) =>
        StepIsGrounded(w, s);
        L.StrictKeeps(w.db, tx);
        Books.Keeps(w.db, tx);
      case None =>
        Books.SameBooksKeep(w.db, Next(w, s).db);
    }
  }

  lemma {:induction false} RunKeeps(w: World, steps: seq<Step>)
    requires Init(w) && Settled(steps)
    ensures Inv(Run(w, steps))
  {
    if |steps| == 0 {
      forall u: nat ensures Books.WalletOk(w.db, u) {}
      forall o: nat, u: nat ensures Books.TallyOk(w.db, o, u) {}
    } else {
      var n := |steps| - 1;
      RunKeeps(w, steps[..n]);
      NextKeeps(Run(w, steps[..n]), steps[n]);
    }
  }

  /** In every such run each wallet can be recomputed from its ledger rows alone, and no balance is negative. */
  lemma WalletsReplay(w: World, steps: seq<Step>, u: nat)
    requires Init(w) && Settled(steps)
    ensures var db := Run(w, steps).db;
      && Books.Replay(db.ledger, u) == Wallet(BalanceOf(db.wallets, u), PendingOf(db.wallets, u))
      && BalanceOf(db.wallets, u) >= 0 && PendingOf(db.wallets, u) >= 0
  {
    RunKeeps(w, steps);
    PendingIsEscrow(w, steps, u);
    assert Books.WalletOk(Run(w, steps).db, u);
  }

  /** In every such run an order's escrow is opened at most once and settled at most once, and settled to the
      seller's balance exactly when the order is Completed. */
  lemma EscrowSettledOnce(w: World, steps: seq<Step>, o: nat)
    requires Init(w) && Settled(steps) && o < |Run(w, steps).db.orders|
    ensures var db := Run(w, steps).db; var row := db.orders[o]; var t := Books.TallyOf(db.ledger, o, row.seller);
      && t.releases <= t.holds <= 1
      && (InEscrow(row.status) <==> t.holds == 1 && t.releases == 0)
      && (t.releases == 1 ==> t.released == if row.status == Completed then row.item else 0 - row.item)
  {
    RunKeeps(w, steps);
    Books.EscrowPaidOnce(Run(w, steps).db, o);
  }

  // ----- Snapshots -----

  /** The step cancels o because its buyer's account is deleted. */
  predicate CancelsOnDeletion(w: World, s: Step, o: nat) {
    StepTx(w, s).Some? && TxCancelsOnDeletion(w.db, StepTx(w, s).value, o)
  }

  predicate TxCancelsOnDeletion(db: Db, tx: Tx, o: nat) {
    tx.OrderTx? && tx.o == o && tx.act.CancelOnDeletion? && Won(db, tx)
  }

  predicate LeftByBuyer(w: World, steps: seq<Step>, o: nat) {
    |steps| > 0 &&
      var n := |steps| - 1;
      LeftByBuyer(w, steps[..n], o) || CancelsOnDeletion(Run(w, steps[..n]), steps[n], o)
  }

  predicate KeptAfterwards(db: Db, o: nat) {
    o < |db.orders| && Terminal(db.orders[o].status) && db.orders[o].snapshot
  }

  lemma ClaimKeepsSnapshot(row: Order, now: int, hold: nat, act: Act)
    requires L.RowInv(row) && Claim(row, now, hold, act).Some?
    ensures var next := Claim(row, now, hold, act).value;
      Terminal(next.status) && next.snapshot <==> act.CancelOnDeletion? || (Terminal(row.status) && row.snapshot)
  {
  }

  lemma TxKeepsSnapshot(db: Db, tx: Tx, o: nat)
    requires L.Inv(db)
    ensures KeptAfterwards(Exec(db, tx), o) <==> TxCancelsOnDeletion(db, tx, o) || KeptAfterwards(db, o)
  {
    match tx {
      case OrderTx(p, act) =>
        if p < |db.orders| {
          L.OnlyOneRow(db, p, act);
          if Claim(db.orders[p], db.now, db.hold, act).Some? {
            ClaimKeepsSnapshot(db.orders[p], db.now, db.hold, act);
          }
        }
      case _ =>
    }
  }

  /** In every run, re-holds included, an order that is over still has its listing snapshot exactly when the deletion of
      its buyer's account cancelled it. */
  lemma {:induction false} KeptAfterwardsIff(w: World, steps: seq<Step>, o: nat)
    requires Init(w)
    ensures KeptAfterwards(Run(w, steps).db, o) <==> LeftByBuyer(w, steps, o)
  {
    if |steps| > 0 {
      var n := |steps| - 1;
      KeptAfterwardsIff(w, steps[..n], o);
      Runs.RunKeeps(w, steps[..n]);
      NextExtends(Run(w, steps[..n]), steps[n]);
      if StepTx(Run(w, steps[..n]), steps[n]).Some? {
        TxKeepsSnapshot(Run(w, steps[..n]).db, StepTx(Run(w, steps[..n]), steps[n]).value, o);
      }
    }
  }

  /** In every run without re-holds an order has its listing snapshot exactly while it is not over, or when the deletion
      of its buyer's account cancelled it. */
  lemma SnapshotIff(w: World, steps: seq<Step>, o: nat)
    requires Init(w) && Settled(steps) && o < |Run(w, steps).db.orders|
    ensures var row := Run(w, steps).db.orders[o];
      row.snapshot <==> !Terminal(row.status) || LeftByBuyer(w, steps, o)
  {
    RunKeeps(w, steps);
    KeptAfterwardsIff(w, steps, o);
    assert L.StrictRowInv(Run(w, steps).db.orders[o], Run(w, steps).db.now, Run(w, steps).db.hold);
  }

  // ----- Statuses and dates -----

  /** What the same order looks like later: its status the same or higher in rank, its dispute deadline unmoved
      once set; a Held one is released, or still Held with its dates unmoved. */
  predicate Follows(a: Order, b: Order) {
    && (a.status == b.status || L.Rank(a.status) < L.Rank(b.status))
    && (a.deliveredAt.Some? ==> b.deliveredAt == a.deliveredAt && b.disputeDeadline == a.disputeDeadline)
    && (a.status == Held ==>
          b.status == Completed
            || (b.status == Held && b.escrowReleasesAt == a.escrowReleasesAt && b.confirmedAt == a.confirmedAt))
  }

  lemma StepFollows(w: World, s: Step, o: nat)
    requires Inv(w) && !IsRehold(s) && o < |w.db.orders|
    ensures o < |Next(w, s).db.orders| && Follows(w.db.orders[o], Next(w, s).db.orders[o])
  {
    NextExtends(w, s);
    match StepTx(w, s) {
      case Some(tx) =>
        StepIsGrounded(w, s);
        L.StatusOnlyClimbs(w.db, tx, o);
        L.DeadlinesStay(w.db, tx, o);
      case None =>
    }
  }

  lemma FollowsOn(a: Order, b: Order, c: Order)
    requires Follows(a, b) && Follows(b, c)
    ensures Follows(a, c)
  {
  }

  lemma {:induction false} FollowsAll(v: World, steps: seq<Step>, o: nat)
    requires Inv(v) && Settled(steps) && o < |v.db.orders|
    ensures Inv(Run(v, steps)) && o < |Run(v, steps).db.orders|
    ensures Follows(v.db.orders[o], Run(v, steps).db.orders[o])
  {
    if |steps| > 0 {
      var n := |steps| - 1;
      var before := Run(v, steps[..n]);
      FollowsAll(v, steps[..n], o);
      StepFollows(before, steps[n], o);
      NextKeeps(before, steps[n]);
      FollowsOn(v.db.orders[o], before.db.orders[o], Next(before, steps[n]).db.orders[o]);
    }
  }

  lemma {:induction false} RunOn(w: World, earlier: seq<Step>, later: seq<Step>)
    ensures Run(w, earlier + later) == Run(Run(w, earlier), later)
    decreases |later|
  {
    if |later| == 0 {
      assert earlier + later == earlier;
    } else {
      var front, last := later[..|later| - 1], later[|later| - 1];
      assert later == front + [last] && earlier + later == (earlier + front) + [last];
      OneMore(w, earlier + front, last);
      OneMore(Run(w, earlier), front, last);
      RunOn(w, earlier, front);
    }
  }

  /** Between any two moments of such a run an order's status stays or climbs, so no status is ever revisited, and
      its deadlines stay where they were set. */
  lemma NothingRevisited(w: World, earlier: seq<Step>, later: seq<Step>, o: nat)
    requires Init(w) && Settled(earlier + later) && o < |Run(w, earlier).db.orders|
    ensures o < |Run(w, earlier + later).db.orders|
    ensures Follows(Run(w, earlier).db.orders[o], Run(w, earlier + later).db.orders[o])
  {
    assert Settled(earlier) by {
      assert forall i :: 0 <= i < |earlier| ==> earlier[i] == (earlier + later)[i];
    }
    assert Settled(later) by {
      assert forall i :: 0 <= i < |later| ==> later[i] == (earlier + later)[|earlier| + i];
    }
    RunKeeps(w, earlier);
    RunOn(w, earlier, later);
    FollowsAll(Run(w, earlier), later, o);
  }

  // ----- Who resolved a dispute: every run, re-holds included -----

  /** The step commits a resolution of o's dispute and wins its claim. */
  predicate Resolves(w: World, s: Step, o: nat) {
    StepTx(w, s).Some? && TxResolves(w.db, StepTx(w, s).value, o)
  }

  predicate TxResolves(db: Db, tx: Tx, o: nat) {
    tx.OrderTx? && tx.o == o && tx.act.Resolve? && Won(db, tx)
  }

  function Resolutions(w: World, steps: seq<Step>, o: nat): nat {
    if |steps| == 0 then 0 else
      var n := |steps| - 1;
      Resolutions(w, steps[..n], o) + if Resolves(Run(w, steps[..n]), steps[n], o) then 1 else 0
  }

  lemma ClaimResolves(row: Order, now: int, hold: nat, act: Act)
    requires L.RowInv(row) && Claim(row, now, hold, act).Some?
    ensures var next := Claim(row, now, hold, act).value;
      if act.Resolve? then row.dispute == Some(Open) && next.dispute == Some(Resolved)
      else next.dispute == Some(Resolved) <==> row.dispute == Some(Resolved)
  {
  }

  predicate IsResolved(db: Db, o: nat) {
    o < |db.orders| && db.orders[o].dispute == Some(Resolved)
  }

  lemma TxResolvesOnce(db: Db, tx: Tx, o: nat)
    requires L.Inv(db)
    ensures if TxResolves(db, tx, o) then !IsResolved(db, o) && IsResolved(Exec(db, tx), o)
            else IsResolved(Exec(db, tx), o) == IsResolved(db, o)
  {
    match tx {
      case OrderTx(p, act) =>
        if p < |db.orders| {
          L.OnlyOneRow(db, p, act);
          if Claim(db.orders[p], db.now, db.hold, act).Some? {
            ClaimResolves(db.orders[p], db.now, db.hold, act);
          }
        }
      case _ =>
    }
  }

  lemma StepResolves(w: World, s: Step, o: nat)
    requires Runs.Inv(w)
    ensures if Resolves(w, s, o) then !IsResolved(w.db, o) && IsResolved(Next(w, s).db, o)
            else IsResolved(Next(w, s).db, o) == IsResolved(w.db, o)
  {
    NextExtends(w, s);
    if StepTx(w, s).Some? {
      TxResolvesOnce(w.db, StepTx(w, s).value, o);
    }
  }

  /** Every dispute ever resolved was resolved by exactly one claimant, and no other dispute by any. */
  lemma {:induction false} OneResolution(w: World, steps: seq<Step>, o: nat)
    requires Init(w)
    ensures Resolutions(w, steps, o) == if IsResolved(Run(w, steps).db, o) then 1 else 0
  {
    if |steps| > 0 {
      var n := |steps| - 1;
      OneResolution(w, steps[..n], o);
      Runs.RunKeeps(w, steps[..n]);
      StepResolves(Run(w, steps[..n]), steps[n], o);
    }
  }
}
