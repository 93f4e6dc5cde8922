/** One whole pass of an hourly job on its own: every order it selected, in turn, with nothing else in between. */
module Passes {
  import opened Basics
  import opened Types
  import opened Transactions
  import opened Reads
  import opened Due
  import L = Lifecycle
  import Escrow
  import Sales

  /** What a job does to one selected order. `refunded` are the orders whose refund the provider accepts. */
  function ActsOn(job: Job, o: nat, row: Order, now: int, hold: nat, refunded: set<nat>): seq<Act> {
    if !IsDue(job, row, now) then []
    else match job
      case CancelUnshipped => [AutoCancel(row, row.payment.Some? && o in refunded)]
      case EscalateShipments => [EscalateStuck]
      case ConfirmDelivered => if hold == 0 then [EnterHold, FinalizeEscrow] else [EnterHold]
      case ReleaseHeld => [FinalizeEscrow]
  }

  function PerformAll(db: Db, o: nat, acts: seq<Act>): Db
    decreases |acts|
  {
    if |acts| == 0 then db else PerformAll(Perform(db, o, acts[0]), o, acts[1..])
  }

  /** The pass over the first n orders of the selection. */
  function Pass(db: Db, job: Job, selected: seq<Order>, n: nat, refunded: set<nat>): Db
    requires n <= |selected|
  {
    if n == 0 then db else
      var before := Pass(db, job, selected, n - 1, refunded);
      PerformAll(before, n - 1, ActsOn(job, n - 1, selected[n - 1], db.now, db.hold, refunded))
  }

  /** The row after a job's acts on it. */
  function Claimed(row: Order, now: int, hold: nat, acts: seq<Act>): Order
    decreases |acts|
  {
    if |acts| == 0 then row
    else Claimed(match Claim(row, now, hold, acts[0]) case None => row case Some(next) => next, now, hold, acts[1..])
  }

  lemma OneAct(db: Db, o: nat, a: Act)
    ensures PerformAll(db, o, []) == db && PerformAll(db, o, [a]) == Perform(db, o, a)
  {
    assert [a][1..] == [];
  }

  lemma OneByOne(db: Db, o: nat, row: Order, a: Act, b: Act)
    ensures PerformAll(db, o, []) == db && PerformAll(db, o, [a]) == Perform(db, o, a)
    ensures PerformAll(db, o, [a, b]) == Perform(Perform(db, o, a), o, b)
    ensures Claimed(row, db.now, db.hold, [a]) ==
      match Claim(row, db.now, db.hold, a) case None => row case Some(next) => next
    ensures Claimed(row, db.now, db.hold, [a, b]) == Claimed(Claimed(row, db.now, db.hold, [a]), db.now, db.hold, [b])
  {
    assert [a][1..] == [] && [a, b][1..] == [b] && [b][1..] == [];
    var two := Perform(Perform(db, o, a), o, b);
    assert PerformAll(Perform(db, o, a), o, [b]) == PerformAll(two, o, []) == two;
  }

  lemma {:induction false} PerformAllRows(db: Db, o: nat, acts: seq<Act>)
    requires o < |db.orders|
    ensures var next := PerformAll(db, o, acts);
      next.now == db.now && next.hold == db.hold
        && next.orders == db.orders[o := Claimed(db.orders[o], db.now, db.hold, acts)]
    decreases |acts|
  {
    if |acts| > 0 {
      L.OnlyOneRow(db, o, acts[0]);
      PerformAllRows(Perform(db, o, acts[0]), o, acts[1..]);
    }
  }

  lemma {:induction false} PassRows(db: Db, job: Job, n: nat, refunded: set<nat>)
    requires n <= |db.orders|
    ensures var next := Pass(db, job, db.orders, n, refunded);
      && next.now == db.now && next.hold == db.hold && |next.orders| == |db.orders|
      && (forall o :: n <= o < |db.orders| ==> next.orders[o] == db.orders[o])
      && (forall o :: 0 <= o < n ==>
            next.orders[o] == Claimed(db.orders[o], db.now, db.hold,
              ActsOn(job, o, db.orders[o], db.now, db.hold, refunded)))
  {
    if n > 0 {
      PassRows(db, job, n - 1, refunded);
      var before := Pass(db, job, db.orders, n - 1, refunded);
      PerformAllRows(before, n - 1, ActsOn(job, n - 1, db.orders[n - 1], db.now, db.hold, refunded));
    }
  }

  lemma ClaimedIsNotDue(db: Db, job: Job, o: nat, refunded: set<nat>)
    requires o < |db.orders|
    ensures var row := db.orders[o];
      var next := Claimed(row, db.now, db.hold, ActsOn(job, o, row, db.now, db.hold, refunded));
      if IsDue(job, row, db.now) then !IsDue(job, next, db.now) && next.status != row.status else next == row
  {
    var row := db.orders[o];
    match job {
      case CancelUnshipped => OneByOne(db, o, row, AutoCancel(row, row.payment.Some? && o in refunded), FinalizeEscrow);
      case EscalateShipments => OneByOne(db, o, row, EscalateStuck, FinalizeEscrow);
      case ConfirmDelivered => ConfirmedIsNotDue(db, o, refunded);
      case ReleaseHeld => OneByOne(db, o, row, FinalizeEscrow, FinalizeEscrow);
    }
  }

  lemma ConfirmedIsNotDue(db: Db, o: nat, refunded: set<nat>)
    requires o < |db.orders|
    ensures var row := db.orders[o];
      var next := Claimed(row, db.now, db.hold, ActsOn(ConfirmDelivered, o, row, db.now, db.hold, refunded));
      if ConfirmDue(row, db.now) then next.status == Held || next.status == Completed else next == row
  {
    var row := db.orders[o];
    OneByOne(db, o, row, EnterHold, FinalizeEscrow);
    OneByOne(db, o, Claimed(row, db.now, db.hold, [EnterHold]), FinalizeEscrow, FinalizeEscrow);
  }

  /** No order is left due, and no order that was not due has changed. */
  ghost predicate LeavesNoneDue(db: Db, job: Job, next: Db) {
    && |next.orders| == |db.orders|
    && forall o :: 0 <= o < |db.orders| ==>
         if IsDue(job, db.orders[o], db.now)
         then !IsDue(job, next.orders[o], db.now) && next.orders[o].status != db.orders[o].status
         else next.orders[o] == db.orders[o]
  }

  lemma PassLeavesNoneDue(db: Db, job: Job, refunded: set<nat>)
    ensures LeavesNoneDue(db, job, Pass(db, job, db.orders, |db.orders|, refunded))
  {
    PassRows(db, job, |db.orders|, refunded);
    forall o | 0 <= o < |db.orders|
      ensures var next := Pass(db, job, db.orders, |db.orders|, refunded);
        if IsDue(job, db.orders[o], db.now)
        then !IsDue(job, next.orders[o], db.now) && next.orders[o].status != db.orders[o].status
        else next.orders[o] == db.orders[o]
    {
      ClaimedIsNotDue(db, job, o, refunded);
    }
  }

  // ----- And it is safe -----

  /** The facts that hold of the database in every run. */
  ghost predicate Safe(db: Db) {
    L.Inv(db) && Escrow.Inv(db) && Sales.Inv(db)
  }

  /** Acts that need no earlier read but this one. */
  predicate OnlyReads(acts: seq<Act>, row: Order) {
    forall a <- acts :: (a.AutoCancel? && a.seen == row) || a.EscalateStuck? || a.EnterHold? || a.FinalizeEscrow?
  }

  lemma JobReads(job: Job, o: nat, row: Order, now: int, hold: nat, refunded: set<nat>)
    ensures OnlyReads(ActsOn(job, o, row, now, hold, refunded), row)
  {
  }

  lemma {:induction false} PerformAllSafe(db: Db, o: nat, row: Order, acts: seq<Act>)
    requires Safe(db) && Agrees(db, o, row) && OnlyReads(acts, row)
    ensures Safe(PerformAll(db, o, acts)) && Extends(db, PerformAll(db, o, acts))
    decreases |acts|
  {
    if |acts| > 0 {
      assert acts[0] in acts;
      var tx := OrderTx(o, acts[0]);
      L.Keeps(db, tx);
      Escrow.Keeps(db, tx);
      forall l: nat
        ensures Sales.OneSale(Perform(db, o, acts[0]), l)
      {
        Sales.KeepsIff(db, tx, l);
      }
      ExecExtends(db, tx);
      PerformAllSafe(Perform(db, o, acts[0]), o, row, acts[1..]);
    }
  }

  lemma ActsSafe(start: Db, before: Db, job: Job, o: nat, refunded: set<nat>)
    requires Safe(before) && Extends(start, before) && o < |start.orders|
    ensures var row := start.orders[o];
      var next := PerformAll(before, o, ActsOn(job, o, row, start.now, start.hold, refunded));
      Safe(next) && Extends(start, next)
  {
    JobReads(job, o, start.orders[o], start.now, start.hold, refunded);
    PerformAllSafe(before, o, start.orders[o], ActsOn(job, o, start.orders[o], start.now, start.hold, refunded));
  }

  /** What a job does to any one order keeps the fact. */
  ghost predicate KeptByActs(start: Db, job: Job, refunded: set<nat>, good: Db -> bool) {
    forall before: Db, o: nat :: good(before) && o < |start.orders| ==>
      good(PerformAll(before, o, ActsOn(job, o, start.orders[o], start.now, start.hold, refunded)))
  }

  lemma {:induction false} KeptByPass(db: Db, job: Job, n: nat, refunded: set<nat>, good: Db -> bool)
    requires good(db) && KeptByActs(db, job, refunded, good) && n <= |db.orders|
    ensures good(Pass(db, job, db.orders, n, refunded))
  {
    if n > 0 {
      KeptByPass(db, job, n - 1, refunded, good);
    }
  }

  /** So a job's pass keeps every seller's pending balance equal to the orders in escrow, sells no listing twice and
      leaves every order's dispute and snapshot in step with its status. */
  lemma PassIsSafe(db: Db, job: Job, n: nat, refunded: set<nat>)
    requires Safe(db) && n <= |db.orders|
    ensures Safe(Pass(db, job, db.orders, n, refunded))
  {
    ghost var good := (d: Db) => Safe(d) && Extends(db, d);
    forall before: Db, o: nat | good(before) && o < |db.orders|
      ensures good(PerformAll(before, o, ActsOn(job, o, db.orders[o], db.now, db.hold, refunded)))
    {
      ActsSafe(db, before, job, o, refunded);
    }
    KeptByPass(db, job, n, refunded, good);
  }
}
