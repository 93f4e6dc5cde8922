/** The hourly jobs, with everything else going on between a pass's query and its end: no pass leaves due what was due
    when it began, so while passes keep finishing no paid order is left undecided for long. In runs without re-holds. */
module Progress {
  import opened Basics
  import opened Types
  import opened Transactions
  import opened Reads
  import opened Due
  import opened Runs
  import SettledRuns
  import Timing
  import Refunds
  import L = Lifecycle

  // ----- What a pass in flight still owes -----

  /** The status a job moves orders out of. */
  function Waiting(job: Job): OrderStatus {
    match job
    case CancelUnshipped => Paid
    case EscalateShipments => Shipped
    case ConfirmDelivered => Delivered
    case ReleaseHeld => Held
  }

  /** The call goes on to try to move o out of that status. */
  predicate DealsWith(call: Call, job: Job, o: nat) {
    match job
    case CancelUnshipped => Cancelling(call, o)
    case EscalateShipments => call == Committing(OrderTx(o, EscalateStuck))
    case ConfirmDelivered => call == Confirming(o, false)
    case ReleaseHeld => call == Finalizing(o, false)
  }

  /** By `since` the order had been in that status for longer than the job allows. */
  predicate Overdue(job: Job, row: Order, since: int) {
    row.status == Waiting(job) &&
    match job
    case CancelUnshipped => row.paidAt.Some? && row.paidAt.value + SHIPPING_DEADLINE < since
    case EscalateShipments => row.shippedAt.Some? && row.shippedAt.value + SHIPPED_STUCK < since
    case ConfirmDelivered => row.disputeDeadline.Some? && row.disputeDeadline.value < since
    case ReleaseHeld => row.escrowReleasesAt.Some? && row.escrowReleasesAt.value < since
  }

  /** A selected order has left the status for good, or the pass's call on it is still to come. */
  predicate Handled(w: World, first: nat, pass: Pass, o: nat) {
    && o < |w.db.orders| && L.Rank(w.db.orders[o].status) >= L.Rank(Waiting(pass.job))
    && (w.db.orders[o].status == Waiting(pass.job) ==>
          first + o in w.calls && DealsWith(w.calls[first + o], pass.job, o))
  }

  /** Every order overdue at the pass's start was selected, and every selected one is handled. */
  ghost predicate PassOk(w: World, first: nat, pass: Pass) {
    && pass.since <= w.db.now
    && (forall o <- pass.orders :: Handled(w, first, pass, o))
    && (forall o :: 0 <= o < |w.db.orders| && Overdue(pass.job, w.db.orders[o], pass.since) ==> o in pass.orders)
  }

  ghost predicate PassesOk(w: World) {
    forall first <- w.passes :: PassOk(w, first, w.passes[first])
  }

  /** A job's claim wins on every order that is still in its status. */
  lemma DealsWithWins(db: Db, call: Call, job: Job, o: nat)
    requires DealsWith(call, job, o) && !Asking(call) && o < |db.orders| && db.orders[o].status == Waiting(job)
    requires L.StrictRowInv(db.orders[o], db.now, db.hold)
    ensures Won(db, TxOf(call)) && TxOf(call).o == o
    ensures Claim(db.orders[o], db.now, db.hold, TxOf(call).act).value.status != Waiting(job)
  {
  }

  lemma RowNext(w: World, s: Step, o: nat)
    requires SettledRuns.Inv(w) && !IsRehold(s) && o < |w.db.orders|
    ensures o < |Next(w, s).db.orders| && SettledRuns.Follows(w.db.orders[o], Next(w, s).db.orders[o])
    ensures L.StrictRowInv(w.db.orders[o], w.db.now, w.db.hold)
    ensures Next(w, s).db.orders[o] ==
      match StepTx(w, s) case Some(tx) => Refunds.RowAfter(w.db, tx, o) case None => w.db.orders[o]
  {
    SettledRuns.StepFollows(w, s, o);
    NextExtends(w, s);
    if StepTx(w, s).Some? {
      Refunds.OrdersAfter(w.db, StepTx(w, s).value);
    }
  }

  lemma StaysHandled(w: World, s: Step, first: nat, pass: Pass, o: nat)
    requires SettledRuns.Inv(w) && !IsRehold(s) && Handled(w, first, pass, o)
    requires !(s.Crash? && s.id == first + o)
    ensures Handled(Next(w, s), first, pass, o)
  {
    RowNext(w, s, o);
    if Next(w, s).db.orders[o].status == Waiting(pass.job) {
      var call := w.calls[first + o];
      if s.Commit? && s.id == first + o && !Asking(call) {
        DealsWithWins(w.db, call, pass.job, o);
        assert false;
      }
    }
  }

  /** No won claim leaves its order overdue: it enters whatever status it enters too late for that. */
  lemma ClaimNotOverdue(row: Order, now: int, hold: nat, act: Act, job: Job, since: int)
    requires L.StrictRowInv(row, now, hold) && Claim(row, now, hold, act).Some? && !act.ForceHold? && since <= now
    ensures !Overdue(job, Claim(row, now, hold, act).value, since)
  {
  }

  lemma WasOverdue(w: World, s: Step, job: Job, since: int, o: nat)
    requires SettledRuns.Inv(w) && !IsRehold(s) && since <= w.db.now
    requires o < |Next(w, s).db.orders| && Overdue(job, Next(w, s).db.orders[o], since)
    ensures o < |w.db.orders| && Overdue(job, w.db.orders[o], since)
  {
    if o < |w.db.orders| {
      RowNext(w, s, o);
      if StepTx(w, s).Some? && Won(w.db, StepTx(w, s).value) && StepTx(w, s).value.o == o {
        ClaimNotOverdue(w.db.orders[o], w.db.now, w.db.hold, StepTx(w, s).value.act, job, since);
      }
    } else {
      NextExtends(w, s);
      Refunds.OrdersAfter(w.db, StepTx(w, s).value);
    }
  }

  lemma JobCallDeals(job: Job, o: nat, row: Order, now: int)
    requires IsDue(job, row, now)
    ensures DealsWith(JobCall(job, o, row), job, o) && row.status == Waiting(job)
  {
  }

  lemma SelectedIsHandled(w: World, first: nat, job: Job, o: nat)
    requires CanPass(w, first, job) && o in Selected(w.db, job)
    ensures var next := Next(w, BeginPass(first, job)); Handled(next, first, next.passes[first], o)
  {
    JobCallDeals(job, o, w.db.orders[o], w.db.now);
    assert IsOf(first + o, first, Selected(w.db, job));
    assert first + o in PassCalls(w.db, job, first);
    assert Next(w, BeginPass(first, job)).calls[first + o] == JobCall(job, o, w.db.orders[o]);
  }

  lemma OverdueIsDue(row: Order, now: int, hold: nat, job: Job)
    requires L.StrictRowInv(row, now, hold) && Overdue(job, row, now)
    ensures IsDue(job, row, now)
  {
  }

  lemma PassBegins(w: World, first: nat, job: Job)
    requires SettledRuns.Inv(w) && CanPass(w, first, job)
    ensures var next := Next(w, BeginPass(first, job)); PassOk(next, first, next.passes[first])
  {
    var next := Next(w, BeginPass(first, job));
    var pass := next.passes[first];
    forall o | o in pass.orders
      ensures Handled(next, first, pass, o)
    {
      SelectedIsHandled(w, first, job, o);
    }
    forall o | 0 <= o < |w.db.orders| && Overdue(job, w.db.orders[o], w.db.now)
      ensures o in pass.orders
    {
      OverdueIsDue(w.db.orders[o], w.db.now, w.db.hold, job);
    }
  }

  /** Whatever happens in between, a pass loses no order but by losing a call. */
  lemma PassStays(w: World, s: Step, first: nat)
    requires SettledRuns.Inv(w) && !IsRehold(s) && first in w.passes && PassOk(w, first, w.passes[first])
    requires first in Next(w, s).passes && Next(w, s).passes[first] == w.passes[first]
    ensures PassOk(Next(w, s), first, w.passes[first])
  {
    var pass := w.passes[first];
    Timing.ClockRuns(w, s);
    forall o | o in pass.orders
      ensures Handled(Next(w, s), first, pass, o)
    {
      if s.Crash? && s.id == first + o {
        assert IsOf(s.id, first, pass.orders);
        RowNext(w, s, o);
      } else {
        StaysHandled(w, s, first, pass, o);
      }
    }
    forall o | 0 <= o < |Next(w, s).db.orders| && Overdue(pass.job, Next(w, s).db.orders[o], pass.since)
      ensures o in pass.orders
    {
      WasOverdue(w, s, pass.job, pass.since, o);
    }
  }

  lemma PassesStay(w: World, s: Step)
    requires SettledRuns.Inv(w) && !IsRehold(s) && PassesOk(w)
    ensures PassesOk(Next(w, s))
  {
    forall first | first in Next(w, s).passes
      ensures PassOk(Next(w, s), first, Next(w, s).passes[first])
    {
      if first in w.passes {
        PassStays(w, s, first);
      } else {
        PassBegins(w, first, s.job);
      }
    }
  }

  lemma {:induction false} RunPasses(w: World, steps: seq<Step>)
    requires Init(w) && Settled(steps)
    ensures SettledRuns.Inv(Run(w, steps)) && PassesOk(Run(w, steps))
  {
    SettledRuns.RunKeeps(w, steps);
    if |steps| > 0 {
      var n := |steps| - 1;
      RunPasses(w, steps[..n]);
      PassesStay(Run(w, steps[..n]), steps[n]);
    }
  }

  /** A pass with no call left in flight has moved every order it selected. */
  lemma NoneWaiting(w: World, first: nat, o: nat)
    requires PassesOk(w) && first in w.passes && !InFlight(w, first, w.passes[first]) && o in w.passes[first].orders
    ensures o < |w.db.orders| && w.db.orders[o].status != Waiting(w.passes[first].job)
  {
    assert Handled(w, first, w.passes[first], o);
  }

  /** A pass, with any other steps between its query and its end, leaves due none of the orders that were due when it
      began: once it has lost no call and none is in flight, each of them has left its status for good. */
  lemma PassLeavesNoneDue(w: World, before: seq<Step>, first: nat, job: Job, during: seq<Step>, o: nat)
    requires var steps := before + [BeginPass(first, job)] + during;
      && Init(w) && Settled(steps)
      && first in Run(w, steps).passes && !InFlight(Run(w, steps), first, Run(w, steps).passes[first])
    requires var start := Run(w, before);
      && Run(w, before + [BeginPass(first, job)] + during).passes[first] ==
         Pass(job, start.db.now, Selected(start.db, job))
      && o < |start.db.orders| && IsDue(job, start.db.orders[o], start.db.now)
    ensures var end := Run(w, before + [BeginPass(first, job)] + during);
      && o < |end.db.orders| && end.db.orders[o].status != Run(w, before).db.orders[o].status
      && forall now :: !IsDue(job, end.db.orders[o], now)
  {
    RunPasses(w, before + [BeginPass(first, job)] + during);
    NoneWaiting(Run(w, before + [BeginPass(first, job)] + during), first, o);
  }

  // ----- Never long undecided -----

  /** Each hourly job has finished a pass that began at most one period ago. */
  predicate KeepsUp(w: World, period: nat) {
    var since := w.db.now - period;
    w.jobs.cancel >= since && w.jobs.escalate >= since && w.jobs.confirm >= since && w.jobs.release >= since
  }

  predicate OnTime(w: World, steps: seq<Step>, period: nat) {
    KeepsUp(Run(w, steps), period) && (|steps| > 0 ==> OnTime(w, steps[..|steps| - 1], period))
  }

  /** No order was overdue when the last finished pass of the job that would deal with it began. */
  predicate NotOverdue(row: Order, jobs: Jobs) {
    && !Overdue(CancelUnshipped, row, jobs.cancel) && !Overdue(EscalateShipments, row, jobs.escalate)
    && !Overdue(ConfirmDelivered, row, jobs.confirm) && !Overdue(ReleaseHeld, row, jobs.release)
  }

  /** How long after payment an undecided order can at most have entered its status. */
  predicate EnteredInTime(row: Order, period: nat) {
    match row.status
    case Shipped => row.paidAt.Some? && row.shippedAt.Some?
      && row.shippedAt.value <= row.paidAt.value + 5 * DAY + period
    case Delivered => row.paidAt.Some? && row.deliveredAt.Some?
      && row.deliveredAt.value <= row.paidAt.value + 35 * DAY + 2 * period
    case Held => row.paidAt.Some? && row.confirmedAt.Some?
      && row.confirmedAt.value <= row.paidAt.value + 40 * DAY + 3 * period
    case _ => true
  }

  predicate JobsBehind(jobs: Jobs, now: int) {
    jobs.cancel <= now && jobs.escalate <= now && jobs.confirm <= now && jobs.release <= now
  }

  predicate OrderInTime(w: World, o: nat, period: nat)
    requires o < |w.db.orders|
  {
    NotOverdue(w.db.orders[o], w.jobs) && EnteredInTime(w.db.orders[o], period)
  }

  ghost predicate Progress(w: World, period: nat) {
    && JobsBehind(w.jobs, w.db.now)
    && forall o :: 0 <= o < |w.db.orders| ==> OrderInTime(w, o, period)
  }

  lemma ClaimInTime(row: Order, now: int, hold: nat, act: Act, jobs: Jobs, period: nat)
    requires L.StrictRowInv(row, now, hold) && NotOverdue(row, jobs) && EnteredInTime(row, period)
      && JobsBehind(jobs, now)
    requires jobs.cancel >= now - period && jobs.escalate >= now - period && jobs.confirm >= now - period
    requires Claim(row, now, hold, act).Some? && !act.ForceHold?
    ensures EnteredInTime(Claim(row, now, hold, act).value, period)
  {
  }

  /** Steps other than the end of a pass mark nothing. */
  lemma JobsMarked(w: World, s: Step)
    ensures !s.EndPass? ==> Next(w, s).jobs == w.jobs
    ensures s.EndPass? ==> Next(w, s).db == w.db
  {
  }

  lemma OldOrderInTime(w: World, s: Step, o: nat, period: nat)
    requires SettledRuns.Inv(w) && Progress(w, period) && KeepsUp(w, period) && !IsRehold(s) && !s.EndPass?
    requires o < |w.db.orders| && o < |Next(w, s).db.orders|
    ensures OrderInTime(Next(w, s), o, period)
  {
    JobsMarked(w, s);
    RowNext(w, s, o);
    assert OrderInTime(w, o, period);
    forall job: Job, since: int | since <= w.db.now && Overdue(job, Next(w, s).db.orders[o], since)
      ensures Overdue(job, w.db.orders[o], since)
    {
      WasOverdue(w, s, job, since, o);
    }
    if StepTx(w, s).Some? && Won(w.db, StepTx(w, s).value) && StepTx(w, s).value.o == o {
      ClaimInTime(w.db.orders[o], w.db.now, w.db.hold, StepTx(w, s).value.act, w.jobs, period);
    }
  }

  lemma NewOrderInTime(w: World, s: Step, o: nat, period: nat)
    requires JobsBehind(w.jobs, w.db.now) && !s.EndPass? && |w.db.orders| <= o < |Next(w, s).db.orders|
    ensures OrderInTime(Next(w, s), o, period)
  {
    JobsMarked(w, s);
    NextExtends(w, s);
    Refunds.OrdersAfter(w.db, StepTx(w, s).value);
    assert Refunds.Fresh(Next(w, s).db.orders[o], w.db.now);
  }

  /** A finished pass tells of every order that it was not overdue when the pass began. */
  lemma PassTells(w: World, first: nat, o: nat, period: nat)
    requires PassesOk(w) && Progress(w, period) && o < |w.db.orders|
    ensures OrderInTime(Next(w, EndPass(first)), o, period)
  {
    assert OrderInTime(w, o, period);
    if first in w.passes && !InFlight(w, first, w.passes[first]) {
      var pass := w.passes[first];
      assert PassOk(w, first, pass);
      if Overdue(pass.job, w.db.orders[o], pass.since) {
        NoneWaiting(w, first, o);
      }
    }
  }

  lemma StepProgresses(w: World, s: Step, period: nat)
    requires SettledRuns.Inv(w) && PassesOk(w) && Progress(w, period) && KeepsUp(w, period) && !IsRehold(s)
    ensures Progress(Next(w, s), period)
  {
    JobsMarked(w, s);
    Timing.ClockRuns(w, s);
    forall o | 0 <= o < |Next(w, s).db.orders|
      ensures OrderInTime(Next(w, s), o, period)
    {
      if s.EndPass? {
        PassTells(w, s.first, o, period);
      } else if o < |w.db.orders| {
        OldOrderInTime(w, s, o, period);
      } else {
        NewOrderInTime(w, s, o, period);
      }
    }
    if s.EndPass? && s.first in w.passes {
      assert PassOk(w, s.first, w.passes[s.first]);
    }
  }

  lemma {:induction false} RunProgresses(w: World, steps: seq<Step>, period: nat)
    requires Init(w) && Settled(steps) && OnTime(w, steps, period)
    ensures Progress(Run(w, steps), period)
  {
    if |steps| > 0 {
      var n := |steps| - 1;
      RunProgresses(w, steps[..n], period);
      RunPasses(w, steps[..n]);
      StepProgresses(Run(w, steps[..n]), steps[n], period);
    }
  }

  /** While every hourly job keeps finishing passes, whatever else happens during them, a paid order is decided (over,
      or in dispute) within 5 + 30 + 5 days of payment, the hold window, and one period for each of the four stages. */
  lemma DecidedInTime(w: World, steps: seq<Step>, period: nat, o: nat)
    requires Init(w) && Settled(steps) && OnTime(w, steps, period)
    requires o < |Run(w, steps).db.orders|
    ensures var v := Run(w, steps); var row := v.db.orders[o];
      row.paidAt.Some? && v.db.now > row.paidAt.value + (5 + 30 + 5) * DAY + w.db.hold + 4 * period ==>
        Terminal(row.status) || row.status == Disputed
  {
    RunProgresses(w, steps, period);
    SettledRuns.RunKeeps(w, steps);
    HoldStays(w, steps);
    var v := Run(w, steps);
    assert L.StrictRowInv(v.db.orders[o], v.db.now, v.db.hold);
    assert OrderInTime(v, o, period);
  }

  lemma {:induction false} HoldStays(w: World, steps: seq<Step>)
    ensures Run(w, steps).db.hold == w.db.hold
  {
    if |steps| > 0 {
      var n := |steps| - 1;
      HoldStays(w, steps[..n]);
      NextExtends(Run(w, steps[..n]), steps[n]);
    }
  }
}
