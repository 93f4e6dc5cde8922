/** The services at work on one database: any number of calls in flight, each of which read its rows at one moment
    and commits its transaction at another, with other calls, jobs, crashes and time in between. */
module Runs {
  import opened Basics
  import opened Types
  import opened Transactions
  import opened Reads
  import opened Due
  import L = Lifecycle
  import Escrow

  /** A call past its first, unlocked read. */
  datatype Call =
    | Committing(tx: Tx)
    | Confirming(o: nat, byBuyer: bool)     // will enter the hold window
    | Finalizing(o: nat, forced: bool)      // will release the escrow
    | CancelAsking(o: nat, seen: Order)     // auto-cancel, yet to ask the provider for a refund
    | RefundAsking(o: nat, seen: Order)     // resolved for the buyer, yet to ask the provider for a refund

  /** An hourly job past its query, which ran at `since` and selected `orders`. */
  datatype Pass = Pass(job: Job, since: int, orders: set<nat>)

  /** For each hourly job, the latest start of a pass that has finished. */
  datatype Jobs = Jobs(cancel: int, escalate: int, confirm: int, release: int)

  /** `accepted` holds the refund keys (payment, amount) the provider has ever accepted. In a pass `first` the call
      on order o has the id first + o. `late` is a history variable: the orders for which a provider refund and
      another refund have crossed (see LateAsk and Crosses). */
  datatype World = World(
    db: Db, calls: map<nat, Call>, accepted: set<(nat, nat)>, late: set<nat>, passes: map<nat, Pass>, jobs: Jobs)

  datatype Step =
    | Begin(id: nat, call: Call)
    | AskProvider(id: nat, ok: bool)
    | Commit(id: nat)
    | Crash(id: nat)
    | Direct(tx: Tx)
    | Tick(seconds: nat)
    | BeginPass(first: nat, job: Job)
    | EndPass(first: nat)

  // ----- What each first read requires -----

  predicate ActReads(row: Order, now: int, act: Act) {
    match act
    case Settle(seen) => seen == row && row.status == Pending && row.payment.Some?
    case CancelByBuyer(seen) => seen == row && row.status == Pending
    case CancelStalePending(seen) => seen == row && row.status == Pending && row.createdAt < now - PAYMENT_TIMEOUT
    case MarkShipped => row.status == Paid
    case MarkDelivered => row.status == Shipped
    case OpenDispute =>
      && row.status == Delivered && row.dispute == None
      && (row.deliveredAt.Some? ==> now <= row.deliveredAt.value + DISPUTE_WINDOW)
    case EscalateStuck => EscalateDue(row, now)
    case Resolve(seen, _) => seen == row && row.dispute == Some(Open)
    case _ => false
  }

  predicate ItemsRead(db: Db, ids: seq<nat>, items: seq<Item>) {
    && |items| == |ids|
    && forall i :: 0 <= i < |ids| ==>
         && ids[i] < |db.listings| && items[i] == Item(ids[i], db.listings[ids[i]])
         && db.listings[ids[i]].status == Active
  }

  predicate Removable(bundle: Bundle, l: nat) {
    bundle.status == Collecting && l in bundle.items && |bundle.items| > 2
  }

  predicate Distinct(ids: seq<nat>) {
    forall i, j :: 0 <= i < j < |ids| ==> ids[i] != ids[j]
  }

  predicate WriterReads(db: Db, writer: ListingWriter, l: nat)
    requires l < |db.listings|
  {
    var status := db.listings[l].status;
    match writer
    case Edit(to, _) => status != Deleted && status != Sold && to != Some(Deleted) && to != Some(Suspended)
    case Remove => !HasOpenOrder(db, l)
    case PauseStale => status == Active
    case CleanupPaused => status == Paused
    case Suspend => status != Deleted
    case Unsuspend => status == Suspended
    case RejectImage => true
    case Hide => true
  }

  predicate TxReads(db: Db, tx: Tx) {
    match tx
    case CreateOrderTx(buyer, l, seen, coupon) =>
      && l < |db.listings| && seen == db.listings[l] && seen.status == Active && seen.seller != buyer
      && (coupon.Some? ==> 1 <= coupon.value <= 100)
    case CheckoutBundleTx(b, items) =>
      b < |db.bundles| && db.bundles[b].status == Collecting && ItemsRead(db, db.bundles[b].items, items)
    case OrderTx(o, act) => o < |db.orders| && ActReads(db.orders[o], db.now, act)
    case RemoveBundleItemTx(b, l) => b < |db.bundles| && Removable(db.bundles[b], l)
    case WriteListingTx(writer, l) => l < |db.listings| && WriterReads(db, writer, l)
    case _ => false
  }

  predicate Cancelling(call: Call, o: nat) {
    || (call.CancelAsking? && call.o == o)
    || (call.Committing? && call.tx.OrderTx? && call.tx.act.AutoCancel? && call.tx.o == o)
  }

  predicate FirstRead(w: World, call: Call) {
    match call
    case Committing(tx) => TxReads(w.db, tx)
    case Confirming(o, byBuyer) =>
      o < |w.db.orders| && (if byBuyer then w.db.orders[o].status == Shipped || w.db.orders[o].status == Delivered
                            else ConfirmDue(w.db.orders[o], w.db.now))
    case Finalizing(o, forced) =>
      o < |w.db.orders| && (if forced then w.db.orders[o].status == Held else ReleaseDue(w.db.orders[o], w.db.now))
    case CancelAsking(o, seen) =>
      o < |w.db.orders| && seen == w.db.orders[o] && CancelDue(seen, w.db.now)
    case RefundAsking(_, _) => false
  }

  /** The call with which a job deals with an order it has selected. */
  function JobCall(job: Job, o: nat, row: Order): Call {
    match job
    case CancelUnshipped => CancelAsking(o, row)
    case EscalateShipments => Committing(OrderTx(o, EscalateStuck))
    case ConfirmDelivered => Confirming(o, false)
    case ReleaseHeld => Finalizing(o, false)
  }

  /** Only jobs make these calls. */
  predicate ByJob(call: Call) {
    match call
    case CancelAsking(_, _) => true
    case Confirming(_, byBuyer) => !byBuyer
    case Finalizing(_, forced) => !forced
    case Committing(tx) => tx.OrderTx? && tx.act.EscalateStuck?
    case _ => false
  }

  function Selected(db: Db, job: Job): set<nat> {
    set o: nat | o < |db.orders| && IsDue(job, db.orders[o], db.now)
  }

  /** The call is the pass's own on one of its orders. */
  predicate IsOf(id: nat, first: nat, orders: set<nat>) {
    id >= first && id - first in orders
  }

  /** A pass begins with one query, so every call of it has made its first read by then. */
  function PassCalls(db: Db, job: Job, first: nat): map<nat, Call> {
    map id: nat | first <= id < first + |db.orders| && IsOf(id, first, Selected(db, job)) ::
      JobCall(job, id - first, db.orders[id - first])
  }

  predicate CanPass(w: World, first: nat, job: Job) {
    first !in w.passes && w.calls.Keys !! PassCalls(w.db, job, first).Keys
  }

  /** Writes with no earlier read to go stale. */
  predicate DirectOk(db: Db, tx: Tx) {
    match tx
    case OrderTx(_, act) =>
      act.ForceHold? || act.CancelOnDeletion? || (act.AttachPayment? && act.id >= db.nextPayment)
    case CreateOrderTx(_, _, _, _) => false
    case CheckoutBundleTx(_, _) => false
    case RefundFallbackTx(_, _) => false
    case RemoveBundleItemTx(_, _) => false
    case WriteListingTx(_, _) => false
    case ClaimListingTx(_, expected, status) =>
      || (expected == Active && (status == Paused || status == Deleted || status == Suspended))
      || (expected == Paused && (status == Active || status == Deleted))
    case AddBundleTx(_, _, ids) => |ids| >= 2 && Distinct(ids)
    case _ => true
  }

  // ----- One step -----

  predicate Asking(call: Call) {
    call.CancelAsking? || call.RefundAsking?
  }

  function TxOf(call: Call): Tx
    requires !Asking(call)
  {
    match call
    case Committing(tx) => tx
    case Confirming(o, _) => OrderTx(o, EnterHold)
    case Finalizing(o, _) => OrderTx(o, FinalizeEscrow)
  }

  /** The transaction a step commits, if any. */
  function StepTx(w: World, s: Step): Option<Tx> {
    match s
    case Commit(id) => if id in w.calls && !Asking(w.calls[id]) then Some(TxOf(w.calls[id])) else None
    case Direct(tx) => if DirectOk(w.db, tx) then Some(tx) else None
    case _ => None
  }

  function NextDb(w: World, s: Step): Db {
    match StepTx(w, s)
    case Some(tx) => Exec(w.db, tx)
    case None => if s.Tick? then w.db.(now := w.db.now + s.seconds) else w.db
  }

  predicate Won(db: Db, tx: Tx) {
    tx.OrderTx? && tx.o < |db.orders| && Claim(db.orders[tx.o], db.now, db.hold, tx.act).Some?
  }

  /** What a call goes on to do after its transaction: a buyer-wins resolution refunds, and with no hold window
      the escrow is released at once. */
  function FollowUp(db: Db, call: Call): Option<Call>
    requires !Asking(call)
  {
    if !Won(db, TxOf(call)) then None
    else match call
      case Committing(OrderTx(o, Resolve(seen, true))) => Some(RefundAsking(o, seen))
      case Confirming(o, _) => if db.hold == 0 then Some(Finalizing(o, false)) else None
      case _ => None
  }

  function Finished(calls: map<nat, Call>, id: nat): map<nat, Call> {
    calls - {id}
  }

  function Key(row: Order): Option<(nat, nat)> {
    match row.payment case None => None case Some(p) => Some((p, row.total))
  }

  /** A key once accepted keeps answering success. */
  predicate Granted(w: World, seen: Order, ok: bool) {
    seen.payment.Some? && (ok || (seen.payment.value, seen.total) in w.accepted)
  }

  function Answered(w: World, seen: Order, ok: bool): set<(nat, nat)> {
    if Granted(w, seen, ok) then w.accepted + {(seen.payment.value, seen.total)} else w.accepted
  }

  /** The step makes the provider accept auto-cancel's refund of o for the first time when o is already over. */
  predicate LateAsk(w: World, s: Step, o: nat) {
    && s.AskProvider? && s.id in w.calls && w.calls[s.id].CancelAsking? && w.calls[s.id].o == o
    && Answered(w, w.calls[s.id].seen, s.ok) != w.accepted
    && o < |w.db.orders| && (w.db.orders[o].status == Refunded || w.db.orders[o].status == Cancelled)
  }

  /** The transaction credits the buyer for an auto-cancel whose refund was refused, after the provider has accepted
      another one's. */
  predicate Crosses(w: World, tx: Tx) {
    tx.OrderTx? && tx.act.AutoCancel? && !tx.act.toSource && Won(w.db, tx) && Granted(w, tx.act.seen, false)
  }

  predicate InFlight(w: World, first: nat, pass: Pass) {
    exists o <- pass.orders :: first + o in w.calls
  }

  function Mark(jobs: Jobs, job: Job, since: int): Jobs {
    match job
    case CancelUnshipped => if since > jobs.cancel then jobs.(cancel := since) else jobs
    case EscalateShipments => if since > jobs.escalate then jobs.(escalate := since) else jobs
    case ConfirmDelivered => if since > jobs.confirm then jobs.(confirm := since) else jobs
    case ReleaseHeld => if since > jobs.release then jobs.(release := since) else jobs
  }

  function Asked(w: World, s: Step): World
    requires s.AskProvider?
  {
    if s.id !in w.calls then w
    else match w.calls[s.id]
      case CancelAsking(o, seen) =>
        w.(calls := w.calls[s.id := Committing(OrderTx(o, AutoCancel(seen, Granted(w, seen, s.ok))))],
           accepted := Answered(w, seen, s.ok), late := if LateAsk(w, s, o) then w.late + {o} else w.late)
      case RefundAsking(o, seen) =>
        w.(calls := if Granted(w, seen, s.ok) then Finished(w.calls, s.id)
                    else w.calls[s.id := Committing(RefundFallbackTx(o, seen))],
           accepted := Answered(w, seen, s.ok))
      case _ => w
  }

  function Committed(w: World, s: Step): World
    requires s.Commit?
  {
    if s.id !in w.calls || Asking(w.calls[s.id]) then w
    else
      var tx := TxOf(w.calls[s.id]);
      w.(db := NextDb(w, s), late := if Crosses(w, tx) then w.late + {tx.o} else w.late,
         calls := match FollowUp(w.db, w.calls[s.id])
                  case None => Finished(w.calls, s.id)
                  case Some(call) => w.calls[s.id := call])
  }

  /** A pass that loses a call never finishes. It finishes when none of its calls is in flight any more. */
  function Next(w: World, s: Step): World {
    match s
    case Begin(id, call) =>
      if id !in w.calls && FirstRead(w, call) && !ByJob(call) then w.(calls := w.calls[id := call]) else w
    case AskProvider(_, _) => Asked(w, s)
    case Commit(_) => Committed(w, s)
    case Crash(id) =>
      if id !in w.calls then w
      else w.(calls := Finished(w.calls, id),
        passes := map f <- w.passes | !IsOf(id, f, w.passes[f].orders) :: w.passes[f])
    case Direct(_) => w.(db := NextDb(w, s))
    case Tick(_) => w.(db := NextDb(w, s))
    case BeginPass(first, job) =>
      if !CanPass(w, first, job) then w
      else w.(calls := w.calls + PassCalls(w.db, job, first),
              passes := w.passes[first := Pass(job, w.db.now, Selected(w.db, job))])
    case EndPass(first) =>
      if first !in w.passes || InFlight(w, first, w.passes[first]) then w
      else w.(passes := w.passes - {first}, jobs := Mark(w.jobs, w.passes[first].job, w.passes[first].since))
  }

  // ----- Runs -----

  /** Listings and bundles of any kind, and nothing bought yet. */
  predicate Init(w: World) {
    && w.db.orders == [] && w.db.ledger == [] && w.db.wallets == map[]
    && w.calls == map[] && w.accepted == {} && w.late == {} && w.passes == map[]
    && w.jobs == Jobs(w.db.now, w.db.now, w.db.now, w.db.now)
  }

  function Run(w: World, steps: seq<Step>): World {
    if |steps| == 0 then w else Next(Run(w, steps[..|steps| - 1]), steps[|steps| - 1])
  }

  lemma OneMore(w: World, steps: seq<Step>, s: Step)
    ensures Run(w, steps + [s]) == Next(Run(w, steps), s)
  {
    assert (steps + [s])[..|steps|] == steps;
  }

  lemma TwoMore(w: World, steps: seq<Step>, s: Step, t: Step) returns (more: seq<Step>)
    ensures Run(w, more) == Next(Next(Run(w, steps), s), t)
  {
    OneMore(w, steps, s);
    OneMore(w, steps + [s], t);
    more := steps + [s] + [t];
  }

  predicate IsRehold(s: Step) {
    s.Direct? && L.Rehold(s.tx)
  }

  /** No administrator re-holds a completed order. */
  predicate Settled(steps: seq<Step>) {
    forall i :: 0 <= i < |steps| ==> !IsRehold(steps[i])
  }

  // ----- Stale reads stay usable -----

  /** Transactions made by other kinds of call. */
  predicate Elsewhere(act: Act) {
    act.AttachPayment? || act.ForceHold? || act.CancelOnDeletion? || act.EnterHold? || act.FinalizeEscrow?
  }

  predicate CallOk(db: Db, call: Call) {
    match call
    case Committing(tx) => Grounded(db, tx) && !(tx.OrderTx? && Elsewhere(tx.act))
    case CancelAsking(o, seen) => Agrees(db, o, seen) && seen.status == Paid
    case RefundAsking(o, seen) => Agrees(db, o, seen)
    case _ => true
  }

  ghost predicate CallsOk(w: World) {
    forall id <- w.calls :: CallOk(w.db, w.calls[id])
  }

  lemma NextExtends(w: World, s: Step)
    ensures Next(w, s).db == NextDb(w, s)
    ensures Extends(w.db, Next(w, s).db)
  {
    if StepTx(w, s).Some? {
      ExecExtends(w.db, StepTx(w, s).value);
    }
  }

  lemma CallStays(a: Db, b: Db, call: Call)
    requires CallOk(a, call) && Extends(a, b)
    ensures CallOk(b, call)
  {
  }

  /** Every call new in flight has just made its first read. */
  lemma NewCall(w: World, s: Step, id: nat)
    requires id in Next(w, s).calls && id !in w.calls
    ensures FirstRead(w, Next(w, s).calls[id])
  {
    if s.BeginPass? {
      var o: nat := id - s.first;
      assert Next(w, s).calls[id] == JobCall(s.job, o, w.db.orders[o]) && o in Selected(w.db, s.job);
      JobReads(w, s.job, o);
    }
  }

  lemma JobReads(w: World, job: Job, o: nat)
    requires o in Selected(w.db, job)
    ensures FirstRead(w, JobCall(job, o, w.db.orders[o]))
  {
  }

  lemma FirstReadIsOk(w: World, call: Call)
    requires FirstRead(w, call)
    ensures CallOk(w.db, call)
  {
  }

  /** A call that was in flight is unchanged, or has asked or committed. */
  lemma OldCall(w: World, s: Step, id: nat)
    requires id in Next(w, s).calls && id in w.calls
    ensures Next(w, s).calls[id] == w.calls[id] || ((s.AskProvider? || s.Commit?) && s.id == id)
  {
  }

  /** The call that has just asked or committed goes on from what it knew. */
  lemma ActingCallOk(w: World, s: Step)
    requires CallsOk(w) && (s.AskProvider? || s.Commit?) && s.id in w.calls && s.id in Next(w, s).calls
    ensures CallOk(w.db, Next(w, s).calls[s.id])
  {
    assert CallOk(w.db, w.calls[s.id]);
  }

  lemma EachCallOk(w: World, s: Step, id: nat)
    requires CallsOk(w) && id in Next(w, s).calls
    ensures CallOk(w.db, Next(w, s).calls[id])
  {
    if id !in w.calls {
      NewCall(w, s, id);
      FirstReadIsOk(w, Next(w, s).calls[id]);
    } else {
      OldCall(w, s, id);
      if Next(w, s).calls[id] != w.calls[id] {
        ActingCallOk(w, s);
      }
    }
  }

  lemma CallsStay(w: World, s: Step)
    requires CallsOk(w)
    ensures CallsOk(Next(w, s))
  {
    NextExtends(w, s);
    forall id | id in Next(w, s).calls
      ensures CallOk(Next(w, s).db, Next(w, s).calls[id])
    {
      EachCallOk(w, s, id);
      CallStays(w.db, Next(w, s).db, Next(w, s).calls[id]);
    }
  }

  /** Neither a transaction nor a question to the provider. */
  predicate IsQuiet(w: World, s: Step) {
    StepTx(w, s) == None && !(s.AskProvider? && s.id in w.calls && Asking(w.calls[s.id]))
  }

  lemma QuietFrame(w: World, s: Step)
    requires IsQuiet(w, s)
    ensures var next := Next(w, s);
      && next.db == w.db.(now := next.db.now) && next.accepted == w.accepted && next.late == w.late
      && forall id :: id in next.calls && id in w.calls ==> next.calls[id] == w.calls[id]
  {
  }

  lemma StepIsGrounded(w: World, s: Step)
    requires CallsOk(w) && StepTx(w, s).Some?
    ensures Grounded(w.db, StepTx(w, s).value)
  {
  }

  // ----- Safety of every run, re-holds included -----

  ghost predicate Inv(w: World) {
    CallsOk(w) && L.Inv(w.db) && Escrow.Inv(w.db)
  }

  lemma NextKeeps(w: World, s: Step)
    requires Inv(w)
    ensures Inv(Next(w, s))
  {
    CallsStay(w, s);
    NextExtends(w, s);
    match StepTx(w, s) {
      case Some(tx) =>
        StepIsGrounded(w, s);
        L.Keeps(w.db, tx);
        Escrow.Keeps(w.db, tx);
      case None =>
        assert Next(w, s).db == if s.Tick? then w.db.(now := w.db.now + s.seconds) else w.db;
    }
  }

  lemma {:induction false} RunKeeps(w: World, steps: seq<Step>)
    requires Init(w)
    ensures Inv(Run(w, steps))
  {
    if |steps| > 0 {
      RunKeeps(w, steps[..|steps| - 1]);
      NextKeeps(Run(w, steps[..|steps| - 1]), steps[|steps| - 1]);
    }
  }

  /** In every run each seller's pending balance is the total of that seller's escrowed orders, so it is never
      negative and covers each of them: no unguarded decrement can take it below zero. */
  lemma PendingIsEscrow(w: World, steps: seq<Step>, s: nat)
    requires Init(w)
    ensures var db := Run(w, steps).db;
      && PendingOf(db.wallets, s) == Escrow.Total(db.orders, s) >= 0
      && forall o :: 0 <= o < |db.orders| && db.orders[o].seller == s && InEscrow(db.orders[o].status) ==>
           db.orders[o].item <= PendingOf(db.wallets, s)
  {
    RunKeeps(w, steps);
    var db := Run(w, steps).db;
    forall o | 0 <= o < |db.orders| && db.orders[o].seller == s && InEscrow(db.orders[o].status)
      ensures db.orders[o].item <= PendingOf(db.wallets, s)
    {
      Escrow.TotalPut(db.orders, o, db.orders[o], s);
    }
  }

  /** In every run an order has an open dispute exactly while it is Disputed, and its snapshot is still there. */
  lemma DisputedMeansOpen(w: World, steps: seq<Step>, o: nat)
    requires Init(w) && o < |Run(w, steps).db.orders|
    ensures var row := Run(w, steps).db.orders[o];
      && (row.dispute == Some(Open) <==> row.status == Disputed)
      && (row.status == Disputed ==> row.snapshot)
  {
    RunKeeps(w, steps);
    assert L.RowInv(Run(w, steps).db.orders[o]);
  }
}
