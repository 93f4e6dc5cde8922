/** Runs that a general promise would rule out: auto-cancel reads a Paid order, the order moves on, and only then does
    auto-cancel's refund reach the provider. */
module Races {
  import opened Basics
  import opened Types
  import opened Transactions
  import opened Reads
  import opened Runs
  import opened Refunds
  import opened MoneyBack
  import opened Due
  import Pricing

  const SELLER: nat := 1
  const BUYER: nat := 2
  const ITEM := Listing(SELLER, Active, 10000, 100)

  function Start(): World {
    World(Db(0, 3 * DAY, [], [ITEM], [], map[], [], 0), map[], {}, {}, map[], Jobs(0, 0, 0, 0))
  }

  /** A call reads and commits with nothing in between. */
  lemma Alone(w: World, steps: seq<Step>, call: Call) returns (more: seq<Step>)
    requires var v := Run(w, steps);
      && 0 !in v.calls && FirstRead(v, call) && !ByJob(call) && !Asking(call)
      && FollowUp(v.db, call) == None && !Crosses(v, TxOf(call))
    ensures var v := Run(w, steps); Run(w, more) == v.(db := Exec(v.db, TxOf(call)))
  {
    var v := Run(w, steps);
    more := TwoMore(w, steps, Begin(0, call), Commit(0));
    assert v.calls[0 := call] - {0} == v.calls;
  }

  lemma Atomically(w: World, steps: seq<Step>, act: Act) returns (more: seq<Step>)
    requires var v := Run(w, steps); 0 !in v.calls && FirstRead(v, Committing(OrderTx(0, act)))
    requires !act.EscalateStuck? && !(act.Resolve? && act.refund)
    ensures var v := Run(w, steps); Run(w, more) == v.(db := Perform(v.db, 0, act))
  {
    more := Alone(w, steps, Committing(OrderTx(0, act)));
  }

  function Placed(): Order {
    NewOrder(Start().db, BUYER, SELLER, 0, ITEM.price, Pricing.QuoteOrder(ITEM.price, ITEM.weight, None))
  }

  function Paid(): Order {
    Placed().(status := OrderStatus.Paid, payment := Some(0), paidAt := Some(0))
  }

  /** Six days after payment, with auto-cancel's copy of the order in flight as call 1. */
  function Unshipped(): World {
    World(Db(6 * DAY, 3 * DAY, [Paid()], [ITEM.(status := Sold)], [], map[SELLER := Wallet(0, ITEM.price)],
             [LedgerRow(SELLER, EscrowHold, ITEM.price, Some(0))], 1),
          map[1 := CancelAsking(0, Paid())], {}, {}, map[1 := Pass(CancelUnshipped, 6 * DAY, {0})], Jobs(0, 0, 0, 0))
  }

  function Bound(): World {
    World(Db(0, 3 * DAY, [Placed().(payment := Some(0))], [ITEM.(status := Sold)], [], map[], [], 1),
          map[], {}, {}, map[], Jobs(0, 0, 0, 0))
  }

  lemma ReachPlaced() returns (steps: seq<Step>)
    ensures Run(Start(), steps) == Bound().(db := Bound().db.(orders := [Placed()], nextPayment := 0))
  {
    steps := Alone(Start(), [], Committing(CreateOrderTx(BUYER, 0, ITEM, None)));
    Pricing.OrderAddsUp(ITEM.price, ITEM.weight, None);
    assert Run(Start(), steps).db.orders == [Placed()];
  }

  lemma ReachBound() returns (steps: seq<Step>)
    ensures Run(Start(), steps) == Bound()
  {
    steps := ReachPlaced();
    var attach := Direct(OrderTx(0, AttachPayment(0)));
    OneMore(Start(), steps, attach);
    steps := steps + [attach];
  }

  /** Paid, and nothing in flight. */
  function PaidUp(): World {
    Unshipped().(db := Unshipped().db.(now := 0), calls := map[], passes := map[])
  }

  lemma ReachPaid() returns (steps: seq<Step>)
    ensures Run(Start(), steps) == PaidUp()
  {
    steps := ReachBound();
    steps := Atomically(Start(), steps, Settle(Bound().db.orders[0]));
    assert Run(Start(), steps).db.orders == [Paid()];
  }

  /** A pass of auto-cancel begins with the one order selected. */
  lemma PassBegins(v: World, first: nat)
    requires v.db == Unshipped().db && first !in v.passes && first !in v.calls
    ensures var next := Next(v, BeginPass(first, CancelUnshipped));
      && next.db == v.db && next.accepted == v.accepted && next.late == v.late && next.jobs == v.jobs
      && next.calls == v.calls[first := CancelAsking(0, Paid())]
      && next.passes == v.passes[first := Pass(CancelUnshipped, 6 * DAY, {0})]
  {
    assert Selected(v.db, CancelUnshipped) == {0};
    assert PassCalls(v.db, CancelUnshipped, first) == map[first := CancelAsking(0, Paid())];
  }

  lemma ReachUnshipped() returns (steps: seq<Step>)
    ensures Run(Start(), steps) == Unshipped()
  {
    steps := ReachPaid();
    steps := TwoMore(Start(), steps, Tick(6 * DAY), BeginPass(1, CancelUnshipped));
    PassBegins(PaidUp().(db := Unshipped().db), 1);
  }

  // ----- An order that completes -----

  lemma ReachDelivered() returns (steps: seq<Step>)
    ensures Run(Start(), steps) == PaidUp().(db := PaidUp().db.(orders := [DeliveredAtOnce()]))
  {
    steps := ReachPaid();
    steps := Atomically(Start(), steps, MarkShipped);
    steps := Atomically(Start(), steps, MarkDelivered);
    assert Run(Start(), steps).db.orders == [DeliveredAtOnce()];
  }

  function DeliveredAtOnce(): Order {
    Paid().(status := OrderStatus.Delivered, shippedAt := Some(0), deliveredAt := Some(0),
      disputeDeadline := Some(DISPUTE_WINDOW))
  }

  function CompletedOrder(): Order {
    DeliveredAtOnce().(status := OrderStatus.Completed, confirmedAt := Some(0), snapshot := false)
  }

  lemma HeldCompletes(db: Db)
    requires db == PaidUp().db.(orders := [HeldOrder()])
    ensures var next := Perform(db, 0, FinalizeEscrow);
      && next.orders == [CompletedOrder()] && next.wallets == map[SELLER := Wallet(ITEM.price, 0)]
      && !HasRefund(next.ledger, BUYER, 0)
  {
  }

  /** Confirmed by the buyer and released by an administrator. */
  lemma ReachCompleted() returns (steps: seq<Step>)
    ensures var db := Run(Start(), steps).db;
      && db.orders == [CompletedOrder()] && db.wallets == map[SELLER := Wallet(ITEM.price, 0)]
      && !HasRefund(db.ledger, BUYER, 0)
  {
    steps := ReachHeld();
    HeldCompletes(Run(Start(), steps).db);
    steps := Alone(Start(), steps, Finalizing(0, true));
  }

  function HeldOrder(): Order {
    DeliveredAtOnce().(status := OrderStatus.Held, confirmedAt := Some(0), escrowReleasesAt := Some(3 * DAY))
  }

  lemma ReachHeld() returns (steps: seq<Step>)
    ensures Run(Start(), steps) == PaidUp().(db := PaidUp().db.(orders := [HeldOrder()]))
  {
    steps := ReachDelivered();
    steps := Alone(Start(), steps, Confirming(0, true));
    assert Run(Start(), steps).db.orders == [HeldOrder()];
  }

  // ----- An order that moves on while auto-cancel works on it -----

  /** The order at each later stage, all within the sixth day. */
  function Shipped(): Order { Paid().(status := OrderStatus.Shipped, shippedAt := Some(6 * DAY)) }

  function Delivered(): Order {
    Shipped().(status := OrderStatus.Delivered, deliveredAt := Some(6 * DAY),
      disputeDeadline := Some(6 * DAY + DISPUTE_WINDOW))
  }

  function Disputed(): Order { Delivered().(status := OrderStatus.Disputed, dispute := Some(Open)) }

  /** The buyer has the money back, and the order goes on: the provider accepted auto-cancel's refund after the
      seller had shipped. The seller is still in line for the price. */
  lemma RefundedYetShipped() returns (steps: seq<Step>)
    ensures Init(Start())
    ensures var v := Run(Start(), steps);
      |v.db.orders| == 1 && v.db.orders[0].status == OrderStatus.Shipped && BySource(v, 0)
      && PendingOf(v.db.wallets, SELLER) == ITEM.price && v.calls == map[]
  {
    steps := ReachUnshipped();
    steps := Atomically(Start(), steps, MarkShipped);
    assert Run(Start(), steps).db.orders == [Shipped()];
    OneMore(Start(), steps, AskProvider(1, true)); steps := steps + [AskProvider(1, true)];
    OneMore(Start(), steps, Commit(1)); steps := steps + [Commit(1)];
    assert Run(Start(), steps).db.orders == [Shipped()];
  }

  lemma ReachDisputed() returns (steps: seq<Step>)
    ensures var v := Run(Start(), steps);
      v.calls == Unshipped().calls && v.accepted == {} && v.db.orders == [Disputed()]
        && v.db.ledger == Unshipped().db.ledger
  {
    steps := ReachUnshipped();
    steps := Atomically(Start(), steps, MarkShipped);
    assert Run(Start(), steps).db.orders == [Shipped()];
    steps := Atomically(Start(), steps, MarkDelivered);
    assert Run(Start(), steps).db.orders == [Delivered()];
    steps := Atomically(Start(), steps, OpenDispute);
    assert Run(Start(), steps).db.orders == [Disputed()];
  }

  /** The buyer has the money back twice: the wallet was credited after a dispute whose provider refund was
      refused, and then auto-cancel's refund was accepted. */
  lemma RefundedTwice() returns (steps: seq<Step>)
    ensures Init(Start())
    ensures var v := Run(Start(), steps); |v.db.orders| == 1 && BySource(v, 0) && ByWallet(v.db, 0)
  {
    steps := ReachDisputed();
    steps := CreditedAfterRefusal(steps);
    OneMore(Start(), steps, AskProvider(1, true)); steps := steps + [AskProvider(1, true)];
  }

  /** A refused refund ends in the buyer's wallet. */
  lemma RefusalCredits(v: World, o: nat, seen: Order)
    requires 0 in v.calls && v.calls[0] == RefundAsking(o, seen) && v.accepted == {}
    requires o < |v.db.orders| && v.db.orders[o].buyer == seen.buyer && !HasRefund(v.db.ledger, seen.buyer, o)
    ensures var end := Next(Next(v, AskProvider(0, false)), Commit(0));
      end.db == CreditBuyer(v.db, o, seen) && end.calls == v.calls - {0} && end.accepted == {} && ByWallet(end.db, o)
  {
    var end := Next(Next(v, AskProvider(0, false)), Commit(0));
    assert IsRefundOf(end.db.ledger[|v.db.ledger|], seen.buyer, o);
  }

  lemma CreditedAfterRefusal(steps: seq<Step>) returns (more: seq<Step>)
    requires var v := Run(Start(), steps);
      v.calls == Unshipped().calls && v.accepted == {} && v.db.orders == [Disputed()]
        && v.db.ledger == Unshipped().db.ledger
    ensures var v := Run(Start(), more);
      1 in v.calls && v.calls[1] == CancelAsking(0, Paid()) && v.accepted == {}
      && |v.db.orders| == 1 && v.db.orders[0].payment == Some(0) && v.db.orders[0].total == Paid().total
      && ByWallet(v.db, 0)
  {
    var resolved := ResolvedForBuyer(steps);
    var v := Run(Start(), resolved);
    RefusalCredits(v, 0, Disputed());
    more := TwoMore(Start(), resolved, AskProvider(0, false), Commit(0));
    assert v.calls - {0} == Unshipped().calls;
  }

  lemma ResolvedForBuyer(steps: seq<Step>) returns (more: seq<Step>)
    requires var v := Run(Start(), steps);
      v.calls == Unshipped().calls && v.accepted == {} && v.db.orders == [Disputed()]
        && v.db.ledger == Unshipped().db.ledger
    ensures var v := Run(Start(), more);
      && v.calls == Unshipped().calls[0 := RefundAsking(0, Disputed())] && v.accepted == {}
      && v.db.orders == [Disputed().(status := Refunded, dispute := Some(Resolved), snapshot := false)]
      && !HasRefund(v.db.ledger, BUYER, 0)
  {
    var call := Committing(OrderTx(0, Resolve(Disputed(), true)));
    var v := Run(Start(), steps);
    more := TwoMore(Start(), steps, Begin(0, call), Commit(0));
    assert Run(Start(), more) == Next(v.(calls := v.calls[0 := call]), Commit(0));
  }

  /** The dispute is settled for the buyer, the process dies before it asks for the refund, and auto-cancel's call
      is lost with it: the order is Refunded, the buyer is not, and never will be. */
  lemma RefundForgotten() returns (steps: seq<Step>)
    ensures Init(Start())
    ensures forall later :: Forgotten(Run(Start(), steps + later), 0)
  {
    steps := ReachDisputed();
    steps := ResolvedForBuyer(steps);
    steps := TwoMore(Start(), steps, Crash(0), Crash(1));
    forall later ensures Forgotten(Run(Start(), steps + later), 0) {
      ForgottenForGood(Start(), steps, later, 0);
    }
  }

  /** Two passes of auto-cancel, whose lock has let both run, select the same order. */
  lemma ReachOverlap() returns (steps: seq<Step>)
    ensures var v := Run(Start(), steps);
      v.db == Unshipped().db && v.accepted == {}
        && v.calls == map[1 := CancelAsking(0, Paid()), 2 := CancelAsking(0, Paid())]
  {
    steps := ReachUnshipped();
    OneMore(Start(), steps, BeginPass(2, CancelUnshipped));
    steps := steps + [BeginPass(2, CancelUnshipped)];
    PassBegins(Unshipped(), 2);
  }

  /** With no dispute at all the buyer has the money back twice: the first auto-cancel's refund was refused, the
      second's was accepted, and then the first claimed the order and credited the wallet. */
  lemma RefundedTwiceByOverlap() returns (steps: seq<Step>)
    ensures Init(Start())
    ensures var v := Run(Start(), steps);
      && |v.db.orders| == 1 && v.db.orders[0].status == Cancelled && v.db.orders[0].dispute == None
      && BySource(v, 0) && ByWallet(v.db, 0)
  {
    steps := ReachCrossing();
    CrossingCredits(Run(Start(), steps));
    OneMore(Start(), steps, Commit(1));
    steps := steps + [Commit(1)];
  }

  lemma CrossingCredits(v: World)
    requires v.db == Unshipped().db && v.accepted == {(0, Paid().total)}
    requires 1 in v.calls && v.calls[1] == Committing(OrderTx(0, AutoCancel(Paid(), false)))
    ensures var end := Next(v, Commit(1));
      && |end.db.orders| == 1 && end.db.orders[0].status == OrderStatus.Cancelled && end.db.orders[0].dispute == None
      && BySource(end, 0) && ByWallet(end.db, 0)
  {
    var end := Next(v, Commit(1));
    assert IsRefundOf(end.db.ledger[|end.db.ledger| - 1], BUYER, 0);
  }

  /** The first call is refused, and the second accepted. */
  lemma ReachCrossing() returns (steps: seq<Step>)
    ensures var v := Run(Start(), steps);
      v.db == Unshipped().db && v.accepted == {(0, Paid().total)}
      && 1 in v.calls && v.calls[1] == Committing(OrderTx(0, AutoCancel(Paid(), false)))
  {
    steps := ReachOverlap();
    var refused := Next(Run(Start(), steps), AskProvider(1, false));
    assert refused.calls[2] == CancelAsking(0, Paid()) && refused.accepted == {};
    steps := TwoMore(Start(), steps, AskProvider(1, false), AskProvider(2, true));
  }

  // ----- A seller's edit and two sales -----

  const RIVAL: nat := 3

  /** The seller saves the listing as ACTIVE. */
  function Saving(): Call {
    Committing(WriteListingTx(Edit(Some(Active), ITEM.price), 0))
  }

  function Ordering(buyer: nat): Call {
    Committing(CreateOrderTx(buyer, 0, ITEM, None))
  }

  function PlacedBy(buyer: nat): Order {
    Placed().(buyer := buyer)
  }

  lemma CreatesOne(db: Db, buyer: nat)
    requires db.now == 0 && db.listings == [ITEM]
    ensures CreateOrder(db, buyer, 0, ITEM, None) ==
      db.(listings := [ITEM.(status := Sold)], orders := db.orders + [PlacedBy(buyer)])
  {
    Pricing.OrderAddsUp(ITEM.price, ITEM.weight, None);
  }

  lemma ReachEdit() returns (steps: seq<Step>)
    ensures Run(Start(), steps) == Start().(calls := map[1 := Saving()])
  {
    OneMore(Start(), [], Begin(1, Saving()));
    steps := [] + [Begin(1, Saving())];
  }

  /** The seller's call reads the listing on sale, and a buyer checks out. */
  lemma ReachSaving() returns (steps: seq<Step>)
    ensures Run(Start(), steps) == Start().(
      db := Start().db.(listings := [ITEM.(status := Sold)], orders := [PlacedBy(BUYER)]), calls := map[1 := Saving()])
  {
    steps := ReachEdit();
    CreatesOne(Start().db, BUYER);
    steps := Alone(Start(), steps, Ordering(BUYER));
  }

  /** Then it writes, and a second buyer checks out: the listing is sold to both. */
  lemma SoldTwice() returns (steps: seq<Step>)
    ensures Init(Start()) && Run(Start(), steps).db.orders == [PlacedBy(BUYER), PlacedBy(RIVAL)]
    ensures PlacedBy(BUYER).status == Pending == PlacedBy(RIVAL).status
    ensures PlacedBy(BUYER).listing == 0 == PlacedBy(RIVAL).listing
  {
    steps := ReachSaving();
    OneMore(Start(), steps, Commit(1));
    steps := steps + [Commit(1)];
    assert Run(Start(), steps).db.listings == [ITEM];
    CreatesOne(Run(Start(), steps).db, RIVAL);
    steps := Alone(Start(), steps, Ordering(RIVAL));
  }
}
