/** The tables, changed in place one write at a time as the services do. A transaction that throws after its
    first write is rolled back; these check every claim before the write that depends on it, or work on copies. */
module Store {
  import opened Basics
  import opened Types
  import T = Transactions
  import opened Due
  import Passes
  import Pricing

  /** Auto-cancel may purge the snapshot before or after its other writes. */
  lemma SnapshotLast(db: Db, o: nat, row: Order, act: T.Act)
    requires o < |db.orders| && act.AutoCancel?
    ensures var purged := row.(snapshot := false); var after := T.After(T.Put(db, o, row), o, row, act);
      after.orders == db.orders[o := row] && T.After(T.Put(db, o, purged), o, purged, act) == T.Put(after, o, purged)
  {
    assert db.orders[o := row][o := row.(snapshot := false)] == db.orders[o := row.(snapshot := false)];
  }

  class Store {
    var now: int
    const hold: nat
    var orders: seq<Order>
    var listings: seq<Listing>
    var bundles: seq<Bundle>
    var wallets: map<nat, Wallet>
    var ledger: seq<LedgerRow>
    var nextPayment: nat

    function View(): Db
      reads this
    {
      Db(now, hold, orders, listings, bundles, wallets, ledger, nextPayment)
    }

    constructor (hold: nat)
      ensures View() == Db(0, hold, [], [], [], map[], [], 0)
    {
      this.hold := hold;
      now, orders, listings, bundles, wallets, ledger, nextPayment := 0, [], [], [], map[], [], 0;
    }

    // ----- Single statements -----

    /** updateMany on one order: the row is written only if it still has the expected status. */
    method ClaimOrder(o: nat, expected: OrderStatus, row: Order) returns (count: nat)
      modifies this`orders
      ensures count == if o < |old(orders)| && old(orders)[o].status == expected then 1 else 0
      ensures View() == if count == 1 then T.Put(old(View()), o, row) else old(View())
    {
      if o < |orders| && orders[o].status == expected {
        orders := orders[o := row];
        count := 1;
      } else {
        count := 0;
      }
    }

    method MoveMoney(user: nat, pending: int, balance: int)
      modifies this`wallets
      ensures View() == T.Pay(old(View()), user, pending, balance)
    {
      if user !in wallets {
        wallets := wallets[user := Wallet(0, 0)];
      }
      wallets := wallets[user := wallets[user].(pending := wallets[user].pending + pending)];
      wallets := wallets[user := wallets[user].(balance := wallets[user].balance + balance)];
    }

    method InsertLedgerRow(user: nat, kind: LedgerKind, amount: int, o: Option<nat>)
      modifies this`ledger
      ensures View() == T.Log(old(View()), user, kind, amount, o)
    {
      ledger := ledger + [LedgerRow(user, kind, amount, o)];
    }

    method UpdateListingStatus(l: nat, s: ListingStatus)
      modifies this`listings
      ensures View() == T.SetListing(old(View()), l, s)
    {
      if l < |listings| {
        listings := listings[l := listings[l].(status := s)];
      }
    }

    method DeleteSnapshot(o: nat)
      modifies this`orders
      ensures View() ==
        if o < |old(orders)| then T.Put(old(View()), o, old(orders)[o].(snapshot := false)) else old(View())
    {
      if o < |orders| {
        orders := orders[o := orders[o].(snapshot := false)];
      }
    }

    // ----- Money movements shared by several transactions -----

    method ReverseHold(o: nat, deal: Order)
      modifies this`wallets, this`ledger
      ensures View() == T.Reverse(old(View()), o, deal)
    {
      MoveMoney(deal.seller, 0 - deal.item, 0);
      InsertLedgerRow(deal.seller, EscrowRelease, 0 - deal.item, Some(o));
    }

    method ReleaseHold(o: nat, deal: Order)
      modifies this`wallets, this`ledger
      ensures View() == T.Release(old(View()), o, deal)
    {
      MoveMoney(deal.seller, 0 - deal.item, deal.item);
      InsertLedgerRow(deal.seller, EscrowRelease, deal.item, Some(o));
    }

    method CreditBuyer(o: nat, deal: Order)
      modifies this`wallets, this`ledger
      ensures View() == T.CreditBuyer(old(View()), o, deal)
    {
      MoveMoney(deal.buyer, 0, deal.total);
      InsertLedgerRow(deal.buyer, Refund, deal.total, Some(o));
    }

    // ----- Checkout -----

    method CreateOrder(buyer: nat, l: nat, seen: Listing, coupon: Option<nat>) returns (created: bool)
      modifies this
      ensures View() == T.CreateOrder(old(View()), buyer, l, seen, coupon)
      ensures created <==> l < |old(listings)| && old(listings)[l].status == Active
    {
      var quote := Pricing.QuoteOrder(seen.price, seen.weight, coupon);
      if !(l < |listings| && listings[l].status == Active) {
        return false;
      }
      var o := |orders|;
      orders := orders + [T.NewOrder(View(), buyer, seen.seller, l, seen.price, quote)];
      UpdateListingStatus(l, Sold);
      if quote.free {
        MoveMoney(seen.seller, seen.price, 0);
        InsertLedgerRow(seen.seller, EscrowHold, seen.price, Some(o));
      }
      return true;
    }

    method CheckoutBundle(b: nat, items: seq<Item>) returns (done: bool)
      modifies this
      ensures View() == T.CheckoutBundle(old(View()), b, items)
    {
      if !(b < |bundles| && bundles[b].status == Collecting) {
        return false;
      }
      var claimed := listings;
      for i := 0 to |items|
        invariant T.ClaimAll(listings, items) == T.ClaimAll(claimed, items[i..])
        invariant unchanged(this)
      {
        assert items[i..][0] == items[i] && items[i..][1..] == items[i + 1..];
        var l := items[i].listing;
        if !(l < |claimed| && claimed[l].status == Active) {
          return false;
        }
        claimed := claimed[l := claimed[l].(status := Sold)];
      }
      var created: seq<Order> := [];
      ghost var all := T.BundleOrders(View(), bundles[b], items);
      for i := 0 to |items|
        invariant created == all[..i]
        invariant unchanged(this)
      {
        created := created + [T.BundleOrder(View(), bundles[b], items, i)];
      }
      bundles := bundles[b := bundles[b].(status := CheckedOut)];
      listings, orders := claimed, orders + created;
      return true;
    }

    // ----- Payment -----

    method AttachPayment(o: nat, id: nat)
      modifies this
      ensures View() == T.Perform(old(View()), o, T.AttachPayment(id))
    {
      if o < |orders| && orders[o].status == Pending {
        orders := orders[o := orders[o].(payment := Some(id))];
        nextPayment := id + 1;
      }
    }

    method Settle(o: nat, seen: Order) returns (settled: bool)
      modifies this
      ensures View() == T.Perform(old(View()), o, T.Settle(seen))
    {
      if o >= |orders| {
        return false;
      }
      var count := ClaimOrder(o, Pending, orders[o].(status := Paid, paidAt := Some(now)));
      if count == 0 {
        return false;
      }
      MoveMoney(seen.seller, seen.item, 0);
      InsertLedgerRow(seen.seller, EscrowHold, seen.item, Some(o));
      return true;
    }

    // ----- Cancellation -----

    method CancelByBuyer(o: nat, seen: Order) returns (cancelled: bool)
      modifies this
      ensures View() == T.Perform(old(View()), o, T.CancelByBuyer(seen))
    {
      if o >= |orders| {
        return false;
      }
      var count := ClaimOrder(o, Pending, orders[o].(status := Cancelled));
      if count == 0 {
        return false;
      }
      if seen.listing < |listings| && listings[seen.listing].status == Sold {
        UpdateListingStatus(seen.listing, Active);
      }
      DeleteSnapshot(o);
      return true;
    }

    method CancelStalePending(o: nat, seen: Order) returns (cancelled: bool)
      modifies this
      ensures View() == T.Perform(old(View()), o, T.CancelStalePending(seen))
    {
      if o >= |orders| {
        return false;
      }
      var count := ClaimOrder(o, Pending, orders[o].(status := Cancelled));
      if count == 0 {
        return false;
      }
      UpdateListingStatus(seen.listing, Active);
      DeleteSnapshot(o);
      return true;
    }

    /** The writes after auto-cancel's claim: escrow reversed, buyer credited if not yet refunded, listing
        back on sale. */
    method UnwindSale(o: nat, seen: Order, refundedToSource: bool)
      requires o < |orders|
      modifies this`wallets, this`ledger, this`listings
      ensures View() == T.After(old(View()), o, old(orders)[o], T.AutoCancel(seen, refundedToSource))
    {
      if seen.seller in wallets {
        ReverseHold(o, seen);
      }
      if !refundedToSource {
        CreditBuyer(o, seen);
      }
      UpdateListingStatus(seen.listing, Active);
    }

    method AutoCancel(o: nat, seen: Order, refundedToSource: bool) returns (cancelled: bool)
      modifies this
      ensures View() == T.Perform(old(View()), o, T.AutoCancel(seen, refundedToSource))
    {
      if o >= |orders| {
        return false;
      }
      if orders[o].shippedAt != None {
        return false;
      }
      var count := ClaimOrder(o, Paid, orders[o].(
        status := Cancelled, refundMethod := Some(if refundedToSource then OriginalPayment else WalletCredit)));
      if count == 0 {
        return false;
      }
      SnapshotLast(old(View()), o, orders[o], T.AutoCancel(seen, refundedToSource));
      UnwindSale(o, seen, refundedToSource);
      DeleteSnapshot(o);
      return true;
    }

    // ----- Fulfilment and escrow -----

    method MarkShipped(o: nat) returns (count: nat)
      modifies this`orders
      ensures View() == T.Perform(old(View()), o, T.MarkShipped)
    {
      if o >= |orders| {
        return 0;
      }
      count := ClaimOrder(o, Paid, orders[o].(status := Shipped, shippedAt := Some(now)));
    }

    method MarkDelivered(o: nat) returns (count: nat)
      modifies this`orders
      ensures View() == T.Perform(old(View()), o, T.MarkDelivered)
    {
      if o >= |orders| {
        return 0;
      }
      var disputeDeadline := now + DISPUTE_WINDOW;
      count := ClaimOrder(o, Shipped, orders[o].(
        status := Delivered, deliveredAt := Some(now), disputeDeadline := Some(disputeDeadline)));
    }

    method EnterHold(o: nat) returns (count: nat)
      modifies this`orders
      ensures View() == T.Perform(old(View()), o, T.EnterHold)
    {
      if o >= |orders| {
        return 0;
      }
      var releasesAt := now + hold;
      count := ClaimOrder(o, Delivered, orders[o].(
        status := Held, confirmedAt := Some(now), escrowReleasesAt := Some(releasesAt)));
    }

    method FinalizeEscrow(o: nat) returns (count: nat)
      modifies this`orders, this`wallets, this`ledger
      ensures View() == T.Perform(old(View()), o, T.FinalizeEscrow)
    {
      if o >= |orders| {
        return 0;
      }
      count := ClaimOrder(o, Held, orders[o].(
        status := Completed, confirmedAt := Some(now), escrowReleasesAt := None));
      if count == 0 {
        return;
      }
      var order := orders[o];
      ReleaseHold(o, order);
      DeleteSnapshot(o);
    }

    method ForceHold(o: nat) returns (done: bool)
      modifies this`orders, this`wallets
      ensures View() == T.Perform(old(View()), o, T.ForceHold)
    {
      if o >= |orders| {
        return false;
      }
      var order := orders[o];
      if order.status != Completed {
        return false;
      }
      MoveMoney(order.seller, order.item, 0 - order.item);
      orders := orders[o := order.(status := Held, escrowReleasesAt := Some(now + 2 * DAY))];
      return true;
    }

    // ----- Disputes -----

    method OpenDispute(o: nat) returns (done: bool)
      modifies this`orders
      ensures View() == T.Perform(old(View()), o, T.OpenDispute)
    {
      if o >= |orders| {
        return false;
      }
      if orders[o].dispute != None || orders[o].status != Delivered {
        return false;
      }
      orders := orders[o := orders[o].(dispute := Some(Open))];
      orders := orders[o := orders[o].(status := Disputed)];
      return true;
    }

    method EscalateStuck(o: nat) returns (count: nat)
      modifies this`orders
      ensures View() == T.Perform(old(View()), o, T.EscalateStuck)
    {
      if o >= |orders| {
        return 0;
      }
      count := ClaimOrder(o, Shipped, orders[o].(status := Disputed));
      if count == 1 && orders[o].dispute == None {
        orders := orders[o := orders[o].(dispute := Some(Open))];
      }
    }

    /** The dispute's row is resolved, and then the order's status overwritten. */
    method CloseDispute(o: nat, refund: bool)
      requires o < |orders|
      modifies this`orders
      ensures var row := old(orders)[o].(dispute := Some(Resolved));
        View() == T.Put(old(View()), o,
          if refund then row.(status := Refunded) else row.(status := Completed, confirmedAt := Some(now)))
    {
      orders := orders[o := orders[o].(dispute := Some(Resolved))];
      if refund {
        orders := orders[o := orders[o].(status := Refunded)];
      } else {
        orders := orders[o := orders[o].(status := Completed, confirmedAt := Some(now))];
      }
    }

    method Resolve(o: nat, seen: Order, refund: bool) returns (resolved: bool)
      modifies this
      ensures View() == T.Perform(old(View()), o, T.Resolve(seen, refund))
    {
      if o >= |orders| {
        return false;
      }
      if orders[o].dispute != Some(Open) {
        return false;
      }
      CloseDispute(o, refund);
      if refund {
        ReverseHold(o, seen);
      } else {
        ReleaseHold(o, seen);
      }
      DeleteSnapshot(o);
      return true;
    }

    method RefundFallback(o: nat, seen: Order) returns (credited: bool)
      modifies this
      ensures View() == T.RefundFallback(old(View()), o, seen)
      ensures credited <==> !T.HasRefund(old(ledger), seen.buyer, o)
    {
      for i := 0 to |ledger|
        invariant forall j :: 0 <= j < i ==> !T.IsRefundOf(ledger[j], seen.buyer, o)
        invariant unchanged(this)
      {
        if T.IsRefundOf(ledger[i], seen.buyer, o) {
          return false;
        }
      }
      CreditBuyer(o, seen);
      return true;
    }

    // ----- Hourly jobs: select, then deal with each order -----

    method AutoConfirmOrders()
      modifies this
      ensures View() == Passes.Pass(old(View()), ConfirmDelivered, old(orders), |old(orders)|, {})
      ensures Passes.LeavesNoneDue(old(View()), ConfirmDelivered, View())
      ensures Passes.Safe(old(View())) ==> Passes.Safe(View())
    {
      var start, selected := now, orders;
      for o := 0 to |selected|
        invariant View() == Passes.Pass(old(View()), ConfirmDelivered, selected, o, {}) && now == start
      {
        Passes.OneByOne(View(), o, selected[o], T.EnterHold, T.FinalizeEscrow);
        if ConfirmDue(selected[o], start) {
          var count := EnterHold(o);
          if hold == 0 {
            count := FinalizeEscrow(o);
          }
        }
      }
      Passes.PassLeavesNoneDue(old(View()), ConfirmDelivered, {});
      if Passes.Safe(old(View())) {
        Passes.PassIsSafe(old(View()), ConfirmDelivered, |selected|, {});
      }
    }

    method ReleaseHeldEscrow()
      modifies this
      ensures View() == Passes.Pass(old(View()), ReleaseHeld, old(orders), |old(orders)|, {})
      ensures Passes.LeavesNoneDue(old(View()), ReleaseHeld, View())
      ensures Passes.Safe(old(View())) ==> Passes.Safe(View())
    {
      var start, selected := now, orders;
      for o := 0 to |selected|
        invariant View() == Passes.Pass(old(View()), ReleaseHeld, selected, o, {}) && now == start
      {
        Passes.OneAct(View(), o, T.FinalizeEscrow);
        if ReleaseDue(selected[o], start) {
          var count := FinalizeEscrow(o);
        }
      }
      Passes.PassLeavesNoneDue(old(View()), ReleaseHeld, {});
      if Passes.Safe(old(View())) {
        Passes.PassIsSafe(old(View()), ReleaseHeld, |selected|, {});
      }
    }

    method AutoCancelUnshippedOrders(refunded: set<nat>)
      modifies this
      ensures View() == Passes.Pass(old(View()), CancelUnshipped, old(orders), |old(orders)|, refunded)
      ensures Passes.LeavesNoneDue(old(View()), CancelUnshipped, View())
      ensures Passes.Safe(old(View())) ==> Passes.Safe(View())
    {
      var start, selected := now, orders;
      for o := 0 to |selected|
        invariant View() == Passes.Pass(old(View()), CancelUnshipped, selected, o, refunded) && now == start
      {
        var refundedToSource := selected[o].payment.Some? && o in refunded;
        Passes.OneAct(View(), o, T.AutoCancel(selected[o], refundedToSource));
        if CancelDue(selected[o], start) {
          var cancelled := AutoCancel(o, selected[o], refundedToSource);
        }
      }
      Passes.PassLeavesNoneDue(old(View()), CancelUnshipped, refunded);
      if Passes.Safe(old(View())) {
        Passes.PassIsSafe(old(View()), CancelUnshipped, |selected|, refunded);
      }
    }

    method EscalateStuckShipments()
      modifies this
      ensures View() == Passes.Pass(old(View()), EscalateShipments, old(orders), |old(orders)|, {})
      ensures Passes.LeavesNoneDue(old(View()), EscalateShipments, View())
      ensures Passes.Safe(old(View())) ==> Passes.Safe(View())
    {
      var start, selected := now, orders;
      for o := 0 to |selected|
        invariant View() == Passes.Pass(old(View()), EscalateShipments, selected, o, {}) && now == start
      {
        Passes.OneAct(View(), o, T.EscalateStuck);
        if EscalateDue(selected[o], start) {
          var count := EscalateStuck(o);
        }
      }
      Passes.PassLeavesNoneDue(old(View()), EscalateShipments, {});
      if Passes.Safe(old(View())) {
        Passes.PassIsSafe(old(View()), EscalateShipments, |selected|, {});
      }
    }

    // ----- Promotions -----

    method SpendBalance(user: nat, price: nat) returns (paid: bool)
      modifies this`wallets, this`ledger
      ensures View() == T.SpendBalance(old(View()), user, price)
    {
      if !(user in wallets && wallets[user].balance >= price) {
        return false;
      }
      MoveMoney(user, 0, 0 - price);
      InsertLedgerRow(user, Debit, 0 - price, None);
      return true;
    }

    // ----- Sellers' edits and listing jobs -----

    method AddListing(seller: nat, price: nat, weight: nat) returns (l: nat)
      modifies this`listings
      ensures View() == T.AddListing(old(View()), seller, price, weight)
      ensures l == |old(listings)|
    {
      l := |listings|;
      listings := listings + [Listing(seller, Active, price, weight)];
    }

    /** All checks are on `seen`, the listing as read before; the write is unconditional. */
    method EditListing(l: nat, seen: Listing, to: Option<ListingStatus>, price: nat) returns (edited: bool)
      modifies this`listings
      ensures edited <==> seen.status != Deleted && seen.status != Sold && to != Some(Deleted) && to != Some(Suspended)
      ensures View() == if edited then T.WriteListing(old(View()), T.Edit(to, price), l) else old(View())
    {
      if seen.status == Deleted || seen.status == Sold || to == Some(Deleted) || to == Some(Suspended) {
        return false;
      }
      if to.Some? {
        UpdateListingStatus(l, to.value);
      }
      if l < |listings| {
        listings := listings[l := listings[l].(price := price)];
      }
      return true;
    }

    /** With no sale between the count of open orders and the write. */
    method RemoveListing(l: nat) returns (removed: bool)
      modifies this`listings
      ensures removed <==> l < |old(listings)| && !T.HasOpenOrder(old(View()), l)
      ensures View() == if removed then T.WriteListing(old(View()), T.Remove, l) else old(View())
    {
      if l >= |listings| {
        return false;
      }
      for o := 0 to |orders|
        invariant unchanged(this)
        invariant forall p :: 0 <= p < o ==> orders[p].listing != l || Terminal(orders[p].status)
      {
        if orders[o].listing == l && !Terminal(orders[o].status) {
          return false;
        }
      }
      UpdateListingStatus(l, Deleted);
      return true;
    }

    // ----- Account deletion: two updateMany statements in one transaction -----

    method DeleteAccount(u: nat)
      modifies this`orders, this`listings
      ensures View() == T.DeleteAccount(old(View()), u)
    {
      for l := 0 to |listings|
        invariant |listings| == |old(listings)| && orders == old(orders)
        invariant forall k :: 0 <= k < |listings| ==>
          listings[k] == if k < l then T.Delisted(old(listings), u)[k] else old(listings)[k]
      {
        if listings[l].seller == u && (listings[l].status == Active || listings[l].status == Paused) {
          UpdateListingStatus(l, Deleted);
        }
      }
      for o := 0 to |orders|
        invariant |orders| == |old(orders)| && listings == T.Delisted(old(listings), u)
        invariant forall p :: 0 <= p < |orders| ==>
          orders[p] == if p < o then T.Unbought(old(orders), u)[p] else old(orders)[p]
      {
        if orders[o].buyer == u {
          var count := ClaimOrder(o, Pending, orders[o].(status := Cancelled));
        }
      }
    }

    // ----- Bundles -----

    /** All checks are on `seen`, the bundle as read before; only the deletion is on the row. */
    method RemoveBundleItem(b: nat, l: nat, seen: Bundle) returns (removed: bool)
      modifies this`bundles
      ensures removed <==>
        seen.status == Collecting && l in seen.items && |seen.items| > 2 && b < |old(bundles)|
          && l in old(bundles)[b].items
      ensures View() == if removed then T.RemoveBundleItem(old(View()), b, l) else old(View())
    {
      if seen.status != Collecting || l !in seen.items || |seen.items| <= 2 {
        return false;
      }
      if b >= |bundles| || l !in bundles[b].items {
        return false;
      }
      var kept := ItemsWithout(bundles[b].items, l);
      bundles := bundles[b := bundles[b].(items := kept)];
      return true;
    }

    static method ItemsWithout(items: seq<nat>, l: nat) returns (kept: seq<nat>)
      ensures kept == T.Without(items, l)
    {
      kept := [];
      for i := 0 to |items|
        invariant kept + T.Without(items[i..], l) == T.Without(items, l)
      {
        var rest := items[i + 1..];
        assert items[i..] == [items[i]] + rest;
        var head := if items[i] == l then [] else [items[i]];
        assert T.Without(items[i..], l) == head + T.Without(rest, l);
        assert kept + (head + T.Without(rest, l)) == (kept + head) + T.Without(rest, l);
        kept := kept + head;
      }
      assert items[|items|..] == [] && kept + [] == kept;
    }
  }
}
