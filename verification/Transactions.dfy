/** What each database transaction does to the whole database, as a function of the state it commits on and of
    the row `seen` that the service read, unlocked, some time before. A lost claim leaves the database alone. */
module Transactions {
  import opened Basics
  import opened Types
  import Pricing

  // ----- Row writes -----

  function Put(db: Db, o: nat, row: Order): (r: Db)
    requires o < |db.orders|
  {
    db.(orders := db.orders[o := row])
  }

  /** Upsert the wallet, then increment both amounts. */
  function Pay(db: Db, u: nat, pending: int, balance: int): Db {
    db.(wallets := db.wallets[u := Wallet(BalanceOf(db.wallets, u) + balance, PendingOf(db.wallets, u) + pending)])
  }

  function Log(db: Db, u: nat, kind: LedgerKind, amount: int, o: Option<nat>): Db {
    db.(ledger := db.ledger + [LedgerRow(u, kind, amount, o)])
  }

  function SetListing(db: Db, l: nat, s: ListingStatus): Db {
    if l < |db.listings| then db.(listings := db.listings[l := db.listings[l].(status := s)]) else db
  }

  // ----- Checkout -----

  function NewOrder(db: Db, buyer: nat, seller: nat, l: nat, item: nat, q: Pricing.Quote): Order {
    Order(buyer, seller, l, if q.free then Paid else Pending,
      q.total, item, q.shipping, q.fee, q.discount, None, None, None, true,
      db.now, if q.free then Some(db.now) else None, None, None, None, None, None)
  }

  function CreateOrder(db: Db, buyer: nat, l: nat, seen: Listing, coupon: Option<nat>): Db {
    if l < |db.listings| && db.listings[l].status == Active then
      var q := Pricing.QuoteOrder(seen.price, seen.weight, coupon);
      var o := |db.orders|;
      var sold := SetListing(db, l, Sold).(
        orders := db.orders + [NewOrder(db, buyer, seen.seller, l, seen.price, q)]);
      if q.free then Log(Pay(sold, seen.seller, seen.price, 0), seen.seller, EscrowHold, seen.price, Some(o)) else sold
    else db
  }

  /** The bundle checkout's claim loop: each item in turn must still be Active, and becomes Sold. */
  function ClaimAll(listings: seq<Listing>, items: seq<Item>): Option<seq<Listing>>
    decreases |items|
  {
    if |items| == 0 then Some(listings)
    else if items[0].listing < |listings| && listings[items[0].listing].status == Active then
      ClaimAll(listings[items[0].listing := listings[items[0].listing].(status := Sold)], items[1..])
    else None
  }

  function MaxWeight(items: seq<Item>): nat {
    if |items| == 0 then 0 else
      var rest := MaxWeight(items[1..]);
      if rest < items[0].seen.weight then items[0].seen.weight else rest
  }

  function BundleOrder(db: Db, bundle: Bundle, items: seq<Item>, i: nat): Order
    requires i < |items|
  {
    NewOrder(db, bundle.buyer, bundle.seller, items[i].listing, items[i].seen.price,
             Pricing.QuoteBundled(items[i].seen.price, Pricing.Shipping(MaxWeight(items)), |items|))
  }

  function BundleOrders(db: Db, bundle: Bundle, items: seq<Item>): (r: seq<Order>)
    ensures |r| == |items|
  {
    seq(|items|, i requires 0 <= i < |items| => BundleOrder(db, bundle, items, i))
  }

  function CheckoutBundle(db: Db, b: nat, items: seq<Item>): Db {
    if b < |db.bundles| && db.bundles[b].status == Collecting then
      match ClaimAll(db.listings, items)
      case None => db
      case Some(sold) =>
        db.(bundles := db.bundles[b := db.bundles[b].(status := CheckedOut)],
            listings := sold,
            orders := db.orders + BundleOrders(db, db.bundles[b], items))
    else db
  }

  // ----- One order's life: what each transaction claims and writes on the order, and what else it writes -----

  /** `seen` is the copy of the order that the service read before its transaction; `toSource` says whether the
      provider refund attempted in between succeeded. */
  datatype Act =
    | AttachPayment(id: nat)
    | Settle(seen: Order)
    | CancelByBuyer(seen: Order)
    | CancelStalePending(seen: Order)
    | CancelOnDeletion(u: nat)
    | AutoCancel(seen: Order, toSource: bool)
    | MarkShipped
    | MarkDelivered
    | EnterHold
    | FinalizeEscrow
    | ForceHold
    | OpenDispute
    | EscalateStuck
    | Resolve(seen: Order, refund: bool)

  /** The order as the transaction leaves it, or None if its claim is lost. */
  function Claim(row: Order, now: int, hold: nat, act: Act): Option<Order> {
    match act
    case AttachPayment(id) => if row.status == Pending then Some(row.(payment := Some(id))) else None
    case Settle(_) => if row.status == Pending then Some(row.(status := Paid, paidAt := Some(now))) else None
    case CancelByBuyer(_) => if row.status == Pending then Some(row.(status := Cancelled, snapshot := false)) else None
    case CancelStalePending(_) =>
      if row.status == Pending then Some(row.(status := Cancelled, snapshot := false)) else None
    // Deleting the buyer's account purges no snapshot and leaves the listing as it is.
    case CancelOnDeletion(u) =>
      if row.buyer == u && row.status == Pending then Some(row.(status := Cancelled)) else None
    case AutoCancel(_, toSource) =>
      if row.status == Paid && row.shippedAt == None then
        Some(row.(status := Cancelled, snapshot := false,
                  refundMethod := Some(if toSource then OriginalPayment else WalletCredit)))
      else None
    case MarkShipped => if row.status == Paid then Some(row.(status := Shipped, shippedAt := Some(now))) else None
    case MarkDelivered =>
      if row.status == Shipped then
        Some(row.(status := Delivered, deliveredAt := Some(now), disputeDeadline := Some(now + DISPUTE_WINDOW)))
      else None
    case EnterHold =>
      if row.status == Delivered then
        Some(row.(status := Held, confirmedAt := Some(now), escrowReleasesAt := Some(now + hold)))
      else None
    case FinalizeEscrow =>
      if row.status == Held then
        Some(row.(status := Completed, confirmedAt := Some(now), escrowReleasesAt := None, snapshot := false))
      else None
    // The administrator's re-hold checks the status but has a window of its own and restores no snapshot.
    case ForceHold =>
      if row.status == Completed then Some(row.(status := Held, escrowReleasesAt := Some(now + 2 * DAY))) else None
    case OpenDispute =>
      if row.status == Delivered && row.dispute == None then
        Some(row.(status := Disputed, dispute := Some(Open)))
      else None
    case EscalateStuck =>
      if row.status == Shipped then
        Some(row.(status := Disputed, dispute := if row.dispute == None then Some(Open) else row.dispute))
      else None
    // Resolving claims the dispute, and overwrites the order's status whatever it is.
    case Resolve(_, refund) =>
      if row.dispute == Some(Open) then
        var claimed := row.(dispute := Some(Resolved), snapshot := false);
        Some(if refund then claimed.(status := Refunded) else claimed.(status := Completed, confirmedAt := Some(now)))
      else None
  }

  /** The writes that follow a won claim. */
  function After(db: Db, o: nat, row: Order, act: Act): Db {
    match act
    case AttachPayment(id) => db.(nextPayment := id + 1)
    case Settle(seen) => Log(Pay(db, seen.seller, seen.item, 0), seen.seller, EscrowHold, seen.item, Some(o))
    case CancelByBuyer(seen) =>
      if seen.listing < |db.listings| && db.listings[seen.listing].status == Sold
      then SetListing(db, seen.listing, Active) else db
    case CancelStalePending(seen) => SetListing(db, seen.listing, Active)
    case AutoCancel(seen, toSource) =>
      var reversed := if seen.seller in db.wallets then Reverse(db, o, seen) else db;
      SetListing(if toSource then reversed else CreditBuyer(reversed, o, seen), seen.listing, Active)
    case FinalizeEscrow => Release(db, o, row)
    case ForceHold => Pay(db, row.seller, row.item, 0 - row.item)
    case Resolve(seen, refund) => if refund then Reverse(db, o, seen) else Release(db, o, seen)
    case _ => db
  }

  function Reverse(db: Db, o: nat, deal: Order): Db {
    Log(Pay(db, deal.seller, 0 - deal.item, 0), deal.seller, EscrowRelease, 0 - deal.item, Some(o))
  }

  function Release(db: Db, o: nat, deal: Order): Db {
    Log(Pay(db, deal.seller, 0 - deal.item, deal.item), deal.seller, EscrowRelease, deal.item, Some(o))
  }

  function CreditBuyer(db: Db, o: nat, deal: Order): Db {
    Log(Pay(db, deal.buyer, 0, deal.total), deal.buyer, Refund, deal.total, Some(o))
  }

  function Perform(db: Db, o: nat, act: Act): Db {
    if o < |db.orders| then
      match Claim(db.orders[o], db.now, db.hold, act)
      case None => db
      case Some(row) => After(Put(db, o, row), o, row, act)
    else db
  }

  predicate IsRefundOf(row: LedgerRow, buyer: nat, o: nat) {
    row.user == buyer && row.order == Some(o) && row.kind == Refund
  }

  predicate HasRefund(ledger: seq<LedgerRow>, buyer: nat, o: nat) {
    exists i :: 0 <= i < |ledger| && IsRefundOf(ledger[i], buyer, o)
  }

  /** The wallet credit after a buyer-wins resolution whose provider refund was refused. */
  function RefundFallback(db: Db, o: nat, seen: Order): Db {
    if HasRefund(db.ledger, seen.buyer, o) then db
    else CreditBuyer(db, o, seen)
  }

  // ----- Promotions -----

  /** A promotion's debit claims the balance it spends. */
  function SpendBalance(db: Db, u: nat, price: nat): Db {
    if u in db.wallets && db.wallets[u].balance >= price
    then Log(Pay(db, u, 0, 0 - price), u, Debit, 0 - price, None) else db
  }

  // ----- Listings -----

  function AddListing(db: Db, seller: nat, price: nat, weight: nat): Db {
    db.(listings := db.listings + [Listing(seller, Active, price, weight)])
  }

  predicate HasOpenOrder(db: Db, l: nat) {
    exists o :: 0 <= o < |db.orders| && db.orders[o].listing == l && !Terminal(db.orders[o].status)
  }

  /** Services that write a listing without claiming it: whatever they check, they check on an earlier read. */
  datatype ListingWriter =
    | Edit(to: Option<ListingStatus>, price: nat)
    | Remove
    | PauseStale
    | CleanupPaused
    | Suspend
    | Unsuspend
    | RejectImage
    | Hide

  /** The status the writer leaves, if it writes one. */
  function Written(writer: ListingWriter): Option<ListingStatus> {
    match writer
    case Edit(to, _) => to
    case Remove => Some(Deleted)
    case PauseStale => Some(Paused)
    case CleanupPaused => Some(Deleted)
    case Suspend => Some(Suspended)
    case Unsuspend => Some(Active)
    case RejectImage => Some(Suspended)
    case Hide => Some(Deleted)
  }

  function WriteListing(db: Db, writer: ListingWriter, l: nat): Db {
    var written := match Written(writer) case None => db case Some(s) => SetListing(db, l, s);
    if writer.Edit? && l < |db.listings|
    then written.(listings := written.listings[l := written.listings[l].(price := writer.price)]) else written
  }

  /** Bulk writers (a ban, vacations, account deletion) write only rows that have the expected status by then. */
  function ClaimListing(db: Db, l: nat, expected: ListingStatus, s: ListingStatus): Db {
    if l < |db.listings| && db.listings[l].status == expected then SetListing(db, l, s) else db
  }

  // ----- Account deletion -----

  function Unbought(orders: seq<Order>, u: nat): (r: seq<Order>)
    ensures |r| == |orders|
  {
    seq(|orders|, o requires 0 <= o < |orders| =>
      if orders[o].buyer == u && orders[o].status == Pending then orders[o].(status := Cancelled) else orders[o])
  }

  function Delisted(listings: seq<Listing>, u: nat): (r: seq<Listing>)
    ensures |r| == |listings|
  {
    seq(|listings|, l requires 0 <= l < |listings| =>
      if listings[l].seller == u && (listings[l].status == Active || listings[l].status == Paused)
      then listings[l].(status := Deleted) else listings[l])
  }

  /** What deleting u's account does to orders and listings, in one transaction. */
  function DeleteAccount(db: Db, u: nat): Db {
    db.(orders := Unbought(db.orders, u), listings := Delisted(db.listings, u))
  }

  // ----- Bundles -----

  function AddBundle(db: Db, buyer: nat, seller: nat, items: seq<nat>): Db {
    db.(bundles := db.bundles + [Bundle(buyer, seller, items, Collecting)])
  }

  /** The bundle's status and its number of items were checked on the earlier read alone. */
  function RemoveBundleItem(db: Db, b: nat, l: nat): Db {
    if b < |db.bundles| then db.(bundles := db.bundles[b := db.bundles[b].(items := Without(db.bundles[b].items, l))])
    else db
  }

  function Without(items: seq<nat>, l: nat): seq<nat> {
    if |items| == 0 then [] else (if items[0] == l then [] else [items[0]]) + Without(items[1..], l)
  }

  // ----- All transactions -----

  datatype Tx =
    | CreateOrderTx(buyer: nat, l: nat, listing: Listing, coupon: Option<nat>)
    | CheckoutBundleTx(b: nat, items: seq<Item>)
    | OrderTx(o: nat, act: Act)
    | RefundFallbackTx(o: nat, seen: Order)
    | SpendBalanceTx(u: nat, price: nat)
    | AddListingTx(seller: nat, price: nat, weight: nat)
    | WriteListingTx(writer: ListingWriter, l: nat)
    | ClaimListingTx(l: nat, expected: ListingStatus, status: ListingStatus)
    | AddBundleTx(buyer: nat, seller: nat, ids: seq<nat>)
    | RemoveBundleItemTx(b: nat, l: nat)

  function Exec(db: Db, tx: Tx): Db {
    match tx
    case CreateOrderTx(buyer, l, seen, coupon) => CreateOrder(db, buyer, l, seen, coupon)
    case CheckoutBundleTx(b, items) => CheckoutBundle(db, b, items)
    case OrderTx(o, act) => Perform(db, o, act)
    case RefundFallbackTx(o, seen) => RefundFallback(db, o, seen)
    case SpendBalanceTx(u, price) => SpendBalance(db, u, price)
    case AddListingTx(seller, price, weight) => AddListing(db, seller, price, weight)
    case WriteListingTx(writer, l) => WriteListing(db, writer, l)
    case ClaimListingTx(l, expected, status) => ClaimListing(db, l, expected, status)
    case AddBundleTx(buyer, seller, ids) => AddBundle(db, buyer, seller, ids)
    case RemoveBundleItemTx(b, l) => RemoveBundleItem(db, b, l)
  }
}
