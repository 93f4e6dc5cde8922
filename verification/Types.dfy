/** The rows of the marketplace database that the order, escrow, dispute and listing services share.
    Money is in whole cents and time in whole seconds. Ids are the positions of rows in append-only tables. */
module Types {
  import opened Basics

  datatype OrderStatus =
    | Pending | Paid | Shipped | Delivered | Held | Completed | Cancelled | Disputed | Refunded

  datatype RefundMethod = OriginalPayment | WalletCredit

  datatype DisputeStatus = Open | Resolved

  /** `dispute` and `snapshot` are the order's rows in the dispute and listing-snapshot tables, which hold at most
      one row an order. `paidAt` is a history variable: the moment the order became Paid. It is not a column and
      no transaction reads it. */
  datatype Order = Order(
    buyer: nat, seller: nat, listing: nat, status: OrderStatus,
    total: nat, item: nat, shipping: nat, fee: nat, discount: nat, payment: Option<nat>,
    refundMethod: Option<RefundMethod>,
    dispute: Option<DisputeStatus>, snapshot: bool,
    createdAt: int, paidAt: Option<int>, shippedAt: Option<int>, deliveredAt: Option<int>,
    confirmedAt: Option<int>, disputeDeadline: Option<int>, escrowReleasesAt: Option<int>)

  datatype ListingStatus = Active | Paused | Sold | Deleted | Suspended

  datatype Listing = Listing(seller: nat, status: ListingStatus, price: nat, weight: nat)

  datatype Wallet = Wallet(balance: int, pending: int)

  datatype LedgerKind = EscrowHold | EscrowRelease | Refund | Debit

  datatype LedgerRow = LedgerRow(user: nat, kind: LedgerKind, amount: int, order: Option<nat>)

  datatype BundleStatus = Collecting | CheckedOut

  datatype Bundle = Bundle(buyer: nat, seller: nat, items: seq<nat>, status: BundleStatus)

  /** One bundle item as the checkout's first read saw it. */
  datatype Item = Item(listing: nat, seen: Listing)

  /** `hold` is the configured length of the escrow hold window. */
  datatype Db = Db(
    now: int, hold: nat,
    orders: seq<Order>, listings: seq<Listing>, bundles: seq<Bundle>,
    wallets: map<nat, Wallet>, ledger: seq<LedgerRow>, nextPayment: nat)

  const DISPUTE_WINDOW: int := 5 * DAY
  const SHIPPING_DEADLINE: int := 5 * DAY
  const SHIPPED_STUCK: int := 30 * DAY
  const PAYMENT_TIMEOUT: int := 24 * HOUR

  /** The statuses in which the seller's item price sits in `pending`. */
  predicate InEscrow(s: OrderStatus) {
    s == Paid || s == Shipped || s == Delivered || s == Held || s == Disputed
  }

  predicate Terminal(s: OrderStatus) {
    s == Completed || s == Cancelled || s == Refunded
  }

  function PendingOf(w: map<nat, Wallet>, u: nat): int {
    if u in w then w[u].pending else 0
  }

  function BalanceOf(w: map<nat, Wallet>, u: nat): int {
    if u in w then w[u].balance else 0
  }
}
