/** The wallet ledger, in runs without administrators' re-holds (which move money and write no row): every
    balance can be replayed from the rows alone, no balance is ever negative, and each order's escrow is opened
    once and settled once. */
module Ledger {
  import opened Basics
  import opened Types
  import opened Transactions
  import opened Reads
  import Pricing
  import L = Lifecycle

  // ----- Replaying a user's wallet -----

  function PendingEffect(r: LedgerRow): int {
    match r.kind
    case EscrowHold => r.amount
    case EscrowRelease => if r.amount < 0 then r.amount else 0 - r.amount
    case _ => 0
  }

  function BalanceEffect(r: LedgerRow): int {
    match r.kind
    case EscrowHold => 0
    case EscrowRelease => if r.amount > 0 then r.amount else 0
    case _ => r.amount
  }

  function Replay(rows: seq<LedgerRow>, u: nat): Wallet {
    if |rows| == 0 then Wallet(0, 0) else
      var before, r := Replay(rows[..|rows| - 1], u), rows[|rows| - 1];
      if r.user == u
      then Wallet(before.balance + BalanceEffect(r), before.pending + PendingEffect(r))
      else before
  }

  // ----- One order's escrow rows -----

  datatype Tally = Tally(holds: nat, held: int, releases: nat, released: int)

  function Count(t: Tally, r: LedgerRow, o: nat, u: nat): Tally {
    if r.order != Some(o) || r.user != u then t
    else if r.kind == EscrowHold then t.(holds := t.holds + 1, held := t.held + r.amount)
    else if r.kind == EscrowRelease then t.(releases := t.releases + 1, released := t.released + r.amount)
    else t
  }

  function TallyOf(rows: seq<LedgerRow>, o: nat, u: nat): Tally {
    if |rows| == 0 then Tally(0, 0, 0, 0)
    else Count(TallyOf(rows[..|rows| - 1], o, u), rows[|rows| - 1], o, u)
  }

  /** The rows an order's status calls for: one hold of the item price once paid, and one release of it when
      settled, to the seller's balance if completed and reversed otherwise. */
  function Expected(row: Order): Tally {
    match row.status
    case Pending => Tally(0, 0, 0, 0)
    case Completed => Tally(1, row.item, 1, row.item)
    case Refunded => Tally(1, row.item, 1, 0 - row.item)
    case Cancelled => if row.paidAt.Some? then Tally(1, row.item, 1, 0 - row.item) else Tally(0, 0, 0, 0)
    case _ => Tally(1, row.item, 0, 0)
  }

  function Target(orders: seq<Order>, o: nat, u: nat): Tally {
    if o < |orders| && u == orders[o].seller then Expected(orders[o]) else Tally(0, 0, 0, 0)
  }

  predicate WalletOk(db: Db, u: nat) {
    && Replay(db.ledger, u) == Wallet(BalanceOf(db.wallets, u), PendingOf(db.wallets, u))
    && BalanceOf(db.wallets, u) >= 0
  }

  predicate TallyOk(db: Db, o: nat, u: nat) {
    TallyOf(db.ledger, o, u) == Target(db.orders, o, u)
  }

  ghost predicate Inv(db: Db) {
    && (forall u: nat :: WalletOk(db, u))
    && (forall o: nat, u: nat :: TallyOk(db, o, u))
    && (forall o :: 0 <= o < |db.orders| && InEscrow(db.orders[o].status) ==> db.orders[o].seller in db.wallets)
  }

  lemma ReplayLast(rows: seq<LedgerRow>, r: LedgerRow, u: nat)
    ensures Replay(rows + [r], u) ==
      if r.user == u then Wallet(Replay(rows, u).balance + BalanceEffect(r), Replay(rows, u).pending + PendingEffect(r))
      else Replay(rows, u)
  {
    assert (rows + [r])[..|rows|] == rows;
  }

  lemma CountLast(rows: seq<LedgerRow>, r: LedgerRow, o: nat, u: nat)
    ensures TallyOf(rows + [r], o, u) == Count(TallyOf(rows, o, u), r, o, u)
  {
    assert (rows + [r])[..|rows|] == rows;
  }

  /** Paying and logging by the same row keeps the wallets replayable. */
  lemma PostKeeps(db: Db, r: LedgerRow, u: nat)
    requires WalletOk(db, u) && (r.user == u ==> BalanceOf(db.wallets, u) + BalanceEffect(r) >= 0)
    ensures WalletOk(Log(Pay(db, r.user, PendingEffect(r), BalanceEffect(r)), r.user, r.kind, r.amount, r.order), u)
  {
    ReplayLast(db.ledger, r, u);
  }

  lemma ReversePosts(db: Db, o: nat, deal: Order, u: nat)
    requires WalletOk(db, u)
    ensures WalletOk(Reverse(db, o, deal), u)
  {
    PostKeeps(db, LedgerRow(deal.seller, EscrowRelease, 0 - deal.item, Some(o)), u);
  }

  lemma ReleasePosts(db: Db, o: nat, deal: Order, u: nat)
    requires WalletOk(db, u)
    ensures WalletOk(Release(db, o, deal), u)
  {
    PostKeeps(db, LedgerRow(deal.seller, EscrowRelease, deal.item, Some(o)), u);
  }

  lemma CreditPosts(db: Db, o: nat, deal: Order, u: nat)
    requires WalletOk(db, u)
    ensures WalletOk(CreditBuyer(db, o, deal), u)
  {
    PostKeeps(db, LedgerRow(deal.buyer, Refund, deal.total, Some(o)), u);
  }

  lemma UnwindPosts(db: Db, o: nat, row: Order, act: Act, u: nat)
    requires WalletOk(db, u) && act.AutoCancel?
    ensures WalletOk(After(db, o, row, act), u)
  {
    ReversePosts(db, o, act.seen, u);
    var reversed := if act.seen.seller in db.wallets then Reverse(db, o, act.seen) else db;
    assert WalletOk(reversed, u);
    CreditPosts(reversed, o, act.seen, u);
  }

  lemma AfterPosts(db: Db, o: nat, row: Order, act: Act, u: nat)
    requires WalletOk(db, u) && !act.ForceHold?
    ensures WalletOk(After(db, o, row, act), u)
  {
    match act {
      case Settle(seen) => PostKeeps(db, LedgerRow(seen.seller, EscrowHold, seen.item, Some(o)), u);
      case AutoCancel(seen, toSource) => UnwindPosts(db, o, row, act, u);
      case FinalizeEscrow => ReleasePosts(db, o, row, u);
      case Resolve(seen, refund) =>
        ReversePosts(db, o, seen, u);
        ReleasePosts(db, o, seen, u);
      case _ =>
    }
  }

  /** The escrow row that the writes after a won claim add: a hold when paid, a release when settled. */
  function Posted(o: nat, row: Order, act: Act): Option<LedgerRow> {
    match act
    case Settle(seen) => Some(LedgerRow(seen.seller, EscrowHold, seen.item, Some(o)))
    case AutoCancel(seen, _) => Some(LedgerRow(seen.seller, EscrowRelease, 0 - seen.item, Some(o)))
    case FinalizeEscrow => Some(LedgerRow(row.seller, EscrowRelease, row.item, Some(o)))
    case Resolve(seen, refund) =>
      Some(LedgerRow(seen.seller, EscrowRelease, if refund then 0 - seen.item else seen.item, Some(o)))
    case _ => None
  }

  function Counted(t: Tally, posted: Option<LedgerRow>, p: nat, u: nat): Tally {
    match posted case None => t case Some(r) => Count(t, r, p, u)
  }

  lemma AfterCounts(db: Db, o: nat, row: Order, act: Act, p: nat, u: nat)
    requires !act.ForceHold? && (act.AutoCancel? ==> act.seen.seller in db.wallets)
    ensures TallyOf(After(db, o, row, act).ledger, p, u) == Counted(TallyOf(db.ledger, p, u), Posted(o, row, act), p, u)
  {
    if act.AutoCancel? {
      UnwindCounts(db, o, row, act, p, u);
    } else if Posted(o, row, act).Some? {
      CountLast(db.ledger, Posted(o, row, act).value, p, u);
    }
  }

  lemma UnwindCounts(db: Db, o: nat, row: Order, act: Act, p: nat, u: nat)
    requires act.AutoCancel? && act.seen.seller in db.wallets
    ensures TallyOf(After(db, o, row, act).ledger, p, u) == Counted(TallyOf(db.ledger, p, u), Posted(o, row, act), p, u)
  {
    var reversal, credit := Posted(o, row, act).value, LedgerRow(act.seen.buyer, Refund, act.seen.total, Some(o));
    CountLast(db.ledger, reversal, p, u);
    CountLast(db.ledger + [reversal], credit, p, u);
    assert After(db, o, row, act).ledger ==
      if act.toSource then db.ledger + [reversal] else db.ledger + [reversal] + [credit];
  }

  /** The row a claim's earlier read was of, where its writes use it. */
  predicate SeesDeal(act: Act, row: Order) {
    act.Settle? || act.AutoCancel? || act.Resolve? ==> act.seen.seller == row.seller && act.seen.item == row.item
  }

  /** The claim changes the order's expected rows by exactly what the rest of the transaction adds. */
  lemma ClaimExpects(o: nat, row: Order, now: int, hold: nat, act: Act)
    requires L.StrictRowInv(row, now, hold) && !act.ForceHold? && Claim(row, now, hold, act).Some? && SeesDeal(act, row)
    ensures var next := Claim(row, now, hold, act).value;
      Expected(next) == Counted(Expected(row), Posted(o, next, act), o, row.seller)
  {
  }

  /** The claim leaves what its writes rely on. */
  lemma ClaimGrounds(db: Db, o: nat, row: Order, act: Act)
    requires o < |db.orders| && ActGrounded(db, o, act) && Claim(db.orders[o], db.now, db.hold, act) == Some(row)
    requires InEscrow(db.orders[o].status) ==> db.orders[o].seller in db.wallets
    ensures row.seller == db.orders[o].seller && SeesDeal(act, db.orders[o]) && SeesDeal(act, row)
    ensures act.AutoCancel? ==> act.seen.seller in db.wallets
  {
  }

  lemma PerformCounts(db: Db, o: nat, act: Act, p: nat, u: nat)
    requires TallyOk(db, p, u) && ActGrounded(db, o, act) && !act.ForceHold?
    requires o < |db.orders| && L.StrictRowInv(db.orders[o], db.now, db.hold)
    requires InEscrow(db.orders[o].status) ==> db.orders[o].seller in db.wallets
    ensures TallyOk(Perform(db, o, act), p, u)
  {
    match Claim(db.orders[o], db.now, db.hold, act) {
      case None =>
      case Some(row) =>
        L.OnlyOneRow(db, o, act);
        ClaimGrounds(db, o, row, act);
        ClaimExpects(o, db.orders[o], db.now, db.hold, act);
        AfterCounts(Put(db, o, row), o, row, act, p, u);
    }
  }

  lemma AfterKeepsWallets(db: Db, o: nat, row: Order, act: Act)
    ensures db.wallets.Keys <= After(db, o, row, act).wallets.Keys
    ensures act.Settle? ==> act.seen.seller in After(db, o, row, act).wallets
  {
  }

  lemma PerformKeeps(db: Db, o: nat, act: Act)
    requires Inv(db) && ActGrounded(db, o, act) && !act.ForceHold?
    requires o < |db.orders| && L.StrictRowInv(db.orders[o], db.now, db.hold)
    ensures Inv(Perform(db, o, act))
  {
    match Claim(db.orders[o], db.now, db.hold, act) {
      case None =>
      case Some(row) =>
        var put := Put(db, o, row);
        forall u: nat ensures WalletOk(Perform(db, o, act), u) {
          assert WalletOk(db, u) && WalletOk(put, u);
          AfterPosts(put, o, row, act, u);
        }
        forall p: nat, u: nat ensures TallyOk(Perform(db, o, act), p, u) {
          PerformCounts(db, o, act, p, u);
        }
        AfterKeepsWallets(put, o, row, act);
        L.OnlyOneRow(db, o, act);
        assert InEscrow(row.status) ==> InEscrow(db.orders[o].status) || act.Settle?;
    }
  }

  function FirstHold(db: Db, seen: Listing): LedgerRow {
    LedgerRow(seen.seller, EscrowHold, seen.price, Some(|db.orders|))
  }

  lemma CreateCounts(db: Db, buyer: nat, l: nat, seen: Listing, coupon: Option<nat>, o: nat, u: nat)
    requires TallyOk(db, o, u)
    ensures TallyOk(CreateOrder(db, buyer, l, seen, coupon), o, u)
  {
    CountLast(db.ledger, FirstHold(db, seen), o, u);
  }

  lemma CreateKeeps(db: Db, buyer: nat, l: nat, seen: Listing, coupon: Option<nat>)
    requires Inv(db)
    ensures Inv(CreateOrder(db, buyer, l, seen, coupon))
  {
    var next := CreateOrder(db, buyer, l, seen, coupon);
    forall u: nat ensures WalletOk(next, u) {
      assert WalletOk(db, u);
      PostKeeps(db, FirstHold(db, seen), u);
    }
    forall o: nat, u: nat ensures TallyOk(next, o, u) {
      assert TallyOk(db, o, u);
      CreateCounts(db, buyer, l, seen, coupon, o, u);
    }
  }

  /** A row that is neither a hold nor a release moves a balance only. */
  lemma OtherRowKeeps(db: Db, r: LedgerRow)
    requires Inv(db) && (r.kind == Refund || r.kind == Debit) && BalanceOf(db.wallets, r.user) + r.amount >= 0
    ensures Inv(Log(Pay(db, r.user, 0, r.amount), r.user, r.kind, r.amount, r.order))
  {
    var next := Log(Pay(db, r.user, 0, r.amount), r.user, r.kind, r.amount, r.order);
    forall u: nat ensures WalletOk(next, u) {
      assert WalletOk(db, u);
      PostKeeps(db, r, u);
    }
    forall o: nat, u: nat ensures TallyOk(next, o, u) {
      assert TallyOk(db, o, u);
      CountLast(db.ledger, r, o, u);
    }
  }

  lemma CheckoutKeeps(db: Db, b: nat, items: seq<Item>)
    requires Inv(db)
    ensures Inv(CheckoutBundle(db, b, items))
  {
    var next := CheckoutBundle(db, b, items);
    forall u: nat ensures WalletOk(next, u) {
      assert WalletOk(db, u);
    }
    forall o: nat, u: nat ensures TallyOk(next, o, u) {
      assert TallyOk(db, o, u);
    }
  }

  lemma SameBooksKeep(a: Db, b: Db)
    requires Inv(a) && b.orders == a.orders && b.wallets == a.wallets && b.ledger == a.ledger
    ensures Inv(b)
  {
    forall u: nat ensures WalletOk(b, u) {
      assert WalletOk(a, u);
    }
    forall o: nat, u: nat ensures TallyOk(b, o, u) {
      assert TallyOk(a, o, u);
    }
  }

  /** Every transaction but the re-hold keeps it. */
  lemma Keeps(db: Db, tx: Tx)
    requires Inv(db) && L.StrictInv(db) && Grounded(db, tx) && !L.Rehold(tx)
    ensures Inv(Exec(db, tx))
  {
    match tx {
      case OrderTx(o, act) => if o < |db.orders| { PerformKeeps(db, o, act); }
      case CreateOrderTx(buyer, l, seen, coupon) => CreateKeeps(db, buyer, l, seen, coupon);
      case CheckoutBundleTx(b, items) => CheckoutKeeps(db, b, items);
      case RefundFallbackTx(o, seen) =>
        assert WalletOk(db, seen.buyer);
        OtherRowKeeps(db, LedgerRow(seen.buyer, Refund, seen.total, Some(o)));
      case SpendBalanceTx(u, price) =>
        if u in db.wallets && db.wallets[u].balance >= price {
          OtherRowKeeps(db, LedgerRow(u, Debit, 0 - price, None));
        }
      case _ => SameBooksKeep(db, Exec(db, tx));
    }
  }

  /** No order's escrow is paid out twice: over its whole life it is held at most once and released at most once,
      to the seller's balance if the order is Completed and back out of escrow if it is not. */
  lemma EscrowPaidOnce(db: Db, o: nat)
    requires Inv(db) && o < |db.orders|
    ensures var t, row := TallyOf(db.ledger, o, db.orders[o].seller), db.orders[o];
      && t.releases <= t.holds <= 1
      && (InEscrow(row.status) <==> t.holds == 1 && t.releases == 0)
      && (t.releases == 1 ==> t.released == if row.status == Completed then row.item else 0 - row.item)
  {
    assert TallyOk(db, o, db.orders[o].seller);
  }
}
