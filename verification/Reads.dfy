/** What survives between a service's unlocked read of a row and the transaction that uses the copy: the fields
    no transaction ever rewrites. */
module Reads {
  import opened Basics
  import opened Types
  import opened Transactions

  predicate SameDeal(a: Order, b: Order) {
    && a.buyer == b.buyer && a.seller == b.seller && a.listing == b.listing
    && a.total == b.total && a.item == b.item && a.shipping == b.shipping && a.fee == b.fee && a.discount == b.discount
    && a.createdAt == b.createdAt
    && (a.status != Pending ==> b.status != Pending && a.payment == b.payment)
  }

  /** The copy still describes order o's deal, and later statuses only followed it. */
  predicate Agrees(db: Db, o: nat, seen: Order) {
    o < |db.orders| && SameDeal(seen, db.orders[o])
  }

  /** Every order row a transaction carries from an earlier read is a copy of a row of this database. Bulk writers of
      listings only expect listings that are on sale or paused. */
  predicate Grounded(db: Db, tx: Tx) {
    match tx
    case OrderTx(o, act) => ActGrounded(db, o, act)
    case RefundFallbackTx(o, seen) => Agrees(db, o, seen)
    case ClaimListingTx(_, expected, _) => expected == Active || expected == Paused
    case _ => true
  }

  predicate ActGrounded(db: Db, o: nat, act: Act) {
    match act
    case AttachPayment(id) => id >= db.nextPayment
    case Settle(seen) => Agrees(db, o, seen)
    case CancelByBuyer(seen) => Agrees(db, o, seen)
    case CancelStalePending(seen) => Agrees(db, o, seen)
    case AutoCancel(seen, toSource) => Agrees(db, o, seen)
    case Resolve(seen, refund) => Agrees(db, o, seen)
    case _ => true
  }

  /** Rows only accumulate, and every deal is kept. */
  ghost predicate Extends(a: Db, b: Db) {
    && |a.orders| <= |b.orders| && |a.listings| <= |b.listings| && |a.bundles| <= |b.bundles|
    && (forall o :: 0 <= o < |a.orders| ==> SameDeal(a.orders[o], b.orders[o]))
    && (forall l :: 0 <= l < |a.listings| ==> a.listings[l].seller == b.listings[l].seller)
    && (forall c :: 0 <= c < |a.bundles| ==>
          a.bundles[c].seller == b.bundles[c].seller && a.bundles[c].buyer == b.bundles[c].buyer)
    && a.hold == b.hold
  }

  lemma SoldHere(items: seq<Item>, l: nat)
    requires |items| > 0
    ensures (exists i :: 0 <= i < |items| && items[i].listing == l)
       <==> l == items[0].listing || exists i :: 0 <= i < |items[1..]| && items[1..][i].listing == l
  {
    if l == items[0].listing {
      assert items[0].listing == l;
    }
    if i :| 0 <= i < |items[1..]| && items[1..][i].listing == l {
      assert items[i + 1].listing == l;
    }
    if i :| 1 <= i < |items| && items[i].listing == l {
      assert items[1..][i - 1].listing == l;
    }
  }

  lemma {:induction false} ClaimAllSells(listings: seq<Listing>, items: seq<Item>)
    requires ClaimAll(listings, items).Some?
    ensures var sold := ClaimAll(listings, items).value;
      && |sold| == |listings|
      && (forall i, j :: 0 <= i < j < |items| ==> items[i].listing != items[j].listing)
      && (forall i :: 0 <= i < |items| ==> items[i].listing < |listings| && listings[items[i].listing].status == Active)
      && (forall l :: 0 <= l < |listings| ==>
            sold[l] == if exists i :: 0 <= i < |items| && items[i].listing == l
                       then listings[l].(status := Sold) else listings[l])
    decreases |items|
  {
    if |items| > 0 {
      var l0 := items[0].listing;
      var next := listings[l0 := listings[l0].(status := Sold)];
      ClaimAllSells(next, items[1..]);
      assert forall i :: 1 <= i < |items| ==> items[i] == items[1..][i - 1];
      var sold := ClaimAll(listings, items).value;
      forall l | 0 <= l < |listings|
        ensures sold[l] == if exists i :: 0 <= i < |items| && items[i].listing == l
                           then listings[l].(status := Sold) else listings[l]
      {
        SoldHere(items, l);
      }
    }
  }

  /** The converse: distinct items that are all Active can all be claimed. */
  lemma {:induction false} ClaimAllWins(listings: seq<Listing>, items: seq<Item>)
    requires forall i, j :: 0 <= i < j < |items| ==> items[i].listing != items[j].listing
    requires forall i :: 0 <= i < |items| ==>
      items[i].listing < |listings| && listings[items[i].listing].status == Active
    ensures ClaimAll(listings, items).Some?
    decreases |items|
  {
    if |items| > 0 {
      var l0 := items[0].listing;
      ClaimAllWins(listings[l0 := listings[l0].(status := Sold)], items[1..]);
    }
  }

  lemma PerformExtends(db: Db, o: nat, act: Act)
    ensures Extends(db, Perform(db, o, act))
  {
    if o < |db.orders| && Claim(db.orders[o], db.now, db.hold, act).Some? {
      ClaimKeepsDeal(db.orders[o], db.now, db.hold, act);
      AfterKeepsRows(Put(db, o, Claim(db.orders[o], db.now, db.hold, act).value), o, act);
    }
  }

  lemma ClaimKeepsDeal(row: Order, now: int, hold: nat, act: Act)
    requires Claim(row, now, hold, act).Some?
    ensures SameDeal(row, Claim(row, now, hold, act).value)
  {
  }

  lemma AfterKeepsRows(db: Db, o: nat, act: Act)
    requires o < |db.orders|
    ensures var next := After(db, o, db.orders[o], act);
      && next.orders == db.orders && next.bundles == db.bundles && next.hold == db.hold && next.now == db.now
      && |next.listings| == |db.listings|
      && forall l :: 0 <= l < |db.listings| ==> next.listings[l] == db.listings[l].(status := next.listings[l].status)
  {
  }

  /** No transaction rewrites a deal, whatever rows it carries. */
  lemma ExecExtends(db: Db, tx: Tx)
    ensures Extends(db, Exec(db, tx))
  {
    match tx {
      case OrderTx(o, act) => PerformExtends(db, o, act);
      case CheckoutBundleTx(b, items) =>
        if ClaimAll(db.listings, items).Some? {
          ClaimAllSells(db.listings, items);
        }
      case _ =>
    }
  }
}
