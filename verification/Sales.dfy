/** A listing is sold to one order at a time, across single and bundle checkout, every cancellation path, and
    everybody who writes listings. Two of the cancellation paths set the listing to Active whatever it was; what
    they overwrite is Sold. Services that write a listing on a stale read are the exception: exactly when they
    break this. */
module Sales {
  import opened Basics
  import opened Types
  import opened Transactions
  import opened Reads

  predicate OffSale(s: ListingStatus) {
    s != Active && s != Paused
  }

  /** o's order no longer stands for a sale. */
  predicate Void(db: Db, o: nat)
    requires o < |db.orders|
  {
    db.orders[o].status == Cancelled
  }

  predicate Unsent(s: OrderStatus) {
    s == Pending || s == Paid
  }

  /** o is an order of l that stands, so l must not have status s. */
  predicate Forbids(db: Db, o: nat, l: nat, s: ListingStatus)
    requires o < |db.orders|
  {
    db.orders[o].listing == l && !Void(db, o) && (!OffSale(s) || (Unsent(db.orders[o].status) && s != Sold))
  }

  /** At most one order of l stands, l is off sale while one does, and Sold while it can still be cancelled. */
  ghost predicate OneSale(db: Db, l: nat) {
    && (forall o :: 0 <= o < |db.orders| && db.orders[o].listing == l && !Void(db, o) ==>
          l < |db.listings| && !Forbids(db, o, l, db.listings[l].status))
    && (forall o, p :: 0 <= o < p < |db.orders| && db.orders[o].listing == l && db.orders[p].listing == l ==>
          Void(db, o) || Void(db, p))
  }

  ghost predicate Inv(db: Db) {
    forall l: nat :: OneSale(db, l)
  }

  /** One order may be cancelled, or lose nothing it forbade; the listing may change only with the cancellation. */
  lemma OneRowChanges(a: Db, b: Db, o: nat, l: nat)
    requires OneSale(a, l) && o < |a.orders| == |b.orders| && b.orders == a.orders[o := b.orders[o]]
    requires |b.listings| == |a.listings| && b.orders[o].listing == a.orders[o].listing
    requires !Void(b, o) ==> !Void(a, o) && (Unsent(b.orders[o].status) ==> Unsent(a.orders[o].status))
    requires l < |a.listings| && b.listings[l].status != a.listings[l].status ==>
      a.orders[o].listing == l && !Void(a, o) && Void(b, o)
    ensures OneSale(b, l)
  {
    forall p | 0 <= p < |b.orders| && b.orders[p].listing == l && !Void(b, p)
      ensures l < |b.listings| && !Forbids(b, p, l, b.listings[l].status)
    {
      assert !Void(a, p);
      assert p < o && a.orders[o].listing == l ==> Void(a, o);
      assert o < p && a.orders[o].listing == l ==> Void(a, o);
    }
    forall p, q | 0 <= p < q < |b.orders| && b.orders[p].listing == l && b.orders[q].listing == l
      ensures Void(b, p) || Void(b, q)
    {
      assert Void(a, p) || Void(a, q);
    }
  }

  /** What a won claim and its writes do to an order and to the listings. */
  lemma PerformChanges(db: Db, o: nat, act: Act, l: nat)
    requires o < |db.orders| && ActGrounded(db, o, act)
    requires db.orders[o].dispute == Some(Open) ==> db.orders[o].status == Disputed
    ensures var next := Perform(db, o, act);
      && |next.orders| == |db.orders| && next.orders == db.orders[o := next.orders[o]]
      && next.orders[o].listing == db.orders[o].listing && |next.listings| == |db.listings|
      && (Void(db, o) ==> Void(next, o)) && (Unsent(next.orders[o].status) ==> Unsent(db.orders[o].status))
      && (l < |db.listings| && next.listings[l].status != db.listings[l].status ==>
            db.orders[o].listing == l && !Void(db, o) && Void(next, o))
  {
    if Claim(db.orders[o], db.now, db.hold, act).Some? {
      AfterKeepsRows(Put(db, o, Claim(db.orders[o], db.now, db.hold, act).value), o, act);
    }
  }

  lemma PerformKeeps(db: Db, o: nat, act: Act, l: nat)
    requires OneSale(db, l) && ActGrounded(db, o, act)
    requires o < |db.orders| && (db.orders[o].dispute == Some(Open) ==> db.orders[o].status == Disputed)
    ensures OneSale(Perform(db, o, act), l)
  {
    PerformChanges(db, o, act, l);
    OneRowChanges(db, Perform(db, o, act), o, l);
  }

  /** The new orders of b are for distinct listings that were on sale and are now Sold. */
  ghost predicate Sells(a: Db, b: Db) {
    && |a.orders| <= |b.orders| && |a.listings| == |b.listings|
    && (forall o :: 0 <= o < |a.orders| ==> b.orders[o] == a.orders[o])
    && (forall o :: |a.orders| <= o < |b.orders| ==>
          var l := b.orders[o].listing;
          l < |a.listings| && a.listings[l].status == Active && b.listings[l].status == Sold)
    && (forall o, p :: |a.orders| <= o < p < |b.orders| ==> b.orders[o].listing != b.orders[p].listing)
    && (forall k :: 0 <= k < |a.listings| ==> b.listings[k] == a.listings[k] || b.listings[k].status == Sold)
  }

  lemma SellsKeeps(a: Db, b: Db, l: nat)
    requires OneSale(a, l) && Sells(a, b)
    ensures OneSale(b, l)
  {
    forall o | 0 <= o < |b.orders| && b.orders[o].listing == l && !Void(b, o)
      ensures l < |b.listings| && !Forbids(b, o, l, b.listings[l].status)
    {
      if o < |a.orders| {
        assert !Void(a, o) && !Forbids(a, o, l, a.listings[l].status);
      }
    }
    forall o, p | 0 <= o < p < |b.orders| && b.orders[o].listing == l && b.orders[p].listing == l
      ensures Void(b, o) || Void(b, p)
    {
      if p < |a.orders| {
        assert Void(a, o) || Void(a, p);
      } else {
        assert o < |a.orders| ==> Void(a, o);
      }
    }
  }

  lemma CheckoutSells(db: Db, b: nat, items: seq<Item>)
    ensures var next := CheckoutBundle(db, b, items); next.orders != db.orders ==> Sells(db, next)
  {
    var next := CheckoutBundle(db, b, items);
    if next.orders != db.orders {
      ClaimAllSells(db.listings, items);
      var n := |db.orders|;
      forall o | n <= o < |next.orders|
        ensures next.orders[o].listing == items[o - n].listing
      {
        assert next.orders[o] == BundleOrders(db, db.bundles[b], items)[o - n];
      }
    }
  }

  lemma CheckoutKeeps(db: Db, b: nat, items: seq<Item>, l: nat)
    requires OneSale(db, l)
    ensures OneSale(CheckoutBundle(db, b, items), l)
  {
    var next := CheckoutBundle(db, b, items);
    if next.orders != db.orders {
      CheckoutSells(db, b, items);
      SellsKeeps(db, next, l);
    } else {
      assert next.listings == db.listings;
    }
  }

  lemma CreateKeeps(db: Db, buyer: nat, k: nat, seen: Listing, coupon: Option<nat>, l: nat)
    requires OneSale(db, l)
    ensures OneSale(CreateOrder(db, buyer, k, seen, coupon), l)
  {
    var next := CreateOrder(db, buyer, k, seen, coupon);
    if next.orders != db.orders {
      SellsKeeps(db, next, l);
    }
  }

  // ----- Writes of listings alone -----

  /** With no order changed, it is kept exactly when no standing order forbids the listing's new status. */
  lemma ListingKeepsIff(a: Db, b: Db, l: nat)
    requires OneSale(a, l) && b.orders == a.orders && |b.listings| >= |a.listings|
    ensures OneSale(b, l) <==>
      forall o :: 0 <= o < |a.orders| && l < |a.listings| ==> !Forbids(a, o, l, b.listings[l].status)
  {
    forall o, p | 0 <= o < p < |b.orders| && b.orders[o].listing == l && b.orders[p].listing == l
      ensures Void(b, o) || Void(b, p)
    {
      assert Void(a, o) || Void(a, p);
    }
    forall o | 0 <= o < |a.orders|
      ensures l < |a.listings| ==> Forbids(b, o, l, b.listings[l].status) == Forbids(a, o, l, b.listings[l].status)
      ensures a.orders[o].listing == l && !Void(a, o) ==> l < |a.listings|
    {
    }
  }

  /** The transaction writes l, unclaimed, to a status that a standing order of l forbids. */
  predicate Overwrites(db: Db, tx: Tx, l: nat) {
    && tx.WriteListingTx? && tx.l == l && l < |db.listings| && Written(tx.writer).Some?
    && exists o :: 0 <= o < |db.orders| && Forbids(db, o, l, Written(tx.writer).value)
  }

  lemma WriteKeepsIff(db: Db, writer: ListingWriter, k: nat, l: nat)
    requires OneSale(db, l)
    ensures OneSale(WriteListing(db, writer, k), l) <==> !Overwrites(db, WriteListingTx(writer, k), l)
  {
    ListingKeepsIff(db, WriteListing(db, writer, k), l);
  }

  lemma ClaimKeeps(db: Db, k: nat, expected: ListingStatus, s: ListingStatus, l: nat)
    requires OneSale(db, l) && !OffSale(expected)
    ensures OneSale(ClaimListing(db, k, expected, s), l)
  {
    ListingKeepsIff(db, ClaimListing(db, k, expected, s), l);
  }

  /** Of all transactions, whatever stale copies they carry, only an unclaimed write of the listing breaks it, and only
      by writing a status that a standing order forbids. */
  lemma KeepsIff(db: Db, tx: Tx, l: nat)
    requires OneSale(db, l) && Grounded(db, tx)
    requires forall o :: 0 <= o < |db.orders| && db.orders[o].dispute == Some(Open) ==> db.orders[o].status == Disputed
    ensures OneSale(Exec(db, tx), l) <==> !Overwrites(db, tx, l)
  {
    match tx {
      case OrderTx(o, act) => if o < |db.orders| { PerformKeeps(db, o, act, l); }
      case CreateOrderTx(buyer, k, seen, coupon) => CreateKeeps(db, buyer, k, seen, coupon, l);
      case CheckoutBundleTx(b, items) => CheckoutKeeps(db, b, items, l);
      case WriteListingTx(writer, k) => WriteKeepsIff(db, writer, k, l);
      case ClaimListingTx(k, expected, s) => ClaimKeeps(db, k, expected, s, l);
      case _ => ListingKeepsIff(db, Exec(db, tx), l);
    }
  }

  predicate Cancels(act: Act) {
    act.CancelByBuyer? || act.CancelStalePending? || act.AutoCancel?
  }

  /** A cancellation that wins its claim finds the listing Sold, to this order and to no other, and puts it back
      on sale. */
  lemma ReactivationIsSound(db: Db, o: nat, act: Act)
    requires ActGrounded(db, o, act) && Cancels(act)
    requires o < |db.orders| && OneSale(db, db.orders[o].listing)
    requires Claim(db.orders[o], db.now, db.hold, act).Some?
    ensures var l := db.orders[o].listing; var next := Perform(db, o, act);
      && l < |db.listings| && db.listings[l].status == Sold
      && next.listings == db.listings[l := db.listings[l].(status := Active)]
      && (forall p :: 0 <= p < |next.orders| && next.orders[p].listing == l ==> Void(next, p))
  {
    assert !Void(db, o) && !Forbids(db, o, db.orders[o].listing, db.listings[db.orders[o].listing].status);
    forall p | 0 <= p < |db.orders| && p != o && db.orders[p].listing == db.orders[o].listing
      ensures Void(db, p)
    {
      assert p < o || o < p;
    }
  }

  /** Distinct listings, all still on sale. */
  predicate AllOnSale(listings: seq<Listing>, items: seq<Item>) {
    && (forall i, j :: 0 <= i < j < |items| ==> items[i].listing != items[j].listing)
    && (forall i :: 0 <= i < |items| ==> items[i].listing < |listings| && listings[items[i].listing].status == Active)
  }

  lemma ClaimAllIffOnSale(listings: seq<Listing>, items: seq<Item>)
    ensures ClaimAll(listings, items).Some? <==> AllOnSale(listings, items)
    ensures ClaimAll(listings, items).Some? ==>
      var sold := ClaimAll(listings, items).value;
      && |sold| == |listings|
      && (forall i :: 0 <= i < |items| ==> sold[items[i].listing].status == Sold)
      && (forall l :: 0 <= l < |listings| && (forall i :: 0 <= i < |items| ==> items[i].listing != l) ==>
           sold[l] == listings[l])
  {
    if ClaimAll(listings, items).Some? {
      ClaimAllSells(listings, items);
    } else if AllOnSale(listings, items) {
      ClaimAllWins(listings, items);
    }
  }

  /** A bundle checkout sells every item or none, and sells all exactly when the bundle is still open and its
      items are distinct listings still on sale. */
  lemma BundleAllOrNothing(db: Db, b: nat, items: seq<Item>)
    requires b < |db.bundles|
    ensures var next := CheckoutBundle(db, b, items);
      if db.bundles[b].status == Collecting && AllOnSale(db.listings, items) then
        && next.bundles[b].status == CheckedOut
        && |next.orders| == |db.orders| + |items| && next.orders[..|db.orders|] == db.orders
        && |next.listings| == |db.listings|
        && (forall i :: 0 <= i < |items| ==>
              && next.orders[|db.orders| + i].listing == items[i].listing
              && next.orders[|db.orders| + i].item == items[i].seen.price
              && next.orders[|db.orders| + i].status == Pending
              && next.listings[items[i].listing].status == Sold)
        && (forall l :: 0 <= l < |db.listings| && (forall i :: 0 <= i < |items| ==> items[i].listing != l) ==>
              next.listings[l] == db.listings[l])
      else next == db
  {
    ClaimAllIffOnSale(db.listings, items);
  }
}
