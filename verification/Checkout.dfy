/** What a checkout stores adds up, and goes on adding up for the rest of the order's life. */
module Checkout {
  import opened Basics
  import opened Types
  import opened Transactions
  import opened Reads
  import opened Runs
  import Pricing
  import Refunds
  import SettledRuns

  predicate AddsUp(row: Order) {
    row.item + row.shipping + row.fee == row.total + row.discount
  }

  /** To the cent, as each of the parts is. */
  predicate NearlyAddsUp(row: Order) {
    var parts := row.item + row.shipping + row.fee - row.discount;
    parts - 1 <= row.total <= parts + 1
  }

  /** A single checkout that finds the listing still on sale stores one order: the buyer's, for the price read, with
      parts that add up; it is paid from the start exactly when there is nothing to pay. */
  lemma SingleOrder(db: Db, buyer: nat, l: nat, seen: Listing, coupon: Option<nat>)
    requires l < |db.listings| && db.listings[l].status == Active
    ensures var next := CreateOrder(db, buyer, l, seen, coupon); var row := next.orders[|next.orders| - 1];
      && next.orders == db.orders + [row] && next.listings[l].status == Sold
      && row.buyer == buyer && row.seller == seen.seller && row.listing == l && row.item == seen.price
      && AddsUp(row) && (row.status == Paid <==> row.total == 0) && (row.status == Pending <==> row.total > 0)
      && PendingOf(next.wallets, seen.seller) ==
         PendingOf(db.wallets, seen.seller) + if row.total == 0 then seen.price else 0
  {
    Pricing.OrderAddsUp(seen.price, seen.weight, coupon);
  }

  lemma {:induction false} MaxWeightIsMax(items: seq<Item>, i: nat)
    requires i < |items|
    ensures items[i].seen.weight <= MaxWeight(items)
    ensures exists j :: 0 <= j < |items| && items[j].seen.weight == MaxWeight(items)
  {
    var rest := items[1..];
    if |rest| > 0 {
      MaxWeightIsMax(rest, if i == 0 then 0 else i - 1);
      var j :| 0 <= j < |rest| && rest[j].seen.weight == MaxWeight(rest);
      assert items[j + 1].seen.weight == MaxWeight(rest);
    }
    assert items[0].seen.weight == MaxWeight(items) || MaxWeight(items) == MaxWeight(rest);
  }

  function ShippingSum(orders: seq<Order>): nat {
    if |orders| == 0 then 0 else ShippingSum(orders[..|orders| - 1]) + orders[|orders| - 1].shipping
  }

  lemma {:induction false} EqualShipping(orders: seq<Order>, share: nat)
    requires forall i :: 0 <= i < |orders| ==> orders[i].shipping == share
    ensures ShippingSum(orders) == |orders| * share
  {
    if |orders| > 0 {
      EqualShipping(orders[..|orders| - 1], share);
    }
  }

  /** A bundle checkout's orders share the shipping cost of the heaviest item: their shares sum to it within half a
      cent an order, each total is within a cent of its parts, and none is free. */
  lemma BundledOrders(db: Db, bundle: Bundle, items: seq<Item>)
    requires |items| > 0
    ensures var rows := BundleOrders(db, bundle, items); var combined := Pricing.Shipping(MaxWeight(items));
      && (forall i :: 0 <= i < |rows| ==>
            NearlyAddsUp(rows[i]) && rows[i].discount == 0 && rows[i].total > 0 && rows[i].status == Pending)
      && (var twice := 2 * (ShippingSum(rows) - combined); twice <= |rows| && -twice <= |rows|)
  {
    var rows, combined := BundleOrders(db, bundle, items), Pricing.Shipping(MaxWeight(items));
    forall i | 0 <= i < |rows|
      ensures NearlyAddsUp(rows[i]) && rows[i].total > 0
    {
      Pricing.BundleAddsUp(items[i].seen.price, combined, |items|);
    }
    EqualShipping(rows, Pricing.BundleShare(combined, |items|));
    Pricing.BundleAddsUp(0, combined, |items|);
  }

  ghost predicate Inv(db: Db) {
    forall o :: 0 <= o < |db.orders| ==>
      NearlyAddsUp(db.orders[o]) && (db.orders[o].total == 0 ==> db.orders[o].status != Pending)
  }

  lemma NewOrdersAddUp(db: Db, tx: Tx, o: nat)
    requires |db.orders| <= o < |Exec(db, tx).orders|
    ensures NearlyAddsUp(Exec(db, tx).orders[o])
      && (Exec(db, tx).orders[o].total == 0 ==> Exec(db, tx).orders[o].status == Paid)
  {
    match tx {
      case CreateOrderTx(buyer, l, seen, coupon) => SingleOrder(db, buyer, l, seen, coupon);
      case CheckoutBundleTx(b, items) => BundledOrders(db, db.bundles[b], items);
      case OrderTx(p, act) => PerformExtends(db, p, act);
      case _ =>
    }
  }

  lemma NextKeeps(w: World, s: Step)
    requires Inv(w.db)
    ensures Inv(Next(w, s).db)
  {
    NextExtends(w, s);
    if StepTx(w, s).Some? {
      var tx, next := StepTx(w, s).value, Next(w, s).db;
      Refunds.OrdersAfter(w.db, tx);
      forall o | 0 <= o < |next.orders|
        ensures NearlyAddsUp(next.orders[o]) && (next.orders[o].total == 0 ==> next.orders[o].status != Pending)
      {
        if o < |w.db.orders| {
          assert next.orders[o] == Refunds.RowAfter(w.db, tx, o) && SameDeal(w.db.orders[o], next.orders[o]);
        } else {
          NewOrdersAddUp(w.db, tx, o);
        }
      }
    }
  }

  /** In every run every order's total is within a cent of its parts, and an order for nothing is never left waiting
      for a payment. */
  lemma {:induction false} EveryOrderAddsUp(w: World, steps: seq<Step>)
    requires Init(w)
    ensures Inv(Run(w, steps).db)
  {
    if |steps| > 0 {
      EveryOrderAddsUp(w, steps[..|steps| - 1]);
      NextKeeps(Run(w, steps[..|steps| - 1]), steps[|steps| - 1]);
    }
  }

  lemma {:induction false} DealsStay(v: World, steps: seq<Step>, o: nat)
    requires o < |v.db.orders|
    ensures o < |Run(v, steps).db.orders| && SameDeal(v.db.orders[o], Run(v, steps).db.orders[o])
  {
    if |steps| > 0 {
      DealsStay(v, steps[..|steps| - 1], o);
      NextExtends(Run(v, steps[..|steps| - 1]), steps[|steps| - 1]);
    }
  }

  /** What an order is for never changes, so one that adds up exactly when it is stored does so for good. */
  lemma ExactForGood(w: World, earlier: seq<Step>, later: seq<Step>, o: nat)
    requires o < |Run(w, earlier).db.orders|
    ensures var a, b := Run(w, earlier).db.orders, Run(w, earlier + later).db.orders;
      && o < |b| && (AddsUp(a[o]) ==> AddsUp(b[o])) && b[o].total == a[o].total && b[o].item == a[o].item
      && b[o].buyer == a[o].buyer && b[o].seller == a[o].seller && b[o].listing == a[o].listing
  {
    SettledRuns.RunOn(w, earlier, later);
    DealsStay(Run(w, earlier), later, o);
  }
}
