/** Checkout arithmetic in exact decimals. The buyer-protection rate is 5%, so a fee is a whole number of
    twentieths of a cent; amounts named `...20` are in that unit, all others are in cents. */
module Pricing {
  import opened Basics
  import opened Types

  const PROTECTION_FIXED20: nat := 7000  // R$ 3.50

  datatype Quote = Quote(shipping: nat, fee: nat, discount: nat, total: nat, free: bool)

  /** a / b rounded to the nearest whole number, ties up: what toFixed does with an exact non-negative decimal. */
  function Round(a: nat, b: nat): (r: nat)
    requires b > 0
  {
    (2 * a + b) / (2 * b)
  }

  function Shipping(weight: nat): nat {
    if weight <= 300 then 1590 else if weight <= 1000 then 2250 else if weight <= 5000 then 3500 else 5500
  }

  function Fee20(price: nat): nat {
    PROTECTION_FIXED20 + price
  }

  function Subtotal20(price: nat, shipping: nat): nat {
    20 * (price + shipping) + Fee20(price)
  }

  /** The discount of a validated coupon, which is rounded to the cent but never above the subtotal. */
  function Discount20(subtotal20: nat, pct: nat): nat {
    var rounded := 20 * Round(subtotal20 * pct, 2000);
    if rounded <= subtotal20 then rounded else subtotal20
  }

  function QuoteOrder(price: nat, weight: nat, coupon: Option<nat>): Quote {
    var shipping := Shipping(weight);
    var subtotal20 := Subtotal20(price, shipping);
    var discount20 := match coupon case None => 0 case Some(pct) => Discount20(subtotal20, pct);
    var total20 := if subtotal20 >= discount20 then subtotal20 - discount20 else 0;
    Quote(shipping, Round(Fee20(price), 20), Round(discount20, 20), Round(total20, 20),
          coupon.Some? && (coupon.value == 100 || discount20 >= subtotal20))
  }

  /** Rounding leaves whole numbers alone: adding k wholes before rounding is adding k after it. */
  lemma RoundShift(a: nat, b: nat, k: nat)
    requires b > 0
    ensures Round(a + k * b, b) == Round(a, b) + k
  {
    assert 2 * (a + k * b) + b == (2 * a + b) + k * (2 * b);
    DivShift(2 * a + b, 2 * b, k);
  }

  lemma DivShift(x: nat, m: nat, k: nat)
    requires m > 0
    ensures (x + k * m) / m == x / m + k
  {
    var q, r := x / m, x % m;
    assert x + k * m == (q + k) * m + r;
    DivUnique(x + k * m, m, q + k, r);
  }

  lemma DivUnique(x: int, m: nat, q: int, r: int)
    requires m > 0 && 0 <= r < m && x == q * m + r
    ensures x / m == q
  {
    var d := x / m - q;
    assert m * d == r - x % m by { assert x == (x / m) * m + x % m; }
    if d >= 1 {
      MulMono(m, 1, d);
    } else if d <= -1 {
      MulMono(m, d, -1);
    }
  }

  /** A coupon below 100% leaves at least the rounding margin to pay. */
  lemma PartialDiscountLeavesTotal(subtotal20: nat, pct: nat)
    requires pct <= 99 && subtotal20 >= 2000
    ensures var d := Round(subtotal20 * pct, 2000); 20 * d + 10 <= subtotal20
  {
    var x := subtotal20 * pct;
    assert x <= subtotal20 * 99 by { assert x + subtotal20 * (99 - pct) == subtotal20 * 99; }
  }

  /** A coupon above 100% takes the whole subtotal. */
  lemma ExcessDiscountTakesAll(subtotal20: nat, pct: nat)
    requires pct >= 101 && subtotal20 >= 2000
    ensures 20 * Round(subtotal20 * pct, 2000) >= subtotal20
  {
    var x := subtotal20 * pct;
    MulMono(subtotal20, 101, pct);
    var d := Round(x, 2000);
    assert 4000 * d + 4000 > 2 * x + 2000;
  }

  /** Rounded to the cent, all of a subtotal is the whole rounded subtotal. */
  lemma FullDiscount(s20: nat)
    ensures Round(s20 * 100, 2000) == Round(s20, 20)
  {
    assert (2 * (s20 * 100) + 2000) / 4000 == (2 * s20 + 20) / 40;
  }

  /** Taking whole cents off before or after rounding is the same. */
  lemma WholeCentsOff(s20: nat, d: nat)
    requires 20 * d <= s20
    ensures Round(s20 - 20 * d, 20) + Round(20 * d, 20) == Round(s20, 20) && Round(20 * d, 20) == d
  {
    RoundShift(0, 20, d);
    RoundShift(s20 - 20 * d, 20, d);
  }

  /** What a discount leaves: rounding the rest is the rounded subtotal less the rounded discount, and nothing
      is left exactly when the coupon is for 100% or more. */
  lemma DiscountSplits(s20: nat, pct: nat)
    requires s20 >= 2000
    ensures var d20 := Discount20(s20, pct);
      && d20 <= s20
      && Round(s20 - d20, 20) + Round(d20, 20) == Round(s20, 20)
      && (Round(s20 - d20, 20) == 0 <==> pct >= 100)
      && (d20 >= s20 ==> pct >= 100) && (pct > 100 ==> d20 == s20)
  {
    var d := Round(s20 * pct, 2000);
    if pct < 100 {
      PartialDiscountLeavesTotal(s20, pct);
      WholeCentsOff(s20, d);
    } else if pct == 100 {
      FullDiscount(s20);
      if 20 * d <= s20 {
        WholeCentsOff(s20, d);
      }
    } else {
      ExcessDiscountTakesAll(s20, pct);
    }
  }

  /** Every stored order adds up to the cent, and it is free exactly when there is nothing left to pay. */
  lemma OrderAddsUp(price: nat, weight: nat, coupon: Option<nat>)
    ensures var q := QuoteOrder(price, weight, coupon);
      && price + q.shipping + q.fee == q.total + q.discount
      && (q.free <==> q.total == 0)
      && (q.free <==> coupon.Some? && coupon.value >= 100)
  {
    var shipping := Shipping(weight);
    RoundShift(Fee20(price), 20, price + shipping);
    if coupon.Some? {
      DiscountSplits(Subtotal20(price, shipping), coupon.value);
    }
  }

  // ----- Bundles: one shipping cost for the heaviest item, split evenly -----

  function BundleShare(combined: nat, n: nat): nat
    requires n > 0
  {
    Round(combined, n)
  }

  /** price + combined / n + fee, rounded once. */
  function BundleTotal(price: nat, combined: nat, n: nat): nat
    requires n > 0
  {
    Round(20 * (price * n + combined) + n * Fee20(price), 20 * n)
  }

  lemma RoundError(a: nat, b: nat)
    requires b > 0
    ensures var twice := 2 * (b * Round(a, b) - a); twice <= b && -twice <= b
  {
    var x, q := 2 * a + b, Round(a, b);
    assert x == q * (2 * b) + x % (2 * b);
    assert q * (2 * b) == 2 * (b * q);
  }

  /** One item of a bundle of n that share the combined shipping cost. */
  function QuoteBundled(price: nat, combined: nat, n: nat): Quote
    requires n > 0
  {
    Quote(BundleShare(combined, n), Round(Fee20(price), 20), 0, BundleTotal(price, combined, n), false)
  }

  /** n times a quantity between -k and k is between -nk and nk. */
  lemma Scaled(n: nat, x: int, k: int)
    requires -k <= x <= k
    ensures n * -k <= n * x <= n * k
  {
    MulMono(n, x, k);
    MulMono(n, -k, x);
  }

  lemma LessThanTwo(n: nat, gap: int)
    requires n > 0 && -60 * n <= 40 * (n * gap) <= 60 * n
    ensures -1 <= gap <= 1
  {
    if gap >= 2 { MulMono(n, 2, gap); }
    if gap <= -2 { MulMono(n, gap, -2); }
  }

  /** The shares of the combined shipping sum to it within half a cent an item, and each total is within one
      cent of its stored parts. */
  lemma BundleAddsUp(price: nat, combined: nat, n: nat)
    requires n > 0
    ensures var twice := 2 * (n * BundleShare(combined, n) - combined); twice <= n && -twice <= n
    ensures var parts := price + BundleShare(combined, n) + Round(Fee20(price), 20);
      parts - 1 <= BundleTotal(price, combined, n) <= parts + 1
  {
    var fee20 := Fee20(price);
    var exact := 20 * (price * n + combined) + n * fee20;
    RoundError(combined, n);
    RoundError(fee20, 20);
    RoundError(exact, 20 * n);
    BundleErrors(price, combined, n, fee20, BundleShare(combined, n), Round(fee20, 20),
      BundleTotal(price, combined, n));
  }

  /** Everything in units of 1/(40 n) cents. */
  lemma AddedErrors(n: int, share: int, total: int, price: int, fee: int, fee20: int, combined: int)
    requires -n <= 2 * (share - combined) <= n
    requires -20 * n <= 40 * fee - 2 * fee20 <= 20 * n
    requires -20 * n <= 2 * (20 * total - (20 * (price + combined) + fee20)) <= 20 * n
    ensures -60 * n <= 40 * (total - price - share - fee) <= 60 * n
  {
  }

  lemma Products(n: int, price: int, share: int, fee: int, fee20: int, total: int)
    ensures n * (2 * (20 * fee - fee20)) == 40 * (n * fee) - 2 * (n * fee20)
    ensures price * n == n * price && 20 * n * total == 20 * (n * total)
    ensures n * (total - price - share - fee) == n * total - n * price - n * share - n * fee
  {
  }

  /** Three rounding errors of at most half a cent (half a cent an item for the shares) leave less than two cents. */
  lemma BundleErrors(price: nat, combined: nat, n: nat, fee20: nat, share: nat, fee: nat, total: nat)
    requires n > 0
    requires var twice := 2 * (n * share - combined); twice <= n && -twice <= n
    requires -20 <= 2 * (20 * fee - fee20) <= 20
    requires var twice := 2 * (20 * n * total - (20 * (price * n + combined) + n * fee20));
      twice <= 20 * n && -twice <= 20 * n
    ensures -1 <= total - price - share - fee <= 1
  {
    var gap, slip := total - price - share - fee, 2 * (20 * fee - fee20);
    Scaled(n, slip, 20);
    Products(n, price, share, fee, fee20, total);
    AddedErrors(n, n * share, n * total, n * price, n * fee, n * fee20, combined);
    LessThanTwo(n, gap);
  }

  lemma MulMono(n: nat, a: int, b: int)
    requires a <= b
    ensures n * a <= n * b
  {
    assert n * b == n * a + n * (b - a);
  }
}
