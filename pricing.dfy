/**
 * Catalogue lookups and the derived totals of the store
 * (src/store/useStore.ts:90-147): coupon lookup, subtotal, discount,
 * shipping and total.
 */
module Pricing {
  import opened Types
  import opened Text
  import Cart

  /** Orders whose subtotal is strictly above this ship free. */
  const FreeShippingThreshold: real := 100.0
  /** The flat shipping fee below the threshold. */
  const ShippingFee: real := 9.99

  datatype Totals = Totals(subtotal: real, discount: real, shipping: real, total: real)

  // ---------------------------------------------------------------------
  // Catalogue lookups (each is a first-match `find`)

  /** `s.find(matches)`: the first element that matches, or None when none does. */
  function Find<T>(s: seq<T>, matches: T -> bool): (r: Option<T>)
    ensures r.None? <==> forall i :: 0 <= i < |s| ==> !matches(s[i])
    ensures r.Some? ==> exists i :: (0 <= i < |s| && s[i] == r.value && matches(r.value)
      && forall j :: 0 <= j < i ==> !matches(s[j]))
  {
    if s == [] then None
    else if matches(s[0]) then Some(s[0])
    else
      var r := Find(s[1..], matches);
      assert forall i :: 0 < i < |s| ==> s[i] == s[1..][i - 1];
      r
  }

  /** `products.find(p => p.id === id)`. */
  function FindProduct(products: seq<Product>, id: string): (r: Option<Product>)
    ensures r.None? <==> forall i :: 0 <= i < |products| ==> products[i].id != id
    ensures r.Some? ==> exists i :: (0 <= i < |products| && products[i] == r.value
      && r.value.id == id && forall j :: 0 <= j < i ==> products[j].id != id)
  {
    Find(products, (p: Product) => p.id == id)
  }

  /** `variants.find(v => v.sku === sku)`. */
  function FindVariant(variants: seq<ProductVariant>, sku: string): (r: Option<ProductVariant>)
    ensures r.None? <==> forall i :: 0 <= i < |variants| ==> variants[i].sku != sku
    ensures r.Some? ==> exists i :: (0 <= i < |variants| && variants[i] == r.value
      && r.value.sku == sku && forall j :: 0 <= j < i ==> variants[j].sku != sku)
  {
    Find(variants, (v: ProductVariant) => v.sku == sku)
  }

  /** The coupon test of `applyCoupon`: the code matches ignoring case, and the coupon is active. */
  predicate ActiveMatch(c: Coupon, code: string)
  {
    Upper(c.code) == Upper(code) && c.isActive
  }

  /** `coupons.find(c => c.code.toUpperCase() === code.toUpperCase() && c.isActive)`. */
  function FindActiveCoupon(coupons: seq<Coupon>, code: string): (r: Option<Coupon>)
    ensures r.None? <==> forall i :: 0 <= i < |coupons| ==> !ActiveMatch(coupons[i], code)
    ensures r.Some? ==> exists i :: (0 <= i < |coupons| && coupons[i] == r.value
      && Upper(r.value.code) == Upper(code) && r.value.isActive
      && forall j :: 0 <= j < i ==> !ActiveMatch(coupons[j], code))
  {
    Find(coupons, (c: Coupon) => ActiveMatch(c, code))
  }

  /** `coupons.find(c => c.code === code)`: exact code, active or not. */
  function FindCouponByCode(coupons: seq<Coupon>, code: string): (r: Option<Coupon>)
    ensures r.None? <==> forall i :: 0 <= i < |coupons| ==> coupons[i].code != code
    ensures r.Some? ==> exists i :: (0 <= i < |coupons| && coupons[i] == r.value
      && r.value.code == code && forall j :: 0 <= j < i ==> coupons[j].code != code)
  {
    Find(coupons, (c: Coupon) => c.code == code)
  }

  /** Codes are stored once each, as the catalogue promises. */
  ghost predicate UniqueCodes(coupons: seq<Coupon>)
  {
    forall i, j :: 0 <= i < j < |coupons| ==> coupons[i].code != coupons[j].code
  }

  /**
   * The coupon `applyCoupon` accepts is the one `getCartTotal` later finds
   * by its stored code, so the discount charged is that coupon's.
   */
  lemma ActiveCouponResolves(coupons: seq<Coupon>, code: string)
    requires UniqueCodes(coupons)
    requires FindActiveCoupon(coupons, code).Some?
    ensures FindCouponByCode(coupons, FindActiveCoupon(coupons, code).value.code)
         == FindActiveCoupon(coupons, code)
  {
    var c := FindActiveCoupon(coupons, code).value;
    var i :| 0 <= i < |coupons| && coupons[i] == c;
    var r := FindCouponByCode(coupons, c.code);
    var k :| 0 <= k < |coupons| && coupons[k] == r.value && r.value.code == c.code;
    assert k == i;
  }

  // ---------------------------------------------------------------------
  // Subtotal

  /**
   * One line's contribution: the price of the variant found under the
   * line's product, times the quantity; 0 when either lookup fails.
   */
  function LinePrice(products: seq<Product>, line: CartItem): real
  {
    match FindProduct(products, line.productId)
    case None => 0.0
    case Some(p) =>
      match FindVariant(p.variants, line.variantSku)
      case None => 0.0
      case Some(v) => v.price * line.quantity as real
  }

  /** The subtotal accumulated over the cart from first line to last. */
  function Subtotal(products: seq<Product>, cart: seq<CartItem>): real
  {
    if cart == [] then 0.0
    else Subtotal(products, cart[..|cart| - 1]) + LinePrice(products, cart[|cart| - 1])
  }

  lemma {:induction false} SubtotalAppend(products: seq<Product>, a: seq<CartItem>, b: seq<CartItem>)
    ensures Subtotal(products, a + b) == Subtotal(products, a) + Subtotal(products, b)
    decreases |b|
  {
    if b == [] {
      assert a + b == a;
    } else {
      var n := |b| - 1;
      assert (a + b)[..|a + b| - 1] == a + b[..n];
      assert (a + b)[|a + b| - 1] == b[n];
      SubtotalAppend(products, a, b[..n]);
    }
  }

  /** The subtotal of the first `i + 1` lines adds line `i`'s contribution to that of the first `i`. */
  lemma SubtotalStep(products: seq<Product>, cart: seq<CartItem>, i: nat)
    requires i < |cart|
    ensures Subtotal(products, cart[..i + 1]) == Subtotal(products, cart[..i]) + LinePrice(products, cart[i])
  {
    assert cart[..i + 1][..i] == cart[..i];
  }

  lemma SubtotalSingle(products: seq<Product>, line: CartItem)
    ensures Subtotal(products, [line]) == LinePrice(products, line)
  {
    assert [line][..0] == [];
  }

  /** Replacing one line changes the subtotal by the difference of the two lines' contributions. */
  lemma SubtotalUpdate(products: seq<Product>, cart: seq<CartItem>, i: nat, x: CartItem)
    requires i < |cart|
    ensures Subtotal(products, cart[i := x])
         == Subtotal(products, cart) - LinePrice(products, cart[i]) + LinePrice(products, x)
  {
    var pre, post := cart[..i], cart[i + 1..];
    assert cart == pre + [cart[i]] + post;
    assert cart[i := x] == pre + [x] + post;
    SubtotalAppend(products, pre + [cart[i]], post);
    SubtotalAppend(products, pre, [cart[i]]);
    SubtotalAppend(products, pre + [x], post);
    SubtotalAppend(products, pre, [x]);
    SubtotalSingle(products, cart[i]);
    SubtotalSingle(products, x);
  }

  /** Every catalogue price is non-negative. */
  ghost predicate NonNegativePrices(products: seq<Product>)
  {
    forall i, j :: 0 <= i < |products| && 0 <= j < |products[i].variants| ==>
      products[i].variants[j].price >= 0.0
  }

  lemma LinePriceNonNegative(products: seq<Product>, line: CartItem)
    requires NonNegativePrices(products) && line.quantity >= 0
    ensures LinePrice(products, line) >= 0.0
  {
    var product := FindProduct(products, line.productId);
    if product.Some? {
      var p := product.value;
      var variant := FindVariant(p.variants, line.variantSku);
      if variant.Some? {
        var v := variant.value;
        FoundPriceNonNegative(products, p, v);
        ProductNonNegative(v.price, line.quantity as real);
      }
    }
  }

  lemma FoundPriceNonNegative(products: seq<Product>, p: Product, v: ProductVariant)
    requires NonNegativePrices(products) && p in products && v in p.variants
    ensures v.price >= 0.0
  {
    var i :| 0 <= i < |products| && products[i] == p;
    var j :| 0 <= j < |p.variants| && p.variants[j] == v;
    assert products[i].variants[j].price >= 0.0;
  }

  lemma ProductNonNegative(a: real, b: real)
    requires a >= 0.0 && b >= 0.0
    ensures a * b >= 0.0
  {
  }

  /** With non-negative prices and quantities the subtotal is non-negative. */
  lemma {:induction false} SubtotalNonNegative(products: seq<Product>, cart: seq<CartItem>)
    requires NonNegativePrices(products)
    requires forall k :: 0 <= k < |cart| ==> cart[k].quantity >= 0
    ensures Subtotal(products, cart) >= 0.0
  {
    if cart != [] {
      SubtotalNonNegative(products, cart[..|cart| - 1]);
      LinePriceNonNegative(products, cart[|cart| - 1]);
    }
  }

  /**
   * `addToCart` raises the subtotal by the added item's own price when the
   * line it merges into belongs to the same product (SKUs are unique across
   * the catalogue, so a merge never crosses products).
   */
  lemma AddLineSubtotal(products: seq<Product>, cart: seq<CartItem>, item: CartItem)
    requires forall k :: 0 <= k < |cart| && cart[k].variantSku == item.variantSku ==>
      cart[k].productId == item.productId
    ensures Subtotal(products, Cart.AddLine(cart, item))
         == Subtotal(products, cart) + LinePrice(products, item)
  {
    match Cart.FindSku(cart, item.variantSku)
    case Some(i) =>
      var merged := cart[i].(quantity := cart[i].quantity + item.quantity);
      assert Cart.AddLine(cart, item) == cart[i := merged];
      assert cart[i].productId == item.productId;
      SubtotalUpdate(products, cart, i, merged);
      LinePriceMerge(products, cart[i], item);
    case None =>
      assert Cart.AddLine(cart, item) == cart + [item];
      SubtotalAppend(products, cart, [item]);
      SubtotalSingle(products, item);
  }

  /** Merging `item` into a line of the same product and SKU adds the two contributions. */
  lemma LinePriceMerge(products: seq<Product>, line: CartItem, item: CartItem)
    requires line.productId == item.productId && line.variantSku == item.variantSku
    ensures LinePrice(products, line.(quantity := line.quantity + item.quantity))
         == LinePrice(products, line) + LinePrice(products, item)
  {
    var merged := line.(quantity := line.quantity + item.quantity);
    match FindProduct(products, line.productId)
    case None =>
    case Some(p) =>
      match FindVariant(p.variants, line.variantSku)
      case None =>
      case Some(v) =>
        var a, b := line.quantity as real, item.quantity as real;
        assert merged.quantity as real == a + b;
        assert v.price * (a + b) == v.price * a + v.price * b;
  }

  /** `removeFromCart` lowers the subtotal by exactly the removed line's contribution. */
  lemma RemoveSkuSubtotal(products: seq<Product>, cart: seq<CartItem>, i: nat)
    requires Cart.UniqueSkus(cart) && i < |cart|
    ensures Subtotal(products, Cart.RemoveSku(cart, cart[i].variantSku))
         == Subtotal(products, cart) - LinePrice(products, cart[i])
  {
    Cart.RemoveSkuExisting(cart, i);
    assert cart == cart[..i] + [cart[i]] + cart[i + 1..];
    SubtotalAppend(products, cart[..i] + [cart[i]], cart[i + 1..]);
    SubtotalAppend(products, cart[..i], [cart[i]]);
    SubtotalAppend(products, cart[..i], cart[i + 1..]);
    SubtotalSingle(products, cart[i]);
  }

  // ---------------------------------------------------------------------
  // Discount, shipping, total

  /** `if (coupon.maxDiscount)`: a cap is in force only when present and non-zero. */
  predicate CapApplies(c: Coupon)
  {
    c.maxDiscount.Some? && c.maxDiscount.value != 0.0
  }

  /** The discount a coupon grants on a subtotal. */
  function CouponDiscount(c: Coupon, subtotal: real): real
  {
    match c.discountType
    case Percentage =>
      var d := subtotal * c.discountValue / 100.0;
      if CapApplies(c) && c.maxDiscount.value < d then c.maxDiscount.value else d
    case Fixed => c.discountValue
  }

  /**
   * A percentage coupon of at most 100% grants between 0 and the subtotal,
   * never more than an applicable cap, and exactly the uncapped share otherwise.
   */
  lemma PercentageDiscountBounds(c: Coupon, subtotal: real)
    requires c.discountType == Percentage
    requires 0.0 <= c.discountValue <= 100.0 && subtotal >= 0.0
    requires CapApplies(c) ==> c.maxDiscount.value >= 0.0
    ensures 0.0 <= CouponDiscount(c, subtotal) <= subtotal
    ensures CapApplies(c) ==> CouponDiscount(c, subtotal) <= c.maxDiscount.value
    ensures !CapApplies(c) ==> CouponDiscount(c, subtotal) == subtotal * c.discountValue / 100.0
  {
    var d := subtotal * c.discountValue / 100.0;
    assert 0.0 <= subtotal * c.discountValue <= subtotal * 100.0;
  }

  /** A cap of 0 is falsy and so means no cap at all. */
  lemma ZeroCapIsNoCap(c: Coupon, subtotal: real)
    requires c.maxDiscount == Some(0.0)
    ensures CouponDiscount(c, subtotal) == CouponDiscount(c.(maxDiscount := None), subtotal)
  {
  }

  /** The discount for the applied code; 0 when none is applied or the code is unknown. */
  function Discount(coupons: seq<Coupon>, applied: Option<string>, subtotal: real): (d: real)
    ensures applied.None? || applied.value == "" || FindCouponByCode(coupons, applied.value).None?
      ==> d == 0.0
  {
    if applied.Some? && applied.value != "" then
      match FindCouponByCode(coupons, applied.value)
      case None => 0.0
      case Some(c) => CouponDiscount(c, subtotal)
    else 0.0
  }

  /**
   * The discount of an applied code is charged whatever the current subtotal
   * and whether or not the coupon is still active: the minimum and the
   * active flag are checked only when the code is applied.
   */
  lemma DiscountIgnoresMinimum(coupons: seq<Coupon>, code: string, c: Coupon, subtotal: real)
    requires code != "" && FindCouponByCode(coupons, code) == Some(c)
    ensures Discount(coupons, Some(code), subtotal) == CouponDiscount(c, subtotal)
  {
  }

  /** A 50% coupon capped at 30 on a subtotal of 100 grants 30. */
  lemma CappedPercentageExample()
    ensures CouponDiscount(Coupon("SUMMER50", Percentage, 50.0, 0.0, Some(30.0), "", true), 100.0) == 30.0
  {
  }

  /** Shipping is free strictly above the threshold; exactly 100 still pays the fee. */
  function ShippingFor(subtotal: real): (s: real)
    ensures s == 0.0 <==> subtotal > FreeShippingThreshold
    ensures s == 0.0 || s == ShippingFee
  {
    if subtotal > FreeShippingThreshold then 0.0 else ShippingFee
  }

  /** `getCartTotal()` as a function of the catalogue and the store's state. */
  function CartTotal(products: seq<Product>, coupons: seq<Coupon>, cart: seq<CartItem>,
                     applied: Option<string>): (t: Totals)
    ensures t.subtotal == Subtotal(products, cart)
    ensures t.discount == Discount(coupons, applied, t.subtotal)
    ensures t.shipping == ShippingFor(t.subtotal)
    ensures t.total >= 0.0 && t.total >= t.subtotal - t.discount + t.shipping
    ensures t.total == 0.0 || t.total == t.subtotal - t.discount + t.shipping
  {
    var subtotal := Subtotal(products, cart);
    var discount := Discount(coupons, applied, subtotal);
    var shipping := ShippingFor(subtotal);
    var total := subtotal - discount + shipping;
    Totals(subtotal, discount, shipping, if total < 0.0 then 0.0 else total)
  }

  /** Without a coupon, 50 pays the fee (total 59.99) and 150 ships free (total 150). */
  lemma ShippingExamples(products: seq<Product>, coupons: seq<Coupon>, cart: seq<CartItem>)
    ensures Subtotal(products, cart) == 50.0 ==> CartTotal(products, coupons, cart, None).total == 59.99
    ensures Subtotal(products, cart) == 150.0 ==> CartTotal(products, coupons, cart, None).total == 150.0
  {
  }

  /** A non-negative discount never raises the total above subtotal plus shipping. */
  lemma TotalAtMostUndiscounted(products: seq<Product>, coupons: seq<Coupon>, cart: seq<CartItem>,
                                applied: Option<string>)
    requires Subtotal(products, cart) >= 0.0
    requires Discount(coupons, applied, Subtotal(products, cart)) >= 0.0
    ensures CartTotal(products, coupons, cart, applied).total
         <= Subtotal(products, cart) + ShippingFor(Subtotal(products, cart))
  {
  }

  /** A fixed coupon worth more than subtotal plus shipping brings the total to 0, not below. */
  lemma OversizedFixedCoupon(products: seq<Product>, coupons: seq<Coupon>, cart: seq<CartItem>, code: string)
    requires code != "" && FindCouponByCode(coupons, code).Some?
    requires FindCouponByCode(coupons, code).value.discountType == Fixed
    requires FindCouponByCode(coupons, code).value.discountValue
          >= Subtotal(products, cart) + ShippingFor(Subtotal(products, cart))
    ensures CartTotal(products, coupons, cart, Some(code)).total == 0.0
  {
  }

  /** Without a coupon the total is the subtotal plus shipping. */
  lemma NoCouponTotal(products: seq<Product>, coupons: seq<Coupon>, cart: seq<CartItem>)
    requires Subtotal(products, cart) >= 0.0
    ensures CartTotal(products, coupons, cart, None).total
         == Subtotal(products, cart) + ShippingFor(Subtotal(products, cart))
  {
  }
}
