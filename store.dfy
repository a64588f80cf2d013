/**
 * The cart, wishlist and coupon store (src/store/useStore.ts): one object
 * holding `cart`, `wishlist` and `appliedCoupon`, updated in place by its
 * mutators, over a read-only catalogue fixed at construction.
 */
module Store {
  import opened Types
  import opened Text
  import opened Cart
  import opened Wishlist
  import opened Pricing

  const InvalidCodeMessage: string := "Invalid coupon code"
  const MinimumOrderPrefix: string := "Minimum order value of $"
  const AppliedMessage: string := "Coupon applied successfully!"

  /** The `{success, message}` reply of `applyCoupon`, by case. */
  datatype ApplyOutcome = Applied | InvalidCode | BelowMinimum(minOrderValue: real)
  {
    predicate Success() { Applied? }

    /**
     * The message shown to the user; `numberText` is the host's rendering
     * of a number inside a template string.
     */
    function Message(numberText: real -> string): (m: string)
      ensures Success() <==> m == AppliedMessage
    {
      match this
      case Applied => AppliedMessage
      case InvalidCode =>
        assert InvalidCodeMessage[0] != AppliedMessage[0];
        InvalidCodeMessage
      case BelowMinimum(v) =>
        var m := MinimumOrderPrefix + numberText(v) + " required";
        assert m[0] == MinimumOrderPrefix[0] != AppliedMessage[0];
        m
    }
  }

  class Store {
    const products: seq<Product>
    const coupons: seq<Coupon>
    var cart: seq<CartItem>
    var wishlist: seq<WishlistItem>
    var appliedCoupon: Option<string>

    /** One cart line per SKU and one wishlist entry per product. */
    ghost predicate Valid()
      reads this
    {
      UniqueSkus(cart) && UniqueProducts(wishlist)
    }

    constructor (products: seq<Product>, coupons: seq<Coupon>)
      ensures Valid()
      ensures this.products == products && this.coupons == coupons
      ensures cart == [] && wishlist == [] && appliedCoupon == None
    {
      this.products := products;
      this.coupons := coupons;
      cart := [];
      wishlist := [];
      appliedCoupon := None;
    }

    /** `getCartItemCount()`: units in the cart, which is at least the number of lines. */
    function GetCartItemCount(): (n: int)
      reads this
      ensures cart == [] ==> n == 0
      ensures PositiveQuantities(cart) ==> n >= |cart|
    {
      assert PositiveQuantities(cart) ==> ItemCount(cart) >= |cart| by {
        if PositiveQuantities(cart) {
          ItemCountAtLeastLines(cart);
        }
      }
      ItemCount(cart)
    }

    /** `isInWishlist(id)`: some entry has that product id. */
    function IsInWishlist(id: string): (b: bool)
      reads this
      ensures b <==> exists i :: 0 <= i < |wishlist| && wishlist[i].productId == id
    {
      Contains(wishlist, id)
    }

    method AddToCart(item: CartItem)
      requires Valid()
      modifies this
      ensures Valid()
      ensures cart == AddLine(old(cart), item)
      ensures HasSku(old(cart), item.variantSku) ==> |cart| == |old(cart)|
      ensures !HasSku(old(cart), item.variantSku) ==> cart == old(cart) + [item]
      ensures forall i :: 0 <= i < |old(cart)| && old(cart)[i].variantSku == item.variantSku ==>
        cart[i] == old(cart)[i].(quantity := old(cart)[i].quantity + item.quantity)
      ensures forall i :: 0 <= i < |old(cart)| && old(cart)[i].variantSku != item.variantSku ==>
        cart[i] == old(cart)[i]
      ensures GetCartItemCount() == old(GetCartItemCount()) + item.quantity
      ensures wishlist == old(wishlist) && appliedCoupon == old(appliedCoupon)
    {
      ghost var before := cart;
      var existing := FindSku(cart, item.variantSku);
      if existing.Some? {
        var i := existing.value;
        cart := cart[i := cart[i].(quantity := cart[i].quantity + item.quantity)];
        AddLineExisting(before, item, i);
      } else {
        cart := cart + [item];
      }
      AddLinePreservesUnique(before, item);
      AddLineItemCount(before, item);
    }

    method RemoveFromCart(sku: string)
      requires Valid()
      modifies this
      ensures Valid()
      ensures cart == RemoveSku(old(cart), sku)
      ensures forall x :: x in cart <==> x in old(cart) && x.variantSku != sku
      ensures !HasSku(old(cart), sku) ==> cart == old(cart)
      ensures forall i :: 0 <= i < |old(cart)| && old(cart)[i].variantSku == sku ==>
        cart == old(cart)[..i] + old(cart)[i + 1..]
      ensures GetCartItemCount() == old(GetCartItemCount()) - QuantityOf(old(cart), sku)
      ensures wishlist == old(wishlist) && appliedCoupon == old(appliedCoupon)
    {
      ghost var before := cart;
      cart := RemoveSku(cart, sku);
      RemoveSkuSubsequence(before, sku);
      RemoveSkuItemCount(before, sku);
      if !HasSku(before, sku) {
        RemoveSkuAbsent(before, sku);
      }
      forall i | 0 <= i < |before| && before[i].variantSku == sku
        ensures cart == before[..i] + before[i + 1..]
      {
        RemoveSkuExisting(before, i);
      }
    }

    method UpdateCartQuantity(sku: string, quantity: int)
      requires Valid()
      modifies this
      ensures Valid()
      ensures |cart| == |old(cart)|
      ensures forall i :: 0 <= i < |cart| ==>
        cart[i] == if old(cart)[i].variantSku == sku
                   then old(cart)[i].(quantity := Max(1, quantity)) else old(cart)[i]
      ensures forall s :: HasSku(cart, s) <==> HasSku(old(cart), s)
      ensures !HasSku(old(cart), sku) ==> cart == old(cart)
      ensures wishlist == old(wishlist) && appliedCoupon == old(appliedCoupon)
    {
      ghost var before := cart;
      cart := UpdateQuantity(cart, sku, quantity);
      forall s ensures HasSku(cart, s) <==> HasSku(before, s) {
        UpdateQuantityKeepsLines(before, sku, quantity, s);
      }
      UpdateQuantityKeepsLines(before, sku, quantity, sku);
      if !HasSku(before, sku) {
        UpdateQuantityAbsent(before, sku, quantity);
      }
    }

    /** Empties the cart and drops the coupon; the wishlist stays. */
    method ClearCart()
      requires Valid()
      modifies this
      ensures Valid()
      ensures cart == [] && appliedCoupon == None
      ensures wishlist == old(wishlist)
    {
      cart := [];
      appliedCoupon := None;
    }

    method AddToWishlist(id: string, addedAt: string)
      requires Valid()
      modifies this
      ensures Valid()
      ensures wishlist == AddWish(old(wishlist), id, addedAt)
      ensures IsInWishlist(id) && CountOf(wishlist, id) == 1
      ensures old(IsInWishlist(id)) ==> wishlist == old(wishlist)
      ensures !old(IsInWishlist(id)) ==> wishlist == old(wishlist) + [WishlistItem(id, addedAt)]
      ensures cart == old(cart) && appliedCoupon == old(appliedCoupon)
    {
      ghost var before := wishlist;
      if !Contains(wishlist, id) {
        wishlist := wishlist + [WishlistItem(id, addedAt)];
      }
      AddWishPreservesUnique(before, id, addedAt);
      AddWishSingleEntry(before, id, addedAt);
    }

    method RemoveFromWishlist(id: string)
      requires Valid()
      modifies this
      ensures Valid()
      ensures wishlist == RemoveWish(old(wishlist), id)
      ensures !IsInWishlist(id)
      ensures forall x :: x != id ==> (IsInWishlist(x) <==> old(IsInWishlist(x)))
      ensures !old(IsInWishlist(id)) ==> wishlist == old(wishlist)
      ensures cart == old(cart) && appliedCoupon == old(appliedCoupon)
    {
      ghost var before := wishlist;
      wishlist := RemoveWish(wishlist, id);
      RemoveWishPreservesUnique(before, id);
      forall x ensures HasProduct(wishlist, x) <==> x != id && HasProduct(before, x) {
        RemoveWishPresence(before, id, x);
      }
      if !HasProduct(before, id) {
        RemoveWishAbsent(before, id);
      }
    }

    /**
     * `applyCoupon(code)`: look the code up case-insensitively among active
     * coupons, check the current subtotal against its minimum, and on
     * success replace any applied coupon by the coupon's stored code.
     */
    method ApplyCoupon(code: string) returns (outcome: ApplyOutcome)
      requires Valid()
      modifies this
      ensures Valid()
      ensures cart == old(cart) && wishlist == old(wishlist)
      ensures match FindActiveCoupon(coupons, code)
        case None => outcome == InvalidCode && appliedCoupon == old(appliedCoupon)
        case Some(c) =>
          if Subtotal(products, cart) < c.minOrderValue
          then outcome == BelowMinimum(c.minOrderValue) && appliedCoupon == old(appliedCoupon)
          else outcome == Applied && appliedCoupon == Some(c.code)
      ensures outcome.Success() ==> exists i :: (0 <= i < |coupons|
        && coupons[i].isActive && Upper(coupons[i].code) == Upper(code)
        && coupons[i].minOrderValue <= Subtotal(products, cart)
        && appliedCoupon == Some(coupons[i].code))
      ensures outcome.Success() && UniqueCodes(coupons) ==>
        FindCouponByCode(coupons, appliedCoupon.value) == FindActiveCoupon(coupons, code)
    {
      var found := FindActiveCoupon(coupons, code);
      if found.None? {
        return InvalidCode;
      }
      var coupon := found.value;
      var totals := GetCartTotal();
      if totals.subtotal < coupon.minOrderValue {
        return BelowMinimum(coupon.minOrderValue);
      }
      appliedCoupon := Some(coupon.code);
      if UniqueCodes(coupons) {
        ActiveCouponResolves(coupons, code);
      }
      return Applied;
    }

    method RemoveCoupon()
      requires Valid()
      modifies this
      ensures Valid()
      ensures appliedCoupon == None
      ensures cart == old(cart) && wishlist == old(wishlist)
    {
      appliedCoupon := None;
    }

    /**
     * The `forEach` of `getCartTotal()`: accumulate each line's variant price
     * times its quantity, skipping lines whose product or variant is unknown.
     */
    method CartSubtotal() returns (subtotal: real)
      ensures subtotal == Subtotal(products, cart)
    {
      subtotal := 0.0;
      var i := 0;
      while i < |cart|
        invariant 0 <= i <= |cart|
        invariant subtotal == Subtotal(products, cart[..i])
      {
        var line := cart[i];
        ghost var before := subtotal;
        var product := FindProduct(products, line.productId);
        if product.Some? {
          var variant := FindVariant(product.value.variants, line.variantSku);
          if variant.Some? {
            subtotal := subtotal + variant.value.price * line.quantity as real;
          }
        }
        assert subtotal == before + LinePrice(products, line);
        SubtotalStep(products, cart, i);
        i := i + 1;
      }
      assert cart[..|cart|] == cart;
    }

    /**
     * `getCartTotal()`: the subtotal, then the discount of the applied code,
     * shipping, and the total clamped at 0. Changes nothing.
     */
    method GetCartTotal() returns (t: Totals)
      ensures t == CartTotal(products, coupons, cart, appliedCoupon)
      ensures t.total >= 0.0
      ensures t.shipping == 0.0 <==> t.subtotal > FreeShippingThreshold
    {
      var subtotal := CartSubtotal();

      var discount := 0.0;
      if appliedCoupon.Some? && appliedCoupon.value != "" {
        var coupon := FindCouponByCode(coupons, appliedCoupon.value);
        if coupon.Some? {
          var c := coupon.value;
          if c.discountType == Percentage {
            discount := subtotal * c.discountValue / 100.0;
            if CapApplies(c) && c.maxDiscount.value < discount {
              discount := c.maxDiscount.value;
            }
            assert discount == CouponDiscount(c, subtotal);
          } else {
            discount := c.discountValue;
          }
          assert discount == CouponDiscount(c, subtotal);
          DiscountIgnoresMinimum(coupons, appliedCoupon.value, c, subtotal);
        }
      }

      assert discount == Discount(coupons, appliedCoupon, subtotal);
      var shipping := if subtotal > FreeShippingThreshold then 0.0 else ShippingFee;
      assert shipping == ShippingFor(subtotal);
      var total := subtotal - discount + shipping;
      t := Totals(subtotal, discount, shipping, if total < 0.0 then 0.0 else total);
      assert t == CartTotal(products, coupons, cart, appliedCoupon);
    }
  }
}
