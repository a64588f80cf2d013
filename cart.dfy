/**
 * The cart as a sequence of lines keyed by `variantSku`, and the pure
 * transformations the store's cart mutators apply to it
 * (src/store/useStore.ts:37-65, 149-151).
 */
module Cart {
  import opened Types

  /** Some line of `cart` carries `sku`. */
  predicate HasSku(cart: seq<CartItem>, sku: string)
  {
    exists i :: 0 <= i < |cart| && cart[i].variantSku == sku
  }

  /** A SKU found in a slice of the cart is found in the cart. */
  lemma HasSkuSlice(cart: seq<CartItem>, lo: nat, hi: nat, sku: string)
    requires lo <= hi <= |cart|
    ensures HasSku(cart[lo..hi], sku) ==> HasSku(cart, sku)
  {
    if HasSku(cart[lo..hi], sku) {
      var k :| 0 <= k < hi - lo && cart[lo..hi][k].variantSku == sku;
      assert cart[lo + k].variantSku == sku;
    }
  }

  /** At most one line per SKU: the invariant the merge in AddLine keeps. */
  ghost predicate UniqueSkus(cart: seq<CartItem>)
  {
    forall i, j :: 0 <= i < j < |cart| ==> cart[i].variantSku != cart[j].variantSku
  }

  /** Every line holds at least one unit. */
  ghost predicate PositiveQuantities(cart: seq<CartItem>)
  {
    forall i :: 0 <= i < |cart| ==> cart[i].quantity >= 1
  }

  function Max(a: int, b: int): int { if a < b then b else a }

  /** `cart.findIndex(line => line.variantSku === sku)`, with None for -1. */
  function FindSku(cart: seq<CartItem>, sku: string): (r: Option<nat>)
    ensures r.Some? ==> r.value < |cart| && cart[r.value].variantSku == sku
    ensures r.Some? ==> forall j :: 0 <= j < r.value ==> cart[j].variantSku != sku
    ensures r.None? <==> !HasSku(cart, sku)
  {
    if cart == [] then None
    else if cart[0].variantSku == sku then Some(0)
    else match FindSku(cart[1..], sku)
      case None => None
      case Some(i) => Some(i + 1)
  }

  /** The cart after `addToCart(item)`: merge into the line with the same SKU, or append. */
  function AddLine(cart: seq<CartItem>, item: CartItem): (r: seq<CartItem>)
    ensures !HasSku(cart, item.variantSku) ==> r == cart + [item]
    ensures HasSku(cart, item.variantSku) ==> |r| == |cart|
    ensures HasSku(r, item.variantSku)
  {
    match FindSku(cart, item.variantSku)
    case Some(i) =>
      var r := cart[i := cart[i].(quantity := cart[i].quantity + item.quantity)];
      assert r[i].variantSku == item.variantSku;
      r
    case None =>
      assert (cart + [item])[|cart|] == item;
      cart + [item]
  }

  /** The cart after `removeFromCart(sku)`: the lines whose SKU differs, in order. */
  function RemoveSku(cart: seq<CartItem>, sku: string): (r: seq<CartItem>)
    ensures forall x :: x in r <==> x in cart && x.variantSku != sku
    ensures !HasSku(r, sku)
    ensures |r| <= |cart|
  {
    if cart == [] then []
    else if cart[0].variantSku == sku then RemoveSku(cart[1..], sku)
    else [cart[0]] + RemoveSku(cart[1..], sku)
  }

  /** The cart after `updateCartQuantity(sku, q)`: each line with that SKU gets `max(1, q)` units. */
  function UpdateQuantity(cart: seq<CartItem>, sku: string, q: int): (r: seq<CartItem>)
    ensures |r| == |cart|
    ensures forall i :: 0 <= i < |cart| ==>
      r[i] == if cart[i].variantSku == sku then cart[i].(quantity := Max(1, q)) else cart[i]
  {
    if cart == [] then []
    else [if cart[0].variantSku == sku then cart[0].(quantity := Max(1, q)) else cart[0]]
         + UpdateQuantity(cart[1..], sku, q)
  }

  /** `getCartItemCount`: the sum of the lines' quantities. */
  function ItemCount(cart: seq<CartItem>): int
  {
    if cart == [] then 0 else cart[0].quantity + ItemCount(cart[1..])
  }

  /** The number of units held under `sku`, summed over all lines with that SKU. */
  function QuantityOf(cart: seq<CartItem>, sku: string): int
  {
    if cart == [] then 0
    else (if cart[0].variantSku == sku then cart[0].quantity else 0) + QuantityOf(cart[1..], sku)
  }

  /** The cart after a sequence of `addToCart` calls. */
  function AddAll(cart: seq<CartItem>, items: seq<CartItem>): seq<CartItem>
    decreases |items|
  {
    if items == [] then cart else AddAll(AddLine(cart, items[0]), items[1..])
  }

  // ---------------------------------------------------------------------
  // Item counts

  lemma {:induction false} ItemCountAppend(a: seq<CartItem>, b: seq<CartItem>)
    ensures ItemCount(a + b) == ItemCount(a) + ItemCount(b)
  {
    if a != [] {
      assert (a + b)[1..] == a[1..] + b;
      ItemCountAppend(a[1..], b);
    } else {
      assert a + b == b;
    }
  }

  lemma {:induction false} ItemCountUpdate(cart: seq<CartItem>, i: nat, x: CartItem)
    requires i < |cart|
    ensures ItemCount(cart[i := x]) == ItemCount(cart) - cart[i].quantity + x.quantity
  {
    if i > 0 {
      assert cart[i := x][1..] == cart[1..][i - 1 := x];
      ItemCountUpdate(cart[1..], i - 1, x);
    }
  }

  /** The item count counts units, not lines: with positive quantities it is at least the number of lines. */
  lemma {:induction false} ItemCountAtLeastLines(cart: seq<CartItem>)
    requires PositiveQuantities(cart)
    ensures ItemCount(cart) >= |cart|
  {
    if cart != [] {
      ItemCountAtLeastLines(cart[1..]);
    }
  }

  /** `addToCart(item)` raises the item count by exactly `item.quantity`. */
  lemma AddLineItemCount(cart: seq<CartItem>, item: CartItem)
    ensures ItemCount(AddLine(cart, item)) == ItemCount(cart) + item.quantity
  {
    match FindSku(cart, item.variantSku)
    case Some(i) =>
      ItemCountUpdate(cart, i, cart[i].(quantity := cart[i].quantity + item.quantity));
    case None =>
      ItemCountAppend(cart, [item]);
      assert ItemCount([item]) == item.quantity;
  }

  // ---------------------------------------------------------------------
  // Merging by SKU

  /** With one line per SKU, the matching line is the one findIndex returns. */
  lemma FindSkuUnique(cart: seq<CartItem>, i: nat)
    requires UniqueSkus(cart) && i < |cart|
    ensures FindSku(cart, cart[i].variantSku) == Some(i)
  {
  }

  /**
   * Adding a SKU the cart already holds keeps the length, grows that line's
   * quantity by `item.quantity` and leaves every other line as it was.
   */
  lemma AddLineExisting(cart: seq<CartItem>, item: CartItem, i: nat)
    requires UniqueSkus(cart)
    requires i < |cart| && cart[i].variantSku == item.variantSku
    ensures |AddLine(cart, item)| == |cart|
    ensures AddLine(cart, item)[i] == cart[i].(quantity := cart[i].quantity + item.quantity)
    ensures forall j :: 0 <= j < |cart| && j != i ==> AddLine(cart, item)[j] == cart[j]
  {
    FindSkuUnique(cart, i);
  }

  lemma AddLinePreservesUnique(cart: seq<CartItem>, item: CartItem)
    requires UniqueSkus(cart)
    ensures UniqueSkus(AddLine(cart, item))
  {
  }

  lemma AddLinePreservesPositive(cart: seq<CartItem>, item: CartItem)
    requires PositiveQuantities(cart) && item.quantity >= 1
    ensures PositiveQuantities(AddLine(cart, item))
  {
  }

  lemma {:induction false} QuantityOfAppend(a: seq<CartItem>, b: seq<CartItem>, sku: string)
    ensures QuantityOf(a + b, sku) == QuantityOf(a, sku) + QuantityOf(b, sku)
  {
    if a != [] {
      assert (a + b)[1..] == a[1..] + b;
      QuantityOfAppend(a[1..], b, sku);
    } else {
      assert a + b == b;
    }
  }

  lemma {:induction false} QuantityOfUpdate(cart: seq<CartItem>, i: nat, x: CartItem, sku: string)
    requires i < |cart| && x.variantSku == cart[i].variantSku
    ensures QuantityOf(cart[i := x], sku)
         == QuantityOf(cart, sku) + (if x.variantSku == sku then x.quantity - cart[i].quantity else 0)
  {
    if i > 0 {
      assert cart[i := x][1..] == cart[1..][i - 1 := x];
      QuantityOfUpdate(cart[1..], i - 1, x, sku);
    }
  }

  /** Adding a line moves only its own SKU's quantity, by exactly `item.quantity`. */
  lemma AddLineQuantityOf(cart: seq<CartItem>, item: CartItem, sku: string)
    ensures QuantityOf(AddLine(cart, item), sku)
         == QuantityOf(cart, sku) + (if item.variantSku == sku then item.quantity else 0)
  {
    match FindSku(cart, item.variantSku)
    case Some(i) =>
      QuantityOfUpdate(cart, i, cart[i].(quantity := cart[i].quantity + item.quantity), sku);
    case None =>
      QuantityOfAppend(cart, [item], sku);
  }

  /** With one line per SKU, the quantity under a SKU is that line's quantity. */
  lemma {:induction false} QuantityOfUnique(cart: seq<CartItem>, i: nat)
    requires UniqueSkus(cart) && i < |cart|
    ensures QuantityOf(cart, cart[i].variantSku) == cart[i].quantity
  {
    if i == 0 {
      QuantityOfAbsent(cart[1..], cart[0].variantSku);
    } else {
      QuantityOfUnique(cart[1..], i - 1);
    }
  }

  lemma {:induction false} QuantityOfAbsent(cart: seq<CartItem>, sku: string)
    requires !HasSku(cart, sku)
    ensures QuantityOf(cart, sku) == 0
  {
    if cart != [] {
      HasSkuSlice(cart, 1, |cart|, sku);
      QuantityOfAbsent(cart[1..], sku);
    }
  }

  /**
   * Repeated `addToCart` calls: adding any sequence of lines for `sku` leaves
   * one line per SKU, and the quantity under `sku` grows by the sum of the
   * quantities passed.
   */
  lemma {:induction false} AddAllSameSku(cart: seq<CartItem>, items: seq<CartItem>, sku: string)
    requires UniqueSkus(cart)
    requires forall k :: 0 <= k < |items| ==> items[k].variantSku == sku
    ensures UniqueSkus(AddAll(cart, items))
    ensures QuantityOf(AddAll(cart, items), sku) == QuantityOf(cart, sku) + ItemCount(items)
    ensures items != [] ==> HasSku(AddAll(cart, items), sku)
    decreases |items|
  {
    if items != [] {
      var next := AddLine(cart, items[0]);
      AddLinePreservesUnique(cart, items[0]);
      AddLineQuantityOf(cart, items[0], sku);
      AddAllSameSku(next, items[1..], sku);
      if items[1..] == [] {
        assert AddAll(next, items[1..]) == next;
      }
    }
  }

  /**
   * Starting from a cart without `sku`, a run of adds for `sku` yields exactly
   * one line for it, holding the sum of the quantities passed.
   */
  lemma RepeatedAddsMerge(cart: seq<CartItem>, items: seq<CartItem>, sku: string)
    requires UniqueSkus(cart) && !HasSku(cart, sku) && items != []
    requires forall k :: 0 <= k < |items| ==> items[k].variantSku == sku
    ensures exists i :: (0 <= i < |AddAll(cart, items)|
      && AddAll(cart, items)[i].variantSku == sku
      && AddAll(cart, items)[i].quantity == ItemCount(items)
      && forall j :: 0 <= j < |AddAll(cart, items)| && AddAll(cart, items)[j].variantSku == sku ==> j == i)
  {
    var r := AddAll(cart, items);
    AddAllSameSku(cart, items, sku);
    QuantityOfAbsent(cart, sku);
    var i :| 0 <= i < |r| && r[i].variantSku == sku;
    QuantityOfUnique(r, i);
  }

  // ---------------------------------------------------------------------
  // Removal

  lemma {:induction false} RemoveSkuAbsent(cart: seq<CartItem>, sku: string)
    requires !HasSku(cart, sku)
    ensures RemoveSku(cart, sku) == cart
  {
    if cart != [] {
      assert cart[0].variantSku != sku;
      HasSkuSlice(cart, 1, |cart|, sku);
      RemoveSkuAbsent(cart[1..], sku);
    }
  }

  /** Removal works line by line: it distributes over concatenation, so order is kept. */
  lemma {:induction false} RemoveSkuAppend(a: seq<CartItem>, b: seq<CartItem>, sku: string)
    ensures RemoveSku(a + b, sku) == RemoveSku(a, sku) + RemoveSku(b, sku)
  {
    if a != [] {
      assert (a + b)[1..] == a[1..] + b;
      RemoveSkuAppend(a[1..], b, sku);
    } else {
      assert a + b == b;
    }
  }

  /** With one line per SKU, `removeFromCart` cuts out exactly the matching line. */
  lemma {:induction false} RemoveSkuExisting(cart: seq<CartItem>, i: nat)
    requires UniqueSkus(cart) && i < |cart|
    ensures RemoveSku(cart, cart[i].variantSku) == cart[..i] + cart[i + 1..]
  {
    var pre, x, post := cart[..i], cart[i], cart[i + 1..];
    OthersLackSku(cart, i);
    assert cart == pre + [x] + post;
    RemoveSkuSplit(pre, x, post);
  }

  lemma {:induction false} RemoveSkuSplit(pre: seq<CartItem>, x: CartItem, post: seq<CartItem>)
    requires !HasSku(pre, x.variantSku) && !HasSku(post, x.variantSku)
    ensures RemoveSku(pre + [x] + post, x.variantSku) == pre + post
  {
    var sku := x.variantSku;
    var tail := [x] + post;
    assert pre + [x] + post == pre + tail;
    RemoveSkuAppend(pre, tail, sku);
    RemoveSkuAbsent(pre, sku);
    assert tail[0] == x && tail[1..] == post;
    assert RemoveSku(tail, sku) == RemoveSku(post, sku);
    RemoveSkuAbsent(post, sku);
  }

  /** With one line per SKU, the lines before and after line `i` lack its SKU. */
  lemma OthersLackSku(cart: seq<CartItem>, i: nat)
    requires UniqueSkus(cart) && i < |cart|
    ensures !HasSku(cart[..i], cart[i].variantSku)
    ensures !HasSku(cart[i + 1..], cart[i].variantSku)
  {
    var post := cart[i + 1..];
    forall k | 0 <= k < |post| ensures post[k].variantSku != cart[i].variantSku {
      assert post[k] == cart[i + 1 + k];
    }
  }

  /** Removing a SKU lowers the item count by exactly the units held under it. */
  lemma {:induction false} RemoveSkuItemCount(cart: seq<CartItem>, sku: string)
    ensures ItemCount(RemoveSku(cart, sku)) == ItemCount(cart) - QuantityOf(cart, sku)
  {
    if cart != [] {
      RemoveSkuItemCount(cart[1..], sku);
      if cart[0].variantSku != sku {
        ItemCountAppend([cart[0]], RemoveSku(cart[1..], sku));
      }
    }
  }

  lemma {:induction false} RemoveSkuSubsequence(cart: seq<CartItem>, sku: string)
    ensures UniqueSkus(cart) ==> UniqueSkus(RemoveSku(cart, sku))
    ensures PositiveQuantities(cart) ==> PositiveQuantities(RemoveSku(cart, sku))
  {
    if cart != [] {
      var tail := cart[1..];
      assert UniqueSkus(cart) ==> UniqueSkus(tail);
      assert PositiveQuantities(cart) ==> PositiveQuantities(tail);
      RemoveSkuSubsequence(tail, sku);
      var rest := RemoveSku(tail, sku);
      if cart[0].variantSku != sku {
        assert RemoveSku(cart, sku) == [cart[0]] + rest;
        if UniqueSkus(cart) {
          forall j | 0 <= j < |rest| ensures rest[j].variantSku != cart[0].variantSku {
            assert rest[j] in tail;
          }
        }
      } else {
        assert RemoveSku(cart, sku) == rest;
      }
    }
  }

  // ---------------------------------------------------------------------
  // Quantity updates

  /** `updateCartQuantity` never removes a line and keeps one line per SKU. */
  lemma UpdateQuantityKeepsLines(cart: seq<CartItem>, sku: string, q: int, s: string)
    ensures HasSku(UpdateQuantity(cart, sku, q), s) <==> HasSku(cart, s)
    ensures UniqueSkus(cart) ==> UniqueSkus(UpdateQuantity(cart, sku, q))
    ensures PositiveQuantities(cart) ==> PositiveQuantities(UpdateQuantity(cart, sku, q))
  {
    var r := UpdateQuantity(cart, sku, q);
    assert forall i :: 0 <= i < |cart| ==> r[i].variantSku == cart[i].variantSku;
  }

  /** Updating a SKU the cart does not hold is a no-op. */
  lemma UpdateQuantityAbsent(cart: seq<CartItem>, sku: string, q: int)
    requires !HasSku(cart, sku)
    ensures UpdateQuantity(cart, sku, q) == cart
  {
  }
}
