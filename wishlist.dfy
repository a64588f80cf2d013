/**
 * The wishlist as a sequence of entries used as a set keyed by `productId`
 * (src/store/useStore.ts:69-88).
 */
module Wishlist {
  import opened Types

  /** `wishlist.some(item => item.productId === id)`. */
  predicate HasProduct(wishlist: seq<WishlistItem>, id: string)
  {
    exists i :: 0 <= i < |wishlist| && wishlist[i].productId == id
  }

  /** The `some` scan itself, entry by entry from the front. */
  function Contains(wishlist: seq<WishlistItem>, id: string): (b: bool)
    ensures b <==> HasProduct(wishlist, id)
  {
    if wishlist == [] then false
    else if wishlist[0].productId == id then true
    else
      var rest := Contains(wishlist[1..], id);
      assert forall k :: 0 < k < |wishlist| ==> wishlist[k] == wishlist[1..][k - 1];
      rest
  }

  /** At most one entry per product. */
  ghost predicate UniqueProducts(wishlist: seq<WishlistItem>)
  {
    forall i, j :: 0 <= i < j < |wishlist| ==> wishlist[i].productId != wishlist[j].productId
  }

  /** The number of entries for `id`. */
  function CountOf(wishlist: seq<WishlistItem>, id: string): (n: nat)
    ensures n == 0 <==> !HasProduct(wishlist, id)
    ensures n <= |wishlist|
  {
    if wishlist == [] then 0
    else
      var rest := CountOf(wishlist[1..], id);
      assert HasProduct(wishlist[1..], id) ==> HasProduct(wishlist, id) by {
        if HasProduct(wishlist[1..], id) {
          var k :| 0 <= k < |wishlist| - 1 && wishlist[1..][k].productId == id;
          assert wishlist[k + 1].productId == id;
        }
      }
      assert HasProduct(wishlist, id) && wishlist[0].productId != id ==> HasProduct(wishlist[1..], id) by {
        if HasProduct(wishlist, id) && wishlist[0].productId != id {
          var k :| 0 <= k < |wishlist| && wishlist[k].productId == id;
          assert wishlist[1..][k - 1].productId == id;
        }
      }
      (if wishlist[0].productId == id then 1 else 0) + rest
  }

  /**
   * The wishlist after `addToWishlist(id)` at time `addedAt`: afterwards `id`
   * is present, every other product keeps its presence, and at most one
   * entry was added, at the end.
   */
  function AddWish(wishlist: seq<WishlistItem>, id: string, addedAt: string): (r: seq<WishlistItem>)
    ensures HasProduct(r, id)
    ensures forall x :: x != id ==> (HasProduct(r, x) <==> HasProduct(wishlist, x))
    ensures |wishlist| <= |r| <= |wishlist| + 1 && r[..|wishlist|] == wishlist
  {
    if HasProduct(wishlist, id) then wishlist
    else
      var r := wishlist + [WishlistItem(id, addedAt)];
      assert r[|wishlist|].productId == id;
      assert forall i :: 0 <= i < |wishlist| ==> r[i] == wishlist[i];
      r
  }

  /** The wishlist after `removeFromWishlist(id)`: the entries for other products, in order. */
  function RemoveWish(wishlist: seq<WishlistItem>, id: string): (r: seq<WishlistItem>)
    ensures forall e :: e in r <==> e in wishlist && e.productId != id
    ensures |r| <= |wishlist|
  {
    if wishlist == [] then []
    else if wishlist[0].productId == id then RemoveWish(wishlist[1..], id)
    else [wishlist[0]] + RemoveWish(wishlist[1..], id)
  }

  /** Adding a product that is already present changes nothing; adding twice is adding once. */
  lemma AddWishIdempotent(wishlist: seq<WishlistItem>, id: string, a: string, b: string)
    ensures HasProduct(wishlist, id) ==> AddWish(wishlist, id, b) == wishlist
    ensures AddWish(AddWish(wishlist, id, a), id, b) == AddWish(wishlist, id, a)
  {
  }

  lemma AddWishPreservesUnique(wishlist: seq<WishlistItem>, id: string, addedAt: string)
    requires UniqueProducts(wishlist)
    ensures UniqueProducts(AddWish(wishlist, id, addedAt))
  {
  }

  /** With one entry per product, the product just added has exactly one entry. */
  lemma {:induction false} AddWishSingleEntry(wishlist: seq<WishlistItem>, id: string, addedAt: string)
    requires UniqueProducts(wishlist)
    ensures CountOf(AddWish(wishlist, id, addedAt), id) == 1
  {
    AddWishPreservesUnique(wishlist, id, addedAt);
    UniqueCountAtMostOne(AddWish(wishlist, id, addedAt), id);
  }

  lemma {:induction false} UniqueCountAtMostOne(wishlist: seq<WishlistItem>, id: string)
    requires UniqueProducts(wishlist)
    ensures CountOf(wishlist, id) <= 1
  {
    if wishlist != [] {
      UniqueCountAtMostOne(wishlist[1..], id);
      if wishlist[0].productId == id {
        assert forall k :: 0 <= k < |wishlist| - 1 ==> wishlist[1..][k].productId != id;
      }
    }
  }

  /** After `removeFromWishlist(id)` no entry for `id` is left, and others keep their presence. */
  lemma RemoveWishPresence(wishlist: seq<WishlistItem>, id: string, x: string)
    ensures HasProduct(RemoveWish(wishlist, id), x) <==> x != id && HasProduct(wishlist, x)
  {
    var r := RemoveWish(wishlist, id);
    if HasProduct(r, x) {
      var k :| 0 <= k < |r| && r[k].productId == x;
      assert r[k] in wishlist;
      var j :| 0 <= j < |wishlist| && wishlist[j] == r[k];
    }
    if x != id && HasProduct(wishlist, x) {
      var j :| 0 <= j < |wishlist| && wishlist[j].productId == x;
      assert wishlist[j] in r;
      var k :| 0 <= k < |r| && r[k] == wishlist[j];
    }
  }

  /** Removing an absent product is a no-op. */
  lemma {:induction false} RemoveWishAbsent(wishlist: seq<WishlistItem>, id: string)
    requires !HasProduct(wishlist, id)
    ensures RemoveWish(wishlist, id) == wishlist
  {
    if wishlist != [] {
      assert wishlist[0].productId != id;
      assert forall k :: 0 <= k < |wishlist| - 1 ==> wishlist[1..][k] == wishlist[k + 1];
      RemoveWishAbsent(wishlist[1..], id);
    }
  }

  lemma {:induction false} RemoveWishPreservesUnique(wishlist: seq<WishlistItem>, id: string)
    requires UniqueProducts(wishlist)
    ensures UniqueProducts(RemoveWish(wishlist, id))
  {
    if wishlist != [] {
      RemoveWishPreservesUnique(wishlist[1..], id);
      var rest := RemoveWish(wishlist[1..], id);
      if wishlist[0].productId != id {
        forall j | 0 <= j < |rest| ensures rest[j].productId != wishlist[0].productId {
          assert rest[j] in wishlist[1..];
        }
      }
    }
  }
}
