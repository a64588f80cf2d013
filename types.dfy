/** Entities of the storefront (src/types/index.ts), as values. */
module Types {

  datatype Option<+T> = None | Some(value: T)

  /** A purchasable variant of a product; `sku` is unique across the catalogue. */
  datatype ProductVariant = ProductVariant(
    color: string,
    colorHex: string,
    size: string,
    price: real,
    originalPrice: Option<real>,
    stock: int,
    sku: string,
    image: string)

  /**
   * A catalogue product, restricted to the fields the cart and the shop
   * page read. `createdAt` is the timestamp the ISO date parses to.
   */
  datatype Product = Product(
    id: string,
    name: string,
    description: string,
    category: string,
    tags: seq<string>,
    variants: seq<ProductVariant>,
    averageRating: real,
    createdAt: int)

  /** One cart line; the cart is keyed by `variantSku`. */
  datatype CartItem = CartItem(
    productId: string,
    variantSku: string,
    quantity: int,
    color: string,
    size: string)

  /** One wishlist entry; the wishlist is keyed by `productId`. */
  datatype WishlistItem = WishlistItem(productId: string, addedAt: string)

  datatype DiscountType = Percentage | Fixed

  /** A catalogue coupon. `expiresAt` is carried but never consulted. */
  datatype Coupon = Coupon(
    code: string,
    discountType: DiscountType,
    discountValue: real,
    minOrderValue: real,
    maxDiscount: Option<real>,
    expiresAt: string,
    isActive: bool)
}
