# Storefront cart store and shop listing, in Dafny

This project models two parts of a client-side fashion storefront.

- **The store** (`src/store/useStore.ts`) is one object with three mutable fields:
  - the cart: lines keyed by variant SKU;
  - the wishlist: entries keyed by product id;
  - the applied coupon code.

  Its mutators add, merge, remove and clamp cart lines; add and remove wishlist entries; and apply or drop a coupon. `getCartTotal` derives the subtotal, discount, shipping and total from the state and the read-only catalogue.
- **The shop page's listing** (`src/pages/Shop.tsx`) filters the catalogue by five criteria and sorts it by one of four orders. The page also toggles colours and sizes, counts active filters and resets them.

Modules:

- `Types`: the entities (variant, product, cart line, wishlist entry, coupon) as values.
- `Text`: `toLowerCase`, `toUpperCase` and `includes`.
- `Cart`: the cart transformations as functions on sequences, with their invariants (one line per SKU, positive quantities) and item-count arithmetic.
- `Wishlist`: the wishlist as a sequence used as a set.
- `Pricing`: catalogue lookups, the subtotal, discount, shipping and total as specification functions, and their properties.
- `Store`: the class `Store`. Its fields `cart`, `wishlist` and `appliedCoupon` are updated in place by methods with `modifies this`.
  - Every mutator keeps `Valid()` (unique SKUs, unique wishlist products) and states its new state through the `Cart`, `Wishlist` and `Pricing` functions.
  - `GetCartTotal` accumulates the subtotal in a loop and is proved equal to `Pricing.CartTotal`.
- `Shop`: the filter-and-sort pipeline and the filter-panel state.
  - The pipeline is proved to list exactly the catalogue products that pass every active filter, each as often as in the catalogue, ordered by the selected comparator.

Modelling choices:

- Money is `real` and quantities are `int`.
- JavaScript truthiness is written out:
  - an applied coupon or a category slug counts only when present and non-empty;
  - a `maxDiscount` counts only when present and non-zero.
- `Math.min` over a product without variants is Infinity. It is modelled as `MinPrice` returning `None`, which fails the price filter. It follows, as a proof, that the sort's `variants[0]` always exists.

## Model

| member | source | states |
|---|---|---|
| Text.Lower | src/pages/Shop.tsx:39 | lower-casing keeps the length and maps every ASCII capital to its small letter, leaving other characters alone |
| Text.Upper | src/store/useStore.ts:92 | upper-casing keeps the length and maps every ASCII small letter to its capital, leaving other characters alone |
| Text.Includes | src/pages/Shop.tsx:48-50 | `includes` holds exactly when the needle occurs at some position of the haystack |
| Cart.FindSku | src/store/useStore.ts:39-41 | `findIndex` returns the first line with the SKU, and nothing exactly when no line has it |
| Cart.AddLine | src/store/useStore.ts:37-50 | an unknown SKU is appended as a new last line; a known SKU keeps the line count; the SKU is present afterwards |
| Cart.AddLineExisting | src/store/useStore.ts:43-46 | adding a held SKU raises that line's quantity by the item's and leaves every other line unchanged |
| Cart.AddLinePreservesUnique | src/store/useStore.ts:39-49 | adding keeps one line per SKU |
| Cart.AddLinePreservesPositive | src/store/useStore.ts:37-50 | adding a positive quantity keeps every line's quantity positive |
| Cart.AddLineItemCount | src/store/useStore.ts:37-50 | adding raises the item count by exactly the item's quantity |
| Cart.AddLineQuantityOf | src/store/useStore.ts:37-50 | adding moves only the added SKU's quantity, by exactly the item's quantity |
| Cart.FindSkuUnique | src/store/useStore.ts:39-41 | with one line per SKU, `findIndex` finds the line that holds it |
| Cart.QuantityOfUnique | src/store/useStore.ts:39-46 | with one line per SKU, the units under a SKU are that line's quantity |
| Cart.AddAllSameSku | src/store/useStore.ts:37-50 | repeated adds of one SKU keep one line per SKU and raise its quantity by the sum of the quantities added |
| Cart.RepeatedAddsMerge | src/store/useStore.ts:37-50 | repeated adds of a new SKU produce exactly one line for it, holding the sum of the quantities |
| Cart.RemoveSku | src/store/useStore.ts:53-57 | removal keeps exactly the lines with another SKU, and the SKU is absent afterwards |
| Cart.RemoveSkuAbsent | src/store/useStore.ts:53-57 | removing a SKU the cart lacks changes nothing |
| Cart.RemoveSkuAppend | src/store/useStore.ts:53-57 | removal distributes over concatenation, so the remaining lines keep their order |
| Cart.RemoveSkuExisting | src/store/useStore.ts:53-57 | with one line per SKU, removal cuts out exactly the matching line |
| Cart.RemoveSkuItemCount | src/store/useStore.ts:53-57 | removal lowers the item count by exactly the units held under the SKU |
| Cart.RemoveSkuSubsequence | src/store/useStore.ts:53-57 | removal keeps one line per SKU and positive quantities |
| Cart.UpdateQuantity | src/store/useStore.ts:59-65 | every line with the SKU gets `max(1, q)` units, every other line is unchanged, and the length is kept |
| Cart.UpdateQuantityKeepsLines | src/store/useStore.ts:59-65 | a quantity update never adds or drops a SKU, and keeps uniqueness and positive quantities |
| Cart.UpdateQuantityAbsent | src/store/useStore.ts:59-65 | updating a SKU the cart lacks changes nothing |
| Cart.ItemCount | src/store/useStore.ts:149-151 | reference definition of the `reduce` sum of quantities (no contract of its own); stated through Cart.ItemCountAppend, Cart.ItemCountAtLeastLines, Cart.AddLineItemCount and Cart.RemoveSkuItemCount |
| Cart.ItemCountAtLeastLines | src/store/useStore.ts:149-151 | with positive quantities the item count is at least the number of lines |
| Cart.ItemCountAppend | src/store/useStore.ts:149-151 | the item count of two carts joined is the sum of their counts |
| Wishlist.Contains | src/store/useStore.ts:71 | the scan answers true exactly when some entry has the product id |
| Wishlist.CountOf | src/store/useStore.ts:69-88 | the count of entries for a product is 0 exactly when the product is absent |
| Wishlist.AddWish | src/store/useStore.ts:69-78 | afterwards the product is present, every other product keeps its presence, and at most one entry is appended at the end |
| Wishlist.AddWishIdempotent | src/store/useStore.ts:71-73 | adding a present product changes nothing, so adding twice is adding once |
| Wishlist.AddWishPreservesUnique | src/store/useStore.ts:69-78 | adding keeps one entry per product |
| Wishlist.AddWishSingleEntry | src/store/useStore.ts:69-78 | after adding, the product has exactly one entry |
| Wishlist.UniqueCountAtMostOne | src/store/useStore.ts:69-78 | with one entry per product, no product is counted twice |
| Wishlist.RemoveWish | src/store/useStore.ts:80-84 | removal keeps exactly the entries of other products |
| Wishlist.RemoveWishPresence | src/store/useStore.ts:80-84 | after removal the product is absent and every other product keeps its presence |
| Wishlist.RemoveWishAbsent | src/store/useStore.ts:80-84 | removing an absent product changes nothing |
| Wishlist.RemoveWishPreservesUnique | src/store/useStore.ts:80-84 | removal keeps one entry per product |
| Pricing.Find | src/store/useStore.ts:119 | `find` returns the first element that matches, and nothing exactly when none does |
| Pricing.FindProduct | src/store/useStore.ts:119 | returns the first product with the id, and nothing exactly when none has it |
| Pricing.FindVariant | src/store/useStore.ts:121 | returns the first variant with the SKU, and nothing exactly when none has it |
| Pricing.FindActiveCoupon | src/store/useStore.ts:91-93 | returns the first active coupon whose code equals the input ignoring case, and nothing exactly when none qualifies |
| Pricing.FindCouponByCode | src/store/useStore.ts:130 | returns the first coupon whose stored code equals the applied code exactly, active or not |
| Pricing.ActiveCouponResolves | src/store/useStore.ts:108-130 | with unique codes, the coupon accepted at application is the one later found for the discount |
| Pricing.LinePrice | src/store/useStore.ts:119-125 | reference definition of one line's contribution: the found variant's price times the quantity, 0 when the product or the variant is unknown (no contract of its own); stated through Pricing.LinePriceNonNegative and Pricing.LinePriceMerge |
| Pricing.Subtotal | src/store/useStore.ts:116-126 | reference definition of the line-by-line sum (no contract of its own); stated through Pricing.SubtotalStep, Pricing.SubtotalAppend, Pricing.SubtotalUpdate, Pricing.SubtotalNonNegative and Store.Store.CartSubtotal |
| Pricing.SubtotalStep | src/store/useStore.ts:118-126 | the sum over the first i + 1 lines adds line i's contribution to the sum over the first i |
| Pricing.SubtotalAppend | src/store/useStore.ts:116-126 | the subtotal of two carts joined is the sum of their subtotals |
| Pricing.SubtotalUpdate | src/store/useStore.ts:116-126 | replacing one line changes the subtotal by the difference of the two lines' contributions |
| Pricing.LinePriceNonNegative | src/store/useStore.ts:119-125 | with non-negative prices a line of non-negative quantity contributes at least 0 |
| Pricing.SubtotalNonNegative | src/store/useStore.ts:116-126 | with non-negative prices and quantities the subtotal is non-negative |
| Pricing.LinePriceMerge | src/store/useStore.ts:45 | merging an item into a line of the same product and SKU adds the two lines' contributions |
| Pricing.AddLineSubtotal | src/store/useStore.ts:37-50 | adding an item raises the subtotal by that item's own contribution |
| Pricing.RemoveSkuSubtotal | src/store/useStore.ts:53-57 | removing a line lowers the subtotal by exactly that line's contribution |
| Pricing.CouponDiscount | src/store/useStore.ts:132-139 | reference definition of a coupon's discount: the percentage of the subtotal, lowered to a non-zero cap, or the fixed value (no contract of its own); stated through Pricing.PercentageDiscountBounds, Pricing.ZeroCapIsNoCap and Pricing.CappedPercentageExample |
| Pricing.PercentageDiscountBounds | src/store/useStore.ts:132-136 | a percentage of at most 100 grants between 0 and the subtotal, never above a cap in force, and the plain share without one |
| Pricing.ZeroCapIsNoCap | src/store/useStore.ts:134 | a cap of 0 is falsy and acts as no cap |
| Pricing.CappedPercentageExample | src/store/useStore.ts:132-136 | 50% capped at 30 on a subtotal of 100 grants 30 |
| Pricing.Discount | src/store/useStore.ts:128-141 | the discount is 0 when no code is applied, the code is empty, or no coupon has that code |
| Pricing.DiscountIgnoresMinimum | src/store/useStore.ts:128-141 | an applied code's discount is charged whatever the subtotal, the minimum order value or the active flag |
| Pricing.ShippingFor | src/store/useStore.ts:143 | shipping is 0 exactly when the subtotal is strictly above 100, and otherwise the 9.99 fee |
| Pricing.CartTotal | src/store/useStore.ts:114-147 | the totals combine subtotal, discount and shipping, and the total is subtotal − discount + shipping clamped at 0 |
| Pricing.ShippingExamples | src/store/useStore.ts:143-146 | without a coupon a subtotal of 50 totals 59.99 and a subtotal of 150 totals 150 |
| Pricing.TotalAtMostUndiscounted | src/store/useStore.ts:144-146 | a non-negative discount never lifts the total above subtotal plus shipping |
| Pricing.OversizedFixedCoupon | src/store/useStore.ts:137-146 | a fixed coupon worth more than subtotal plus shipping brings the total to 0, not below |
| Pricing.NoCouponTotal | src/store/useStore.ts:128-146 | without a coupon the total is subtotal plus shipping |
| Store.Store.constructor | src/store/useStore.ts:33-35 | the store starts with an empty cart and wishlist and no coupon |
| Store.Store.GetCartItemCount | src/store/useStore.ts:149-151 | an empty cart counts 0, and a cart of positive lines counts at least its line count |
| Store.Store.IsInWishlist | src/store/useStore.ts:86-88 | true exactly when some wishlist entry has the product id |
| Store.Store.AddToCart | src/store/useStore.ts:37-50 | merges into the line with the SKU or appends, keeps one line per SKU, raises the item count by the item's quantity, and changes nothing else |
| Store.Store.RemoveFromCart | src/store/useStore.ts:53-57 | drops the SKU's line, keeps the other lines in order, lowers the item count by its units, and keeps the coupon |
| Store.Store.UpdateCartQuantity | src/store/useStore.ts:59-65 | sets the SKU's line to `max(1, quantity)`, never adds or drops a line, and is a no-op for an absent SKU |
| Store.Store.ClearCart | src/store/useStore.ts:67 | empties the cart and drops the coupon, keeping the wishlist |
| Store.Store.AddToWishlist | src/store/useStore.ts:69-78 | the product is then present with exactly one entry, appended only if it was absent |
| Store.Store.RemoveFromWishlist | src/store/useStore.ts:80-84 | the product is then absent and every other product keeps its presence |
| Store.Store.ApplyCoupon | src/store/useStore.ts:90-110 | an unknown or inactive code fails and keeps the coupon; a subtotal under the minimum fails and keeps the coupon; otherwise the coupon's stored code is applied |
| Store.ApplyOutcome.Message | src/store/useStore.ts:95-109 | the three replies of `applyCoupon`; the message is the success text exactly when the outcome is a success (`Success`) |
| Store.Store.RemoveCoupon | src/store/useStore.ts:112 | drops the applied coupon and nothing else |
| Store.Store.CartSubtotal | src/store/useStore.ts:116-126 | the `forEach` loop's sum equals the reference subtotal, unknown products and variants adding nothing |
| Store.Store.GetCartTotal | src/store/useStore.ts:114-147 | the subtotal from the loop, then discount, shipping and the clamped total, equal the specification totals; the total is never negative and shipping is free exactly above 100 |
| Shop.SortKeyOf | src/pages/Shop.tsx:75-88 | any value other than the three named orders selects newest first |
| Shop.Filter | src/pages/Shop.tsx:55-58 | `filter` keeps exactly the elements that pass, each as often as before, and never lengthens the list |
| Shop.FilterAppend | src/pages/Shop.tsx:55-58 | filtering distributes over concatenation, so the kept elements stay in their original order |
| Shop.MinPrice | src/pages/Shop.tsx:56 | the minimum is absent exactly for no variants, is some variant's price, and is at most every price |
| Shop.Narrow | src/pages/Shop.tsx:36-72 | the five filters never add products, and every survivor's cheapest variant lies in the price range |
| Shop.NarrowKeepsShown | src/pages/Shop.tsx:36-72 | filtering keeps exactly the products that pass every active filter, with their catalogue multiplicity |
| Shop.NarrowedHaveVariants | src/pages/Shop.tsx:54-80 | every product past the price filter has a variant, so the price orders' `variants[0]` exists |
| Shop.Compare | src/pages/Shop.tsx:77-87 | each comparator is non-positive exactly when the pair is in ascending price, descending price, descending rating or newest-first order |
| Shop.CompareSwap | src/pages/Shop.tsx:77-87 | each comparator is antisymmetric |
| Shop.Insert | src/pages/Shop.tsx:74-88 | insertion adds exactly the one product to the multiset |
| Shop.InsertSorted | src/pages/Shop.tsx:74-88 | inserting into a list sorted by the comparator keeps it sorted |
| Shop.SortProducts | src/pages/Shop.tsx:74-88 | the sort is a permutation |
| Shop.SortProductsSorted | src/pages/Shop.tsx:74-88 | the sort's result has no pair out of order under the comparator |
| Shop.FilteredProducts | src/pages/Shop.tsx:33-91 | the listing is never longer than the catalogue, and every listed product has a variant; its full meaning is Shop.FilteredProductsCorrect and Shop.FilteredProductsOrder |
| Shop.FilteredProductsCorrect | src/pages/Shop.tsx:33-91 | the listing holds exactly the shown products, each as often as in the catalogue, sorted by the selected comparator |
| Shop.ListedIsShown | src/pages/Shop.tsx:33-91 | a listed product is a catalogue product that passes every active filter |
| Shop.ShownMeans | src/pages/Shop.tsx:36-72 | a product that passes has the category, contains the query in its name, description or a tag, has a variant in the price range and none below it, and has a selected colour and a selected size when any are selected |
| Shop.FilteredProductsOrder | src/pages/Shop.tsx:74-88 | every pair of listed products is in ascending price, descending price, descending rating or newest-first order |
| Shop.Toggle | src/pages/Shop.tsx:108 | toggling flips the value's membership and keeps every other value's |
| Shop.ToggleTwiceAbsent | src/pages/Shop.tsx:108 | toggling an unselected value twice restores the list |
| Shop.ToggleTwicePresent | src/pages/Shop.tsx:108 | toggling a selected value twice removes its duplicates and moves it to the end |
| Shop.ToggleColor | src/pages/Shop.tsx:106-110 | flips the colour's selection and leaves the rest of the filter state unchanged |
| Shop.ToggleSize | src/pages/Shop.tsx:112-116 | flips the size's selection and leaves the rest of the filter state unchanged |
| Shop.ActiveFiltersCount | src/pages/Shop.tsx:93-97 | the count is 0 exactly when no category, no narrowed price and no colour or size is selected; it lies between the selections and the selections plus two |
| Shop.ToggleLength | src/pages/Shop.tsx:108 | toggling lengthens the list by one, or shortens it by every occurrence of the value |
| Shop.ToggleColorCounts | src/pages/Shop.tsx:93-110 | toggling a new colour raises the count by one; toggling a selected one lowers it by that colour's number of occurrences |
| Shop.ToggleSizeCounts | src/pages/Shop.tsx:93-116 | toggling a new size raises the count by one; toggling a selected one lowers it by that size's number of occurrences |
| Shop.ClearFilters | src/pages/Shop.tsx:99-104 | afterwards the count is 0, the query is empty, the price range is 0 to 200, and the order is kept |
| Shop.ClearedListing | src/pages/Shop.tsx:99-104 | after a reset the listing is every catalogue product whose cheapest variant costs 0 to 200 |

## Left out

- The `persist` middleware and the zustand `set`/`get` plumbing. Browser storage and subscriptions are outside the model; the store is a plain object.
- Aliasing in `addToCart` (src/store/useStore.ts:44-45). The source copies the array shallowly and then bumps the quantity on the shared line object, so the previous state's line changes too. The model has value semantics and captures only the new cart.
- Wall-clock time. `addToWishlist`'s ISO timestamp is a parameter (`addedAt`), and a product's `createdAt` date is the integer it parses to.
- Unicode case mapping. `toLowerCase`/`toUpperCase` are modelled on ASCII letters only.
- IEEE-754 floating point. Money is exact `real`, so rounding, `NaN` and the display's `toFixed` are not modelled; a price bound of Infinity is not representable.
- Store.ApplyOutcome.Message: how the host turns `minOrderValue` into text inside the message is a parameter.
- Coupon expiry. `expiresAt` is carried but never consulted, as in the source.
- Coupon re-checks after application. A coupon stays applied when the subtotal later drops below its minimum (`Pricing.DiscountIgnoresMinimum`); the model keeps this as the source does.
- Product fields that neither the store nor the listing reads (slug, images, reviews, flags and so on) are not modelled.
- The host's sort algorithm. `result.sort` is modelled as an insertion sort, which is stable like the host's; stability is not stated as a lemma.
- Pricing.AddLineSubtotal: stated only when any existing line with the item's SKU also has its product id. The catalogue's SKUs are unique across products, but the cart does not enforce this.
- The URL parameters, view mode, page layout and every other UI component of the shop page, and the catalogue data file itself.
