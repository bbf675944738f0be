# Online shopping store: model of the cart, the product view and the UI state

This project models the logic of the `App` component of a single-page storefront. The component lists a
bundled product catalog and filters it by a search text and a category. It sorts the matching
products by unit price and keeps a shopping cart that it mirrors to the browser's local storage.
All of this logic lives in `src/App.tsx`.

Modules, leaves first:

- `Wrappers`: `Option`, which models `null` for `selectedCategory` and for the stored-cart slot.
- `Catalog`: the `Product` record (the `ItemData` interface without `quantity`). Prices are integers
  in the smallest currency unit.
- `Text`: ASCII `toLowerCase`, and `includes` as a left-to-right scan. The scan is proved equal to a
  reference "occurs at some index" definition.
- `View`: the filter-and-sort effect as pure functions. `Filtered` models `jsonData.filter(...)` and
  `SortByPrice` models `slice().sort(compare)` with the source's comparator. `Array.prototype.sort`
  is stable, so `SortByPrice` is a stable insertion sort. `Visible` composes the two. The lemmas say
  four things: the visible list holds exactly the matching catalog products, it is a permutation of
  the filtered catalog, it is ordered by price in the chosen direction, and equal prices keep
  catalog order. It is also idempotent.
- `Cart`: cart lines (a product copy plus a `nat` quantity, where an absent quantity is 0). It holds
  `find`, the pure updates computed by the add/increase/decrease handlers, and the two `reduce`
  totals. The lemmas relate each update to the totals, and they relate decrease to increase.
- `Storefront`: class `App` with the component's state fields and one method per handler. The
  methods are `Search`, `FilterByCategory`, `ToggleSort`, `AddToCart`, `ClearCart`,
  `IncreaseQuantity`, `DecreaseQuantity` and `Checkout`. `storedCart` is the `cartItems`
  local-storage slot. The class invariant `Valid()` says two things: ids are unique, and
  `MirrorTracks` holds, meaning the stored copy has the live cart's products in the same order
  while its quantities may lag. Every handler preserves `Valid()`.

The stored copy is written only when `AddToCart` appends a line (`src/App.tsx:123`). It is removed on
clear and checkout (`src/App.tsx:128`, `:164`). Increase and decrease replace the cart but do not
write the stored copy (`src/App.tsx:131-150`). So a page reload after a quantity change restores the quantities as of the last add.
`Storefront.ReloadAfterIncrease` shows this: the live cart holds 2 items and the restored one holds 1.

Quantities are `nat`, so no sequence of operations can make one negative. `Decreased` only
subtracts from a positive quantity, and Dafny checks that.

## Model

| member | source | states |
|---|---|---|
| `Text.LowerChar` | src/App.tsx:180-181 | an ASCII capital becomes the matching small letter; every other character is unchanged; the result is never a capital |
| `Text.Lower` | src/App.tsx:180-181 | `toLowerCase` keeps the length, maps each capital to its small letter, leaves every other character, and leaves no capital |
| `Text.LowerIdempotent` | src/App.tsx:180-181 | lower-casing an already lower-cased string changes nothing |
| `Text.Includes` | src/App.tsx:181 | a found needle is no longer than the string; the empty needle is found in every string |
| `Text.IncludesIffOccurs` | src/App.tsx:179-181 | the `includes` scan succeeds exactly when the needle occurs in the string at some index |
| `View.MatchesSearch` | src/App.tsx:179-181 | the search test holds exactly when the lower-cased search text occurs at some index of the lower-cased product name |
| `View.Matches` | src/App.tsx:179-186 | the `filter` callback holds exactly when the lower-cased search text occurs in the lower-cased name and either no category is selected or the product's category equals the selected one (that second test is `MatchesCategory`, which has no contract of its own) |
| `View.Filtered` | src/App.tsx:178-187 | the filtered list is never longer than the catalog |
| `View.FilteredCount` | src/App.tsx:178-187 | a product occurs in the filtered list as often as in the catalog if it matches the search text (case-insensitive) and the category (or no category is selected), and never otherwise |
| `View.FilteredAppend` | src/App.tsx:178-187 | filtering commutes with concatenation, so matching products keep their catalog order |
| `View.FilteredAllMatching` | src/App.tsx:178-187 | filtering a list whose every product matches returns it unchanged |
| `View.FilteredUnrestricted` | src/App.tsx:178-187 | with empty search text and no category, the filter keeps the whole catalog |
| `View.Compare` | src/App.tsx:190-194 | the comparator is negative exactly when `a` is cheaper (dearer when sorting high to low) than `b`, and zero exactly when the prices are equal |
| `View.SortByPrice` | src/App.tsx:189-195 | `slice().sort(compare)` as a stable insertion sort; the copy has the input's length (its order, permutation and stability are the next three rows) |
| `View.SortOrderedPermutation` | src/App.tsx:189-195 | the sorted copy is ordered by the comparator and is a permutation of its input |
| `View.SortStable` | src/App.tsx:189-195 | for every price, the products with that price appear in the sorted copy in their input order |
| `View.SortOrderedIsIdentity` | src/App.tsx:189-195 | sorting an already ordered list returns it unchanged |
| `View.Visible` | src/App.tsx:176-198 | the list the effect computes is no longer than the catalog, and its prices never decrease when sorting low to high and never increase when sorting high to low (membership, permutation and stability are the rows below) |
| `View.VisibleExactly` | src/App.tsx:176-198 | for every product at once, it is visible if and only if it is in the catalog and matches both filters |
| `View.VisibleMembers` | src/App.tsx:176-198 | a product is visible if and only if it is in the catalog and matches both the search text and the category |
| `View.VisiblePermutation` | src/App.tsx:176-198 | the visible list is a permutation of the filtered catalog, with each product as often as in the catalog when it matches |
| `View.VisibleSortedByPrice` | src/App.tsx:189-195 | prices never decrease along the visible list when sorting low to high, and never increase when sorting high to low |
| `View.VisibleStable` | src/App.tsx:189-195 | visible products of equal price are in catalog order |
| `View.VisibleIdempotent` | src/App.tsx:176-198 | recomputing the view from the view with the same inputs gives the same list |
| `View.VisibleUnrestricted` | src/App.tsx:176-198 | with no search text and no category, the view is a permutation of the whole catalog |
| `Cart.Find` | src/App.tsx:116 | `find` returns a line exactly when some line has the id; that line is the first with the id |
| `Cart.Added` | src/App.tsx:114-124 | a present id leaves the cart as it was; an absent id appends one line with quantity 1 at the end; the id is then present; unique ids stay unique |
| `Cart.Increased` | src/App.tsx:131-141 | same length, same products in the same order; each line with the id gets quantity + 1 (an absent or zero quantity gives 1); all other lines are unchanged, and an absent id leaves the cart as it was |
| `Cart.Decreased` | src/App.tsx:143-150 | same length, same products in the same order; each line with the id loses 1 only when its quantity is positive; no line is removed, and an absent id leaves the cart as it was |
| `Cart.TotalItems` | src/App.tsx:152-155 | the item count is 0 exactly when every line has quantity 0 |
| `Cart.TotalAmount` | src/App.tsx:156-159 | with non-negative prices the amount is non-negative |
| `Cart.AddTwice` | src/App.tsx:116-119 | adding a product a second time changes nothing, so its quantity stays 1 |
| `Cart.AddTotals` | src/App.tsx:114-124 | adding a new product adds 1 to the item count and its price to the amount; adding a present product changes neither |
| `Cart.TotalsOfPointChange` | src/App.tsx:152-159 | changing one line's quantity by d changes the item count by d and the amount by d times that line's price |
| `Cart.IncreaseTotals` | src/App.tsx:131-141 | increasing a present id adds 1 item and that line's price |
| `Cart.DecreaseTotals` | src/App.tsx:143-150 | decreasing a present id at a positive quantity removes 1 item and that line's price; at quantity 0 the cart is unchanged |
| `Cart.DecreaseUndoesIncrease` | src/App.tsx:131-150 | decreasing right after increasing the same id restores the cart exactly |
| `Storefront.CategoryFor` | src/App.tsx:98-100 | the "All Products" button maps to no category, and every other button to its own name |
| `Storefront.CategoryFilterMeaning` | src/App.tsx:183-184 | "All Products" lets every category through; any other button keeps exactly the products of that category |
| `Storefront.App.constructor` | src/App.tsx:200-206 | the catalog is loaded and the filters start empty; the cart is the stored copy when there is one, else empty; the stored copy tracks the cart |
| `Storefront.App.VisibleProducts` | src/App.tsx:197 | `filteredData` holds exactly the catalog products that match the current search text and category, ordered by price in the current direction |
| `Storefront.App.Search` | src/App.tsx:225 | the search text becomes the bar's text |
| `Storefront.App.FilterByCategory` | src/App.tsx:98-100 | the selected category becomes the mapped button name |
| `Storefront.App.ToggleSort` | src/App.tsx:102-104 | the sort direction is negated; nothing else changes |
| `Storefront.App.AddToCart` | src/App.tsx:114-125 | the cart becomes `Added`; the stored copy becomes the new cart when a line was appended and is untouched otherwise; the invariant is kept |
| `Storefront.App.ClearCart` | src/App.tsx:126-129 | the cart is empty and the stored copy is removed |
| `Storefront.App.IncreaseQuantity` | src/App.tsx:131-141 | the cart becomes `Increased`; the stored copy is not touched; the invariant is kept; in a valid cart, increasing a present id adds 1 to the item count and that line's price to the amount |
| `Storefront.App.DecreaseQuantity` | src/App.tsx:143-150 | the cart becomes `Decreased`; the stored copy is not touched; the invariant is kept; in a valid cart, a present id at quantity 0 leaves the cart unchanged, and at a positive quantity the item count drops by 1 and the amount by that line's price |
| `Storefront.App.Checkout` | src/App.tsx:161-168 | the cart is empty, the stored copy is removed and the thank-you flag is raised |
| `Storefront.ReloadAfterIncrease` | src/App.tsx:131-141 | after add, add, increase, the live cart has one line with 2 items, while a reload from the stored copy has 1 item |
| `Storefront.TwoProductsLowToHigh` | src/App.tsx:189-195 | without filters and sorting low to high, the cheaper of two products is listed first |
| `Storefront.ShopScenario` | src/App.tsx:152-159 | one add, a repeated add and an increase give 2 items and twice the unit price |

## Left out

- Rendering: the JSX tree and the MUI components, including `src/components/*.tsx`. They only present state and forward events.
- Opening and closing the cart dialog (`handleOpenDialog`, `handleCloseDialog`) and dismissing the thank-you dialog from the render tree: these are UI flags with no logic.
- `localStorage`, `JSON.stringify` and `JSON.parse`: the stored slot is an abstract `Option<seq<Line>>`, and the constructor receives it already decoded. Malformed stored data is not modelled.
- React scheduling: the filter-and-sort effect is the function `App.VisibleProducts` of the current state, not a stored `filteredData` field. The initial unsorted `setFilteredData(data)` is not modelled, because the filter effect replaces it at once.
- Floating-point arithmetic: prices, `unitPrice * quantity` and the comparator subtraction use integers, in cents. `toFixed(2)` display rounding is not modelled.
- `toLowerCase` beyond ASCII: only `A`-`Z` are mapped.
- `console.log` for a repeated add, the static `categories` icon table and the catalog JSON import: the catalog is an arbitrary input sequence.
- Cart.IncreaseTotals: the totals are stated only for carts with unique ids, which `App.Valid()` guarantees. With duplicate ids, every matching line would change.
- Cart.DecreaseTotals: the totals are stated only for carts with unique ids, as for `Cart.IncreaseTotals`.
- Storefront.App.constructor: the invariant is guaranteed only when the stored copy has unique ids. A stored copy written by this app always has them, but nothing decoded is checked.
