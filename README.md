# Storefront cart and catalog filter — a Dafny model

This project models the logic of a small React storefront. It covers two parts:

- The client-side shopping cart. This is the `useCart` hook in `src/hooks/useCart.ts`. The Index page in `src/pages/Index.tsx` keeps an identical copy of its cart operations and totals. The page does not copy the hook's `localStorage` load and save or its `sessionId`, so the page's cart always starts empty.
  - A cart is an ordered list of `(product, quantity)` lines.
  - `addToCart` raises the quantity of a line the product already has by one, or appends `{product, quantity: 1}`.
  - `updateCartItemQuantity` removes the product's line for a quantity of at most 0 and otherwise overwrites that line's quantity.
  - `removeFromCart` filters the product's line out.
  - `getTotalItems` and `getTotalPrice` are `reduce` sums.
- The Index page's product filter and category list.
  - The filter effect narrows the catalog by the selected category ("All" narrows nothing). It then narrows by a case-insensitive substring search on name or description. An empty query applies no text filter.
  - The category list is "All" followed by each distinct product category in first-occurrence order.

Modules:

- `Seqs` (seqs.dfy): `filter`, `map` and `reduce` with their facts. These are subsequence, membership, multiplicity, fusion of two filters, and the left fold being equal to a reference sum.
- `Text` (text.dfy): `toLowerCase` and `includes`.
- `Catalog` (catalog.dfy): the `Product` record.
- `CartLines` (cart_lines.dfy): the pure state updaters that the cart operations pass to `setCartItems`, and the totals. It also holds the lemmas: the cart invariant (one line per product id, every quantity at least 1) is preserved, other lines are untouched, and the totals move by a known amount.
- `CatalogFilter` (catalog_filter.dfy): the reference filter, the lemmas that tie the effect's two filter steps to it, and the category list.
- `UseCart` (use_cart.dfy): class `CartHook`. Its `cartItems` field is the hook's state, and each operation assigns it the result of an updater.
- `IndexPage` (index_page.dfy): class `Index`. It holds the page's state (`products`, `filteredProducts`, `cartItems`, `searchQuery`, `selectedCategory`), the filter effect as a method, and the page's own copy of the cart operations.

Prices are integers in cents, so the totals are exact. The source stores prices as JavaScript floating-point numbers.

Notes on the code:

- `addToCart` and `updateCartItemQuantity` `map` over every line whose id matches, not just one line. In a cart with one line per id this is the same thing.
- A bumped line keeps the product object it already had (`{...item, quantity: ...}`). So when the stored product differs from the one passed in, the price total rises by the stored line's price.
- The cart has no `clear` operation, no remote cart sync and no merge on login.
- If a product's category were literally "All", the category list would hold "All" twice. The model therefore states distinctness only for the entries after the leading "All".

## Model

| member | source | states |
|---|---|---|
| Seqs.Filter | src/hooks/useCart.ts:59 | `filter` keeps exactly the kept elements, as a subsequence in the original order; each kept value occurs in the result as many times as in the input and each dropped value not at all; it is the identity when all are kept and empty when none are |
| Seqs.CountIsMultiplicity | src/hooks/useCart.ts:59 | the occurrence count used in the contracts of `filter` is the value's multiplicity in the multiset of the sequence |
| Seqs.Map | src/hooks/useCart.ts:36-39 | `map` keeps the length and position `i` of the result is the callback applied to position `i` |
| Seqs.FoldSumIsSum | src/hooks/useCart.ts:62-68 | the `reduce` left fold started at `acc` equals `acc` plus the reference sum of the weights |
| Seqs.FilterFusion | src/pages/Index.tsx:99-110 | two filters in a row equal one filter with the conjunction of their callbacks |
| Text.ToLowerCase | src/pages/Index.tsx:107-108 | lower-casing keeps the length, maps each character through the ASCII lower-casing function and leaves no capital letter |
| Text.ToLowerCaseIdempotent | src/pages/Index.tsx:107-108 | lower-casing an already lower-cased string changes nothing |
| Text.IncludesIffOccurs | src/pages/Index.tsx:107-108 | `includes` holds if and only if the substring occurs at some position |
| Text.IncludesEmpty | src/pages/Index.tsx:105 | every string includes the empty string, so an empty query would match everything even without its guard |
| Text.IncludesShorter | src/pages/Index.tsx:107-108 | a string includes only strings no longer than itself |
| CartLines.AddProduct | src/hooks/useCart.ts:32-43 | after an add the product has a line; if it had one, the length is kept and its lines' quantities rise by exactly 1; if not, exactly `{product, 1}` is appended after the unchanged earlier lines; lines of other products and every line's product are unchanged |
| CartLines.SetQuantity | src/hooks/useCart.ts:50-54 | a positive-quantity update keeps length, order and products, sets the matching lines' quantity, leaves other lines unchanged, never adds a line, and is a no-op when the id is absent |
| CartLines.RemoveProduct | src/hooks/useCart.ts:58-60 | after removal no line has the id; the result is a subsequence of the original; every line of another product survives as often as it occurred; an absent id leaves the cart unchanged |
| CartLines.TotalItems | src/hooks/useCart.ts:62-64 | `getTotalItems` equals the sum of the quantities |
| CartLines.TotalPrice | src/hooks/useCart.ts:66-68 | `getTotalPrice` equals the sum of price times quantity, in cents |
| CartLines.AddPreservesWellFormed | src/hooks/useCart.ts:32-43 | adding keeps at most one line per product id and all quantities at least 1 |
| CartLines.SetQuantityPreservesWellFormed | src/hooks/useCart.ts:50-54 | a positive-quantity update keeps the cart invariant |
| CartLines.RemovePreservesWellFormed | src/hooks/useCart.ts:58-60 | removal keeps the cart invariant |
| CartLines.OnlyLine | src/hooks/useCart.ts:34 | in a cart with unique ids the line found for a product is its only line |
| CartLines.AddExisting | src/hooks/useCart.ts:34-40 | adding a product whose line sits at `k` changes exactly position `k`, raising its quantity by 1 |
| CartLines.RemoveExisting | src/hooks/useCart.ts:58-60 | removing the product of the line at `k` yields exactly the lines before `k` followed by the lines after it |
| CartLines.AddExistingTotals | src/hooks/useCart.ts:34-40 | adding a product that has a line at `k` raises the item total by 1 and the price total by that line's stored price |
| CartLines.AddNewTotals | src/hooks/useCart.ts:42 | adding a product without a line raises the item total by 1 and the price total by its price |
| CartLines.AddIncrementsTotalItems | src/hooks/useCart.ts:32-43 | in a cart with one line per id, every add raises `getTotalItems` by exactly 1 |
| CartLines.SetQuantityTotals | src/hooks/useCart.ts:50-54 | overwriting the quantity of the line at `k` moves both totals by that line's difference alone |
| CartLines.RemoveTotals | src/hooks/useCart.ts:58-60 | removing the line at `k` subtracts exactly its quantity and its line price from the totals |
| CartLines.RepeatedAdds | src/hooks/useCart.ts:32-43 | `n >= 1` adds of a product absent from the cart leave the earlier lines and end with the single line `{product, n}` |
| CatalogFilter.FilterCatalog | src/pages/Index.tsx:98-113 | the shown list is a subsequence of the catalog, and each shown product occurs in it as often as in the catalog; outside "All" every result has the selected category; with a non-empty query every result matches it case-insensitively in name or description; every catalog product that passes both tests is shown; "All" with an empty query shows the whole catalog |
| CatalogFilter.ShowAll | src/pages/Index.tsx:99-112 | category "All" with an empty query gives exactly the catalog |
| CatalogFilter.UnknownCategoryIsEmpty | src/pages/Index.tsx:101-103 | a category that no product has gives the empty list |
| CatalogFilter.CategoryStep | src/pages/Index.tsx:101-103 | the category step alone equals the reference filter with an empty query |
| CatalogFilter.SearchStep | src/pages/Index.tsx:105-110 | the search step alone equals the reference filter with category "All" |
| CatalogFilter.CategoryThenSearch | src/pages/Index.tsx:99-110 | the category step followed by the search step equals the reference filter |
| CatalogFilter.LongQueryMatchesNothing | src/pages/Index.tsx:106-109 | a query longer than both a product's name and its description never matches that product |
| CatalogFilter.QueryCaseInsensitive | src/pages/Index.tsx:107-108 | a query and its lower-cased form match the same products |
| CatalogFilter.FirstIndex | src/pages/Index.tsx:96 | the index returned is the first occurrence of the value, or the length when the value is absent |
| CatalogFilter.DistinctSpec | src/pages/Index.tsx:96 | the `Set` iteration lists every value not seen before exactly once, nothing else, in first-occurrence order |
| CatalogFilter.Categories | src/pages/Index.tsx:96 | the list starts with "All"; after it each product category appears exactly once, nothing else appears, and the order is that of first occurrence in the catalog |
| UseCart.CartHook.constructor | src/hooks/useCart.ts:12 | the hook starts with an empty cart, which satisfies the cart invariant |
| UseCart.CartHook.AddToCart | src/hooks/useCart.ts:32-44 | the new state is the add updater applied to the old one; the invariant is kept and the item total rises by 1 |
| UseCart.CartHook.UpdateCartItemQuantity | src/hooks/useCart.ts:46-56 | a quantity of at most 0 gives exactly the removal result; a positive one gives the quantity update; the invariant is kept |
| UseCart.CartHook.RemoveFromCart | src/hooks/useCart.ts:58-60 | the new state is the removal updater applied to the old one; the invariant is kept |
| UseCart.CartHook.GetTotalItems | src/hooks/useCart.ts:62-64 | returns the sum of the quantities of the current lines |
| UseCart.CartHook.GetTotalPrice | src/hooks/useCart.ts:66-68 | returns the sum of price times quantity of the current lines |
| IndexPage.Index.constructor | src/pages/Index.tsx:89-94 | the page starts with the whole catalog shown, an empty cart, an empty query and category "All" |
| IndexPage.Index.RunFilterEffect | src/pages/Index.tsx:98-113 | the effect's step-by-step filtering stores exactly the reference filter of the catalog for the current category and query |
| IndexPage.Index.SetSearchQuery | src/pages/Index.tsx:93 | changing the query reruns the effect: the shown list is the reference filter for the new query; category and cart are unchanged |
| IndexPage.Index.SetSelectedCategory | src/pages/Index.tsx:94 | changing the category reruns the effect: the shown list is the reference filter for the new category; query and cart are unchanged |
| IndexPage.Index.AddToCart | src/pages/Index.tsx:115-127 | the page's own add is the same updater as the hook's; the invariant is kept and the item total rises by 1 |
| IndexPage.Index.UpdateCartItemQuantity | src/pages/Index.tsx:129-139 | the same remove-or-overwrite behaviour as the hook's; the invariant is kept |
| IndexPage.Index.RemoveFromCart | src/pages/Index.tsx:141-143 | the same order-preserving removal as the hook's; the invariant is kept |
| IndexPage.Index.GetTotalItems | src/pages/Index.tsx:145-147 | returns the sum of the quantities |
| IndexPage.Index.GetTotalPrice | src/pages/Index.tsx:149-151 | returns the sum of price times quantity |

## Left out

- Loading and saving the cart in `localStorage`, and its `JSON.parse`/`JSON.stringify` round trip (src/hooks/useCart.ts:17-30): browser I/O. Only the empty initial state is modelled.
- The guest `sessionId` built from `Date.now()` and `Math.random()` (src/hooks/useCart.ts:13): nondeterministic, and no logic uses it.
- Floating-point prices, `toFixed` and `Intl.NumberFormat` formatting: prices are integer cents. The fractional `rating` and the star display built from it are not modelled.
- Stock: the cart enforces no stock limit. Only the add button is disabled when stock is 0, so the model adds no stock invariant either.
- Quantities are integers. A fractional quantity passed to `updateCartItemQuantity` is not modelled.
- `toLowerCase` lower-cases only the ASCII letters A to Z. JavaScript's full Unicode case mapping is not modelled.
- React scheduling: a state setter and the effect it triggers are modelled as one atomic step (`SetSearchQuery`, `SetSelectedCategory`). The render in between, where `filteredProducts` is briefly stale, is not modelled. `setProducts` is never called, so `products` is a constant.
- The six `sampleProducts` records (src/pages/Index.tsx:25-86): page data, not logic. `IndexPage.Index` takes its catalog as a constructor parameter, so every fact about the page holds for any catalog.
- The cart drawer's `isCartOpen` flag, all presentational components, the GSAP animation hook and the order history page: rendering, animation and network only.
