# Flipcart storefront: cart, catalog and home-page logic in Dafny

This project models the logic-bearing core of a small shopping site: an
Express/Mongoose backend with an add-to-cart and a delete-cart endpoint, and
a React frontend whose pages show a catalog, a search, a home page with
featured categories and a slide carousel, and a cart.

It models:

- **Cart page, loading** (`CartMerge`, `CartReconcile`, `CartPage.Cart.Load`).
  - The page keeps the carts whose `userId` is strictly the string `"2"`.
  - It flattens their items cart by cart.
  - It merges duplicates under the key `String(productId)` in a plain JS
    object, then lists the object with `Object.values`.
  - It looks each merged line up in the flattened catalog. A line is found
    when `String(p.id) === String(productId)`. Otherwise it is kept as a
    "missing" line.
- **Cart page, pricing and edits** (`CartPricing`, `CartPage`): the price,
  discount and total reductions; the quantity buttons; the remove button.
- **Catalog and search** (`Catalog`, `Search`).
  - The three ways a `GET /products` response is flattened.
  - The case-insensitive search filter, which also excludes deleted products.
- **Backend** (`CartService`).
  - `POST /cart/add` and `DELETE /cart/:id` over a store of carts
    (`CartService.CartStore`).
  - The `findOne` lookup is abstract.
  - Whether a save or a delete fails is a parameter.
- **Home page** (`Home`, `CarouselState`).
  - The `RequireAuth` gate and the routes it guards.
  - The featured-category sections and the add-to-cart request body.
  - The carousel's index state.
- **End to end** (`Storefront`): a home-page add request followed through
  the backend and back to the cart page.

JavaScript semantics the code relies on are modelled explicitly:

- in `Js`: truthiness and `||`; `+` with `NaN`; `String(v)`; `parseInt`;
  truncating `%`; ASCII `toLowerCase`; `includes`;
- in `JsObject`: an object's key order under `Object.values`.

Numbers are integers (prices in minor units). An absent or `NaN` number is
`None`.

The backend's schema casts are modelled (backend/cart.js:5-16). `userId`
and `productId` are stored as strings. The `Number` type of `quantity`
refuses `NaN`, so a request whose quantity parses to `NaN` fails to save.

Some behaviours of the code are easy to miss:

- **Merged order.** The merged cart is not listed in order of first
  occurrence. `Object.values` lists array-index keys such as `"101"` first,
  in ascending numeric order. Only the other keys follow in creation order
  (`CartMerge.MergedOrder`, `JsObject.KeyOrder`).
- **Merge order matters.** The merge is not independent of cart order. The
  first occurrence of a key keeps its own quantity as is. So when that
  quantity is absent or 0, a later `+=` yields `NaN` or a sum without the
  default 1 (`CartMerge.OrderMattersWithoutQuantity`). Order independence
  holds when every quantity is truthy (`CartMerge.CartOrderIrrelevant`).
- **Prototype member names are dropped.** `combinedItemsMap[key]` is
  truthy for the inherited members of `Object.prototype`. So an item whose
  key is `"toString"`, `"constructor"` or `"__proto__"` never enters the
  object, and does not appear in the cart (`CartMerge.InheritedNameDropped`).
- **Numeric product ids never match in the backend.**
  - The home page posts `productId: product.id`, a number, and `user: 2`.
  - The schema stores both as strings, so the cart's `userId` is `"2"`.
    The cart page's `=== "2"` filter keeps it
    (`Storefront.HomepageCartOnCartPage`).
  - The handler compares the stored string id with the request's number
    by `===`, which always fails. So every add of a numeric id appends a
    new line (`CartService.NumericProductIdAppends`).
  - The cart page merges those lines again under `String(productId)`.
    Two adds show as one line of quantity 2
    (`Storefront.RepeatedHomepageAdds`).

## Model

| member | source | states |
|---|---|---|
| Js.Truthy | backend/cart.js:22 | the falsy values are exactly `undefined`, `null`, `false`, `0` and `""` |
| Js.OrElse | frontend/src/Cart.js:44 | `q || d` is `q` when `q` is a truthy number, and `d` otherwise, absent and `NaN` included |
| Js.Plus | frontend/src/Cart.js:44 | `x + y` is `NaN` when either side is absent or `NaN`, and otherwise the sum |
| Js.ToStr | frontend/src/Cart.js:42 | `String(v)` keeps a string; a number becomes a non-empty numeral that starts with `-` exactly when it is negative, and is all digits otherwise |
| Js.ParseInt | backend/cart.js:39-43 | `parseInt` of `undefined`, `null`, `true` or `false` is `NaN` |
| Js.DecimalRoundTrip | frontend/src/Cart.js:42 | `String(n)` of a non-negative integer is a decimal numeral whose value is n again |
| Js.ParseIntOfNumber | backend/cart.js:39-43 | `parseInt` of an integer number gives back that integer |
| Js.ParsePlain | backend/cart.js:39-43 | `parseInt` of a canonical digit string gives its value |
| Js.ParseMinus | backend/cart.js:39-43 | `parseInt` of `-` followed by digits gives the negated value |
| Js.Rem | frontend/src/Carousal.js:32-34 | `%` truncates: the dividend is the divisor times the quotient truncated toward zero, plus the remainder; the remainder has the dividend's sign and is smaller than the divisor in magnitude |
| Js.Lower | frontend/src/Search.js:34-37 | `toLowerCase` keeps the length and lowers each character |
| Js.LowerOfUpper | frontend/src/Search.js:34-37 | lowering an upper-cased string is the same as lowering the original |
| Js.IncludesAt | frontend/src/Search.js:34-37 | `includes` holds exactly when the needle occurs at some position |
| Js.IncludesEmpty | frontend/src/Search.js:34-37 | every string includes the empty string |
| JsObject.NumberKeyIsIndex | frontend/src/Cart.js:42 | `String(n)` is an array-index key exactly when 0 <= n <= 2^32 - 2, and then its index is n |
| JsObject.KeyOrder | frontend/src/Cart.js:49 | the key order of `Object.values` is a permutation of the creation order: array-index keys first in ascending numeric order, then the other keys in creation order |
| JsObject.Values | frontend/src/Cart.js:49 | `Object.values` lists one value per key, in that key order |
| JsObject.KeyOrderOfObject | frontend/src/Cart.js:49 | every own key is listed exactly once, and nothing else is |
| Catalog.FlattenResponse | frontend/src/Search.js:17-26 | the loop (also used verbatim at frontend/src/App.js:262-271) yields the nested lists when the first element has truthy `products`, the array itself otherwise, and nothing for a non-array |
| Catalog.FlattenCartResponse | frontend/src/Cart.js:57-64 | the cart page's loop concatenates every element's `products` array, skipping non-arrays |
| Catalog.NestedConcatAppend | frontend/src/Search.js:19-23 | flattening goes document by document: the lists of earlier documents come first |
| Catalog.NestedConcatMembers | frontend/src/Search.js:19-23 | a product is in the flattening exactly when some document's `products` array holds it |
| Catalog.CartCatalogComparedToListed | frontend/src/Cart.js:57-64 | with nested documents the cart page sees the same catalog as the search page; with a flat array it sees none, while search sees the whole array |
| Catalog.NestedEmpty | frontend/src/Cart.js:58-63 | documents without `products` arrays contribute nothing |
| Search.QueryText | frontend/src/Search.js:10 | the query is empty exactly when the `q` parameter is absent or empty, and is otherwise the parameter as given |
| Search.Matches | frontend/src/Search.js:32-37 | a product matches exactly when it is not deleted and one of its four fields, lowered, includes the lowered query |
| Search.Filtered | frontend/src/Search.js:31-38 | the results are no more than the catalog, and every one of them matches |
| Search.FilteredIsSubsequence | frontend/src/Search.js:31-38 | the results keep catalog order and add nothing |
| Search.FilteredAppend | frontend/src/Search.js:31-38 | filtering a concatenated catalog concatenates the filtered pieces, so each product is kept or dropped on its own |
| Search.FilteredCount | frontend/src/Search.js:31-38 | a matching product is listed as many times as the catalog holds it; a non-matching one never |
| Search.FilteredMembers | frontend/src/Search.js:31-38 | a product is listed exactly when it is in the catalog and matches |
| Search.DeletedNeverListed | frontend/src/Search.js:33 | a product with truthy `deleted` is never listed |
| Search.ListedIffOccurs | frontend/src/Search.js:33-37 | a non-deleted product is listed exactly when the lowered query occurs in its lowered title, description, brand or category |
| Search.CaseInsensitive | frontend/src/Search.js:34-37 | queries equal after lowering give the same results |
| Search.UpperCaseQuery | frontend/src/Search.js:34-37 | upper-casing the query does not change the results |
| Search.EmptyQuery | frontend/src/Search.js:10-37 | the empty query (the default when `q` is absent) lists every non-deleted product with at least one of the four fields |
| CartMerge.MergeUserCarts | frontend/src/Cart.js:27-49 | the page's merge computes `Merged`: user filter, flattening, combination, `Object.values` |
| CartMerge.CollectItems | frontend/src/Cart.js:31-38 | the nested loops collect every item of every cart whose `items` is an array, cart by cart |
| CartMerge.CombineItems | frontend/src/Cart.js:40-48 | the loop over the raw items builds the combined object |
| CartMerge.MergeStepFields | frontend/src/Cart.js:42-47 | one step adds `q` (1 when falsy) to a key already present, skips an inherited prototype name, and otherwise stores a copy under a new key at the end of creation order |
| CartMerge.CombineEntries | frontend/src/Cart.js:40-48 | a key is stored exactly when some raw item has it and it is not a prototype name; its entry is the first such item with `quantity` = first quantity + Σ `q` (1 when falsy) over the later ones |
| CartMerge.CombineOrder | frontend/src/Cart.js:40-48 | keys are created in the order of their first occurrence among the raw items |
| CartMerge.CombinedValues | frontend/src/Cart.js:40-49 | each listed value is the merged entry of the key at its position in `Object.values` order |
| CartMerge.MergedKeysUnique | frontend/src/Cart.js:40-49 | no two merged lines share a `String(productId)` key |
| CartMerge.MergedCoversKeys | frontend/src/Cart.js:40-49 | every stored raw key appears among the merged lines, and only those |
| CartMerge.MergedQuantities | frontend/src/Cart.js:41-47 | each merged line is its key's first item with the later quantities (`q` (1 when falsy)) added |
| CartMerge.TruthyEntrySums | frontend/src/Cart.js:41-47 | when every quantity is truthy, a merged quantity is the sum of its key's quantities |
| CartMerge.MergedOrder | frontend/src/Cart.js:49 | merged lines follow `Object.values` order over the keys, which were created in first-occurrence order |
| CartMerge.InheritedNameDropped | frontend/src/Cart.js:43 | an item keyed `"toString"` never enters the cart |
| CartMerge.TwoCartsScenario | frontend/src/Cart.js:27-49 | carts [101×2] and [101×1, 202×1] of user "2" merge to [101×3, 202×1] |
| CartMerge.CartOrderIrrelevant | frontend/src/Cart.js:44 | with truthy quantities, swapping two groups of carts leaves every merged quantity unchanged |
| CartMerge.OrderMattersWithoutQuantity | frontend/src/Cart.js:44-46 | absent-then-1 merges to `NaN`, while 1-then-absent merges to 2 |
| CartMerge.CartsOfAppend | frontend/src/Cart.js:28 | filtering by user goes cart by cart |
| CartMerge.OtherUserIgnored | frontend/src/Cart.js:27-29 | a cart of another user, anywhere in the listing, does not change the merged cart |
| CartMerge.NumericUserIdIgnored | frontend/src/Cart.js:9-29 | a listed document whose `userId` is the number 2 is not one of user "2"'s carts |
| CartMerge.UserCartShown | frontend/src/Cart.js:27-49 | a cart of the user, anywhere in the listing, gets a merged line for each of its keys that is not an inherited name |
| CartMerge.NumericKeyNotInherited | frontend/src/Cart.js:42-43 | the key of a numeric id is never the name of an inherited member |
| CartMerge.FlattenAppend | frontend/src/Cart.js:31-38 | items of earlier carts precede those of later carts |
| CartReconcile.FindProduct | frontend/src/Cart.js:69-71 | `find` gives nothing exactly when no product's `String(id)` equals the key, and otherwise the first product that matches |
| CartReconcile.Reconcile | frontend/src/Cart.js:67-83 | one line per merged line, with the same productId and quantity `q` (1 when falsy); a line is missing exactly when no product matches, and otherwise carries the first matching product |
| CartReconcile.FlatCatalogAllMissing | frontend/src/Cart.js:57-83 | against a flat product array every cart line is missing |
| CartPricing.Total | frontend/src/Cart.js:121-122 | total = Σ `price` (0 when falsy) × `quantity` (1 when falsy) + 4 |
| CartPricing.PriceMinusDiscount | frontend/src/Cart.js:109-122 | price − discount is the sum of the sale amounts |
| CartPricing.SumAppend | frontend/src/Cart.js:109-120 | the reductions split over concatenation |
| CartPricing.NoOriginalPriceNoDiscount | frontend/src/Cart.js:114-120 | a line without a truthy `originalPrice` contributes no discount |
| CartPricing.NoOriginalPricesNoDiscount | frontend/src/Cart.js:114-122 | without original prices, discount = 0 and total = price + 4 |
| CartPricing.DiscountNonNegative | frontend/src/Cart.js:114-120 | when each list price is at least its sale price and quantities are positive, discount >= 0 |
| CartPricing.NegativeDiscountExample | frontend/src/Cart.js:114-122 | `originalPrice` 900 below `price` 1000 gives discount −100 and total 1004: nothing clamps it |
| CartPricing.TwoUnitsScenario | frontend/src/Cart.js:109-122 | two units at 900 with original 1000: price 2000, discount 200, total 1804 |
| CartPricing.EmptyCart | frontend/src/Cart.js:109-122 | an empty cart: price 0, discount 0, total 4 |
| CartPricing.MissingLineFree | frontend/src/Cart.js:109-120 | a missing line adds nothing to price or discount |
| CartPage.Cart.constructor | frontend/src/Cart.js:4 | the page starts with no lines |
| CartPage.Cart.Load | frontend/src/Cart.js:27-84 | after loading, the lines are the reconciled merge of user "2"'s carts against the cart page's catalog |
| CartPage.Cart.HandleQuantity | frontend/src/Cart.js:94-100 | the lines become `Adjusted(old lines, idx, delta)` and the line invariant is kept |
| CartPage.Cart.HandleRemove | frontend/src/Cart.js:102-106 | the lines become `Spliced(old lines, idx)` and the line invariant is kept |
| CartPage.DecrementAtOneIsNoop | frontend/src/Cart.js:96 | decrementing a quantity-1 line changes nothing |
| CartPage.AdjustedChangesOneQuantity | frontend/src/Cart.js:94-100 | only line idx can change, only in its quantity, and only to a positive value |
| CartPage.IncrementThenDecrement | frontend/src/Cart.js:94-100 | + then − on a line with a positive quantity restores the lines |
| CartPage.AdjustedPrice | frontend/src/Cart.js:94-122 | a quantity change moves the price by list price × delta and the total by sale price × delta |
| CartPage.SplicedRemovesOne | frontend/src/Cart.js:102-106 | removal deletes exactly line idx, keeps the rest in order, and shortens the list by one |
| CartPage.SplicedPrice | frontend/src/Cart.js:102-122 | removing a line subtracts its amounts from price, discount and total |
| CartPage.RemovingMissingLineKeepsTotal | frontend/src/Cart.js:102-122 | removing a missing line leaves price and total unchanged |
| CartService.CastString | backend/cart.js:8-11 | the schema's `String` cast keeps a string, and never turns a truthy value into `""` |
| CartService.CastNumberReadsBack | backend/cart.js:8-11 | a number is stored as a numeral that `parseInt` reads back as that number |
| CartService.FindLine | backend/cart.js:34-36 | `findIndex` with `===` against the stored string id gives -1 exactly when no line matches, and otherwise the first match |
| CartService.AddItem | backend/cart.js:34-45 | the `findIndex` and then the `+=` or the `push` compute `AddLine` |
| CartService.CartStore.AddToCart | backend/cart.js:18-62 | the reply and the new store are `AddOutcome` of the old store |
| CartService.CartStore.DeleteCart | backend/cart.js:83-94 | the reply and the new store are `DeleteOutcome` of the old store |
| CartService.MissingFieldsRejected | backend/cart.js:20-26 | a falsy productId or user answers 400 with `success: false`, and the store is unchanged |
| CartService.FailuresAnswer500 | backend/cart.js:28-61 | a failed lookup, a `NaN` quantity or a failed save answers 500 with `success: false`, and the store is unchanged |
| CartService.SavedAnswer201 | backend/cart.js:28-54 | a saved add answers 201 with `success: true`; the cart is stored under the found id, or under the new id as one more cart, and no other cart changes |
| CartService.AbsentQuantityIsOne | backend/cart.js:20 | an absent quantity adds 1 |
| CartService.NumericQuantityUnchecked | backend/cart.js:39-43 | any integer quantity, zero or negative included, is applied as is |
| CartService.NullQuantityIsNaN | backend/cart.js:20-43 | a `null` quantity escapes the default and parses to `NaN` |
| CartService.NullQuantityRefused | backend/cart.js:12-48 | a `null` quantity is therefore answered with 500, whatever the store holds, and nothing is stored |
| CartService.NewCartCreated | backend/cart.js:28-45 | without an active cart, a new active cart of the user is stored under the new id with exactly one line `{productId, parseInt(quantity)}`, both ids cast to strings |
| CartService.UserIdStoredAsString | backend/cart.js:8-31 | `user: n` and `user: "n"` start the same cart, whose `userId` is the numeral that reads back as n |
| CartService.IncrementsFirstMatch | backend/cart.js:34-39 | the first line whose stored id is strictly equal grows by the increment; the count and the other lines are unchanged |
| CartService.AppendsWhenNoMatch | backend/cart.js:40-45 | without a match the new line, its id cast to a string, is appended at the end |
| CartService.NumericProductIdAppends | backend/cart.js:34-45 | a numeric productId never matches a stored id, so a line is always appended |
| CartService.AddLineKeepsProductsDistinct | backend/cart.js:34-45 | requests with string ids keep the stored ids distinct, and the product is then present |
| CartService.StrictProductMatch | backend/cart.js:34-45 | a numeric productId 101 does not match the stored `"101"`: a second `"101"` line is appended and the ids are no longer distinct |
| CartService.FirstAddScenario | backend/cart.js:18-54 | `{productId: "9", user: "5"}` with no active cart stores an active cart with one line of quantity 1 and answers 201 |
| CartService.DeleteReplies | backend/cart.js:83-94 | delete answers 500 on failure, 404 for an unknown id, and otherwise 200 with exactly that cart removed |
| Home.RequireAuth | frontend/src/App.js:26-33 | without a non-empty token: a replacing redirect to `/login` carrying the location; with one: the children unchanged |
| Home.Route | frontend/src/App.js:97-249 | a route exists exactly for `/login`, `/signup`, `/profile`, `/`, `/search` and `/cart` |
| Home.GatedPagesNeedToken | frontend/src/App.js:97-249 | the home, search and cart pages render only with a token, and without one they redirect to `/login` |
| Home.RedirectLandsOnLogin | frontend/src/App.js:97-104 | the redirect target is an open route, so the gate cannot loop |
| Home.CategoryMatches | frontend/src/App.js:51-52 | every match is in the category, and the matches keep catalog order |
| Home.Section | frontend/src/App.js:51-53 | a section is the prefix of the category's matches of length min(matches, 12) |
| Home.GroupByCategory | frontend/src/App.js:49-54 | exactly the four featured categories get an entry, each its section |
| Home.RenderedSections | frontend/src/App.js:109-112 | a category is drawn exactly when its entry exists and is non-empty, in the featured order |
| Home.CategoryMatchesMembers | frontend/src/App.js:51-52 | a product matches exactly when it is in the catalog and its `category` is strictly that value |
| Home.CategoryMatchesAppend | frontend/src/App.js:51-52 | the filter goes product by product |
| Home.SectionOnlyCategory | frontend/src/App.js:51-53 | every product of a section is from the catalog and has exactly that category |
| Home.SectionComplete | frontend/src/App.js:51-53 | with at most 12 matches, the section lists them all |
| Home.LaterProductsIgnored | frontend/src/App.js:51-53 | after the twelfth match, later products do not change the section: it holds the first 12 in catalog order |
| Home.SectionDrawnIffStocked | frontend/src/App.js:49-112 | a featured section is drawn exactly when the catalog holds a product of that category |
| Home.FeaturedValuesDistinct | frontend/src/App.js:41-46 | the four category values are distinct, so no entry overwrites another |
| Home.AddToCartBody | frontend/src/App.js:169-175 | the body carries `productId = product.id`, `quantity = 1`, `user = 2` |
| CarouselState.NextIndex | frontend/src/Carousal.js:34 | the next index stays in [0, 3) |
| CarouselState.PrevIndex | frontend/src/Carousal.js:32-33 | the previous index stays in [0, 3) |
| CarouselState.Carousel.constructor | frontend/src/Carousal.js:31 | the carousel starts on slide 0 |
| CarouselState.Carousel.PrevSlide | frontend/src/Carousal.js:32-33 | the left arrow sets `current` to the previous index, keeping it in range |
| CarouselState.Carousel.NextSlide | frontend/src/Carousal.js:34 | the right arrow sets `current` to the next index, keeping it in range |
| CarouselState.Carousel.SelectSlide | frontend/src/Carousal.js:88 | a dot click sets `current` to exactly that dot's index |
| CarouselState.PrevUndoesNext | frontend/src/Carousal.js:32-34 | previous after next, and next after previous, return to the start |
| CarouselState.ThreeNextsReturn | frontend/src/Carousal.js:34 | three steps right return to the start |
| CarouselState.ArrowsWrap | frontend/src/Carousal.js:32-34 | previous wraps 0 to 2, and next wraps 2 to 0 |
| CarouselState.CountActiveOne | frontend/src/Carousal.js:42-43 | among positions below n, exactly one equals an index below n, and none equals an index outside |
| CarouselState.ExactlyOneShown | frontend/src/Carousal.js:42-43 | in a valid carousel one position is counted active, some slide satisfies `idx === current`, and no two do |
| Storefront.AsListed | backend/cart.js:66-71 | a stored cart is listed with its string userId and its lines' string productIds and numeric quantities |
| Storefront.HomepageRequestChecked | frontend/src/App.js:169-175 | the backend rejects a home-page request exactly when the product's id is falsy; otherwise it adds 1 |
| Storefront.HomepageCreatesCart | backend/cart.js:28-45 | without an active cart, a home-page request stores an active cart of user `"2"` holding one unit of the product |
| Storefront.HomepageCartOnCartPage | frontend/src/Cart.js:9-49 | that cart, anywhere in the listing, gives the product a line on the cart page |
| Storefront.RepeatedHomepageAdds | backend/cart.js:28-48 | two home-page adds of a numeric id store two lines of it, which the cart page merges into one line of quantity 2 |

## Left out

- Network and framework plumbing are left out: `fetch`, JSON parsing, `async`/`await`, the loading and error states, React hooks and all JSX markup. What they deliver is a parameter: the carts listing, the products response, the token, the location.
- The cart page's `if (!cartData.success) throw` path is left out. The listing arrives as `data` only, or as "not an array".
- Of Mongoose's schema (backend/cart.js:5-16) only the casts of `userId`, `productId` and `quantity` are modelled. Strict mode, which drops the undeclared `status`, and `updatedAt` are left out: a stored cart keeps `status` in the model. `_id` generation is a parameter `newId` that is not the id of a stored cart.
- `findOne` is left abstract. The schema declares no `status` field, so whether `findOne({userId, status: "active"})` matches depends on unseen library settings. The lookup result (failed, no cart, or the id of a stored cart) is a parameter. Whether `save` or `findByIdAndDelete` throws is a boolean parameter.
- `GET /carts` (backend/cart.js:64-81) only reads the store. It is represented by the listing the cart page receives.
- Concurrent add-to-cart requests (the lost update on read-modify-write) are left out: concurrency is out of scope.
- Chart.js rendering (frontend/src/App.js:56-89) and the displayed `Math.round(item.price * 0.95)` value are left out. The first is a foreign library; the second is floating point.
- Non-integer numbers are left out. Prices, quantities and ids are integers, so `String(x)` and `parseInt` of fractional, exponent or `Infinity` values are not modelled.
- Js.ToStr: numbers are unbounded integers. In JavaScript `String(n)` switches to exponent form from |n| ≥ 10^21 (`"1e+21"`), so "only digits for n ≥ 0" holds there only for n < 10^21.
- Js.DecimalRoundTrip: the round trip holds in JavaScript only for |n| < 10^21, where `String(n)` is a plain numeral.
- Js.ParseIntOfNumber: `parseInt(n)` gives n back in JavaScript only for |n| < 10^21 (`parseInt(1e21)` is 1).
- CartService.CastNumberReadsBack: the stored numeral reads back as n in JavaScript only for |n| < 10^21.
- CartService.UserIdStoredAsString: `user: n` and `user: "n"` store the same id in JavaScript only for |n| < 10^21.
- Rounding of JavaScript numbers above 2^53 is not modelled: quantity sums (`Js.Plus`) and `parseInt` of long digit strings are exact integers in the model.
- Only the ASCII part of `toLowerCase`, `toUpperCase` and white-space trimming is modelled; Unicode case mapping is out of scope.
- Login, signup, profile and the navigation bar (frontend/src/Login.js, Signup.js, Profile.js, Navbar.js) hold no logic beyond I/O and `localStorage`. Navbar visibility and the per-product markup are not modelled.
- Elements of the products response that are `null` are left out. `String(p.id)` would throw on them, and `Catalog.Product` always has an `id`. The same goes for a request with no JSON body (`req.body` undefined).
- CartPage.Cart.HandleQuantity: out of range, `items[idx].quantity` throws in the source; the model leaves the lines unchanged instead.
- CartReconcile.Reconcile: a found line keeps the modelled `Product` record, not every member that `...product` copies.
- Home.Route: paths match exactly. React Router also matches them case-insensitively and with a trailing slash (`/Cart`, `/cart/`); that is not modelled.
- Stored documents written other than through `POST /cart/add` are left out. A stored line's quantity is always a number, so `GET /carts` never sends a `null` quantity.
- Reconciling twice against the same catalog gives the same lines. This holds by construction (`Reconcile` is a function) and is not stated separately.
