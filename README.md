# virashop storefront core in Dafny

A verified model of the logic beneath the virashop storefront. The storefront is a client-side clothing shop written with React. Everything in it that is not markup is modelled here:

- **Cart ledger.** The cart is a list of lines keyed by product id. It has five updaters: add, bulk add, quantity adjust, remove and clear. The same state also holds the drawer flag and the colour theme.
- **Catalog page.** A conjunctive product filter, the brand, colour and size facets, synchronisation of the category with the URL, and the filter reset.
- **Filter sidebar.** The toggle-membership and replace-one-bound updaters.
- **Outfit configurator.** A four-slot outfit filled by hand or from suggested product ids, its price and item list, and the five-step wizard that buys it.
- **Derived totals and guards.** Checkout totals with free shipping above 5000 Kč, and the checkout step machine. The cart drawer's guards, the navbar's badge and active-link test, and the product page's lookup, related products and quantity counter.
- **Login.** Deriving the display name from the email address.
- **Catalog.** The `PRODUCTS` constant, and the facts about it that discharge the other modules' preconditions.

## Modules

| file | module | models |
|---|---|---|
| seqs.dfy | `Seqs` | `filter`, `indexOf`, `reduce` sums, subsequences, occurrence counts |
| strings.dfy | `Strings` | `split(c)[0]`, code-unit string order, the `trim` whitespace set |
| types.dfy | `Types` | the entities of types.ts |
| catalog.dfy | `Catalog` | the `PRODUCTS` literal of constants.ts, and `find` by id |
| app.dfy | `App` | App.tsx: the cart ledger, the theme, and the `Store` class holding that state |
| shop.dfy | `Shop` | pages/Shop.tsx |
| product_filters.dfy | `ProductFilters` | components/ProductFilters.tsx |
| configurator.dfy | `Configurator` | pages/Configurator.tsx, with the `Wizard` class |
| checkout.dfy | `Checkout` | pages/Checkout.tsx, with the `CheckoutPage` class |
| cart_drawer.dfy | `CartDrawer` | components/Cart.tsx |
| navbar.dfy | `Navbar` | components/Navbar.tsx |
| product_detail.dfy | `ProductDetail` | pages/ProductDetail.tsx, with the `DetailPage` class |
| login.dfy | `Login` | pages/Login.tsx |

Form of the model:

- React state that event handlers replace becomes a class whose methods carry `modifies` clauses. This covers the root component's state (`App.Store`), the wizard, the checkout step and the product page.
- `App.Store.Valid()` holds the cart's two invariants, at most one line per id and at least one unit per line, and every `Store` method keeps both. So the positivity precondition of the drawer, navbar and checkout lemmas holds of the application's cart.
- Pure expressions become functions, and what the source promises about them is stated as lemmas.
- Two source loops are written as methods with loop invariants, each proved equal to a specification function:
  - the `forEach`/`findIndex` loop of `addAllToCart`;
  - the `forEach` of `handleAISuggestion`.
- Each asynchronous step is one atomic transition:
  - the suggestion service call;
  - the simulated delays of checkout and login.
- Values that come from the browser or the network are parameters:
  - the stored theme;
  - the system colour preference;
  - the route id;
  - the URL's category parameter;
  - the parsed number of a price box;
  - the suggested ids.

### Bulk add with repeated products

Bulk add on `[X, X, Y]` gives X:2, Y:1, because the loop at App.tsx:56-62 increments an existing line on every occurrence; see `App.AddAllQuantity` and `App.AddAllDuplicatesExample`.

## Model

| member | source | states |
|---|---|---|
| App.AddToCart | App.tsx:40-49 | a product already in the cart keeps the line count, changes only the lines with its id, and keeps every line's product; a new product appends exactly one line with the given quantity after the unchanged earlier lines |
| App.AddToCartIds | App.tsx:42-48 | the id list is unchanged for a known product and gains the new id at the end otherwise |
| App.AddToCartKeepsUnique | App.tsx:42-48 | adding preserves the at-most-one-line-per-id invariant |
| App.AddToCartQuantity | App.tsx:42-48 | on a ledger, the product's quantity rises by exactly `quantity` (from 0 when new) and every other id's quantity is unchanged |
| App.AddToCartKeepsPositive | App.tsx:44-48 | adding a positive quantity keeps every line at one unit or more |
| App.FindIndex | App.tsx:57 | the loop returns the first position of the id in the cart, or -1 when it is absent |
| App.AddOne | App.tsx:57-62 | one iteration of the bulk-add loop leaves the id list unchanged for a known product and appends the id otherwise |
| App.AddAllUpdater | App.tsx:55-64 | the copied cart after the `forEach` loop is the fold of the per-product step over the input, in order |
| App.AddOneQuantity | App.tsx:57-62 | one loop iteration raises the product's quantity by one and leaves every other id's quantity alone, on any cart |
| App.AddOneIsAddToCart | App.tsx:57-62 | on a ledger one loop iteration equals `addToCart(p, 1)` |
| App.AddAllIsRepeatedAdd | App.tsx:53-63 | bulk add equals applying `addToCart(p, 1)` to each product in order and keeps the ledger invariant |
| App.ProductIds | App.tsx:56 | the ids of the input products, position by position |
| App.AddAllQuantity | App.tsx:56-62 | each id's quantity rises by the number of its occurrences in the input, so duplicates count |
| App.AddAllKeepsPositive | App.tsx:56-62 | bulk add keeps every line at one unit or more |
| App.AddAllDuplicatesExample | App.tsx:56-62 | `[X, X, Y]` on an empty cart yields exactly `[X:2, Y:1]` |
| App.UpdateQuantity | App.tsx:69-76 | ids and products stay in place, the line with the id ends at one unit or more, and every other line is unchanged |
| App.UpdateQuantityEffect | App.tsx:70-75 | the id's quantity becomes max(1, q + delta), other ids keep theirs, an unknown id changes nothing, and positivity and the ledger invariant are kept |
| App.RemoveFromCart | App.tsx:78-80 | the id is gone, every other line stays, and nothing new appears |
| App.IdsOfSubseq | App.tsx:79 | the ids of an order-preserving subsequence of the lines are a subsequence of the ids |
| App.RemoveFromCartKeepsUnique | App.tsx:79 | removing preserves the ledger invariant |
| App.RemoveFromCartLength | App.tsx:79 | exactly the lines carrying the id are dropped |
| App.RemoveFromCartKeepsPositive | App.tsx:79 | removing keeps every remaining line at one unit or more |
| App.RemoveFromCartEffect | App.tsx:79 | on a ledger the result is an order-preserving subsequence, one line shorter exactly when the id was present, and an unknown id changes nothing |
| App.ClearCart | App.tsx:82-84 | clearing yields the empty cart |
| App.InitialDarkModeCases | App.tsx:18-21 | a stored "dark" gives dark, any other non-empty stored value gives light, and an absent or empty value follows the system preference |
| App.ThemeRoundTrip | App.tsx:29-35 | persisting the theme and initialising from storage gives the same theme back, whatever the system preference |
| App.Store.constructor | App.tsx:18-25 | the cart starts empty and closed, and the theme starts from the initialisation rule |
| App.Store.ToggleTheme | App.tsx:38 | the theme flips, storage mirrors it, and the cart is untouched |
| App.Store.AddToCart | App.tsx:40-51 | called with a positive amount (the shop card's default 1, the product page's counter), the cart becomes `addToCart` of the old cart, the ledger and positivity invariants hold, and the drawer opens |
| App.Store.AddAllToCart | App.tsx:53-67 | the cart becomes the loop's result, which equals repeated `addToCart(p, 1)`, the ledger and positivity invariants hold, and the drawer opens |
| App.Store.UpdateQuantity | App.tsx:69-76 | the cart becomes `updateQuantity` of the old cart and the ledger and positivity invariants hold |
| App.Store.RemoveFromCart | App.tsx:78-80 | the cart becomes `removeFromCart` of the old cart and the ledger and positivity invariants hold |
| App.Store.ClearCart | App.tsx:82-84 | the cart becomes empty; the drawer and theme are untouched |
| App.Store.OpenCart | components/Navbar.tsx:127-128 | the navbar's cart button opens the drawer and changes nothing else |
| App.Store.CloseCart | App.tsx:106-107 | closing the drawer changes only the drawer flag |
| Catalog.FindProduct | pages/ProductDetail.tsx:20 | `find` returns a catalog product with the id, or nothing exactly when no product has it |
| Catalog.FindProductUnique | constants.ts:3-167 | with unique ids, looking up a catalog product's id returns that product |
| Catalog.ProductIdsUnique | constants.ts:6-156 | the 13 product ids are pairwise distinct |
| Catalog.ProductSizesNonEmpty | constants.ts:12-162 | every product has at least one size, so `sizes[0]` exists |
| Catalog.ProductKindsAreSlots | constants.ts:10-160 | no product is an accessory, so every selection lands in an outfit slot |
| Catalog.ProductCategoriesAreReal | constants.ts:9-159 | every category is Muži, Ženy or Doplňky, never Vše |
| Catalog.ProductPricesInRange | constants.ts:8-158 | every price is positive and at most 10000 |
| Catalog.CountOfKind | constants.ts:3-167 | the count is positive exactly when some product has the type |
| Catalog.ProductsPerSlot | constants.ts:4-166 | the catalog has 4 headwear, 2 tops, 4 bottoms and 3 shoes |
| Shop.DefaultFilters | pages/Shop.tsx:17-23 | the initial filter has every selection empty and the price range [0, 10000] |
| Shop.FilteredExactly | pages/Shop.tsx:51-63 | a product is kept iff it is in the catalog and passes each dimension, with an empty selection meaning no restriction, sizes needing one shared size and both bounds inclusive; the result is a subsequence of the catalog |
| Shop.EmptyPriceRangeKeepsNothing | pages/Shop.tsx:60 | a lower bound above the upper bound keeps nothing |
| Shop.WiderFilterKeepsMore | pages/Shop.tsx:53-60 | a filter that admits more in every dimension yields a supersequence of the result |
| Shop.FilterMonotonicity | pages/Shop.tsx:53-60 | adding a value to a non-empty selection never removes products, and narrowing the price range never adds any |
| Shop.DefaultFilterShowsCatalog | pages/Shop.tsx:22 | the default filter shows the whole catalog |
| Shop.PriceRangeExample | pages/Shop.tsx:60 | products at 850, 2490 and 3500 under [1000, 3000] leave only the 2490 one |
| Shop.ParseCategory | pages/Shop.tsx:30 | only the names Muži, Ženy and Doplňky are recognised, each as its own category |
| Shop.ParseCategoryRoundTrip | pages/Shop.tsx:30 | each real category's name parses back to it, and Vše does not parse |
| Shop.SyncCategoryParam | pages/Shop.tsx:26-39 | a recognised parameter selects exactly that category, an absent or empty one clears the categories, an unrecognised one changes nothing, and no other dimension changes |
| Shop.InsertSortedSpec | pages/Shop.tsx:41 | inserting into a strictly sorted list keeps it strictly sorted and adds exactly the new value |
| Shop.SortedSetSpec | pages/Shop.tsx:41-42 | the deduplicated sort is strictly ascending and holds exactly the input's values |
| Shop.SortedIsDistinct | pages/Shop.tsx:41-42 | a strictly sorted list has no duplicates |
| Shop.SortedListingUnique | pages/Shop.tsx:41-42 | two strictly sorted lists with the same values are equal, so the facet does not depend on the sorting method |
| Shop.BrandAndColorFacets | pages/Shop.tsx:41-42 | the brand and colour facets are duplicate-free, ascending, list exactly the catalog's values, and are the only such listings: any ascending list holding exactly the catalog's colours is the colour facet |
| Shop.Dedup | pages/Shop.tsx:45 | `Array.from(new Set(xs))` is duplicate-free and holds exactly the values of `xs` |
| Shop.InsertByRankOrdered | pages/Shop.tsx:45-48 | inserting by key into a key-ordered list keeps the keys non-decreasing |
| Shop.InsertByRankPermutes | pages/Shop.tsx:45-48 | inserting adds exactly the one element, as a multiset |
| Shop.SortByRankSpec | pages/Shop.tsx:45-48 | the rank sort is a permutation with non-decreasing ranks |
| Shop.AllSizesMembers | pages/Shop.tsx:44 | `flatMap` over sizes holds exactly the sizes of some product |
| Shop.PermutationKeepsDistinct | pages/Shop.tsx:45-48 | sorting a duplicate-free list leaves it duplicate-free |
| Shop.SizeFacet | pages/Shop.tsx:43-49 | the size facet is duplicate-free, ordered by position in the size table (unknown sizes first), and lists exactly the catalog's sizes |
| Shop.CatalogSizesKnown | pages/Shop.tsx:46 | every size in the catalog appears in the size table |
| ProductFilters.Toggle | components/ProductFilters.tsx:43-46 | an absent value is appended at the end; a present value is removed everywhere (the list shrinks by its number of occurrences), the rest keep their order, and every other value stays |
| ProductFilters.ToggleFlipsMembership | components/ProductFilters.tsx:43-46 | after a toggle the value is a member iff it was not before, and every other value keeps its membership |
| ProductFilters.ToggleKeepsDistinct | components/ProductFilters.tsx:43-46 | toggling keeps a duplicate-free list duplicate-free |
| ProductFilters.ToggleTwice | components/ProductFilters.tsx:43-46 | toggling twice restores a duplicate-free list's members, and restores the list itself when the value was absent or last |
| ProductFilters.FilterDropsLast | components/ProductFilters.tsx:46 | removing the appended value undoes the append |
| ProductFilters.ToggleTwiceReorders | components/ProductFilters.tsx:46 | toggling the first of `[a, b]` twice gives `[b, a]` |
| ProductFilters.HandleCheckboxChange | components/ProductFilters.tsx:39-49 | the checkbox toggles its value in its own dimension only, and the price range is untouched |
| ProductFilters.ParsedOrZero | components/ProductFilters.tsx:52 | unparsable input becomes 0, and a parsed number is kept |
| ProductFilters.HandlePriceChange | components/ProductFilters.tsx:51-58 | only the chosen bound changes, to the parsed value or 0 |
| ProductFilters.PriceChangeMayInvertRange | components/ProductFilters.tsx:53-56 | a lower bound above the upper one is accepted as typed |
| ProductFilters.CategoryOptionsAreReal | components/ProductFilters.tsx:60 | the category options are exactly the three real categories, each once, never Vše |
| Configurator.Select | pages/Configurator.tsx:183-188 | the product overwrites the slot of its type, every other slot stays, and an accessory changes no slot |
| Configurator.SelectProperties | pages/Configurator.tsx:183-188 | selecting keeps every slot holding a product of its own type, and of two selections of one type the later wins |
| Configurator.ResolveSuggestion | pages/Configurator.tsx:195-205 | the loop's outfit is the in-order resolution of the ids, and `foundAny` holds iff some id names a catalog product |
| Configurator.LastOfKind | pages/Configurator.tsx:198-204 | the found product is of the type and in the catalog, is what some id resolves to with no later id resolving to that type, and there is none exactly when no id resolves to that type |
| Configurator.ResolveSlots | pages/Configurator.tsx:195-205 | each slot ends with the product of the last suggested id of its type, or keeps its old product, so unknown ids are skipped |
| Configurator.ResolveKeepsInvariant | pages/Configurator.tsx:198-204 | resolution keeps the outfit well typed and within the catalog |
| Configurator.NothingResolvedChangesNothing | pages/Configurator.tsx:207-209 | when no id resolves, the outfit is unchanged |
| Configurator.Opt | pages/Configurator.tsx:218 | an empty slot contributes nothing and a filled one its product |
| Configurator.OutfitList | pages/Configurator.tsx:218 | at most four items, exactly the slot products |
| Configurator.SumPricesAppend | pages/Configurator.tsx:217-218 | the price sum of a concatenation is the sum of the parts |
| Configurator.OutfitListMatchesSlots | pages/Configurator.tsx:217-218 | the item list has one entry per filled slot, its prices sum to `totalPrice`, and it is empty (with price 0) exactly for the empty outfit |
| Configurator.SlotIndex | pages/Configurator.tsx:218 | the four outfit slots take the positions 0 to 3 in the order headwear, top, bottom, shoes |
| Configurator.OutfitListOrder | pages/Configurator.tsx:218 | the item list follows the slot order headwear, top, bottom, shoes |
| Configurator.OutfitListDistinct | pages/Configurator.tsx:218 | a well-typed outfit lists each product once |
| Configurator.OutfitListDistinctIds | pages/Configurator.tsx:218 | drawn from a catalog with unique ids, the list's ids are distinct |
| Configurator.SameIdSameProduct | constants.ts:6-156 | in a catalog with unique ids, equal ids mean equal products |
| Configurator.StepKind | pages/Configurator.tsx:163-168 | the four slot steps show the four slot types, never accessories |
| Configurator.ActiveProducts | pages/Configurator.tsx:224-227 | a slot step offers exactly the catalog products of its type, in catalog order, and the summary offers none |
| Configurator.SlotStepsOfferProducts | pages/Configurator.tsx:224-227 | with the real catalog, every slot step offers at least one product |
| Configurator.Wizard.constructor | pages/Configurator.tsx:172-179 | the wizard starts at step 0 with an empty outfit |
| Configurator.Wizard.Choose | pages/Configurator.tsx:324-327 | clicking an offered card puts it in the current step's slot and keeps the invariant |
| Configurator.Wizard.Suggest | pages/Configurator.tsx:190-215 | offered only before the summary step (the panel is hidden there, line 268); a blank prompt, or a suggestion with no resolving id, leaves the outfit alone; otherwise the resolved outfit replaces it |
| Configurator.Wizard.Back | pages/Configurator.tsx:357-364 | back is offered only past step 0 and goes one step back |
| Configurator.Wizard.Next | pages/Configurator.tsx:366-380 | next is offered only before the summary and goes one step on, so the step stays in 0..4 |
| Configurator.Wizard.Commit | pages/Configurator.tsx:366-373 | buying, offered only for a non-empty outfit at the summary, bulk-adds the item list and opens the drawer, keeping the theme |
| Configurator.CommitAddsOneEach | pages/Configurator.tsx:369 | buying adds exactly one unit to each of the outfit's products' lines and leaves every other line alone |
| Checkout.Shipping | pages/Checkout.tsx:18 | shipping is 0 iff the subtotal is strictly above 5000, else 129 |
| Checkout.Total | pages/Checkout.tsx:19 | the total is the subtotal, or 129 more, the latter iff the subtotal is at most 5000 |
| Checkout.ShippingThreshold | pages/Checkout.tsx:18-19 | a subtotal of 5000 costs 5129 while 5001 costs 5001, so the total is not monotone |
| Checkout.EmptyCartTotals | pages/Checkout.tsx:17-19 | the empty cart has subtotal 0 |
| Checkout.SubtotalPositive | pages/Checkout.tsx:17 | with positive prices and quantities the subtotal is at least the number of lines |
| Checkout.SubtotalAfterAdd | pages/Checkout.tsx:17 | adding a quantity of a product raises the subtotal by price times quantity |
| Checkout.CheckoutPage.constructor | pages/Checkout.tsx:13 | the page starts in the form step |
| Checkout.CheckoutPage.Submit | pages/Checkout.tsx:21-31 | submit moves to success and empties the cart, after which the empty cart does not redirect; the theme and the drawer flag are kept |
| Checkout.RedirectOnlyFromForm | pages/Checkout.tsx:34-38 | an empty cart redirects home in the form step but not in success, and a non-empty cart never does |
| CartDrawer.HeaderCount | components/Cart.tsx:36 | the header counts lines, and is zero iff the cart is empty |
| CartDrawer.HeaderCountsProducts | components/Cart.tsx:36 | on a cart with unique ids the header equals the number of distinct product ids |
| CartDrawer.HeaderVersusBadge | components/Cart.tsx:36 | with positive quantities the header never exceeds the navbar badge, and the two agree exactly when every line holds one unit |
| CartDrawer.DrawerTotal | components/Cart.tsx:16 | the drawer total is the checkout subtotal, and with positive prices it is 0 exactly when checkout is disabled |
| CartDrawer.QuantityButtons | components/Cart.tsx:74-91 | an enabled minus removes exactly one unit, plus adds exactly one, remove drops the line whatever its quantity, and other lines are untouched |
| Navbar.TotalItemsBounds | components/Navbar.tsx:20 | with positive quantities the badge count is at least the number of lines, and the badge shows iff the cart is non-empty |
| Navbar.TotalItemsAfterAdd | components/Navbar.tsx:20 | adding a quantity raises the badge count by that quantity |
| Navbar.BadgeCountsUnits | components/Navbar.tsx:132 | two units of one product show 2 on the badge against one line |
| Navbar.IsActiveMeaning | components/Navbar.tsx:22-29 | the home link is active exactly on "/", another link exactly on its path without the query, and the query never matters |
| Navbar.ShopLinksActiveTogether | components/Navbar.tsx:31-38 | on /shop a menu link is active iff it is the catalog link or one of the three category links |
| ProductDetail.Related | pages/ProductDetail.tsx:27-31 | at most four catalog products of the same category and another id, in catalog order; exactly the first four (or all, when fewer) of the catalog's candidates |
| ProductDetail.RelatedExcludesSelf | pages/ProductDetail.tsx:29 | the shown product is never among its related products |
| ProductDetail.DetailPage.constructor | pages/ProductDetail.tsx:14-17 | the page starts with no product, quantity 1 and no related products |
| ProductDetail.DetailPage.Load | pages/ProductDetail.tsx:19-34 | a known id shows its product with its first size and related products; an unknown id redirects to /shop; the quantity is not reset |
| ProductDetail.DetailPage.SelectSize | pages/ProductDetail.tsx:106-109 | the selected size is always one of the product's sizes |
| ProductDetail.DetailPage.Decrement | pages/ProductDetail.tsx:125 | minus sets max(1, q - 1), so the quantity stays at one or more |
| ProductDetail.DetailPage.Increment | pages/ProductDetail.tsx:127 | plus adds one |
| ProductDetail.DetailPage.AddToCart | pages/ProductDetail.tsx:130 | the cart line grows by exactly the counter's quantity; the size is not passed, and the theme is kept |
| Login.ToUpperAscii | pages/Login.tsx:21 | lower-case ASCII letters map to upper case and everything else is kept |
| Login.Capitalize | pages/Login.tsx:21 | the length is kept, the first character is upper-cased and the rest is unchanged |
| Login.DisplayNameShape | pages/Login.tsx:20-21 | the name has no '@' and is no longer than the email; without an '@' the whole email is used; a leading '@' gives the empty name |
| Login.CapitalizeIdempotent | pages/Login.tsx:21 | capitalising twice equals capitalising once, so a display name derives itself |
| Login.SignIn | pages/Login.tsx:18-23 | the user is logged in under the email as typed, with the derived name |
| Login.PasswordIgnored | pages/Login.tsx:18-23 | the password plays no part |
| Login.DisplayNameExample | pages/Login.tsx:20-21 | "eva@shop.cz" signs in as "Eva" |
| Strings.PrefixBefore | components/Navbar.tsx:26 | `split(c)[0]` is the prefix before the first `c`, or the whole string when there is none |
| Strings.PrefixBeforeSplit | components/Navbar.tsx:26 | `split(c)[0]` of `a + c + b` is `a` whenever `a` holds no `c`, so the query of a link and the domain of an email are cut off |

## Left out

- 3D mannequin and `getColorHex` (pages/Configurator.tsx:29-155 and the canvas at the end of the page): rendering only.
- The suggestion service (services/geminiService.ts): a network call to a language model. Its result is an arbitrary list of ids, empty on any failure.
- Asynchrony and timers. The `setTimeout` delays of checkout and login are not modelled. Neither is the `await` in the suggestion handler with its `isLoading` flags, nor the stale outfit that handler may write back after a concurrent selection. Each handler is one atomic step.
- Browser I/O. Local storage and the system colour scheme are inputs. The `dark` class on the document, routing (`navigate`) and scrolling are effects without modelled state; redirects are returned as results.
- The random "Novinka" badge (pages/Shop.tsx:147): non-deterministic markup.
- `parseInt` and `decodeURIComponent`. The parsed number is an input (`None` for an unparsable entry). Decoding is the identity, so a parameter on which decoding throws is not modelled.
- Login.ToUpperAscii: only ASCII letters are upper-cased. Full Unicode case mapping, where upper-casing can change the length, is not modelled.
- Object aliasing in bulk add. `newCart[i].quantity += 1` mutates a line object shared with the previous cart state. The model updates a value and does not capture that sharing.
- Duplicate ids in one cart line list. `addToCart` maps over every line with the id, while the bulk-add loop increments only the first (`findIndex`). The two agree on every cart with at most one line per id, which every updater preserves, so equality is proved under that invariant only.
- Strings.StrLess: compares strings by Unicode scalar value. `Array.prototype.sort` compares UTF-16 code units, and the two orders differ only for characters outside the Basic Multilingual Plane, which the catalog does not use.
- Shop.SizeFacet: does not state the relative order of sizes missing from the size table; they share rank -1, and the `Size` type of types.ts admits none.
- Configurator.Select: an accessory (`type: 'accessory'`) adds an `accessory` key that no slot reads; the model keeps the outfit unchanged, and the catalog has no accessory.
- UI-only flags: the filter accordion, the mobile menu and drawer, the profile dropdown, and the checkout `isLoading` flag.
- Static or forwarding pages: pages/Home.tsx, components/Hero.tsx and pages/Register.tsx.
- JSX typing files: global.d.ts and types/r3f-jsx.d.ts.
- The authentication and theme contexts: context/AuthContext and context/ThemeContext are not part of this model. `SignIn` returns the user that would be passed to `login`.
- Numbers: prices and quantities are unbounded integers. JavaScript numbers are doubles, which agree with them for every value below 2^53.
- Product fields: the name, image and description are carried as plain strings with no behaviour.
