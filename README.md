# Licence-shop cart, modelled in Dafny

This project models the shopping-cart logic of the licence-key shop's page
script (`script.js`). The shop sells eight licence products from a fixed
catalog. A visitor's cart lives in the browser's local storage as one
object mapping a product id to `{name, price, qty}`:

- `addToCart` looks the id up in the catalog, then adds a new entry with
  quantity 1 or raises an existing entry's quantity by one, and writes the
  cart back.
- `changeQty` moves an entry's quantity by a delta, deletes the entry when
  the quantity drops to 0 or below, writes the cart back and redraws the
  cart page.
- `renderCart` lists the entries in key order with their line amounts and
  adds up `price * qty` into the total. An empty cart shows `0€` and
  disables the checkout button.

Modules:

- `Catalog` (`catalog.dfy`) holds the product list `Products` and the linear
  search `Find`. `Lookup` is `PRODUCTS.find`.
- `CartStore` (`cart_store.dfy`) holds the stored cart as a value
  (`Cart(keys, items)`: the key order `Object.keys` reports, and the entries).
  It also holds the cart invariant `Wf` and the catalog agreement
  `FromCatalog`, plus the two updates as functions: `Added` for `addToCart`
  and `Changed` for `changeQty`. Finally, it holds the order-independent
  total `Total` and the lemmas about all of these.
- `CartPage` (`cart_page.dfy`) holds what `renderCart` computes: the `View`
  function and the `Render` loop proved equal to it. It also proves that
  the loop's running total equals `Total` whatever the key order.
- `Shop` (`shop.dfy`) is the script's state as the class `CartHandlers`. Its fields `keys`
  and `items` are the stored cart. Its methods `AddToCart` and `ChangeQty`
  read the cart, change it and write it back; `RenderCart` only reads it. Each of them
  is proved against `Added`, `Changed` and `View`, and each keeps the
  invariant `Valid`.
- `Scenarios` (`scenarios.dfy`) holds concrete call sequences against the real catalog.

The key order is modelled explicitly. A JavaScript object lists its
string keys in insertion order, and deleting a key removes it from that
order. So `addToCart` appends a new id, and `changeQty` removes a deleted
one. Ids are never integer-like, so the array-index ordering rule of
`Object.keys` never applies.

## Model

| member | source | states |
|---|---|---|
| `Catalog.ProductsWellFormed` | script.js:13-22 | the catalog has 8 products with pairwise distinct ids and positive prices |
| `Catalog.Find` | script.js:35 | the search finds nothing exactly when no product has the id; anything it finds is in the list, has that id, and no product before it has that id |
| `Catalog.FindDistinct` | script.js:35 | with distinct ids, the search for a listed product's id returns exactly that product |
| `Catalog.Lookup` | script.js:13-35 | `PRODUCTS.find` returns nothing iff the id is not listed; a found product is listed, carries the id and has a positive price |
| `Catalog.LookupListed` | script.js:13-35 | every catalog product is found by its own id |
| `CartStore.RemoveKey` | script.js:146 | `delete` removes the deleted id and no other key from the key order, keeps the order duplicate-free, shortens it by one when the id was there, and is the identity when the id is absent (the order of the remaining keys is stated by `RemoveKeySplit`) |
| `CartStore.RemoveKeySplit` | script.js:146 | deleting a key from the order leaves the keys before it and after it exactly as they were, in the same relative order |
| `CartStore.Added` | script.js:34-43 | an unknown id leaves the cart unchanged; an id already in the cart gets qty+1 and keeps its name and price; a new id gets the catalog's name and price with qty 1, appended to the key order; every other entry is unchanged |
| `CartStore.Changed` | script.js:141-148 | an id not in the cart changes nothing; otherwise the qty becomes old+delta if that is positive, and the key is deleted if not; every other entry is unchanged |
| `CartStore.AddedKeepsInvariants` | script.js:38-42 | `addToCart` keeps every stored qty at least 1, the key order in step with the entries, and every entry equal to its catalog product |
| `CartStore.ChangedKeepsInvariants` | script.js:144-147 | `changeQty` keeps every stored qty at least 1 (whatever the delta), the key order in step with the entries, and the catalog agreement |
| `CartStore.TotalSplit` | script.js:103-105 | the sum of `price * qty` over the entries can take any one entry out first |
| `CartStore.TotalUpdate` | script.js:105 | replacing one entry changes the total by the difference of the two lines |
| `CartStore.TotalSign` | script.js:103-105 | with positive prices and quantities, the total is never negative, and it is positive exactly when there are entries |
| `CartStore.CatalogCartTotal` | script.js:93-105 | for a cart built from the catalog, the total is positive iff the cart is non-empty |
| `CartStore.TotalAdded` | script.js:34-43 | `addToCart` raises the total by exactly one unit price (the stored one, or the catalog's for a new entry), and by nothing for an unknown id |
| `CartStore.TotalChanged` | script.js:141-148 | `changeQty` moves the total by `price * delta` when the entry stays, and removes its whole line when it is deleted |
| `CartStore.RepeatedAdd` | script.js:34-43 | `n` adds of a catalog id to a cart without it leave qty `n` with the catalog's name and price, the id appended once to the key order, and every other entry unchanged |
| `CartStore.ChangeUndo` | script.js:141-148 | lowering by `d` and then raising by `d` restores the cart when the qty stayed positive; otherwise the entry is gone and raising it changes nothing |
| `CartStore.ReAddAfterRemoval` | script.js:38-46 | a deleted entry added again comes back with qty 1 at the end of the key order |
| `CartPage.SumInOrder` | script.js:93-105 | the loop's running total over the visited keys: never negative when no line is, and, when every line is positive, positive exactly when some key was visited |
| `CartPage.View` | script.js:90-138 | what `renderCart` shows: checkout disabled and the empty message exactly when the key list is empty, then the `0€` view; otherwise one row per key in key order with its id and `price * qty`, and a positive total when every line is positive |
| `CartPage.Rows` | script.js:103-135 | one row per visited key, in key order, with the entry's name, qty and `price * qty` |
| `CartPage.Render` | script.js:90-138 | the render loop's result is the view of the cart; for a well-formed non-empty cart its total is the sum of `price * qty` over all entries and it has rows |
| `CartPage.SumInOrderIsTotal` | script.js:103-105 | whatever order lists each key once, the loop's running total equals the sum over all entries |
| `CartPage.KeyOrderIrrelevant` | script.js:91-105 | two listings of the same keys give the same total |
| `CartPage.ViewMeaning` | script.js:90-138 | checkout is disabled iff the cart is empty; an empty cart shows the empty message and `0€`; otherwise the total is the sum over all entries, with one row per key in key order |
| `Shop.CartHandlers.constructor` | script.js:25-28 | with nothing stored, the cart is empty |
| `Shop.CartHandlers.AddToCart` | script.js:34-46 | the stored cart becomes `Added` of the old one, and the invariant holds again |
| `Shop.CartHandlers.ChangeQty` | script.js:141-150 | the stored cart becomes `Changed` of the old one, the invariant holds again, and the page is redrawn from the new cart only when the id was in the cart |
| `Shop.CartHandlers.RenderCart` | script.js:84-139 | checkout is disabled iff the stored cart is empty; an empty cart shows the empty view; otherwise the total shown is the positive sum of `price * qty` |
| `Scenarios.BasicTwice` | script.js:34-46 | adding `basic` twice gives `{basic: qty 2}`, one row and a total of 6 |
| `Scenarios.GoldAddedThenRemoved` | script.js:141-150 | adding `gold` once and lowering it twice empties the cart and shows the empty view |
| `Scenarios.UnknownIdIgnored` | script.js:35-36 | an id that no catalog product carries leaves any cart unchanged |
| `Scenarios.NonexistentIgnored` | script.js:35-36 | the id `nonexistent` is not in the catalog, so adding it leaves any cart unchanged |

## Left out

- DOM construction and event wiring (`renderProducts`, the element building in `renderCart`, the button handlers) are user-interface code, not logic. The rows of `renderCart` are modelled as values.
- The missing-anchor early return of `renderCart` (script.js:88) is left out. Only the cart page wires `changeQty`, and its anchors are always present there.
- The `alert` confirmation of `addToCart` is a browser side effect.
- `localStorage` and `JSON.parse`/`JSON.stringify` are foreign calls. The stored value is the fields of `Shop.CartHandlers`, and every handler reads them and writes them back whole. The model does not start from a previously stored cart: the constructor is the empty storage. A malformed stored string has no defined behaviour and is not modelled.
- The `toFixed(2)` and `€` formatting of amounts is not modelled. Prices are whole euros, so amounts are exact integers (`Euros(n)`). The empty cart's literal label `0€` is kept.
- JavaScript numbers are doubles. With integer prices and quantities they stay exact far beyond any cart size, so the model uses unbounded integers.
- Inherited object properties (an id such as `toString`) are not modelled. Only catalog ids and the cart's own keys ever reach the handlers.
- `insertYear` reads the system clock, and the `DOMContentLoaded` bootstrap detects the page by probing for DOM elements.
- Several tabs sharing one storage (last write wins) is a concurrency matter and is not modelled.
