# Cart store and list helpers of the restaurant front end, in Dafny

This project models two pieces of a small Vue front end for ordering food from
restaurants.

- **The cart store** (`src/cartStore.js`). It is a Pinia store holding the cart lines,
  a `showModal` flag and a pending `dishToAdd`. `addToCart` keeps a cart to one
  restaurant. It adds a dish from the cart's restaurant. A dish from another restaurant
  raises a confirmation modal instead. `confirmAddToCart` then replaces the cart with
  that dish, and `cancelClearCart` drops it. `addDishToCart`, `removeFromCart`,
  `deleteFromCart` and `clearCart` edit the lines, and `cartLength` counts the units.
  Every edit writes the cart to the browser's localStorage, except the conflict branch
  of `addToCart` and a `confirmAddToCart` with no pending dish.
- **The list helpers** (`src/utils/helpers.js`). `toggleType` adds or removes a cuisine
  from the selected list. `filterRestaurants` filters the restaurant list by selected
  cuisines or by a search term. `getIconClass` and `getIconColor` are two lookup tables
  keyed by cuisine name.

Each store action is a pure function from one `CartState` to the next (`cart_store.dfy`).
The localStorage entry `'cart'` is the `saved` field of the state, and JSON serialisation
is treated as lossless. `Step` and `Run` replay the actions the pages can invoke. The
store's invariant is `Valid`: ids are unique, every quantity is at least 1, all lines
share one restaurant, the modal is up exactly while a dish is pending, and any stored
copy is well-formed. `cart_properties.dfy` proves that every action keeps it. It also
proves the unit counts each action moves, the conflict round and the storage round
trip. `seqs.dfy` models `Array.prototype.filter` (`Filter`) and the subsequence
relation. `helpers.dfy` models the list helpers.

Three behaviours of the code are easy to miss:

- `confirmAddToCart` with no pending dish empties the cart but does not write storage.
  Writing happens only inside the `addDishToCart` call, which is skipped when
  `dishToAdd` is null. A reload then brings back the old cart
  (`ConfirmWithoutPendingDishLeavesStaleEntry`). `Step` admits `Confirm` in any state,
  so the model keeps this path. If `confirmAddToCart` is called only while the modal is
  up, `Valid` ties the modal to a pending dish and the path is never taken.
- `removeFromCart` removes the line whenever its quantity is not above 1, not only
  when it is exactly 1.
- `addDishToCart` is reachable directly and does not check the restaurant, so calling
  it directly can mix restaurants (`AddDishToCartCanMixRestaurants`). The action
  alphabet `Action` therefore holds only the page-level actions.

## Model

| member | source | states |
|---|---|---|
| `CartStore.Fresh` | src/cartStore.js:4-8 | a started store has an empty cart with a unit count of 0, no modal and no pending dish, keeps whatever storage holds, and is valid when that stored copy is well-formed |
| `CartStore.FindIndex` | src/cartStore.js:55 | `findIndex` gives -1 exactly when no line has the id; otherwise it gives the first line carrying the id |
| `CartStore.CartLength` | src/cartStore.js:10 | when every quantity is at least 1, the unit count is at least the number of lines |
| `CartStore.SaveCartToLocalStorage` | src/cartStore.js:74-76 | the storage entry becomes a copy of the cart; nothing else changes |
| `CartStore.LoadCartFromLocalStorage` | src/cartStore.js:79-84 | an existing entry replaces the cart; with no entry the state is unchanged; flags and storage are untouched |
| `CartStore.AddDishToCart` | src/cartStore.js:31-44 | if a line has the dish's id, that first line gains one unit, the line count is unchanged and every other line is identical; otherwise exactly one line with quantity 1 is appended; the result is saved; flags untouched |
| `CartStore.CanAddToCart` | src/cartStore.js:47-50 | for a one-restaurant cart, `canAddToCart` holds if and only if appending a line for the dish keeps the cart to one restaurant; its partner `SingleRestaurant` is the invariant it guards |
| `CartStore.AddToCart` | src/cartStore.js:16-29 | when `canAddToCart` fails, cart and storage are unchanged, `showModal` is true and `dishToAdd` is the dish; otherwise the result is exactly `addDishToCart`'s |
| `CartStore.RemoveFromCart` | src/cartStore.js:54-66 | an absent id leaves the lines unchanged; the first line with the id loses one unit if it has more than one, with all other lines identical; otherwise it is spliced out with the others kept in order; saved in every case |
| `CartStore.DeleteFromCart` | src/cartStore.js:68-71 | no line with the id remains; the result is an order-preserving subsequence of the old cart that keeps every other line as often as before; saved |
| `CartStore.CancelClearCart` | src/cartStore.js:86-89 | modal closed and pending dish cleared; cart and storage unchanged |
| `CartStore.ConfirmAddToCart` | src/cartStore.js:91-101 | with a pending dish the cart is exactly that dish with quantity 1, and it is saved; without one the cart is empty and storage untouched; in both cases modal closed and pending dish cleared |
| `CartStore.ClearCart` | src/cartStore.js:103-106 | the cart is empty, its unit count is 0 and the empty cart is saved |
| `Seqs.Filter` | src/cartStore.js:69 | `Array.prototype.filter`: the result is no longer than the input; it holds exactly the input elements that satisfy the predicate, each as often as in the input |
| `CartProperties.CartLengthAppend` | src/cartStore.js:10 | the unit count of two carts joined is the sum of their unit counts |
| `CartProperties.AddDishToCartAddsOneUnit` | src/cartStore.js:31-42 | `cartLength` rises by exactly 1 after `addDishToCart` |
| `CartProperties.AddDishToCartKeepsIdsAndQuantities` | src/cartStore.js:31-42 | `addDishToCart` keeps ids unique and quantities at least 1 |
| `CartProperties.AddDishToCartCanMixRestaurants` | src/cartStore.js:31-42 | a concrete cart and dish for which `addDishToCart` turns a one-restaurant cart into a two-restaurant one |
| `CartProperties.RemoveFromCartRemovesOneUnit` | src/cartStore.js:54-63 | with positive quantities, `cartLength` drops by 1 when the id is present and is unchanged when it is absent |
| `CartProperties.RemoveThreeUnitsThenNoOp` | src/cartStore.js:54-63 | a line of quantity 3 goes to 2, then 1, then is removed with the other lines kept in order, and a fourth call changes nothing |
| `CartProperties.DeleteFromCartRemovesLineUnits` | src/cartStore.js:68-69 | with unique ids, deleting an absent id changes nothing; deleting a present id splices out that line, and `cartLength` drops by its quantity |
| `CartProperties.AddToCartKeepsWellFormed` | src/cartStore.js:16-28 | `addToCart` keeps ids unique, quantities at least 1 and all lines from one restaurant |
| `CartProperties.RemoveFromCartKeepsWellFormed` | src/cartStore.js:54-63 | `removeFromCart` keeps ids unique, quantities at least 1 and all lines from one restaurant |
| `CartProperties.DeleteFromCartKeepsWellFormed` | src/cartStore.js:68-69 | `deleteFromCart` keeps ids unique, quantities at least 1 and all lines from one restaurant |
| `CartProperties.ConfirmAddToCartKeepsValid` | src/cartStore.js:91-101 | `confirmAddToCart` keeps the whole store valid |
| `CartProperties.StepKeepsValid` | src/cartStore.js:14-107 | every page-level action keeps the store valid: a well-formed cart, the modal up exactly while a dish is pending, and a well-formed stored copy |
| `CartProperties.RunKeepsValid` | src/cartStore.js:14-107 | any sequence of page-level actions keeps the store valid |
| `CartProperties.AddingOneRestaurantCountsCalls` | src/cartStore.js:16-42 | adding dishes of one restaurant to a cart that is empty or from that restaurant never raises the modal and adds one unit per call |
| `CartProperties.FromEmptyCartLengthCountsCalls` | src/cartStore.js:16-42 | from an empty cart, after `addToCart` calls with dishes of one restaurant, `cartLength` equals the number of calls |
| `CartProperties.ConflictThenConfirm` | src/cartStore.js:91-101 | after a conflicting `addToCart`, `confirmAddToCart` leaves exactly that dish with quantity 1, saved, and closes the modal |
| `CartProperties.ConflictThenCancel` | src/cartStore.js:86-89 | after a conflicting `addToCart`, `cancelClearCart` leaves cart and storage as before and clears both flags; a valid store with no open modal is back in its exact earlier state |
| `CartProperties.PersistingActionsRoundTrip` | src/cartStore.js:74-84 | after `removeFromCart`, `deleteFromCart`, `clearCart` or a non-conflicting `addToCart`, a freshly started store that loads from storage gets exactly the cart back |
| `CartProperties.ConfirmWithoutPendingDishLeavesStaleEntry` | src/cartStore.js:91-101 | with no pending dish, `confirmAddToCart` empties the cart but a reload gives what was stored before |
| `Helpers.ToggleType` | src/utils/helpers.js:2-8 | a selected type leaves no occurrence behind, and the rest form an order-preserving subsequence with every other element as often as before; an unselected type is appended at the end |
| `Helpers.ToggleAbsentTwiceRestores` | src/utils/helpers.js:3-7 | toggling an unselected type twice gives back the original list |
| `Helpers.TogglePresentTwiceMovesToEnd` | src/utils/helpers.js:3-7 | toggling a selected type twice leaves it exactly once, at the end, with every other element as often as before |
| `Helpers.FilterRestaurants` | src/utils/helpers.js:11-24 | always an order-preserving subsequence of the input, never longer; with nothing selected and an empty term, the input itself; with some type selected, exactly the restaurants having a selected type, each as often as in the input; otherwise exactly those whose lower-cased name contains the lower-cased term |
| `Helpers.SelectedTypesOverrideSearch` | src/utils/helpers.js:14-17 | with some type selected, the search term does not affect the result |
| `Helpers.EmptySearchMatchesEverything` | src/utils/helpers.js:19-21 | the empty search term is contained in every lower-cased name |
| `Helpers.EmptySearchBranchAgreesWithNameFilter` | src/utils/helpers.js:12-22 | with nothing selected, the early return for an empty term gives the same list as the name filter run with that term |
| `Helpers.GetIconClass` | src/utils/helpers.js:27-41 | defined exactly for the ten cuisine names, `undefined` for any other name |
| `Helpers.GetIconColor` | src/utils/helpers.js:44-58 | defined exactly for the ten cuisine names, `undefined` for any other name |
| `Helpers.IconTablesShareDomain` | src/utils/helpers.js:27-57 | the icon and colour tables have the same keys, the ten cuisine names, and are defined for the same names |
| `Helpers.IconColorsAreHexColors` | src/utils/helpers.js:45-56 | data sanity check on the table's contents: every colour is a six-digit CSS hex colour |

## Left out

- `totalPrice` getter (src/cartStore.js:11-12): it relies on floating-point sums, `parseFloat` and `toFixed(2)` formatting. `Dish.price` is an opaque integer carried through.
- `parseFloat(dish.price)` in `addDishToCart`: the price is modelled as already numeric, so the new line keeps the dish's price.
- JSON serialisation in `saveCartToLocalStorage` / `loadCartFromLocalStorage`: the stored copy is the cart itself. So malformed stored data, on which `JSON.parse` would throw, is not modelled. An empty-string entry, which `if (storedCart)` treats as absent, is not modelled either, because the store only ever writes serialised arrays.
- localStorage is modelled as written only by this store. Writes from other tabs of the same origin, where the last writer wins, are not modelled. `Valid`'s clause on the stored copy and `CartProperties.PersistingActionsRoundTrip` rely on this.
- Pinia reactivity, in-place mutation of line objects, and object spread: the model copies immutable records. `Dish.name` stands for the descriptive fields the store passes through untouched.
- The nested `dish.restaurant.id` and the optional chaining in `canAddToCart`: every dish and line carries a `restaurantId`, so lines without a restaurant are not modelled.
- Dish ids and restaurant ids are integers, and `===` is integer equality. Comparisons between mixed string and number ids are not modelled.
- `Helpers.FilterRestaurants`: `toLowerCase` is modelled as ASCII lower-casing. Unicode case mapping is not modelled.
- `Helpers.GetIconClass`, `Helpers.GetIconColor`: JavaScript object lookup also finds inherited prototype properties (`icons["toString"]`). The model returns `undefined` for every name outside the table.
- `toggleType` mutates `context.selectedTypes` in place or reassigns it. The model returns the new list.
- src/router.js, src/store.js and src/main.js are not part of this model: they are a route table, a configuration object and application start-up, with no logic.
