# SimpleCart cart store, modelled in Dafny

The pet-store site keeps a shopping cart in the browser: an ordered list of
line items `{id, name, price, image, qty}` stored under one key. `add` is
find-or-append (a known id gets one more unit, a new id is appended with
quantity 1). `remove` filters out every entry with an id. `setQty` sets the
first matching entry to `max(1, qty)`. The navbar badge shows the sum of the
quantities. The cart page renders one row per entry. Its summary shows the
subtotal, the item count, a flat shipping fee of 49 whenever a row is shown,
and the order total. The row controls change the stored cart and the
rendered row together.

The model is pure functions over immutable values:

- `wrappers.dfy`, module `Wrappers`: `Option` and `Result`.
- `cart_store.dfy`, module `CartStore`: `LineItem`, `Cart = seq<LineItem>`, `Add`, `Remove`, `SetQty`, `BadgeCount`, and `Subtotal` as the reference value of a cart. It also holds the invariant `Valid` (unique ids, every quantity at least 1) and the frame and badge lemmas.
- `cart_history.dfy`, module `CartHistory`: carts built from the empty cart by a run of adds.
- `cart_storage.dfy`, module `CartStorage`: the fail-soft `Read`, `Write`, and the read-change-write store operations.
- `cart_page.dfy`, module `CartPage`: rendered rows, the totals summary computed from the rows, and the increase, decrease, edit and remove controls.

Prices and quantities are whole numbers (`nat`; a field value typed by the user is an `int`). A stored quantity of 0 stands for a missing or zero `qty`. The source treats both the same way: `(qty||1)+1` on a repeated add, `qty||0` in the badge.

The model follows the code in these details:

- `read` falls back to the empty cart only when the blob is missing, does not parse, or parses to a falsy value. A blob that parses to some other truthy non-list value (an object, a number) is returned as it is. The next list operation (`find`, `filter`, `reduce`) then throws. `CartStorage.Read` returns `Failure(NotAList)` for this case, and every store operation propagates it.
- `remove` drops every entry with the id, not just one.
- `add` and `setQty` change only the first entry with the id.
- The name, price and image passed to a repeated `add` are ignored.

## Model

| member | source | states |
|---|---|---|
| CartStore.FindIndex | script.js:17 | the index found is the first entry carrying the id; none is found exactly when no entry carries it |
| CartStore.FindIndexUnique | script.js:24 | in a cart without duplicate ids, looking up an entry's id finds that entry |
| CartStore.Add | script.js:15-19 | a known id keeps the length and raises only its first entry's qty (by 1, or to 2 from a missing/zero qty), with name, price and image untouched; an unknown id appends one entry `{id,name,price,image,qty:1}` at the end and leaves the prefix equal to the old cart; the id is present afterwards; qty ≥ 1 is preserved on its own, and unique ids together with it |
| CartStore.Remove | script.js:22 | no entry with the id survives; exactly the entries with other ids remain; an absent id is a no-op; a present id shortens the cart |
| CartStore.RemoveValid | script.js:22 | removal preserves unique ids and qty ≥ 1 |
| CartStore.RemovePositive | script.js:22 | removal preserves qty ≥ 1 on its own, whatever the ids |
| CartStore.RemoveConcat | script.js:22 | filtering keeps relative order: the survivors of `a + b` are those of `a` followed by those of `b` |
| CartStore.RemovePresent | script.js:22 | with unique ids, removing a present id deletes exactly its entry and leaves the others in their original order |
| CartStore.RemoveIdempotent | script.js:22 | a second remove of the same id changes nothing |
| CartStore.ClampQty | script.js:24 | the stored quantity is at least 1, equals the request when it is ≥ 1, and is 1 for any request ≤ 0 |
| CartStore.SetQty | script.js:24 | length and ids never change; an absent id is a no-op; a present id gets qty `q` when `q ≥ 1` and 1 otherwise, on its first entry only, with all other entries untouched; qty ≥ 1 is preserved on its own, and unique ids together with it |
| CartStore.BadgeCount | script.js:28 | the badge of the empty cart is 0, and on a cart with qty ≥ 1 it is at least the number of entries |
| CartStore.Subtotal | script.js:59 | the value of a cart is 0 when it is empty or every price is 0 |
| CartStore.BadgeCountConcat | script.js:28 | the badge of two carts joined is the sum of their badges |
| CartStore.BadgeCountSplit | script.js:28 | the badge is the badge before an entry, plus that entry's qty, plus the badge after it |
| CartStore.BadgeCountUpdate | script.js:28 | changing one entry's quantity moves the badge by exactly the difference |
| CartStore.BadgeCountAdd | script.js:18 | when every qty is ≥ 1, every add raises the badge by exactly 1 |
| CartStore.BadgeCountRemove | script.js:22 | with unique ids, removing a present id lowers the badge by exactly that entry's qty (an absent id leaves the cart, and so the badge, unchanged by `Remove`'s contract) |
| CartHistory.AddAll | script.js:15-19 | any run of adds from the empty cart gives a cart with unique ids and qty ≥ 1 |
| CartHistory.AddAllShape | script.js:15-19 | any run of adds from the empty cart gives one entry per distinct id, in first-add order, whose qty is that id's add count |
| CartHistory.FirstOccurrencesOrdered | script.js:18 | the distinct ids come in the order of their first occurrence, so the entries of a cart built by adds are in first-add order |
| CartHistory.ShapedContains | script.js:17 | in a cart built this way, an id has an entry exactly when it was ever added |
| CartHistory.AddPresentKeepsShape | script.js:18 | a repeated add keeps the one-entry-per-id shape and raises that id's qty in step with its add count |
| CartHistory.AddFreshKeepsShape | script.js:18 | the first add of an id appends its entry last with qty 1, matching its single occurrence |
| CartStorage.Read | script.js:10 | a missing, unparsable or falsy blob reads as the empty cart; a stored list reads as itself; only a truthy non-list fails |
| CartStorage.Write | script.js:13 | reading right after a write gives back the cart written |
| CartStorage.StoreAdd | script.js:15-19 | the stored cart after an add is `Add` of the cart read; a missing or corrupt blob becomes a one-entry cart with qty 1 |
| CartStorage.StoreRemove | script.js:22 | the stored cart after a remove is `Remove` of the cart read and no longer holds the id |
| CartStorage.StoreSetQty | script.js:24 | a missing, unparsable or falsy blob stores the empty list; a stored list keeps its length and ids, its first entry with the id gets qty max(1, q) with every other entry untouched, and an absent id stores the list unchanged; only a truthy non-list fails |
| CartStorage.StoredBadge | script.js:28 | the badge of a missing or corrupt blob is 0, and the badge of a stored list is its quantity sum |
| CartStorage.StoreKeepsValid | script.js:15-24 | add, remove and setQty on a stored valid cart all store a valid cart |
| CartPage.Summarize | script.js:59-60 | shipping is 49 exactly when a row is shown and 0 exactly when none is; order total = subtotal + shipping; no rows gives 0/0/0/0 |
| CartPage.CartTotalsAgree | script.js:33-60 | a freshly rendered cart shows its `Subtotal`, its badge count as the item count, shipping 49 iff non-empty, and order = subtotal + shipping |
| CartPage.Rendered | script.js:30-55 | after a full render there is one row per entry carrying the entry's id, price and qty, and the summary shows the cart's `Subtotal`, its badge count as the item count, shipping 49 iff the cart is non-empty, and order = subtotal + shipping |
| CartPage.Decreased | script.js:52 | the "-" control never leaves a value below 1; it lowers values ≥ 2 by one and turns anything ≤ 2 into 1 |
| CartPage.SetRow | script.js:51-53 | a row control changes only its own row's field, keeping that row's id and price and every other row, and sends the same value to `SetQty` |
| CartPage.OnIncrease | script.js:51 | after "+" the row's field is one more than before, the row keeps its id and price, every other row is unchanged, and the cart is `SetQty` of that row's id with the new field value |
| CartPage.OnDecrease | script.js:52 | after "-" the row's field is max(1, field - 1), so at least 1; the row keeps its id and price, every other row is unchanged, and the cart is `SetQty` of that row's id with the new field value |
| CartPage.OnEdit | script.js:53 | after a direct edit the field holds exactly what was typed, the row keeps its id and price, and every other row is unchanged, while the cart is `SetQty` of the typed value, so a present id's entry gets max(1, typed) |
| CartPage.OnEditClamped | script.js:53 | the corrected edit leaves the field at max(1, typed) with the row's id and price kept, changes the cart exactly as the original does, leaves other rows alone, and equals the original for inputs ≥ 1 |
| CartPage.OnRemove | script.js:54 | the remove control drops exactly row k, keeping the other rows in order, and removes that row's id from the cart |
| CartPage.SetRowKeepsSync | script.js:51-53 | a row control that writes a value ≥ 1 keeps the rows equal to a render of the cart |
| CartPage.IncreaseKeepsSync | script.js:51 | after "+", the rows still match the cart and the summary equals the cart's totals |
| CartPage.DecreaseKeepsSync | script.js:52 | after "-", the rows still match the cart, the entry's qty is ≥ 1, and the summary equals the cart's totals |
| CartPage.EditClampedKeepsSync | script.js:53 | the clamped edit keeps rows and cart in step for every typed value |
| CartPage.EditBelowOneBreaksSync | script.js:53 | as written, typing a value below 1 always leaves the page out of step with the cart |
| CartPage.EditZeroShowsWrongTotals | script.js:53-60 | typing 0 into a one-entry cart (price 100) keeps qty 1 in the cart, but the summary shows 0/0/49/49 instead of 100/1/49/149 |
| CartPage.RemoveKeepsSync | script.js:54 | with unique ids, removing a row keeps rows and cart in step, so the summary equals the cart's totals |
| CartPage.RemoveLastEmptiesPage | script.js:54-60 | removing the only entry empties cart and page, and every figure reads 0 |
| CartPage.TwoAsOneB | script.js:15-19 | adding a (100) twice and then b (50) gives `[a×2, b×1]`, subtotal 250, count 3, shipping 49, total 299 |

## Findings

| source | as written | input that shows it | evidently intended | confidence | as-written member | corrected member |
|---|---|---|---|---|---|---|
| script.js:53 | a direct edit stores `max(1, v)` in the cart but leaves the field showing `v`; the summary (script.js:59) reads the field | one entry, price 100, qty 1; type 0 into its field: the cart keeps qty 1 but the summary shows subtotal 0 and total 49 (a negative value gives a negative subtotal) | the field is clamped like the stored quantity, so the summary matches the cart | medium, not executed | CartPage.EditBelowOneBreaksSync | CartPage.EditClampedKeepsSync |

## Left out

- Storage and serialisation (`localStorage`, `JSON.parse`, `JSON.stringify`, script.js:10, script.js:13) are browser calls. A blob is abstracted into the shape it parses to (`CartStorage.Stored`). `Write` stores the cart as it is, so the round trip holds by construction and the text format is not modelled. `Write` always succeeds: a `setItem` that throws (quota or access error, script.js:13) is not modelled.
- List elements that are not well-formed line items (wrong field types, `null` entries) are not modelled. A stored list is always a `seq<LineItem>`.
- All DOM work is left out: badge element creation (script.js:69-70), the `innerHTML` markup (script.js:31-49), event wiring (script.js:51-54, script.js:74-76), and the element lookups and text writes of `updateTotals` (script.js:61-62). The model keeps the row data (id, price, field value) and the arithmetic.
- `money` (script.js:26) is left out: it delegates to a locale formatter and is display-only.
- The image placeholder (script.js:37) is display-only. `image` is kept as an `Option`.
- The `Date.now()` fallback id and the `Number(...)||0` coercions of the add-to-cart button (script.js:75) are left out: the first is a clock read, the second is JavaScript type coercion. Ids are explicit strings and prices are whole numbers.
- Fractional prices and quantities, and `NaN` from a non-numeric `Number(...)`, are left out. JavaScript floating point is not modelled, and quantities and prices are integers.
- The "Added" button feedback and the contact-form demo (script.js:75, script.js:80) are timers with no effect on the cart.
- Races between browser tabs that share the storage key are a concurrency concern and are not modelled.
- CartPage.Render and CartPage.RowOf carry no contract of their own. They are the one-to-one row construction of script.js:34-42, and `Rendered`, `CartTotalsAgree` and the sync lemmas state what it means. The "+" arithmetic (field + 1) has no function of its own: it is written inline in `OnIncrease`, whose contract states it.
