# Storefront cart and inventory, modelled in Dafny

This project models the cart and inventory logic of a small storefront page
script (`script.js`). The cart is an ordered list of line items
`{name, price, quantity}`, in the order they were first added. The inventory
is a table from product name to stock count. The page starts with three
products (アカシア蜂蜜 5, 百花蜜 8, ギフトセット 3).

- **Add to cart.** The request is rejected, with nothing changed, when the stock
  is at most 0, or when the name is already in the cart and its quantity has
  reached the stock. Otherwise the existing line goes up by one, or a new line
  with quantity 1 is appended. The rejections are returned as `OutOfStock` and
  `ExceedsStock` where the page shows an alert.
- **Badge and totals.** The badge shows Σ quantity. For a non-empty cart the
  order summary shows the subtotal Σ price × quantity, a shipping fee of 600
  below 5000 and 0 from 5000 on, and their sum. For an empty cart it shows a
  total of 0 and no shipping line.
- **Stock refresh.** The fetched counts are merged over the table key by key.
- **Checkout.** An empty cart stops early. Otherwise a snapshot of the cart is
  made whose total is the subtotal, without shipping.

Files:

- `cart_model.dfy`, module `CartModel`: the values and pure operations, with the
  lemmas about them.
- `session.dfy`, module `Sessions`: a page session as any interleaving of adds
  and refreshes, and what every session keeps.
- `storefront.dfy`, module `Storefront`: class `Shop`, which holds the global
  `cart` and `inventory` as fields. Its `AddToCart` and `Refresh` methods update
  them in place.

Three behaviours of the script are worth knowing:

- The stock bound is checked only when an item is added (script.js:52). A
  refresh (script.js:185) can lower the stock below a quantity already in the
  cart, and nothing shrinks the cart then. `Sessions.RefreshCanLeaveCartAboveStock`
  reaches such a cart through three accepted adds and one refresh. The bound is
  proved at each accepted add (`AddWithinStock`, `SessionAddWithinStock`).
- The rejection at script.js:52 compares with `>=`, so a line whose quantity
  has reached or passed the stock is refused another unit.
- A name that is not in the inventory reads as `undefined` (script.js:45, 52).
  Both comparisons are then false, so such an add is never rejected
  (`UnlistedNameIsUnbounded`). The model keeps this with an `Option` lookup.

## Model

| member | source | states |
|---|---|---|
| `CartModel.Stock` | script.js:45-52 | the `inventory[name]` read as an `Option`: None exactly for a name not in the table, whose comparisons are then false (see `UnlistedNameIsUnbounded`) |
| `CartModel.Find` | script.js:50 | returns the index of the first line with that name, and None exactly when no line has the name |
| `CartModel.Add` | script.js:43-59 | the add-to-cart step: a rejection returns the cart unchanged; the cart grows by one line exactly when an accepted name was not yet in it; every existing line keeps its position, name and stored price; lines for other names are untouched. The lemmas below state each branch |
| `CartModel.OutOfStockLeavesCart` | script.js:45-48 | a stock of 0 or less gives `OutOfStock`, and the cart comes back exactly unchanged |
| `CartModel.ExceedsStockLeavesCart` | script.js:50-55 | with unique names and a positive stock, a line whose quantity is ≥ that stock gives `ExceedsStock` and the cart is unchanged (a stock ≤ 0 is caught first as `OutOfStock`) |
| `CartModel.AddOutcomeCases` | script.js:43-59 | both directions: `OutOfStock` exactly when stock ≤ 0, `ExceedsStock` exactly when the first matching line has reached a positive stock; every rejection leaves the cart unchanged |
| `CartModel.AddIncrementsExisting` | script.js:56 | an accepted add of a name already in the cart raises that line's quantity by exactly 1, keeps its name and stored price, and leaves the length and every other line unchanged |
| `CartModel.AddAppendsNew` | script.js:57-58 | an add of a new name that is not out of stock is accepted, and appends `(name, price, 1)` at the end; every earlier line is unchanged |
| `CartModel.UnlistedNameIsUnbounded` | script.js:45-55 | an add of a name missing from the inventory is always accepted |
| `CartModel.AddPreservesWellFormed` | script.js:50-58 | every add keeps names unique and every quantity ≥ 1 |
| `CartModel.AddWithinStock` | script.js:50-58 | after an accepted add of a listed name, that name's line has quantity between 1 and the stock at call time |
| `CartModel.AddItemCount` | script.js:56-68 | an accepted add raises Σ quantity by exactly 1; a rejected add leaves it unchanged |
| `CartModel.AddSubtotal` | script.js:56-58 | an accepted add raises the subtotal by the line's stored unit price; for a name already in the cart, the price passed with the request is ignored |
| `CartModel.BadgeShownIffNonEmpty` | script.js:68-75 | in a well-formed cart, Σ quantity > 0 exactly when the cart has at least one line, so the badge is shown exactly then |
| `CartModel.ItemCount` | script.js:68 | Σ quantity as a left fold; when every quantity is ≥ 1 it is at least the number of lines |
| `CartModel.Subtotal` | script.js:112 | Σ price × quantity as a left fold; it is ≥ 0 when every price and quantity is |
| `CartModel.Shipping` | script.js:113 | shipping is 0 exactly when the subtotal is ≥ 5000, and 600 exactly when it is below |
| `CartModel.Total` | script.js:112-114 | total minus subtotal is the shipping fee for that subtotal: equal from 5000 on, 600 more below |
| `CartModel.SummaryTotal` | script.js:98-114 | the grand total shown: 0 for an empty cart, and subtotal plus the shipping fee for that subtotal otherwise |
| `CartModel.TotalExamples` | script.js:112-114 | one line of (3000, 1) gives 3000 + 600 = 3600; one line of (3000, 2) gives 6000 with free shipping; the empty cart shows 0 |
| `CartModel.ItemCountUpdate` | script.js:68 | replacing one line changes Σ quantity by the difference of the two quantities |
| `CartModel.SumsAppend` | script.js:68-112 | appending a line adds its quantity to Σ quantity and its amount to the subtotal |
| `CartModel.SubtotalUpdate` | script.js:112 | replacing one line changes Σ price × quantity by the difference of the two line amounts |
| `CartModel.Merge` | script.js:185 | keys are the old keys plus the supplied ones; each supplied key takes its new value and every other key keeps its old value |
| `CartModel.Checkout` | script.js:198-206 | no snapshot exactly when the cart is empty; otherwise the snapshot holds the cart and the subtotal as its total |
| `CartModel.SnapshotTotalExcludesShipping` | script.js:204-206 | the snapshot total is the summary total minus shipping, and the two agree exactly when the subtotal is ≥ 5000 |
| `Sessions.Step` | script.js:43-59 | one event: an add changes only the cart, a refresh (script.js:185) only the inventory, and no event shortens the cart |
| `Sessions.Replay` | script.js:185-194 | any interleaving of adds and timed refreshes: the cart never gets shorter, and every line of the starting cart keeps its index, name and unit price |
| `Sessions.ReplayAppend` | script.js:185-194 | replaying two runs of events one after the other gives the same session as replaying them joined |
| `Sessions.ReplayKeepsEarlierLines` | script.js:56-58 | every line present after any prefix of a session, including lines added during it, keeps its index, name and unit price for the rest of the session |
| `Sessions.RefreshCanLeaveCartAboveStock` | script.js:45-58 | from an empty cart at stock 3, three adds of one name are accepted, and a refresh to stock 1 (script.js:185) leaves the cart at quantity 3, above the new stock |
| `Sessions.ReplayPreservesWellFormed` | script.js:43-59 | any sequence of adds and refreshes from a well-formed cart keeps names unique and quantities ≥ 1 |
| `Sessions.SessionAddWithinStock` | script.js:45-58 | in any session, an accepted add of a listed name leaves its line within the stock of that moment |
| `Sessions.ReplayItemCountGrows` | script.js:56-68 | no event lowers Σ quantity, because there is no removal or decrement |
| `Sessions.ReachableCartsWellFormed` | script.js:2-9 | every cart reachable from page load, an empty cart with the initial table, is well formed |
| `Storefront.Shop.constructor` | script.js:2-9 | page load gives an empty cart and the three-product initial inventory |
| `Storefront.Shop.AddToCart` | script.js:43-59 | updates the cart in place to the result of `Add`, leaves the inventory alone and keeps the cart well formed; a rejection changes nothing; the badge goes up by 1 exactly on acceptance; an accepted listed name stays within its stock |
| `Storefront.Shop.Refresh` | script.js:185 | the inventory becomes the merge of the old table and the update; the cart is unchanged and stays well formed |

## Left out

- Rendering: the stock display, the badge's element, the order modal's HTML, smooth scrolling, hover effects and lazy image loading are DOM side effects. `updateStockDisplay` and the HTML of `openOrderForm` are not modelled. The values the page displays are modelled: the badge count written by `updateCartDisplay`, and the order modal's subtotal, shipping and grand total. The modal's per-line amounts and the stock texts are not modelled.
- Alerts: the two add rejections are returned as outcomes instead. The empty-cart alert at checkout is the `None` result.
- The add animation, and the global `event.target` it reads after an accepted add, are UI work on a timer.
- The five-minute `setInterval`, the random sample counts and the commented-out fetch are timers, randomness and the network. `Refresh` and `Merge` take an arbitrary update table instead. The fetch failure path leaves the table unchanged, which is simply not calling `Refresh`.
- Checkout output: the `localStorage` write, the JSON encoding, the ISO timestamp, the `toLocaleString` formatting and the prefilled form URL are I/O and library calls. The snapshot keeps the items and the total only.
- The analytics wrapper around `addToCart` calls a tracker and then the original function, so it does not change cart behaviour.
- Numbers are unbounded integers. The script's floating-point numbers are not modelled, and neither are non-integer prices or precision loss on very large sums.
- Names that collide with properties that every JavaScript object has, such as `toString`, are not modelled. The inventory is a plain map.
