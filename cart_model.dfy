/**
 * The cart and inventory logic of the storefront script, as values.
 *
 * A cart is an ordered list of line items (insertion order is add order),
 * the inventory is a table from product name to stock count. This module
 * holds the pure part: the add-to-cart transition, the totals, the item-count
 * badge, the inventory merge and the checkout snapshot, and the lemmas that
 * state what each of them promises.
 */
module CartModel {

  datatype Option<T> = None | Some(value: T)

  /** One product entry in the cart: unit price in whole yen and a count. */
  datatype LineItem = LineItem(name: string, price: int, quantity: int)

  /** Product name to available count. */
  type Inventory = map<string, int>

  /** What an add request ends in; the two rejections replace the alerts. */
  datatype AddOutcome = OutOfStock | ExceedsStock | Added

  datatype AddResult = AddResult(outcome: AddOutcome, items: seq<LineItem>)

  /** The page's inventory table before any refresh. */
  const InitialInventory: Inventory :=
    map["アカシア蜂蜜" := 5, "百花蜜" := 8, "ギフトセット" := 3]

  // ---------------------------------------------------------------------------
  // Cart invariants

  predicate UniqueNames(items: seq<LineItem>)
  {
    forall i, j :: 0 <= i < j < |items| ==> items[i].name != items[j].name
  }

  predicate PositiveQuantities(items: seq<LineItem>)
  {
    forall i :: 0 <= i < |items| ==> items[i].quantity >= 1
  }

  /** What every reachable cart satisfies. */
  predicate WellFormed(items: seq<LineItem>)
  {
    UniqueNames(items) && PositiveQuantities(items)
  }

  // ---------------------------------------------------------------------------
  // Lookups

  /**
   * The inventory entry for a name. An absent name reads as `undefined` in the
   * script, for which every numeric comparison is false; None stands for it.
   */
  function Stock(inventory: Inventory, name: string): (r: Option<int>)
    ensures r.Some? <==> name in inventory
    ensures r.Some? ==> r.value == inventory[name]
  {
    if name in inventory then Some(inventory[name]) else None
  }

  /** The index of the first line item with the given name, as `Array.find` picks it. */
  function Find(items: seq<LineItem>, name: string): (r: Option<nat>)
    ensures r.Some? ==> r.value < |items| && items[r.value].name == name
    ensures r.Some? ==> forall j :: 0 <= j < r.value ==> items[j].name != name
    ensures r.None? <==> forall j :: 0 <= j < |items| ==> items[j].name != name
  {
    if items == [] then None
    else if items[0].name == name then Some(0)
    else match Find(items[1..], name)
      case None => None
      case Some(i) => Some(i + 1)
  }

  // ---------------------------------------------------------------------------
  // Adding to the cart

  /**
   * The add-to-cart transition. It is rejected, with the cart unchanged, when
   * the stock is at most zero, or when the existing line's quantity has already
   * reached the stock. Otherwise the existing line goes up by one (its stored
   * price is kept) or a new line with quantity 1 is appended.
   */
  function Add(items: seq<LineItem>, inventory: Inventory, name: string, price: int): (r: AddResult)
    ensures r.outcome != Added ==> r.items == items
    ensures |r.items| == |items| + (if r.outcome == Added && Find(items, name).None? then 1 else 0)
    ensures forall j :: 0 <= j < |items| ==>
      r.items[j].name == items[j].name && r.items[j].price == items[j].price
    ensures forall j :: 0 <= j < |items| && items[j].name != name ==> r.items[j] == items[j]
  {
    var stock := Stock(inventory, name);
    if stock.Some? && stock.value <= 0 then AddResult(OutOfStock, items)
    else match Find(items, name)
      case Some(i) =>
        if stock.Some? && items[i].quantity >= stock.value then AddResult(ExceedsStock, items)
        else AddResult(Added, items[i := items[i].(quantity := items[i].quantity + 1)])
      case None => AddResult(Added, items + [LineItem(name, price, 1)])
  }

  lemma OutOfStockLeavesCart(items: seq<LineItem>, inventory: Inventory, name: string, price: int)
    requires name in inventory && inventory[name] <= 0
    ensures Add(items, inventory, name, price) == AddResult(OutOfStock, items)
  {
  }

  lemma ExceedsStockLeavesCart(items: seq<LineItem>, inventory: Inventory, name: string, price: int, i: nat)
    requires UniqueNames(items)
    requires name in inventory && inventory[name] > 0
    requires i < |items| && items[i].name == name
    requires items[i].quantity >= inventory[name]
    ensures Add(items, inventory, name, price) == AddResult(ExceedsStock, items)
  {
    var k := Find(items, name).value;
    assert k == i;
  }

  /** The only rejections are the two above: every other request is accepted. */
  lemma AddOutcomeCases(items: seq<LineItem>, inventory: Inventory, name: string, price: int)
    ensures var r := Add(items, inventory, name, price);
      && (r.outcome == OutOfStock <==> name in inventory && inventory[name] <= 0)
      && (r.outcome == ExceedsStock <==>
            name in inventory && inventory[name] > 0 && Find(items, name).Some?
            && items[Find(items, name).value].quantity >= inventory[name])
      && (r.outcome != Added ==> r.items == items)
  {
  }

  lemma AddIncrementsExisting(items: seq<LineItem>, inventory: Inventory, name: string, price: int, i: nat)
    requires UniqueNames(items)
    requires i < |items| && items[i].name == name
    requires Add(items, inventory, name, price).outcome == Added
    ensures var r := Add(items, inventory, name, price).items;
      && |r| == |items|
      && r[i].name == items[i].name && r[i].price == items[i].price
      && r[i].quantity == items[i].quantity + 1
      && forall j :: 0 <= j < |items| && j != i ==> r[j] == items[j]
  {
    var k := Find(items, name).value;
    assert k == i;
  }

  lemma AddAppendsNew(items: seq<LineItem>, inventory: Inventory, name: string, price: int)
    requires forall j :: 0 <= j < |items| ==> items[j].name != name
    requires !(name in inventory && inventory[name] <= 0)
    ensures var r := Add(items, inventory, name, price);
      && r.outcome == Added
      && |r.items| == |items| + 1
      && r.items[..|items|] == items
      && r.items[|items|] == LineItem(name, price, 1)
  {
  }

  /** A name missing from the inventory is never rejected: nothing bounds it. */
  lemma UnlistedNameIsUnbounded(items: seq<LineItem>, inventory: Inventory, name: string, price: int)
    requires name !in inventory
    ensures Add(items, inventory, name, price).outcome == Added
  {
  }

  lemma AddPreservesWellFormed(items: seq<LineItem>, inventory: Inventory, name: string, price: int)
    requires WellFormed(items)
    ensures WellFormed(Add(items, inventory, name, price).items)
  {
    var r := Add(items, inventory, name, price);
    if r.outcome == Added && Find(items, name).None? {
      assert r.items == items + [LineItem(name, price, 1)];
      forall i, j | 0 <= i < j < |r.items| ensures r.items[i].name != r.items[j].name {
        if j == |items| {
          assert r.items[i] == items[i];
        }
      }
    }
  }

  /** An accepted add never takes the line above the stock seen at that moment. */
  lemma AddWithinStock(items: seq<LineItem>, inventory: Inventory, name: string, price: int)
    requires WellFormed(items)
    requires name in inventory
    requires Add(items, inventory, name, price).outcome == Added
    ensures var r := Add(items, inventory, name, price).items;
      forall j :: 0 <= j < |r| && r[j].name == name ==> 1 <= r[j].quantity <= inventory[name]
  {
    var r := Add(items, inventory, name, price).items;
    match Find(items, name)
    case Some(i) =>
      assert r[i].quantity <= inventory[name];
    case None =>
      assert r == items + [LineItem(name, price, 1)];
  }

  // ---------------------------------------------------------------------------
  // Item-count badge and order totals

  /**
   * Σ quantity, folded from the left as `reduce` does. When every quantity is
   * at least 1, every line adds at least 1.
   */
  function ItemCount(items: seq<LineItem>): (r: int)
    ensures PositiveQuantities(items) ==> r >= |items|
  {
    if items == [] then 0 else ItemCount(items[..|items| - 1]) + items[|items| - 1].quantity
  }

  /** Σ price × quantity, folded from the left as `reduce` does. */
  function Subtotal(items: seq<LineItem>): (r: int)
    ensures (forall i :: 0 <= i < |items| ==> items[i].price >= 0 && items[i].quantity >= 0) ==> r >= 0
  {
    if items == [] then 0
    else Subtotal(items[..|items| - 1]) + items[|items| - 1].price * items[|items| - 1].quantity
  }

  const FreeShippingThreshold: int := 5000
  const ShippingFee: int := 600

  /** Shipping is free from 5000 yen on and 600 yen below. */
  function Shipping(subtotal: int): (r: int)
    ensures r == 0 <==> subtotal >= FreeShippingThreshold
    ensures r == ShippingFee <==> subtotal < FreeShippingThreshold
  {
    if subtotal >= FreeShippingThreshold then 0 else ShippingFee
  }

  /** Subtotal plus shipping, as the order summary computes it for a non-empty cart. */
  function Total(items: seq<LineItem>): (r: int)
    ensures r - Subtotal(items) == Shipping(Subtotal(items))
    ensures Subtotal(items) >= FreeShippingThreshold ==> r == Subtotal(items)
    ensures Subtotal(items) < FreeShippingThreshold ==> r == Subtotal(items) + ShippingFee
  {
    Subtotal(items) + Shipping(Subtotal(items))
  }

  /**
   * The grand total the order summary shows: 0 for an empty cart, which gets
   * no shipping line, and the subtotal plus shipping otherwise.
   */
  function SummaryTotal(items: seq<LineItem>): (r: int)
    ensures items == [] ==> r == 0
    ensures items != [] ==> r - Subtotal(items) == Shipping(Subtotal(items))
  {
    if |items| == 0 then 0 else Total(items)
  }

  lemma TotalExamples()
    ensures Subtotal([LineItem("A", 3000, 1)]) == 3000
    ensures Shipping(3000) == 600 && Total([LineItem("A", 3000, 1)]) == 3600
    ensures Subtotal([LineItem("A", 3000, 2)]) == 6000
    ensures Shipping(6000) == 0 && Total([LineItem("A", 3000, 2)]) == 6000
    ensures SummaryTotal([LineItem("A", 3000, 1)]) == 3600 && SummaryTotal([]) == 0
  {
  }

  /** Replacing one line changes Σ quantity by the difference of the two quantities. */
  lemma {:induction false} ItemCountUpdate(items: seq<LineItem>, i: nat, x: LineItem)
    requires i < |items|
    ensures ItemCount(items[i := x]) == ItemCount(items) - items[i].quantity + x.quantity
  {
    var n := |items|;
    if i < n - 1 {
      assert items[i := x][..n - 1] == items[..n - 1][i := x];
      ItemCountUpdate(items[..n - 1], i, x);
    } else {
      assert items[i := x][..n - 1] == items[..n - 1];
    }
  }

  /** Replacing one line changes Σ price × quantity by the difference of the two line amounts. */
  lemma {:induction false} SubtotalUpdate(items: seq<LineItem>, i: nat, x: LineItem)
    requires i < |items|
    ensures Subtotal(items[i := x]) ==
      Subtotal(items) - items[i].price * items[i].quantity + x.price * x.quantity
  {
    var n := |items|;
    if i < n - 1 {
      assert items[i := x][..n - 1] == items[..n - 1][i := x];
      SubtotalUpdate(items[..n - 1], i, x);
    } else {
      assert items[i := x][..n - 1] == items[..n - 1];
    }
  }

  /** Appending a line adds its quantity to Σ quantity and its amount to the subtotal. */
  lemma SumsAppend(items: seq<LineItem>, x: LineItem)
    ensures ItemCount(items + [x]) == ItemCount(items) + x.quantity
    ensures Subtotal(items + [x]) == Subtotal(items) + x.price * x.quantity
  {
    assert (items + [x])[..|items|] == items;
  }

  /** An accepted add raises the badge by exactly one; a rejected add leaves it. */
  lemma AddItemCount(items: seq<LineItem>, inventory: Inventory, name: string, price: int)
    ensures var r := Add(items, inventory, name, price);
      ItemCount(r.items) == ItemCount(items) + (if r.outcome == Added then 1 else 0)
  {
    var r := Add(items, inventory, name, price);
    if r.outcome == Added {
      match Find(items, name)
      case Some(i) =>
        ItemCountUpdate(items, i, items[i].(quantity := items[i].quantity + 1));
      case None =>
        SumsAppend(items, LineItem(name, price, 1));
    }
  }

  /**
   * An accepted add raises the subtotal by the unit price stored in the line:
   * for a name already in the cart that is the price of its first add, whatever
   * price the new request carries.
   */
  lemma AddSubtotal(items: seq<LineItem>, inventory: Inventory, name: string, price: int)
    requires Add(items, inventory, name, price).outcome == Added
    ensures var r := Add(items, inventory, name, price).items;
      && (Find(items, name).Some? ==>
            Subtotal(r) == Subtotal(items) + items[Find(items, name).value].price)
      && (Find(items, name).None? ==> Subtotal(r) == Subtotal(items) + price)
  {
    var r := Add(items, inventory, name, price).items;
    match Find(items, name)
    case Some(i) =>
      var x := items[i].(quantity := items[i].quantity + 1);
      assert r == items[i := x];
      SubtotalUpdate(items, i, x);
      LineAmountOneMore(items[i]);
    case None =>
      var x := LineItem(name, price, 1);
      assert r == items + [x];
      SumsAppend(items, x);
      assert x.price * x.quantity == price;
  }

  /** One more unit on a line adds its unit price to the line amount. */
  lemma LineAmountOneMore(x: LineItem)
    ensures x.price * (x.quantity + 1) == x.price * x.quantity + x.price
  {
  }

  /** The badge is shown (count above zero) exactly when the cart has a line. */
  lemma BadgeShownIffNonEmpty(items: seq<LineItem>)
    requires WellFormed(items)
    ensures ItemCount(items) > 0 <==> items != []
  {
  }

  // ---------------------------------------------------------------------------
  // Inventory refresh

  /**
   * The `Object.assign` merge: every supplied key takes its new value, every
   * other key keeps its old one, and no key is dropped.
   */
  function Merge(inventory: Inventory, update: Inventory): (r: Inventory)
    ensures r.Keys == inventory.Keys + update.Keys
    ensures forall k :: k in update ==> r[k] == update[k]
    ensures forall k :: k in inventory && k !in update ==> r[k] == inventory[k]
  {
    inventory + update
  }

  // ---------------------------------------------------------------------------
  // Checkout

  /** The order snapshot written at checkout; the timestamp is left out. */
  datatype OrderSnapshot = OrderSnapshot(items: seq<LineItem>, total: int)

  /**
   * Checkout returns early on an empty cart; otherwise the snapshot carries the
   * cart and, as its total, the subtotal without shipping.
   */
  function Checkout(items: seq<LineItem>): (r: Option<OrderSnapshot>)
    ensures r.None? <==> items == []
    ensures r.Some? ==> r.value.items == items && r.value.total == Subtotal(items)
  {
    if |items| == 0 then None else Some(OrderSnapshot(items, Subtotal(items)))
  }

  /**
   * The snapshot total and the total shown in the order summary differ by the
   * shipping fee: they agree exactly when shipping is free.
   */
  lemma SnapshotTotalExcludesShipping(items: seq<LineItem>)
    requires items != []
    ensures Checkout(items).value.total == Total(items) - Shipping(Subtotal(items))
    ensures Checkout(items).value.total == Total(items) <==> Subtotal(items) >= FreeShippingThreshold
  {
  }
}
