/**
 * The page's mutable state: the global cart array and the inventory object,
 * as fields of one object whose methods update them in place, as the script's
 * add-to-cart handler and stock refresh do.
 */
module Storefront {
  import opened CartModel

  class Shop {
    var cart: seq<LineItem>
    var inventory: Inventory

    ghost predicate Valid()
      reads this
    {
      WellFormed(cart)
    }

    /** Page load: an empty cart and the built-in stock table. */
    constructor ()
      ensures Valid()
      ensures cart == [] && inventory == InitialInventory
    {
      cart := [];
      inventory := InitialInventory;
    }

    /**
     * The add-to-cart handler. A rejection returns its outcome and changes
     * nothing; an accepted add bumps the existing line in place or appends a
     * new one, and the badge goes up by one.
     */
    method AddToCart(name: string, price: int) returns (outcome: AddOutcome)
      requires Valid()
      modifies this
      ensures Valid()
      ensures inventory == old(inventory)
      ensures AddResult(outcome, cart) == Add(old(cart), old(inventory), name, price)
      ensures outcome != Added ==> cart == old(cart)
      ensures ItemCount(cart) == old(ItemCount(cart)) + (if outcome == Added then 1 else 0)
      ensures outcome == Added && name in inventory ==>
        forall j :: 0 <= j < |cart| && cart[j].name == name ==> cart[j].quantity <= inventory[name]
    {
      ghost var c0 := cart;
      if name in inventory && inventory[name] <= 0 {
        assert Add(c0, inventory, name, price) == AddResult(OutOfStock, c0);
        return OutOfStock;
      }
      var existing := Find(cart, name);
      if existing.Some? {
        var i := existing.value;
        if name in inventory && cart[i].quantity >= inventory[name] {
          assert Add(c0, inventory, name, price) == AddResult(ExceedsStock, c0);
          return ExceedsStock;
        }
        cart := cart[i := cart[i].(quantity := cart[i].quantity + 1)];
        assert Add(c0, inventory, name, price) == AddResult(Added, cart);
      } else {
        cart := cart + [LineItem(name, price, 1)];
        assert Add(c0, inventory, name, price) == AddResult(Added, cart);
      }
      AddPreservesWellFormed(c0, inventory, name, price);
      AddItemCount(c0, inventory, name, price);
      if name in inventory {
        AddWithinStock(c0, inventory, name, price);
      }
      outcome := Added;
    }

    /**
     * The stock refresh: the fetched counts are merged over the table. The
     * cart is left as it is, even where a line now exceeds its stock.
     */
    method Refresh(update: Inventory)
      requires Valid()
      modifies this
      ensures Valid()
      ensures cart == old(cart)
      ensures inventory == Merge(old(inventory), update)
    {
      inventory := inventory + update;
    }
  }
}
