/**
 * A page session as a sequence of events: add-to-cart clicks and inventory
 * refreshes, interleaved in any order, each applied whole. The lemmas say what
 * every such sequence keeps.
 */
module Sessions {
  import opened CartModel

  datatype Event = AddItem(name: string, price: int) | RefreshStock(update: Inventory)

  datatype Session = Session(cart: seq<LineItem>, inventory: Inventory)

  /** The page at load: an empty cart and the built-in stock table. */
  const Start: Session := Session([], InitialInventory)

  /** One event: an add touches only the cart, a refresh only the inventory. */
  function Step(s: Session, e: Event): (r: Session)
    ensures e.AddItem? ==> r.inventory == s.inventory
    ensures e.RefreshStock? ==> r.cart == s.cart
    ensures |r.cart| >= |s.cart|
  {
    match e
    case AddItem(name, price) => Session(Add(s.cart, s.inventory, name, price).items, s.inventory)
    case RefreshStock(update) => Session(s.cart, Merge(s.inventory, update))
  }

  /**
   * The events applied in order, the first one first. Lines are never removed
   * or reordered, and a line keeps the name and unit price it was added with.
   */
  function Replay(s: Session, events: seq<Event>): (r: Session)
    ensures |r.cart| >= |s.cart|
    ensures forall j :: 0 <= j < |s.cart| ==>
      r.cart[j].name == s.cart[j].name && r.cart[j].price == s.cart[j].price
    decreases |events|
  {
    if events == [] then s else Step(Replay(s, events[..|events| - 1]), events[|events| - 1])
  }

  /** Replaying one more event is one more step. */
  lemma ReplaySnoc(s: Session, events: seq<Event>, e: Event)
    ensures Replay(s, events + [e]) == Step(Replay(s, events), e)
  {
    assert (events + [e])[..|events|] == events;
  }

  /** Replaying two runs of events one after the other is replaying them joined. */
  lemma {:induction false} ReplayAppend(s: Session, first: seq<Event>, rest: seq<Event>)
    ensures Replay(s, first + rest) == Replay(Replay(s, first), rest)
    decreases |rest|
  {
    if rest == [] {
      assert first + rest == first;
    } else {
      var init, last := rest[..|rest| - 1], rest[|rest| - 1];
      assert rest == init + [last];
      assert first + rest == (first + init) + [last];
      ReplaySnoc(s, first + init, last);
      ReplaySnoc(Replay(s, first), init, last);
      ReplayAppend(s, first, init);
    }
  }

  /**
   * A line present at any point of a session stays at its index, with the name
   * and unit price it was added with, for the rest of the session.
   */
  lemma ReplayKeepsEarlierLines(s: Session, events: seq<Event>, k: nat)
    requires k <= |events|
    ensures var before := Replay(s, events[..k]).cart;
      var after := Replay(s, events).cart;
      && |after| >= |before|
      && forall j :: 0 <= j < |before| ==>
           after[j].name == before[j].name && after[j].price == before[j].price
  {
    assert events == events[..k] + events[k..];
    ReplayAppend(s, events[..k], events[k..]);
  }

  /** Every session keeps names unique and every quantity at least 1. */
  lemma {:induction false} ReplayPreservesWellFormed(s: Session, events: seq<Event>)
    requires WellFormed(s.cart)
    ensures WellFormed(Replay(s, events).cart)
  {
    if events != [] {
      var before := Replay(s, events[..|events| - 1]);
      ReplayPreservesWellFormed(s, events[..|events| - 1]);
      match events[|events| - 1]
      case AddItem(name, price) => AddPreservesWellFormed(before.cart, before.inventory, name, price);
      case RefreshStock(_) =>
    }
  }

  /**
   * In every session reached from a well-formed cart, an accepted add of a
   * listed name leaves that line within the stock table of that moment.
   */
  lemma SessionAddWithinStock(s: Session, events: seq<Event>, name: string, price: int)
    requires WellFormed(s.cart)
    requires var now := Replay(s, events);
      name in now.inventory && Add(now.cart, now.inventory, name, price).outcome == Added
    ensures var now := Replay(s, events);
      var after := Replay(s, events + [AddItem(name, price)]).cart;
      forall j :: 0 <= j < |after| && after[j].name == name ==>
        1 <= after[j].quantity <= now.inventory[name]
  {
    var now := Replay(s, events);
    ReplayPreservesWellFormed(s, events);
    assert (events + [AddItem(name, price)])[..|events|] == events;
    AddWithinStock(now.cart, now.inventory, name, price);
  }

  /** Nothing removes or decrements a line: the badge never goes down in a session. */
  lemma {:induction false} ReplayItemCountGrows(s: Session, events: seq<Event>)
    ensures ItemCount(Replay(s, events).cart) >= ItemCount(s.cart)
  {
    if events != [] {
      var before := Replay(s, events[..|events| - 1]);
      ReplayItemCountGrows(s, events[..|events| - 1]);
      match events[|events| - 1]
      case AddItem(name, price) => AddItemCount(before.cart, before.inventory, name, price);
      case RefreshStock(_) =>
    }
  }

  /** Every cart reachable from page load is well formed. */
  lemma ReachableCartsWellFormed(events: seq<Event>)
    ensures WellFormed(Replay(Start, events).cart)
  {
    ReplayPreservesWellFormed(Start, events);
  }

  /**
   * The stock bound holds at each add, not afterwards: three adds of "A" at a
   * stock of 3 are all accepted, and a refresh down to 1 leaves the cart as
   * it is, above the new stock.
   */
  lemma RefreshCanLeaveCartAboveStock()
    ensures var a := AddItem("A", 1000);
      var now := Replay(Session([], map["A" := 3]), [a, a, a, RefreshStock(map["A" := 1])]);
      && now.cart == [LineItem("A", 1000, 3)]
      && now.inventory == map["A" := 1]
      && WellFormed(now.cart)
      && now.cart[0].quantity > now.inventory["A"]
  {
    var a := AddItem("A", 1000);
    var inv := map["A" := 3];
    var s0 := Session([], inv);
    var events := [a, a, a, RefreshStock(map["A" := 1])];
    assert events[..3] == [a, a, a];
    assert [a, a, a][..2] == [a, a];
    assert [a, a][..1] == [a];
    assert [a][..0] == [];
    var c1 := [LineItem("A", 1000, 1)];
    var c2 := [LineItem("A", 1000, 2)];
    var c3 := [LineItem("A", 1000, 3)];
    assert Find([], "A") == None;
    assert Add([], inv, "A", 1000).items == c1;
    assert Replay(s0, [a]) == Session(c1, inv);
    assert Find(c1, "A") == Some(0);
    assert Add(c1, inv, "A", 1000).items == c2;
    assert Replay(s0, [a, a]) == Session(c2, inv);
    assert Find(c2, "A") == Some(0);
    assert Add(c2, inv, "A", 1000).items == c3;
    assert Replay(s0, [a, a, a]) == Session(c3, inv);
    assert Merge(inv, map["A" := 1]) == map["A" := 1];
  }
}
