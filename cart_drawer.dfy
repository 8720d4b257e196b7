/** The cart drawer (components/Cart.tsx): its header count, its total, and
    the guards of the quantity and checkout buttons. Every change it makes
    goes through the ledger updaters of the application root. */
module CartDrawer {
  import opened Types
  import opened Seqs
  import App
  import Checkout
  import Navbar

  /** The header shows the number of lines, not of units. */
  function HeaderCount(cart: seq<CartItem>): (n: nat)
    ensures n == 0 <==> cart == []
  {
    |cart|
  }

  /** On a ledger the header counts the distinct products in the cart. */
  lemma HeaderCountsProducts(cart: seq<CartItem>)
    requires App.UniqueIds(cart)
    ensures HeaderCount(cart) == |set id | id in App.Ids(cart)|
  {
    DistinctCard(App.Ids(cart));
  }

  /** The header counts lines and the navbar badge counts units: with every
      line holding a unit the header never exceeds the badge, and the two
      agree exactly when every line holds one unit. */
  lemma {:induction false} HeaderVersusBadge(cart: seq<CartItem>)
    requires App.AllPositive(cart)
    ensures HeaderCount(cart) <= Navbar.TotalItems(cart)
    ensures HeaderCount(cart) == Navbar.TotalItems(cart) <==> forall i :: 0 <= i < |cart| ==> cart[i].quantity == 1
  {
    if cart != [] {
      var tail := cart[1..];
      HeaderVersusBadge(tail);
      assert Navbar.TotalItems(cart) == cart[0].quantity + Navbar.TotalItems(tail);
      assert (forall i :: 0 <= i < |cart| ==> cart[i].quantity == 1) <==>
        cart[0].quantity == 1 && forall i :: 0 <= i < |tail| ==> tail[i].quantity == 1;
    }
  }

  /** The minus button is disabled at one unit or fewer. */
  predicate MinusDisabled(item: CartItem) {
    item.quantity <= 1
  }

  /** The checkout button is disabled for an empty cart. */
  predicate CheckoutDisabled(cart: seq<CartItem>) {
    |cart| == 0
  }

  /** The drawer's `total` is the checkout subtotal; it is 0 exactly when the
      drawer offers no checkout, given positive prices and quantities. */
  lemma DrawerTotal(cart: seq<CartItem>)
    requires App.AllPositive(cart)
    requires forall i :: 0 <= i < |cart| ==> cart[i].product.price >= 1
    ensures Checkout.Subtotal(cart) == 0 <==> CheckoutDisabled(cart)
  {
    Checkout.SubtotalPositive(cart);
  }

  /** The buttons of a line: while minus is enabled it takes exactly one
      unit away, plus adds exactly one, and remove drops the line whatever
      its quantity; other lines never change. */
  lemma QuantityButtons(cart: seq<CartItem>, k: int, other: string)
    requires App.UniqueIds(cart) && App.AllPositive(cart) && 0 <= k < |cart|
    ensures !MinusDisabled(cart[k]) ==>
      App.QuantityOf(App.UpdateQuantity(cart, cart[k].Id(), -1), cart[k].Id()) == cart[k].quantity - 1
    ensures App.QuantityOf(App.UpdateQuantity(cart, cart[k].Id(), 1), cart[k].Id()) == cart[k].quantity + 1
    ensures cart[k].Id() !in App.Ids(App.RemoveFromCart(cart, cart[k].Id()))
    ensures other != cart[k].Id() ==>
      && App.QuantityOf(App.UpdateQuantity(cart, cart[k].Id(), -1), other) == App.QuantityOf(cart, other)
      && App.QuantityOf(App.UpdateQuantity(cart, cart[k].Id(), 1), other) == App.QuantityOf(cart, other)
    ensures App.AllPositive(App.UpdateQuantity(cart, cart[k].Id(), -1))
  {
    var id := cart[k].Id();
    assert App.Ids(cart)[k] == id;
    IndexOfDistinct(App.Ids(cart), k);
    App.UpdateQuantityEffect(cart, id, -1, other);
    App.UpdateQuantityEffect(cart, id, 1, other);
    assert App.QuantityOf(cart, id) == cart[k].quantity;
  }
}
