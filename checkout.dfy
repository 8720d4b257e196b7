/** The checkout page (pages/Checkout.tsx): the order totals with the
    free-shipping threshold, and the form/success step machine that clears
    the cart on submit. */
module Checkout {
  import opened Types
  import opened Seqs
  import App

  /** What one cart line costs. */
  function LineTotal(item: CartItem): int {
    item.product.price * item.quantity
  }

  /** `subtotal`: the sum of price times quantity over the cart lines (the
      drawer's `total` uses the same formula). */
  function Subtotal(cart: seq<CartItem>): int {
    Sum(cart, LineTotal)
  }

  /** Orders strictly above this subtotal ship for free. */
  const FreeShippingAbove := 5000
  const ShippingFee := 129

  /** `shipping`. */
  function Shipping(subtotal: int): (s: int)
    ensures s == 0 <==> subtotal > FreeShippingAbove
    ensures s == 0 || s == ShippingFee
  {
    if subtotal > FreeShippingAbove then 0 else ShippingFee
  }

  /** `total`: never below the subtotal and at most the fee above it. */
  function Total(subtotal: int): (t: int)
    ensures t == subtotal || t == subtotal + ShippingFee
    ensures t == subtotal <==> subtotal > FreeShippingAbove
  {
    subtotal + Shipping(subtotal)
  }

  /** The threshold is strict, so the total is not monotone in the subtotal:
      5000 pays 5129 while 5001 pays 5001. */
  lemma ShippingThreshold()
    ensures Shipping(5000) == 129 && Total(5000) == 5129
    ensures Shipping(5001) == 0 && Total(5001) == 5001
    ensures Total(5001) < Total(5000)
  {
  }

  /** The empty cart costs nothing (and would pay shipping). */
  lemma EmptyCartTotals()
    ensures Subtotal([]) == 0 && Total(Subtotal([])) == ShippingFee
  {
  }

  /** With prices and quantities positive the subtotal is at least the
      number of lines. */
  lemma {:induction false} SubtotalPositive(cart: seq<CartItem>)
    requires App.AllPositive(cart)
    requires forall i :: 0 <= i < |cart| ==> cart[i].product.price >= 1
    ensures Subtotal(cart) >= |cart|
  {
    if cart != [] {
      SubtotalPositive(cart[1..]);
      assert LineTotal(cart[0]) >= 1 by {
        var item := cart[0];
        assert item.product.price * item.quantity >= 1 * item.quantity;
      }
    }
  }

  /** Adding `quantity` of a product whose line (if any) carries the same
      price raises the subtotal by price times quantity. */
  lemma SubtotalAfterAdd(cart: seq<CartItem>, p: Product, quantity: int)
    requires App.UniqueIds(cart)
    requires forall i :: 0 <= i < |cart| && cart[i].Id() == p.id ==> cart[i].product.price == p.price
    ensures Subtotal(App.AddToCart(cart, p, quantity)) == Subtotal(cart) + p.price * quantity
  {
    var r := App.AddToCart(cart, p, quantity);
    if p.id in App.Ids(cart) {
      var k := IndexOf(App.Ids(cart), p.id);
      forall i | 0 <= i < |cart| && i != k ensures cart[i] == r[i] {
        assert App.Ids(cart)[i] != App.Ids(cart)[k];
      }
      SumUpdate(cart, r, k, LineTotal);
      assert r[k].quantity == cart[k].quantity + quantity;
      assert LineTotal(r[k]) == LineTotal(cart[k]) + p.price * quantity by {
        assert r[k].product.price == p.price;
        assert p.price * (cart[k].quantity + quantity) == p.price * cart[k].quantity + p.price * quantity;
      }
    } else {
      SumAppend(cart, [CartItem(p, quantity)], LineTotal);
      assert r == cart + [CartItem(p, quantity)];
    }
  }

  /** The page's two steps. */
  datatype Step = Form | Success

  /** The effect's condition for sending the visitor home. */
  predicate ShouldRedirectHome(cart: seq<CartItem>, step: Step) {
    |cart| == 0 && step == Form
  }

  /** The checkout page's state. */
  class CheckoutPage {
    var step: Step

    constructor ()
      ensures step == Form
    {
      step := Form;
    }

    /** The form's submit, with the simulated delay collapsed: the page
        moves to success and the cart is emptied, which then does not send
        the visitor home. */
    method Submit(store: App.Store)
      requires step == Form && store.Valid()
      modifies this, store
      ensures step == Success
      ensures store.Valid() && store.cart == []
      ensures store.isDarkMode == old(store.isDarkMode) && store.isCartOpen == old(store.isCartOpen)
      ensures !ShouldRedirectHome(store.cart, step)
    {
      step := Success;
      store.ClearCart();
    }
  }

  /** An empty cart redirects only in the form step: after a successful
      order the empty cart stays on the page. */
  lemma RedirectOnlyFromForm(cart: seq<CartItem>, step: Step)
    ensures ShouldRedirectHome([], Form) && !ShouldRedirectHome([], Success)
    ensures cart != [] ==> !ShouldRedirectHome(cart, step)
  {
  }
}
