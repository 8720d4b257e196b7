/** The application root (App.tsx): the cart ledger with its five updaters,
    the cart drawer flag, and the colour theme with its stored mirror. */
module App {
  import opened Types
  import opened Seqs

  // ---------------------------------------------------------------------
  // The cart ledger
  // ---------------------------------------------------------------------

  /** The product ids of the cart lines, in order. */
  function Ids(cart: seq<CartItem>): (ids: seq<string>)
    ensures |ids| == |cart|
    ensures forall i :: 0 <= i < |cart| ==> ids[i] == cart[i].Id()
  {
    seq(|cart|, i requires 0 <= i < |cart| => cart[i].Id())
  }

  /** The ledger invariant: at most one line per product id. */
  predicate UniqueIds(cart: seq<CartItem>) {
    Distinct(Ids(cart))
  }

  /** Every line holds at least one unit. */
  predicate AllPositive(cart: seq<CartItem>) {
    forall i :: 0 <= i < |cart| ==> cart[i].quantity >= 1
  }

  /** The quantity on the (first) line for `id`, or 0 if there is none. */
  function QuantityOf(cart: seq<CartItem>, id: string): (q: int)
    ensures id !in Ids(cart) ==> q == 0
  {
    var k := IndexOf(Ids(cart), id);
    if k == -1 then 0 else cart[k].quantity
  }

  function Max(a: int, b: int): int { if a < b then b else a }

  /** `addToCart(product, quantity = 1)`: an existing line for the product
      grows by `quantity` (every line with its id, of which a ledger has at
      most one); otherwise a new line is appended. */
  function AddToCart(cart: seq<CartItem>, p: Product, quantity: int := 1): (r: seq<CartItem>)
    ensures |r| == if p.id in Ids(cart) then |cart| else |cart| + 1
    ensures forall i :: 0 <= i < |cart| ==> r[i].product == cart[i].product
    ensures forall i :: 0 <= i < |cart| && cart[i].Id() != p.id ==> r[i] == cart[i]
    ensures p.id !in Ids(cart) ==> r[|cart|] == CartItem(p, quantity)
  {
    if p.id in Ids(cart) then
      seq(|cart|, i requires 0 <= i < |cart| =>
        if cart[i].Id() == p.id then cart[i].(quantity := cart[i].quantity + quantity) else cart[i])
    else
      cart + [CartItem(p, quantity)]
  }

  /** Adding keeps the ids of the existing lines and may append the new one. */
  lemma AddToCartIds(cart: seq<CartItem>, p: Product, quantity: int)
    ensures Ids(AddToCart(cart, p, quantity)) == if p.id in Ids(cart) then Ids(cart) else Ids(cart) + [p.id]
  {
  }

  /** Adding preserves the ledger invariant. */
  lemma AddToCartKeepsUnique(cart: seq<CartItem>, p: Product, quantity: int)
    requires UniqueIds(cart)
    ensures UniqueIds(AddToCart(cart, p, quantity))
  {
    AddToCartIds(cart, p, quantity);
  }

  /** Adding raises the product's quantity by `quantity` (from 0 for a new
      line) and leaves every other product's quantity alone. */
  lemma AddToCartQuantity(cart: seq<CartItem>, p: Product, quantity: int, id: string)
    requires UniqueIds(cart)
    ensures QuantityOf(AddToCart(cart, p, quantity), id)
      == QuantityOf(cart, id) + (if id == p.id then quantity else 0)
  {
    var r := AddToCart(cart, p, quantity);
    AddToCartIds(cart, p, quantity);
    if p.id !in Ids(cart) {
      IndexOfAppend(Ids(cart), p.id, id);
    }
  }

  /** Adding with a positive quantity keeps every line positive. */
  lemma AddToCartKeepsPositive(cart: seq<CartItem>, p: Product, quantity: int)
    requires AllPositive(cart) && quantity >= 1
    ensures AllPositive(AddToCart(cart, p, quantity))
  {
  }

  /** `findIndex(item => item.id === id)`, as the source's loop computes it. */
  method FindIndex(cart: seq<CartItem>, id: string) returns (k: int)
    ensures k == IndexOf(Ids(cart), id)
  {
    k := 0;
    while k < |cart|
      invariant 0 <= k <= |cart|
      invariant id !in Ids(cart)[..k]
    {
      if cart[k].Id() == id {
        IndexOfUnique(Ids(cart), id, k);
        return;
      }
      assert Ids(cart)[..k + 1] == Ids(cart)[..k] + [cart[k].Id()];
      k := k + 1;
    }
    k := -1;
  }

  /** One iteration of `addAllToCart`'s loop: the first line with the
      product's id gains one unit, or a line of quantity 1 is appended. */
  function AddOne(cart: seq<CartItem>, p: Product): (r: seq<CartItem>)
    ensures Ids(r) == if p.id in Ids(cart) then Ids(cart) else Ids(cart) + [p.id]
  {
    var k := IndexOf(Ids(cart), p.id);
    if k > -1 then cart[k := cart[k].(quantity := cart[k].quantity + 1)]
    else cart + [CartItem(p, 1)]
  }

  /** The cart `addAllToCart(products)` computes: one `AddOne` per product,
      in order, duplicates included. */
  function AddAll(cart: seq<CartItem>, products: seq<Product>): seq<CartItem>
  {
    if products == [] then cart
    else AddOne(AddAll(cart, products[..|products| - 1]), products[|products| - 1])
  }

  /** The loop body of `addAllToCart` over a copy of the cart. */
  method AddAllUpdater(prev: seq<CartItem>, products: seq<Product>) returns (next: seq<CartItem>)
    ensures next == AddAll(prev, products)
  {
    next := prev;
    for i := 0 to |products|
      invariant next == AddAll(prev, products[..i])
    {
      assert products[..i + 1][..i] == products[..i];
      var k := FindIndex(next, products[i].id);
      if k > -1 {
        next := next[k := next[k].(quantity := next[k].quantity + 1)];
      } else {
        next := next + [CartItem(products[i], 1)];
      }
    }
    assert products[..|products|] == products;
  }

  /** Repeated `addToCart(p, 1)`, the reference behaviour of bulk add. */
  function AddEachOnce(cart: seq<CartItem>, products: seq<Product>): seq<CartItem>
  {
    if products == [] then cart
    else AddToCart(AddEachOnce(cart, products[..|products| - 1]), products[|products| - 1], 1)
  }

  /** On a ledger, one loop iteration is exactly `addToCart(p, 1)`. */
  lemma AddOneIsAddToCart(cart: seq<CartItem>, p: Product)
    requires UniqueIds(cart)
    ensures AddOne(cart, p) == AddToCart(cart, p, 1)
  {
    var k := IndexOf(Ids(cart), p.id);
    if k > -1 {
      var a, b := AddOne(cart, p), AddToCart(cart, p, 1);
      forall i | 0 <= i < |cart| ensures a[i] == b[i] {
        if i != k {
          assert Ids(cart)[i] != Ids(cart)[k];
        }
      }
    }
  }

  /** `addAllToCart(ps)` equals applying `addToCart(p, 1)` for each p in
      order, and keeps the ledger invariant. */
  lemma {:induction false} AddAllIsRepeatedAdd(cart: seq<CartItem>, products: seq<Product>)
    requires UniqueIds(cart)
    ensures AddAll(cart, products) == AddEachOnce(cart, products)
    ensures UniqueIds(AddAll(cart, products))
  {
    if products != [] {
      var init, last := products[..|products| - 1], products[|products| - 1];
      AddAllIsRepeatedAdd(cart, init);
      AddOneIsAddToCart(AddAll(cart, init), last);
      AddToCartKeepsUnique(AddAll(cart, init), last, 1);
    }
  }

  /** The ids of the products, in order. */
  function ProductIds(products: seq<Product>): (ids: seq<string>)
    ensures |ids| == |products|
    ensures forall i :: 0 <= i < |products| ==> ids[i] == products[i].id
  {
    seq(|products|, i requires 0 <= i < |products| => products[i].id)
  }

  /** One loop iteration adds a unit to the product's quantity (the first
      matching line is the one `QuantityOf` reads) and no other. */
  lemma AddOneQuantity(cart: seq<CartItem>, p: Product, id: string)
    ensures QuantityOf(AddOne(cart, p), id) == QuantityOf(cart, id) + (if id == p.id then 1 else 0)
  {
    if p.id !in Ids(cart) {
      IndexOfAppend(Ids(cart), p.id, id);
      assert Ids(AddOne(cart, p)) == Ids(cart) + [p.id];
    }
  }

  lemma ProductIdsSnoc(products: seq<Product>)
    requires products != []
    ensures ProductIds(products) == ProductIds(products[..|products| - 1]) + [products[|products| - 1].id]
  {
  }

  /** Bulk add raises each product's quantity by the number of times it
      occurs in the input: duplicates do count. */
  lemma {:induction false} AddAllQuantity(cart: seq<CartItem>, products: seq<Product>, id: string)
    ensures QuantityOf(AddAll(cart, products), id) == QuantityOf(cart, id) + Count(ProductIds(products), id)
  {
    if products != [] {
      var init, last := products[..|products| - 1], products[|products| - 1];
      AddAllQuantity(cart, init, id);
      AddOneQuantity(AddAll(cart, init), last, id);
      ProductIdsSnoc(products);
      CountAppend(ProductIds(init), last.id, id);
    }
  }

  /** Bulk add keeps every line positive: it only raises quantities and
      appends lines holding one unit. */
  lemma {:induction false} AddAllKeepsPositive(cart: seq<CartItem>, products: seq<Product>)
    requires AllPositive(cart)
    ensures AllPositive(AddAll(cart, products))
  {
    if products != [] {
      AddAllKeepsPositive(cart, products[..|products| - 1]);
    }
  }

  /** `[X, X, Y]` on an empty cart gives X with quantity 2 and Y with 1. */
  lemma AddAllDuplicatesExample(x: Product, y: Product)
    requires x.id != y.id
    ensures AddAll([], [x, x, y]) == [CartItem(x, 2), CartItem(y, 1)]
  {
    assert [x, x, y][..2] == [x, x] && [x, x][..1] == [x] && [x][..0] == [];
    assert AddAll([], [x]) == [CartItem(x, 1)];
    assert AddAll([], [x, x]) == [CartItem(x, 2)];
  }

  /** `updateQuantity(id, delta)`: the line for `id` becomes
      max(1, quantity + delta); nothing else changes. */
  function UpdateQuantity(cart: seq<CartItem>, id: string, delta: int): (r: seq<CartItem>)
    ensures |r| == |cart| && Ids(r) == Ids(cart)
    ensures forall i :: 0 <= i < |cart| ==> r[i].product == cart[i].product
    ensures forall i :: 0 <= i < |cart| && cart[i].Id() == id ==> r[i].quantity >= 1
    ensures forall i :: 0 <= i < |cart| && cart[i].Id() != id ==> r[i] == cart[i]
  {
    seq(|cart|, i requires 0 <= i < |cart| =>
      if cart[i].Id() == id then cart[i].(quantity := Max(1, cart[i].quantity + delta)) else cart[i])
  }

  /** The quantity for `id` becomes max(1, q + delta), other quantities stay,
      an unknown id changes nothing, and no line is ever removed. */
  lemma UpdateQuantityEffect(cart: seq<CartItem>, id: string, delta: int, other: string)
    ensures id in Ids(cart) ==> QuantityOf(UpdateQuantity(cart, id, delta), id) == Max(1, QuantityOf(cart, id) + delta)
    ensures other != id ==> QuantityOf(UpdateQuantity(cart, id, delta), other) == QuantityOf(cart, other)
    ensures id !in Ids(cart) ==> UpdateQuantity(cart, id, delta) == cart
    ensures AllPositive(cart) ==> AllPositive(UpdateQuantity(cart, id, delta))
    ensures UniqueIds(cart) ==> UniqueIds(UpdateQuantity(cart, id, delta))
  {
  }

  /** `removeFromCart(id)`: drops every line for `id`, keeping the order. */
  function RemoveFromCart(cart: seq<CartItem>, id: string): (r: seq<CartItem>)
    ensures id !in Ids(r)
    ensures forall i :: 0 <= i < |cart| && cart[i].Id() != id ==> cart[i] in r
    ensures forall i :: 0 <= i < |r| ==> r[i] in cart
  {
    Filter((item: CartItem) => item.Id() != id, cart)
  }

  /** The ids of a subsequence form a subsequence of the ids. */
  lemma {:induction false} IdsOfSubseq(a: seq<CartItem>, b: seq<CartItem>)
    requires IsSubseq(a, b)
    ensures IsSubseq(Ids(a), Ids(b))
    decreases |b|
  {
    if b != [] {
      assert Ids(b)[1..] == Ids(b[1..]);
      if a != [] && a[0] == b[0] && IsSubseq(a[1..], b[1..]) {
        IdsOfSubseq(a[1..], b[1..]);
        assert Ids(a)[1..] == Ids(a[1..]);
      } else {
        IdsOfSubseq(a, b[1..]);
      }
    }
  }

  /** Removing preserves the ledger invariant. */
  lemma RemoveFromCartKeepsUnique(cart: seq<CartItem>, id: string)
    requires UniqueIds(cart)
    ensures UniqueIds(RemoveFromCart(cart, id))
  {
    FilterIsSubseq((item: CartItem) => item.Id() != id, cart);
    IdsOfSubseq(RemoveFromCart(cart, id), cart);
    SubseqKeepsDistinct(Ids(RemoveFromCart(cart, id)), Ids(cart));
  }

  lemma {:induction false} RemoveFromCartLength(cart: seq<CartItem>, id: string)
    ensures |RemoveFromCart(cart, id)| == |cart| - Count(Ids(cart), id)
  {
    if cart != [] {
      assert Ids(cart[1..]) == Ids(cart)[1..];
      RemoveFromCartLength(cart[1..], id);
    }
  }

  /** Removal keeps every remaining line positive. */
  lemma RemoveFromCartKeepsPositive(cart: seq<CartItem>, id: string)
    requires AllPositive(cart)
    ensures AllPositive(RemoveFromCart(cart, id))
  {
    var r := RemoveFromCart(cart, id);
    forall i | 0 <= i < |r| ensures r[i].quantity >= 1 {
      var j :| 0 <= j < |cart| && cart[j] == r[i];
    }
  }

  /** Removal deletes exactly one line of a ledger holding `id`, keeps the
      others in order, and changes nothing for an unknown id. */
  lemma RemoveFromCartEffect(cart: seq<CartItem>, id: string)
    requires UniqueIds(cart)
    ensures IsSubseq(RemoveFromCart(cart, id), cart)
    ensures UniqueIds(RemoveFromCart(cart, id))
    ensures |RemoveFromCart(cart, id)| == if id in Ids(cart) then |cart| - 1 else |cart|
    ensures id !in Ids(cart) ==> RemoveFromCart(cart, id) == cart
  {
    FilterIsSubseq((item: CartItem) => item.Id() != id, cart);
    RemoveFromCartKeepsUnique(cart, id);
    RemoveFromCartLength(cart, id);
    DistinctCount(Ids(cart), id);
    if id !in Ids(cart) {
      FilterKeepsAll((item: CartItem) => item.Id() != id, cart);
    }
  }

  /** `clearCart()`. */
  function ClearCart(): (r: seq<CartItem>)
    ensures |r| == 0
  {
    []
  }

  // ---------------------------------------------------------------------
  // The colour theme
  // ---------------------------------------------------------------------

  /** The initial theme: a stored "dark" wins, any other non-empty stored
      value means light, and an absent or empty value defers to the system. */
  function InitialDarkMode(saved: Option<string>, systemPrefersDark: bool): bool {
    saved == Some("dark") || ((saved == None || saved == Some("")) && systemPrefersDark)
  }

  /** The value the effect writes to storage for a theme. */
  function StoredTheme(isDarkMode: bool): string {
    if isDarkMode then "dark" else "light"
  }

  /** The three cases of theme initialisation. */
  lemma InitialDarkModeCases(saved: Option<string>, systemPrefersDark: bool)
    ensures saved == Some("dark") ==> InitialDarkMode(saved, systemPrefersDark)
    ensures saved.Some? && saved.value != "" && saved.value != "dark" ==> !InitialDarkMode(saved, systemPrefersDark)
    ensures saved == None || saved == Some("") ==> InitialDarkMode(saved, systemPrefersDark) == systemPrefersDark
  {
  }

  /** Persisting a theme and initialising from it gives the theme back,
      whatever the system preference. */
  lemma ThemeRoundTrip(isDarkMode: bool, systemPrefersDark: bool)
    ensures InitialDarkMode(Some(StoredTheme(isDarkMode)), systemPrefersDark) == isDarkMode
  {
  }

  // ---------------------------------------------------------------------
  // The application state
  // ---------------------------------------------------------------------

  /** The state held by the root component, with the `theme` entry of
      local storage as a field. */
  class Store {
    var cart: seq<CartItem>
    var isCartOpen: bool
    var isDarkMode: bool
    var storedTheme: Option<string>

    ghost predicate Valid()
      reads this
    {
      UniqueIds(cart) && AllPositive(cart) && storedTheme == Some(StoredTheme(isDarkMode))
    }

    /** Mount: read the stored theme and system preference, start with an
        empty closed cart, and let the theme effect write storage. */
    constructor (saved: Option<string>, systemPrefersDark: bool)
      ensures Valid()
      ensures cart == [] && !isCartOpen
      ensures isDarkMode == InitialDarkMode(saved, systemPrefersDark)
    {
      cart := [];
      isCartOpen := false;
      isDarkMode := InitialDarkMode(saved, systemPrefersDark);
      storedTheme := Some(StoredTheme(InitialDarkMode(saved, systemPrefersDark)));
    }

    method ToggleTheme()
      requires Valid()
      modifies this
      ensures Valid()
      ensures isDarkMode == !old(isDarkMode)
      ensures cart == old(cart) && isCartOpen == old(isCartOpen)
    {
      isDarkMode := !isDarkMode;
      storedTheme := Some(StoredTheme(isDarkMode));
    }

    /** Both callers pass a positive amount: the shop card's default 1 and
        the product page's counter. */
    method AddToCart(p: Product, quantity: int := 1)
      requires Valid() && quantity >= 1
      modifies this
      ensures Valid()
      ensures cart == _default.AddToCart(old(cart), p, quantity)
      ensures isCartOpen
      ensures isDarkMode == old(isDarkMode)
    {
      AddToCartKeepsUnique(cart, p, quantity);
      AddToCartKeepsPositive(cart, p, quantity);
      cart := _default.AddToCart(cart, p, quantity);
      isCartOpen := true;
    }

    method AddAllToCart(products: seq<Product>)
      requires Valid()
      modifies this
      ensures Valid()
      ensures cart == AddAll(old(cart), products)
      ensures cart == AddEachOnce(old(cart), products)
      ensures isCartOpen
      ensures isDarkMode == old(isDarkMode)
    {
      AddAllIsRepeatedAdd(cart, products);
      AddAllKeepsPositive(cart, products);
      cart := AddAllUpdater(cart, products);
      isCartOpen := true;
    }

    method UpdateQuantity(id: string, delta: int)
      requires Valid()
      modifies this
      ensures Valid()
      ensures cart == _default.UpdateQuantity(old(cart), id, delta)
      ensures isCartOpen == old(isCartOpen) && isDarkMode == old(isDarkMode)
    {
      cart := _default.UpdateQuantity(cart, id, delta);
    }

    method RemoveFromCart(id: string)
      requires Valid()
      modifies this
      ensures Valid()
      ensures cart == _default.RemoveFromCart(old(cart), id)
      ensures isCartOpen == old(isCartOpen) && isDarkMode == old(isDarkMode)
    {
      RemoveFromCartEffect(cart, id);
      RemoveFromCartKeepsPositive(cart, id);
      cart := _default.RemoveFromCart(cart, id);
    }

    method ClearCart()
      requires Valid()
      modifies this
      ensures Valid()
      ensures cart == []
      ensures isCartOpen == old(isCartOpen) && isDarkMode == old(isDarkMode)
    {
      cart := _default.ClearCart();
    }

    /** The navbar's cart button. */
    method OpenCart()
      requires Valid()
      modifies this
      ensures Valid()
      ensures isCartOpen && cart == old(cart) && isDarkMode == old(isDarkMode)
    {
      isCartOpen := true;
    }

    method CloseCart()
      requires Valid()
      modifies this
      ensures Valid()
      ensures !isCartOpen && cart == old(cart) && isDarkMode == old(isDarkMode)
    {
      isCartOpen := false;
    }
  }
}
