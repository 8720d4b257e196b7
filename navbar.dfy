/** The navigation bar (components/Navbar.tsx): the cart badge and the
    active-link test. */
module Navbar {
  import opened Types
  import opened Seqs
  import opened Strings
  import App

  function Quantity(item: CartItem): int { item.quantity }

  /** `totalItems`: the summed quantity of the cart lines. */
  function TotalItems(cart: seq<CartItem>): int {
    Sum(cart, Quantity)
  }

  /** The badge is drawn when the summed quantity is positive. */
  predicate BadgeShown(cart: seq<CartItem>) {
    TotalItems(cart) > 0
  }

  /** With every line holding a unit, the badge counts at least the lines,
      and it shows exactly when the cart is non-empty. */
  lemma {:induction false} TotalItemsBounds(cart: seq<CartItem>)
    requires App.AllPositive(cart)
    ensures TotalItems(cart) >= |cart|
    ensures BadgeShown(cart) <==> cart != []
  {
    if cart != [] {
      TotalItemsBounds(cart[1..]);
    }
  }

  /** Adding `quantity` of a product raises the badge by `quantity`. */
  lemma TotalItemsAfterAdd(cart: seq<CartItem>, p: Product, quantity: int)
    requires App.UniqueIds(cart)
    ensures TotalItems(App.AddToCart(cart, p, quantity)) == TotalItems(cart) + quantity
  {
    var r := App.AddToCart(cart, p, quantity);
    if p.id in App.Ids(cart) {
      var k := IndexOf(App.Ids(cart), p.id);
      forall i | 0 <= i < |cart| && i != k ensures cart[i] == r[i] {
        assert App.Ids(cart)[i] != App.Ids(cart)[k];
      }
      SumUpdate(cart, r, k, Quantity);
    } else {
      SumAppend(cart, [CartItem(p, quantity)], Quantity);
      assert r == cart + [CartItem(p, quantity)];
    }
  }

  /** The badge and the drawer header count differ: two units of one
      product show 2 on the badge and 1 line in the drawer. */
  lemma BadgeCountsUnits(p: Product)
    ensures TotalItems([CartItem(p, 2)]) == 2 && |[CartItem(p, 2)]| == 1
  {
    var cart := [CartItem(p, 2)];
    assert cart[1..] == [];
    assert Sum(cart, Quantity) == Quantity(cart[0]) + Sum(cart[1..], Quantity);
  }

  /** `isActive(path)` at location `pathname`: the home link only on "/",
      any other link when the pathname equals the link without its query. */
  predicate IsActive(pathname: string, path: string) {
    if path == "/" && pathname != "/" then false
    else pathname == PrefixBefore(path, '?')
  }

  /** The home link is active exactly on "/"; a link without a query is
      active exactly on its own path; a query never matters. */
  lemma IsActiveMeaning(pathname: string, base: string, query: string)
    requires '?' !in base
    ensures IsActive(pathname, "/") <==> pathname == "/"
    ensures base != "/" ==> (IsActive(pathname, base) <==> pathname == base)
    ensures base != "/" ==> (IsActive(pathname, base + "?" + query) <==> IsActive(pathname, base))
  {
    PrefixBeforeSplit(base, '?', query);
  }

  /** The menu's link targets. */
  const NavLinks: seq<string> := ["/", "/shop", "/shop?category=Muži", "/shop?category=Ženy",
    "/shop?category=Doplňky", "/configurator"]

  /** On /shop exactly the catalog link and the three category links light
      up; the home and configurator links do not. */
  lemma ShopLinksActiveTogether(i: int)
    requires 0 <= i < |NavLinks|
    ensures IsActive("/shop", NavLinks[i]) <==> 1 <= i <= 4
  {
    if i == 1 {
      NoQueryLink("/shop");
    } else if i == 2 {
      MenLink();
    } else if i == 3 {
      WomenLink();
    } else if i == 4 {
      AccessoriesLink();
    } else if i == 5 {
      NoQueryLink("/configurator");
    }
  }

  lemma MenLink()
    ensures IsActive("/shop", "/shop?category=Muži")
  {
    CategoryLinkActive("Muži");
    assert "/shop?category=" + "Muži" == "/shop?category=Muži";
  }

  lemma WomenLink()
    ensures IsActive("/shop", "/shop?category=Ženy")
  {
    CategoryLinkActive("Ženy");
    assert "/shop?category=" + "Ženy" == "/shop?category=Ženy";
  }

  lemma AccessoriesLink()
    ensures IsActive("/shop", "/shop?category=Doplňky")
  {
    CategoryLinkActive("Doplňky");
    assert "/shop?category=" + "Doplňky" == "/shop?category=Doplňky";
  }

  lemma NoQueryLink(path: string)
    requires '?' !in path
    ensures PrefixBefore(path, '?') == path
  {
  }

  lemma CategoryLinkActive(name: string)
    ensures IsActive("/shop", "/shop?category=" + name)
  {
    assert "/shop?category=" + name == "/shop" + "?" + ("category=" + name);
    PrefixBeforeSplit("/shop", '?', "category=" + name);
  }
}
