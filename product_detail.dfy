/** The product page (pages/ProductDetail.tsx): catalog lookup by the route
    id, the related products, the size picker, the quantity counter, and
    adding the chosen quantity to the cart. */
module ProductDetail {
  import opened Types
  import opened Seqs
  import Catalog
  import App

  /** At most this many related products are shown. */
  const MaxRelated := 4

  /** Same category, not the product itself. */
  predicate IsRelated(found: Product, p: Product) {
    p.category == found.category && p.id != found.id
  }

  /** `PRODUCTS.filter(same category, other id)`: every candidate, in
      catalog order. */
  function RelatedCandidates(catalog: seq<Product>, found: Product): seq<Product> {
    Filter((p: Product) => IsRelated(found, p), catalog)
  }

  /** `.slice(0, 4)` of the candidates: the first four of them, or all when
      there are fewer. */
  function Related(catalog: seq<Product>, found: Product): (r: seq<Product>)
    ensures |r| == if |RelatedCandidates(catalog, found)| < MaxRelated
      then |RelatedCandidates(catalog, found)| else MaxRelated
    ensures r == RelatedCandidates(catalog, found)[..|r|]
    ensures forall i :: 0 <= i < |r| ==> r[i] in catalog && IsRelated(found, r[i])
    ensures IsSubseq(r, catalog)
    ensures |RelatedCandidates(catalog, found)| <= MaxRelated ==>
      forall p :: p in catalog && IsRelated(found, p) ==> p in r
  {
    var all := RelatedCandidates(catalog, found);
    FilterIsSubseq((p: Product) => IsRelated(found, p), catalog);
    var n := if |all| < MaxRelated then |all| else MaxRelated;
    PrefixOfSubseq(all, catalog, n);
    assert n == |all| ==> all[..n] == all;
    assert forall i :: 0 <= i < n ==> all[..n][i] == all[i];
    all[..n]
  }

  /** The related products never contain the product shown. */
  lemma RelatedExcludesSelf(catalog: seq<Product>, found: Product)
    ensures found !in Related(catalog, found)
  {
  }

  /** The product page's state. */
  class DetailPage {
    const catalog: seq<Product>
    var product: Option<Product>
    var selectedSize: string
    var quantity: int
    var related: seq<Product>

    ghost predicate Valid()
      reads this
    {
      && (forall p :: p in catalog ==> |p.sizes| > 0)
      && quantity >= 1
      && (product.Some? ==> product.value in catalog && selectedSize in product.value.sizes)
    }

    constructor ()
      ensures Valid()
      ensures catalog == Catalog.Products
      ensures product == None && quantity == 1 && related == []
    {
      catalog := Catalog.Products;
      product := None;
      selectedSize := "";
      quantity := 1;
      related := [];
      Catalog.ProductSizesNonEmpty();
    }

    /** The effect run for the route id: a catalog product is shown with
        its first size selected and its related products; an unknown id
        sends the visitor to /shop and shows nothing new. */
    method Load(id: string) returns (redirectToShop: bool)
      requires Valid()
      modifies this
      ensures Valid()
      ensures redirectToShop <==> Catalog.FindProduct(catalog, id).None?
      ensures !redirectToShop ==> product == Catalog.FindProduct(catalog, id)
      ensures !redirectToShop ==> selectedSize == product.value.sizes[0]
      ensures !redirectToShop ==> related == Related(catalog, product.value)
      ensures redirectToShop ==>
        (product == old(product) && selectedSize == old(selectedSize) && related == old(related))
      ensures quantity == old(quantity)
    {
      var found := Catalog.FindProduct(catalog, id);
      if found.Some? {
        product := found;
        selectedSize := found.value.sizes[0];
        related := Related(catalog, found.value);
        redirectToShop := false;
      } else {
        redirectToShop := true;
      }
    }

    /** A size button: only the product's own sizes are offered. */
    method SelectSize(size: string)
      requires Valid() && product.Some? && size in product.value.sizes
      modifies this
      ensures Valid()
      ensures selectedSize == size
      ensures product == old(product) && quantity == old(quantity) && related == old(related)
    {
      selectedSize := size;
    }

    /** "-": never below one. */
    method Decrement()
      requires Valid()
      modifies this
      ensures Valid()
      ensures quantity == App.Max(1, old(quantity) - 1)
      ensures old(quantity) > 1 ==> quantity == old(quantity) - 1
      ensures old(quantity) == 1 ==> quantity == 1
      ensures product == old(product) && selectedSize == old(selectedSize) && related == old(related)
    {
      quantity := App.Max(1, quantity - 1);
    }

    /** "+". */
    method Increment()
      requires Valid()
      modifies this
      ensures Valid()
      ensures quantity == old(quantity) + 1
      ensures product == old(product) && selectedSize == old(selectedSize) && related == old(related)
    {
      quantity := quantity + 1;
    }

    /** "Přidat do košíku": the product goes to the cart with the counter's
        quantity; the selected size is not passed on. */
    method AddToCart(store: App.Store)
      requires Valid() && store.Valid() && product.Some?
      modifies store
      ensures store.Valid() && store.isCartOpen
      ensures store.cart == App.AddToCart(old(store.cart), product.value, quantity)
      ensures App.QuantityOf(store.cart, product.value.id) == App.QuantityOf(old(store.cart), product.value.id) + quantity
      ensures store.isDarkMode == old(store.isDarkMode)
    {
      App.AddToCartQuantity(store.cart, product.value, quantity, product.value.id);
      store.AddToCart(product.value, quantity);
    }
  }
}
