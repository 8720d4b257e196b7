/** The outfit configurator (pages/Configurator.tsx): a four-slot outfit
    filled by hand or from a list of suggested product ids, its price and
    item list, and a five-step wizard whose last step buys the outfit. */
module Configurator {
  import opened Types
  import opened Seqs
  import opened Strings
  import Catalog
  import App

  // ---------------------------------------------------------------------
  // The outfit
  // ---------------------------------------------------------------------

  const EmptyOutfit := Outfit(None, None, None, None)

  /** `outfit[kind]`: the product in the slot of a clothing type; accessories
      have no slot. */
  function SlotOf(o: Outfit, k: ClothingType): Option<Product> {
    match k
    case Headwear => o.headwear
    case Top => o.top
    case Bottom => o.bottom
    case Shoes => o.shoes
    case Accessory => None
  }

  /** Every filled slot holds a product of that slot's type. */
  predicate WellTyped(o: Outfit) {
    forall k :: SlotOf(o, k).Some? ==> SlotOf(o, k).value.kind == k
  }

  /** `handleSelect`: the product overwrites the slot named by its type and
      every other slot stays. An accessory only adds a key no slot reads. */
  function Select(o: Outfit, p: Product): (r: Outfit)
    ensures p.kind != Accessory ==> SlotOf(r, p.kind) == Some(p)
    ensures forall k :: k != p.kind ==> SlotOf(r, k) == SlotOf(o, k)
    ensures p.kind == Accessory ==> r == o
  {
    match p.kind
    case Headwear => o.(headwear := Some(p))
    case Top => o.(top := Some(p))
    case Bottom => o.(bottom := Some(p))
    case Shoes => o.(shoes := Some(p))
    case Accessory => o
  }

  /** Selecting keeps the outfit well typed, and of two selections of the
      same type the later one wins. */
  lemma SelectProperties(o: Outfit, a: Product, b: Product)
    ensures WellTyped(o) ==> WellTyped(Select(o, a))
    ensures a.kind == b.kind ==> Select(Select(o, a), b) == Select(o, b)
  {
    if WellTyped(o) {
      forall k | SlotOf(Select(o, a), k).Some? ensures SlotOf(Select(o, a), k).value.kind == k {
        if k != a.kind {
          assert SlotOf(Select(o, a), k) == SlotOf(o, k);
        }
      }
    }
  }

  /** Every filled slot holds a product of `catalog`. */
  predicate FromCatalog(o: Outfit, catalog: seq<Product>) {
    forall k :: SlotOf(o, k).Some? ==> SlotOf(o, k).value in catalog
  }

  // ---------------------------------------------------------------------
  // Suggestions
  // ---------------------------------------------------------------------

  /** One iteration of the suggestion loop: a known id is selected, an
      unknown one is skipped. */
  function ResolveOne(catalog: seq<Product>, o: Outfit, id: string): Outfit {
    match Catalog.FindProduct(catalog, id)
    case Some(p) => Select(o, p)
    case None => o
  }

  /** The outfit after resolving the ids in order. */
  function Resolve(catalog: seq<Product>, o: Outfit, ids: seq<string>): Outfit {
    if ids == [] then o
    else ResolveOne(catalog, Resolve(catalog, o, ids[..|ids| - 1]), ids[|ids| - 1])
  }

  /** Some suggested id names a catalog product. */
  predicate AnyResolves(catalog: seq<Product>, ids: seq<string>) {
    exists i :: 0 <= i < |ids| && Catalog.FindProduct(catalog, ids[i]).Some?
  }

  /** The `forEach` over the suggested ids, updating a copy of the outfit
      and the `foundAny` flag. */
  method ResolveSuggestion(catalog: seq<Product>, o: Outfit, ids: seq<string>)
    returns (next: Outfit, foundAny: bool)
    ensures next == Resolve(catalog, o, ids)
    ensures foundAny <==> AnyResolves(catalog, ids)
  {
    next := o;
    foundAny := false;
    for i := 0 to |ids|
      invariant next == Resolve(catalog, o, ids[..i])
      invariant foundAny <==> AnyResolves(catalog, ids[..i])
    {
      assert ids[..i + 1][..i] == ids[..i];
      var product := Catalog.FindProduct(catalog, ids[i]);
      if product.Some? {
        next := Select(next, product.value);
        foundAny := true;
      }
      assert AnyResolves(catalog, ids[..i + 1]) <==>
        AnyResolves(catalog, ids[..i]) || Catalog.FindProduct(catalog, ids[i]).Some?;
    }
    assert ids[..|ids|] == ids;
  }

  /** The id names a catalog product of type `k`. */
  predicate ResolvesToKind(catalog: seq<Product>, id: string, k: ClothingType) {
    Catalog.FindProduct(catalog, id).Some? && Catalog.FindProduct(catalog, id).value.kind == k
  }

  /** The product the last resolving id of type `k` names, if any. */
  function LastOfKind(catalog: seq<Product>, ids: seq<string>, k: ClothingType): (r: Option<Product>)
    ensures r.Some? ==> r.value.kind == k && r.value in catalog
    ensures r.Some? ==> exists i :: (0 <= i < |ids| && Catalog.FindProduct(catalog, ids[i]) == r
      && forall j :: i < j < |ids| ==> !ResolvesToKind(catalog, ids[j], k))
    ensures r.None? <==> forall i :: 0 <= i < |ids| ==> !ResolvesToKind(catalog, ids[i], k)
  {
    if ids == [] then None
    else
      var init := ids[..|ids| - 1];
      assert forall i :: 0 <= i < |init| ==> init[i] == ids[i];
      if ResolvesToKind(catalog, ids[|ids| - 1], k) then Catalog.FindProduct(catalog, ids[|ids| - 1])
      else LastOfKind(catalog, init, k)
  }

  /** Each slot ends with the product of the last suggested id of its type;
      a slot no suggested id resolves to keeps its previous product. Unknown
      ids therefore change nothing. */
  lemma {:induction false} ResolveSlots(catalog: seq<Product>, o: Outfit, ids: seq<string>, k: ClothingType)
    requires k != Accessory
    ensures SlotOf(Resolve(catalog, o, ids), k) ==
      if LastOfKind(catalog, ids, k).Some? then LastOfKind(catalog, ids, k) else SlotOf(o, k)
  {
    if ids != [] {
      ResolveSlots(catalog, o, ids[..|ids| - 1], k);
    }
  }

  /** Resolving keeps a well-typed outfit well typed and inside the catalog. */
  lemma {:induction false} ResolveKeepsInvariant(catalog: seq<Product>, o: Outfit, ids: seq<string>)
    requires WellTyped(o) && FromCatalog(o, catalog)
    ensures WellTyped(Resolve(catalog, o, ids)) && FromCatalog(Resolve(catalog, o, ids), catalog)
  {
    if ids != [] {
      var prev := Resolve(catalog, o, ids[..|ids| - 1]);
      ResolveKeepsInvariant(catalog, o, ids[..|ids| - 1]);
      var found := Catalog.FindProduct(catalog, ids[|ids| - 1]);
      if found.Some? {
        SelectProperties(prev, found.value, found.value);
        forall k | SlotOf(Select(prev, found.value), k).Some?
          ensures SlotOf(Select(prev, found.value), k).value in catalog
        {
          if k != found.value.kind {
            assert SlotOf(Select(prev, found.value), k) == SlotOf(prev, k);
          }
        }
      }
    }
  }

  /** `handleAISuggestion` as one step: a blank prompt, or a suggestion
      where no id resolves, leaves the outfit as it was. */
  function SuggestionOutcome(catalog: seq<Product>, o: Outfit, prompt: string, ids: seq<string>): Outfit {
    if IsBlank(prompt) || !AnyResolves(catalog, ids) then o else Resolve(catalog, o, ids)
  }

  /** When no id resolves, resolving is the identity anyway, so the
      `foundAny` guard only skips a redundant state update. */
  lemma {:induction false} NothingResolvedChangesNothing(catalog: seq<Product>, o: Outfit, ids: seq<string>)
    requires !AnyResolves(catalog, ids)
    ensures Resolve(catalog, o, ids) == o
  {
    if ids != [] {
      var init := ids[..|ids| - 1];
      assert forall i :: 0 <= i < |init| ==> init[i] == ids[i];
      assert !AnyResolves(catalog, init);
      NothingResolvedChangesNothing(catalog, o, init);
    }
  }

  // ---------------------------------------------------------------------
  // Price and item list
  // ---------------------------------------------------------------------

  function PriceOf(slot: Option<Product>): int {
    match slot
    case Some(p) => p.price
    case None => 0
  }

  /** `totalPrice`. */
  function TotalPrice(o: Outfit): int {
    PriceOf(o.headwear) + PriceOf(o.top) + PriceOf(o.bottom) + PriceOf(o.shoes)
  }

  /** One slot as a list: its product, or nothing when empty. */
  function Opt(slot: Option<Product>): (r: seq<Product>)
    ensures |r| <= 1
    ensures forall p :: p in r <==> slot == Some(p)
  {
    if slot.Some? then [slot.value] else []
  }

  /** `currentOutfitList`: `filter(Boolean)` over the four slots, so the
      filled slots in headwear, top, bottom, shoes order. */
  function OutfitList(o: Outfit): (r: seq<Product>)
    ensures |r| <= 4
    ensures forall p :: p in r <==> exists k :: SlotOf(o, k) == Some(p)
  {
    assert SlotOf(o, Headwear) == o.headwear && SlotOf(o, Top) == o.top;
    assert SlotOf(o, Bottom) == o.bottom && SlotOf(o, Shoes) == o.shoes;
    Opt(o.headwear) + Opt(o.top) + Opt(o.bottom) + Opt(o.shoes)
  }

  function FilledCount(o: Outfit): nat {
    (if o.headwear.Some? then 1 else 0) + (if o.top.Some? then 1 else 0)
    + (if o.bottom.Some? then 1 else 0) + (if o.shoes.Some? then 1 else 0)
  }

  function SumPrices(ps: seq<Product>): int {
    if ps == [] then 0 else ps[0].price + SumPrices(ps[1..])
  }

  lemma {:induction false} SumPricesAppend(a: seq<Product>, b: seq<Product>)
    ensures SumPrices(a + b) == SumPrices(a) + SumPrices(b)
  {
    if a != [] {
      assert (a + b)[0] == a[0] && (a + b)[1..] == a[1..] + b;
      SumPricesAppend(a[1..], b);
    } else {
      assert a + b == b;
    }
  }

  /** The item list has one entry per filled slot, its prices add up to the
      total price, and the empty outfit has neither items nor price. */
  lemma OutfitListMatchesSlots(o: Outfit)
    ensures |OutfitList(o)| == FilledCount(o)
    ensures SumPrices(OutfitList(o)) == TotalPrice(o)
    ensures OutfitList(EmptyOutfit) == [] && TotalPrice(EmptyOutfit) == 0
    ensures OutfitList(o) == [] <==> o == EmptyOutfit
  {
    var a, b, c, d := Opt(o.headwear), Opt(o.top), Opt(o.bottom), Opt(o.shoes);
    SumPricesAppend(a, b);
    SumPricesAppend(a + b, c);
    SumPricesAppend(a + b + c, d);
    assert SumPrices(a) == PriceOf(o.headwear) && SumPrices(b) == PriceOf(o.top);
    assert SumPrices(c) == PriceOf(o.bottom) && SumPrices(d) == PriceOf(o.shoes);
  }

  /** A well-typed outfit lists each product once: the slots hold products
      of four different types. */
  lemma OutfitListDistinct(o: Outfit)
    requires WellTyped(o)
    ensures Distinct(OutfitList(o))
  {
    assert SlotOf(o, Headwear) == o.headwear && SlotOf(o, Top) == o.top;
    assert SlotOf(o, Bottom) == o.bottom && SlotOf(o, Shoes) == o.shoes;
    KindedListDistinct(Opt(o.headwear), Opt(o.top), Opt(o.bottom), Opt(o.shoes));
  }

  /** Four lists of at most one product each, of four different types, join
      without repetition. */
  lemma KindedListDistinct(a: seq<Product>, b: seq<Product>, c: seq<Product>, d: seq<Product>)
    requires |a| <= 1 && |b| <= 1 && |c| <= 1 && |d| <= 1
    requires forall p :: p in a ==> p.kind == Headwear
    requires forall p :: p in b ==> p.kind == Top
    requires forall p :: p in c ==> p.kind == Bottom
    requires forall p :: p in d ==> p.kind == Shoes
    ensures Distinct(a + b + c + d)
  {
    DistinctAppend(c, d);
    DistinctAppend(b, c + d);
    DistinctAppend(a, b + (c + d));
    assert a + b + c + d == a + (b + (c + d));
  }

  /** A slot's position in the outfit list: headwear, top, bottom, shoes. */
  function SlotIndex(k: ClothingType): (n: nat)
    ensures k != Accessory ==> n < 4
  {
    match k
    case Headwear => 0
    case Top => 1
    case Bottom => 2
    case Shoes => 3
    case Accessory => 4
  }

  /** The item list of a well-typed outfit runs headwear, top, bottom, shoes,
      which is also the order in which buying it appends new cart lines. */
  lemma OutfitListOrder(o: Outfit)
    requires WellTyped(o)
    ensures forall i, j :: 0 <= i < j < |OutfitList(o)| ==>
      SlotIndex(OutfitList(o)[i].kind) < SlotIndex(OutfitList(o)[j].kind)
  {
    assert SlotOf(o, Headwear) == o.headwear && SlotOf(o, Top) == o.top;
    assert SlotOf(o, Bottom) == o.bottom && SlotOf(o, Shoes) == o.shoes;
    KindedListOrdered(Opt(o.headwear), Opt(o.top), Opt(o.bottom), Opt(o.shoes));
  }

  /** Four lists of at most one product each, of the four slot types in
      order, join in slot order. */
  lemma KindedListOrdered(a: seq<Product>, b: seq<Product>, c: seq<Product>, d: seq<Product>)
    requires |a| <= 1 && |b| <= 1 && |c| <= 1 && |d| <= 1
    requires forall p :: p in a ==> p.kind == Headwear
    requires forall p :: p in b ==> p.kind == Top
    requires forall p :: p in c ==> p.kind == Bottom
    requires forall p :: p in d ==> p.kind == Shoes
    ensures forall i, j :: 0 <= i < j < |a + b + c + d| ==>
      SlotIndex((a + b + c + d)[i].kind) < SlotIndex((a + b + c + d)[j].kind)
  {
    var r := a + b + c + d;
    var x, y, z := |a|, |a| + |b|, |a| + |b| + |c|;
    forall i | 0 <= i < |r|
      ensures i < x ==> SlotIndex(r[i].kind) == 0
      ensures x <= i < y ==> SlotIndex(r[i].kind) == 1
      ensures y <= i < z ==> SlotIndex(r[i].kind) == 2
      ensures z <= i ==> SlotIndex(r[i].kind) == 3
    {
      if i < x {
        assert r[i] == a[i] && a[i] in a;
      } else if i < y {
        assert r[i] == b[i - x] && b[i - x] in b;
      } else if i < z {
        assert r[i] == c[i - y] && c[i - y] in c;
      } else {
        assert r[i] == d[i - z] && d[i - z] in d;
      }
    }
  }

  /** A well-typed outfit drawn from a catalog with unique ids has distinct
      ids, so buying it touches distinct cart lines. */
  lemma OutfitListDistinctIds(o: Outfit, catalog: seq<Product>)
    requires WellTyped(o) && FromCatalog(o, catalog) && Catalog.UniqueIds(catalog)
    ensures Distinct(App.ProductIds(OutfitList(o)))
  {
    var r := OutfitList(o);
    var ids := App.ProductIds(r);
    OutfitListDistinct(o);
    forall i, j | 0 <= i < j < |ids| ensures ids[i] != ids[j] {
      assert r[i] in r && r[j] in r;
      if ids[i] == ids[j] {
        SameIdSameProduct(catalog, r[i], r[j]);
      }
    }
  }

  lemma SameIdSameProduct(catalog: seq<Product>, a: Product, b: Product)
    requires Catalog.UniqueIds(catalog) && a in catalog && b in catalog && a.id == b.id
    ensures a == b
  {
    Catalog.FindProductUnique(catalog, a);
    Catalog.FindProductUnique(catalog, b);
  }

  // ---------------------------------------------------------------------
  // Wizard steps
  // ---------------------------------------------------------------------

  /** `STEPS`: four slot steps and the summary at index 4. */
  const SummaryStep := 4

  /** The clothing type a slot step shows. */
  function StepKind(step: int): (k: ClothingType)
    requires 0 <= step < SummaryStep
    ensures k != Accessory
  {
    if step == 0 then Headwear else if step == 1 then Top else if step == 2 then Bottom else Shoes
  }

  /** `activeProducts`: the catalog products of the step's type, none at the
      summary. */
  function ActiveProducts(catalog: seq<Product>, step: int): (r: seq<Product>)
    requires 0 <= step <= SummaryStep
    ensures step == SummaryStep ==> r == []
    ensures step < SummaryStep ==> IsSubseq(r, catalog)
    ensures step < SummaryStep ==> forall p :: p in r <==> p in catalog && p.kind == StepKind(step)
  {
    if step == SummaryStep then []
    else
      var keep := (p: Product) => p.kind == StepKind(step);
      FilterIsSubseq(keep, catalog);
      Filter(keep, catalog)
  }

  /** Every slot step of the real catalog offers at least one product. */
  lemma SlotStepsOfferProducts(step: int)
    requires 0 <= step < SummaryStep
    ensures ActiveProducts(Catalog.Products, step) != []
  {
    Catalog.ProductsPerSlot();
    var k := StepKind(step);
    assert Catalog.CountOfKind(Catalog.Products, k) > 0;
    var i :| 0 <= i < |Catalog.Products| && Catalog.Products[i].kind == k;
    assert Catalog.Products[i] in ActiveProducts(Catalog.Products, step);
  }

  /** The configurator page's state; `catalog` is the product list it reads. */
  class Wizard {
    const catalog: seq<Product>
    var outfit: Outfit
    var step: int

    ghost predicate Valid()
      reads this
    {
      && 0 <= step <= SummaryStep
      && WellTyped(outfit) && FromCatalog(outfit, catalog)
      && Catalog.UniqueIds(catalog)
    }

    constructor ()
      ensures Valid()
      ensures catalog == Catalog.Products
      ensures outfit == EmptyOutfit && step == 0
    {
      catalog := Catalog.Products;
      outfit := EmptyOutfit;
      step := 0;
      Catalog.ProductIdsUnique();
    }

    /** A product card was clicked; the cards shown are the active products. */
    method Choose(p: Product)
      requires Valid() && p in ActiveProducts(catalog, step)
      modifies this
      ensures Valid()
      ensures outfit == Select(old(outfit), p) && step == old(step)
      ensures SlotOf(outfit, StepKind(step)) == Some(p)
    {
      SelectProperties(outfit, p, p);
      forall k | SlotOf(Select(outfit, p), k).Some?
        ensures SlotOf(Select(outfit, p), k).value in catalog
      {
        if k != p.kind {
          assert SlotOf(Select(outfit, p), k) == SlotOf(outfit, k);
        }
      }
      outfit := Select(outfit, p);
    }

    /** The suggestion button, given the prompt and the ids the suggestion
        service returned (empty on any failure of that service); the input
        is not shown at the summary. */
    method Suggest(prompt: string, suggestedIds: seq<string>)
      requires Valid() && step < SummaryStep
      modifies this
      ensures Valid()
      ensures outfit == SuggestionOutcome(catalog, old(outfit), prompt, suggestedIds)
      ensures step == old(step)
    {
      if IsBlank(prompt) {
        return;
      }
      var newOutfit, foundAny := ResolveSuggestion(catalog, outfit, suggestedIds);
      ResolveKeepsInvariant(catalog, outfit, suggestedIds);
      if foundAny {
        outfit := newOutfit;
      }
    }

    /** "Zpět", shown only past the first step. */
    method Back()
      requires Valid() && step > 0
      modifies this
      ensures Valid()
      ensures step == old(step) - 1 && outfit == old(outfit)
    {
      step := step - 1;
    }

    /** "Další Krok", shown on every step but the summary. */
    method Next()
      requires Valid() && step < SummaryStep
      modifies this
      ensures Valid()
      ensures step == old(step) + 1 && outfit == old(outfit)
    {
      step := step + 1;
    }

    /** "Koupit Vše" on the summary, enabled only for a non-empty outfit. */
    method Commit(store: App.Store)
      requires Valid() && store.Valid()
      requires step == SummaryStep && OutfitList(outfit) != []
      modifies store
      ensures store.Valid() && store.isCartOpen
      ensures store.cart == App.AddAll(old(store.cart), OutfitList(outfit))
      ensures store.isDarkMode == old(store.isDarkMode)
    {
      store.AddAllToCart(OutfitList(outfit));
    }
  }

  /** Buying an outfit adds exactly one to each of its products' cart lines
      (creating the line when missing) and leaves every other line alone. */
  lemma CommitAddsOneEach(catalog: seq<Product>, cart: seq<CartItem>, o: Outfit, id: string)
    requires WellTyped(o) && FromCatalog(o, catalog) && Catalog.UniqueIds(catalog)
    ensures App.QuantityOf(App.AddAll(cart, OutfitList(o)), id) ==
      App.QuantityOf(cart, id) + (if id in App.ProductIds(OutfitList(o)) then 1 else 0)
  {
    OutfitListDistinctIds(o, catalog);
    App.AddAllQuantity(cart, OutfitList(o), id);
    DistinctCount(App.ProductIds(OutfitList(o)), id);
  }
}
