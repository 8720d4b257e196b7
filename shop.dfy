/** The catalog page (pages/Shop.tsx): the conjunctive product filter, the
    brand/colour/size facets, synchronisation of the category with the URL,
    and the default filter the page starts from and resets to. */
module Shop {
  import opened Types
  import opened Seqs
  import opened Strings
  import Catalog

  // ---------------------------------------------------------------------
  // Filter state
  // ---------------------------------------------------------------------

  /** The initial filter, also restored by the "clear filters" button:
      every selection empty and the price range [0, 10000]. */
  function DefaultFilters(): (f: FilterState)
    ensures f.categories == [] && f.brands == [] && f.sizes == [] && f.colors == []
    ensures f.minPrice == 0 && f.maxPrice == 10000
  {
    FilterState([], [], [], 0, 10000, [])
  }

  /** The predicate handed to `PRODUCTS.filter`, guard by guard. */
  predicate Passes(p: Product, f: FilterState) {
    if |f.categories| > 0 && p.category !in f.categories then false
    else if |f.brands| > 0 && p.brand !in f.brands then false
    else if |f.colors| > 0 && p.color !in f.colors then false
    else if |f.sizes| > 0 && !(exists i :: 0 <= i < |p.sizes| && p.sizes[i] in f.sizes) then false
    else if p.price < f.minPrice || p.price > f.maxPrice then false
    else true
  }

  /** `filteredProducts`: the catalog products passing the filter. */
  function Filtered(catalog: seq<Product>, f: FilterState): seq<Product> {
    Filter((p: Product) => Passes(p, f), catalog)
  }

  /** The filter is sound and complete: a product is kept iff it is in the
      catalog and passes every dimension, where an empty selection is no
      restriction, sizes need one shared size, and both price bounds are
      inclusive. The result keeps catalog order. */
  lemma FilteredExactly(catalog: seq<Product>, f: FilterState, p: Product)
    ensures IsSubseq(Filtered(catalog, f), catalog)
    ensures p in Filtered(catalog, f) <==>
      && p in catalog
      && (f.categories == [] || p.category in f.categories)
      && (f.brands == [] || p.brand in f.brands)
      && (f.colors == [] || p.color in f.colors)
      && (f.sizes == [] || exists s :: s in p.sizes && s in f.sizes)
      && f.minPrice <= p.price <= f.maxPrice
  {
    FilterIsSubseq((q: Product) => Passes(q, f), catalog);
    if p in catalog {
      var i :| 0 <= i < |catalog| && catalog[i] == p;
      assert (p in Filtered(catalog, f)) == Passes(p, f);
    }
  }

  /** A lower bound above the upper bound keeps nothing. */
  lemma EmptyPriceRangeKeepsNothing(catalog: seq<Product>, f: FilterState)
    requires f.minPrice > f.maxPrice
    ensures Filtered(catalog, f) == []
  {
    var r := Filtered(catalog, f);
    assert r == [] || Passes(r[0], f);
  }

  /** `g` admits everything `f` admits: each selection of `g` is the same as
      in `f` or contains a non-empty selection of `f`, and `g`'s price range
      contains `f`'s. */
  predicate Wider(f: FilterState, g: FilterState) {
    && (g.categories == f.categories || (f.categories != [] && forall c :: c in f.categories ==> c in g.categories))
    && (g.brands == f.brands || (f.brands != [] && forall b :: b in f.brands ==> b in g.brands))
    && (g.colors == f.colors || (f.colors != [] && forall c :: c in f.colors ==> c in g.colors))
    && (g.sizes == f.sizes || (f.sizes != [] && forall s :: s in f.sizes ==> s in g.sizes))
    && g.minPrice <= f.minPrice && f.maxPrice <= g.maxPrice
  }

  /** Widening the filter never removes a product from the result, and the
      result of the narrower filter keeps its order inside the wider one. */
  lemma WiderFilterKeepsMore(catalog: seq<Product>, f: FilterState, g: FilterState)
    requires Wider(f, g)
    ensures IsSubseq(Filtered(catalog, f), Filtered(catalog, g))
  {
    forall i | 0 <= i < |catalog| && Passes(catalog[i], f) ensures Passes(catalog[i], g) {
      var p := catalog[i];
      if f.sizes != [] && g.sizes != f.sizes {
        var k :| 0 <= k < |p.sizes| && p.sizes[k] in f.sizes;
        assert p.sizes[k] in g.sizes;
      }
    }
    FilterMonotone((p: Product) => Passes(p, f), (p: Product) => Passes(p, g), catalog);
  }

  /** Ticking one more value in a dimension that already has a selection
      never removes products; narrowing the price range never adds any. */
  lemma FilterMonotonicity(catalog: seq<Product>, f: FilterState, brand: string, size: string,
                           color: string, category: Category, lo: int, hi: int)
    ensures f.brands != [] ==> IsSubseq(Filtered(catalog, f), Filtered(catalog, f.(brands := f.brands + [brand])))
    ensures f.sizes != [] ==> IsSubseq(Filtered(catalog, f), Filtered(catalog, f.(sizes := f.sizes + [size])))
    ensures f.colors != [] ==> IsSubseq(Filtered(catalog, f), Filtered(catalog, f.(colors := f.colors + [color])))
    ensures f.categories != [] ==>
      IsSubseq(Filtered(catalog, f), Filtered(catalog, f.(categories := f.categories + [category])))
    ensures f.minPrice <= lo && hi <= f.maxPrice ==>
      IsSubseq(Filtered(catalog, f.(minPrice := lo, maxPrice := hi)), Filtered(catalog, f))
  {
    if f.brands != [] {
      WiderFilterKeepsMore(catalog, f, f.(brands := f.brands + [brand]));
    }
    if f.sizes != [] {
      WiderFilterKeepsMore(catalog, f, f.(sizes := f.sizes + [size]));
    }
    if f.colors != [] {
      WiderFilterKeepsMore(catalog, f, f.(colors := f.colors + [color]));
    }
    if f.categories != [] {
      WiderFilterKeepsMore(catalog, f, f.(categories := f.categories + [category]));
    }
    if f.minPrice <= lo && hi <= f.maxPrice {
      WiderFilterKeepsMore(catalog, f.(minPrice := lo, maxPrice := hi), f);
    }
  }

  /** The default filter admits the whole catalog. */
  lemma DefaultFilterShowsCatalog()
    ensures Filtered(Catalog.Products, DefaultFilters()) == Catalog.Products
  {
    Catalog.ProductPricesInRange();
    FilterKeepsAll((p: Product) => Passes(p, DefaultFilters()), Catalog.Products);
  }

  /** Items at 850, 2490 and 3500 under the range [1000, 3000]: only the
      2490 one remains. */
  lemma PriceRangeExample(a: Product, b: Product, c: Product)
    requires a.price == 850 && b.price == 2490 && c.price == 3500
    ensures Filtered([a, b, c], DefaultFilters().(minPrice := 1000, maxPrice := 3000)) == [b]
  {
    var f := DefaultFilters().(minPrice := 1000, maxPrice := 3000);
    var keep := (p: Product) => Passes(p, f);
    assert !keep(a) && keep(b) && !keep(c);
    assert [a, b, c][1..] == [b, c] && [b, c][1..] == [c] && [c][1..] == [];
    assert Filter(keep, [c]) == [];
    assert Filter(keep, [b, c]) == [b];
    assert Filter(keep, [a, b, c]) == [b];
  }

  // ---------------------------------------------------------------------
  // URL synchronisation
  // ---------------------------------------------------------------------

  /** The category names the URL may select: never "Vše". */
  function ParseCategory(name: string): (r: Option<Category>)
    ensures r.Some? ==> r.value != All && r.value.Name() == name
  {
    if name == "Muži" then Some(Men)
    else if name == "Ženy" then Some(Women)
    else if name == "Doplňky" then Some(Accessories)
    else None
  }

  /** Every real category's name parses back to it; "Vše" does not parse. */
  lemma ParseCategoryRoundTrip(c: Category)
    ensures c != All ==> ParseCategory(c.Name()) == Some(c)
    ensures ParseCategory(All.Name()) == None
  {
  }

  /** The effect on `?category=`: a recognised name selects exactly that
      category, an absent or empty parameter clears the categories, and an
      unrecognised one leaves the filter alone. Other dimensions never change. */
  function SyncCategoryParam(f: FilterState, param: Option<string>): (r: FilterState)
    ensures r.brands == f.brands && r.sizes == f.sizes && r.colors == f.colors
    ensures r.minPrice == f.minPrice && r.maxPrice == f.maxPrice
    ensures param == None || param == Some("") ==> r.categories == []
    ensures param.Some? && ParseCategory(param.value).Some? ==> r.categories == [ParseCategory(param.value).value]
    ensures param.Some? && param.value != "" && ParseCategory(param.value).None? ==> r == f
  {
    match param
    case Some(raw) =>
      if raw == "" then f.(categories := [])
      else
        (match ParseCategory(raw)
         case Some(c) => f.(categories := [c])
         case None => f)
    case None => f.(categories := [])
  }

  // ---------------------------------------------------------------------
  // Facets
  // ---------------------------------------------------------------------

  /** Strictly increasing in code-unit order, hence free of duplicates. */
  predicate Sorted(s: seq<string>) {
    forall i :: 0 <= i < |s| - 1 ==> StrLess(s[i], s[i + 1])
  }

  /** Inserts `x` into a sorted list unless it is already there. */
  function InsertSorted(x: string, s: seq<string>): seq<string> {
    if s == [] then [x]
    else if x == s[0] then s
    else if StrLess(x, s[0]) then [x] + s
    else [s[0]] + InsertSorted(x, s[1..])
  }

  lemma {:induction false} InsertSortedSpec(x: string, s: seq<string>)
    requires Sorted(s)
    ensures Sorted(InsertSorted(x, s))
    ensures forall y :: y in InsertSorted(x, s) <==> y == x || y in s
    ensures InsertSorted(x, s)[0] == x || (s != [] && InsertSorted(x, s)[0] == s[0])
  {
    if s != [] && x != s[0] && !StrLess(x, s[0]) {
      StrLessTotal(x, s[0]);
      InsertSortedSpec(x, s[1..]);
      var r := InsertSorted(x, s[1..]);
      assert InsertSorted(x, s) == [s[0]] + r;
      if |s| > 1 {
        assert StrLess(s[0], s[1]);
      }
    }
  }

  /** `Array.from(new Set(xs)).sort()`: the distinct values in ascending order. */
  function SortedSet(xs: seq<string>): seq<string> {
    if xs == [] then [] else InsertSorted(xs[0], SortedSet(xs[1..]))
  }

  lemma {:induction false} SortedSetSpec(xs: seq<string>)
    ensures Sorted(SortedSet(xs))
    ensures forall y :: y in SortedSet(xs) <==> y in xs
  {
    if xs != [] {
      SortedSetSpec(xs[1..]);
      InsertSortedSpec(xs[0], SortedSet(xs[1..]));
      assert forall y :: y in xs <==> y == xs[0] || y in xs[1..];
    }
  }

  /** In a sorted list every element is below all later ones. */
  lemma {:induction false} SortedAllPairs(s: seq<string>, i: int, j: int)
    requires Sorted(s) && 0 <= i < j < |s|
    ensures StrLess(s[i], s[j])
    decreases j - i
  {
    if i + 1 < j {
      SortedAllPairs(s, i + 1, j);
      StrLessTransitive(s[i], s[i + 1], s[j]);
    }
  }

  /** Sorted lists hold no duplicates. */
  lemma SortedIsDistinct(s: seq<string>)
    requires Sorted(s)
    ensures Distinct(s)
  {
    forall i, j | 0 <= i < j < |s| ensures s[i] != s[j] {
      SortedAllPairs(s, i, j);
      StrLessIrreflexive(s[i]);
    }
  }

  /** A set has only one sorted listing, so the facet does not depend on how
      the sort is carried out. */
  lemma {:induction false} SortedListingUnique(a: seq<string>, b: seq<string>)
    requires Sorted(a) && Sorted(b)
    requires forall y :: y in a <==> y in b
    ensures a == b
  {
    assert a != [] ==> a[0] in b;
    assert b != [] ==> b[0] in a;
    if a != [] && b != [] {
      assert a[0] in a && b[0] in b;
      if a[0] != b[0] {
        var ia :| 0 <= ia < |a| && a[ia] == b[0];
        var ib :| 0 <= ib < |b| && b[ib] == a[0];
        SortedAllPairs(a, 0, ia);
        SortedAllPairs(b, 0, ib);
        StrLessTransitive(a[0], b[0], a[0]);
        StrLessIrreflexive(a[0]);
      }
      forall y ensures y in a[1..] <==> y in b[1..] {
        if y in a[1..] {
          TailMember(a, b, y);
        }
        if y in b[1..] {
          TailMember(b, a, y);
        }
      }
      SortedListingUnique(a[1..], b[1..]);
    }
  }

  /** A member of the tail of one sorted listing is in the tail of another
      listing of the same set with the same head. */
  lemma TailMember(a: seq<string>, b: seq<string>, y: string)
    requires Sorted(a) && Sorted(b) && a != [] && b != [] && a[0] == b[0]
    requires forall z :: z in a <==> z in b
    requires y in a[1..]
    ensures y in b[1..]
  {
    var i :| 0 <= i < |a| - 1 && a[1..][i] == y;
    SortedAllPairs(a, 0, i + 1);
    StrLessIrreflexive(y);
    assert y in a;
    var j :| 0 <= j < |b| && b[j] == y;
    assert j != 0;
    assert b[1..][j - 1] == y;
  }

  function Brands(catalog: seq<Product>): seq<string> {
    seq(|catalog|, i requires 0 <= i < |catalog| => catalog[i].brand)
  }

  function Colors(catalog: seq<Product>): seq<string> {
    seq(|catalog|, i requires 0 <= i < |catalog| => catalog[i].color)
  }

  /** `availableBrands` and `availableColors`. */
  function AvailableBrands(catalog: seq<Product>): seq<string> { SortedSet(Brands(catalog)) }
  function AvailableColors(catalog: seq<Product>): seq<string> { SortedSet(Colors(catalog)) }

  /** The brand and colour facets list each value of the catalog exactly
      once, in ascending order, and are the only lists that do so. */
  lemma BrandAndColorFacets(catalog: seq<Product>, other: seq<string>, otherColors: seq<string>)
    ensures Sorted(AvailableBrands(catalog)) && Distinct(AvailableBrands(catalog))
    ensures Sorted(AvailableColors(catalog)) && Distinct(AvailableColors(catalog))
    ensures forall b :: b in AvailableBrands(catalog) <==> exists p :: p in catalog && p.brand == b
    ensures forall c :: c in AvailableColors(catalog) <==> exists p :: p in catalog && p.color == c
    ensures Sorted(other) && (forall b :: b in other <==> b in Brands(catalog)) ==> other == AvailableBrands(catalog)
    ensures Sorted(otherColors) && (forall c :: c in otherColors <==> c in Colors(catalog)) ==>
      otherColors == AvailableColors(catalog)
  {
    SortedSetSpec(Brands(catalog));
    SortedSetSpec(Colors(catalog));
    SortedIsDistinct(AvailableBrands(catalog));
    SortedIsDistinct(AvailableColors(catalog));
    forall b ensures b in Brands(catalog) <==> exists p :: p in catalog && p.brand == b {
      if exists p :: p in catalog && p.brand == b {
        var p :| p in catalog && p.brand == b;
        var i :| 0 <= i < |catalog| && catalog[i] == p;
        assert Brands(catalog)[i] == b;
      }
    }
    forall c ensures c in Colors(catalog) <==> exists p :: p in catalog && p.color == c {
      if exists p :: p in catalog && p.color == c {
        var p :| p in catalog && p.color == c;
        var i :| 0 <= i < |catalog| && catalog[i] == p;
        assert Colors(catalog)[i] == c;
      }
    }
    if Sorted(other) && (forall b :: b in other <==> b in Brands(catalog)) {
      SortedListingUnique(other, AvailableBrands(catalog));
    }
    if Sorted(otherColors) && (forall c :: c in otherColors <==> c in Colors(catalog)) {
      SortedListingUnique(otherColors, AvailableColors(catalog));
    }
  }

  /** The fixed size table the size facet is ordered by. */
  const SizeOrder: seq<string> := ["XS", "S", "S/M", "M", "L", "L/XL", "XL", "XXL", "30", "32", "34", "36",
    "37", "38", "39", "40", "41", "42", "43", "44", "45", "57", "59", "61", "One Size"]

  /** `order.indexOf(size)`: -1 for a size missing from the table, so an
      unknown size sorts first. */
  function Rank(order: seq<string>, size: string): int {
    IndexOf(order, size)
  }

  /** `PRODUCTS.flatMap(p => p.sizes)`. */
  function AllSizes(catalog: seq<Product>): seq<string> {
    if catalog == [] then [] else catalog[0].sizes + AllSizes(catalog[1..])
  }

  /** `Array.from(new Set(xs))`: distinct values in order of first occurrence. */
  function Dedup(xs: seq<string>): (r: seq<string>)
    ensures Distinct(r)
    ensures forall y :: y in r <==> y in xs
  {
    if xs == [] then []
    else
      var d := Dedup(xs[..|xs| - 1]);
      assert xs == xs[..|xs| - 1] + [xs[|xs| - 1]];
      if xs[|xs| - 1] in d then d else d + [xs[|xs| - 1]]
  }

  /** The position of a size in the size table, the sort key of the facet. */
  function SizeRank(size: string): int {
    Rank(SizeOrder, size)
  }

  /** Inserts `x` before the first element whose key is at least its own. */
  function InsertByRank(rank: string -> int, x: string, s: seq<string>): seq<string> {
    if s == [] || rank(x) <= rank(s[0]) then [x] + s
    else [s[0]] + InsertByRank(rank, x, s[1..])
  }

  /** The comparator sort `(a, b) => rank(a) - rank(b)`. */
  function SortByRank(rank: string -> int, xs: seq<string>): seq<string> {
    if xs == [] then [] else InsertByRank(rank, xs[0], SortByRank(rank, xs[1..]))
  }

  predicate RankOrdered(rank: string -> int, s: seq<string>) {
    forall i :: 0 <= i < |s| - 1 ==> rank(s[i]) <= rank(s[i + 1])
  }

  /** Insertion keeps the keys non-decreasing; the new head is `x` or the
      old head. */
  lemma {:induction false} InsertByRankOrdered(rank: string -> int, x: string, s: seq<string>)
    requires RankOrdered(rank, s)
    ensures RankOrdered(rank, InsertByRank(rank, x, s))
    ensures InsertByRank(rank, x, s)[0] == x || (s != [] && InsertByRank(rank, x, s)[0] == s[0])
  {
    if s != [] && rank(x) > rank(s[0]) {
      InsertByRankOrdered(rank, x, s[1..]);
      var rest := InsertByRank(rank, x, s[1..]);
      assert InsertByRank(rank, x, s) == [s[0]] + rest;
      assert |s| > 1 ==> rank(s[0]) <= rank(s[1]);
    }
  }

  /** Insertion adds exactly one element. */
  lemma {:induction false} InsertByRankPermutes(rank: string -> int, x: string, s: seq<string>)
    ensures multiset(InsertByRank(rank, x, s)) == multiset(s) + multiset{x}
  {
    if s != [] && rank(x) > rank(s[0]) {
      InsertByRankPermutes(rank, x, s[1..]);
      assert InsertByRank(rank, x, s) == [s[0]] + InsertByRank(rank, x, s[1..]);
      assert s == [s[0]] + s[1..];
    }
  }

  /** The sort yields a permutation of its input with non-decreasing keys. */
  lemma {:induction false} SortByRankSpec(rank: string -> int, xs: seq<string>)
    ensures RankOrdered(rank, SortByRank(rank, xs))
    ensures multiset(SortByRank(rank, xs)) == multiset(xs)
  {
    if xs != [] {
      SortByRankSpec(rank, xs[1..]);
      InsertByRankOrdered(rank, xs[0], SortByRank(rank, xs[1..]));
      InsertByRankPermutes(rank, xs[0], SortByRank(rank, xs[1..]));
      assert xs == [xs[0]] + xs[1..];
    }
  }

  /** `availableSizes`. */
  function AvailableSizes(catalog: seq<Product>): seq<string> {
    SortByRank(SizeRank, Dedup(AllSizes(catalog)))
  }

  lemma {:induction false} AllSizesMembers(catalog: seq<Product>, s: string)
    ensures s in AllSizes(catalog) <==> exists p :: p in catalog && s in p.sizes
  {
    if catalog != [] {
      AllSizesMembers(catalog[1..], s);
      assert forall p :: p in catalog <==> p == catalog[0] || p in catalog[1..];
    }
  }

  /** A permutation of a duplicate-free list is duplicate-free. */
  lemma PermutationKeepsDistinct(a: seq<string>, b: seq<string>)
    requires Distinct(a) && multiset(a) == multiset(b)
    ensures Distinct(b)
  {
    forall i, j | 0 <= i < j < |b| ensures b[i] != b[j] {
      if b[i] == b[j] {
        assert multiset(b)[b[i]] >= 2 by {
          assert b == b[..i] + [b[i]] + b[i + 1..j] + [b[j]] + b[j + 1..];
        }
        DistinctMultiplicity(a, b[i]);
      }
    }
  }

  lemma {:induction false} DistinctMultiplicity(s: seq<string>, x: string)
    requires Distinct(s)
    ensures multiset(s)[x] <= 1
  {
    if s != [] {
      DistinctMultiplicity(s[1..], x);
      assert s == [s[0]] + s[1..];
    }
  }

  /** The size facet lists each size of the catalog exactly once, ordered
      by position in the size table (unknown sizes first). */
  lemma SizeFacet(catalog: seq<Product>)
    ensures Distinct(AvailableSizes(catalog))
    ensures RankOrdered(SizeRank, AvailableSizes(catalog))
    ensures forall s :: s in AvailableSizes(catalog) <==> exists p :: p in catalog && s in p.sizes
  {
    var d := Dedup(AllSizes(catalog));
    SortByRankSpec(SizeRank, d);
    var r := SortByRank(SizeRank, d);
    PermutationKeepsDistinct(d, r);
    forall s ensures s in r <==> exists p :: p in catalog && s in p.sizes {
      assert s in r <==> s in multiset(r);
      assert s in d <==> s in multiset(d);
      AllSizesMembers(catalog, s);
    }
  }

  /** Every size listed in the catalog appears in the size table, so every
      size of the catalog's facet has a place in the table's order. */
  lemma CatalogSizesKnown()
    ensures forall p, s :: p in Catalog.Products && s in p.sizes ==> s in SizeOrder
  {
    HeadwearAndTopSizes();
    BottomAndShoeSizes();
    forall p | p in Catalog.Products ensures SizesListed(p) {
    }
  }

  /** Every size of `p` is in the size table. */
  predicate SizesListed(p: Product) {
    forall s :: s in p.sizes ==> s in SizeOrder
  }

  lemma HeadwearAndTopSizes()
    ensures SizesListed(Catalog.H1) && SizesListed(Catalog.H2) && SizesListed(Catalog.H3)
    ensures SizesListed(Catalog.H4) && SizesListed(Catalog.T1) && SizesListed(Catalog.T2)
  {
  }

  lemma BottomAndShoeSizes()
    ensures SizesListed(Catalog.B1) && SizesListed(Catalog.B2) && SizesListed(Catalog.B3)
    ensures SizesListed(Catalog.B4) && SizesListed(Catalog.S1) && SizesListed(Catalog.S2)
    ensures SizesListed(Catalog.S3)
  {
  }
}
