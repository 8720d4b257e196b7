/** The product catalog (constants.ts) and lookup by id. Facts proved about
    the literal discharge the preconditions of the other modules. */
module Catalog {
  import opened Types
  import Seqs

  /** `PRODUCTS`: four headwear items, two tops, four bottoms, three shoes. */
  const Products: seq<Product> := [H1, H2, H3, H4, T1, T2, B1, B2, B3, B4, S1, S2, S3]

  const H1: Product :=
    Product("h1", "Kšiltovka", 850, Accessories, Headwear, "VIRA",
      ["One Size"], "Černá",
      "/images/headwear/cap-street.jpg", "Kšiltovka na cesty.")

  const H2: Product :=
    Product("h2", "Kulich", 650, Accessories, Headwear, "VIRA",
      ["One Size"], "Šedá",
      "/images/headwear/beanie-merino.jpg", "Teplá zimní čepice z prémiové vlny.")

  const H3: Product :=
    Product("h3", "Taška", 590, Accessories, Headwear, "VIRA",
      ["S/M", "L/XL"], "Béžová",
      "/images/headwear/bucket-retro.jpg", "Supr taška")

  const H4: Product :=
    Product("h4", "čepice", 990, Accessories, Headwear, "VIRA",
      ["One Size"], "Červená",
      "/images/head/chicago.jpg", "Klasická čepice.")

  const T1: Product :=
    Product("t1", "Essential Tee", 890, Men, Top, "VIRA",
      ["S", "M", "L", "XL"], "Bílá",
      "/images/tops/tee-essential.jpg", "Prémiová bavlna")

  const T2: Product :=
    Product("t2", "Oversized mikina", 2490, Women, Top, "VIRA",
      ["XS", "S", "M", "L"], "Béžová",
      "/images/tops/hoodie-oversized.jpg", "Maximální pohodlí")

  const B1: Product :=
    Product("b1", "Dziny", 2100, Men, Bottom, "VIRA",
      ["30", "32", "34", "36"], "Černá",
      "/images/bottoms/jeans-slim.jpg", "Pohodlné džíny.")

  const B2: Product :=
    Product("b2", "Teplaky", 1900, Women, Bottom, "VIRA",
      ["36", "38", "40"], "Bílá",
      "/images/bottoms/trousers-linen.jpg", "Kalhoty z praného lnu.")

  const B3: Product :=
    Product("b3", "Cargo Pants", 3500, Men, Bottom, "VIRA",
      ["30", "32", "34"], "Zelená",
      "/images/bottoms/pants-cargo.jpg", "super kalhoty")

  const B4: Product :=
    Product("b4", "Kraťasy", 1200, Men, Bottom, "VIRA",
      ["30", "32", "34", "36"], "Béžová",
      "/images/bottoms/shorts-chino.jpg", "Kraťasy pro letní dny.")

  const S1: Product :=
    Product("s1", "Air Force 1", 2990, Men, Shoes, "Nike / VIRA",
      ["41", "42", "43", "44", "45"], "Bílá",
      "/images/shoes/af1.jpg", "custom.")

  const S2: Product :=
    Product("s2", "Tretry", 4500, Men, Shoes, "VIRA",
      ["41", "42", "43", "44"], "Hnědá",
      "/images/shoes/chelsea.jpg", "Ručně šité boty.")

  const S3: Product :=
    Product("s3", "Ponožky", 200, Men, Shoes, "VIRA",
      ["41", "42", "43", "44"], "Hnědá",
      "/images/shoes/chelsea.jpg", "pohodlne ponozky.")

  /** No two products share an id. */
  predicate UniqueIds(ps: seq<Product>) {
    forall i, j :: 0 <= i < j < |ps| ==> ps[i].id != ps[j].id
  }

  /** `PRODUCTS.find(p => p.id === id)`: the first product with that id. */
  function FindProduct(catalog: seq<Product>, id: string): (r: Option<Product>)
    ensures r.Some? ==> r.value in catalog && r.value.id == id
    ensures r.None? <==> forall i :: 0 <= i < |catalog| ==> catalog[i].id != id
  {
    if catalog == [] then None
    else if catalog[0].id == id then Some(catalog[0])
    else FindProduct(catalog[1..], id)
  }

  /** With unique ids, lookup finds exactly the catalog product holding the id. */
  lemma {:induction false} FindProductUnique(catalog: seq<Product>, p: Product)
    requires UniqueIds(catalog) && p in catalog
    ensures FindProduct(catalog, p.id) == Some(p)
  {
    if catalog[0] != p {
      assert p in catalog[1..];
      assert UniqueIds(catalog[1..]) by {
        forall i, j | 0 <= i < j < |catalog[1..]|
          ensures catalog[1..][i].id != catalog[1..][j].id
        {
          assert catalog[1..][i] == catalog[i + 1] && catalog[1..][j] == catalog[j + 1];
        }
      }
      FindProductUnique(catalog[1..], p);
    }
  }

  /** All thirteen ids are distinct. */
  lemma ProductIdsUnique()
    ensures UniqueIds(Products)
  {
    var ids := ["h1", "h2", "h3", "h4", "t1", "t2", "b1", "b2", "b3", "b4", "s1", "s2", "s3"];
    assert forall i :: 0 <= i < |Products| ==> Products[i].id == ids[i];
    assert forall i :: 0 <= i < |ids| ==> |ids[i]| == 2;
    forall i, j | 0 <= i < j < |ids| ensures ids[i] != ids[j] {
      assert ids[i][0] != ids[j][0] || ids[i][1] != ids[j][1];
    }
  }

  /** Every product has a size, so `sizes[0]` is always defined. */
  lemma ProductSizesNonEmpty()
    ensures forall p :: p in Products ==> |p.sizes| > 0
  {
  }

  /** Every product's type names an outfit slot; none is an accessory. */
  lemma ProductKindsAreSlots()
    ensures forall p :: p in Products ==> p.kind != Accessory
  {
  }

  /** Every product is in one of the three real categories, never `All`. */
  lemma ProductCategoriesAreReal()
    ensures forall p :: p in Products ==> p.category in {Men, Women, Accessories}
  {
  }

  /** Every price is positive and within the default price range. */
  lemma ProductPricesInRange()
    ensures forall p :: p in Products ==> 0 < p.price <= 10000
  {
  }

  /** The number of catalog products of clothing type `k`. */
  function CountOfKind(catalog: seq<Product>, k: ClothingType): (n: nat)
    ensures n <= |catalog|
    ensures n > 0 <==> exists i :: 0 <= i < |catalog| && catalog[i].kind == k
  {
    if catalog == [] then 0
    else (if catalog[0].kind == k then 1 else 0) + CountOfKind(catalog[1..], k)
  }

  lemma {:induction false} CountOfKindAppend(a: seq<Product>, b: seq<Product>, k: ClothingType)
    ensures CountOfKind(a + b, k) == CountOfKind(a, k) + CountOfKind(b, k)
  {
    if a == [] {
      assert a + b == b;
    } else {
      assert (a + b)[0] == a[0] && (a + b)[1..] == a[1..] + b;
      CountOfKindAppend(a[1..], b, k);
    }
  }

  lemma {:induction false} CountOfKindUniform(ps: seq<Product>, k: ClothingType)
    requires forall i :: 0 <= i < |ps| ==> ps[i].kind == k
    ensures CountOfKind(ps, k) == |ps|
  {
    if ps != [] {
      CountOfKindUniform(ps[1..], k);
    }
  }

  /** The catalog listed slot by slot, as the source groups it. */
  lemma {:induction false} CountBySection(k: ClothingType)
    ensures CountOfKind(Products, k) == CountOfKind([H1, H2, H3, H4], k) + CountOfKind([T1, T2], k)
      + CountOfKind([B1, B2, B3, B4], k) + CountOfKind([S1, S2, S3], k)
  {
    var hs, ts, bs, ss := [H1, H2, H3, H4], [T1, T2], [B1, B2, B3, B4], [S1, S2, S3];
    assert Products == hs + (ts + (bs + ss));
    CountOfKindAppend(bs, ss, k);
    CountOfKindAppend(ts, bs + ss, k);
    CountOfKindAppend(hs, ts + (bs + ss), k);
  }

  lemma {:induction false} CountOfKindNone(ps: seq<Product>, k: ClothingType)
    requires forall i :: 0 <= i < |ps| ==> ps[i].kind != k
    ensures CountOfKind(ps, k) == 0
  {
    if ps != [] {
      CountOfKindNone(ps[1..], k);
    }
  }

  /** 4 headwear, 2 tops, 4 bottoms and 3 shoes: every slot can be filled. */
  lemma ProductsPerSlot()
    ensures CountOfKind(Products, Headwear) == 4
    ensures CountOfKind(Products, Top) == 2
    ensures CountOfKind(Products, Bottom) == 4
    ensures CountOfKind(Products, Shoes) == 3
  {
    HeadwearCount();
    TopCount();
    BottomCount();
    ShoesCount();
  }

  lemma HeadwearCount()
    ensures CountOfKind(Products, Headwear) == 4
  {
    CountOfKindUniform([H1, H2, H3, H4], Headwear);
    CountOfKindNone([T1, T2], Headwear);
    CountOfKindNone([B1, B2, B3, B4], Headwear);
    CountOfKindNone([S1, S2, S3], Headwear);
    CountBySection(Headwear);
  }

  lemma TopCount()
    ensures CountOfKind(Products, Top) == 2
  {
    CountOfKindNone([H1, H2, H3, H4], Top);
    CountOfKindUniform([T1, T2], Top);
    CountOfKindNone([B1, B2, B3, B4], Top);
    CountOfKindNone([S1, S2, S3], Top);
    CountBySection(Top);
  }

  lemma BottomCount()
    ensures CountOfKind(Products, Bottom) == 4
  {
    CountOfKindNone([H1, H2, H3, H4], Bottom);
    CountOfKindNone([T1, T2], Bottom);
    CountOfKindUniform([B1, B2, B3, B4], Bottom);
    CountOfKindNone([S1, S2, S3], Bottom);
    CountBySection(Bottom);
  }

  lemma ShoesCount()
    ensures CountOfKind(Products, Shoes) == 3
  {
    CountOfKindNone([H1, H2, H3, H4], Shoes);
    CountOfKindNone([T1, T2], Shoes);
    CountOfKindNone([B1, B2, B3, B4], Shoes);
    CountOfKindUniform([S1, S2, S3], Shoes);
    CountBySection(Shoes);
  }
}
