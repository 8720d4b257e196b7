/** The filter sidebar's state updaters (components/ProductFilters.tsx):
    ticking a checkbox toggles membership of one value, and typing in a price
    box replaces one bound of the range. */
module ProductFilters {
  import opened Types
  import opened Seqs

  /** `exists ? current.filter(item => item !== value) : [...current, value]`. */
  function Toggle<T(==)>(current: seq<T>, value: T): (r: seq<T>)
    ensures value !in current ==> r == current + [value]
    ensures value in current ==> value !in r && IsSubseq(r, current)
    ensures value in current ==> forall i :: 0 <= i < |current| && current[i] != value ==> current[i] in r
    ensures value in current ==> |r| == |current| - Count(current, value)
  {
    if value in current then
      FilterIsSubseq((x: T) => x != value, current);
      FilterDropsCount((x: T) => x != value, current, value);
      Filter((x: T) => x != value, current)
    else current + [value]
  }

  /** After a toggle the value is a member iff it was not one before; every
      other value keeps its membership. */
  lemma ToggleFlipsMembership<T>(current: seq<T>, value: T, other: T)
    ensures value in Toggle(current, value) <==> value !in current
    ensures other != value ==> (other in Toggle(current, value) <==> other in current)
  {
    if value in current && other in Toggle(current, value) {
      var r := Toggle(current, value);
      var i :| 0 <= i < |r| && r[i] == other;
    }
  }

  /** Toggling keeps a duplicate-free list duplicate-free. */
  lemma ToggleKeepsDistinct<T>(current: seq<T>, value: T)
    requires Distinct(current)
    ensures Distinct(Toggle(current, value))
  {
    if value in current {
      SubseqKeepsDistinct(Toggle(current, value), current);
    }
  }

  /** Toggling the same value twice restores a duplicate-free list's members;
      the list itself comes back only when the value was absent or last, since
      a removed value is re-added at the end. */
  lemma ToggleTwice<T>(current: seq<T>, value: T, other: T)
    requires Distinct(current)
    ensures other in Toggle(Toggle(current, value), value) <==> other in current
    ensures value !in current ==> Toggle(Toggle(current, value), value) == current
    ensures current != [] && current[|current| - 1] == value ==>
      Toggle(Toggle(current, value), value) == current
  {
    ToggleFlipsMembership(current, value, other);
    ToggleFlipsMembership(Toggle(current, value), value, other);
    if value !in current {
      FilterDropsLast(current, value);
    } else if current[|current| - 1] == value {
      var init := current[..|current| - 1];
      assert current == init + [value];
      assert value !in init;
      FilterDropsLast(init, value);
      assert Toggle(current, value) == init;
    }
  }

  /** Removing a value from `s + [value]` when `s` lacks it gives back `s`. */
  lemma {:induction false} FilterDropsLast<T>(s: seq<T>, value: T)
    requires value !in s
    ensures Filter((x: T) => x != value, s + [value]) == s
  {
    if s == [] {
      assert [value][1..] == [];
    } else {
      assert (s + [value])[1..] == s[1..] + [value];
      FilterDropsLast(s[1..], value);
    }
  }

  /** A removed value that was not last comes back at the end, so the order
      of the list changes. */
  lemma ToggleTwiceReorders(a: string, b: string)
    requires a != b
    ensures Toggle(Toggle([a, b], a), a) == [b, a]
  {
    var keep := (x: string) => x != a;
    assert [a, b][1..] == [b] && [b][1..] == [];
    assert Filter(keep, [b]) == [b];
    assert Filter(keep, [a, b]) == [b];
  }

  /** Which checkbox was ticked, with its value. */
  datatype Checkbox = CategoryBox(category: Category) | BrandBox(brand: string)
                    | SizeBox(size: string) | ColorBox(color: string)

  /** `handleCheckboxChange`: toggles the value in its own dimension only. */
  function HandleCheckboxChange(f: FilterState, box: Checkbox): (r: FilterState)
    ensures r.minPrice == f.minPrice && r.maxPrice == f.maxPrice
    ensures box.CategoryBox? ==> r == f.(categories := Toggle(f.categories, box.category))
    ensures box.BrandBox? ==> r == f.(brands := Toggle(f.brands, box.brand))
    ensures box.SizeBox? ==> r == f.(sizes := Toggle(f.sizes, box.size))
    ensures box.ColorBox? ==> r == f.(colors := Toggle(f.colors, box.color))
  {
    match box
    case CategoryBox(c) => f.(categories := Toggle(f.categories, c))
    case BrandBox(b) => f.(brands := Toggle(f.brands, b))
    case SizeBox(s) => f.(sizes := Toggle(f.sizes, s))
    case ColorBox(c) => f.(colors := Toggle(f.colors, c))
  }

  /** Which end of the price range an input box edits. */
  datatype Bound = Lower | Upper

  /** `parseInt(value) || 0`: an unparsable entry (and NaN) becomes 0. */
  function ParsedOrZero(parsed: Option<int>): (n: int)
    ensures parsed.None? ==> n == 0
    ensures parsed.Some? ==> n == parsed.value
  {
    match parsed
    case Some(v) => v
    case None => 0
  }

  /** `handlePriceChange`: only the edited bound changes and it is not checked
      against the other one. */
  function HandlePriceChange(f: FilterState, parsed: Option<int>, bound: Bound): (r: FilterState)
    ensures r.categories == f.categories && r.brands == f.brands && r.sizes == f.sizes && r.colors == f.colors
    ensures bound == Lower ==> r.minPrice == ParsedOrZero(parsed) && r.maxPrice == f.maxPrice
    ensures bound == Upper ==> r.maxPrice == ParsedOrZero(parsed) && r.minPrice == f.minPrice
  {
    match bound
    case Lower => f.(minPrice := ParsedOrZero(parsed))
    case Upper => f.(maxPrice := ParsedOrZero(parsed))
  }

  /** Nothing keeps the range ordered: raising the lower bound past the upper
      one is accepted as typed. */
  lemma PriceChangeMayInvertRange(f: FilterState, n: int)
    requires n > f.maxPrice
    ensures HandlePriceChange(f, Some(n), Lower).minPrice > HandlePriceChange(f, Some(n), Lower).maxPrice
  {
  }

  /** The category checkboxes offered. */
  const CategoryOptions: seq<Category> := [Men, Women, Accessories]

  /** The offered categories are the three real ones, each once; "Vše" is
      never offered. */
  lemma CategoryOptionsAreReal(c: Category)
    ensures c in CategoryOptions <==> c != All
    ensures Distinct(CategoryOptions)
  {
  }
}
