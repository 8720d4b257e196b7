/** The storefront's entities (types.ts). All of them are values: the source
    only ever replaces them through spreads, never edits them in place. */
module Types {

  datatype Option<T> = None | Some(value: T)

  /** Shop categories; `All` ("Vše") is part of the type but of no product. */
  datatype Category = All | Men | Women | Accessories {
    function Name(): string {
      match this
      case All => "Vše"
      case Men => "Muži"
      case Women => "Ženy"
      case Accessories => "Doplňky"
    }
  }

  /** The clothing type of a product; the first four name the outfit slots. */
  datatype ClothingType = Headwear | Top | Bottom | Shoes | Accessory

  datatype Product = Product(
    id: string,
    name: string,
    price: int,
    category: Category,
    kind: ClothingType,
    brand: string,
    sizes: seq<string>,
    color: string,
    image: string,
    description: string)

  /** A cart line: the product's fields plus a quantity. */
  datatype CartItem = CartItem(product: Product, quantity: int) {
    function Id(): string { product.id }
  }

  /** The configurator's outfit: at most one product per slot. */
  datatype Outfit = Outfit(
    headwear: Option<Product>,
    top: Option<Product>,
    bottom: Option<Product>,
    shoes: Option<Product>)

  /** The catalog filter. Each list left empty means "no restriction". */
  datatype FilterState = FilterState(
    brands: seq<string>,
    sizes: seq<string>,
    colors: seq<string>,
    minPrice: int,
    maxPrice: int,
    categories: seq<Category>)

  datatype User = User(email: string, name: string)
}
