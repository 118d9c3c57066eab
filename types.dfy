/** Records shared by the storefront's state containers and pages. */
module Types {

  datatype Option<T> = None | Some(value: T)

  /** The error path of a hook used outside its provider. */
  datatype Result<T> = Ok(value: T) | Err(message: string)

  datatype Rating = Rating(rate: real, count: int)

  /** A catalogue product as the remote API delivers it. Prices are exact reals. */
  datatype Product = Product(
    id: int,
    title: string,
    price: real,
    description: string,
    category: string,
    image: string,
    rating: Rating)

  /** A cart line: every field of the product plus a quantity (`{...product, quantity}`). */
  datatype CartItem = CartItem(product: Product, quantity: int) {
    function Id(): int { product.id }
    function Price(): real { product.price }
  }

  /** The logged-in identity: an opaque record, accepted as given. */
  datatype User = User(id: string, name: string, email: string)

  datatype Order = Order(id: string, items: seq<CartItem>, total: real, date: string, status: string)
}
