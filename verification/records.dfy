/**
 * The documents the storefront API keeps in its store (user favourites,
 * products, orders, reviews), with money in integer cents, and the error
 * responses its routes send.
 */
module Records {

  type ProductId = nat
  type UserId = nat

  /** A rational `num / den`; the product rating is the mean of its reviews' ratings. */
  datatype Ratio = Ratio(num: int, den: nat)

  datatype Product = Product(
    name: string,
    category: string,
    price: int,
    originalPrice: int,
    rating: Ratio,
    reviews: nat,
    image: string,
    description: string,
    tag: string,
    stock: int)

  /** One requested line of an order: the quantity and the unit price are taken from the caller as sent. */
  datatype LineItem = LineItem(product: ProductId, quantity: int, price: int)

  datatype Status = Pending | Processing | Shipped | Delivered

  datatype Address = Address(street: string, city: string, state: string, zipCode: string, country: string)

  datatype Order = Order(user: UserId, items: seq<LineItem>, total: int, status: Status, shippingAddress: Address)

  datatype Review = Review(user: UserId, product: ProductId, rating: int, comment: string)

  /** A JSON error response: status 400 (BadRequest) or 500 (ServerError) with its message. */
  datatype ApiError = BadRequest(message: string) | ServerError(message: string)
}
