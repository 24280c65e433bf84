/** The product record shared by the cart and the catalog page. */
module Catalog {

  /** A catalog entry. `price` is in cents so that sums are exact; the
      fractional star `rating` only drives display and is not modelled. */
  datatype Product = Product(
    id: string,
    name: string,
    price: int,
    image: string,
    category: string,
    description: string,
    stock: int)
}
