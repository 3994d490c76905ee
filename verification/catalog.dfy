/** The catalogue's product record, as the stores and screens read it from
    the public catalogue API. Prices are whole cents; the rating is carried
    along but never inspected by the core.
 */
module Catalog {

  datatype Rating = Rating(rate: real, count: int)

  datatype Product = Product(
    id: int,
    title: string,
    price: int,
    description: string,
    category: string,
    image: string,
    rating: Rating)
}
