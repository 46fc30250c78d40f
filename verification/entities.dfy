/** The records the storefront keeps, and the whole store they live in. */
module Entities {
  import opened Base

  /** One line of a user's cart. `itemId` names the line; `menuId` is a weak
      reference into the catalog, resolved only when the cart is read. */
  datatype CartLine = CartLine(
    itemId: string,
    menuId: string,
    quantity: int,
    option1: Option<string>,
    option2: seq<string>)

  /** A catalog entry, keyed in the catalog by its menu id. `ratings` maps a
      star value to the number of accepted reviews that gave it; a star with
      no entry has count 0. */
  datatype MenuItem = MenuItem(
    name: string,
    price: int,
    categories: seq<string>,
    image: string,
    sold: int,
    ratings: map<int, nat>)

  /** The number of accepted reviews of `item` that gave `star` stars. */
  function RatingCount(item: MenuItem, star: int): nat {
    if star in item.ratings then item.ratings[star] else 0
  }

  /** A voucher, keyed in the store by its code. */
  datatype Voucher = Voucher(discount: int, isValid: bool)

  /** A cart line frozen at checkout with the catalog's name, price and image of that instant. */
  datatype OrderLine = OrderLine(line: CartLine, name: string, price: int, image: string)

  datatype Order = Order(
    orderId: int,
    userEmail: string,
    items: seq<OrderLine>,
    totalPrice: int,
    status: string,
    timestamp: int)

  datatype Review = Review(
    itemId: string,
    userEmail: string,
    text: string,
    rating: int,
    orderId: int,
    timestamp: int)

  /** A user record, keyed in the store by e-mail; a record without a stored cart has the empty cart. */
  datatype User = User(name: string, cart: seq<CartLine>)

  type Catalog = map<string, MenuItem>

  /** Every collection the storefront reads or writes. Orders and reviews are
      kept in insertion order, which is the order the database returns them in. */
  datatype Store = Store(
    catalog: Catalog,
    users: map<string, User>,
    orders: seq<Order>,
    reviews: seq<Review>,
    vouchers: map<string, Voucher>)

  /** The store after a request, together with the request's reply. */
  datatype Step<T> = Step(store: Store, reply: Result<T>)
}
