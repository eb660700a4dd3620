/** The records of the storefront (types.ts). Prices and quantities are integers:
    every price in the store is an integer literal or the result of `parseInt`. */
module Types {

  datatype Option<+T> = None | Some(value: T)

  /** A catalogue entry; `price` is in whole dinars. */
  datatype Product = Product(
    id: string,
    name: string,
    description: string,
    price: int,
    image: string,
    category: string)

  /** A cart line or order line. `price` and `name` are snapshots taken when the
      product was first added to the cart. */
  datatype OrderItem = OrderItem(productId: string, quantity: int, price: int, name: string)

  datatype Status = Pending | Shipped | Delivered | Cancelled

  /** A placed order; `createdAt` is the clock reading at checkout, in milliseconds. */
  datatype Order = Order(
    id: string,
    customerName: string,
    phone: string,
    address: string,
    items: seq<OrderItem>,
    total: int,
    status: Status,
    createdAt: int)

  datatype Role = Admin | Manager

  /** A dashboard account; the password is optional, as in the source record. */
  datatype AdminUser = AdminUser(
    id: string,
    username: string,
    password: Option<string>,
    role: Role,
    name: string)

  /** The details typed into the checkout form. */
  datatype Customer = Customer(name: string, phone: string, address: string)

  // The key each list is filtered on.
  function ProductKey(p: Product): string { p.id }
  function LineKey(l: OrderItem): string { l.productId }
  function UserKey(a: AdminUser): string { a.id }
}
