/**
 * The stored records (package entity). Ids are the text of a UUID; pointer
 * fields that may be nil are `Option`s; times are abstract instants.
 */
module Entity {
  import opened Wrappers

  /** An instant as returned by `time.Now()`; the core only stores them. */
  type Time = int

  /** Audit trail carried by every record: a version number that starts at 1
      and grows by one per update, who created and who last updated it, and
      the reason attached to the log snapshot taken before a change. */
  datatype Audit = Audit(
    currNo: int,
    createdAt: Option<Time>,
    createdBy: string,
    updatedAt: Option<Time>,
    updatedBy: string,
    logReason: Option<string>)

  datatype ShippingAddress = ShippingAddress(
    id: string,
    labelAddress: string,
    address: string,
    receiverName: string,
    receiverContact: string,
    notes: string,
    isMain: bool)

  /** An administrator. The Go struct has no Session column although the
      services read and write one; the model gives it one. */
  datatype User = User(
    id: string,
    name: string,
    email: string,
    password: string,
    lastLoginDate: Option<Time>,
    session: string,
    audit: Audit)

  /** A snapshot of a user, keyed "<id>-<CurrNo>". */
  datatype UserLog = UserLog(
    id: string,
    name: string,
    email: string,
    password: string,
    lastLoginDate: Option<Time>,
    session: string,
    audit: Audit)

  datatype Customer = Customer(
    id: string,
    name: string,
    username: string,
    email: string,
    password: string,
    shippingAddress: seq<ShippingAddress>,
    phoneNumber: string,
    lastLoginDate: Option<Time>,
    session: string,
    audit: Audit)

  /** A snapshot of a customer, keyed "<id>-<CurrNo>". */
  datatype CustomerLog = CustomerLog(
    id: string,
    name: string,
    username: string,
    email: string,
    password: string,
    shippingAddress: seq<ShippingAddress>,
    phoneNumber: string,
    lastLoginDate: Option<Time>,
    session: string,
    audit: Audit)

  datatype Category = Category(
    id: string,
    name: string,
    isActive: bool,
    audit: Audit)

  datatype CategoryLog = CategoryLog(
    id: string,
    name: string,
    isActive: bool,
    audit: Audit)

  /** A product. The cart engine checks a soft-deletion flag
      (`DeletedAt.Valid`) that the Go struct does not declare; the model
      carries it as `deleted`, and no operation of the core sets it. The
      price is an integer, as the cart engine multiplies it. */
  datatype Product = Product(
    id: string,
    name: string,
    qty: int,
    price: int,
    description: string,
    isActive: bool,
    categoryId: string,
    deleted: bool,
    audit: Audit)

  datatype ProductLog = ProductLog(
    id: string,
    name: string,
    qty: int,
    price: int,
    description: string,
    categoryId: string,
    isActive: bool,
    audit: Audit)

  /** One line of a cart. */
  datatype CartProduct = CartProduct(productId: string, qty: int, notes: string)

  /** A customer's cart: its lines in order and the cached total. */
  datatype Cart = Cart(id: string, products: seq<CartProduct>, total: int, customerId: string)
}
