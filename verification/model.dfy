/**
 * Request, response and context types shared by the services and the
 * middleware (package model), the error values they return, and the
 * page/limit defaulting every list operation applies.
 */
module Model {
  import opened Wrappers
  import opened Entity
  import opened GoStrings

  /** `model.NewError(code, message)`. */
  datatype Error = Error(code: string, message: string)

  // Errors returned by the services.
  const InvalidSession := Error("401", "Invalid login session.")
  const Forbidden := Error("401", "Forbidden.")
  const InternalError := Error("500", "Internal server error.")
  const NotFound := Error("404", "Data not found.")
  const MissingForUpdate := Error("400", "Data not found.")
  const EmailExists := Error("400", "Email already exist.")
  const UsernameExists := Error("400", "Username already exist.")
  const WrongLogin := Error("404", "Wrong Email/Username.")
  const WrongPassword := Error("401", "Wrong Password")
  const CategoryNotFound := Error("400", "Category not found")
  const CategoryInactive := Error("400", "Category is not active")
  const ProductNotFound := Error("404", "Product is not found.")
  const ProductInactive := Error("404", "Product is not active or archived.")
  const InsufficientQty := Error("400", "Insufficient product quantity.")

  /** Who is calling: built by the middleware from the stored actor and the
      token, and read by the services. */
  datatype UserContext = UserContext(
    userID: string,
    name: string,
    username: string,
    email: string,
    token: string,
    isAdmin: bool,
    session: string)

  /** A value of the JSON `filters` object of a list request. */
  datatype FilterValue = Null | Bool(b: bool) | Number(n: int) | Text(s: string) | Values(items: seq<FilterValue>)

  type Filter = map<string, FilterValue>

  /** Page, limit and filters of the four list requests. */
  datatype ListRequest = ListRequest(page: int, limit: int, filter: Filter)

  /** What a repository's `List` answers: an error, or one page of rows and
      the count of all rows the filters select. */
  datatype ListAnswer<T> = ListFailed | Listed(rows: seq<T>, total: int)

  /** The page actually requested: page and limit after defaulting, and the
      number of rows to skip. */
  datatype Window = Window(page: int, limit: int, offset: int)

  /** Page 0 means page 1, limit 0 means 10, and the offset skips all
      earlier pages. */
  function Paginate(page: int, limit: int): (w: Window)
    ensures w.page != 0 && w.limit != 0
    ensures page != 0 ==> w.page == page
    ensures limit != 0 ==> w.limit == limit
    ensures w.offset == (w.page - 1) * w.limit
    ensures page == 0 ==> w.offset == 0
    ensures w.page >= 1 && w.limit >= 1 ==> w.offset >= 0
  {
    var p := if page == 0 then 1 else page;
    var l := if limit == 0 then 10 else limit;
    Window(p, l, (p - 1) * l)
  }

  /** Admin or the record's owner: who may read or change a customer. */
  predicate MaySee(ctx: UserContext, id: string) {
    ctx.isAdmin || ctx.userID == id
  }

  /** `CreatedBy` of a record created on behalf of `ctx`: the system when no
      one is logged in, otherwise "<UserID>|<Username>". */
  function Creator(ctx: UserContext): (author: string)
    ensures ctx.userID == "" ==> author == "SYSTEM"
    ensures ctx.userID != "" ==>
      |author| > |ctx.userID| && author[..|ctx.userID|] == ctx.userID && author[|ctx.userID|] == '|'
  {
    if ctx.userID != "" then ctx.userID + "|" + ctx.username else "SYSTEM"
  }

  /** The audit of a new record: version 1. */
  function Fresh(now: Time, author: string): Audit {
    Audit(1, Some(now), author, None, "", None)
  }

  /** The audit of the next version of a record: one more, the creation
      fields kept, the update fields set, no log reason. */
  function Bumped(a: Audit, now: Time, author: string): Audit {
    Audit(a.currNo + 1, a.createdAt, a.createdBy, Some(now), author, None)
  }

  /** The key of a log snapshot: `fmt.Sprintf("%s-%d", id, CurrNo)`. */
  function LogKey(id: string, currNo: int): string {
    id + "-" + IntToDecimal(currNo)
  }

  /** Snapshots of two different versions of the same record, or of the
      same version of records whose ids have the same length (UUID texts),
      never share a key. */
  lemma LogKeyInjective(id1: string, n1: nat, id2: string, n2: nat)
    requires |id1| == |id2|
    requires LogKey(id1, n1) == LogKey(id2, n2)
    ensures id1 == id2 && n1 == n2
  {
    var k1, k2 := LogKey(id1, n1), LogKey(id2, n2);
    assert k1[..|id1|] == id1;
    assert k2[..|id2|] == id2;
    assert k1[|id1| + 1..] == NatToDecimal(n1);
    assert k2[|id2| + 1..] == NatToDecimal(n2);
    NatToDecimalInjective(n1, n2);
  }

  /** The `for _, data := range rows { respData = append(respData, view(data)) }`
      loop every list operation ends with. */
  method MapRows<T, U>(rows: seq<T>, view: T -> U) returns (out: seq<U>)
    ensures |out| == |rows|
    ensures forall i :: 0 <= i < |rows| ==> out[i] == view(rows[i])
  {
    out := [];
    var i := 0;
    while i < |rows|
      invariant 0 <= i <= |rows|
      invariant |out| == i
      invariant forall k :: 0 <= k < i ==> out[k] == view(rows[k])
    {
      out := out + [view(rows[i])];
      i := i + 1;
    }
  }

  datatype CreateCustomerRequest = CreateCustomerRequest(
    name: string, email: string, password: string, username: string, phoneNumber: string)

  datatype LoginCustomerRequest = LoginCustomerRequest(username: string, email: string, password: string)

  datatype UpdateCustomerRequest = UpdateCustomerRequest(id: string, name: string, email: string)

  datatype UpdateSessionRequest = UpdateSessionRequest(id: string, session: string)

  datatype DataCustomerResponse = DataCustomerResponse(
    id: string,
    name: string,
    email: string,
    username: string,
    phoneNumber: string,
    lastLoginDate: Option<Time>,
    session: string)

  datatype CreateUserRequest = CreateUserRequest(name: string, email: string, password: string)

  datatype LoginUserRequest = LoginUserRequest(email: string, password: string)

  datatype UpdateUserRequest = UpdateUserRequest(id: string, name: string, email: string)

  datatype DataUserResponse = DataUserResponse(
    id: string,
    name: string,
    email: string,
    lastLoginDate: Option<Time>,
    session: string)

  datatype CreateProductRequest = CreateProductRequest(
    name: string, qty: int, price: int, description: string, categoryId: string)

  datatype UpdateProductRequest = UpdateProductRequest(
    id: string, name: string, isActive: bool, qty: int, price: int, description: string, categoryId: string)

  datatype DataProductResponse = DataProductResponse(
    id: string,
    name: string,
    isActive: bool,
    categoryId: string,
    categoryName: string,
    qty: int,
    price: int,
    description: string)

  datatype CreateCategoryRequest = CreateCategoryRequest(name: string)

  datatype UpdateCategoryRequest = UpdateCategoryRequest(id: string, name: string, isActive: bool)

  datatype DataCategoryResponse = DataCategoryResponse(id: string, name: string, isActive: bool)

  datatype AddItemCartRequest = AddItemCartRequest(productId: string, qty: int, notes: string)

  /** One line of a cart as shown to the customer (model.Product). */
  datatype CartItem = CartItem(
    id: string,
    name: string,
    qty: int,
    price: int,
    priceTotal: int,
    category: string,
    notes: string,
    systemNotes: string)

  datatype GetCartResponse = GetCartResponse(
    id: string,
    available: seq<CartItem>,
    unavailable: seq<CartItem>,
    total: int,
    customerId: string)
}
