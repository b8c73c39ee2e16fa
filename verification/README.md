# A verified model of the shop back end's services and session gate

The system is an HTTP back end for a small shop. It is written in Go on top
of Echo, GORM and golang-jwt. Its core is:

- **Five service objects.** Users (administrators), customers, categories,
  products and carts. Each one sits over a repository of database rows.
- **An audit trail.** Every change to a user, customer, category or product
  first writes a snapshot of the old version into a log table. The snapshot
  is keyed `"<id>-<CurrNo>"`. The new version then carries `CurrNo + 1`.
- **Login sessions.** A login stores the third segment of the freshly
  signed JWS (the signature) in the account's `Session` field. Only a token
  whose signature equals the stored session is accepted. A newer login
  therefore supersedes every older token, and an expired token clears the
  session.
- **The authentication middleware.** It parses the `Authorization: Bearer`
  header, looks up the account and checks the token. It then checks that
  the token belongs to the account and is the latest session, and builds
  the request's user context.
- **The cart.** Adding an item merges it into the customer's cart after
  stock checks and recomputes the cart's total. Reading the cart partitions
  its lines into available and unavailable products.

## How the model is built

- **Repositories** are classes in `repository.dfy`. Each holds its rows
  (and its log rows) as a `map` keyed by id. Methods change the map in
  place, under `modifies`. `Valid()` holds the table's keys and the
  uniqueness constraints declared on the entities. Examples: unique user
  email, unique customer email and username, and a unique email on the
  user *log* table as well.
- **Services** are classes holding their repositories as `const` fields.
  Each Go service method is a method whose `ensures` state, branch by
  branch, the error returned, when the call succeeds and the new table
  contents. Two contracts leave a choice open where the code does not fix
  it: which duplicate `CreateCustomer` reports when the email and the
  username belong to different rows, and the `%d` comparison of
  `UpdateCustomer` for ids that are not UUID text (see "## Left out").
  The pure parts are functions with their own contracts: response views,
  log snapshots, pagination, the creator stamp, the email-uniqueness
  decisions and the cart arithmetic.
- **The middleware** is one pure decision function, `Middleware.Gate`,
  shared by the three Go middlewares. It returns either a reply or a
  request to clear a stored session. Controller classes run it and perform
  the session write.
- **Library behaviour the code depends on** is modelled exactly:
  - `strings.Split` on one character (`GoStrings.Split`);
  - `fmt.Sprintf("%d", …)` on an integer (`GoStrings.NatToDecimal`) and on
    a `uuid.UUID` (`Uuid.PercentD`, which prints the 16 bytes as
    `[b0 b1 … b15]`);
  - the compact JWS form and its segments (`Jwt`).
- **Abstracted:**
  - password hashing becomes a `hashed: Option<string>` input and a
    `matches` predicate;
  - token signing becomes an `issued: Option<Jws>` input;
  - token verification becomes a `verify: string -> Verdict` function;
  - the clock becomes a `now` input and fresh UUIDs a `newId` input;
  - the filtered database listing becomes a `list` function returning rows
    and a total, or a failure.

Some behaviour the model keeps as the code has it:

- The user log table declares `Email` unique (`entity/user.go:21`), and
  every snapshot of a user carries that user's current email. Once the log
  holds a snapshot with a user's current email, any later `UpdateUser` or
  `DeleteUser` of that user fails with an internal error. `UserService.SaveLog`,
  `UserService.UpdateUser` and `UserService.DeleteUser` state this
  condition outright.
- The cart total that `AddItemCart` stores prices every line at the price
  of the product being added (`service/cart_service_impl.go:92`, `:101`).
  `AddItem` states this: total = price × sum of quantities.
- The any-actor middleware (`controller/middleware.go:120-247`) looks the
  caller up among users. A caller who is not a user is refused with "500
  Internal server error", because `GetUser` reports a missing user as an
  error. The branch for a missing user that reads the customer table is
  therefore unreachable.
- What that middleware does with a user's expired token depends on
  `GetUser`'s response. As written the response has an empty session, so
  the gate answers "Invalid Token" and writes nothing, and a valid token is
  refused as "Unauthorized" (`Middleware.GateAsWrittenLocksOut`). With the
  corrected response the model uses, a user's expired token is treated as
  a non-admin's, so the session write goes to the customer table. There it
  finds no such customer and ends in "500".
- The customer `UpdateCustomer` has the same `%d` comparison as
  `UpdateUser` (`service/customer_service_impl.go:314`). It is only
  reached when the email changes, so there it rejects every email that
  already has an owner, which is the intended outcome.

Where the code evidently means something other than what it does, both
versions are in the model (see "## Findings"):

- **`GetUser` and `UpdateUser`.** As written, every administrator is locked
  out, and every user update that keeps the user's email (or takes an owned
  one) is refused; only a move to an email nobody holds gets through. The
  user service therefore uses
  the corrected definitions (`UserView`, `EmailTaken`), so that the gate
  and the session lifecycle can be stated at all.
- **The two cart defects.** These are modelled as written in the
  `CartService` methods. The intended versions (`NewLinesIntended`,
  `AddItemIntended`, `CartView`) stand beside them with their properties
  proved.

## Model

| member | source | states |
|---|---|---|
| GoStrings.Split | controller/middleware.go:28-38 | `strings.Split` on one character: at least one piece, no piece contains the separator |
| GoStrings.JoinSplit | controller/middleware.go:92-93 | joining the pieces of a split with the separator gives the string back |
| GoStrings.SplitJoin | service/user_service_impl.go:196-198 | splitting the join of separator-free pieces gives the pieces back |
| GoStrings.JoinAvoids | controller/middleware.go:28-38 | a character in no piece and different from the separator is not in the join |
| GoStrings.SplitTwo | controller/middleware.go:28-38 | a string splits into exactly `[a, b]` iff it is `a`, separator, `b` with no separator in `a` or `b` |
| GoStrings.NatToDecimal | service/user_service_impl.go:211 | `%d` of a natural number is a non-empty string of decimal digits |
| GoStrings.IntToDecimal | service/user_service_impl.go:211 | `%d` of any integer is non-empty, starts with '-' iff the integer is negative, and is otherwise decimal digits |
| GoStrings.NatToDecimalInjective | service/user_service_impl.go:211 | different numbers print differently under `%d` |
| Uuid.PercentD | service/user_service_impl.go:242 | `%d` of a UUID is '[' and ']' around decimal digits and spaces; for an id in text form, the space-separated decimal bytes of its hex digits |
| Uuid.TextSixteenBytes | service/user_service_impl.go:242 | an id in 8-4-4-4-12 text form holds 32 hex digits, so `%d` prints 16 bytes |
| Uuid.PercentDIsNeverText | service/user_service_impl.go:242 | `%d` of a UUID never equals a UUID in 8-4-4-4-12 text form |
| Jwt.CompactSegments | service/user_service_impl.go:196-198 | a compact JWS splits on '.' into header, payload and signature, its fingerprint is the signature, and it contains no space |
| Jwt.DistinctSignaturesDistinctFingerprints | controller/middleware.go:92-96 | tokens with different signatures have different session fingerprints |
| Jwt.Parse | controller/middleware.go:52-57 | the parser yields a verdict exactly when the token has three segments, and that verdict is the library's verdict on the token |
| Model.Paginate | service/user_service_impl.go:142-150 | page 0 becomes 1 and limit 0 becomes 10, other values are kept, and offset = (page − 1) × limit |
| Model.Creator | service/customer_service_impl.go:61-66 | "SYSTEM" when no user id, otherwise the user id followed by '\|' |
| Model.LogKeyInjective | service/user_service_impl.go:211 | two log keys of same-length ids are equal only for the same record and version |
| Model.MapRows | service/user_service_impl.go:160-168 | the response list has one view per row, in order |
| Repository.UserRepository.constructor | repository/user_repository_impl.go:21-25 | an empty, valid user table |
| Repository.UserRepository.Get | repository/user_repository_impl.go:58-67 | the row with that id, or nothing |
| Repository.UserRepository.GetByEmail | repository/user_repository_impl.go:69-78 | nothing iff no row has the email; otherwise a stored row with that email |
| Repository.UserRepository.Create | repository/user_repository_impl.go:27-36 | inserts iff the id is new and the email unused; otherwise nothing changes |
| Repository.UserRepository.CreateLog | repository/user_repository_impl.go:38-46 | inserts the snapshot iff its key is new and its email unused in the log |
| Repository.UserRepository.Update | repository/user_repository_impl.go:175-183 | saves the row iff no other row has its email |
| Repository.UserRepository.Delete | repository/user_repository_impl.go:48-56 | removes the row, nothing else changes |
| Repository.CustomerRepository.constructor | repository/customer_repository_impl.go:21-25 | an empty, valid customer table |
| Repository.CustomerRepository.Get | repository/customer_repository_impl.go:58-67 | the row with that id, or nothing |
| Repository.CustomerRepository.GetByEmail | repository/customer_repository_impl.go:69-78 | nothing iff no row has the email; otherwise a stored row with that email |
| Repository.CustomerRepository.GetByUsernameOrEmail | repository/customer_repository_impl.go:91-100 | nothing iff no row has the username or the email; otherwise a stored row matching one of them |
| Repository.CustomerRepository.Create | repository/customer_repository_impl.go:27-36 | inserts iff the id is new and the email and username are unused |
| Repository.CustomerRepository.CreateLog | repository/customer_repository_impl.go:38-46 | inserts the snapshot iff its key is new |
| Repository.CustomerRepository.Update | repository/customer_repository_impl.go:197-205 | saves the row iff no other row has its email or username |
| Repository.CustomerRepository.Delete | repository/customer_repository_impl.go:48-56 | removes the row, nothing else changes |
| Repository.CategoryRepository.constructor | repository/category_repository_impl.go:21-25 | an empty, valid category table |
| Repository.CategoryRepository.Get | repository/category_repository_impl.go:58-67 | the row with that id, or nothing |
| Repository.CategoryRepository.Create | repository/category_repository_impl.go:27-36 | inserts iff the id is new |
| Repository.CategoryRepository.CreateLog | repository/category_repository_impl.go:38-46 | inserts the snapshot iff its key is new |
| Repository.CategoryRepository.Update | repository/category_repository_impl.go:152-160 | replaces the stored row, nothing else changes |
| Repository.CategoryRepository.Delete | repository/category_repository_impl.go:48-56 | removes the row, nothing else changes |
| Repository.ProductRepository.constructor | repository/product_repository_impl.go:21-25 | an empty, valid product table over a category table |
| Repository.ProductRepository.Get | repository/product_repository_impl.go:58-67 | the row with that id, or nothing |
| Repository.ProductRepository.CategoryName | repository/product_repository_impl.go:58-67 | the name of the product's category as preloaded, empty when there is none |
| Repository.ProductRepository.Create | repository/product_repository_impl.go:27-36 | inserts iff the id is new |
| Repository.ProductRepository.CreateLog | repository/product_repository_impl.go:38-46 | inserts the snapshot iff its key is new |
| Repository.ProductRepository.Update | repository/product_repository_impl.go:162-170 | replaces the stored row, nothing else changes |
| Repository.ProductRepository.Delete | repository/product_repository_impl.go:48-56 | removes the row, nothing else changes |
| Repository.CartRepository.constructor | repository/cart_repository_impl.go:17-21 | an empty, valid cart table |
| Repository.CartRepository.Get | repository/cart_repository_impl.go:34-43 | the cart of that customer, or nothing |
| Repository.CartRepository.Create | repository/cart_repository_impl.go:23-32 | adds the customer's cart |
| Repository.CartRepository.Update | repository/cart_repository_impl.go:45-53 | replaces the customer's cart when it is the same cart |
| UserServiceImpl.UserViewAsWritten | service/user_service_impl.go:133-138 | the response as built: id and email copied, session left empty |
| UserServiceImpl.UserView | model/user.go:38-44 | the intended response: id, email and session copied |
| UserServiceImpl.UserLogOf | service/user_service_impl.go:209-219 | the snapshot is keyed "<id>-<CurrNo>" and carries the audit with the log reason |
| UserServiceImpl.EmailTakenAsWrittenRejectsOwner | service/user_service_impl.go:242 | as written, a user's own email is reported taken; the intended check accepts it |
| UserServiceImpl.UserService.constructor | service/user_service_impl.go:23-25 | the service over the given repository |
| UserServiceImpl.UserService.CreateUser | service/user_service_impl.go:32-68 | succeeds iff the email is unused, hashing succeeds and the id is new; then exactly the new row with a fresh "SYSTEM" audit is added; otherwise the error and no change |
| UserServiceImpl.UserService.SaveLog | service/user_service_impl.go:209-227 | logs the snapshot iff its key is new and its email unused in the log; rows unchanged |
| UserServiceImpl.UserService.DeleteUser | service/user_service_impl.go:70-95 | missing id gives not-found; otherwise snapshot then removal, and succeeds iff the snapshot can be logged |
| UserServiceImpl.UserService.GetUser | service/user_service_impl.go:124-139 | not-found iff the id is absent; otherwise the corrected view of the stored row, session included |
| UserServiceImpl.UserService.ListUser | service/user_service_impl.go:141-171 | pagination defaults, a listing failure gives an internal error, no rows give an empty result, otherwise one view per row and the listing's total |
| UserServiceImpl.UserService.LoginUser | service/user_service_impl.go:173-207 | unknown email gives not-found, a wrong password gives the password error, otherwise the token is returned and the row gets the login time and the token's signature as its session |
| UserServiceImpl.UserService.UpdateSesionUser | controller/middleware.go:59-64 | fails iff the user is missing; otherwise only that user's session changes |
| UserServiceImpl.UserService.UpdateUser | service/user_service_impl.go:229-280 | missing id gives data-not-found; another owner of the email gives email-exists; keeping one's own email (corrected behaviour: the code as written refuses it) succeeds iff the snapshot can be logged; on success the row has the new name and email and a bumped audit |
| CustomerServiceImpl.CustomerView | service/customer_service_impl.go:141-167 | the response copies id, username and email and leaves the session empty |
| CustomerServiceImpl.CustomerLogOf | service/customer_service_impl.go:268-289 | the snapshot is keyed "<id>-<CurrNo>" and carries the audit with the log reason |
| CustomerServiceImpl.EmailTakenWhenOwnedByOther | service/customer_service_impl.go:314 | as written, an owned email is always reported taken for a UUID-text id |
| CustomerServiceImpl.WithSession | service/customer_service_impl.go:358-376 | the same customers, only the given one's session replaced; writing the session a customer already has changes nothing |
| CustomerServiceImpl.CustomerService.constructor | service/customer_service_impl.go:24-26 | the service over the given repository |
| CustomerServiceImpl.CustomerService.CreateCustomer | service/customer_service_impl.go:33-89 | no session gives the session error; an owner of the email or username gives email- or username-exists; success iff both are free, hashing succeeds and the id is new; then exactly the new row stamped by its creator |
| CustomerServiceImpl.CustomerService.SaveLog | service/customer_service_impl.go:268-289 | logs the snapshot iff its key is new; rows unchanged |
| CustomerServiceImpl.CustomerService.DeleteCustomer | service/customer_service_impl.go:91-125 | session, admin and existence checks in order; past them, succeeds iff the snapshot can be logged, and then snapshot then removal; on failure nothing changes |
| CustomerServiceImpl.CustomerService.GetCustomer | service/customer_service_impl.go:141-167 | succeeds iff there is a session, the caller is an admin or the customer, and the row exists; then its view |
| CustomerServiceImpl.CustomerService.ListCustomer | service/customer_service_impl.go:189-230 | session and admin checks, then the paginated listing as for users |
| CustomerServiceImpl.CustomerService.LoginCustomer | service/customer_service_impl.go:232-266 | no match gives wrong-login; when every matching row refuses the password, the password error; when every matching row accepts it, the signed token (an internal error when signing fails); success only for a matching row, which gets the login time and the token's signature as its session |
| CustomerServiceImpl.CustomerService.UpdateCustomer | service/customer_service_impl.go:291-356 | session, ownership and existence checks; a changed email owned by a row gives email-exists; with the email free, succeeds iff the snapshot can be logged; on success snapshot then the new name and email with the updater stamp |
| CustomerServiceImpl.CustomerService.UpdateSesion | service/customer_service_impl.go:358-376 | fails iff the customer is missing; otherwise only that customer's session changes |
| CategoryServiceImpl.CategoryLogOf | service/category_service_impl.go:123-138 | the snapshot is keyed "<id>-<CurrNo>" and carries the audit with the log reason |
| CategoryServiceImpl.WithActiveDefault | service/category_service_impl.go:97-99 | a missing or null `is_active` filter becomes true, every other entry is kept; afterwards `is_active` is set and not null, so the default applies once |
| CategoryServiceImpl.CategoryService.constructor | service/category_service_impl.go:18-20 | the service over the given repository |
| CategoryServiceImpl.CategoryService.CreateCategory | service/category_service_impl.go:22-43 | succeeds iff the id is new; then an active category with a fresh "SYSTEM" audit |
| CategoryServiceImpl.CategoryService.SaveLog | service/category_service_impl.go:123-138 | logs the snapshot iff its key is new; rows unchanged |
| CategoryServiceImpl.CategoryService.DeleteCategory | service/category_service_impl.go:45-70 | missing id gives not-found; otherwise succeeds iff the snapshot can be logged; on success snapshot then removal |
| CategoryServiceImpl.CategoryService.GetCategory | service/category_service_impl.go:72-86 | not-found iff absent; otherwise the view of the row |
| CategoryServiceImpl.CategoryService.ListCategory | service/category_service_impl.go:88-121 | the listing is asked with the active-by-default filter, then paginated results as for users |
| CategoryServiceImpl.CategoryService.UpdateCategory | service/category_service_impl.go:140-180 | missing id gives data-not-found; otherwise succeeds iff the snapshot can be logged; on success snapshot then the new name and activity with a bumped audit |
| ProductServiceImpl.CategoryCheck | service/product_service_impl.go:28-38 | passes iff the category exists and is active; otherwise the matching error |
| ProductServiceImpl.ProductLogOf | service/product_service_impl.go:150-170 | the snapshot is keyed "<id>-<CurrNo>", carries the audit with the reason, and records the product as active |
| ProductServiceImpl.ProductService.constructor | service/product_service_impl.go:19-24 | the service over the given repositories, whose category table is the one the product repository preloads from |
| ProductServiceImpl.ProductService.CreateProduct | service/product_service_impl.go:26-64 | category checks first; success iff the category is active and the id new; then the active product with a fresh audit |
| ProductServiceImpl.ProductService.SaveLog | service/product_service_impl.go:150-170 | logs the snapshot iff its key is new; rows unchanged |
| ProductServiceImpl.ProductService.DeleteProduct | service/product_service_impl.go:66-91 | missing id gives not-found; otherwise succeeds iff the snapshot can be logged; on success snapshot then removal |
| ProductServiceImpl.ProductService.GetProduct | service/product_service_impl.go:93-112 | not-found iff absent; otherwise the view with the category name |
| ProductServiceImpl.ProductService.ListProduct | service/product_service_impl.go:114-148 | paginated results as for users, each with its category name |
| ProductServiceImpl.ProductService.UpdateProduct | service/product_service_impl.go:172-231 | missing id gives data-not-found; a changed category must exist and be active; past those checks, succeeds iff the snapshot can be logged; on success snapshot then the new fields with a bumped "SYSTEM" audit |
| CartServiceImpl.SumQtyAppend | service/cart_service_impl.go:79-102 | the quantity of a concatenation is the sum of the quantities |
| CartServiceImpl.PriceSumAppend | service/cart_service_impl.go:79-102 | the running total of a concatenation is the sum of the running totals |
| CartServiceImpl.PriceSumQty | service/cart_service_impl.go:92-111 | the loop's running total is the product's price times the total quantity |
| CartServiceImpl.NewLinesAsWrittenSum | service/cart_service_impl.go:104-112 | the appended line adds price × requested quantity exactly when the product was absent |
| CartServiceImpl.MergeAsWrittenAppend | service/cart_service_impl.go:79-102 | the merge loop over a concatenation is the concatenation of the merges |
| CartServiceImpl.MergeAsWrittenOne | service/cart_service_impl.go:80-100 | one turn emits the re-noted line, preceded by the merged line when the product matches |
| CartServiceImpl.NewLinesAsWrittenAbsent | service/cart_service_impl.go:79-112 | for a new product, the old lines are kept in order with the request's notes and the requested line is appended |
| CartServiceImpl.NewLinesIntendedTwice | service/cart_service_impl.go:79-112 | under the intended merge, adding q1 then q2 equals adding q1 + q2 once |
| CartServiceImpl.AddTwiceAsWritten | service/cart_service_impl.go:86-101 | as written, adding 4 to a line of 3 leaves lines of 7 and 3 (total 1000 at price 100), against one line of 7 (total 700) intended |
| CartServiceImpl.AddItem | service/cart_service_impl.go:50-116 | errors in the code's order (missing or deleted, inactive, insufficient, overflow on merge); succeeds iff the product is live, active and in stock and the cart is empty or no merged line overflows; an empty cart gets the one requested line; otherwise the merged lines; the total is price × total quantity |
| CartServiceImpl.AddItemIntended | service/cart_service_impl.go:50-116 | the corrected add succeeds iff the product is live, active, in stock and no merged line overflows; it keeps the cart's ids and the total relation, and with at most one line per product adds exactly the requested quantity |
| CartServiceImpl.NewLinesIntendedSum | service/cart_service_impl.go:79-112 | with at most one line per product, the intended merge adds exactly the requested quantity |
| CartServiceImpl.MergeIntendedSum | service/cart_service_impl.go:79-102 | the intended merge adds the quantity once per matching line |
| CartServiceImpl.HoldsCount | service/cart_service_impl.go:80-93 | the product is in the cart iff it has a positive number of lines |
| CartServiceImpl.Check | service/cart_service_impl.go:174-187 | missing iff no product row; available iff present, not deleted, active and in stock; otherwise the note the code writes |
| CartServiceImpl.PartitionShape | service/cart_service_impl.go:170-213 | the loop panics iff some line's product is missing; otherwise every line goes to exactly one side, the total is the sum of the available line totals, and only unavailable lines carry a note |
| CartServiceImpl.PartitionAppend | service/cart_service_impl.go:170-213 | partitioning a concatenation concatenates the partitions and adds the totals |
| CartServiceImpl.CartView | service/cart_service_impl.go:166-223 | the intended response: nothing iff a product is missing; otherwise same cart, every line shown once, total of the available lines |
| CartServiceImpl.CartViewAsWrittenIsEmpty | service/cart_service_impl.go:154-164 | as written, every cart is shown with no lines and total 0 |
| CartServiceImpl.GetCartHidesAvailableLine | service/cart_service_impl.go:154-164 | a cart with 2 available units at 50 shows total 100 intended and 0 as written |
| CartServiceImpl.CartService.constructor | service/cart_service_impl.go:19-21 | the service over the given repositories |
| CartServiceImpl.CartService.MergeLines | service/cart_service_impl.go:76-116 | the merge loop fails iff some matching line would exceed the stock; otherwise it yields the as-written lines and their running total |
| CartServiceImpl.CartService.AddItemCart | service/cart_service_impl.go:23-125 | no session gives the session error; the caller's cart is created when missing and then replaced by the outcome of `AddItem` when it succeeds |
| CartServiceImpl.CartService.Partition | service/cart_service_impl.go:170-213 | the loop's result is the partition specification of the lines |
| CartServiceImpl.CartService.GetCart | service/cart_service_impl.go:127-224 | no session gives the session error; the caller's cart is created when missing; the response is the as-written view, empty with total 0 |
| CartServiceImpl.CartService.ViewCart | service/cart_service_impl.go:166-223 | the partition loop computes the intended view of the cart |
| Middleware.BearerTokenIff | controller/middleware.go:28-38 | the header yields token `t` iff it is "Bearer " followed by `t` and `t` has no space |
| Middleware.Context | controller/middleware.go:99-113 | the context carries the token's subject, the token and the account's name and email; the username is "SUPER ADMIN" for the default email, otherwise the email |
| Middleware.Gate | controller/middleware.go:19-116 | no bearer header gives 401 Not Authorized; a lookup failure gives 500; allowed iff the token verifies for the caller and its signature is the stored session; a wrong segment count panics; an expired token clears a non-empty session; invalid gives Invalid Token; another subject or an old session gives Unauthorized |
| Middleware.LatestLoginAdmitted | controller/middleware.go:92-113 | a caller presenting the token of their latest login is admitted with the expected context |
| Middleware.SupersededTokenDenied | controller/middleware.go:92-96 | a token from an earlier login is refused once a later login has replaced the session |
| Middleware.GateAsWrittenLocksOut | service/user_service_impl.go:133-138 | with the session left out of the user response, the gate never admits a well-formed token and never clears a session |
| Middleware.UserController.constructor | controller/user_controller.go:12-18 | the controller over the user service |
| Middleware.UserController.CheckAuth | controller/middleware.go:19-116 | runs the gate on the corrected user view; an expired token clears that user's session and answers Invalid Token; nothing else is written |
| Middleware.CategoryController.constructor | controller/category_controller.go:12-22 | the controller over the user service and the customer service its middleware calls |
| Middleware.CategoryController.CheckAuthAdmin | controller/middleware.go:249-347 | the admin gate as for users, on the corrected user view: clears the user's session on expiry |
| Middleware.CategoryController.CheckAuth | controller/middleware.go:120-247 | the gate with the non-admin context, on the corrected user view: expiry with a stored session writes the customer table, answering Invalid Token when the customer exists and 500 when it does not (as written the session is "", so expiry answers Invalid Token and writes nothing) |

## Left out

- Password hashing (bcrypt, hex encoding), token signing and signature
  checking are inputs (`hashed`, `matches`, `issued`, `verify`), because
  they are cryptography in foreign libraries.
- Clocks and `uuid.New` are inputs (`now`, `newId`, `newCartId`).
- Logging is left out, and so is the text of every log message.
- The filtered, counted listing that the repositories build with GORM is an
  input function (`list`), because it is query construction inside the
  database library.
- Database and connection faults outside the modelled constraints are left
  out. `Update` in the cart and session paths never fails in the model.
- `uuid.MustParse` panics on a non-UUID caller id in the cart service. This
  is not modelled, because the id comes from a verified token.
- Concurrency between requests is left out, and so is Go's 64-bit
  wrap-around on prices and quantities (integers are unbounded).
- `GetCustomerByID` (`service/customer_service_impl.go:170-187`) is left
  out. It is a variant of `GetCustomer` without the session checks, and
  nothing in the core calls it.
- UpdateSesionUser: its Go body is not part of this model. It is modelled
  after the customer `UpdateSesion`, which the middleware uses the same
  way.
- `ListCategory` writes a default into the request's filter map. A nil map
  would panic (`service/category_service_impl.go:97-99`); the model treats
  the filter as a value.
- The category controller declares only a category service and a user
  service (`controller/category_controller.go:12-15`), yet its middleware
  calls a customer service (`controller/middleware.go:148`, `:200`). The
  model gives the controller the customer service that the middleware
  uses.
- Category deletion blocked by a product's foreign key is left out.
- The soft-delete timestamp is a `deleted` flag that no modelled operation
  sets, because the services delete rows outright.
- The difference between a JSON `null` list and `[]` in responses is left
  out.
- The "Invalid Token Claims" branch is left out. It is unreachable with
  the default claims type.
- The nil `err.Error()` and nil-token dereferences on a token that parses
  but is not valid are left out. A token with the wrong number of segments
  is modelled as `Crash`.
- CustomerServiceImpl.CustomerService.UpdateCustomer: the email-exists
  outcome is stated only for ids in UUID text form and a changed email. For
  other ids, whether `%d` of the owner can equal the request id is not
  characterised.
- Model.Creator: for a logged-in caller, only the prefix "<UserID>|" is
  stated, not the username after it.
- CustomerServiceImpl.CustomerService.CreateCustomer: when one row holds
  the email and another holds the username, the database may return either
  one. The contract allows both errors rather than fixing one.
- CartServiceImpl.AddItemIntended: the line contents are not stated in the
  contract. They are given by `NewLinesIntended` and its lemmas.
- UserServiceImpl.UserService.UpdateUser: runs the intended email check
  (`EmailTaken`), not the `%d` comparison written
  (`EmailTakenAsWritten`, Findings row 2), so a user may keep their own
  email; as written that update is refused with email-exists.
- UserServiceImpl.UserService.GetUser: runs on the corrected view
  (`UserView`, session copied), not the code as written, which leaves the
  session "" (`UserViewAsWritten`, Findings row 1).
- Middleware.UserController.CheckAuth: runs on the corrected user view. As
  written no token is admitted and the expiry write never happens
  (`Middleware.GateAsWrittenLocksOut`).
- Middleware.CategoryController.CheckAuthAdmin: runs on the corrected user
  view. As written it behaves as `UserController.CheckAuth` does as
  written: no token is admitted and nothing is written.
- Middleware.CategoryController.CheckAuth: runs on the corrected user view.
  As written an expired token is answered "Invalid Token" with no write,
  and a valid token is refused as "Unauthorized".

## Findings

| source | as written | input that shows it | evidently intended | confidence | as-written member | corrected member |
|---|---|---|---|---|---|---|
| service/user_service_impl.go:133-138 | `GetUser` builds its response without `Session`, and the middleware compares that empty session with the token's signature | an administrator logs in and presents the returned token | the response carries the stored session, so the latest login is admitted | high; not executed | Middleware.GateAsWrittenLocksOut | Middleware.LatestLoginAdmitted, UserServiceImpl.UserService.GetUser, Middleware.UserController.CheckAuth, Middleware.CategoryController.CheckAuthAdmin, Middleware.CategoryController.CheckAuth |
| service/user_service_impl.go:242 | the owner of the email is compared as `fmt.Sprintf("%d", id)`, which prints `[b0 … b15]`, with the request's id text | `UpdateUser` for a user who keeps their own email | compare the owner's id text, so a user may keep their own email | high; not executed | UserServiceImpl.EmailTakenAsWrittenRejectsOwner | UserServiceImpl.UserService.UpdateUser |
| service/cart_service_impl.go:96-101 | after appending the merged line, the loop also appends the old line, with no `continue` or `else` | a cart holding 3 of product P at price 100; add 4 of P | one line of 7 and total 700; as written, lines of 7 and 3 and total 1000 | high; not executed | CartServiceImpl.AddTwiceAsWritten | CartServiceImpl.NewLinesIntendedTwice |
| service/cart_service_impl.go:154 | the early return for "no lines" tests `len(cartData.Products) > 0` | a cart with 2 available units at price 50 | the lines partitioned with total 100; as written, nothing shown and total 0 | high; not executed | CartServiceImpl.GetCartHidesAvailableLine | CartServiceImpl.CartView |
