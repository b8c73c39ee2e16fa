/**
 * The customer service (service/customer_service_impl.go): registration,
 * login, lookup, listing, update, deletion and session update of
 * customers. Every operation but login and session update reads the
 * caller's context, which the middleware attached to the request.
 */
module CustomerServiceImpl {
  import opened Wrappers
  import opened Entity
  import opened Model
  import opened Jwt
  import opened Uuid
  import opened Repository

  /** The response built from a stored customer; the session is not copied. */
  function CustomerView(c: Customer): (r: DataCustomerResponse)
    ensures r.id == c.id && r.username == c.username && r.email == c.email && r.session == ""
  {
    DataCustomerResponse(c.id, c.name, c.email, c.username, c.phoneNumber, c.lastLoginDate, "")
  }

  /** The log snapshot of `c` taken before a change, with its reason. */
  function CustomerLogOf(c: Customer, reason: string): (l: CustomerLog)
    ensures l.id == LogKey(c.id, c.audit.currNo)
    ensures l.audit == c.audit.(logReason := Some(reason))
  {
    CustomerLog(LogKey(c.id, c.audit.currNo), c.name, c.username, c.email, c.password, c.shippingAddress,
                c.phoneNumber, c.lastLoginDate, c.session, c.audit.(logReason := Some(reason)))
  }

  /** The clash check of `UpdateCustomer` as written (`%d` of the owner's
      id against the requested id). It is only reached when the email
      changes, so the owner is never the customer being updated and the
      check gives the intended answer. */
  function EmailTakenAsWritten(owner: Option<Customer>, reqId: string): bool {
    owner.Some? && PercentD(owner.value.id) != reqId
  }

  lemma EmailTakenWhenOwnedByOther(owner: Customer, reqId: string)
    requires IsText(reqId)
    ensures EmailTakenAsWritten(Some(owner), reqId)
  {
    PercentDIsNeverText(owner.id, reqId);
  }

  /** Setting one customer's session; the rest of the table is untouched,
      and setting the session a customer already has (ending a session
      twice) changes nothing. */
  function WithSession(rows: map<string, Customer>, id: string, session: string): (r: map<string, Customer>)
    requires id in rows
    ensures r.Keys == rows.Keys && r[id].session == session
    ensures r[id].(session := rows[id].session) == rows[id]
    ensures forall k :: k in rows && k != id ==> r[k] == rows[k]
    ensures rows[id].session == session ==> r == rows
  {
    rows[id := rows[id].(session := session)]
  }

  class CustomerService {
    const repo: CustomerRepository

    constructor (repo: CustomerRepository)
      ensures this.repo == repo
    {
      this.repo := repo;
    }

    /** `CreateCustomer`: rejects a taken email or username (the email
        first, for the row found), then stores version 1 created by the
        caller, or by the system when nobody is logged in. */
    method CreateCustomer(ctx: Option<UserContext>, req: CreateCustomerRequest, newId: string,
                          hashed: Option<string>, now: Time)
      returns (err: Option<Error>)
      requires repo.Valid()
      modifies repo
      ensures repo.Valid() && repo.logs == old(repo.logs)
      ensures ctx.None? ==> err == Some(InvalidSession)
      ensures err == Some(EmailExists) ==>
        exists k :: k in old(repo.rows) && old(repo.rows)[k].email == req.email
      ensures err == Some(UsernameExists) ==>
        exists k :: k in old(repo.rows) && old(repo.rows)[k].username == req.username && old(repo.rows)[k].email != req.email
      ensures ctx.Some? && (exists k :: k in old(repo.rows) && (old(repo.rows)[k].email == req.email || old(repo.rows)[k].username == req.username)) ==>
        err == Some(EmailExists) || err == Some(UsernameExists)
      ensures err.None? <==>
        && ctx.Some?
        && (forall k :: k in old(repo.rows) ==> old(repo.rows)[k].email != req.email && old(repo.rows)[k].username != req.username)
        && hashed.Some? && newId !in old(repo.rows)
      ensures err.None? ==>
        repo.rows == old(repo.rows)[newId := Customer(newId, req.name, req.username, req.email, hashed.value, [],
                                                      req.phoneNumber, None, "", Fresh(now, Creator(ctx.value)))]
      ensures err.Some? ==> repo.rows == old(repo.rows)
    {
      if ctx.None? {
        return Some(InvalidSession);
      }
      var existing := repo.GetByUsernameOrEmail(req.username, req.email);
      if existing.Some? {
        if existing.value.email == req.email {
          return Some(EmailExists);
        } else if existing.value.username == req.username {
          return Some(UsernameExists);
        }
      }
      if hashed.None? {
        return Some(InternalError);
      }
      var ok := repo.Create(Customer(newId, req.name, req.username, req.email, hashed.value, [],
                                     req.phoneNumber, None, "", Fresh(now, Creator(ctx.value))));
      err := if ok then None else Some(InternalError);
    }

    /** `saveLog`: writes the snapshot of `c` under "<id>-<CurrNo>". */
    method SaveLog(c: Customer, reason: string) returns (err: Option<Error>)
      requires repo.Valid()
      modifies repo
      ensures repo.Valid() && repo.rows == old(repo.rows)
      ensures err.None? <==> CustomerLogOf(c, reason).id !in old(repo.logs)
      ensures repo.logs == if err.None? then old(repo.logs)[CustomerLogOf(c, reason).id := CustomerLogOf(c, reason)] else old(repo.logs)
      ensures err.Some? ==> err == Some(InternalError)
    {
      var ok := repo.CreateLog(CustomerLogOf(c, reason));
      err := if ok then None else Some(InternalError);
    }

    /** `DeleteCustomer`: admins only; a missing customer is 404; the
        snapshot is logged first and a failed log leaves the customer. */
    method DeleteCustomer(ctx: Option<UserContext>, id: string) returns (err: Option<Error>)
      requires repo.Valid()
      modifies repo
      ensures repo.Valid()
      ensures ctx.None? ==> err == Some(InvalidSession)
      ensures ctx.Some? && !ctx.value.isAdmin ==> err == Some(Forbidden)
      ensures ctx.Some? && ctx.value.isAdmin && id !in old(repo.rows) ==> err == Some(NotFound)
      // past the checks, the delete succeeds exactly when the snapshot can be logged
      ensures ctx.Some? && ctx.value.isAdmin && id in old(repo.rows) ==>
        var snap := CustomerLogOf(old(repo.rows)[id], "Data dihapus oleh " + ctx.value.userID);
        && (err.None? <==> snap.id !in old(repo.logs))
        && (err.Some? ==> err == Some(InternalError))
      ensures err.None? ==>
        var snap := CustomerLogOf(old(repo.rows)[id], "Data dihapus oleh " + ctx.value.userID);
        && ctx.Some? && ctx.value.isAdmin && id in old(repo.rows)
        && snap.id !in old(repo.logs)
        && repo.rows == old(repo.rows) - {id} && repo.logs == old(repo.logs)[snap.id := snap]
      ensures err.Some? ==> repo.rows == old(repo.rows) && repo.logs == old(repo.logs)
    {
      if ctx.None? {
        return Some(InvalidSession);
      } else if !ctx.value.isAdmin {
        return Some(Forbidden);
      }
      var found := repo.Get(id);
      if found.None? {
        return Some(NotFound);
      }
      err := SaveLog(found.value, "Data dihapus oleh " + ctx.value.userID);
      if err.Some? {
        return;
      }
      repo.Delete(found.value);
    }

    /** `GetCustomer`: the caller must be an admin or the customer. */
    method GetCustomer(ctx: Option<UserContext>, id: string) returns (r: Result<DataCustomerResponse, Error>)
      requires repo.Valid()
      ensures ctx.None? ==> r == Err(InvalidSession)
      ensures ctx.Some? && !MaySee(ctx.value, id) ==> r == Err(Forbidden)
      ensures ctx.Some? && MaySee(ctx.value, id) && id !in repo.rows ==> r == Err(NotFound)
      ensures r.Ok? <==> ctx.Some? && MaySee(ctx.value, id) && id in repo.rows
      ensures r.Ok? ==> r.value.id == id && r.value == CustomerView(repo.rows[id])
    {
      if ctx.None? {
        return Err(InvalidSession);
      } else if !MaySee(ctx.value, id) {
        return Err(Forbidden);
      }
      var found := repo.Get(id);
      if found.None? {
        return Err(NotFound);
      }
      r := Ok(CustomerView(found.value));
    }

    /** `ListCustomer`: admins only; then the page the repository returns
        for the defaulted page/limit, mapped to responses. */
    method ListCustomer(ctx: Option<UserContext>, req: ListRequest, list: (int, int, Filter) -> ListAnswer<Customer>)
      returns (data: seq<DataCustomerResponse>, total: int, err: Option<Error>)
      ensures ctx.None? ==> data == [] && total == 0 && err == Some(InvalidSession)
      ensures ctx.Some? && !ctx.value.isAdmin ==> data == [] && total == 0 && err == Some(Forbidden)
      ensures ctx.Some? && ctx.value.isAdmin ==>
        var w := Paginate(req.page, req.limit);
        var answer := list(w.limit, w.offset, req.filter);
        if answer.ListFailed? then data == [] && total == 0 && err == Some(InternalError)
        else if answer.rows == [] then data == [] && total == 0 && err == None
        else (err == None && total == answer.total && |data| == |answer.rows| &&
              forall i :: 0 <= i < |data| ==> data[i] == CustomerView(answer.rows[i]))
    {
      if ctx.None? {
        return [], 0, Some(InvalidSession);
      } else if !ctx.value.isAdmin {
        return [], 0, Some(Forbidden);
      }
      var w := Paginate(req.page, req.limit);
      var answer := list(w.limit, w.offset, req.filter);
      if answer.ListFailed? {
        return [], 0, Some(InternalError);
      }
      if answer.rows == [] {
        return [], 0, None;
      }
      data := MapRows(answer.rows, CustomerView);
      total, err := answer.total, None;
    }

    /** `LoginCustomer`, by username or by email (exactly one is given, as
        the controller checks): on the right password the stored session
        becomes the new token's fingerprint and the last login time is set;
        every failure leaves the store as it was. */
    method LoginCustomer(req: LoginCustomerRequest, matches: (string, string) -> bool, issued: Option<Jws>, now: Time)
      returns (r: Result<string, Error>)
      requires repo.Valid()
      requires issued.Some? ==> WellFormed(issued.value)
      modifies repo
      ensures repo.Valid() && repo.logs == old(repo.logs)
      ensures (forall k :: k in old(repo.rows) ==> old(repo.rows)[k].username != req.username && old(repo.rows)[k].email != req.email) ==>
        r == Err(WrongLogin) && repo.rows == old(repo.rows)
      ensures r.Ok? ==> exists k :: (
        && k in old(repo.rows)
        && (old(repo.rows)[k].username == req.username || old(repo.rows)[k].email == req.email)
        && matches(old(repo.rows)[k].password, req.password) && issued.Some?
        && r.value == Compact(issued.value) && |Segments(r.value)| == 3
        && repo.rows == old(repo.rows)[k := old(repo.rows)[k].(lastLoginDate := Some(now), session := Fingerprint(r.value))])
      // every candidate row accepts the password: the login succeeds once a token is issued
      ensures (exists k :: k in old(repo.rows) && (old(repo.rows)[k].username == req.username || old(repo.rows)[k].email == req.email)) &&
              (forall k :: k in old(repo.rows) && (old(repo.rows)[k].username == req.username || old(repo.rows)[k].email == req.email) ==>
                 matches(old(repo.rows)[k].password, req.password)) ==>
        if issued.Some? then r == Ok(Compact(issued.value)) else r == Err(InternalError)
      // every candidate row refuses it: wrong password
      ensures (exists k :: k in old(repo.rows) && (old(repo.rows)[k].username == req.username || old(repo.rows)[k].email == req.email)) &&
              (forall k :: k in old(repo.rows) && (old(repo.rows)[k].username == req.username || old(repo.rows)[k].email == req.email) ==>
                 !matches(old(repo.rows)[k].password, req.password)) ==>
        r == Err(WrongPassword)
      ensures r.Err? ==> repo.rows == old(repo.rows)
      ensures r.Err? && r.error == WrongPassword ==>
        exists k :: k in old(repo.rows) && (old(repo.rows)[k].username == req.username || old(repo.rows)[k].email == req.email) &&
          !matches(old(repo.rows)[k].password, req.password)
    {
      var found := repo.GetByUsernameOrEmail(req.username, req.email);
      if found.None? {
        return Err(WrongLogin);
      }
      var c := found.value;
      if !matches(c.password, req.password) {
        return Err(WrongPassword);
      }
      if issued.None? {
        return Err(InternalError);
      }
      var token := Compact(issued.value);
      CompactSegments(issued.value);
      var ok := repo.Update(c.(lastLoginDate := Some(now), session := Fingerprint(token)));
      r := if ok then Ok(token) else Err(InternalError);
    }

    /** `UpdateCustomer`: admin or the customer; a new version with the
        requested name and email and everything else kept, logged first.
        The email is checked only when it changes. */
    method UpdateCustomer(ctx: Option<UserContext>, req: UpdateCustomerRequest, now: Time) returns (err: Option<Error>)
      requires repo.Valid()
      modifies repo
      ensures repo.Valid()
      ensures ctx.None? ==> err == Some(InvalidSession)
      ensures ctx.Some? && !MaySee(ctx.value, req.id) ==> err == Some(Forbidden)
      ensures ctx.Some? && MaySee(ctx.value, req.id) && req.id !in old(repo.rows) ==> err == Some(MissingForUpdate)
      ensures ctx.Some? && MaySee(ctx.value, req.id) && req.id in old(repo.rows) && IsText(req.id) &&
              old(repo.rows)[req.id].email != req.email &&
              (exists k :: k in old(repo.rows) && old(repo.rows)[k].email == req.email) ==>
        err == Some(EmailExists)
      // an email held by another customer is never taken over
      ensures ctx.Some? && MaySee(ctx.value, req.id) && req.id in old(repo.rows) &&
              (exists k :: k in old(repo.rows) && k != req.id && old(repo.rows)[k].email == req.email) ==>
        err == Some(EmailExists) || err == Some(InternalError)
      // a free email (or the customer's own): the update succeeds exactly when the snapshot can be logged
      ensures ctx.Some? && MaySee(ctx.value, req.id) && req.id in old(repo.rows) &&
              (forall k :: k in old(repo.rows) && k != req.id ==> old(repo.rows)[k].email != req.email) ==>
        var snap := CustomerLogOf(old(repo.rows)[req.id], "Perubahan data oleh " + ctx.value.userID);
        && (err.None? <==> snap.id !in old(repo.logs))
        && (err.Some? ==> err == Some(InternalError))
      ensures err.None? ==>
        var o := old(repo.rows)[req.id];
        var snap := CustomerLogOf(o, "Perubahan data oleh " + ctx.value.userID);
        && ctx.Some? && MaySee(ctx.value, req.id) && req.id in old(repo.rows)
        && repo.logs == old(repo.logs)[snap.id := snap]
        && repo.rows == old(repo.rows)[req.id := Customer(o.id, req.name, o.username, req.email, o.password, o.shippingAddress,
                                                          o.phoneNumber, o.lastLoginDate, o.session,
                                                          Bumped(o.audit, now, ctx.value.userID + "|" + ctx.value.username))]
      ensures err.Some? ==> repo.rows == old(repo.rows)
    {
      if ctx.None? {
        return Some(InvalidSession);
      } else if !MaySee(ctx.value, req.id) {
        return Some(Forbidden);
      }
      var found := repo.Get(req.id);
      if found.None? {
        return Some(MissingForUpdate);
      }
      var o := found.value;
      if req.email != o.email {
        var owner := repo.GetByEmail(req.email);
        if owner.Some? && IsText(req.id) {
          EmailTakenWhenOwnedByOther(owner.value, req.id);
        }
        if EmailTakenAsWritten(owner, req.id) {
          return Some(EmailExists);
        }
      }
      err := SaveLog(o, "Perubahan data oleh " + ctx.value.userID);
      if err.Some? {
        return;
      }
      var ok := repo.Update(Customer(o.id, req.name, o.username, req.email, o.password, o.shippingAddress,
                                     o.phoneNumber, o.lastLoginDate, o.session,
                                     Bumped(o.audit, now, ctx.value.userID + "|" + ctx.value.username)));
      err := if ok then None else Some(InternalError);
    }

    /** `UpdateSesion`: the session alone is replaced; a missing customer
        is 400 "Data not found.". */
    method UpdateSesion(req: UpdateSessionRequest) returns (err: Option<Error>)
      requires repo.Valid()
      modifies repo
      ensures repo.Valid() && repo.logs == old(repo.logs)
      ensures err.Some? <==> req.id !in old(repo.rows)
      ensures err.Some? ==> err == Some(MissingForUpdate) && repo.rows == old(repo.rows)
      ensures err.None? ==> repo.rows == WithSession(old(repo.rows), req.id, req.session)
    {
      var found := repo.Get(req.id);
      if found.None? {
        return Some(MissingForUpdate);
      }
      var ok := repo.Update(found.value.(session := req.session));
      err := if ok then None else Some(InternalError);
    }
  }
}
