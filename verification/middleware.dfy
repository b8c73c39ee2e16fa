/**
 * The session gate (controller/middleware.go). Three copies of one
 * decision guard the routes: `userController.middlewareCheckAuth` and
 * `categoryController.middlewareCheckAuthAdmin` admit administrators,
 * `categoryController.middlewareCheckAuth` was meant to admit any actor.
 * Each reads the "Authorization" and "x-consumer-id" headers, looks the
 * actor up with the user service, verifies the bearer token, and admits the
 * request only if the token's subject is the consumer and the token's third
 * segment is the session stored at the actor's last login.
 *
 * `Gate` is the decision, pure, with the copies told apart by `admin`;
 * the controller classes carry it out, including the one write it can
 * cause: clearing a stored session when the token has expired.
 */
module Middleware {
  import opened Wrappers
  import opened GoStrings
  import opened Jwt
  import opened Entity
  import opened Model
  import opened Repository
  import opened UserServiceImpl
  import opened CustomerServiceImpl

  /** What the gate does with a request: pass it on with a context, deny
      it with HTTP 401 and an error body, or panic. */
  datatype Outcome = Allow(ctx: UserContext) | Deny(body: Error) | Crash

  /** The gate's decision: an outcome, or first clear a stored session
      (of a user or of a customer) and then deny. */
  datatype Decision = Reply(outcome: Outcome) | ClearUser(id: string) | ClearCustomer(id: string)

  // The error bodies of the gate, all sent with HTTP status 401.
  const NotAuthorized := Error("401", "Not Authorized")
  const GateInternal := Error("500", "Internal server error")
  const InvalidToken := Error("401", "Invalid Token")
  const Unauthorized := Error("401", "Unauthorized")

  /** The token of an Authorization header "Bearer <token>": the header must
      split on ' ' into exactly two pieces, the first "Bearer". An empty
      header splits into one piece. */
  function BearerToken(auth: string): Option<string> {
    var parts := Split(auth, ' ');
    if |parts| != 2 || parts[0] != "Bearer" then None else Some(parts[1])
  }

  /** Exactly the headers "Bearer " followed by a token without spaces are
      accepted, and the token is what follows the space. */
  lemma BearerTokenIff(auth: string, tok: string)
    ensures BearerToken(auth) == Some(tok) <==> (auth == "Bearer " + tok && ' ' !in tok)
  {
    SplitTwo(auth, ' ', "Bearer", tok);
    assert "Bearer" + [' '] + tok == "Bearer " + tok;
  }

  /** The context an admitted request carries. The administrator copies
      mark it as admin and leave its session empty; the any-actor copy
      marks it as not admin and copies the stored session. The configured
      default email shows as "SUPER ADMIN". */
  function Context(admin: bool, sub: string, tok: string, u: DataUserResponse, defaultEmail: string): (ctx: UserContext)
    ensures ctx.userID == sub && ctx.token == tok && ctx.isAdmin == admin
    ensures ctx.name == u.name && ctx.email == u.email
    ensures u.email == defaultEmail ==> ctx.username == "SUPER ADMIN"
    ensures u.email != defaultEmail ==> ctx.username == u.email
    ensures ctx.session == if admin then "" else u.session
  {
    UserContext(sub, u.name, if u.email == defaultEmail then "SUPER ADMIN" else u.email, u.email, tok, admin,
                if admin then "" else u.session)
  }

  /** The decision of the gate, its checks in their order: header, lookup
      (`found` is what `GetUser(consumer)` returned; it reports a missing
      user as an error, so None takes the error branch), verification,
      subject, session. */
  function Gate(admin: bool, auth: string, consumer: string, found: Option<DataUserResponse>,
                verify: string -> Verdict, defaultEmail: string): (d: Decision)
    // the header is checked before anything is looked up
    ensures BearerToken(auth).None? <==> d == Reply(Deny(NotAuthorized))
    ensures BearerToken(auth).Some? && found.None? ==> d == Reply(Deny(GateInternal))
    ensures BearerToken(auth).Some? && found.Some? ==>
      var tok, u := BearerToken(auth).value, found.value;
      // admitted exactly when the subject is the consumer and the session matches
      && (d.Reply? && d.outcome.Allow? <==>
            (Parse(verify, tok) == Some(Verified(Some(consumer))) && u.session == Fingerprint(tok)))
      && (d.Reply? && d.outcome.Allow? ==> d.outcome.ctx == Context(admin, consumer, tok, u, defaultEmail))
      // a token with a wrong number of segments makes the request panic
      && (d == Reply(Crash) <==> Parse(verify, tok).None?)
      // an expired token clears a non-empty stored session, and nothing else writes
      && (d.ClearUser? <==> admin && Parse(verify, tok) == Some(Expired) && u.session != "")
      && (d.ClearCustomer? <==> !admin && Parse(verify, tok) == Some(Expired) && u.session != "")
      && (d.ClearUser? ==> d.id == u.id)
      && (d.ClearCustomer? ==> d.id == consumer)
      && (Parse(verify, tok) == Some(Invalid) ==> d == Reply(Deny(InvalidToken)))
      && (Parse(verify, tok) == Some(Expired) && u.session == "" ==> d == Reply(Deny(InvalidToken)))
      // a token of someone else, or one that is not the latest session, is refused
      && (forall s :: Parse(verify, tok) == Some(Verified(Some(s))) && s != consumer ==> d == Reply(Deny(Unauthorized)))
      && (Parse(verify, tok) == Some(Verified(Some(consumer))) && u.session != Fingerprint(tok) ==>
            d == Reply(Deny(Unauthorized)))
      && (Parse(verify, tok) == Some(Verified(None)) ==> d == Reply(Deny(GateInternal)))
  {
    match BearerToken(auth)
    case None => Reply(Deny(NotAuthorized))
    case Some(tok) =>
      if found.None? then Reply(Deny(GateInternal))
      else
        var u := found.value;
        match Parse(verify, tok)
        case None => Reply(Crash)
        case Some(Expired) =>
          if u.session == "" then Reply(Deny(InvalidToken))
          else if admin then ClearUser(u.id)
          else ClearCustomer(consumer)
        case Some(Invalid) => Reply(Deny(InvalidToken))
        case Some(Verified(sub)) =>
          if sub.None? then Reply(Deny(GateInternal))
          else if consumer != sub.value then Reply(Deny(Unauthorized))
          else if u.session != Fingerprint(tok) then Reply(Deny(Unauthorized))
          else Reply(Allow(Context(admin, sub.value, tok, u, defaultEmail)))
  }

  /** The token of the actor's latest login is admitted: after a login that
      issued `j` and stored its fingerprint, a request bearing `j` for the
      token's own subject passes. */
  lemma LatestLoginAdmitted(admin: bool, j: Jws, u: DataUserResponse, consumer: string,
                            verify: string -> Verdict, defaultEmail: string)
    requires WellFormed(j)
    requires u.session == j.signature
    requires verify(Compact(j)) == Verified(Some(consumer))
    ensures Gate(admin, "Bearer " + Compact(j), consumer, Some(u), verify, defaultEmail)
         == Reply(Allow(Context(admin, consumer, Compact(j), u, defaultEmail)))
  {
    CompactSegments(j);
    BearerTokenIff("Bearer " + Compact(j), Compact(j));
  }

  /** A token replaced by a later login is refused, even while its
      signature still verifies: the stored session is the later token's. */
  lemma SupersededTokenDenied(admin: bool, earlier: Jws, later: Jws, u: DataUserResponse, consumer: string,
                              verify: string -> Verdict, defaultEmail: string)
    requires WellFormed(earlier) && WellFormed(later)
    requires earlier.signature != later.signature
    requires u.session == later.signature
    requires verify(Compact(earlier)) == Verified(Some(consumer))
    ensures Gate(admin, "Bearer " + Compact(earlier), consumer, Some(u), verify, defaultEmail)
         == Reply(Deny(Unauthorized))
  {
    CompactSegments(earlier);
    BearerTokenIff("Bearer " + Compact(earlier), Compact(earlier));
  }

  /** With the user as `GetUser` builds it as written (no session), the gate
      can never clear a session, and it refuses every token a login issues,
      since a login's token has a non-empty signature. */
  lemma GateAsWrittenLocksOut(admin: bool, j: Jws, user: User, consumer: string,
                              verify: string -> Verdict, defaultEmail: string)
    requires WellFormed(j) && j.signature != ""
    ensures var d := Gate(admin, "Bearer " + Compact(j), consumer, Some(UserViewAsWritten(user)), verify, defaultEmail);
      !d.ClearUser? && !d.ClearCustomer? && !(d.Reply? && d.outcome.Allow?)
  {
    CompactSegments(j);
    BearerTokenIff("Bearer " + Compact(j), Compact(j));
  }

  /** The controller of the user routes with its administrator gate. */
  class UserController {
    const service: UserService

    constructor (service: UserService)
      ensures this.service == service
    {
      this.service := service;
    }

    /** `userController.middlewareCheckAuth`: the decision of `Gate` for
        administrators, with an expired token's stored session cleared
        before the denial. It runs on the corrected user view from
        `GetUser`; with the view as written the gate admits no token and
        clears no session (`GateAsWrittenLocksOut`). */
    method CheckAuth(auth: string, consumer: string, verify: string -> Verdict, defaultEmail: string)
      returns (o: Outcome)
      requires service.repo.Valid()
      modifies service.repo
      ensures service.repo.Valid() && service.repo.logs == old(service.repo.logs)
      ensures
        var found := if consumer in old(service.repo.rows) then Some(UserView(old(service.repo.rows)[consumer])) else None;
        var d := Gate(true, auth, consumer, found, verify, defaultEmail);
        && (d.Reply? ==> o == d.outcome && service.repo.rows == old(service.repo.rows))
        && (d.ClearUser? ==>
              (o == Deny(InvalidToken) && d.id == consumer &&
               service.repo.rows == old(service.repo.rows)[consumer := old(service.repo.rows)[consumer].(session := "")]))
        && !d.ClearCustomer?
    {
      var tok := BearerToken(auth);
      if tok.None? {
        return Deny(NotAuthorized);
      }
      var r := service.GetUser(consumer);
      var found := if r.Ok? then Some(r.value) else None;
      var d := Gate(true, auth, consumer, found, verify, defaultEmail);
      match d {
        case Reply(outcome) =>
          o := outcome;
        case ClearUser(id) =>
          var err := service.UpdateSesionUser(UpdateSessionRequest(id, ""));
          o := if err.Some? then Deny(GateInternal) else Deny(InvalidToken);
        case ClearCustomer(_) =>
          assert false;
      }
    }
  }

  /** The controller of the category routes, with its two gates. */
  class CategoryController {
    const users: UserService
    const customers: CustomerService

    constructor (users: UserService, customers: CustomerService)
      ensures this.users == users && this.customers == customers
    {
      this.users := users;
      this.customers := customers;
    }

    /** `categoryController.middlewareCheckAuthAdmin`: the same decision as
        the user routes' gate, on the same corrected user view. */
    method CheckAuthAdmin(auth: string, consumer: string, verify: string -> Verdict, defaultEmail: string)
      returns (o: Outcome)
      requires users.repo.Valid()
      modifies users.repo
      ensures users.repo.Valid() && users.repo.logs == old(users.repo.logs)
      ensures
        var found := if consumer in old(users.repo.rows) then Some(UserView(old(users.repo.rows)[consumer])) else None;
        var d := Gate(true, auth, consumer, found, verify, defaultEmail);
        && (d.Reply? ==> o == d.outcome && users.repo.rows == old(users.repo.rows))
        && (d.ClearUser? ==>
              (o == Deny(InvalidToken) && d.id == consumer &&
               users.repo.rows == old(users.repo.rows)[consumer := old(users.repo.rows)[consumer].(session := "")]))
    {
      var tok := BearerToken(auth);
      if tok.None? {
        return Deny(NotAuthorized);
      }
      var r := users.GetUser(consumer);
      var found := if r.Ok? then Some(r.value) else None;
      var d := Gate(true, auth, consumer, found, verify, defaultEmail);
      match d {
        case Reply(outcome) =>
          o := outcome;
        case ClearUser(id) =>
          var err := users.UpdateSesionUser(UpdateSessionRequest(id, ""));
          o := if err.Some? then Deny(GateInternal) else Deny(InvalidToken);
        case ClearCustomer(_) =>
          assert false;
      }
    }

    /** `categoryController.middlewareCheckAuth`, meant for any actor. Only
        users get past the lookup (a customer id is not a user, and
        `GetUser` reports that as an error), the context is never marked
        admin, and an expired token clears the session of the CUSTOMER with
        the consumer's id: the user's own session is never cleared here.
        Like the other gates it runs on the corrected user view; as written
        the stored session reaches the gate as "", so an expired token is
        answered "Invalid Token" with no write, and a valid one is refused
        as Unauthorized (`GateAsWrittenLocksOut`). */
    method CheckAuth(auth: string, consumer: string, verify: string -> Verdict, defaultEmail: string)
      returns (o: Outcome)
      requires users.repo.Valid() && customers.repo.Valid()
      modifies customers.repo
      ensures customers.repo.Valid() && customers.repo.logs == old(customers.repo.logs)
      ensures
        var found := if consumer in users.repo.rows then Some(UserView(users.repo.rows[consumer])) else None;
        var d := Gate(false, auth, consumer, found, verify, defaultEmail);
        && (d.Reply? ==> o == d.outcome && customers.repo.rows == old(customers.repo.rows))
        && (d.ClearCustomer? && consumer in old(customers.repo.rows) ==>
              o == Deny(InvalidToken) && customers.repo.rows == WithSession(old(customers.repo.rows), consumer, ""))
        && (d.ClearCustomer? && consumer !in old(customers.repo.rows) ==>
              o == Deny(GateInternal) && customers.repo.rows == old(customers.repo.rows))
        && !d.ClearUser?
    {
      var tok := BearerToken(auth);
      if tok.None? {
        return Deny(NotAuthorized);
      }
      var r := users.GetUser(consumer);
      var found := if r.Ok? then Some(r.value) else None;
      var d := Gate(false, auth, consumer, found, verify, defaultEmail);
      match d {
        case Reply(outcome) =>
          o := outcome;
        case ClearUser(_) =>
          assert false;
        case ClearCustomer(id) =>
          var err := customers.UpdateSesion(UpdateSessionRequest(id, ""));
          o := if err.Some? then Deny(GateInternal) else Deny(InvalidToken);
      }
    }
  }
}
