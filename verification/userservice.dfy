/**
 * The administrator service (service/user_service_impl.go): registration,
 * login, lookup, listing, update and deletion of users, each update or
 * deletion preceded by a snapshot of the old record in the log table.
 * Password hashing, token signing and the clock are parameters.
 */
module UserServiceImpl {
  import opened Wrappers
  import opened Entity
  import opened Model
  import opened Jwt
  import opened Uuid
  import opened Repository

  /** The response `GetUser` and `ListUser` build from a stored user as the
      code is written: every field but the session, which stays "". */
  function UserViewAsWritten(u: User): (r: DataUserResponse)
    ensures r.session == ""
    ensures r.id == u.id && r.email == u.email
  {
    DataUserResponse(u.id, u.name, u.email, u.lastLoginDate, "")
  }

  /** The response `GetUser` is meant to give the middleware: the same, with
      the stored session, which the middleware compares with the token. */
  function UserView(u: User): (r: DataUserResponse)
    ensures r.session == u.session
    ensures r.id == u.id && r.email == u.email
  {
    DataUserResponse(u.id, u.name, u.email, u.lastLoginDate, u.session)
  }

  /** The log snapshot of `u` taken before a change, with its reason. */
  function UserLogOf(u: User, reason: string): (l: UserLog)
    ensures l.id == LogKey(u.id, u.audit.currNo)
    ensures l.audit == u.audit.(logReason := Some(reason))
  {
    UserLog(LogKey(u.id, u.audit.currNo), u.name, u.email, u.password, u.lastLoginDate, u.session,
            u.audit.(logReason := Some(reason)))
  }

  /** The email check of `UpdateUser` as written: the owner of the email is
      printed with `%d` before it is compared with the requested id. */
  function EmailTakenAsWritten(owner: Option<User>, reqId: string): bool {
    owner.Some? && PercentD(owner.value.id) != reqId
  }

  /** The intended check: the email belongs to some other user. */
  function EmailTaken(owner: Option<User>, reqId: string): bool {
    owner.Some? && owner.value.id != reqId
  }

  /** As written, an email that has an owner is always reported taken, even
      when the owner is the user being updated: a user whose id is the text
      of a UUID can never keep their own email. */
  lemma EmailTakenAsWrittenRejectsOwner(u: User)
    requires IsText(u.id)
    ensures EmailTakenAsWritten(Some(u), u.id)
    ensures !EmailTaken(Some(u), u.id)
  {
    PercentDIsNeverText(u.id, u.id);
  }

  class UserService {
    const repo: UserRepository

    constructor (repo: UserRepository)
      ensures this.repo == repo
    {
      this.repo := repo;
    }

    /** `CreateUser`: a fresh email gets a new user at version 1, created by
        the system. `hashed` is the stored form of the password, None when
        hashing fails. */
    method CreateUser(req: CreateUserRequest, newId: string, hashed: Option<string>, now: Time)
      returns (err: Option<Error>)
      requires repo.Valid()
      modifies repo
      ensures repo.Valid() && repo.logs == old(repo.logs)
      ensures (exists k :: k in old(repo.rows) && old(repo.rows)[k].email == req.email) ==>
        err == Some(EmailExists)
      ensures err.None? <==>
        (forall k :: k in old(repo.rows) ==> old(repo.rows)[k].email != req.email) &&
        hashed.Some? && newId !in old(repo.rows)
      ensures err.None? ==>
        repo.rows == old(repo.rows)[newId := User(newId, req.name, req.email, hashed.value, None, "", Fresh(now, "SYSTEM"))]
      ensures err.Some? ==> repo.rows == old(repo.rows)
      ensures err.Some? && err != Some(EmailExists) ==> err == Some(InternalError)
    {
      var existing := repo.GetByEmail(req.email);
      if existing.Some? {
        return Some(EmailExists);
      }
      if hashed.None? {
        return Some(InternalError);
      }
      var ok := repo.Create(User(newId, req.name, req.email, hashed.value, None, "", Fresh(now, "SYSTEM")));
      err := if ok then None else Some(InternalError);
    }

    /** `saveLog`: writes the snapshot of `u` under "<id>-<CurrNo>". */
    method SaveLog(u: User, reason: string) returns (err: Option<Error>)
      requires repo.Valid()
      modifies repo
      ensures repo.Valid() && repo.rows == old(repo.rows)
      ensures err.None? <==> (UserLogOf(u, reason).id !in old(repo.logs) &&
        forall k :: k in old(repo.logs) ==> old(repo.logs)[k].email != u.email)
      ensures repo.logs == if err.None? then old(repo.logs)[UserLogOf(u, reason).id := UserLogOf(u, reason)] else old(repo.logs)
      ensures err.Some? ==> err == Some(InternalError)
    {
      var ok := repo.CreateLog(UserLogOf(u, reason));
      err := if ok then None else Some(InternalError);
    }

    /** `DeleteUser`: a missing user is 404; otherwise the snapshot is
        logged first, and a failed log leaves the user in place. */
    method DeleteUser(id: string) returns (err: Option<Error>)
      requires repo.Valid()
      modifies repo
      ensures repo.Valid()
      ensures id !in old(repo.rows) ==> err == Some(NotFound) && repo.rows == old(repo.rows) && repo.logs == old(repo.logs)
      ensures id in old(repo.rows) ==>
        var snap := UserLogOf(old(repo.rows)[id], "Data dihapus oleh " + id);
        && (err.None? <==> snap.id !in old(repo.logs) && forall k :: k in old(repo.logs) ==> old(repo.logs)[k].email != snap.email)
        && (err.None? ==> repo.rows == old(repo.rows) - {id} && repo.logs == old(repo.logs)[snap.id := snap])
        && (err.Some? ==> err == Some(InternalError) && repo.rows == old(repo.rows) && repo.logs == old(repo.logs))
    {
      var found := repo.Get(id);
      if found.None? {
        return Some(NotFound);
      }
      err := SaveLog(found.value, "Data dihapus oleh " + id);
      if err.Some? {
        return;
      }
      repo.Delete(found.value);
    }

    /** `GetUser`: the stored user, or a 404 error (never "no user and no
        error"). The response is the corrected `UserView`, which carries the
        stored session; the code as written leaves it "" (`UserViewAsWritten`). */
    method GetUser(id: string) returns (r: Result<DataUserResponse, Error>)
      requires repo.Valid()
      ensures r.Err? <==> id !in repo.rows
      ensures r.Err? ==> r.error == NotFound
      ensures r.Ok? ==> r.value.id == id && r.value == UserView(repo.rows[id])
    {
      var found := repo.Get(id);
      if found.None? {
        return Err(NotFound);
      }
      r := Ok(UserView(found.value));
    }

    /** `ListUser`: the page the repository returns for the defaulted
        page/limit, mapped to responses; an empty page has total 0. */
    method ListUser(req: ListRequest, list: (int, int, Filter) -> ListAnswer<User>)
      returns (data: seq<DataUserResponse>, total: int, err: Option<Error>)
      ensures var w := Paginate(req.page, req.limit);
        var answer := list(w.limit, w.offset, req.filter);
        if answer.ListFailed? then data == [] && total == 0 && err == Some(InternalError)
        else if answer.rows == [] then data == [] && total == 0 && err == None
        else (err == None && total == answer.total && |data| == |answer.rows| &&
              forall i :: 0 <= i < |data| ==> data[i] == UserViewAsWritten(answer.rows[i]))
    {
      var w := Paginate(req.page, req.limit);
      var answer := list(w.limit, w.offset, req.filter);
      if answer.ListFailed? {
        return [], 0, Some(InternalError);
      }
      if answer.rows == [] {
        return [], 0, None;
      }
      data := MapRows(answer.rows, UserViewAsWritten);
      total, err := answer.total, None;
    }

    /** `LoginUser`: on the right password, the stored session becomes the
        fingerprint of the newly issued token and the last login time is
        set; every failure leaves the store as it was. `matches` is the
        bcrypt comparison of a stored password with a candidate; `issued` is
        the signed token, None when signing fails. */
    method LoginUser(req: LoginUserRequest, matches: (string, string) -> bool, issued: Option<Jws>, now: Time)
      returns (r: Result<string, Error>)
      requires repo.Valid()
      requires issued.Some? ==> WellFormed(issued.value)
      modifies repo
      ensures repo.Valid() && repo.logs == old(repo.logs)
      ensures (forall k :: k in old(repo.rows) ==> old(repo.rows)[k].email != req.email) ==>
        r == Err(NotFound) && repo.rows == old(repo.rows)
      ensures forall k :: k in old(repo.rows) && old(repo.rows)[k].email == req.email ==>
        var u := old(repo.rows)[k];
        if !matches(u.password, req.password) then r == Err(WrongPassword) && repo.rows == old(repo.rows)
        else if issued.None? then r == Err(InternalError) && repo.rows == old(repo.rows)
        else
          && r == Ok(Compact(issued.value))
          && |Segments(r.value)| == 3
          && repo.rows == old(repo.rows)[k := u.(lastLoginDate := Some(now), session := Fingerprint(r.value))]
    {
      var found := repo.GetByEmail(req.email);
      if found.None? {
        return Err(NotFound);
      }
      var u := found.value;
      if !matches(u.password, req.password) {
        return Err(WrongPassword);
      }
      if issued.None? {
        return Err(InternalError);
      }
      var token := Compact(issued.value);
      CompactSegments(issued.value);
      var ok := repo.Update(u.(lastLoginDate := Some(now), session := Fingerprint(token)));
      r := if ok then Ok(token) else Err(InternalError);
    }

    /** `UpdateSesionUser`, which the middleware calls to end a session: the
        session alone is replaced; a missing user is 400 "Data not found.". */
    method UpdateSesionUser(req: UpdateSessionRequest) returns (err: Option<Error>)
      requires repo.Valid()
      modifies repo
      ensures repo.Valid() && repo.logs == old(repo.logs)
      ensures err.Some? <==> req.id !in old(repo.rows)
      ensures err.Some? ==> err == Some(MissingForUpdate) && repo.rows == old(repo.rows)
      ensures err.None? ==> repo.rows == old(repo.rows)[req.id := old(repo.rows)[req.id].(session := req.session)]
    {
      var found := repo.Get(req.id);
      if found.None? {
        return Some(MissingForUpdate);
      }
      var ok := repo.Update(found.value.(session := req.session));
      err := if ok then None else Some(InternalError);
    }

    /** `UpdateUser`: a new version of the user with the requested name and
        email, everything else kept, logged first. The email check is the
        intended one (`EmailTaken`), not the one written
        (`EmailTakenAsWritten`), which refuses every update to an email that
        already has an owner, the user's own email included. */
    method UpdateUser(req: UpdateUserRequest, now: Time) returns (err: Option<Error>)
      requires repo.Valid()
      modifies repo
      ensures repo.Valid()
      ensures req.id !in old(repo.rows) ==>
        err == Some(MissingForUpdate) && repo.rows == old(repo.rows) && repo.logs == old(repo.logs)
      ensures req.id in old(repo.rows) && (exists k :: k in old(repo.rows) && k != req.id && old(repo.rows)[k].email == req.email) ==>
        err == Some(EmailExists) && repo.rows == old(repo.rows) && repo.logs == old(repo.logs)
      // keeping one's own email, or taking a free one, succeeds whenever the snapshot can be logged
      ensures req.id in old(repo.rows) && (forall k :: k in old(repo.rows) && k != req.id ==> old(repo.rows)[k].email != req.email) ==>
        var snap := UserLogOf(old(repo.rows)[req.id], "Perubahan data oleh " + req.id);
        (err.None? <==> (snap.id !in old(repo.logs) && forall k :: k in old(repo.logs) ==> old(repo.logs)[k].email != snap.email))
      ensures err.None? ==>
        var o := old(repo.rows)[req.id];
        var snap := UserLogOf(o, "Perubahan data oleh " + req.id);
        && req.id in old(repo.rows)
        && repo.logs == old(repo.logs)[snap.id := snap]
        && repo.rows == old(repo.rows)[req.id := User(o.id, req.name, req.email, o.password, o.lastLoginDate, o.session,
                                                      Bumped(o.audit, now, req.id))]
      ensures err.Some? ==> repo.rows == old(repo.rows)
    {
      var found := repo.Get(req.id);
      if found.None? {
        return Some(MissingForUpdate);
      }
      var o := found.value;
      var owner := repo.GetByEmail(req.email);
      if EmailTaken(owner, req.id) {
        return Some(EmailExists);
      }
      err := SaveLog(o, "Perubahan data oleh " + req.id);
      if err.Some? {
        return;
      }
      var ok := repo.Update(User(o.id, req.name, req.email, o.password, o.lastLoginDate, o.session,
                                 Bumped(o.audit, now, req.id)));
      err := if ok then None else Some(InternalError);
    }
  }
}
