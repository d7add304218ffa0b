/**
 * The account store and the request handlers that read and change it: the
 * handlers of backend/controllers/authController.js (`signup`, `login`,
 * `getMe`, `logout`) and of backend/controllers/userController.js
 * (`getAllUsers`, `activateUser`, `deactivateUser`, `getProfile`,
 * `updateProfile`, `changePassword`).
 *
 * The MongoDB collection is a map from ids to stored accounts, and new
 * accounts take the next free id. A save follows Mongoose's order: schema
 * validation, then the `pre('save')` hook, then the unique index on `email`.
 */
module Accounts {
  import opened Wrappers
  import opened Text
  import opened UserModel
  import opened Http
  import opened ErrorHandling
  import opened Auth
  import opened Listing

  const EmailTaken := "User with this email already exists"
  const Registered := "User registered successfully"
  const MissingCredentials := "Please provide email and password"
  const InvalidCredentials := "Invalid credentials"
  const LoginRefused := "Your account has been deactivated. Please contact administrator."
  const LoggedIn := "Login successful"
  const LoggedOut := "Logout successful"
  const UserNotFound := "User not found"
  const EmailInUse := "Email already in use"
  const ProfileUpdated := "Profile updated successfully"
  const WrongCurrentPassword := "Current password is incorrect"
  const PasswordUnchanged := "New password must be different from current password"
  const PasswordChanged := "Password changed successfully"
  const OwnStatus := "You cannot modify your own account status"
  /** What `comparePassword` rethrows when bcrypt rejects its arguments. */
  const ComparisonFailed := "Password comparison failed"
  /** What `bcrypt.compare` throws for an undefined candidate. */
  const IllegalArguments := "Illegal arguments: undefined, string"
  /** What reading `user._id` throws when `findById` found nothing. */
  const NullRead := "Cannot read properties of null (reading '_id')"
  /** The store's refusal of a negative `skip`. */
  const NegativeSkip := "Skip value must be non-negative"

  function AlreadyInStatus(s: Status): string {
    if s == Active then "User is already active" else "User is already inactive"
  }

  function StatusChanged(s: Status): string {
    if s == Active then "User activated successfully" else "User deactivated successfully"
  }

  /** A route's `:id` parameter: an ObjectId, or a string Mongoose cannot cast to one. */
  datatype IdParam = ObjectId(id: Id) | Uncastable

  /** A body field that JavaScript treats as true: present and non-empty. */
  predicate Truthy(v: Option<string>) {
    v.Some? && v.value != []
  }

  /** `findOne({ email: e })` among the ids below `n`: the first account, in natural order, storing `e`. */
  function FindEmail(accounts: map<Id, Account>, e: string, n: nat): (r: Option<Id>)
    ensures r.Some? ==> r.value < n && r.value in accounts && accounts[r.value].email == e
    ensures r.Some? ==> forall id | id < r.value && id in accounts :: accounts[id].email != e
    ensures r.None? <==> forall id | id < n && id in accounts :: accounts[id].email != e
  {
    if n == 0 then None
    else
      var prior := FindEmail(accounts, e, n - 1);
      if prior.Some? then prior
      else if n - 1 in accounts && accounts[n - 1].email == e then Some(n - 1)
      else None
  }

  /**
   * `findOne({ email })` with a body value: Mongoose casts the query through
   * the `email` setters, and an undefined value matches no stored account.
   */
  function FindByEmail(accounts: map<Id, Account>, n: nat, email: Option<string>): Option<Id> {
    if email.None? then None else FindEmail(accounts, Canon(email.value), n)
  }

  /**
   * What the store holds: every record is filed under its own id, below the
   * next free id, and conforms to the schema; the unique index keeps emails
   * distinct.
   */
  ghost predicate Consistent(accounts: map<Id, Account>, nextId: Id, emailPattern: string -> bool) {
    && (forall id | id in accounts :: accounts[id].id == id && id < nextId && Conforms(accounts[id], emailPattern))
    && (forall i, j | i in accounts && j in accounts && accounts[i].email == accounts[j].email :: i == j)
  }

  /** In a consistent store an email, in any case and with any surrounding whitespace, finds its one owner. */
  lemma {:induction false} FindByEmailFindsOwner(accounts: map<Id, Account>, nextId: Id, emailPattern: string -> bool,
                                                 id: Id, e: string)
    requires Consistent(accounts, nextId, emailPattern)
    requires id in accounts && Canon(e) == accounts[id].email
    ensures FindByEmail(accounts, nextId, Some(e)) == Some(id)
  {
    FindEmailOwner(accounts, nextId, emailPattern, id);
  }

  /** No account other than `d`'s own stores `d`'s email. */
  predicate EmailFree(accounts: map<Id, Account>, nextId: Id, d: Doc)
    requires d.email.Some?
  {
    var owner := FindEmail(accounts, d.email.value, nextId);
    owner.None? || owner.value == d.id
  }

  /**
   * `user.save()`: validation (a ValidationError with every failing path's
   * message), then the pre-save hook, then the unique index on `email`
   * (a duplicate-key error), and finally the record with its timestamps.
   */
  function Saved(accounts: map<Id, Account>, nextId: Id, d: Doc, now: int,
                 hash: string -> Digest, emailPattern: string -> bool): (r: Result<Account, AppError>)
    ensures r.Failure? && r.error.name == "ValidationError" <==> !MeetsSchema(d, emailPattern)
    ensures !MeetsSchema(d, emailPattern) ==> r == Failure(SchemaValidation(Violations(d, emailPattern)))
    ensures MeetsSchema(d, emailPattern) ==> (r.Success? <==> EmailFree(accounts, nextId, d))
    ensures MeetsSchema(d, emailPattern) && !EmailFree(accounts, nextId, d) ==> r == Failure(DuplicateKey("email"))
    ensures r.Success? ==>
              && r.value.id == d.id && Some(r.value.fullName) == d.fullName && Some(r.value.email) == d.email
              && r.value.role == d.role && r.value.status == d.status && r.value.lastLogin == d.lastLogin
              && (d.password.Kept? ==> r.value.password == d.password.digest)
              && (d.password.Assigned? ==> r.value.password == hash(d.password.plain))
  {
    var v := Violations(d, emailPattern);
    ViolationsEmptyIff(d, emailPattern);
    if v != [] then Failure(SchemaValidation(v))
    else
      var h := PreSave(d, hash);
      if !EmailFree(accounts, nextId, h) then Failure(DuplicateKey("email"))
      else Success(Persist(h, if d.id in accounts then Some(accounts[d.id]) else None, now))
  }

  /** A successful save of a normalised document at a stored or the next free id keeps the store consistent. */
  lemma SavedKeepsConsistent(accounts: map<Id, Account>, nextId: Id, d: Doc, now: int,
                             hash: string -> Digest, emailPattern: string -> bool)
    requires Consistent(accounts, nextId, emailPattern)
    requires d.id in accounts || d.id == nextId
    requires Normalised(d)
    requires Saved(accounts, nextId, d, now, hash, emailPattern).Success?
    ensures var a := Saved(accounts, nextId, d, now, hash, emailPattern).value;
            Consistent(accounts[d.id := a], if d.id == nextId then nextId + 1 else nextId, emailPattern)
  {
    var a := Saved(accounts, nextId, d, now, hash, emailPattern).value;
    assert Load(a).fullName == d.fullName && Load(a).email == d.email;
    assert Conforms(a, emailPattern);
    OnlyOwner(accounts, nextId, emailPattern, d.id, a.email);
  }

  /** When the lookup of `e` finds nothing or `id`, no account but `id` stores `e`. */
  lemma OnlyOwner(accounts: map<Id, Account>, nextId: Id, emailPattern: string -> bool, id: Id, e: string)
    requires Consistent(accounts, nextId, emailPattern)
    requires FindEmail(accounts, e, nextId).None? || FindEmail(accounts, e, nextId) == Some(id)
    ensures forall j | j in accounts && accounts[j].email == e :: j == id
  {
    forall j | j in accounts && accounts[j].email == e ensures j == id {
      assert j < nextId;
    }
  }

  /** In a consistent store the lookup of a stored email finds its owner. */
  lemma FindEmailOwner(accounts: map<Id, Account>, nextId: Id, emailPattern: string -> bool, id: Id)
    requires Consistent(accounts, nextId, emailPattern)
    requires id in accounts
    ensures FindEmail(accounts, accounts[id].email, nextId) == Some(id)
  {
    assert id < nextId;
  }

  /**
   * Saving a stored account whose edits leave its id, password and
   * timestamps alone, and whose email is its own or free: the validation
   * failures, or else the edited record, with `updatedAt` moved to now
   * exactly when something changed.
   */
  lemma SavedStored(accounts: map<Id, Account>, nextId: Id, b: Account, now: int,
                    hash: string -> Digest, emailPattern: string -> bool)
    requires Consistent(accounts, nextId, emailPattern)
    requires b.id in accounts
    requires var a := accounts[b.id];
             b.password == a.password && b.createdAt == a.createdAt && b.updatedAt == a.updatedAt
    requires b.email == accounts[b.id].email || FindEmail(accounts, b.email, nextId).None?
    ensures var a := accounts[b.id];
            Saved(accounts, nextId, Load(b), now, hash, emailPattern) ==
              if MeetsSchema(Load(b), emailPattern) then Success(b.(updatedAt := if b == a then a.updatedAt else now))
              else Failure(SchemaValidation(Violations(Load(b), emailPattern)))
  {
    var a := accounts[b.id];
    if b.email == a.email {
      FindEmailOwner(accounts, nextId, emailPattern, b.id);
    }
    assert Load(a) == Load(b) <==> a == b;
  }

  /**
   * Saving a stored account with a new plaintext password its digest does not
   * already accept: the password's own validation failure, or else the
   * account with the new digest and `updatedAt` moved to now.
   */
  lemma SavedNewPassword(accounts: map<Id, Account>, nextId: Id, id: Id, p: string, now: int,
                         hash: string -> Digest, emailPattern: string -> bool)
    requires Consistent(accounts, nextId, emailPattern)
    requires id in accounts && hash(p) != accounts[id].password && p != accounts[id].password
    ensures var a := accounts[id];
            Saved(accounts, nextId, Load(a).(password := Assigned(p)), now, hash, emailPattern) ==
              if p == [] then Failure(SchemaValidation([PasswordRequired]))
              else if Utf16Length(p) < 8 then Failure(SchemaValidation([PasswordTooShort]))
              else Success(a.(password := hash(p), updatedAt := now))
  {
    var a := accounts[id];
    var d := Load(a).(password := Assigned(p));
    assert Conforms(a, emailPattern);
    OnlyPasswordViolation(d, emailPattern);
    FindEmailOwner(accounts, nextId, emailPattern, id);
  }

  /** A failed validation's reply message is never empty. */
  lemma {:induction false} ViolationsMessage(d: Doc, emailPattern: string -> bool)
    requires Violations(d, emailPattern) != []
    ensures Join(Violations(d, emailPattern), ", ") != []
  {
    var v := Violations(d, emailPattern);
    assert v[0] != [];
  }

  /** `logout`: JWTs are stateless, so the server only acknowledges. */
  function Logout(): (r: Reply)
    ensures r.status == 200 && r.success && r.message == LoggedOut && r.data == NoData
  {
    Reply(200, true, LoggedOut, NoData)
  }

  function Abs(x: int): nat {
    if x < 0 then -x else x
  }

  /** What `getProfile` answers: 200 with the caller's account without its password, or with `null` when it is gone. */
  predicate ReadsProfile(accounts: map<Id, Account>, callerId: Id, reply: Reply) {
    && reply.status == 200 && reply.success
    && reply.data == ProfileData(if callerId in accounts then Some(ToJson(accounts[callerId])) else None)
  }

  /**
   * What `updateProfile` answers and leaves in the collection: 404 without an
   * account; a truthy email that differs from the stored one as written is
   * refused with 400 when the lookup finds any owner, the caller included; a
   * truthy email or name is then set through its setter, and a save that
   * fails validation answers 400 with its messages.
   */
  predicate UpdatesProfile(before: map<Id, Account>, nextId: Id, emailPattern: string -> bool,
                           callerId: Id, body: Body, now: int, reply: Reply, after: map<Id, Account>)
  {
    if callerId !in before then reply == Fail(404, UserNotFound) && after == before
    else
      var a := before[callerId];
      var emailChange := Truthy(body.email) && body.email.value != a.email;
      var b := a.(email := if emailChange then Canon(body.email.value) else a.email,
                  fullName := if Truthy(body.fullName) then Trim(body.fullName.value) else a.fullName);
      if emailChange && FindByEmail(before, nextId, body.email).Some? then
        reply == Fail(400, EmailInUse) && after == before
      else if !MeetsSchema(Load(b), emailPattern) then
        reply == Fail(400, Join(Violations(Load(b), emailPattern), ", ")) && after == before
      else
        && after == before[callerId := b.(updatedAt := if b == a then a.updatedAt else now)]
        && reply == Reply(200, true, ProfileUpdated, UserData(ToJson(after[callerId])))
  }

  /**
   * What `changePassword` answers and leaves in the collection: 404 without
   * an account; an absent current password makes bcrypt throw (500); a wrong
   * one is refused with 401; an absent new password makes bcrypt throw
   * (500); a new password the stored digest already accepts is refused with
   * 400. A new password equal to the stored digest string does not mark the
   * path modified, so the save writes nothing and still answers 200.
   * Otherwise the new password is validated and stored hashed.
   */
  predicate ChangesPassword(before: map<Id, Account>, hash: string -> Digest,
                            callerId: Id, body: Body, now: int, reply: Reply, after: map<Id, Account>)
  {
    if callerId !in before then reply == Fail(404, UserNotFound) && after == before
    else
      var a := before[callerId];
      if body.currentPassword.None? then
        reply == Fail(500, ComparisonFailed) && after == before
      else if !ComparePassword(hash, a.password, body.currentPassword.value) then
        reply == Fail(401, WrongCurrentPassword) && after == before
      else if body.newPassword.None? then
        reply == Fail(500, IllegalArguments) && after == before
      else if ComparePassword(hash, a.password, body.newPassword.value) then
        reply == Fail(400, PasswordUnchanged) && after == before
      else if body.newPassword.value == a.password then
        reply == Reply(200, true, PasswordChanged, NoData) && after == before
      else if body.newPassword.value == [] then
        reply == Fail(400, PasswordRequired) && after == before
      else if Utf16Length(body.newPassword.value) < 8 then
        reply == Fail(400, PasswordTooShort) && after == before
      else
        && after == before[callerId := a.(password := hash(body.newPassword.value), updatedAt := now)]
        && reply == Reply(200, true, PasswordChanged, NoData)
  }

  /**
   * What `activateUser` (`to` is `Active`) and `deactivateUser` (`to` is
   * `Inactive`) answer and leave in the collection: an id that is not an
   * ObjectId is a CastError (404 from the error handler), then 404 without an
   * account, 400 for the caller's own account, 400 when the account already
   * has that status; otherwise only the status (and `updatedAt`) of that one
   * account changes.
   */
  predicate SetsStatus(before: map<Id, Account>, target: IdParam, callerId: Id, to: Status, now: int,
                       reply: Reply, after: map<Id, Account>)
  {
    if target.Uncastable? then reply == Fail(404, ResourceNotFound) && after == before
    else
      var id := target.id;
      if id !in before then
        reply == Fail(404, UserNotFound) && after == before
      else if id == callerId then
        reply == Fail(400, OwnStatus) && after == before
      else if before[id].status == to then
        reply == Fail(400, AlreadyInStatus(to)) && after == before
      else
        && after == before[id := before[id].(status := to, updatedAt := now)]
        && reply == Reply(200, true, StatusChanged(to), UserData(ToJson(after[id])))
  }

  /**
   * What `getAllUsers` answers: `page` and `limit` default to 1 and 5, the
   * offset is `(page - 1) * limit`, which the store refuses when negative
   * (500); otherwise the `user`-role accounts, newest first, from that
   * offset, and the count of all of them.
   */
  predicate ListsUsers(accounts: map<Id, Account>, nextId: Id, pageQuery: Option<int>, limitQuery: Option<int>, reply: Reply) {
    var page := IntOr(pageQuery, DefaultPage);
    var limit := IntOr(limitQuery, DefaultLimit);
    var skip := (page - 1) * limit;
    var total := |UserIds(accounts, nextId)|;
    && (skip < 0 ==> reply == Fail(500, NegativeSkip))
    && (skip >= 0 ==>
          reply == Reply(200, true, "", ListData(ListUsers(accounts, nextId, skip, Abs(limit)),
                                                 Pagination(page, CeilDiv(total, limit), total, limit))))
  }

  /** The collection with the handlers that work on it; hashing, the email pattern and tokens are the store's fixed libraries. */
  class Store {
    var accounts: map<Id, Account>
    var nextId: Id
    const hash: string -> Digest
    const emailPattern: string -> bool
    const tokens: TokenService

    ghost predicate Valid()
      reads this
    {
      Consistent(accounts, nextId, emailPattern)
    }

    constructor(hash: string -> Digest, emailPattern: string -> bool, tokens: TokenService)
      ensures Valid() && accounts == map[] && nextId == 0
      ensures this.hash == hash && this.emailPattern == emailPattern && this.tokens == tokens
    {
      this.hash := hash;
      this.emailPattern := emailPattern;
      this.tokens := tokens;
      accounts := map[];
      nextId := 0;
    }

    /** `user.save()` or `User.create`: on success the record is stored at `d.id`, a new id is used up; on failure nothing changes. */
    method Save(d: Doc, now: int) returns (err: Option<AppError>)
      requires Valid()
      requires d.id in accounts || d.id == nextId
      requires Normalised(d)
      modifies this
      ensures Valid()
      ensures var r := Saved(old(accounts), old(nextId), d, now, hash, emailPattern);
              && (r.Success? ==> err == None && accounts == old(accounts)[d.id := r.value]
                                 && nextId == if d.id == old(nextId) then old(nextId) + 1 else old(nextId))
              && (r.Failure? ==> err == Some(r.error) && accounts == old(accounts) && nextId == old(nextId))
    {
      var r := Saved(accounts, nextId, d, now, hash, emailPattern);
      if r.Failure? {
        return Some(r.error);
      }
      SavedKeepsConsistent(accounts, nextId, d, now, hash, emailPattern);
      accounts := accounts[d.id := r.value];
      if d.id == nextId {
        nextId := nextId + 1;
      }
      err := None;
    }

    /**
     * `signup`: a taken email is refused with 400 before anything is built;
     * otherwise a `user`-role, active account is created through the schema,
     * whose validation failures answer 400 with their messages, and the reply
     * carries a token issued now for the new id, which `protect` accepts.
     */
    method Signup(body: Body, now: int) returns (reply: Reply)
      requires Valid()
      modifies this
      ensures Valid()
      ensures FindByEmail(old(accounts), old(nextId), body.email).Some? ==>
                reply == Fail(400, EmailTaken) && accounts == old(accounts) && nextId == old(nextId)
      ensures var d := NewDoc(old(nextId), body.fullName, body.email, body.password, Some(User), Some(Active));
              FindByEmail(old(accounts), old(nextId), body.email).None? && !MeetsSchema(d, emailPattern) ==>
                && reply == Fail(400, Join(Violations(d, emailPattern), ", "))
                && accounts == old(accounts) && nextId == old(nextId)
      ensures var d := NewDoc(old(nextId), body.fullName, body.email, body.password, Some(User), Some(Active));
              reply.status == 201 <==> FindByEmail(old(accounts), old(nextId), body.email).None? && MeetsSchema(d, emailPattern)
      ensures reply.status == 201 ==>
                var id := old(nextId);
                && nextId == id + 1
                && accounts == old(accounts)[id := Account(id, Trim(body.fullName.value), Canon(body.email.value),
                                                           hash(body.password.value), User, Active, None, now, now)]
                && reply == Reply(201, true, Registered, AuthData(ToJson(accounts[id]), tokens.sign(id, now)))
      ensures reply.status == 201 && Sound(tokens) && tokens.lifetime > 0 ==>
                Authenticate(Some("Bearer " + reply.data.token), accounts, tokens.verify, now) == Success(reply.data.user)
    {
      var existing := FindByEmail(accounts, nextId, body.email);
      if existing.Some? {
        return Fail(400, EmailTaken);
      }
      var id := nextId;
      var d := NewDoc(id, body.fullName, body.email, body.password, Some(User), Some(Active));
      NewDocNormalised(id, body.fullName, body.email, body.password, Some(User), Some(Active));
      var err := Save(d, now);
      if err.Some? {
        ViolationsMessage(d, emailPattern);
        reply := HandleError(err.value);
        return;
      }
      var token := tokens.sign(id, now);
      reply := Reply(201, true, Registered, AuthData(ToJson(accounts[id]), token));
      if Sound(tokens) && tokens.lifetime > 0 {
        SignedTokenAdmits(tokens, accounts, id, now, now);
      }
    }

    /**
     * `login`: 400 without both fields, 401 for an unknown email, 403 for an
     * inactive account (before the password is looked at), 401 for a wrong
     * password; otherwise `lastLogin` becomes now and the reply carries a
     * fresh token that `protect` accepts.
     */
    method Login(body: Body, now: int) returns (reply: Reply)
      requires Valid()
      modifies this
      ensures Valid() && nextId == old(nextId)
      ensures !Truthy(body.email) || !Truthy(body.password) ==>
                reply == Fail(400, MissingCredentials) && accounts == old(accounts)
      ensures Truthy(body.email) && Truthy(body.password) ==>
                match FindByEmail(old(accounts), old(nextId), body.email)
                case None => reply == Fail(401, InvalidCredentials) && accounts == old(accounts)
                case Some(id) =>
                  var a := old(accounts)[id];
                  if a.status == Inactive then
                    reply == Fail(403, LoginRefused) && accounts == old(accounts)
                  else if !ComparePassword(hash, a.password, body.password.value) then
                    reply == Fail(401, InvalidCredentials) && accounts == old(accounts)
                  else
                    && accounts == old(accounts)[id := a.(lastLogin := Some(now),
                                                          updatedAt := if a.lastLogin == Some(now) then a.updatedAt else now)]
                    && reply == Reply(200, true, LoggedIn, AuthData(ToJson(accounts[id]), tokens.sign(id, now)))
      ensures reply.status == 200 && Sound(tokens) && tokens.lifetime > 0 ==>
                Authenticate(Some("Bearer " + reply.data.token), accounts, tokens.verify, now) == Success(reply.data.user)
    {
      if !Truthy(body.email) || !Truthy(body.password) {
        return Fail(400, MissingCredentials);
      }
      var found := FindByEmail(accounts, nextId, body.email);
      if found.None? {
        return Fail(401, InvalidCredentials);
      }
      var id := found.value;
      var a := accounts[id];
      if a.status == Inactive {
        return Fail(403, LoginRefused);
      }
      var isPasswordMatch := ComparePassword(hash, a.password, body.password.value);
      if !isPasswordMatch {
        return Fail(401, InvalidCredentials);
      }
      var b := a.(lastLogin := Some(now));
      var d := Load(b);
      SavedStored(accounts, nextId, b, now, hash, emailPattern);
      var err := Save(d, now);
      assert err == None;
      var token := tokens.sign(id, now);
      reply := Reply(200, true, LoggedIn, AuthData(ToJson(accounts[id]), token));
      if Sound(tokens) && tokens.lifetime > 0 {
        SignedTokenAdmits(tokens, accounts, id, now, now);
      }
    }

    /** `getMe`: the caller's own account; when it is gone the handler throws and the error handler answers 500. */
    method GetMe(callerId: Id) returns (reply: Reply)
      ensures callerId in accounts ==> reply == Reply(200, true, "", UserData(ToJson(accounts[callerId])))
      ensures callerId !in accounts ==> reply == Fail(500, NullRead)
    {
      if callerId !in accounts {
        reply := HandleError(Thrown("TypeError", NullRead));
        return;
      }
      reply := Reply(200, true, "", UserData(ToJson(accounts[callerId])));
    }

    /** `getProfile`. */
    method GetProfile(callerId: Id) returns (reply: Reply)
      ensures ReadsProfile(accounts, callerId, reply)
    {
      var user := if callerId in accounts then Some(ToJson(accounts[callerId])) else None;
      reply := Reply(200, true, "", ProfileData(user));
    }

    /** `updateProfile`: finds the caller's account, sets the submitted fields and saves it. */
    method UpdateProfile(callerId: Id, body: Body, now: int) returns (reply: Reply)
      requires Valid()
      modifies this
      ensures Valid() && nextId == old(nextId)
      ensures UpdatesProfile(old(accounts), old(nextId), emailPattern, callerId, body, now, reply, accounts)
    {
      if callerId !in accounts {
        return Fail(404, UserNotFound);
      }
      var a := accounts[callerId];
      var d := Load(a);
      if Truthy(body.email) && body.email.value != a.email {
        var emailExists := FindByEmail(accounts, nextId, body.email);
        if emailExists.Some? {
          return Fail(400, EmailInUse);
        }
        d := d.(email := Some(Canon(body.email.value)));
        CanonIdempotent(body.email.value);
      }
      if Truthy(body.fullName) {
        d := d.(fullName := Some(Trim(body.fullName.value)));
      }
      var b := a.(email := d.email.value, fullName := d.fullName.value);
      assert d == Load(b);
      SavedStored(accounts, nextId, b, now, hash, emailPattern);
      var err := Save(d, now);
      if err.Some? {
        ViolationsMessage(d, emailPattern);
        reply := HandleError(err.value);
        return;
      }
      reply := Reply(200, true, ProfileUpdated, UserData(ToJson(accounts[callerId])));
    }

    /**
     * `changePassword`. When it answers 200 and the password was replaced, the
     * new password is accepted and the current one is not; when the new
     * password was the stored digest string, nothing changed.
     */
    method ChangePassword(callerId: Id, body: Body, now: int) returns (reply: Reply)
      requires Valid()
      modifies this
      ensures Valid() && nextId == old(nextId)
      ensures ChangesPassword(old(accounts), hash, callerId, body, now, reply, accounts)
      ensures reply.status == 200 ==>
                var replaced := body.newPassword.value != old(accounts)[callerId].password;
                && (ComparePassword(hash, accounts[callerId].password, body.newPassword.value) <==> replaced)
                && (ComparePassword(hash, accounts[callerId].password, body.currentPassword.value) <==> !replaced)
    {
      if callerId !in accounts {
        return Fail(404, UserNotFound);
      }
      var a := accounts[callerId];
      if body.currentPassword.None? {
        reply := HandleError(Thrown("Error", ComparisonFailed));
        return;
      }
      var isPasswordMatch := ComparePassword(hash, a.password, body.currentPassword.value);
      if !isPasswordMatch {
        return Fail(401, WrongCurrentPassword);
      }
      if body.newPassword.None? {
        reply := HandleError(Thrown("Error", IllegalArguments));
        return;
      }
      var isSamePassword := ComparePassword(hash, a.password, body.newPassword.value);
      if isSamePassword {
        return Fail(400, PasswordUnchanged);
      }
      if body.newPassword.value == a.password {
        // Assigning the value the path already holds does not mark it modified.
        SavedStored(accounts, nextId, a, now, hash, emailPattern);
        var kept := Save(Load(a), now);
        assert kept == None;
        return Reply(200, true, PasswordChanged, NoData);
      }
      var d := Load(a).(password := Assigned(body.newPassword.value));
      SavedNewPassword(accounts, nextId, callerId, body.newPassword.value, now, hash, emailPattern);
      var err := Save(d, now);
      if err.Some? {
        assert Join(err.value.errors, ", ") == err.value.errors[0];
        reply := HandleError(err.value);
        return;
      }
      reply := Reply(200, true, PasswordChanged, NoData);
    }

    /** `activateUser` (`to` is `Active`) and `deactivateUser` (`to` is `Inactive`). */
    method SetStatus(target: IdParam, callerId: Id, to: Status, now: int) returns (reply: Reply)
      requires Valid()
      modifies this
      ensures Valid() && nextId == old(nextId)
      ensures SetsStatus(old(accounts), target, callerId, to, now, reply, accounts)
    {
      if target.Uncastable? {
        reply := HandleError(CastError());
        return;
      }
      var id := target.id;
      if id !in accounts {
        return Fail(404, UserNotFound);
      }
      if id == callerId {
        return Fail(400, OwnStatus);
      }
      var a := accounts[id];
      if a.status == to {
        return Fail(400, AlreadyInStatus(to));
      }
      var b := a.(status := to);
      var d := Load(b);
      SavedStored(accounts, nextId, b, now, hash, emailPattern);
      assert Conforms(a, emailPattern);
      var err := Save(d, now);
      assert err == None;
      reply := Reply(200, true, StatusChanged(to), UserData(ToJson(accounts[id])));
    }

    /** `getAllUsers`: a listed page holds at most `limit` user-role accounts, newest first. */
    method GetAllUsers(pageQuery: Option<int>, limitQuery: Option<int>) returns (reply: Reply)
      ensures ListsUsers(accounts, nextId, pageQuery, limitQuery, reply)
      ensures reply.status == 200 ==>
                && |reply.data.users| <= Abs(reply.data.pagination.limit)
                && NewestFirst(reply.data.users)
                && (forall k :: 0 <= k < |reply.data.users| ==> reply.data.users[k].role == User)
    {
      var page := IntOr(pageQuery, DefaultPage);
      var limit := IntOr(limitQuery, DefaultLimit);
      var skip := (page - 1) * limit;
      var total := |UserIds(accounts, nextId)|;
      if skip < 0 {
        reply := HandleError(Thrown("MongoServerError", NegativeSkip));
        return;
      }
      var users := ListUsers(accounts, nextId, skip, Abs(limit));
      ListUsersShape(accounts, nextId, skip, Abs(limit));
      reply := Reply(200, true, "", ListData(users, Pagination(page, CeilDiv(total, limit), total, limit)));
    }
  }
}
