/**
 * The account schema of backend/models/User.js: the stored record, its
 * enumerations and defaults, the setters that normalise names and emails,
 * the validators that run before a save, the pre-save hashing hook,
 * `comparePassword` and the `toJSON` projection.
 *
 * bcrypt is an abstract `hash: string -> Digest`; the schema's email regular
 * expression is an abstract `emailPattern: string -> bool`.
 */
module UserModel {
  import opened Wrappers
  import opened Text

  type Id = nat
  type Digest = string

  /** The `role` enumeration; its default is `User`. */
  datatype Role = User | Admin
  /** The `status` enumeration; its default is `Active`. */
  datatype Status = Active | Inactive

  function RoleName(r: Role): string {
    match r
    case User => "user"
    case Admin => "admin"
  }

  /** A stored account. `password` holds the digest, never the plaintext; `lastLogin` is `None` for null. */
  datatype Account = Account(
    id: Id,
    fullName: string,
    email: string,
    password: Digest,
    role: Role,
    status: Status,
    lastLogin: Option<int>,
    createdAt: int,
    updatedAt: int)

  /** What `toJSON` (and a query with `select('-password')`) gives: every field but the password. */
  datatype PublicAccount = PublicAccount(
    id: Id,
    fullName: string,
    email: string,
    role: Role,
    status: Status,
    lastLogin: Option<int>,
    createdAt: int,
    updatedAt: int)

  function ToJson(a: Account): PublicAccount {
    PublicAccount(a.id, a.fullName, a.email, a.role, a.status, a.lastLogin, a.createdAt, a.updatedAt)
  }

  /** Two accounts project to the same public view exactly when they differ at most in the password. */
  lemma ToJsonForgetsOnlyPassword(a: Account, b: Account)
    ensures ToJson(a) == ToJson(b) <==> a.(password := b.password) == b
  {
    if ToJson(a) == ToJson(b) {
      assert a.(password := b.password) == b;
    }
  }

  /** The `fullName` setter (`trim: true`). */
  function SetFullName(s: string): string {
    Trim(s)
  }

  /** The `email` setter (`lowercase: true` then `trim: true`); Mongoose applies it to queries on `email` too. */
  function Canon(s: string): string {
    Trim(Lower(s))
  }

  /** What the `email` setters leave: no surrounding whitespace and no upper-case letter. */
  predicate IsCanonical(s: string) {
    IsTrimmed(s) && HasNoAsciiUpper(s)
  }

  /** The setters leave a canonical email alone. */
  lemma CanonOfCanonical(s: string)
    requires IsCanonical(s)
    ensures Canon(s) == s
  {
    TrimIdempotent(s);
  }

  /** A normalised email is its own normal form, so setting or querying it twice changes nothing. */
  lemma CanonIdempotent(s: string)
    ensures Canon(Canon(s)) == Canon(s)
    ensures IsCanonical(Canon(s))
  {
    var low := Lower(s);
    var c := Trim(low);
    var k := LeadingWhitespace(low);
    forall i | 0 <= i < |c| ensures !IsAsciiUpper(c[i]) {
      assert c[i] == low[k + i];
    }
    assert Lower(c) == c;
    TrimIdempotent(c);
  }

  /** The password as a document holds it: loaded (`Kept`), newly assigned plaintext, or never given. */
  datatype PasswordField = Kept(digest: Digest) | Assigned(plain: string) | Absent

  /** A document on its way to the store: values are already through the setters. */
  datatype Doc = Doc(
    id: Id,
    fullName: Option<string>,
    email: Option<string>,
    password: PasswordField,
    role: Role,
    status: Status,
    lastLogin: Option<int>)

  /** The document `findById` gives for a stored account. */
  function Load(a: Account): Doc {
    Doc(a.id, Some(a.fullName), Some(a.email), Kept(a.password), a.role, a.status, a.lastLogin)
  }

  /** The document `User.create` builds: setters applied, schema defaults where a value is not given. */
  function NewDoc(id: Id, fullName: Option<string>, email: Option<string>, password: Option<string>,
                  role: Option<Role>, status: Option<Status>): (d: Doc)
    ensures d.id == id && d.lastLogin == None
    ensures d.role == (if role.Some? then role.value else User)
    ensures d.status == (if status.Some? then status.value else Active)
    ensures fullName.Some? ==> d.fullName == Some(Trim(fullName.value))
    ensures fullName.None? ==> d.fullName == None
    ensures email.Some? ==> d.email == Some(Canon(email.value))
    ensures email.None? ==> d.email == None
    ensures password.Some? ==> d.password == Assigned(password.value)
    ensures password.None? ==> d.password == Absent
  {
    Doc(id,
        if fullName.Some? then Some(SetFullName(fullName.value)) else None,
        if email.Some? then Some(Canon(email.value)) else None,
        if password.Some? then Assigned(password.value) else Absent,
        if role.Some? then role.value else User,
        if status.Some? then status.value else Active,
        None)
  }

  /** A document whose name and email are already their setters' output. */
  predicate Normalised(d: Doc) {
    && (d.fullName.Some? ==> IsTrimmed(d.fullName.value))
    && (d.email.Some? ==> IsCanonical(d.email.value))
  }

  /** Passing every value through its setter normalises a new document. */
  lemma NewDocNormalised(id: Id, fullName: Option<string>, email: Option<string>, password: Option<string>,
                         role: Option<Role>, status: Option<Status>)
    ensures Normalised(NewDoc(id, fullName, email, password, role, status))
  {
    if fullName.Some? {
      TrimIdempotent(fullName.value);
    }
    if email.Some? {
      CanonIdempotent(email.value);
    }
  }

  const FullNameRequired := "Full name is required"
  const FullNameTooShort := "Full name must be at least 4 characters"
  const FullNameTooLong := "Full name cannot exceed 30 characters"
  const EmailRequired := "Email is required"
  const EmailInvalid := "Please provide a valid email address"
  const PasswordRequired := "Password is required"
  const PasswordTooShort := "Password must be at least 8 characters"

  /** The first failing `fullName` validator: required, then minlength 4, then maxlength 30. */
  function FullNameViolation(v: Option<string>): Option<string> {
    if v.None? || v.value == [] then Some(FullNameRequired)
    else if Utf16Length(v.value) < 4 then Some(FullNameTooShort)
    else if Utf16Length(v.value) > 30 then Some(FullNameTooLong)
    else None
  }

  /** The first failing `email` validator: required, then the pattern. */
  function EmailViolation(v: Option<string>, emailPattern: string -> bool): Option<string> {
    if v.None? || v.value == [] then Some(EmailRequired)
    else if !emailPattern(v.value) then Some(EmailInvalid)
    else None
  }

  /**
   * The first failing `password` validator. Only an assigned plaintext is checked:
   * validation runs before the pre-save hook, and a kept bcrypt digest (60
   * characters, or not selected at all) always passes.
   */
  function PasswordViolation(p: PasswordField): Option<string> {
    match p
    case Absent => Some(PasswordRequired)
    case Assigned(plain) =>
      if plain == [] then Some(PasswordRequired)
      else if Utf16Length(plain) < 8 then Some(PasswordTooShort)
      else None
    case Kept(_) => None
  }

  /**
   * The messages of the failing paths, in path order: exactly the present
   * values, so none are lost and none are made up.
   */
  function Messages(v: seq<Option<string>>): (r: seq<string>)
    ensures |r| <= |v|
    ensures r == [] <==> forall k :: 0 <= k < |v| ==> v[k].None?
    ensures (forall k :: 0 <= k < |v| && v[k].Some? ==> v[k].value != []) ==> forall k :: 0 <= k < |r| ==> r[k] != []
  {
    if v == [] then []
    else
      var rest := v[1..];
      assert forall k :: 1 <= k < |v| ==> v[k] == rest[k - 1];
      (if v[0].Some? then [v[0].value] else []) + Messages(rest)
  }

  /** The messages of consecutive paths are the messages of the first ones followed by those of the rest. */
  lemma {:induction false} MessagesConcat(a: seq<Option<string>>, b: seq<Option<string>>)
    ensures Messages(a + b) == Messages(a) + Messages(b)
  {
    if a == [] {
      assert a + b == b;
    } else {
      var ab := a + b;
      assert ab[0] == a[0] && ab[1..] == a[1..] + b;
      MessagesConcat(a[1..], b);
      var head := if a[0].Some? then [a[0].value] else [];
      assert Messages(ab) == head + Messages(a[1..] + b);
      assert Messages(a) == head + Messages(a[1..]);
    }
  }

  /** The messages are exactly the present values: none is lost and none is made up. */
  lemma {:induction false} MessagesArePresentValues(v: seq<Option<string>>)
    ensures forall m :: m in Messages(v) <==> Some(m) in v
  {
    if v != [] {
      MessagesArePresentValues(v[1..]);
      assert v == [v[0]] + v[1..];
    }
  }

  /** A failing path contributes its message, a passing one nothing. */
  lemma MessagesOfOne(o: Option<string>)
    ensures Messages([o]) == if o.Some? then [o.value] else []
  {
    assert [o][1..] == [];
  }

  /** The messages of the ValidationError a save raises, path by path in schema order (role and status are closed by type). */
  function Violations(d: Doc, emailPattern: string -> bool): seq<string> {
    Messages([FullNameViolation(d.fullName), EmailViolation(d.email, emailPattern), PasswordViolation(d.password)])
  }

  /** The schema's constraints, stated directly. */
  predicate MeetsSchema(d: Doc, emailPattern: string -> bool) {
    && d.fullName.Some? && 4 <= Utf16Length(d.fullName.value) <= 30
    && d.email.Some? && d.email.value != [] && emailPattern(d.email.value)
    && !d.password.Absent?
    && (d.password.Assigned? ==> 8 <= Utf16Length(d.password.plain))
  }

  /** A save passes validation exactly when the document meets the schema. */
  lemma ViolationsEmptyIff(d: Doc, emailPattern: string -> bool)
    ensures Violations(d, emailPattern) == [] <==> MeetsSchema(d, emailPattern)
  {
    var v := [FullNameViolation(d.fullName), EmailViolation(d.email, emailPattern), PasswordViolation(d.password)];
    assert Violations(d, emailPattern) == [] <==> v[0].None? && v[1].None? && v[2].None?;
  }

  /** When name and email pass, the password's first failure, if any, is the only message. */
  lemma OnlyPasswordViolation(d: Doc, emailPattern: string -> bool)
    requires FullNameViolation(d.fullName) == None && EmailViolation(d.email, emailPattern) == None
    ensures PasswordViolation(d.password).None? ==> Violations(d, emailPattern) == []
    ensures PasswordViolation(d.password).Some? ==> Violations(d, emailPattern) == [PasswordViolation(d.password).value]
  {
    var v := [FullNameViolation(d.fullName), EmailViolation(d.email, emailPattern), PasswordViolation(d.password)];
    assert v[1..][1..] == [v[2]];
    assert Messages(v) == Messages(v[1..]) == Messages([v[2]]);
    assert [v[2]][1..] == [];
  }

  /** An account as the store keeps it: schema-valid, name trimmed, email normalised. */
  predicate Conforms(a: Account, emailPattern: string -> bool) {
    && MeetsSchema(Load(a), emailPattern)
    && IsTrimmed(a.fullName)
    && IsCanonical(a.email)
  }

  /**
   * The `pre('save')` hook: an assigned plaintext is replaced by its digest;
   * otherwise the document is left as it is.
   */
  function PreSave(d: Doc, hash: string -> Digest): (r: Doc)
    ensures !r.password.Assigned?
    ensures d.password.Assigned? ==> r.password.Kept? && ComparePassword(hash, r.password.digest, d.password.plain)
    ensures !d.password.Assigned? ==> r == d
    ensures r.(password := d.password) == d
  {
    if d.password.Assigned? then d.(password := Kept(hash(d.password.plain))) else d
  }

  /** `comparePassword(candidate)`: bcrypt's compare against the stored digest. */
  function ComparePassword(hash: string -> Digest, stored: Digest, candidate: string): bool {
    hash(candidate) == stored
  }

  ghost predicate Injective(hash: string -> Digest) {
    forall a, b :: hash(a) == hash(b) ==> a == b
  }

  /** With an injective hash, the digest of `p` accepts `p` and nothing else. */
  lemma ComparePasswordAcceptsOnlyOriginal(hash: string -> Digest, p: string, candidate: string)
    requires Injective(hash)
    ensures ComparePassword(hash, hash(p), candidate) <==> candidate == p
  {
  }

  /**
   * The record a successful save writes. `timestamps: true` sets `createdAt`
   * on insert and `updatedAt` whenever the save changes something.
   */
  function Persist(d: Doc, prior: Option<Account>, now: int): (a: Account)
    requires d.fullName.Some? && d.email.Some? && d.password.Kept?
    ensures a.id == d.id && a.fullName == d.fullName.value && a.email == d.email.value
    ensures a.password == d.password.digest && a.role == d.role && a.status == d.status
    ensures a.lastLogin == d.lastLogin
    ensures a.createdAt == (if prior.Some? then prior.value.createdAt else now)
    ensures prior.Some? && Load(prior.value) == d ==> a == prior.value
    ensures prior.None? || Load(prior.value) != d ==> a.updatedAt == now
  {
    var createdAt := if prior.Some? then prior.value.createdAt else now;
    var a := Account(d.id, d.fullName.value, d.email.value, d.password.digest, d.role, d.status,
                     d.lastLogin, createdAt, now);
    if prior.Some? && Load(prior.value) == d then prior.value else a
  }
}
