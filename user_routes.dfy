/**
 * backend/routes/userRoutes.js: the express-validator chains for the profile
 * and password forms, the middleware sequence of every `/api/users` route,
 * and what a request meets on its way through that sequence.
 *
 * validator.js's `isEmail` and `normalizeEmail` are abstract functions. The
 * validators of a chain do not bail: every failing validator adds its own
 * message, in chain order.
 */
module UserRoutes {
  import opened Wrappers
  import opened Text
  import opened UserModel
  import opened Http
  import opened Auth
  import opened Accounts

  const NameLengthRange := "Full name must be between 2 and 100 characters"
  const ProfileEmailInvalid := "Please provide a valid email address"
  const CurrentPasswordRequired := "Current password is required"
  const NewPasswordRequired := "New password is required"
  const NewPasswordTooShort := "New password must be at least 8 characters"
  const NewPasswordTooWeak := "New password must contain at least one uppercase letter, one lowercase letter, and one number"
  const ConfirmPasswordRequired := "Please confirm your new password"
  const PasswordsDiffer := "Passwords do not match"
  const ValidationFailed := "Validation failed"

  /** What a validator sees of a field: its string, or `''` for an absent one. */
  function FieldText(v: Option<string>): string {
    if v.None? then [] else v.value
  }

  /**
   * One lookahead `(?=.*C)` at the start of the input: `.` stops at a line
   * terminator, so it scans the first line for a character of class `C`.
   */
  function LookaheadFinds(s: string, wanted: char -> bool): bool {
    if s == [] || IsLineTerminator(s[0]) then false
    else wanted(s[0]) || LookaheadFinds(s[1..], wanted)
  }

  /** The lookahead succeeds exactly when the first line holds a character of the class. */
  lemma {:induction false} LookaheadFindsIff(s: string, wanted: char -> bool)
    ensures LookaheadFinds(s, wanted) <==> exists i :: 0 <= i < |FirstLine(s)| && wanted(FirstLine(s)[i])
  {
    if s != [] && !IsLineTerminator(s[0]) {
      LookaheadFindsIff(s[1..], wanted);
      var line := FirstLine(s);
      var tail := FirstLine(s[1..]);
      assert line == [s[0]] + tail;
      assert LookaheadFinds(s, wanted) == (wanted(s[0]) || LookaheadFinds(s[1..], wanted));
      if wanted(s[0]) {
        assert line[0] == s[0] && wanted(line[0]);
        assert 0 < |FirstLine(s)| && wanted(FirstLine(s)[0]);
        assert exists i :: 0 <= i < |FirstLine(s)| && wanted(FirstLine(s)[i]);
      } else {
        assert (exists i :: 0 <= i < |line| && wanted(line[i])) <==> (exists i :: 0 <= i < |tail| && wanted(tail[i])) by {
          if exists i :: 0 <= i < |line| && wanted(line[i]) {
            var i :| 0 <= i < |line| && wanted(line[i]);
            assert i > 0 && tail[i - 1] == line[i];
          }
          if exists i :: 0 <= i < |tail| && wanted(tail[i]) {
            var i :| 0 <= i < |tail| && wanted(tail[i]);
            assert line[i + 1] == tail[i];
          }
        }
      }
    }
  }

  /** `matches(/^(?=.*[a-z])(?=.*[A-Z])(?=.*\d)/)`. */
  predicate StrongPassword(s: string) {
    && LookaheadFinds(s, IsAsciiLower)
    && LookaheadFinds(s, IsAsciiUpper)
    && LookaheadFinds(s, IsAsciiDigit)
  }

  /** The result of a validation chain: the errors it adds and the body after its sanitizers. */
  datatype Checked = Checked(errors: seq<FieldError>, body: Body)

  /** One optional field's chain: the errors it adds and the field's sanitized value. */
  datatype FieldCheck = FieldCheck(errors: seq<FieldError>, value: Option<string>)

  /** `body('fullName').optional().trim().isLength({ min: 2, max: 100 })`. */
  function NameRule(v: Option<string>): (c: FieldCheck)
    ensures c.errors == [] <==> v.Some? ==> 2 <= ValidatorLength(Trim(v.value)) <= 100
    ensures c.errors != [] ==> c.errors == [FieldError("fullName", NameLengthRange)]
    ensures c.value == if v.Some? then Some(Trim(v.value)) else None
  {
    if v.None? then FieldCheck([], None)
    else
      var t := Trim(v.value);
      FieldCheck(if 2 <= ValidatorLength(t) <= 100 then [] else [FieldError("fullName", NameLengthRange)], Some(t))
  }

  /** `body('email').optional().trim().isEmail().normalizeEmail()`; an invalid email's sanitized value is not modelled. */
  function EmailRule(v: Option<string>, isEmail: string -> bool, normalizeEmail: string -> string): (c: FieldCheck)
    ensures c.errors == [] <==> v.Some? ==> isEmail(Trim(v.value))
    ensures c.errors != [] ==> c.errors == [FieldError("email", ProfileEmailInvalid)]
    ensures v.None? ==> c.value == None
    ensures c.errors == [] && v.Some? ==> c.value == Some(normalizeEmail(Trim(v.value)))
  {
    if v.None? then FieldCheck([], None)
    else
      var t := Trim(v.value);
      if isEmail(t) then FieldCheck([], Some(normalizeEmail(t)))
      else FieldCheck([FieldError("email", ProfileEmailInvalid)], Some(t))
  }

  /**
   * `updateProfileValidation`: both fields are optional (an absent one is not
   * looked at); a present name is trimmed and must count 2 to 100; a present
   * email is trimmed, must pass `isEmail` and is then normalised. Only those
   * two fields are sanitized.
   */
  function ProfileRules(body: Body, isEmail: string -> bool, normalizeEmail: string -> string): (c: Checked)
    ensures c.errors == [] <==>
              && (body.fullName.Some? ==> 2 <= ValidatorLength(Trim(body.fullName.value)) <= 100)
              && (body.email.Some? ==> isEmail(Trim(body.email.value)))
    ensures c.body.(fullName := body.fullName, email := body.email) == body
    ensures c.body.fullName == if body.fullName.Some? then Some(Trim(body.fullName.value)) else None
    ensures body.email.None? ==> c.body.email == None
    ensures c.errors == [] && body.email.Some? ==> c.body.email == Some(normalizeEmail(Trim(body.email.value)))
  {
    var name := NameRule(body.fullName);
    var email := EmailRule(body.email, isEmail, normalizeEmail);
    Checked(name.errors + email.errors, body.(fullName := name.value, email := email.value))
  }

  /**
   * A name the schema accepts after trimming (4 to 30 UTF-16 units) passes
   * the route's 2-to-100 rule whenever it has no variation selector.
   */
  lemma SchemaNamesPassRoute(name: string)
    requires 4 <= Utf16Length(Trim(name)) <= 30
    requires forall i :: 0 <= i < |Trim(name)| ==> !IsVariationSelector(Trim(name)[i])
    ensures 2 <= ValidatorLength(Trim(name)) <= 100
  {
  }

  /** The route's rule is looser than the schema: a two-letter name passes it and then fails schema validation. */
  lemma ShortNamePassesRoute(isEmail: string -> bool, normalizeEmail: string -> string)
    ensures ProfileRules(Body(Some("Al"), None, None, None, None, None), isEmail, normalizeEmail).errors == []
    ensures FullNameViolation(Some(Trim("Al"))) == Some(FullNameTooShort)
  {
    var name := "Al";
    assert !IsJsWhitespace(name[0]) && !IsJsWhitespace(name[|name| - 1]);
    TrimIdempotent(name);
  }

  /** Likewise a 31-letter name passes the route's rule and then fails schema validation. */
  lemma LongNamePassesRoute(isEmail: string -> bool, normalizeEmail: string -> string)
    ensures var name := seq(31, _ => 'a');
            && ProfileRules(Body(Some(name), None, None, None, None, None), isEmail, normalizeEmail).errors == []
            && FullNameViolation(Some(Trim(name))) == Some(FullNameTooLong)
  {
    var name := seq(31, _ => 'a');
    assert !IsJsWhitespace(name[0]) && !IsJsWhitespace(name[|name| - 1]);
    TrimIdempotent(name);
  }

  /** The validators of `changePasswordValidation`, in chain order. */
  datatype PasswordCheck = CurrentMissing | NewMissing | NewTooShort | NewTooWeak | ConfirmMissing | ConfirmDiffers

  /** A validator's position in the chain. */
  function Ordinal(c: PasswordCheck): nat {
    match c
    case CurrentMissing => 0
    case NewMissing => 1
    case NewTooShort => 2
    case NewTooWeak => 3
    case ConfirmMissing => 4
    case ConfirmDiffers => 5
  }

  /** The field and the `withMessage` text (or the thrown message) each validator reports. */
  function Report(c: PasswordCheck): FieldError {
    match c
    case CurrentMissing => FieldError("currentPassword", CurrentPasswordRequired)
    case NewMissing => FieldError("newPassword", NewPasswordRequired)
    case NewTooShort => FieldError("newPassword", NewPasswordTooShort)
    case NewTooWeak => FieldError("newPassword", NewPasswordTooWeak)
    case ConfirmMissing => FieldError("confirmPassword", ConfirmPasswordRequired)
    case ConfirmDiffers => FieldError("confirmPassword", PasswordsDiffer)
  }

  /**
   * When each validator fails: `notEmpty` on an absent or empty field,
   * `isLength({ min: 8 })` and `matches` on the field's text, and the custom
   * validator when `confirmPassword !== newPassword`.
   */
  predicate Fails(c: PasswordCheck, body: Body) {
    match c
    case CurrentMissing => !Truthy(body.currentPassword)
    case NewMissing => !Truthy(body.newPassword)
    case NewTooShort => ValidatorLength(FieldText(body.newPassword)) < 8
    case NewTooWeak => !StrongPassword(FieldText(body.newPassword))
    case ConfirmMissing => !Truthy(body.confirmPassword)
    case ConfirmDiffers => body.confirmPassword != body.newPassword
  }

  /** The chain of `changePasswordValidation`: the fields in order, each field's validators as declared. */
  const PasswordChain := [CurrentMissing, NewMissing, NewTooShort, NewTooWeak, ConfirmMissing, ConfirmDiffers]

  predicate InChainOrder(checks: seq<PasswordCheck>) {
    forall i, j :: 0 <= i < j < |checks| ==> Ordinal(checks[i]) < Ordinal(checks[j])
  }

  /** Runs the validators of `chain` on the body; none stops the chain, so every failing one is listed. */
  function Failing(chain: seq<PasswordCheck>, body: Body): (fails: seq<PasswordCheck>)
    requires InChainOrder(chain)
    ensures forall c :: c in fails <==> c in chain && Fails(c, body)
    ensures InChainOrder(fails)
  {
    if chain == [] then []
    else
      var rest := Failing(chain[1..], body);
      forall x | x in rest ensures Ordinal(chain[0]) < Ordinal(x) {
        var j :| 0 <= j < |chain[1..]| && chain[1..][j] == x;
        assert chain[j + 1] == x;
      }
      assert forall c :: c in chain <==> c == chain[0] || c in chain[1..];
      if Fails(chain[0], body) then [chain[0]] + rest else rest
  }

  /** The failing validators of the password form, each once, in chain order. */
  function PasswordFailures(body: Body): (fails: seq<PasswordCheck>)
    ensures forall c :: c in fails <==> Fails(c, body)
    ensures InChainOrder(fails)
  {
    forall c ensures c in PasswordChain {
      assert PasswordChain[Ordinal(c)] == c;
    }
    Failing(PasswordChain, body)
  }

  /**
   * `changePasswordValidation`: the failing validators' reports, in chain
   * order. The form passes exactly when the current password is non-empty,
   * the new one counts at least 8 and matches the strength pattern, and the
   * confirmation is non-empty and equal to it.
   */
  function PasswordRules(body: Body): (errors: seq<FieldError>)
    ensures errors == [] <==>
              && Truthy(body.currentPassword)
              && body.newPassword.Some? && ValidatorLength(body.newPassword.value) >= 8 && StrongPassword(body.newPassword.value)
              && Truthy(body.confirmPassword) && body.confirmPassword == body.newPassword
  {
    var fails := PasswordFailures(body);
    assert fails == [] <==> forall c :: !Fails(c, body) by {
      if fails == [] {
        forall c ensures !Fails(c, body) { assert c !in fails; }
      }
      if fails != [] {
        assert fails[0] in fails;
      }
    }
    assert (forall c :: !Fails(c, body)) <==>
             !Fails(CurrentMissing, body) && !Fails(NewMissing, body) && !Fails(NewTooShort, body)
             && !Fails(NewTooWeak, body) && !Fails(ConfirmMissing, body) && !Fails(ConfirmDiffers, body);
    seq(|fails|, k requires 0 <= k < |fails| => Report(fails[k]))
  }

  /** Different validators report different errors. */
  lemma ReportInjective(c: PasswordCheck, d: PasswordCheck)
    ensures Report(c) == Report(d) ==> c == d
  {
    if c != d {
      assert |Report(c).message| != |Report(d).message|;
    }
  }

  /**
   * What a failing password form reports: the error of each validator that
   * fails and of no other, one entry per failing validator, in chain order.
   */
  lemma PasswordRulesReport(body: Body)
    ensures forall c :: Report(c) in PasswordRules(body) <==> Fails(c, body)
    ensures var fails := PasswordFailures(body);
            && |PasswordRules(body)| == |fails|
            && forall k :: 0 <= k < |fails| ==> PasswordRules(body)[k] == Report(fails[k])
  {
    var fails := PasswordFailures(body);
    var errors := PasswordRules(body);
    forall c ensures Report(c) in errors <==> Fails(c, body) {
      if Report(c) in errors {
        var k :| 0 <= k < |errors| && errors[k] == Report(c);
        ReportInjective(c, fails[k]);
        assert fails[k] in fails;
      }
      if Fails(c, body) {
        assert c in fails;
        var k :| 0 <= k < |fails| && fails[k] == c;
        assert errors[k] == Report(c);
      }
    }
  }

  /** The password policy, stated on the characters: at least 8, and a lower-case letter, an upper-case letter and a digit on the first line. */
  lemma PasswordPolicy(p: string)
    ensures ValidatorLength(p) >= 8 && StrongPassword(p) <==>
              && ValidatorLength(p) >= 8
              && (exists i :: 0 <= i < |FirstLine(p)| && IsAsciiLower(FirstLine(p)[i]))
              && (exists i :: 0 <= i < |FirstLine(p)| && IsAsciiUpper(FirstLine(p)[i]))
              && (exists i :: 0 <= i < |FirstLine(p)| && IsAsciiDigit(FirstLine(p)[i]))
  {
    LookaheadFindsIff(p, IsAsciiLower);
    LookaheadFindsIff(p, IsAsciiUpper);
    LookaheadFindsIff(p, IsAsciiDigit);
  }

  /** Without a new password every validator of its chain fails, so it is reported three times. */
  lemma MissingNewPasswordReportsAll(body: Body)
    requires body.newPassword.None?
    ensures FieldError("newPassword", NewPasswordRequired) in PasswordRules(body)
    ensures FieldError("newPassword", NewPasswordTooShort) in PasswordRules(body)
    ensures FieldError("newPassword", NewPasswordTooWeak) in PasswordRules(body)
  {
    assert !LookaheadFinds([], IsAsciiLower);
    PasswordRulesReport(body);
    assert Fails(NewMissing, body) && Fails(NewTooShort, body) && Fails(NewTooWeak, body);
  }

  /** The `/api/users` routes. */
  datatype Route =
    | ProfileRead
    | ProfileUpdate
    | PasswordChange
    | UserList(pageQuery: Option<int>, limitQuery: Option<int>)
    | Activate(target: IdParam)
    | Deactivate(target: IdParam)

  predicate IsAdminRoute(route: Route) {
    route.UserList? || route.Activate? || route.Deactivate?
  }

  /** The middleware of a route's handler list; `Controller` is the route's handler. */
  datatype Step = Guard | RoleGate(roles: seq<Role>) | ProfileChecks | PasswordChecks | ReportErrors | Controller

  /** The handler list each route is registered with, in order. */
  function Chain(route: Route): (steps: seq<Step>)
    ensures |steps| >= 2 && steps[0] == Guard && steps[|steps| - 1] == Controller
    ensures IsAdminRoute(route) <==> steps == [Guard, RoleGate([Admin]), Controller]
    ensures route == ProfileUpdate <==> steps == [Guard, ProfileChecks, ReportErrors, Controller]
    ensures route == PasswordChange <==> steps == [Guard, PasswordChecks, ReportErrors, Controller]
  {
    match route
    case ProfileRead => [Guard, Controller]
    case ProfileUpdate => [Guard, ProfileChecks, ReportErrors, Controller]
    case PasswordChange => [Guard, PasswordChecks, ReportErrors, Controller]
    case _ => [Guard, RoleGate([Admin]), Controller]
  }

  /** What the middleware consult: the request's header, the store, the token check at this moment, and validator.js. */
  datatype Env = Env(
    header: Option<string>,
    accounts: map<Id, Account>,
    verify: (string, int) -> Verdict,
    now: int,
    isEmail: string -> bool,
    normalizeEmail: string -> string)

  /** The request as it moves along: the attached user, the sanitized body, the collected validation errors. */
  datatype Ctx = Ctx(user: Option<PublicAccount>, body: Body, errors: seq<FieldError>)

  /** A step answers the request, or passes it on. */
  datatype Outcome = Stopped(reply: Reply) | Reached(ctx: Ctx)

  /** One middleware. `authorize` never throws, so its verdict is an answer or a pass. */
  function Apply(step: Step, ctx: Ctx, env: Env): Outcome {
    match step
    case Guard =>
      var auth := Authenticate(env.header, env.accounts, env.verify, env.now);
      if auth.Failure? then Stopped(auth.error) else Reached(ctx.(user := Some(auth.value)))
    case RoleGate(roles) =>
      var g := Authorize(ctx.user, roles);
      if g.Halt? then Stopped(g.reply) else Reached(ctx)
    case ProfileChecks =>
      var c := ProfileRules(ctx.body, env.isEmail, env.normalizeEmail);
      Reached(ctx.(body := c.body, errors := ctx.errors + c.errors))
    case PasswordChecks =>
      Reached(ctx.(errors := ctx.errors + PasswordRules(ctx.body)))
    case ReportErrors =>
      if ctx.errors != [] then Stopped(Reply(400, false, ValidationFailed, ErrorList(ctx.errors))) else Reached(ctx)
    case Controller =>
      Reached(ctx)
  }

  /** Runs the steps in order until one answers. */
  function Run(steps: seq<Step>, ctx: Ctx, env: Env): Outcome {
    if steps == [] then Reached(ctx)
    else
      match Apply(steps[0], ctx, env)
      case Stopped(reply) => Stopped(reply)
      case Reached(next) => Run(steps[1..], next, env)
  }

  /** Whether a fresh request with this body reaches the route's handler, and in what state. */
  function Admit(route: Route, env: Env, body: Body): Outcome {
    Run(Chain(route), Ctx(None, body, []), env)
  }

  /** Every route authenticates first: a refused token or account is answered by `protect` alone. */
  lemma AuthenticationFirst(route: Route, env: Env, body: Body)
    requires Authenticate(env.header, env.accounts, env.verify, env.now).Failure?
    ensures Admit(route, env, body) == Stopped(Authenticate(env.header, env.accounts, env.verify, env.now).error)
  {
  }

  /**
   * `protect` runs before `authorize('admin')`: an inactive administrator with
   * a valid token is answered 403 "deactivated" by `protect` and never meets
   * the role check.
   */
  lemma InactiveAdminStoppedByProtect(route: Route, env: Env, body: Body, id: Id)
    requires IsAdminRoute(route)
    requires BearerToken(env.header).Some? && env.verify(BearerToken(env.header).value, env.now) == Verified(id)
    requires id in env.accounts && env.accounts[id].role == Admin && env.accounts[id].status == Inactive
    ensures Admit(route, env, body) == Stopped(Fail(403, AccountDeactivated))
  {
  }

  /** An admin route's handler is reached exactly for the active administrator the token names. */
  lemma {:induction false} AdminRoutesAdmitActiveAdmins(route: Route, env: Env, body: Body)
    requires IsAdminRoute(route)
    ensures Admit(route, env, body).Reached? <==>
              exists id :: Admits(env.header, env.accounts, env.verify, env.now, id) && env.accounts[id].role == Admin
    ensures forall id | Admits(env.header, env.accounts, env.verify, env.now, id) && env.accounts[id].role == Admin ::
              Admit(route, env, body) == Reached(Ctx(Some(ToJson(env.accounts[id])), body, []))
  {
    var steps := Chain(route);
    var c0 := Ctx(None, body, []);
    var auth := Authenticate(env.header, env.accounts, env.verify, env.now);
    if auth.Success? {
      var id :| Admits(env.header, env.accounts, env.verify, env.now, id) && auth.value == ToJson(env.accounts[id]);
      var c1 := Ctx(Some(auth.value), body, []);
      assert Apply(Guard, c0, env) == Reached(c1);
      assert Run(steps, c0, env) == Run(steps[1..], c1, env);
      assert steps[1..][0] == RoleGate([Admin]) && steps[1..][1..] == [Controller];
      if env.accounts[id].role == Admin {
        assert Apply(RoleGate([Admin]), c1, env) == Reached(c1);
        assert Run(steps[1..], c1, env) == Run([Controller], c1, env);
        assert Run([Controller], c1, env) == Run([], c1, env);
      } else {
        assert Apply(RoleGate([Admin]), c1, env).Stopped?;
      }
    }
  }

  /** A step that passes the request on leaves the rest of the steps to run on the new state. */
  lemma RunPasses(steps: seq<Step>, ctx: Ctx, env: Env, next: Ctx)
    requires steps != [] && Apply(steps[0], ctx, env) == Reached(next)
    ensures Run(steps, ctx, env) == Run(steps[1..], next, env)
  {
  }

  /** The form routes' chain `[Guard, s, ReportErrors, Controller]` for an authenticated caller: 400 with the collected errors, or the handler. */
  lemma {:induction false} FormRouteRun(s: Step, env: Env, body: Body, ctx: Ctx)
    requires Authenticate(env.header, env.accounts, env.verify, env.now).Success?
    requires Apply(s, Ctx(Some(Authenticate(env.header, env.accounts, env.verify, env.now).value), body, []), env) == Reached(ctx)
    ensures ctx.errors == [] ==> Run([Guard, s, ReportErrors, Controller], Ctx(None, body, []), env) == Reached(ctx)
    ensures ctx.errors != [] ==>
              Run([Guard, s, ReportErrors, Controller], Ctx(None, body, []), env) == Stopped(Reply(400, false, ValidationFailed, ErrorList(ctx.errors)))
  {
    var steps := [Guard, s, ReportErrors, Controller];
    var c1 := Ctx(Some(Authenticate(env.header, env.accounts, env.verify, env.now).value), body, []);
    assert steps[1..] == [s, ReportErrors, Controller];
    assert steps[1..][1..] == [ReportErrors, Controller];
    RunPasses(steps, Ctx(None, body, []), env, c1);
    RunPasses(steps[1..], c1, env, ctx);
    if ctx.errors == [] {
      RunPasses([ReportErrors, Controller], ctx, env, ctx);
      RunPasses([Controller], ctx, env, ctx);
      assert [Controller][1..] == [];
    }
  }

  /**
   * The password route's handler is reached exactly for an authenticated
   * caller whose form passes every rule; a failing form is answered 400 with
   * all of its errors.
   */
  lemma PasswordRouteAdmission(env: Env, body: Body)
    requires Authenticate(env.header, env.accounts, env.verify, env.now).Success?
    ensures var user := Authenticate(env.header, env.accounts, env.verify, env.now).value;
            && (PasswordRules(body) == [] ==> Admit(PasswordChange, env, body) == Reached(Ctx(Some(user), body, [])))
            && (PasswordRules(body) != [] ==>
                  Admit(PasswordChange, env, body) == Stopped(Reply(400, false, ValidationFailed, ErrorList(PasswordRules(body)))))
  {
    var user := Authenticate(env.header, env.accounts, env.verify, env.now).value;
    FormRouteRun(PasswordChecks, env, body, Ctx(Some(user), body, PasswordRules(body)));
  }

  /**
   * The profile route's handler is reached exactly for an authenticated
   * caller whose form passes, and it then sees the sanitized body.
   */
  lemma ProfileRouteAdmission(env: Env, body: Body)
    requires Authenticate(env.header, env.accounts, env.verify, env.now).Success?
    ensures var user := Authenticate(env.header, env.accounts, env.verify, env.now).value;
            var c := ProfileRules(body, env.isEmail, env.normalizeEmail);
            && (c.errors == [] ==> Admit(ProfileUpdate, env, body) == Reached(Ctx(Some(user), c.body, [])))
            && (c.errors != [] ==> Admit(ProfileUpdate, env, body) == Stopped(Reply(400, false, ValidationFailed, ErrorList(c.errors))))
  {
    var user := Authenticate(env.header, env.accounts, env.verify, env.now).value;
    var c := ProfileRules(body, env.isEmail, env.normalizeEmail);
    FormRouteRun(ProfileChecks, env, body, Ctx(Some(user), c.body, c.errors));
  }

  /** The profile read is reached by every authenticated caller. */
  lemma ProfileReadAdmission(env: Env, body: Body)
    requires Authenticate(env.header, env.accounts, env.verify, env.now).Success?
    ensures Admit(ProfileRead, env, body) == Reached(Ctx(Some(Authenticate(env.header, env.accounts, env.verify, env.now).value), body, []))
  {
    var c1 := Ctx(Some(Authenticate(env.header, env.accounts, env.verify, env.now).value), body, []);
    assert Run([Guard, Controller], Ctx(None, body, []), env) == Run([Controller], c1, env);
    assert Run([Controller], c1, env) == Run([], c1, env);
  }

  /** After `protect` passes, an admin route answers with `authorize('admin')`'s refusal or reaches its handler. */
  lemma AdminRouteRun(route: Route, env: Env, body: Body)
    requires IsAdminRoute(route)
    requires Authenticate(env.header, env.accounts, env.verify, env.now).Success?
    ensures var user := Authenticate(env.header, env.accounts, env.verify, env.now).value;
            var g := Authorize(Some(user), [Admin]);
            Admit(route, env, body) == if g.Halt? then Stopped(g.reply) else Reached(Ctx(Some(user), body, []))
  {
    var c1 := Ctx(Some(Authenticate(env.header, env.accounts, env.verify, env.now).value), body, []);
    var steps := [Guard, RoleGate([Admin]), Controller];
    assert steps[1..] == [RoleGate([Admin]), Controller] && steps[1..][1..] == [Controller];
    assert Run(steps, Ctx(None, body, []), env) == Run(steps[1..], c1, env);
    if Authorize(c1.user, [Admin]) == Next {
      assert Run(steps[1..], c1, env) == Run([Controller], c1, env);
      assert Run([Controller], c1, env) == Run([], c1, env);
    }
  }

  /**
   * The handler each route is registered with, run for the caller `callerId`
   * on the body it receives: `GET /profile` is `getProfile`, `PUT /profile`
   * is `updateProfile`, `PUT /change-password` is `changePassword`, `GET /`
   * is `getAllUsers`, `PUT /:id/activate` is `activateUser` and
   * `PUT /:id/deactivate` is `deactivateUser`. No handler allocates an id.
   */
  predicate Handled(route: Route, hash: string -> Digest, emailPattern: string -> bool, now: int, callerId: Id, body: Body,
                    before: map<Id, Account>, beforeNext: nat, after: map<Id, Account>, afterNext: nat, reply: Reply)
  {
    && afterNext == beforeNext
    && match route
       case ProfileRead => ReadsProfile(before, callerId, reply) && after == before
       case ProfileUpdate => UpdatesProfile(before, beforeNext, emailPattern, callerId, body, now, reply, after)
       case PasswordChange => ChangesPassword(before, hash, callerId, body, now, reply, after)
       case UserList(pageQuery, limitQuery) => ListsUsers(before, beforeNext, pageQuery, limitQuery, reply) && after == before
       case Activate(target) => SetsStatus(before, target, callerId, Active, now, reply, after)
       case Deactivate(target) => SetsStatus(before, target, callerId, Inactive, now, reply, after)
  }

  /**
   * What serving a request on `route` promises, given its admission outcome
   * `adm`: a request answered before the handler gets that answer and leaves
   * the accounts as they were; a request that reaches the handler carries the
   * attached user and the sanitized body, and gets the route's own handler
   * run for that user on that body.
   */
  predicate Serves(adm: Outcome, route: Route, hash: string -> Digest, emailPattern: string -> bool, now: int,
                   reply: Reply, before: map<Id, Account>, beforeNext: nat, after: map<Id, Account>, afterNext: nat,
                   user: Option<PublicAccount>, body: Body)
  {
    && (adm.Stopped? ==> reply == adm.reply && after == before && afterNext == beforeNext)
    && (adm.Reached? ==>
          && user == adm.ctx.user && body == adm.ctx.body && user.Some?
          && Handled(route, hash, emailPattern, now, user.value.id, body, before, beforeNext, after, afterNext, reply))
  }

  /** The rest of `GET /profile` once `protect` has passed. */
  method ServeProfileRead(store: Store, req: Request, ghost env: Env) returns (reply: Reply)
    requires store.Valid()
    requires env.accounts == store.accounts && env.verify == store.tokens.verify
    requires Authenticate(env.header, env.accounts, env.verify, env.now).Success?
    requires req.user == Some(Authenticate(env.header, env.accounts, env.verify, env.now).value)
    ensures Serves(Admit(ProfileRead, env, req.body), ProfileRead, store.hash, store.emailPattern, env.now, reply, store.accounts, store.nextId, store.accounts, store.nextId, req.user, req.body)
  {
    ProfileReadAdmission(env, req.body);
    reply := store.GetProfile(req.user.value.id);
  }

  /** How the profile route's outcome follows from its validation and `updateProfile`'s effect on the sanitized body. */
  lemma ProfileUpdateServed(env: Env, body: Body, user: Option<PublicAccount>, hash: string -> Digest, emailPattern: string -> bool,
                            before: map<Id, Account>, beforeNext: nat, after: map<Id, Account>, afterNext: nat, reply: Reply)
    requires Authenticate(env.header, env.accounts, env.verify, env.now).Success?
    requires user == Some(Authenticate(env.header, env.accounts, env.verify, env.now).value)
    requires var c := ProfileRules(body, env.isEmail, env.normalizeEmail);
             && (c.errors != [] ==>
                   reply == Reply(400, false, ValidationFailed, ErrorList(c.errors)) && after == before && afterNext == beforeNext)
             && (c.errors == [] ==>
                   UpdatesProfile(before, beforeNext, emailPattern, user.value.id, c.body, env.now, reply, after) && afterNext == beforeNext)
    ensures Serves(Admit(ProfileUpdate, env, body), ProfileUpdate, hash, emailPattern, env.now, reply, before, beforeNext, after, afterNext,
                   user, ProfileRules(body, env.isEmail, env.normalizeEmail).body)
  {
    ProfileRouteAdmission(env, body);
  }

  /** The rest of `PUT /profile` once `protect` has passed: validation, the error report, `updateProfile`. */
  method ServeProfileUpdate(store: Store, req: Request, now: int, isEmail: string -> bool, normalizeEmail: string -> string,
                            ghost env: Env) returns (reply: Reply)
    requires store.Valid()
    requires env.accounts == store.accounts && env.verify == store.tokens.verify && env.now == now
    requires env.isEmail == isEmail && env.normalizeEmail == normalizeEmail
    requires Authenticate(env.header, env.accounts, env.verify, env.now).Success?
    requires req.user == Some(Authenticate(env.header, env.accounts, env.verify, env.now).value)
    requires req.validationErrors == []
    modifies store, req
    ensures store.Valid()
    ensures req.user == old(req.user)
    ensures Serves(Admit(ProfileUpdate, env, old(req.body)), ProfileUpdate, store.hash, store.emailPattern, now, reply, old(store.accounts), old(store.nextId), store.accounts, store.nextId,
                   req.user, req.body)
  {
    ghost var before, beforeNext, submitted := store.accounts, store.nextId, req.body;
    var checked := ProfileRules(req.body, isEmail, normalizeEmail);
    req.body := checked.body;
    req.validationErrors := req.validationErrors + checked.errors;
    assert req.validationErrors == checked.errors;
    if req.validationErrors != [] {
      reply := Reply(400, false, ValidationFailed, ErrorList(req.validationErrors));
    } else {
      reply := store.UpdateProfile(req.user.value.id, req.body, now);
    }
    ProfileUpdateServed(env, submitted, req.user, store.hash, store.emailPattern, before, beforeNext, store.accounts, store.nextId, reply);
  }

  /** How the password route's outcome follows from its validation and `changePassword`'s effect. */
  lemma PasswordChangeServed(env: Env, body: Body, user: Option<PublicAccount>, hash: string -> Digest, emailPattern: string -> bool,
                             before: map<Id, Account>, beforeNext: nat, after: map<Id, Account>, afterNext: nat, reply: Reply)
    requires Authenticate(env.header, env.accounts, env.verify, env.now).Success?
    requires user == Some(Authenticate(env.header, env.accounts, env.verify, env.now).value)
    requires PasswordRules(body) != [] ==>
               reply == Reply(400, false, ValidationFailed, ErrorList(PasswordRules(body))) && after == before && afterNext == beforeNext
    requires PasswordRules(body) == [] ==>
               ChangesPassword(before, hash, user.value.id, body, env.now, reply, after) && afterNext == beforeNext
    ensures Serves(Admit(PasswordChange, env, body), PasswordChange, hash, emailPattern, env.now, reply, before, beforeNext, after, afterNext,
                   user, body)
  {
    PasswordRouteAdmission(env, body);
  }

  /** The rest of `PUT /change-password` once `protect` has passed: validation, the error report, `changePassword`. */
  method ServePasswordChange(store: Store, req: Request, now: int, ghost env: Env) returns (reply: Reply)
    requires store.Valid()
    requires env.accounts == store.accounts && env.verify == store.tokens.verify && env.now == now
    requires Authenticate(env.header, env.accounts, env.verify, env.now).Success?
    requires req.user == Some(Authenticate(env.header, env.accounts, env.verify, env.now).value)
    requires req.validationErrors == []
    modifies store, req
    ensures store.Valid()
    ensures req.user == old(req.user) && req.body == old(req.body)
    ensures Serves(Admit(PasswordChange, env, req.body), PasswordChange, store.hash, store.emailPattern, now, reply, old(store.accounts), old(store.nextId), store.accounts, store.nextId,
                   req.user, req.body)
  {
    ghost var before, beforeNext := store.accounts, store.nextId;
    req.validationErrors := req.validationErrors + PasswordRules(req.body);
    assert req.validationErrors == PasswordRules(req.body);
    if req.validationErrors != [] {
      reply := Reply(400, false, ValidationFailed, ErrorList(req.validationErrors));
    } else {
      reply := store.ChangePassword(req.user.value.id, req.body, now);
    }
    PasswordChangeServed(env, req.body, req.user, store.hash, store.emailPattern, before, beforeNext, store.accounts, store.nextId, reply);
  }

  /** The rest of an admin route once `protect` has passed: `authorize('admin')`, then the listing or the status change. */
  method ServeAdmin(store: Store, req: Request, route: Route, now: int, ghost env: Env) returns (reply: Reply)
    requires store.Valid() && IsAdminRoute(route)
    requires env.accounts == store.accounts && env.verify == store.tokens.verify && env.now == now
    requires Authenticate(env.header, env.accounts, env.verify, env.now).Success?
    requires req.user == Some(Authenticate(env.header, env.accounts, env.verify, env.now).value)
    modifies store
    ensures store.Valid()
    ensures Serves(Admit(route, env, req.body), route, store.hash, store.emailPattern, now, reply, old(store.accounts), old(store.nextId), store.accounts, store.nextId,
                   req.user, req.body)
    ensures route.UserList? ==> store.accounts == old(store.accounts)
  {
    AdminRouteRun(route, env, req.body);
    var a := Authorize(req.user, [Admin]);
    if a.Halt? {
      return a.reply;
    }
    match route {
      case UserList(pageQuery, limitQuery) =>
        reply := store.GetAllUsers(pageQuery, limitQuery);
      case Activate(target) =>
        reply := store.SetStatus(target, req.user.value.id, Active, now);
      case Deactivate(target) =>
        reply := store.SetStatus(target, req.user.value.id, Inactive, now);
    }
  }

  /**
   * Serves one `/api/users` request: its middleware in order, then the route's
   * handler with the caller `protect` attached. Whatever answers before the
   * handler leaves the store as it was.
   */
  method Dispatch(store: Store, req: Request, route: Route, now: int,
                  isEmail: string -> bool, normalizeEmail: string -> string) returns (reply: Reply)
    requires store.Valid()
    requires req.validationErrors == []
    modifies store, req
    ensures store.Valid()
    ensures Serves(Admit(route, Env(old(req.authorization), old(store.accounts), store.tokens.verify, now, isEmail, normalizeEmail), old(req.body)),
                   route, store.hash, store.emailPattern, now, reply, old(store.accounts), old(store.nextId), store.accounts, store.nextId, req.user, req.body)
    ensures route.ProfileRead? || route.UserList? ==> store.accounts == old(store.accounts)
  {
    ghost var env := Env(req.authorization, store.accounts, store.tokens.verify, now, isEmail, normalizeEmail);
    var g := Protect(req, store.accounts, store.tokens.verify, now);
    if g.Halt? {
      AuthenticationFirst(route, env, req.body);
      return g.reply;
    }
    match route {
      case ProfileRead =>
        reply := ServeProfileRead(store, req, env);
      case ProfileUpdate =>
        reply := ServeProfileUpdate(store, req, now, isEmail, normalizeEmail, env);
      case PasswordChange =>
        reply := ServePasswordChange(store, req, now, env);
      case _ =>
        reply := ServeAdmin(store, req, route, now, env);
    }
  }
}
