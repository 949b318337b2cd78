/**
 * The zod schemas of the front end's forms (`validations/auth.ts`,
 * `validations/user.ts`, `validations/item.ts`) and the field errors
 * `safeParse(...).error.flatten().fieldErrors` reports for them.
 *
 * A field's value is untyped, as it arrives from a form or a JSON body. A
 * value of the wrong type fails with zod's type message and stops the
 * object's refinements; on a string, every length or format check runs and
 * each failing one contributes its message, in declaration order.
 */
module FormSchemas {
  import opened Common
  import Models

  /** A field value as zod receives it. */
  datatype Value = Undefined | Null | Str(s: string) | Bool(b: bool)

  function TypeName(v: Value): string
  {
    match v
    case Undefined => "undefined"
    case Null => "null"
    case Str(_) => "string"
    case Bool(_) => "boolean"
  }

  /** A check on a string: `.min(n)`, `.max(n)` or `.email()`, each with its message. */
  datatype Check = Min(n: nat, message: string) | Max(n: nat, message: string) | Email(message: string)

  predicate Passes(c: Check, s: string)
  {
    match c
    case Min(n, _) => |s| >= n
    case Max(n, _) => |s| <= n
    case Email(_) => Models.EmailFormat(s)
  }

  /** The messages of the failing checks, in order. */
  function Issues(checks: seq<Check>, s: string): (r: seq<string>)
    ensures r == [] <==> forall i :: 0 <= i < |checks| ==> Passes(checks[i], s)
    ensures forall i :: 0 <= i < |checks| && !Passes(checks[i], s) ==> checks[i].message in r
    ensures |r| <= |checks|
  {
    if checks == [] then []
    else (if Passes(checks[0], s) then [] else [checks[0].message]) + Issues(checks[1..], s)
  }

  const RequiredMessage := "Required"
  const DefaultEmailMessage := "Invalid email"

  /** `z.string()` followed by `checks`. */
  function StringField(v: Value, checks: seq<Check>): (r: seq<string>)
    ensures r == [] <==> v.Str? && forall i :: 0 <= i < |checks| ==> Passes(checks[i], v.s)
  {
    match v
    case Undefined => [RequiredMessage]
    case Str(s) => Issues(checks, s)
    case _ => ["Expected string, received " + TypeName(v)]
  }

  /** `z.string()...optional()`: an absent field passes. */
  function OptionalStringField(v: Value, checks: seq<Check>): (r: seq<string>)
    ensures r == [] <==> v.Undefined? || (v.Str? && forall i :: 0 <= i < |checks| ==> Passes(checks[i], v.s))
  {
    if v.Undefined? then [] else StringField(v, checks)
  }

  /** `z.boolean()`. */
  function BoolField(v: Value): (r: seq<string>)
    ensures r == [] <==> v.Bool?
  {
    match v
    case Undefined => [RequiredMessage]
    case Bool(_) => []
    case _ => ["Expected boolean, received " + TypeName(v)]
  }

  /** `z.boolean().optional()`. */
  function OptionalBoolField(v: Value): (r: seq<string>)
    ensures r == [] <==> v.Undefined? || v.Bool?
  {
    if v.Undefined? then [] else BoolField(v)
  }

  /** `fieldErrors`: the fields with at least one message. */
  type FieldErrors = map<string, seq<string>>

  function Collect(fields: seq<(string, seq<string>)>): (r: FieldErrors)
    ensures forall k :: k in r ==> r[k] != []
    ensures r == map[] <==> forall i :: 0 <= i < |fields| ==> fields[i].1 == []
    ensures forall i :: 0 <= i < |fields| && fields[i].1 != [] ==> fields[i].0 in r
    ensures r.Keys <= set i | 0 <= i < |fields| :: fields[i].0
    ensures forall i, m :: 0 <= i < |fields| && m in fields[i].1 ==> fields[i].0 in r && m in r[fields[i].0]
  {
    if fields == [] then map[]
    else
      var rest := Collect(fields[1..]);
      assert forall i :: 1 <= i < |fields| ==> fields[1..][i - 1] == fields[i];
      if fields[0].1 == [] then rest
      else if fields[0].0 in rest then rest[fields[0].0 := fields[0].1 + rest[fields[0].0]]
      else rest[fields[0].0 := fields[0].1]
  }

  /** A field that all of `checks` accept and that has no other check contributes nothing. */
  predicate AllPass(checks: seq<Check>, s: string)
  {
    forall i :: 0 <= i < |checks| ==> Passes(checks[i], s)
  }

  // ---------------------------------------------------------------------------
  // validations/auth.ts

  const EmailRequired := "Email is required"
  const InvalidEmailAddress := "Invalid email address"
  const PasswordRequired := "Password is required"
  const PasswordTooShort := "Password must be at least 6 characters"
  const PasswordTooLong := "password is too long"

  function LoginEmailChecks(): seq<Check>
  {
    [Min(1, EmailRequired), Email(InvalidEmailAddress)]
  }

  function LoginPasswordChecks(): seq<Check>
  {
    [Min(1, PasswordRequired), Min(6, PasswordTooShort), Max(255, PasswordTooLong)]
  }

  /** `loginSchema`'s field errors. */
  function LoginErrors(email: Value, password: Value): (r: FieldErrors)
    ensures r.Keys <= {"email", "password"}
    ensures r == map[] <==>
              StringField(email, LoginEmailChecks()) == [] && StringField(password, LoginPasswordChecks()) == []
  {
    var fields := [("email", StringField(email, LoginEmailChecks())),
                   ("password", StringField(password, LoginPasswordChecks()))];
    assert (forall i :: 0 <= i < |fields| ==> fields[i].1 == []) <==> fields[0].1 == [] && fields[1].1 == [];
    Collect(fields)
  }

  /** The login form accepts exactly a formatted address and a password of 6 to 255 characters. */
  lemma LoginValidIff(email: string, password: string)
    ensures LoginErrors(Str(email), Str(password)) == map[] <==>
              email != "" && Models.EmailFormat(email) && 6 <= |password| <= 255
  {
    var ec := LoginEmailChecks();
    var pc := LoginPasswordChecks();
    if email != "" && Models.EmailFormat(email) && 6 <= |password| <= 255 {
      assert Passes(ec[0], email) && Passes(ec[1], email);
      assert AllPass(ec, email);
      assert Passes(pc[0], password) && Passes(pc[1], password) && Passes(pc[2], password);
      assert AllPass(pc, password);
    }
    if LoginErrors(Str(email), Str(password)) == map[] {
      assert Passes(ec[0], email) && Passes(ec[1], email);
      assert Passes(pc[1], password) && Passes(pc[2], password);
    }
  }

  /** Empty fields are reported with their "required" messages. */
  lemma LoginEmptyFields(email: Value, password: Value)
    ensures email == Str("") ==> "email" in LoginErrors(email, password)
                                 && EmailRequired in LoginErrors(email, password)["email"]
    ensures password == Str("") ==> "password" in LoginErrors(email, password)
                                    && PasswordRequired in LoginErrors(email, password)["password"]
  {
    var ef := StringField(email, LoginEmailChecks());
    var pf := StringField(password, LoginPasswordChecks());
    var fields := [("email", ef), ("password", pf)];
    if email == Str("") {
      assert !Passes(LoginEmailChecks()[0], "");
      assert EmailRequired in ef;
      assert fields[0].1 != [];
    }
    if password == Str("") {
      assert !Passes(LoginPasswordChecks()[0], "");
      assert PasswordRequired in pf;
      assert fields[1].1 != [];
    }
  }

  /** `userSchema`: `id` and `email` required, `name` optional. */
  predicate UserSchemaValid(id: Value, email: Value, name: Value)
  {
    StringField(id, []) == [] && StringField(email, [Email(DefaultEmailMessage)]) == []
    && OptionalStringField(name, []) == []
  }

  /** A `user` field: not an object at all, or an object with its three fields. */
  datatype UserValue = NotObject(v: Value) | UserObject(id: Value, email: Value, name: Value)

  /** `authResponseSchema`: `message`, `token` and a valid `user` object are all required. */
  predicate AuthResponseValid(message: Value, token: Value, user: UserValue)
  {
    StringField(message, []) == [] && StringField(token, []) == []
    && user.UserObject? && UserSchemaValid(user.id, user.email, user.name)
  }

  /** The shapes `userSchema` and `authResponseSchema` accept, as field types. */
  lemma ResponseSchemasIff(message: Value, token: Value, user: UserValue)
    ensures AuthResponseValid(message, token, user) <==>
              message.Str? && token.Str? && user.UserObject? && user.id.Str? && user.email.Str?
              && Models.EmailFormat(user.email.s) && (user.name.Undefined? || user.name.Str?)
  {
    if user.UserObject? && user.email.Str? && Models.EmailFormat(user.email.s) {
      assert AllPass([Email(DefaultEmailMessage)], user.email.s);
    }
  }

  // ---------------------------------------------------------------------------
  // validations/user.ts

  const FullNameTooShort := "full name must be greater than 3 characters"
  const CreatePasswordTooShort := "password must be greater than 3 characters"

  /** `userCreateSchema`'s field errors. */
  function UserCreateErrors(email: Value, fullName: Value, isSuperuser: Value, isActive: Value, password: Value)
    : (r: FieldErrors)
    ensures r == map[] <==>
              StringField(email, [Email(DefaultEmailMessage)]) == []
              && StringField(fullName, [Min(3, FullNameTooShort)]) == []
              && OptionalBoolField(isSuperuser) == [] && BoolField(isActive) == []
              && StringField(password, [Min(3, CreatePasswordTooShort)]) == []
  {
    var fields := [("email", StringField(email, [Email(DefaultEmailMessage)])),
                   ("full_name", StringField(fullName, [Min(3, FullNameTooShort)])),
                   ("is_superuser", OptionalBoolField(isSuperuser)),
                   ("is_active", BoolField(isActive)),
                   ("password", StringField(password, [Min(3, CreatePasswordTooShort)]))];
    assert (forall i :: 0 <= i < |fields| ==> fields[i].1 == []) <==>
      fields[0].1 == [] && fields[1].1 == [] && fields[2].1 == [] && fields[3].1 == [] && fields[4].1 == [];
    Collect(fields)
  }

  /** `userUpdateSchema`: only the address is required. */
  function UserUpdateErrors(email: Value, fullName: Value, isSuperuser: Value, isActive: Value): (r: FieldErrors)
    ensures r == map[] <==>
              email.Str? && Models.EmailFormat(email.s)
              && (fullName.Undefined? || fullName.Str?)
              && (isSuperuser.Undefined? || isSuperuser.Bool?) && (isActive.Undefined? || isActive.Bool?)
  {
    var fields := [("email", StringField(email, [Email(DefaultEmailMessage)])),
                   ("full_name", OptionalStringField(fullName, [])),
                   ("is_superuser", OptionalBoolField(isSuperuser)),
                   ("is_active", OptionalBoolField(isActive))];
    assert email.Str? && Models.EmailFormat(email.s) ==> AllPass([Email(DefaultEmailMessage)], email.s);
    assert fields[0].1 == [] <==> email.Str? && Models.EmailFormat(email.s);
    assert (forall i :: 0 <= i < |fields| ==> fields[i].1 == []) <==>
      fields[0].1 == [] && fields[1].1 == [] && fields[2].1 == [] && fields[3].1 == [];
    Collect(fields)
  }

  const ProfileEmailMessage := "Please enter a valid email address."
  const ProfileNameMessage := "Name must be at least 2 characters."

  /** `profileFormSchema`: a formatted address and a name of at least 2 characters. */
  function ProfileErrors(email: Value, fullName: Value, isActive: Value, isSuperuser: Value): (r: FieldErrors)
    ensures r == map[] <==>
              email.Str? && Models.EmailFormat(email.s) && fullName.Str? && |fullName.s| >= 2
              && (isActive.Undefined? || isActive.Bool?) && (isSuperuser.Undefined? || isSuperuser.Bool?)
  {
    var fields := [("email", StringField(email, [Email(ProfileEmailMessage)])),
                   ("full_name", StringField(fullName, [Min(2, ProfileNameMessage)])),
                   ("is_active", OptionalBoolField(isActive)),
                   ("is_superuser", OptionalBoolField(isSuperuser))];
    assert email.Str? && Models.EmailFormat(email.s) ==> AllPass([Email(ProfileEmailMessage)], email.s);
    assert fullName.Str? && |fullName.s| >= 2 ==> AllPass([Min(2, ProfileNameMessage)], fullName.s);
    assert fields[0].1 == [] <==> email.Str? && Models.EmailFormat(email.s);
    assert fields[1].1 == [] <==> fullName.Str? && |fullName.s| >= 2;
    assert (forall i :: 0 <= i < |fields| ==> fields[i].1 == []) <==>
      fields[0].1 == [] && fields[1].1 == [] && fields[2].1 == [] && fields[3].1 == [];
    Collect(fields)
  }

  const CurrentPasswordRequired := "Current password is required."
  const NewPasswordTooShort := "New password must be at least 8 characters."
  const ConfirmPasswordTooShort := "Please confirm your new password."
  const PasswordsDontMatch := "Passwords don't match."

  /** The field errors of the three password fields, before the refinement. */
  function PasswordFieldErrors(current: Value, newPassword: Value, confirm: Value): (r: FieldErrors)
    ensures r == map[] <==>
              StringField(current, [Min(1, CurrentPasswordRequired)]) == []
              && StringField(newPassword, [Min(8, NewPasswordTooShort)]) == []
              && StringField(confirm, [Min(8, ConfirmPasswordTooShort)]) == []
  {
    var fields := [("current_password", StringField(current, [Min(1, CurrentPasswordRequired)])),
                   ("new_password", StringField(newPassword, [Min(8, NewPasswordTooShort)])),
                   ("confirm_password", StringField(confirm, [Min(8, ConfirmPasswordTooShort)]))];
    assert (forall i :: 0 <= i < |fields| ==> fields[i].1 == []) <==>
      fields[0].1 == [] && fields[1].1 == [] && fields[2].1 == [];
    Collect(fields)
  }

  /**
   * `passwordFormSchema`: the field errors, then, when all three fields are
   * strings, "Passwords don't match." on `confirm_password` if the two new
   * passwords differ.
   */
  function PasswordFormErrors(current: Value, newPassword: Value, confirm: Value): (r: FieldErrors)
    ensures current.Str? && newPassword.Str? && confirm.Str? && newPassword.s != confirm.s ==>
              "confirm_password" in r && PasswordsDontMatch in r["confirm_password"]
  {
    var base := PasswordFieldErrors(current, newPassword, confirm);
    if current.Str? && newPassword.Str? && confirm.Str? && newPassword.s != confirm.s then
      var earlier := if "confirm_password" in base then base["confirm_password"] else [];
      base["confirm_password" := earlier + [PasswordsDontMatch]]
    else base
  }

  /** The password form accepts exactly a current password and two equal new passwords of at least 8 characters. */
  lemma PasswordFormValidIff(current: string, newPassword: string, confirm: string)
    ensures PasswordFormErrors(Str(current), Str(newPassword), Str(confirm)) == map[] <==>
              |current| >= 1 && |newPassword| >= 8 && |confirm| >= 8 && newPassword == confirm
  {
    var cc := [Min(1, CurrentPasswordRequired)];
    var nc := [Min(8, NewPasswordTooShort)];
    var fc := [Min(8, ConfirmPasswordTooShort)];
    if |current| >= 1 && |newPassword| >= 8 && |confirm| >= 8 {
      assert AllPass(cc, current) && AllPass(nc, newPassword) && AllPass(fc, confirm);
    }
    if PasswordFormErrors(Str(current), Str(newPassword), Str(confirm)) == map[] {
      assert newPassword == confirm;
      assert Passes(cc[0], current) && Passes(nc[0], newPassword) && Passes(fc[0], confirm);
    }
  }

  // ---------------------------------------------------------------------------
  // validations/item.ts

  const TitleRequired := "item title is required"
  const DescriptionTooShort := "Item description"
  const DescriptionTooLong := "item description is too long"

  /** `itemSchema`: a non-empty title and a description of 3 to 2000 characters. */
  function ItemErrors(title: Value, description: Value): (r: FieldErrors)
    ensures r.Keys <= {"title", "description"}
    ensures r == map[] <==>
              title.Str? && |title.s| >= 1 && description.Str? && 3 <= |description.s| <= 2000
  {
    var dc := [Min(3, DescriptionTooShort), Max(2000, DescriptionTooLong)];
    var fields := [("title", StringField(title, [Min(1, TitleRequired)])),
                   ("description", StringField(description, dc))];
    assert title.Str? && |title.s| >= 1 ==> AllPass([Min(1, TitleRequired)], title.s);
    assert description.Str? && 3 <= |description.s| <= 2000 ==> AllPass(dc, description.s);
    assert fields[1].1 == [] ==> Passes(dc[0], description.s) && Passes(dc[1], description.s);
    assert fields[0].1 == [] <==> title.Str? && |title.s| >= 1;
    assert (forall i :: 0 <= i < |fields| ==> fields[i].1 == []) <==> fields[0].1 == [] && fields[1].1 == [];
    Collect(fields)
  }

  // ---------------------------------------------------------------------------
  // Where the forms and the backend disagree

  /** A password of 3 characters passes `userCreateSchema` but not the backend's 8-character minimum. */
  lemma CreatePasswordLooserThanBackend()
    ensures UserCreateErrors(Str("a@b.c"), Str("Ann"), Undefined, Bool(true), Str("abc")) == map[]
    ensures !Models.ValidPassword("abc")
  {
    assert "a@b.c"[1] == '@';
    assert AllPass([Email(DefaultEmailMessage)], "a@b.c");
  }

  /** A 256-character description passes `itemSchema` but not the backend's 255-character maximum. */
  lemma DescriptionLooserThanBackend(description: string)
    requires |description| == 256
    ensures ItemErrors(Str("t"), Str(description)) == map[]
    ensures !Models.ItemCreate("t", Some(description)).Valid()
  {
  }

  /** The backend accepts an item without a description, which `itemSchema` refuses. */
  lemma DescriptionStricterThanBackend()
    ensures ItemErrors(Str("t"), Undefined) != map[]
    ensures Models.ItemCreate("t", None).Valid()
  {
  }

  /** The password form sets no maximum, while the backend stops at 40 characters. */
  lemma NewPasswordHasNoMaximum(current: string, newPassword: string)
    requires |current| >= 1 && |newPassword| == 41
    ensures PasswordFormErrors(Str(current), Str(newPassword), Str(newPassword)) == map[]
    ensures !Models.UpdatePassword(current, newPassword).Valid()
  {
    PasswordFormValidIff(current, newPassword, newPassword);
  }
}
