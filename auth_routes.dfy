/** Registration (routes/auth.js): `registerValidator` and `POST /register`.

    `validator.isEmail` is the parameter `isEmail` and `bcrypt.hash` the
    parameter `hash`. Login is not part of this model. */
module AuthRoutes {
  import opened Common
  import opened Database
  import opened UserModel

  /** The registration form. */
  datatype RegisterBody = RegisterBody(
    username: Option<string>,
    email: Option<string>,
    password: Option<string>,
    confirmPassword: Option<string>)

  /** The keys of the `errors` object. */
  datatype Field = Username | Email | Password | ConfirmPassword

  /** The message recorded under a key. */
  datatype FieldError =
    | UsernameEmpty
    | EmailInvalid
    | PasswordEmpty
    | PasswordTooShort    // fewer than 12 UTF-16 code units
    | PasswordNoUpper     // no `A`-`Z`
    | PasswordNoLower     // no `a`-`z`
    | PasswordMismatch    // differs from the confirmation

  predicate HasUpper(p: string) {
    exists i | 0 <= i < |p| :: 'A' <= p[i] <= 'Z'
  }

  predicate HasLower(p: string) {
    exists i | 0 <= i < |p| :: 'a' <= p[i] <= 'z'
  }

  const MinPasswordLength: nat := 12

  /** `s.length`: JavaScript counts UTF-16 code units, so a character
      outside the Basic Multilingual Plane counts twice. */
  function Utf16Length(s: string): (n: nat)
    ensures |s| <= n <= 2 * |s|
    ensures n == 0 <==> s == []
  {
    if s == [] then 0
    else (if s[0] as int >= 0x1_0000 then 2 else 1) + Utf16Length(s[1..])
  }

  /** Without characters outside the Basic Multilingual Plane, the length
      is the number of characters. */
  lemma {:induction false} Utf16LengthBmp(s: string)
    requires forall i | 0 <= i < |s| :: s[i] as int < 0x1_0000
    ensures Utf16Length(s) == |s|
  {
    if s != [] {
      Utf16LengthBmp(s[1..]);
    }
  }

  /** Eleven characters, one of them an emoji, are twelve code units: long
      enough for the length rule. */
  lemma EmojiCountsTwice()
    ensures var p := "Aabcdefghi\U{1F600}";
      |p| == 11 && Utf16Length(p) == MinPasswordLength && PasswordRule(p).None?
  {
    var p := "Aabcdefghi\U{1F600}";
    assert HasUpper(p) by { assert 'A' <= p[0] <= 'Z'; }
    assert HasLower(p) by { assert 'a' <= p[1] <= 'z'; }
  }

  /** The password rules in their order; only the first that fails is
      reported. */
  function PasswordRule(p: string): (r: Option<FieldError>)
    ensures r == Some(PasswordEmpty) <==> p == ""
    ensures r == Some(PasswordTooShort) <==> 0 < Utf16Length(p) < MinPasswordLength
    ensures r == Some(PasswordNoUpper) <==> Utf16Length(p) >= MinPasswordLength && !HasUpper(p)
    ensures r == Some(PasswordNoLower) <==>
      Utf16Length(p) >= MinPasswordLength && HasUpper(p) && !HasLower(p)
    ensures r.None? <==> Utf16Length(p) >= MinPasswordLength && HasUpper(p) && HasLower(p)
  {
    if p == "" then Some(PasswordEmpty)
    else if Utf16Length(p) < MinPasswordLength then Some(PasswordTooShort)
    else if !HasUpper(p) then Some(PasswordNoUpper)
    else if !HasLower(p) then Some(PasswordNoLower)
    else None
  }

  /** The errors every check but the confirmation one records; a missing
      field reads as the empty string (`data.x || ""`). */
  function FieldErrors(body: RegisterBody, isEmail: string -> bool): map<Field, FieldError> {
    var password := OrElse(body.password, "");
    var e0: map<Field, FieldError> := map[];
    var e1 := if Present(body.username) then e0 else e0[Username := UsernameEmpty];
    var e2 := if isEmail(OrElse(body.email, "")) then e1 else e1[Email := EmailInvalid];
    if PasswordRule(password).Some? then e2[Password := PasswordRule(password).value] else e2
  }

  /** `registerValidator` as written: `validator.equals(data.password, ...)`
      asserts that its first argument is a string, so a request without a
      password throws (`None`) instead of reporting the empty password. */
  function RegisterValidatorAsWritten(body: RegisterBody, isEmail: string -> bool): (r: Option<map<Field, FieldError>>)
    ensures r.None? <==> body.password.None?
    ensures r.Some? ==> r.value == RegisterValidator(body, isEmail)
  {
    if body.password.None? then None
    else
      var errors := FieldErrors(body, isEmail);
      Some(if body.password.value == OrElse(body.confirmPassword, "") then errors
           else errors[ConfirmPassword := PasswordMismatch])
  }

  /** `registerValidator` with the password read as the other checks read
      it (`data.password || ""`). Each key is set exactly when its check
      fails, with that check's message. */
  function RegisterValidator(body: RegisterBody, isEmail: string -> bool): (r: map<Field, FieldError>)
    ensures Username in r <==> !Present(body.username)
    ensures Username in r ==> r[Username] == UsernameEmpty
    ensures Email in r <==> !isEmail(OrElse(body.email, ""))
    ensures Email in r ==> r[Email] == EmailInvalid
    ensures Password in r <==> PasswordRule(OrElse(body.password, "")).Some?
    ensures Password in r ==> Some(r[Password]) == PasswordRule(OrElse(body.password, ""))
    ensures ConfirmPassword in r <==> OrElse(body.password, "") != OrElse(body.confirmPassword, "")
    ensures ConfirmPassword in r ==> r[ConfirmPassword] == PasswordMismatch
  {
    var errors := FieldErrors(body, isEmail);
    if OrElse(body.password, "") == OrElse(body.confirmPassword, "") then errors
    else errors[ConfirmPassword := PasswordMismatch]
  }

  /** `isValid`: no key was set. */
  predicate IsValid(errors: map<Field, FieldError>) {
    errors == map[]
  }

  /** A form passes exactly when every rule holds. */
  lemma ValidIffAllRulesHold(body: RegisterBody, isEmail: string -> bool)
    ensures IsValid(RegisterValidator(body, isEmail)) <==>
      && Present(body.username)
      && isEmail(OrElse(body.email, ""))
      && Present(body.password) && Utf16Length(body.password.value) >= MinPasswordLength
      && HasUpper(body.password.value) && HasLower(body.password.value)
      && body.password == body.confirmPassword
  {
    var r := RegisterValidator(body, isEmail);
    if !IsValid(r) {
      var k :| k in r;
    }
  }

  /** A form without a password: as written the validator throws and the
      request is answered 500; the intended answer is 400 with the empty
      password reported. */
  lemma MissingPasswordThrows(isEmail: string -> bool)
    ensures var body := RegisterBody(Some("alice"), Some("alice@example.com"), None, None);
      && RegisterValidatorAsWritten(body, isEmail).None?
      && !IsValid(RegisterValidator(body, isEmail))
      && RegisterValidator(body, isEmail)[Password] == PasswordEmpty
  {
  }

  datatype RegisterOutcome =
    | RegisterInvalid(errors: map<Field, FieldError>)   // 400
    | AlreadyRegistered                                  // 400: username or email taken
    | RegisterServerError                                // 500: the schema refused the user
    | Registered(id: Id, user: User)                     // 201
  {
    function Status(): nat {
      match this
      case RegisterInvalid(_) | AlreadyRegistered => 400
      case RegisterServerError => 500
      case Registered(_, _) => 201
    }
  }

  /** `User.findOne({ $or: [{ username }, { email }] })` finds someone. */
  predicate Taken(db: Db, username: string, email: string) {
    exists k | k in db.users :: db.users[k].username == username || db.users[k].email == email
  }

  /** `POST /register`: an invalid form is answered with its errors, a
      taken username or email is refused, and nothing is written in either
      case; otherwise the user is stored with the hashed password, role
      `user`, status `active` and empty avatar, bio and phone. Usernames and
      emails stay unique. */
  method Register(store: Store, body: RegisterBody, isEmail: string -> bool, hash: string -> string, newId: Id)
    returns (out: RegisterOutcome)
    requires Valid(store.View()) && newId !in store.users
    requires !isEmail("")
    modifies store
    ensures Valid(store.View())
    ensures old(CountersConsistent(store.View())) ==> CountersConsistent(store.View())
    ensures old(PostCountsConsistent(store.View())) ==> PostCountsConsistent(store.View())
    ensures var errors := RegisterValidator(body, isEmail);
      && (out.RegisterInvalid? <==> !IsValid(errors))
      && (out.RegisterInvalid? ==> out.errors == errors)
      && (out == AlreadyRegistered <==>
            IsValid(errors) && Taken(old(store.View()), body.username.value, body.email.value))
    ensures IsValid(RegisterValidator(body, isEmail))
            && !Taken(old(store.View()), body.username.value, body.email.value) ==>
      (out.Registered? <==> hash(body.password.value) != "")
    ensures !out.Registered? ==> store.View() == old(store.View())
    ensures out.Registered? ==>
      && IsValid(RegisterValidator(body, isEmail))
      && !Taken(old(store.View()), body.username.value, body.email.value)
      && out.id == newId
      && out.user == User(body.username.value, hash(body.password.value), body.email.value,
                          ["user"], Active, "", "", "", [])
      && store.View() == WithUser(old(store.View()), newId, out.user)
  {
    var errors := RegisterValidator(body, isEmail);
    if !IsValid(errors) {
      return RegisterInvalid(errors);
    }
    ValidIffAllRulesHold(body, isEmail);
    var username, email := body.username.value, body.email.value;
    if Taken(store.View(), username, email) {
      return AlreadyRegistered;
    }
    var made := NewUser(username, hash(body.password.value), email,
                        Some(["user"]), Some("active"), Some(""), Some(""), Some(""));
    if made.Err? {
      return RegisterServerError;
    }
    NewUserKeeps(store.View(), newId, made.value);
    store.InsertUser(newId, made.value);
    out := Registered(newId, made.value);
  }
}
