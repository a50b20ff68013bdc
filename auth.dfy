/**
 * The authentication service of lib/auth.ts: the e-mail and password checks and
 * the guard order of `register` and `login`. Password hashing (bcrypt), token
 * signing (jsonwebtoken) and the user store are supplied as parameters: the
 * model keeps which store calls are made, in which order, and what their
 * outcomes lead to.
 */
module Auth {
  import opened Js

  // ---------------------------------------------------------------------------
  // validateEmail: /^[^\s@]+@[^\s@]+\.[^\s@]+$/
  // ---------------------------------------------------------------------------

  /** The characters of JavaScript's `\s` class. */
  predicate IsJsWhitespace(c: char)
  {
    || c == ' ' || c == '\t' || c == '\n' || c == '\r'
    || c as int == 0x0B || c as int == 0x0C || c as int == 0xA0 || c as int == 0x1680
    || (0x2000 <= c as int <= 0x200A)
    || c as int == 0x2028 || c as int == 0x2029 || c as int == 0x202F
    || c as int == 0x205F || c as int == 0x3000 || c as int == 0xFEFF
  }

  /** `[^\s@]` */
  predicate EmailChar(c: char)
  {
    c != '@' && !IsJsWhitespace(c)
  }

  /** `[^\s@]+` matching the whole of `x`. */
  predicate EmailRun(x: string)
  {
    |x| > 0 && forall k :: 0 <= k < |x| ==> EmailChar(x[k])
  }

  /**
   * `validateEmail` (lib/auth.ts, and the identical helper in lib/middleware.ts):
   * the regular expression matches when the string splits as run `@` run `.` run,
   * with `@` at i and `.` at j.
   */
  predicate ValidateEmail(email: string)
  {
    exists i, j :: 0 < i < j < |email| && email[i] == '@' && email[j] == '.'
      && EmailRun(email[..i]) && EmailRun(email[i + 1..j]) && EmailRun(email[j + 1..])
  }

  /** The shape the regular expression describes, stated without it. */
  predicate EmailShape(email: string)
  {
    && (forall k :: 0 <= k < |email| ==> !IsJsWhitespace(email[k]))
    && exists i :: 0 < i < |email| && email[i] == '@'
         && (forall k :: 0 <= k < |email| && k != i ==> email[k] != '@')
         && exists j :: i + 1 < j < |email| - 1 && email[j] == '.'
  }

  /** The characters of a match, other than the `@` and the `.`, are `[^\s@]`. */
  lemma MatchImpliesShape(email: string, i: int, j: int)
    requires 0 < i < j < |email| && email[i] == '@' && email[j] == '.'
    requires EmailRun(email[..i]) && EmailRun(email[i + 1..j]) && EmailRun(email[j + 1..])
    ensures EmailShape(email)
  {
    var local, domain, top := email[..i], email[i + 1..j], email[j + 1..];
    forall k | 0 <= k < |email| && k != i && k != j
      ensures EmailChar(email[k])
    {
      if k < i {
        assert local[k] == email[k];
      } else if k < j {
        assert domain[k - i - 1] == email[k];
      } else {
        assert top[k - j - 1] == email[k];
      }
    }
    assert |domain| > 0 && |top| > 0;
  }

  /** An address of the described shape splits as the regular expression requires. */
  lemma ShapeImpliesMatch(email: string, i: int, j: int)
    requires forall k :: 0 <= k < |email| ==> !IsJsWhitespace(email[k])
    requires 0 < i < |email| && email[i] == '@'
    requires forall k :: 0 <= k < |email| && k != i ==> email[k] != '@'
    requires i + 1 < j < |email| - 1 && email[j] == '.'
    ensures ValidateEmail(email)
  {
    var local, domain, top := email[..i], email[i + 1..j], email[j + 1..];
    forall k | 0 <= k < |local| ensures EmailChar(local[k]) {
      assert local[k] == email[k];
    }
    forall k | 0 <= k < |domain| ensures EmailChar(domain[k]) {
      assert domain[k] == email[i + 1 + k];
    }
    forall k | 0 <= k < |top| ensures EmailChar(top[k]) {
      assert top[k] == email[j + 1 + k];
    }
    assert EmailRun(local) && EmailRun(domain) && EmailRun(top);
  }

  /**
   * An address is accepted exactly when it has no whitespace and exactly one
   * `@`, a non-empty local part, and a `.` inside the domain with text on both
   * sides of it.
   */
  lemma ValidateEmailCharacterization(email: string)
    ensures ValidateEmail(email) <==> EmailShape(email)
  {
    if ValidateEmail(email) {
      var i, j :| 0 < i < j < |email| && email[i] == '@' && email[j] == '.'
        && EmailRun(email[..i]) && EmailRun(email[i + 1..j]) && EmailRun(email[j + 1..]);
      MatchImpliesShape(email, i, j);
    }
    if EmailShape(email) {
      var i :| 0 < i < |email| && email[i] == '@'
         && (forall k :: 0 <= k < |email| && k != i ==> email[k] != '@')
         && exists j :: i + 1 < j < |email| - 1 && email[j] == '.';
      var j :| i + 1 < j < |email| - 1 && email[j] == '.';
      ShapeImpliesMatch(email, i, j);
    }
  }

  // ---------------------------------------------------------------------------
  // validatePassword
  // ---------------------------------------------------------------------------

  const MinPasswordLength: nat := 8
  const LengthError: string := "Password must be at least 8 characters long"
  const LowercaseError: string := "Password must contain at least one lowercase letter"
  const UppercaseError: string := "Password must contain at least one uppercase letter"
  const DigitError: string := "Password must contain at least one number"

  /** `/(?=.*[a-z])/.test(s)`: some position is followed by a lowercase letter. */
  predicate HasLowercase(s: string)
  {
    exists k :: 0 <= k < |s| && 'a' <= s[k] <= 'z'
  }

  predicate HasUppercase(s: string)
  {
    exists k :: 0 <= k < |s| && 'A' <= s[k] <= 'Z'
  }

  predicate HasDigit(s: string)
  {
    exists k :: 0 <= k < |s| && '0' <= s[k] <= '9'
  }

  /** The error list `validatePassword` builds, in the order it pushes them. */
  function PasswordErrors(password: string): seq<string>
  {
    (if |password| < MinPasswordLength then [LengthError] else [])
    + (if !HasLowercase(password) then [LowercaseError] else [])
    + (if !HasUppercase(password) then [UppercaseError] else [])
    + (if !HasDigit(password) then [DigitError] else [])
  }

  /** `validatePassword`: pushes one message per failed rule; valid iff none was pushed. */
  method ValidatePassword(password: string) returns (isValid: bool, errors: seq<string>)
    ensures errors == PasswordErrors(password)
    ensures isValid <==> |errors| == 0
  {
    errors := [];
    if |password| < MinPasswordLength {
      errors := errors + [LengthError];
    }
    if !HasLowercase(password) {
      errors := errors + [LowercaseError];
    }
    if !HasUppercase(password) {
      errors := errors + [UppercaseError];
    }
    if !HasDigit(password) {
      errors := errors + [DigitError];
    }
    isValid := |errors| == 0;
  }

  /** Position of a message in the fixed order length, lowercase, uppercase, digit. */
  function ErrorRank(message: string): nat
  {
    if message == LengthError then 0
    else if message == LowercaseError then 1
    else if message == UppercaseError then 2
    else 3
  }

  /**
   * Each rule contributes its message exactly when it fails, the messages come
   * in the fixed order, and there are at most four of them.
   */
  lemma PasswordErrorsSpec(password: string)
    ensures LengthError in PasswordErrors(password) <==> |password| < 8
    ensures LowercaseError in PasswordErrors(password) <==> !HasLowercase(password)
    ensures UppercaseError in PasswordErrors(password) <==> !HasUppercase(password)
    ensures DigitError in PasswordErrors(password) <==> !HasDigit(password)
    ensures forall m :: m in PasswordErrors(password) ==> m in [LengthError, LowercaseError, UppercaseError, DigitError]
    ensures forall a, b :: 0 <= a < b < |PasswordErrors(password)|
              ==> ErrorRank(PasswordErrors(password)[a]) < ErrorRank(PasswordErrors(password)[b])
    ensures |PasswordErrors(password)| <= 4
    ensures PasswordErrors(password) == [] <==>
              |password| >= 8 && HasLowercase(password) && HasUppercase(password) && HasDigit(password)
  {
    assert LengthError != LowercaseError && LengthError != UppercaseError && LengthError != DigitError;
    assert LowercaseError[35] != UppercaseError[35];
    assert LowercaseError != DigitError && UppercaseError != DigitError;
  }

  // ---------------------------------------------------------------------------
  // register and login
  // ---------------------------------------------------------------------------

  /** A row of the users table. */
  datatype DbUser = DbUser(id: string, email: string, passwordHash: string,
                           telegramId: Option<string>, telegramVerified: bool)

  /** The user as the service hands it out and signs it into a token. */
  datatype AuthUser = AuthUser(id: string, email: string, telegramId: Option<string>, telegramVerified: bool)

  /** The outcome of a store call: its value, or the error it throws. */
  datatype StoreResult<T> = Ok(value: T) | Fail(message: string)

  /** The store calls the service makes, in order. */
  datatype StoreCall = GetUserByEmail(email: string) | CreateUser(email: string, passwordHash: string)

  /** What `register`/`login` resolve to, or the message of the error they throw. */
  datatype AuthOutcome = Signed(user: AuthUser, token: string) | Thrown(message: string)

  const InvalidEmailError: string := "Invalid email format"
  const MismatchError: string := "Passwords do not match"
  const ExistsError: string := "User already exists with this email"
  const CredentialsError: string := "Invalid email or password"

  function ToAuthUser(u: DbUser): AuthUser
  {
    AuthUser(u.id, u.email, u.telegramId, u.telegramVerified)
  }

  /**
   * `register`: the e-mail check, the password rules (their messages joined with
   * ", "), and the confirmation check all run before the store is consulted;
   * then an existing user is refused, and otherwise the hashed password is
   * stored and a token is signed for the new user.
   */
  method Register(email: string, password: string, confirmPassword: string,
                  lookup: StoreResult<Option<DbUser>>, hash: string -> string,
                  created: StoreResult<DbUser>, sign: AuthUser -> string)
    returns (outcome: AuthOutcome, calls: seq<StoreCall>)
    ensures !ValidateEmail(email) ==> outcome == Thrown(InvalidEmailError) && calls == []
    ensures ValidateEmail(email) && PasswordErrors(password) != [] ==>
              outcome == Thrown(Join(PasswordErrors(password), ", ")) && calls == []
    ensures ValidateEmail(email) && PasswordErrors(password) == [] && password != confirmPassword ==>
              outcome == Thrown(MismatchError) && calls == []
    ensures ValidateEmail(email) && PasswordErrors(password) == [] && password == confirmPassword ==>
              && |calls| >= 1 && calls[0] == GetUserByEmail(email)
              && (lookup.Fail? ==> outcome == Thrown(lookup.message) && calls == [GetUserByEmail(email)])
              && (lookup == Ok(None) ==>
                    && calls == [GetUserByEmail(email), CreateUser(email, hash(password))]
                    && outcome == match created
                                  case Fail(m) => Thrown(m)
                                  case Ok(u) => Signed(ToAuthUser(u), sign(ToAuthUser(u))))
              && (lookup.Ok? && lookup.value.Some? ==> outcome == Thrown(ExistsError) && calls == [GetUserByEmail(email)])
  {
    calls := [];
    if !ValidateEmail(email) {
      return Thrown(InvalidEmailError), calls;
    }
    var isValid, errors := ValidatePassword(password);
    if !isValid {
      return Thrown(Join(errors, ", ")), calls;
    }
    if password != confirmPassword {
      return Thrown(MismatchError), calls;
    }
    calls := calls + [GetUserByEmail(email)];
    match lookup {
      case Fail(m) =>
        return Thrown(m), calls;
      case Ok(existing) =>
        if existing.Some? {
          return Thrown(ExistsError), calls;
        }
    }
    var passwordHash := hash(password);
    calls := calls + [CreateUser(email, passwordHash)];
    match created {
      case Fail(m) =>
        outcome := Thrown(m);
      case Ok(dbUser) =>
        var user := ToAuthUser(dbUser);
        outcome := Signed(user, sign(user));
    }
  }

  /**
   * `login`: a malformed e-mail is refused before the store is consulted; an
   * unknown user and a wrong password are refused with the same message.
   */
  method Login(email: string, password: string,
               lookup: StoreResult<Option<DbUser>>, comparePassword: (string, string) -> bool,
               sign: AuthUser -> string)
    returns (outcome: AuthOutcome, calls: seq<StoreCall>)
    ensures !ValidateEmail(email) ==> outcome == Thrown(InvalidEmailError) && calls == []
    ensures ValidateEmail(email) ==> calls == [GetUserByEmail(email)]
    ensures ValidateEmail(email) && lookup.Fail? ==> outcome == Thrown(lookup.message)
    ensures ValidateEmail(email) && lookup == Ok(None) ==> outcome == Thrown(CredentialsError)
    ensures ValidateEmail(email) && lookup.Ok? && lookup.value.Some? ==>
              var u := lookup.value.value;
              outcome == if comparePassword(password, u.passwordHash)
                         then Signed(ToAuthUser(u), sign(ToAuthUser(u)))
                         else Thrown(CredentialsError)
    ensures outcome.Signed? ==> lookup.Ok? && lookup.value.Some?
                                && comparePassword(password, lookup.value.value.passwordHash)
  {
    calls := [];
    if !ValidateEmail(email) {
      return Thrown(InvalidEmailError), calls;
    }
    calls := calls + [GetUserByEmail(email)];
    match lookup {
      case Fail(m) =>
        return Thrown(m), calls;
      case Ok(found) =>
        if found.None? {
          return Thrown(CredentialsError), calls;
        }
        var dbUser := found.value;
        if !comparePassword(password, dbUser.passwordHash) {
          return Thrown(CredentialsError), calls;
        }
        var user := ToAuthUser(dbUser);
        outcome := Signed(user, sign(user));
    }
  }
}
