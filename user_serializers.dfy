/** `RegisterSerializer` and `LoginSerializer` of users/serializers.py.
    The existing usernames and emails are sets; the row found for a login
    username is a parameter (`null` when there is none) and
    `check_password` is the abstract `checkPassword`. */
module UserSerializers {
  import opened Wrappers
  import opened UserModels
  import opened UserSignals

  // ------------------------------------------------------------ register

  /** The request body; `isAdmin`/`isCustomer` may be left out. */
  datatype RegisterInput = RegisterInput(
    username: string, email: string, password: string, password2: string,
    isAdmin: Option<bool>, isCustomer: Option<bool>)

  datatype RegisterError =
    | UsernameBlank | UsernameTooLong | UsernameTaken
    | EmailBlank | EmailTaken
    | PasswordBlank | PasswordTooShort
    | Password2Blank
    | PasswordsDiffer

  /** `username`: not blank, at most 150 characters, then `validate_username`. */
  function UsernameErrors(username: string, usernames: set<string>): set<RegisterError> {
    if username == "" then {UsernameBlank}
    else if |username| > 150 then {UsernameTooLong}
    else if username in usernames then {UsernameTaken}
    else {}
  }

  /** `email`: not blank, then `validate_email`. */
  function EmailErrors(email: string, emails: set<string>): set<RegisterError> {
    if email == "" then {EmailBlank}
    else if email in emails then {EmailTaken}
    else {}
  }

  /** `password`: not blank, at least 8 characters. */
  function PasswordErrors(password: string): set<RegisterError> {
    if password == "" then {PasswordBlank}
    else if |password| < 8 then {PasswordTooShort}
    else {}
  }

  function Password2Errors(password2: string): set<RegisterError> {
    if password2 == "" then {Password2Blank} else {}
  }

  /** `is_valid()`: every field is checked and its errors collected; the
      object-level `validate` (matching passwords) runs only when all
      fields pass. */
  function ValidateRegistration(input: RegisterInput, usernames: set<string>, emails: set<string>)
    : (r: Result<RegisterInput, set<RegisterError>>)
    ensures r.Ok? <==>
      && input.username != "" && |input.username| <= 150 && input.username !in usernames
      && input.email != "" && input.email !in emails
      && |input.password| >= 8 && input.password2 != "" && input.password == input.password2
    ensures r.Ok? ==> r.value == input
    ensures r.Err? ==> r.error != {}
    ensures r.Err? ==> (UsernameTaken in r.error <==> 0 < |input.username| <= 150 && input.username in usernames)
    ensures r.Err? ==> (EmailTaken in r.error <==> input.email != "" && input.email in emails)
    ensures r.Err? ==> (PasswordTooShort in r.error <==> 0 < |input.password| < 8)
    ensures r.Err? ==> (UsernameBlank in r.error <==> input.username == "")
    ensures r.Err? ==> (UsernameTooLong in r.error <==> |input.username| > 150)
    ensures r.Err? ==> (EmailBlank in r.error <==> input.email == "")
    ensures r.Err? ==> (PasswordBlank in r.error <==> input.password == "")
    ensures r.Err? ==> (Password2Blank in r.error <==> input.password2 == "")
    ensures r.Err? ==> (PasswordsDiffer in r.error <==> r.error == {PasswordsDiffer})
    ensures r.Err? ==> (r.error == {PasswordsDiffer} <==>
      && input.username != "" && |input.username| <= 150 && input.username !in usernames
      && input.email != "" && input.email !in emails
      && |input.password| >= 8 && input.password2 != ""
      && input.password != input.password2)
  {
    var fieldErrors := UsernameErrors(input.username, usernames) + EmailErrors(input.email, emails)
                       + PasswordErrors(input.password) + Password2Errors(input.password2);
    if fieldErrors != {} then Err(fieldErrors)
    else if input.password != input.password2 then Err({PasswordsDiffer})
    else Ok(input)
  }

  /** A username or email already registered is refused. */
  lemma RegistrationRefusesTaken(input: RegisterInput, usernames: set<string>, emails: set<string>)
    requires input.username in usernames || input.email in emails
    ensures ValidateRegistration(input, usernames, emails).Err?
  {
  }

  /** `create`: `password2` is dropped and the role flags default to a
      non-admin customer. */
  method CreateUser(data: RegisterInput) returns (u: CustomUser)
    ensures fresh(u) && u.Valid()
    ensures u.State() == NewLockout
    ensures u.Details() == Profile(data.username, data.email, data.isAdmin.GetOr(false), data.isCustomer.GetOr(true), true)
  {
    u := new CustomUser(data.username, data.email, data.isAdmin.GetOr(false), data.isCustomer.GetOr(true));
  }

  // ------------------------------------------------------------ login

  datatype LoginOutcome =
    | UserNotFound                    // "Usuario no encontrado"
    | AccountLocked(lockedUntil: int) // "Usuario bloqueado."
    | WrongPassword(attemptsLeft: int)// "Contraseña incorrecta."
    | AccountInactive                 // "Tu cuenta está desactivada."
    | LoggedIn

  /** `LoginSerializer.validate` for a found user: the outcome and the
      user's new lockout fields. */
  function LoginSpec(s: Lockout, isActive: bool, passwordOk: bool, now: int): (r: (LoginOutcome, Lockout))
    requires LockStamped(s)
    ensures r.0.AccountLocked? <==> s.isLocked && now <= s.lockoutTime.value + LockoutWindow
    ensures r.0.AccountLocked? ==> r.1 == s && r.0.lockedUntil == s.lockoutTime.value + 10
    ensures r.0.WrongPassword? <==> !r.0.AccountLocked? && !passwordOk
    ensures r.0.WrongPassword? ==>
      r.1 == FailedOnce(Unlocked(s, now), now) && r.0.attemptsLeft == 3 - r.1.failedAttempts
    ensures r.0 == AccountInactive <==> !r.0.AccountLocked? && passwordOk && !isActive
    ensures r.0 == AccountInactive ==> r.1 == Unlocked(s, now)
    ensures r.0 == LoggedIn <==> !r.0.AccountLocked? && passwordOk && isActive
    ensures r.0 == LoggedIn ==> !r.1.isLocked && r.1.failedAttempts == 0
    ensures r.0 == LoggedIn ==> r.1 == Reset(Unlocked(s, now))
    ensures r.0 != UserNotFound && LockStamped(r.1)
  {
    var u := Unlocked(s, now);
    if u.isLocked then (AccountLocked(u.lockoutTime.value + 10), u)
    else if !passwordOk then
      var f := FailedOnce(u, now);
      (WrongPassword(3 - f.failedAttempts), f)
    else if !isActive then (AccountInactive, u)
    else (LoggedIn, Reset(u))
  }

  method ValidateLogin(user: CustomUser?, password: string, checkPassword: string -> bool, now: int)
    returns (r: LoginOutcome)
    requires user != null ==> user.Valid()
    modifies user
    ensures user == null ==> r == UserNotFound
    ensures user != null ==> user.Valid() && user.Details() == old(user.Details())
    ensures user != null ==>
      (r, user.State()) == LoginSpec(old(user.State()), old(user.isActive), checkPassword(password), now)
  {
    if user == null {
      return UserNotFound;
    }
    if user.isLocked {
      user.Unlock(now);
      if user.isLocked {
        return AccountLocked(user.lockoutTime.value + 10);
      }
    }
    if !checkPassword(password) {
      user.IncrementFailedAttempts(now);
      return WrongPassword(3 - user.failedAttempts);
    }
    if !user.isActive {
      return AccountInactive;
    }
    user.ResetFailedAttempts();
    r := LoggedIn;
  }

  /** What logins through this serializer keep: a stamped lock, a
      non-negative counter, and an unlocked user below 3 failures. */
  predicate LoginInvariant(s: Lockout) {
    LockStamped(s) && s.failedAttempts >= 0 && (!s.isLocked ==> s.failedAttempts < MaxAttempts)
  }

  /** One login attempt: whether the password matched, and when. */
  datatype Attempt = Attempt(passwordOk: bool, at: int)

  function Logins(s: Lockout, isActive: bool, attempts: seq<Attempt>): Lockout
    requires LockStamped(s)
    decreases |attempts|
  {
    if attempts == [] then s
    else
      Logins(LoginSpec(s, isActive, attempts[0].passwordOk, attempts[0].at).1, isActive, attempts[1..])
  }

  /** Each login keeps the invariant, so a wrong password reports between
      0 and 2 attempts left. */
  lemma LoginKeepsInvariant(s: Lockout, isActive: bool, passwordOk: bool, now: int)
    requires LoginInvariant(s)
    ensures LoginInvariant(LoginSpec(s, isActive, passwordOk, now).1)
    ensures var o := LoginSpec(s, isActive, passwordOk, now).0;
      o.WrongPassword? ==> 0 <= o.attemptsLeft < MaxAttempts
  {
  }

  /** Any sequence of logins from a new account keeps the invariant. */
  lemma {:induction false} LoginsKeepInvariant(s: Lockout, isActive: bool, attempts: seq<Attempt>)
    requires LoginInvariant(s)
    ensures LoginInvariant(Logins(s, isActive, attempts))
    decreases |attempts|
  {
    if attempts != [] {
      LoginKeepsInvariant(s, isActive, attempts[0].passwordOk, attempts[0].at);
      var next := LoginSpec(s, isActive, attempts[0].passwordOk, attempts[0].at).1;
      LoginsKeepInvariant(next, isActive, attempts[1..]);
    }
  }

  /** The signal handler counts to 5 without locking, so after three
      signalled failures this serializer reports a negative number of
      attempts left. */
  lemma SignalledFailuresBreakInvariant(t1: int, t2: int, t3: int, now: int)
    ensures var s := SignalFailures(NewLockout, [t1, t2, t3]);
      && LockStamped(s) && !LoginInvariant(s)
      && LoginSpec(s, true, false, now).0 == WrongPassword(-1)
  {
    SignalFailuresCount(NewLockout, [t1, t2, t3]);
  }

  /** As written, `locked_until` is 10 minutes after the lock while
      `unlock` waits 15: a login at the reported time is refused again. */
  lemma LockedUntilTooEarly(s: Lockout, isActive: bool, passwordOk: bool, t: int)
    requires s.isLocked && s.lockoutTime == Some(t)
    ensures LoginSpec(s, isActive, passwordOk, t).0 == AccountLocked(t + 10)
    ensures LoginSpec(s, isActive, passwordOk, t + 10).0 == AccountLocked(t + 10)
    ensures LoginSpec(s, isActive, passwordOk, t + 11).0.AccountLocked?
  {
  }

  /** The login decision with `locked_until` set to when `unlock` will lift
      the lock. */
  function LoginSpecIntended(s: Lockout, isActive: bool, passwordOk: bool, now: int): (r: (LoginOutcome, Lockout))
    requires LockStamped(s)
    ensures r.0.AccountLocked? ==> s.lockoutTime.Some? && r.0.lockedUntil == s.lockoutTime.value + LockoutWindow
    ensures !r.0.AccountLocked? ==> r == LoginSpec(s, isActive, passwordOk, now)
  {
    var r := LoginSpec(s, isActive, passwordOk, now);
    if r.0.AccountLocked? then (AccountLocked(s.lockoutTime.value + LockoutWindow), r.1) else r
  }

  /** With the intended `locked_until`, a login at any later minute is no
      longer refused for the lock. */
  lemma LockedUntilHonoured(s: Lockout, isActive: bool, passwordOk: bool, now: int, later: int)
    requires LockStamped(s)
    requires LoginSpecIntended(s, isActive, passwordOk, now).0.AccountLocked?
    requires later > LoginSpecIntended(s, isActive, passwordOk, now).0.lockedUntil
    ensures !LoginSpecIntended(s, isActive, passwordOk, later).0.AccountLocked?
  {
  }
}
