/** `CustomAuthBackend.authenticate` of users/backends.py. The row found
    for the username is a parameter (`null` when there is none) and
    `check_password` is the abstract `checkPassword`. */
module UserBackends {
  import opened Wrappers
  import opened UserModels

  datatype AuthOutcome =
    | NoUser              // DoesNotExist: returns None
    | Denied              // PermissionDenied: the lock has not expired
    | Authenticated       // returns the user
    | NotAuthenticated    // wrong password: falls through, returns None

  /** The decision and the user's new lockout fields. */
  function AuthSpec(s: Lockout, passwordOk: bool, now: int): (r: (AuthOutcome, Lockout))
    requires LockStamped(s)
    ensures r.0 == Denied <==> s.isLocked && now <= s.lockoutTime.value + LockoutWindow
    ensures r.0 == Denied ==> r.1 == s
    ensures r.0 == Authenticated <==> r.0 != Denied && passwordOk
    ensures r.0 == NotAuthenticated <==> r.0 != Denied && !passwordOk
    ensures r.0 == Authenticated ==> !r.1.isLocked && r.1.failedAttempts == 0
    ensures r.0 == Authenticated ==> r.1 == Reset(Unlocked(s, now))
    ensures r.0 == NotAuthenticated ==> !r.1.isLocked && r.1 == Unlocked(s, now)
    ensures r.0 == NotAuthenticated && !s.isLocked ==> r.1 == s
  {
    if s.isLocked && !(now > s.lockoutTime.value + LockoutWindow) then (Denied, s)
    else
      var u := if s.isLocked then Unlocked(s, now) else s;
      if passwordOk then (Authenticated, Reset(u)) else (NotAuthenticated, u)
  }

  method Authenticate(user: CustomUser?, password: string, checkPassword: string -> bool, now: int)
    returns (r: AuthOutcome)
    requires user != null ==> user.Valid()
    modifies user
    ensures user == null ==> r == NoUser
    ensures user != null ==> user.Valid() && user.Details() == old(user.Details())
    ensures user != null ==> (r, user.State()) == AuthSpec(old(user.State()), checkPassword(password), now)
  {
    if user == null {
      return NoUser;
    }
    if user.isLocked {
      if now > user.lockoutTime.value + LockoutWindow {
        user.Unlock(now);
      } else {
        return Denied;
      }
    }
    if checkPassword(password) {
      user.failedAttempts := 0;
      return Authenticated;
    }
    r := NotAuthenticated;
  }
}
