/** `login_failed_handler` of users/signals.py: on a failed login for a
    known username it raises the counter itself and locks at its own
    threshold of 5. */
module UserSignals {
  import opened Wrappers
  import opened UserModels

  /** `MAX_FAILED_ATTEMPS`. */
  const MaxFailedAttempts: int := 5

  /** The handler's update of a user's lockout fields. */
  function SignalFailure(s: Lockout, now: int): (r: Lockout)
    ensures r.failedAttempts == s.failedAttempts + 1
    ensures r.isLocked <==> s.isLocked || r.failedAttempts >= MaxFailedAttempts
    ensures r.failedAttempts >= MaxFailedAttempts ==> r.lockoutTime == Some(now)
    ensures r.failedAttempts < MaxFailedAttempts ==> r.lockoutTime == s.lockoutTime
  {
    var t := s.(failedAttempts := s.failedAttempts + 1);
    if t.failedAttempts >= MaxFailedAttempts then t.(isLocked := true, lockoutTime := Some(now)) else t
  }

  /** Failed logins signalled at the given times, in order. */
  function SignalFailures(s: Lockout, times: seq<int>): Lockout
    decreases |times|
  {
    if times == [] then s else SignalFailures(SignalFailure(s, times[0]), times[1..])
  }

  /** k signalled failures add k to the counter and lock exactly when the
      account was locked or the counter reaches 5, the lock stamped with the
      last failure's time; below 5 the lock fields are untouched. */
  lemma {:induction false} SignalFailuresCount(s: Lockout, times: seq<int>)
    requires |times| > 0
    ensures var r := SignalFailures(s, times);
      && r.failedAttempts == s.failedAttempts + |times|
      && (r.isLocked <==> s.isLocked || s.failedAttempts + |times| >= MaxFailedAttempts)
      && (s.failedAttempts + |times| >= MaxFailedAttempts ==> r.lockoutTime == Some(times[|times| - 1]))
      && (s.failedAttempts + |times| < MaxFailedAttempts ==> r.lockoutTime == s.lockoutTime)
    decreases |times|
  {
    if |times| > 1 {
      SignalFailuresCount(SignalFailure(s, times[0]), times[1..]);
      assert times[1..][|times| - 2] == times[|times| - 1];
    }
  }

  /** Through this handler alone a fresh account survives four failures and
      is locked by the fifth. */
  lemma FifthSignalledFailureLocks(t1: int, t2: int, t3: int, t4: int, t5: int)
    ensures !SignalFailures(NewLockout, [t1, t2, t3, t4]).isLocked
    ensures var r := SignalFailures(NewLockout, [t1, t2, t3, t4, t5]);
      r.isLocked && r.lockoutTime == Some(t5) && r.failedAttempts == 5
  {
    SignalFailuresCount(NewLockout, [t1, t2, t3, t4]);
    SignalFailuresCount(NewLockout, [t1, t2, t3, t4, t5]);
  }

  /** `login_failed_handler`; `user` is the row found for the signalled
      username, `null` when there is none. */
  method LoginFailedHandler(user: CustomUser?, now: int)
    requires user != null ==> user.Valid()
    modifies user
    ensures user != null ==> user.Valid() && user.Details() == old(user.Details())
    ensures user != null ==> user.failedAttempts == old(user.failedAttempts) + 1
    ensures user != null && user.failedAttempts >= MaxFailedAttempts ==> user.isLocked && user.lockoutTime == Some(now)
    ensures user != null && user.failedAttempts < MaxFailedAttempts ==>
      user.isLocked == old(user.isLocked) && user.lockoutTime == old(user.lockoutTime)
    ensures user != null ==> user.State() == SignalFailure(old(user.State()), now)
  {
    if user == null {
      return;
    }
    user.failedAttempts := user.failedAttempts + 1;
    if user.failedAttempts >= MaxFailedAttempts {
      user.isLocked := true;
      user.lockoutTime := Some(now);
    }
  }
}
