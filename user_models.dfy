/** The account-lockout state of `CustomUser` in users/models.py: a
    failed-login counter, a lock flag and the time the lock was set.
    Times are integer minutes; the clock is the `now` parameter. */
module UserModels {
  import opened Wrappers

  /** `timedelta(minutes=15)`: how long a lock lasts. */
  const LockoutWindow: int := 15

  /** The counter value at which `increment_failed_attempts` locks. */
  const MaxAttempts: int := 3

  /** The lockout fields of a user, as a value. */
  datatype Lockout = Lockout(failedAttempts: int, isLocked: bool, lockoutTime: Option<int>)

  /** The field defaults: no failures, unlocked, no lockout time. */
  const NewLockout := Lockout(0, false, None)

  /** `lock`. */
  function LockAt(s: Lockout, now: int): (r: Lockout)
    ensures r.isLocked && r.lockoutTime == Some(now) && r.failedAttempts == s.failedAttempts
    ensures LockStamped(r)
  {
    s.(isLocked := true, lockoutTime := Some(now))
  }

  /** `increment_failed_attempts`. */
  function FailedOnce(s: Lockout, now: int): (r: Lockout)
    ensures r.failedAttempts == s.failedAttempts + 1
    ensures r.isLocked <==> s.isLocked || r.failedAttempts >= MaxAttempts
    ensures r.failedAttempts >= MaxAttempts ==> r.lockoutTime == Some(now)
    ensures r.failedAttempts < MaxAttempts ==> r.lockoutTime == s.lockoutTime
  {
    var t := s.(failedAttempts := s.failedAttempts + 1);
    if t.failedAttempts >= MaxAttempts then LockAt(t, now) else t
  }

  /** `reset_failed_attempts`. */
  function Reset(s: Lockout): Lockout {
    s.(failedAttempts := 0)
  }

  /** The condition under which `unlock` acts. */
  predicate LockExpired(s: Lockout, now: int) {
    s.isLocked && s.lockoutTime.Some? && now > s.lockoutTime.value + LockoutWindow
  }

  /** `unlock`. */
  function Unlocked(s: Lockout, now: int): (r: Lockout)
    ensures LockExpired(s, now) ==> !r.isLocked && r.failedAttempts == 0 && r.lockoutTime == s.lockoutTime
    ensures !LockExpired(s, now) ==> r == s
    ensures !LockExpired(r, now)
  {
    if LockExpired(s, now) then s.(isLocked := false, failedAttempts := 0) else s
  }

  /** A lock always carries the time it was set. */
  predicate LockStamped(s: Lockout) {
    s.isLocked ==> s.lockoutTime.Some?
  }

  /** The failures recorded at the given times, in order. */
  function Failures(s: Lockout, times: seq<int>): Lockout
    decreases |times|
  {
    if times == [] then s else Failures(FailedOnce(s, times[0]), times[1..])
  }

  /** k failed logins add k to the counter; the account is locked exactly
      when it was already locked or the counter reaches 3, and a failure at
      or past the threshold stamps the lock with its own time. */
  lemma {:induction false} FailuresCount(s: Lockout, times: seq<int>)
    requires |times| > 0
    ensures var r := Failures(s, times);
      && r.failedAttempts == s.failedAttempts + |times|
      && (r.isLocked <==> s.isLocked || s.failedAttempts + |times| >= MaxAttempts)
      && (s.failedAttempts + |times| >= MaxAttempts ==> r.lockoutTime == Some(times[|times| - 1]))
      && (s.failedAttempts + |times| < MaxAttempts ==> r.lockoutTime == s.lockoutTime)
    decreases |times|
  {
    if |times| > 1 {
      var s1 := FailedOnce(s, times[0]);
      FailuresCount(s1, times[1..]);
      assert times[1..][|times| - 2] == times[|times| - 1];
    }
  }

  /** Three wrong passwords in a row lock a fresh account; two do not. */
  lemma ThreeFailuresLock(t1: int, t2: int, t3: int)
    ensures !Failures(NewLockout, [t1, t2]).isLocked
    ensures var r := Failures(NewLockout, [t1, t2, t3]);
      r.isLocked && r.lockoutTime == Some(t3) && r.failedAttempts == 3
  {
    FailuresCount(NewLockout, [t1, t2]);
    FailuresCount(NewLockout, [t1, t2, t3]);
  }

  /** A lock set at `t` holds through minute t + 15 and is lifted, with the
      counter cleared, at any later minute. */
  lemma LockLastsWindow(s: Lockout, t: int, now: int)
    ensures var locked := LockAt(s, t);
      && (now <= t + LockoutWindow ==> Unlocked(locked, now) == locked)
      && (now > t + LockoutWindow ==> !Unlocked(locked, now).isLocked && Unlocked(locked, now).failedAttempts == 0)
  {
  }

  /** Every model method keeps a lock stamped. */
  lemma MethodsKeepLockStamped(s: Lockout, now: int)
    requires LockStamped(s)
    ensures LockStamped(LockAt(s, now)) && LockStamped(FailedOnce(s, now))
    ensures LockStamped(Reset(s)) && LockStamped(Unlocked(s, now))
  {
  }

  /** `unlock` applied twice at the same time acts once. */
  lemma UnlockIdempotent(s: Lockout, now: int)
    ensures Unlocked(Unlocked(s, now), now) == Unlocked(s, now)
  {
  }

  /** The fields of a user the lockout methods never touch. */
  datatype Profile = Profile(username: string, email: string, isAdmin: bool, isCustomer: bool, isActive: bool)

  class CustomUser {
    var username: string
    var email: string
    var isAdmin: bool
    var isCustomer: bool
    var isActive: bool
    var failedAttempts: int
    var isLocked: bool
    var lockoutTime: Option<int>

    ghost predicate Valid()
      reads this
    {
      LockStamped(State()) && failedAttempts >= 0
    }

    function State(): Lockout
      reads this
    {
      Lockout(failedAttempts, isLocked, lockoutTime)
    }

    function Details(): Profile
      reads this
    {
      Profile(username, email, isAdmin, isCustomer, isActive)
    }

    /** `create_user(...)`: a new, active user with the field defaults. */
    constructor (username: string, email: string, isAdmin: bool, isCustomer: bool)
      ensures Valid()
      ensures State() == NewLockout && !isLocked && failedAttempts == 0
      ensures Details() == Profile(username, email, isAdmin, isCustomer, true)
    {
      this.username, this.email := username, email;
      this.isAdmin, this.isCustomer, this.isActive := isAdmin, isCustomer, true;
      failedAttempts, isLocked, lockoutTime := 0, false, None;
    }

    /** `lock`. */
    method Lock(now: int)
      requires Valid()
      modifies this
      ensures Valid()
      ensures isLocked && lockoutTime == Some(now) && failedAttempts == old(failedAttempts)
      ensures State() == LockAt(old(State()), now) && Details() == old(Details())
    {
      isLocked := true;
      lockoutTime := Some(now);
    }

    /** `increment_failed_attempts`. */
    method IncrementFailedAttempts(now: int)
      requires Valid()
      modifies this
      ensures Valid()
      ensures failedAttempts == old(failedAttempts) + 1
      ensures failedAttempts >= MaxAttempts ==> isLocked && lockoutTime == Some(now)
      ensures failedAttempts < MaxAttempts ==> isLocked == old(isLocked) && lockoutTime == old(lockoutTime)
      ensures State() == FailedOnce(old(State()), now) && Details() == old(Details())
    {
      failedAttempts := failedAttempts + 1;
      if failedAttempts >= MaxAttempts {
        Lock(now);
      }
    }

    /** `reset_failed_attempts`. */
    method ResetFailedAttempts()
      requires Valid()
      modifies this
      ensures Valid()
      ensures failedAttempts == 0 && isLocked == old(isLocked) && lockoutTime == old(lockoutTime)
      ensures State() == Reset(old(State())) && Details() == old(Details())
    {
      failedAttempts := 0;
    }

    /** `unlock`: lifts an expired lock and clears the counter, else nothing. */
    method Unlock(now: int)
      requires Valid()
      modifies this
      ensures Valid()
      ensures LockExpired(old(State()), now) ==> !isLocked && failedAttempts == 0 && lockoutTime == old(lockoutTime)
      ensures !LockExpired(old(State()), now) ==> State() == old(State())
      ensures State() == Unlocked(old(State()), now) && Details() == old(Details())
    {
      if isLocked && lockoutTime.Some? {
        if now > lockoutTime.value + LockoutWindow {
          isLocked := false;
          failedAttempts := 0;
        }
      }
    }
  }
}
