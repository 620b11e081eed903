/** The password lockout (internal/portal/server.go, internal/store/users_repo.go), for the columns of one users row. */
module Login {
  import opened Sums

  datatype LockState = LockState(failedLogins: int, lockedUntil: int)

  datatype Response = Locked | InvalidCredentials | NotActive | LoggedIn

  /** A password login, or a telegram login, of one account at one moment. */
  datatype Attempt =
    | Password(now: int, correct: bool, active: bool)
    | Telegram(now: int, active: bool)

  /** How often a wrong password locks the account, and for how long. */
  datatype Policy = Policy(lockAfter: int, lockFor: int)

  predicate Blocked(st: LockState, now: int)
  {
    st.lockedUntil > 0 && now < st.lockedUntil
  }

  /** RecordFailedLogin: count, and lock at the limit; any earlier lock is cleared. */
  function Fail(st: LockState, now: int, policy: Policy): LockState
  {
    if policy.lockAfter > 0 && st.failedLogins + 1 >= policy.lockAfter then LockState(0, now + policy.lockFor)
    else LockState(st.failedLogins + 1, 0)
  }

  function Handle(st: LockState, a: Attempt, policy: Policy): (LockState, Response)
  {
    match a
    case Telegram(_, active) => if active then (LockState(0, 0), LoggedIn) else (st, NotActive)
    case Password(now, correct, active) =>
      if Blocked(st, now) then (st, Locked)
      else if !correct then
        var st' := Fail(st, now, policy);
        (st', if st'.lockedUntil > 0 then Locked else InvalidCredentials)
      else if !active then (st, NotActive)
      else (LockState(0, 0), LoggedIn)
  }

  /** The two lockout columns of a users row. */
  class Account {
    var failedLogins: int
    var lockedUntil: int

    function State(): LockState
      reads this
    {
      LockState(failedLogins, lockedUntil)
    }

    constructor ()
      ensures State() == LockState(0, 0)
    {
      failedLogins, lockedUntil := 0, 0;
    }

    method RecordFailedLogin(now: int, policy: Policy) returns (until: int)
      modifies this
      ensures State() == Fail(old(State()), now, policy) && until == lockedUntil
    {
      until := 0;
      var failed := failedLogins + 1;
      if policy.lockAfter > 0 && failed >= policy.lockAfter {
        until := now + policy.lockFor;
        failed := 0;
      }
      failedLogins, lockedUntil := failed, until;
    }

    method RecordLogin()
      modifies this
      ensures State() == LockState(0, 0)
    {
      failedLogins, lockedUntil := 0, 0;
    }

    method HandleLogin(now: int, correct: bool, active: bool, policy: Policy) returns (response: Response)
      modifies this
      ensures (State(), response) == Handle(old(State()), Password(now, correct, active), policy)
    {
      if lockedUntil > 0 && now < lockedUntil {
        return Locked;
      }
      if !correct {
        var until := RecordFailedLogin(now, policy);
        return if until > 0 then Locked else InvalidCredentials;
      }
      if !active {
        return NotActive;
      }
      RecordLogin();
      return LoggedIn;
    }
  }

  // ---- One attempt ----

  /**
    Every outcome of a password attempt. Before the lock's end it is refused unseen. A wrong
    password counts, and the last one that is left locks; anything else clears an old lock only
    with the count it replaces. The right password of an active account logs in and clears both.
   */
  lemma AttemptOutcome(st: LockState, now: int, correct: bool, active: bool, policy: Policy)
    ensures var (st', response) := Handle(st, Password(now, correct, active), policy);
            var locked := 0 < st.lockedUntil && now < st.lockedUntil;
            var last := policy.lockAfter > 0 && st.failedLogins + 1 >= policy.lockAfter;
            && (locked ==> st' == st && response == Locked)
            && (!locked && correct && active ==> st' == LockState(0, 0) && response == LoggedIn)
            && (!locked && correct && !active ==> st' == st && response == NotActive)
            && (!locked && !correct && last ==>
                  st' == LockState(0, now + policy.lockFor)
                  && response == (if now + policy.lockFor > 0 then Locked else InvalidCredentials))
            && (!locked && !correct && !last ==>
                  st' == LockState(st.failedLogins + 1, 0) && response == InvalidCredentials)
    ensures var (st', response) := Handle(st, Telegram(now, active), policy);
            if active then st' == LockState(0, 0) && response == LoggedIn else st' == st && response == NotActive
  {
  }

  // ---- The lockout bound ----

  /** An attempt whose password was looked at and found wrong. */
  predicate WrongEvaluated(st: LockState, a: Attempt)
  {
    a.Password? && !Blocked(st, a.now) && !a.correct
  }

  function RunLogins(st: LockState, attempts: seq<Attempt>, policy: Policy): LockState
    decreases |attempts|
  {
    if attempts == [] then st else RunLogins(Handle(st, attempts[0], policy).0, attempts[1..], policy)
  }

  /** The counter stays below the limit over every run. */
  lemma {:induction false} CounterInRange(st: LockState, attempts: seq<Attempt>, policy: Policy)
    requires policy.lockAfter > 0 && 0 <= st.failedLogins < policy.lockAfter
    ensures 0 <= RunLogins(st, attempts, policy).failedLogins < policy.lockAfter
    decreases |attempts|
  {
    if attempts != [] {
      CounterInRange(Handle(st, attempts[0], policy).0, attempts[1..], policy);
    }
  }

  predicate InWindow(a: Attempt, from: int, policy: Policy)
  {
    from <= a.now < from + policy.lockFor
  }

  /** How many wrong passwords a run evaluates within [from, from + lockFor). */
  function WrongIn(st: LockState, attempts: seq<Attempt>, policy: Policy, from: int): nat
    decreases |attempts|
  {
    if attempts == [] then 0
    else
      var a := attempts[0];
      (if InWindow(a, from, policy) && WrongEvaluated(st, a) then 1 else 0)
      + WrongIn(Handle(st, a, policy).0, attempts[1..], policy, from)
  }

  ghost predicate ClockRuns(attempts: seq<Attempt>)
  {
    (forall i :: 0 <= i < |attempts| ==> attempts[i].now > 0)
    && forall i, j :: 0 <= i < j < |attempts| ==> attempts[i].now <= attempts[j].now
  }

  /** Whether any attempt of the run within the window logs in. */
  predicate SuccessIn(st: LockState, attempts: seq<Attempt>, policy: Policy, from: int)
    decreases |attempts|
  {
    attempts != []
    && ((InWindow(attempts[0], from, policy) && Handle(st, attempts[0], policy).1 == LoggedIn)
        || SuccessIn(Handle(st, attempts[0], policy).0, attempts[1..], policy, from))
  }

  /** From the window's start on, at most the attempts left before the lock are evaluated. */
  lemma {:induction false} WrongFromHere(st: LockState, attempts: seq<Attempt>, policy: Policy, from: int)
    requires policy.lockAfter > 0 && policy.lockFor > 0 && st.failedLogins >= 0
    requires ClockRuns(attempts) && forall i :: 0 <= i < |attempts| ==> attempts[i].now >= from
    requires !SuccessIn(st, attempts, policy, from)
    ensures WrongIn(st, attempts, policy, from) <= Max(1, policy.lockAfter - st.failedLogins)
    ensures st.lockedUntil >= from + policy.lockFor > 0 ==> WrongIn(st, attempts, policy, from) == 0
    decreases |attempts|
  {
    if attempts != [] {
      var st' := Handle(st, attempts[0], policy).0;
      if InWindow(attempts[0], from, policy) {
        WrongFromHere(st', attempts[1..], policy, from);
      } else {
        NoneAfter(st', attempts[1..], policy, from);
      }
    }
  }

  lemma {:induction false} NoneAfter(st: LockState, attempts: seq<Attempt>, policy: Policy, from: int)
    requires forall i :: 0 <= i < |attempts| ==> attempts[i].now >= from + policy.lockFor
    ensures WrongIn(st, attempts, policy, from) == 0
    decreases |attempts|
  {
    if attempts != [] {
      NoneAfter(Handle(st, attempts[0], policy).0, attempts[1..], policy, from);
    }
  }

  /**
    Over every run with a clock that never goes back: any half-open window as long as the lock,
    with no successful login in it, evaluates at most lockAfter wrong passwords.
   */
  lemma {:induction false} LockoutBound(st: LockState, attempts: seq<Attempt>, policy: Policy, from: int)
    requires policy.lockAfter > 0 && policy.lockFor > 0 && st.failedLogins >= 0
    requires ClockRuns(attempts) && !SuccessIn(st, attempts, policy, from)
    ensures WrongIn(st, attempts, policy, from) <= policy.lockAfter
    decreases |attempts|
  {
    if attempts != [] {
      if attempts[0].now < from {
        LockoutBound(Handle(st, attempts[0], policy).0, attempts[1..], policy, from);
      } else {
        WrongFromHere(st, attempts, policy, from);
      }
    }
  }

  /** The bound is met: lockAfter wrong passwords in a row lock the account for lockFor. */
  lemma {:induction false} LocksAtLimit(st: LockState, attempts: seq<Attempt>, policy: Policy)
    requires policy.lockFor > 0 && 0 <= st.failedLogins && st.lockedUntil == 0
    requires attempts != [] && |attempts| == policy.lockAfter - st.failedLogins
    requires ClockRuns(attempts) && forall i :: 0 <= i < |attempts| ==> attempts[i].Password? && !attempts[i].correct
    ensures RunLogins(st, attempts, policy) == LockState(0, attempts[|attempts| - 1].now + policy.lockFor)
    decreases |attempts|
  {
    var st' := Handle(st, attempts[0], policy).0;
    if |attempts| == 1 {
      assert attempts[1..] == [];
    } else {
      LocksAtLimit(st', attempts[1..], policy);
    }
  }
}
