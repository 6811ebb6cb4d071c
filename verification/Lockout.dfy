/** Blocking an account after failed logins, after login, handleFailedAttempt and resetFailedAttempts in
    src/modules/auth/auth.service.ts. Times are in any unit. */
module Lockout {
  import opened Wrappers

  /** MAX_FAILED_ATTEMPTS and BLOCK_TIME_MINUTES, both at least 1 by src/config/env.schema.ts:65-66. */
  datatype Policy = Policy(maxFailed: int, blockTime: int)

  ghost predicate ValidPolicy(policy: Policy) {
    policy.maxFailed >= 1 && policy.blockTime >= 1
  }

  datatype Account = Account(failedAttempts: int, blockedUntil: Option<int>)

  const Fresh: Account := Account(0, None)

  datatype Outcome = Blocked | Wrong | Welcome

  datatype Attempt = Attempt(now: int, passwordValid: bool)

  predicate IsBlocked(account: Account, now: int) {
    account.blockedUntil.Some? && account.blockedUntil.value > now
  }

  function Failed(policy: Policy, account: Account, now: int): Account {
    if account.failedAttempts + 1 >= policy.maxFailed then Account(0, Some(now + policy.blockTime))
    else account.(failedAttempts := account.failedAttempts + 1)
  }

  function Login(policy: Policy, account: Account, attempt: Attempt): (Account, Outcome) {
    if IsBlocked(account, attempt.now) then (account, Blocked)
    else if attempt.passwordValid then (Account(0, None), Welcome)
    else (Failed(policy, account, attempt.now), Wrong)
  }

  class AuthUser {
    var failedAttempts: int
    var blockedUntil: Option<int>

    function Contents(): Account
      reads this
    {
      Account(failedAttempts, blockedUntil)
    }

    constructor ()
      ensures Contents() == Account(0, None)
    {
      failedAttempts, blockedUntil := 0, None;
    }

    method HandleFailedAttempt(policy: Policy, now: int)
      modifies this
      ensures old(failedAttempts) + 1 < policy.maxFailed ==>
                failedAttempts == old(failedAttempts) + 1 && blockedUntil == old(blockedUntil)
      ensures old(failedAttempts) + 1 >= policy.maxFailed ==>
                failedAttempts == 0 && blockedUntil == Some(now + policy.blockTime)
      ensures Contents() == Failed(policy, old(Contents()), now)
    {
      failedAttempts := failedAttempts + 1;
      if failedAttempts >= policy.maxFailed {
        blockedUntil := Some(now + policy.blockTime);
        failedAttempts := 0;
      }
    }

    method ResetFailedAttempts()
      modifies this
      ensures Contents() == Account(0, None)
    {
      failedAttempts := 0;
      blockedUntil := None;
    }

    method TryLogin(policy: Policy, attempt: Attempt) returns (outcome: Outcome)
      modifies this
      ensures outcome == Blocked <==> old(blockedUntil).Some? && attempt.now < old(blockedUntil).value
      ensures outcome == Blocked ==> Contents() == old(Contents())
      ensures outcome == Welcome ==> attempt.passwordValid && failedAttempts == 0 && blockedUntil == None
      ensures outcome == Wrong ==> !attempt.passwordValid
      ensures outcome == Wrong ==>
                (IsBlocked(Contents(), attempt.now)
                 <==> old(failedAttempts) + 1 >= policy.maxFailed && policy.blockTime > 0)
      ensures (Contents(), outcome) == Login(policy, old(Contents()), attempt)
    {
      if blockedUntil.Some? && blockedUntil.value > attempt.now {
        return Blocked;
      }
      if !attempt.passwordValid {
        HandleFailedAttempt(policy, attempt.now);
        return Wrong;
      }
      ResetFailedAttempts();
      return Welcome;
    }
  }

  // ---- runs of login attempts ----

  function After(policy: Policy, account: Account, attempts: seq<Attempt>): Account
    decreases |attempts|
  {
    if attempts == [] then account else After(policy, Login(policy, account, attempts[0]).0, attempts[1..])
  }

  /** How many wrong passwords were compared with the account's. */
  function WrongCount(policy: Policy, account: Account, attempts: seq<Attempt>): nat
    decreases |attempts|
  {
    if attempts == [] then 0 else
    var (next, outcome) := Login(policy, account, attempts[0]);
    (if outcome == Wrong then 1 else 0) + WrongCount(policy, next, attempts[1..])
  }

  predicate NobodyGetsIn(policy: Policy, account: Account, attempts: seq<Attempt>)
    decreases |attempts|
  {
    attempts == [] ||
    (Login(policy, account, attempts[0]).1 != Welcome
     && NobodyGetsIn(policy, Login(policy, account, attempts[0]).0, attempts[1..]))
  }

  /** Attempts in order of time, all within [start, end]. */
  predicate Within(attempts: seq<Attempt>, start: int, end: int)
    decreases |attempts|
  {
    attempts == [] || (start <= attempts[0].now <= end && Within(attempts[1..], attempts[0].now, end))
  }

  predicate CounterBelowLimit(policy: Policy, account: Account) {
    0 <= account.failedAttempts < policy.maxFailed
  }

  /** The counter stays below the limit after every attempt of every run. */
  lemma {:induction false} CounterStaysBelow(policy: Policy, account: Account, attempts: seq<Attempt>)
    requires ValidPolicy(policy) && CounterBelowLimit(policy, account)
    ensures CounterBelowLimit(policy, After(policy, account, attempts))
    decreases |attempts|
  {
    if attempts != [] {
      CounterStaysBelow(policy, Login(policy, account, attempts[0]).0, attempts[1..]);
    }
  }

  // ---- when a right password is refused ----

  /** A wrong guess that is compared and is the last one allowed. */
  predicate Locks(policy: Policy, account: Account, attempt: Attempt) {
    !IsBlocked(account, attempt.now) && !attempt.passwordValid && account.failedAttempts + 1 >= policy.maxFailed
  }

  /** Some attempt of the run locks the account less than the block time before `now`. */
  predicate LockedSince(policy: Policy, account: Account, attempts: seq<Attempt>, now: int)
    decreases |attempts|
  {
    attempts != [] &&
    ((Locks(policy, account, attempts[0]) && now < attempts[0].now + policy.blockTime)
     || LockedSince(policy, Login(policy, account, attempts[0]).0, attempts[1..], now))
  }

  lemma {:induction false} BlockedExactlyWhen(
      policy: Policy, account: Account, attempts: seq<Attempt>, start: int, now: int)
    requires ValidPolicy(policy) && Within(attempts, start, now)
    ensures IsBlocked(After(policy, account, attempts), now)
            <==> IsBlocked(account, now) || LockedSince(policy, account, attempts, now)
    decreases |attempts|
  {
    if attempts != [] {
      BlockedExactlyWhen(policy, Login(policy, account, attempts[0]).0, attempts[1..], attempts[0].now, now);
    }
  }

  /** After any attempts on a fresh account, the right password is refused exactly when one of them locked the account
      less than the block time ago, and accepted at once otherwise. */
  lemma RefusedExactlyWhen(policy: Policy, attempts: seq<Attempt>, start: int, now: int)
    requires ValidPolicy(policy) && Within(attempts, start, now)
    ensures var (account, outcome) := Login(policy, After(policy, Fresh, attempts), Attempt(now, true));
            (outcome == Blocked <==> LockedSince(policy, Fresh, attempts, now))
            && (outcome == Welcome ==> account == Fresh)
            && (outcome == Blocked || outcome == Welcome)
  {
    BlockedExactlyWhen(policy, Account(0, None), attempts, start, now);
  }

  // ---- which guess locks ----

  /** A successful login, or a wrong guess after which the account is blocked. */
  predicate Resets(policy: Policy, account: Account, attempt: Attempt) {
    var (next, outcome) := Login(policy, account, attempt);
    outcome == Welcome || (outcome == Wrong && IsBlocked(next, attempt.now))
  }

  /** How many attempts on a fresh account there were up to the last success or lock. */
  function LastReset(policy: Policy, attempts: seq<Attempt>): (k: nat)
    ensures k <= |attempts|
    decreases |attempts|
  {
    var n := |attempts| - 1;
    if attempts == [] then 0
    else if Resets(policy, After(policy, Fresh, attempts[..n]), attempts[n]) then n + 1
    else LastReset(policy, attempts[..n])
  }

  /** The wrong passwords compared since then. */
  function WrongSinceReset(policy: Policy, attempts: seq<Attempt>): nat {
    var k := LastReset(policy, attempts);
    WrongCount(policy, After(policy, Fresh, attempts[..k]), attempts[k..])
  }

  lemma {:induction false} OneMoreAttempt(policy: Policy, account: Account, attempts: seq<Attempt>, last: Attempt)
    ensures After(policy, account, attempts + [last]) == Login(policy, After(policy, account, attempts), last).0
    ensures var outcome := Login(policy, After(policy, account, attempts), last).1;
            WrongCount(policy, account, attempts + [last])
            == WrongCount(policy, account, attempts) + if outcome == Wrong then 1 else 0
    decreases |attempts|
  {
    if attempts == [] {
      assert [last][1..] == [];
    } else {
      OneMoreAttempt(policy, Login(policy, account, attempts[0]).0, attempts[1..], last);
      assert (attempts + [last])[1..] == attempts[1..] + [last];
    }
  }

  lemma {:induction false} AttemptsSplit(policy: Policy, account: Account, attempts: seq<Attempt>, k: nat)
    requires k <= |attempts|
    ensures After(policy, After(policy, account, attempts[..k]), attempts[k..]) == After(policy, account, attempts)
    decreases k
  {
    if k > 0 {
      AttemptsSplit(policy, Login(policy, account, attempts[0]).0, attempts[1..], k - 1);
      assert attempts[..k][1..] == attempts[1..][..k - 1] && attempts[1..][k - 1..] == attempts[k..];
    } else {
      assert attempts[..0] == [] && attempts[0..] == attempts;
    }
  }

  /** The counter of the account is the number of wrong passwords compared since the last success or lock. */
  lemma {:induction false} CounterIsWrongSinceReset(policy: Policy, attempts: seq<Attempt>)
    requires ValidPolicy(policy)
    ensures After(policy, Fresh, attempts).failedAttempts == WrongSinceReset(policy, attempts)
    decreases |attempts|
  {
    if attempts != [] {
      var n := |attempts| - 1;
      var init, last := attempts[..n], attempts[n];
      var before := After(policy, Fresh, init);
      CounterIsWrongSinceReset(policy, init);
      OneMoreAttempt(policy, Fresh, init, last);
      assert attempts == init + [last];
      if Resets(policy, before, last) {
        assert attempts[n + 1..] == [] && attempts[..n + 1] == attempts;
      } else {
        var k := LastReset(policy, init);
        var start := After(policy, Fresh, init[..k]);
        assert attempts[k..] == init[k..] + [last] && attempts[..k] == init[..k];
        OneMoreAttempt(policy, start, init[k..], last);
        AttemptsSplit(policy, Fresh, init, k);
      }
    }
  }

  /** A guess locks the account exactly when it is compared, is wrong, and is the MAX-th wrong one since the last
      success or lock. */
  lemma LocksExactlyAtMax(policy: Policy, attempts: seq<Attempt>, last: Attempt)
    requires ValidPolicy(policy)
    ensures var account := After(policy, Fresh, attempts);
            Login(policy, account, last).1 == Wrong && IsBlocked(Login(policy, account, last).0, last.now)
            <==> !IsBlocked(account, last.now) && !last.passwordValid
                 && WrongSinceReset(policy, attempts) + 1 == policy.maxFailed
  {
    CounterIsWrongSinceReset(policy, attempts);
    CounterStaysBelow(policy, Fresh, attempts);
    hide After, WrongSinceReset;
  }

  // ---- how many guesses fit into a time ----

  /** How many times one of the moments open, open + block, open + 2 * block, ... falls before or on `end`. */
  function Rounds(open: int, end: int, block: int): (n: nat)
    requires block >= 1
    decreases end - open
  {
    if open > end then 0 else 1 + Rounds(open + block, end, block)
  }

  /** The first moment at which a password is compared again. */
  function OpenFrom(account: Account, start: int): int {
    if IsBlocked(account, start) then account.blockedUntil.value else start
  }

  /** No more wrong passwords are compared than the rounds that fit, less the failures already counted. */
  lemma {:induction false} WrongBounded(policy: Policy, account: Account, attempts: seq<Attempt>, start: int, end: int)
    requires ValidPolicy(policy) && CounterBelowLimit(policy, account)
    requires Within(attempts, start, end) && NobodyGetsIn(policy, account, attempts)
    ensures var rounds := Rounds(OpenFrom(account, start), end, policy.blockTime);
            WrongCount(policy, account, attempts) <= Budget(policy, account, rounds)
    decreases |attempts|
  {
    if attempts != [] {
      var first := attempts[0];
      var next := Login(policy, account, first).0;
      WrongBounded(policy, next, attempts[1..], first.now, end);
      var open := OpenFrom(account, start);
      RoundsShrink(open, OpenFrom(account, first.now), end, policy.blockTime);
      BudgetGrows(policy, account, Rounds(OpenFrom(account, first.now), end, policy.blockTime),
                  Rounds(open, end, policy.blockTime));
      hide Within, NobodyGetsIn;
    }
  }

  /** What so many rounds of guesses amount to when some failures are already counted. */
  function Budget(policy: Policy, account: Account, rounds: nat): int {
    if rounds == 0 then 0 else policy.maxFailed * rounds - account.failedAttempts
  }

  lemma {:induction false} RoundsShrink(a: int, b: int, end: int, block: int)
    requires block >= 1 && a <= b
    ensures Rounds(a, end, block) >= Rounds(b, end, block)
    decreases end - a
  {
    if a <= end && b <= end {
      RoundsShrink(a + block, b + block, end, block);
    }
  }

  lemma BudgetGrows(policy: Policy, account: Account, fewer: nat, more: nat)
    requires ValidPolicy(policy) && CounterBelowLimit(policy, account) && fewer <= more
    ensures Budget(policy, account, fewer) <= Budget(policy, account, more)
  {
    MultiplyMonotonic(policy.maxFailed, fewer, more);
    if more > 0 {
      MultiplyMonotonic(policy.maxFailed, 1, more);
    }
  }

  lemma {:induction false} MultiplyMonotonic(d: int, p: nat, q: nat)
    requires d >= 0 && p <= q
    ensures d * p <= d * q
    decreases q - p
  {
    if p < q {
      MultiplyMonotonic(d, p, q - 1);
      assert d * q == d * (q - 1) + d;
    }
  }

  // ---- the bound in closed form ----

  lemma {:induction false} RoundsBetween(open: int, end: int, block: int)
    requires block >= 1 && open <= end
    ensures var n := Rounds(open, end, block);
            n >= 1 && block * (n - 1) <= end - open < block * n
    decreases end - open
  {
    var n := Rounds(open, end, block);
    if open + block <= end {
      RoundsBetween(open + block, end, block);
      assert block * n == block * (n - 1) + block;
      assert block * (n - 1) == block * (n - 2) + block;
    }
  }

  lemma RoundsQuotient(open: int, end: int, block: int)
    requires block >= 1 && open <= end
    ensures Rounds(open, end, block) == (end - open) / block + 1
  {
    RoundsBetween(open, end, block);
    var x, q := end - open, Rounds(open, end, block) - 1;
    var p := x / block;
    assert block * (q + 1) == block * q + block;
    assert block * (p + 1) == block * p + block;
    assert block * p <= x < block * p + block;
    if p > q {
      MultiplyMonotonic(block, q + 1, p);
    } else if p < q {
      MultiplyMonotonic(block, p + 1, q);
    }
  }

  /** Between `start` and `end`, as long as nobody gets in, at most MAX * (T / B + 1) wrong passwords are compared. */
  lemma GuessesBounded(policy: Policy, account: Account, attempts: seq<Attempt>, start: int, end: int)
    requires ValidPolicy(policy) && CounterBelowLimit(policy, account) && start <= end
    requires Within(attempts, start, end) && NobodyGetsIn(policy, account, attempts)
    ensures WrongCount(policy, account, attempts) <= policy.maxFailed * ((end - start) / policy.blockTime + 1)
  {
    WrongBounded(policy, account, attempts, start, end);
    var rounds := Rounds(OpenFrom(account, start), end, policy.blockTime);
    RoundsShrink(start, OpenFrom(account, start), end, policy.blockTime);
    RoundsQuotient(start, end, policy.blockTime);
    BudgetGrows(policy, account, rounds, Rounds(start, end, policy.blockTime));
  }

  /** Guess wrong at once until blocked, and again as soon as the block has passed. */
  function WorstRun(policy: Policy, account: Account, t: int, end: int): seq<Attempt>
    requires policy.maxFailed >= 1 && policy.blockTime >= 1 && CounterBelowLimit(policy, account)
    decreases end - t, policy.maxFailed - account.failedAttempts
  {
    if t > end then [] else
    var next := Failed(policy, account, t);
    [Attempt(t, false)] + WorstRun(policy, next, if next.failedAttempts == 0 then t + policy.blockTime else t, end)
  }

  lemma {:induction false} WorstRunCounts(policy: Policy, account: Account, t: int, end: int)
    requires ValidPolicy(policy) && CounterBelowLimit(policy, account) && !IsBlocked(account, t)
    ensures var run := WorstRun(policy, account, t, end);
            Within(run, t, end) && NobodyGetsIn(policy, account, run)
            && WrongCount(policy, account, run) == Budget(policy, account, Rounds(t, end, policy.blockTime))
    decreases end - t, policy.maxFailed - account.failedAttempts
  {
    if t <= end {
      var next := Failed(policy, account, t);
      var later := if next.failedAttempts == 0 then t + policy.blockTime else t;
      WorstRunCounts(policy, next, later, end);
      var rest := WorstRun(policy, next, later, end);
      assert WorstRun(policy, account, t, end)[1..] == rest;
      WithinFromEarlier(rest, t, later, end);
      var n := Rounds(t, end, policy.blockTime);
      assert policy.maxFailed * n == policy.maxFailed * (n - 1) + policy.maxFailed;
    }
  }

  lemma WithinFromEarlier(attempts: seq<Attempt>, earlier: int, start: int, end: int)
    requires Within(attempts, start, end) && earlier <= start
    ensures Within(attempts, earlier, end)
  {
  }

  /** The bound is exact: some run of guesses on a fresh account reaches it. */
  lemma BoundIsReached(policy: Policy, start: int, end: int)
    requires ValidPolicy(policy) && start <= end
    ensures exists attempts ::
              Within(attempts, start, end) && NobodyGetsIn(policy, Fresh, attempts)
              && WrongCount(policy, Fresh, attempts)
                 == policy.maxFailed * ((end - start) / policy.blockTime + 1)
  {
    WorstRunCounts(policy, Fresh, start, end);
    RoundsQuotient(start, end, policy.blockTime);
  }
}
