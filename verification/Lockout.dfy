/** Login lockout over time: how many wrong passwords an account can be tried with. */
module Lockout {
  import opened Wrappers

  /** The two hardening columns of `users`; times in seconds. */
  datatype Guard = Guard(failed: nat, lockedUntil: Option<int>)

  const FRESH := Guard(0, None)

  datatype Status = Granted | Bad | Locked

  /** One call: when, whether the account row is active, whether the password is right. */
  datatype Attempt = Attempt(now: int, active: bool, right: bool)

  predicate IsLocked(g: Guard, now: int) { g.lockedUntil.Some? && g.lockedUntil.value > now }

  /** The password is compared with the stored hash. */
  predicate Checks(g: Guard, a: Attempt) { a.active && !IsLocked(g, a.now) }

  function Answer(g: Guard, a: Attempt): Status {
    if !a.active then Bad else if IsLocked(g, a.now) then Locked else if a.right then Granted else Bad
  }

  function After(g: Guard, a: Attempt, maxAttempts: int, lock: int): Guard {
    if !Checks(g, a) then g
    else if a.right then FRESH
    else if g.failed + 1 >= maxAttempts then Guard(0, Some(a.now + lock))
    else Guard(g.failed + 1, g.lockedUntil)
  }

  /** The user row, changed in place. */
  class UserRow {
    var failedLogins: nat
    var lockedUntil: Option<int>
    var isActive: bool

    function State(): Guard
      reads this
    {
      Guard(failedLogins, lockedUntil)
    }

    constructor ()
      ensures State() == FRESH && isActive
    {
      failedLogins, lockedUntil, isActive := 0, None, true;
    }

    /** `checked` tells whether the password was compared with the stored hash. */
    method Authenticate(now: int, right: bool, maxAttempts: int, lock: int)
      returns (status: Status, ghost checked: bool)
      modifies this`failedLogins, this`lockedUntil
      ensures State() == After(old(State()), Attempt(now, isActive, right), maxAttempts, lock)
      ensures status == Answer(old(State()), Attempt(now, isActive, right))
      ensures checked == Checks(old(State()), Attempt(now, isActive, right))
      ensures checked <==> isActive && !(old(lockedUntil).Some? && old(lockedUntil).value > now)
      ensures status == Granted <==> isActive && right && !(old(lockedUntil).Some? && old(lockedUntil).value > now)
      ensures status == Locked <==> isActive && old(lockedUntil).Some? && old(lockedUntil).value > now
      ensures !checked ==> failedLogins == old(failedLogins) && lockedUntil == old(lockedUntil)
      ensures checked && right ==> failedLogins == 0 && lockedUntil == None
      ensures checked && !right && old(failedLogins) + 1 >= maxAttempts ==>
                failedLogins == 0 && lockedUntil == Some(now + lock)
      ensures checked && !right && old(failedLogins) + 1 < maxAttempts ==>
                failedLogins == old(failedLogins) + 1 && lockedUntil == old(lockedUntil)
    {
      checked := false;
      if !isActive {
        return Bad, checked;
      }
      if lockedUntil.Some? && lockedUntil.value > now {
        return Locked, checked;
      }
      checked := true;
      if right {
        if failedLogins > 0 || lockedUntil.Some? {
          failedLogins := 0;
          lockedUntil := None;
        }
        return Granted, checked;
      }
      failedLogins := failedLogins + 1;
      if failedLogins >= maxAttempts {
        lockedUntil := Some(now + lock);
        failedLogins := 0;
      }
      return Bad, checked;
    }
  }

  // ----- a run of wrong passwords ------------------------------------------------

  /** Attempts in order of time, none of them with the right password. */
  ghost predicate Guessing(run: seq<Attempt>) {
    && (forall i | 0 <= i < |run| :: !run[i].right)
    && (forall i, j | 0 <= i < j < |run| :: run[i].now <= run[j].now)
  }

  function Final(run: seq<Attempt>, maxAttempts: int, lock: int): Guard {
    if run == [] then FRESH
    else After(Final(run[..|run| - 1], maxAttempts, lock), run[|run| - 1], maxAttempts, lock)
  }

  function Checked(run: seq<Attempt>, maxAttempts: int, lock: int): nat {
    if run == [] then 0
    else
      var init, a := run[..|run| - 1], run[|run| - 1];
      Checked(init, maxAttempts, lock) + if Checks(Final(init, maxAttempts, lock), a) then 1 else 0
  }

  function Locks(run: seq<Attempt>, maxAttempts: int, lock: int): nat {
    if run == [] then 0
    else
      var init, a := run[..|run| - 1], run[|run| - 1];
      var g := Final(init, maxAttempts, lock);
      Locks(init, maxAttempts, lock) + if Checks(g, a) && g.failed + 1 >= maxAttempts then 1 else 0
  }

  /** `max_attempts` of 1 and of anything below behave alike. */
  function Quota(maxAttempts: int): nat { if maxAttempts < 1 then 1 else maxAttempts }

  function Span(run: seq<Attempt>): int
    requires run != []
  {
    run[|run| - 1].now - run[0].now
  }

  /** The books: full rounds plus the current one, and the k-th lock ends no earlier
      than k lock lengths after the first attempt. */
  ghost predicate Books(run: seq<Attempt>, maxAttempts: int, lock: int) {
    var g, k := Final(run, maxAttempts, lock), Locks(run, maxAttempts, lock);
    && Checked(run, maxAttempts, lock) == Quota(maxAttempts) * k + g.failed
    && g.failed < Quota(maxAttempts)
    && (g.lockedUntil.None? <==> k == 0)
    && (k > 0 ==> g.lockedUntil.value >= run[0].now + lock * k)
    && (k > 0 ==> g.lockedUntil.value <= run[|run| - 1].now + lock)
    && (k > 0 && g.failed > 0 ==> g.lockedUntil.value <= run[|run| - 1].now)
  }

  lemma LockTimes(k: int, lock: int)
    ensures lock * (k + 1) == lock * k + lock
  {
  }

  lemma {:induction false} BooksBalance(run: seq<Attempt>, maxAttempts: int, lock: int)
    requires Guessing(run) && lock > 0
    ensures run != [] ==> Books(run, maxAttempts, lock)
  {
    if run != [] {
      var n := |run| - 1;
      var init, a := run[..n], run[n];
      BooksBalance(init, maxAttempts, lock);
      var k := Locks(init, maxAttempts, lock);
      LockTimes(k, lock);
      LockTimes(k, Quota(maxAttempts));
      assert !a.right;
      if n > 0 {
        assert init[0] == run[0] && init[n - 1] == run[n - 1];
        assert run[n - 1].now <= a.now && run[0].now <= a.now;
      }
    }
  }

  /** Over any run of attempts in order of time without success, the wrong passwords
      actually checked within a span T are at most max * (T / lock + 1), and the failure
      counter never reaches the limit. */
  lemma LockoutBound(run: seq<Attempt>, maxAttempts: int, lock: int)
    requires Guessing(run) && run != [] && lock > 0
    ensures Checked(run, maxAttempts, lock) <= Quota(maxAttempts) * (Span(run) / lock + 1)
    ensures Final(run, maxAttempts, lock).failed < Quota(maxAttempts)
  {
    BooksBalance(run, maxAttempts, lock);
    SpanNotNegative(run);
    BooksToBound(Span(run), run[0].now, Quota(maxAttempts), lock,
                 Locks(run, maxAttempts, lock), Final(run, maxAttempts, lock));
  }

  lemma SpanNotNegative(run: seq<Attempt>)
    requires Guessing(run) && run != []
    ensures Span(run) >= 0
  {
  }

  lemma BooksToBound(t: int, first: int, quota: nat, lock: int, k: nat, g: Guard)
    requires t >= 0 && lock > 0 && g.failed < quota
    requires k > 0 ==> g.lockedUntil.Some? && first + lock * k <= g.lockedUntil.value <= first + t + lock
    requires k > 0 && g.failed > 0 ==> g.lockedUntil.value <= first + t
    ensures quota * k + g.failed <= quota * (t / lock + 1)
  {
    var rounds := if g.failed > 0 then k + 1 else k;
    if k > 0 {
      LockTimes(k - 1, lock);
    }
    assert rounds > 0 ==> t >= lock * (rounds - 1);
    DivAtLeast(t, lock, if rounds > 0 then rounds - 1 else 0);
    RoundsSuffice(quota, k, g.failed, t / lock + 1);
  }

  lemma DivAtLeast(t: int, lock: int, k: int)
    requires lock > 0 && t >= lock * k
    ensures t / lock >= k
  {
    var q := t / lock;
    assert t < lock * q + lock;
    LockTimes(q, lock);
    if q + 1 <= k {
      MulMonotone(lock, q + 1, k);
      assert false;
    }
  }

  lemma MulMonotone(c: int, a: int, b: int)
    requires c >= 0 && a <= b
    ensures c * a <= c * b
  {
  }

  lemma RoundsSuffice(quota: nat, k: nat, f: nat, rounds: int)
    requires f < quota && rounds >= (if f > 0 then k + 1 else k)
    ensures quota * k + f <= quota * rounds
  {
  }

  // ----- the bound is reached --------------------------------------------------------

  /** `rounds` bursts of `max` wrong passwords, one lock length apart. */
  function Burst(now: int, n: nat): seq<Attempt> {
    seq(n, _ => Attempt(now, true, false))
  }

  function Bursts(rounds: nat, maxAttempts: nat, lock: int): seq<Attempt> {
    if rounds == 0 then [] else Bursts(rounds - 1, maxAttempts, lock) + Burst(lock * (rounds - 1), maxAttempts)
  }

  lemma {:induction false} BurstCounts(before: seq<Attempt>, now: int, n: nat, maxAttempts: nat, lock: int)
    requires maxAttempts >= 1 && n <= maxAttempts
    requires Final(before, maxAttempts, lock).failed == 0 && !IsLocked(Final(before, maxAttempts, lock), now)
    ensures Checked(before + Burst(now, n), maxAttempts, lock) == Checked(before, maxAttempts, lock) + n
    ensures Final(before + Burst(now, n), maxAttempts, lock) ==
            if n == 0 then Final(before, maxAttempts, lock)
            else if n == maxAttempts then Guard(0, Some(now + lock))
            else Guard(n, Final(before, maxAttempts, lock).lockedUntil)
  {
    var run := before + Burst(now, n);
    if n == 0 {
      assert run == before;
    } else {
      BurstCounts(before, now, n - 1, maxAttempts, lock);
      assert run[..|run| - 1] == before + Burst(now, n - 1);
    }
  }

  lemma {:induction false} BurstsCount(rounds: nat, maxAttempts: nat, lock: int)
    requires maxAttempts >= 1 && lock > 0
    ensures Checked(Bursts(rounds, maxAttempts, lock), maxAttempts, lock) == maxAttempts * rounds
    ensures Final(Bursts(rounds, maxAttempts, lock), maxAttempts, lock) ==
            if rounds == 0 then FRESH else Guard(0, Some(lock * rounds))
  {
    if rounds > 0 {
      BurstsCount(rounds - 1, maxAttempts, lock);
      BurstCounts(Bursts(rounds - 1, maxAttempts, lock), lock * (rounds - 1), maxAttempts, maxAttempts, lock);
      LockTimes(rounds - 1, lock);
      LockTimes(rounds - 1, maxAttempts);
    }
  }

  /** In order, starting at 0 and ending at `last`. */
  ghost predicate Timed(run: seq<Attempt>, last: int) {
    && Guessing(run) && run != []
    && run[0].now == 0 && run[|run| - 1].now == last
  }

  lemma TimedAppend(run: seq<Attempt>, last: int, next: int, n: nat)
    requires Timed(run, last) && last <= next && n >= 1
    ensures Timed(run + Burst(next, n), next)
  {
  }

  lemma {:induction false} BurstsSpan(rounds: nat, maxAttempts: nat, lock: int)
    requires maxAttempts >= 1 && lock > 0 && rounds >= 1
    ensures Timed(Bursts(rounds, maxAttempts, lock), lock * (rounds - 1))
  {
    if rounds == 1 {
      assert Bursts(1, maxAttempts, lock) == Burst(lock * 0, maxAttempts);
    } else {
      BurstsSpan(rounds - 1, maxAttempts, lock);
      LockTimes(rounds - 2, lock);
      TimedAppend(Bursts(rounds - 1, maxAttempts, lock), lock * (rounds - 2), lock * (rounds - 1), maxAttempts);
    }
  }

  /** The bound cannot be improved: whoever knows the lock length meets it. */
  lemma BoundIsTight(rounds: nat, maxAttempts: nat, lock: int)
    requires maxAttempts >= 1 && lock > 0 && rounds > 0
    ensures var run := Bursts(rounds, maxAttempts, lock);
            && run != [] && Guessing(run) && Span(run) == lock * (rounds - 1)
            && Checked(run, maxAttempts, lock) == maxAttempts * (Span(run) / lock + 1)
  {
    BurstsCount(rounds, maxAttempts, lock);
    BurstsSpan(rounds, maxAttempts, lock);
    MulDiv(lock, rounds - 1);
  }

  lemma MulDiv(lock: int, k: nat)
    requires lock > 0
    ensures lock * k / lock == k
  {
    DivAtLeast(lock * k, lock, k);
    var q := lock * k / lock;
    assert lock * q <= lock * k;
    if q > k {
      MulMonotone(lock, k + 1, q);
      LockTimes(k, lock);
      assert false;
    }
  }
}
