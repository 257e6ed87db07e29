/** Login rate limiting per client (monitor/internal/auth/auth.go). Times are in milliseconds. */
module AuthLockout {

  const MAX_FAILURES := 5
  const LOCKOUT_MS := 60000

  /** Go's zero time, the lockedUntil of a fresh entry. */
  const ZERO_TIME := -62135596800000

  datatype Attempts = Attempts(failures: nat, lockedUntil: int)

  type Table = map<string, Attempts>

  /** One call of Login: the clock is read when the lockout is checked and again if a failure is
      recorded; `valid` is what looking up the user and comparing the password hash comes to. */
  datatype Attempt = Attempt(key: string, checkedAt: int, recordedAt: int, valid: bool)

  datatype Outcome = Locked | Failed | Succeeded

  predicate IsLocked(t: Table, key: string, now: int) {
    key in t && now < t[key].lockedUntil
  }

  function Recorded(t: Table, key: string, now: int): Table {
    var a := if key in t then t[key] else Attempts(0, ZERO_TIME);
    t[key := if a.failures + 1 >= MAX_FAILURES then Attempts(0, now + LOCKOUT_MS)
             else a.(failures := a.failures + 1)]
  }

  function OutcomeOf(t: Table, a: Attempt): Outcome {
    if IsLocked(t, a.key, a.checkedAt) then Locked else if a.valid then Succeeded else Failed
  }

  function After(t: Table, a: Attempt): Table {
    match OutcomeOf(t, a)
    case Locked => t
    case Failed => Recorded(t, a.key, a.recordedAt)
    case Succeeded => t - {a.key}
  }

  function Run(t: Table, run: seq<Attempt>): Table
    decreases |run|
  {
    if run == [] then t else Run(After(t, run[0]), run[1..])
  }

  /** Logins run one at a time on a clock that does not go back. */
  ghost predicate InOrder(run: seq<Attempt>) {
    && (forall i :: 0 <= i < |run| ==> run[i].checkedAt <= run[i].recordedAt)
    && forall i, j :: 0 <= i < j < |run| ==> run[i].recordedAt <= run[j].checkedAt
  }

  /** The failure counter never reaches the limit. */
  ghost predicate Wf(t: Table) {
    forall k :: k in t ==> t[k].failures < MAX_FAILURES
  }

  predicate Within(a: Attempt, key: string, start: int) {
    a.key == key && start <= a.checkedAt < start + LOCKOUT_MS
  }

  /** A wrong password that is looked at: made while the client is not locked out. */
  predicate Guess(t: Table, a: Attempt) {
    !IsLocked(t, a.key, a.checkedAt) && !a.valid
  }

  /** A right password that is looked at. */
  predicate Entry(t: Table, a: Attempt) {
    !IsLocked(t, a.key, a.checkedAt) && a.valid
  }

  /** Evaluated failures of one client in the half-open window of 60 seconds from `start`. */
  function FailuresIn(t: Table, run: seq<Attempt>, key: string, start: int): nat
    decreases |run|
  {
    if run == [] then 0
    else (if Within(run[0], key, start) && Guess(t, run[0]) then 1 else 0) +
         FailuresIn(After(t, run[0]), run[1..], key, start)
  }

  predicate NoSuccessIn(t: Table, run: seq<Attempt>, key: string, start: int)
    decreases |run|
  {
    run == [] ||
    (!(Within(run[0], key, start) && Entry(t, run[0])) &&
     NoSuccessIn(After(t, run[0]), run[1..], key, start))
  }

  /** How many more failures can still be evaluated before the window ends. */
  function Allowance(t: Table, key: string, start: int): int {
    if key !in t then MAX_FAILURES
    else if t[key].lockedUntil >= start + LOCKOUT_MS then 0
    else MAX_FAILURES - t[key].failures
  }

  lemma AfterKeepsWf(t: Table, a: Attempt)
    requires Wf(t)
    ensures Wf(After(t, a))
  {
  }

  lemma {:induction false} AfterTheWindow(t: Table, run: seq<Attempt>, key: string, start: int)
    requires forall a :: a in run ==> a.checkedAt >= start + LOCKOUT_MS
    ensures FailuresIn(t, run, key, start) == 0
    decreases |run|
  {
    if run != [] {
      assert run[0] in run;
      AfterTheWindow(After(t, run[0]), run[1..], key, start);
    }
  }

  /** Once the window has begun, each evaluated failure uses up allowance; the fifth in a row locks the
      client out until after the window. */
  lemma {:induction false} InTheWindow(t: Table, run: seq<Attempt>, key: string, start: int)
    requires Wf(t) && InOrder(run) && NoSuccessIn(t, run, key, start)
    requires forall a :: a in run ==> a.checkedAt >= start
    ensures FailuresIn(t, run, key, start) <= Allowance(t, key, start)
    decreases |run|
  {
    if run != [] {
      var a, t' := run[0], After(t, run[0]);
      assert a in run;
      AfterKeepsWf(t, a);
      if a.checkedAt >= start + LOCKOUT_MS {
        forall x | x in run ensures x.checkedAt >= start + LOCKOUT_MS {
          var i :| 0 <= i < |run| && run[i] == x;
        }
        AfterTheWindow(t, run, key, start);
      } else {
        InTheWindow(t', run[1..], key, start);
      }
    }
  }

  /** For every run and every client, any half-open window of 60 seconds without a successful login of
      that client holds at most five evaluated failures. */
  lemma {:induction false} AtMostFiveFailures(t: Table, run: seq<Attempt>, key: string, start: int)
    requires Wf(t) && InOrder(run) && NoSuccessIn(t, run, key, start)
    ensures FailuresIn(t, run, key, start) <= MAX_FAILURES
    decreases |run|
  {
    if run != [] {
      AfterKeepsWf(t, run[0]);
      if run[0].checkedAt < start {
        AtMostFiveFailures(After(t, run[0]), run[1..], key, start);
      } else {
        forall x | x in run ensures x.checkedAt >= start {
          var i :| 0 <= i < |run| && run[i] == x;
        }
        InTheWindow(t, run, key, start);
      }
    }
  }

  // ----- The table and the history say the same -----

  /** Whether a client with these failures since its last success, newest first by recording time, is
      barred: the lock runs for 60 seconds from the last failure that completed a group of five. */
  predicate Barred(times: seq<int>, now: int) {
    |times| >= MAX_FAILURES && now < times[|times| % MAX_FAILURES] + LOCKOUT_MS
  }

  function Noted(times: seq<int>, a: Attempt, key: string): seq<int> {
    if a.key != key || Barred(times, a.checkedAt) then times
    else if a.valid then [] else [a.recordedAt] + times
  }

  /** A client's failures since its last success, read off the attempts alone. */
  function FailureTimes(run: seq<Attempt>, key: string, sofar: seq<int>): seq<int>
    decreases |run|
  {
    if run == [] then sofar else FailureTimes(run[1..], key, Noted(sofar, run[0], key))
  }

  /** The counter and the lock agree with the history: the counter is the number of failures since the
      last lock or success, and a lock runs from the fifth failure of such a group. */
  ghost predicate Explained(t: Table, key: string, times: seq<int>) {
    if key !in t then times == []
    else
      && t[key].failures <= |times| && t[key].failures == |times| % MAX_FAILURES
      && (|times| < MAX_FAILURES ==> t[key].lockedUntil == ZERO_TIME)
      && (|times| >= MAX_FAILURES ==> t[key].lockedUntil == times[t[key].failures] + LOCKOUT_MS)
  }

  /** The clock shows a time after Go's zero time. */
  ghost predicate OnTheClock(run: seq<Attempt>) {
    forall a :: a in run ==> a.checkedAt >= ZERO_TIME
  }

  lemma ExplainedLock(t: Table, key: string, times: seq<int>, now: int)
    requires Explained(t, key, times) && now >= ZERO_TIME
    ensures IsLocked(t, key, now) <==> Barred(times, now)
  {
  }

  lemma StepExplained(t: Table, a: Attempt, key: string, times: seq<int>)
    requires Explained(t, key, times) && a.checkedAt >= ZERO_TIME
    ensures Explained(After(t, a), key, Noted(times, a, key))
  {
    ExplainedLock(t, key, times, a.checkedAt);
    NextGroup(|times|);
  }

  lemma NextGroup(n: nat)
    ensures (n + 1) % MAX_FAILURES == if n % MAX_FAILURES == MAX_FAILURES - 1 then 0 else n % MAX_FAILURES + 1
  {
  }

  lemma {:induction false} RunExplained(t: Table, run: seq<Attempt>, key: string, times: seq<int>)
    requires Explained(t, key, times) && OnTheClock(run)
    ensures Explained(Run(t, run), key, FailureTimes(run, key, times))
    decreases |run|
  {
    if run != [] {
      assert run[0] in run;
      StepExplained(t, run[0], key, times);
      RunExplained(After(t, run[0]), run[1..], key, Noted(times, run[0], key));
    }
  }

  /** An attempt is turned away exactly within 60 seconds after a client's fifth failure in a row, counted
      since its last success or lockout. */
  lemma LockoutHasCause(run: seq<Attempt>, key: string, now: int)
    requires OnTheClock(run) && now >= ZERO_TIME
    ensures IsLocked(Run(map[], run), key, now) <==> Barred(FailureTimes(run, key, []), now)
  {
    RunExplained(map[], run, key, []);
    ExplainedLock(Run(map[], run), key, FailureTimes(run, key, []), now);
  }

  /** After any run, what a login comes to follows from the attempts alone: the credentials decide unless
      the client's own failures bar it. */
  lemma LoginFollowsHistory(run: seq<Attempt>, a: Attempt)
    requires OnTheClock(run) && a.checkedAt >= ZERO_TIME
    ensures var barred, outcome := Barred(FailureTimes(run, a.key, []), a.checkedAt), OutcomeOf(Run(map[], run), a);
            && (outcome == Locked <==> barred)
            && (outcome == Succeeded <==> !barred && a.valid)
            && (outcome == Failed <==> !barred && !a.valid)
  {
    LockoutHasCause(run, a.key, a.checkedAt);
  }

  class Store {
    var attempts: Table

    constructor ()
      ensures attempts == map[]
    {
      attempts := map[];
    }

    method CheckLockout(key: string, now: int) returns (locked: bool)
      ensures locked <==> IsLocked(attempts, key, now)
    {
      locked := key in attempts && now < attempts[key].lockedUntil;
    }

    method RecordFailure(key: string, now: int)
      modifies this
      ensures attempts == Recorded(old(attempts), key, now)
      ensures var before := if key in old(attempts) then old(attempts)[key] else Attempts(0, ZERO_TIME);
              && key in attempts && attempts - {key} == old(attempts) - {key}
              && (if before.failures >= MAX_FAILURES - 1
                  then attempts[key].failures == 0 && attempts[key].lockedUntil == now + LOCKOUT_MS
                  else attempts[key].failures == before.failures + 1 && attempts[key].lockedUntil == before.lockedUntil)
    {
      var a := if key in attempts then attempts[key] else Attempts(0, ZERO_TIME);
      a := a.(failures := a.failures + 1);
      if a.failures >= MAX_FAILURES {
        a := a.(lockedUntil := now + LOCKOUT_MS, failures := 0);
      }
      attempts := attempts[key := a];
    }

    method ClearFailures(key: string)
      modifies this
      ensures attempts == old(attempts) - {key}
    {
      attempts := attempts - {key};
    }

    method Login(a: Attempt) returns (outcome: Outcome)
      modifies this
      ensures outcome == OutcomeOf(old(attempts), a)
      ensures attempts == After(old(attempts), a)
      ensures outcome == Locked <==> a.key in old(attempts) && a.checkedAt < old(attempts)[a.key].lockedUntil
      ensures outcome == Succeeded ==> a.valid && a.key !in attempts
      ensures outcome == Failed ==> !a.valid && a.key in attempts
      ensures outcome == Locked ==> attempts == old(attempts)
      ensures attempts - {a.key} == old(attempts) - {a.key}
    {
      var locked := CheckLockout(a.key, a.checkedAt);
      if locked {
        return Locked;
      }
      if !a.valid {
        RecordFailure(a.key, a.recordedAt);
        return Failed;
      }
      ClearFailures(a.key);
      return Succeeded;
    }
  }
}
