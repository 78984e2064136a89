/**
 * The circuit breaker around a failing service, for calls made one after another (libs/resilience/circuit_breaker.py).
 */
module CircuitBreaker {

  datatype State = Closed | Open | HalfOpen

  datatype Settings = Settings(failureLimit: int, timeout: real)

  /** The breaker's fields; a `last_failure` of None counts as 0, as in the code. */
  datatype Fields = Fields(state: State, failures: nat, lastFailure: real)

  /** How the protected function ends: it returns, raises a tracked exception, or raises another one. */
  datatype Outcome = Returns | RaisesTracked | RaisesOther

  /** One call: when it is checked, how the function would end, and when that failure is recorded. */
  datatype Call = Call(checkAt: real, outcome: Outcome, failAt: real)

  const FRESH := Fields(Closed, 0, 0.0)

  // ----- One call

  /** Whether the check lets the call through. */
  predicate Passes(settings: Settings, b: Fields, now: real) {
    b.state != Open || now - b.lastFailure >= settings.timeout
  }

  function Checked(settings: Settings, b: Fields, now: real): Fields {
    if b.state == Open && Passes(settings, b, now) then b.(state := HalfOpen) else b
  }

  function Succeeded(b: Fields): Fields {
    b.(state := Closed, failures := 0)
  }

  function Failed(settings: Settings, b: Fields, now: real): Fields {
    var counted := b.(failures := b.failures + 1);
    if counted.state == HalfOpen || counted.failures >= settings.failureLimit
    then counted.(state := Open, lastFailure := now)
    else counted
  }

  function Next(settings: Settings, b: Fields, c: Call): Fields {
    var checked := Checked(settings, b, c.checkAt);
    if !Passes(settings, b, c.checkAt) then b
    else
      match c.outcome
      case Returns => Succeeded(checked)
      case RaisesTracked => Failed(settings, checked, c.failAt)
      case RaisesOther => checked
  }

  class CircuitBreaker {
    const settings: Settings
    var state: State
    var failures: nat
    var lastFailure: real

    ghost function Contents(): Fields
      reads this
    {
      Fields(state, failures, lastFailure)
    }

    constructor (failureThreshold: int, timeoutSecs: real)
      ensures settings == Settings(failureThreshold, timeoutSecs) && Contents() == FRESH
    {
      settings := Settings(failureThreshold, timeoutSecs);
      state, failures, lastFailure := Closed, 0, 0.0;
    }

    /** Raises CircuitOpen, here `passes == false`, while the circuit is open. */
    method CheckBeforeCall(now: real) returns (passes: bool)
      modifies this`state
      ensures passes == Passes(settings, old(Contents()), now)
      ensures Contents() == Checked(settings, old(Contents()), now)
    {
      if state != Open {
        return true;
      }
      var elapsed := now - lastFailure;
      if elapsed >= settings.timeout {
        state := HalfOpen;
        return true;
      }
      return false;
    }

    method Succeed()
      modifies this
      ensures Contents() == Succeeded(old(Contents()))
    {
      state := Closed;
      failures := 0;
    }

    method Fail(now: real)
      modifies this
      ensures Contents() == Failed(settings, old(Contents()), now)
    {
      failures := failures + 1;
      if state == HalfOpen || failures >= settings.failureLimit {
        state := Open;
        lastFailure := now;
      }
    }

    /** The wrapper around the function; `ran` tells whether the function was called. */
    method Wrapper(c: Call) returns (ran: bool)
      modifies this
      ensures ran == Passes(settings, old(Contents()), c.checkAt)
      ensures Contents() == Next(settings, old(Contents()), c)
    {
      ran := CheckBeforeCall(c.checkAt);
      if ran {
        match c.outcome
        case Returns => Succeed();
        case RaisesTracked => Fail(c.failAt);
        case RaisesOther =>
      }
    }
  }

  // ----- Sequences of calls

  /** The calls follow each other in time, starting at `start`. */
  predicate InOrder(calls: seq<Call>, start: real) {
    calls == [] || (start <= calls[0].checkAt <= calls[0].failAt && InOrder(calls[1..], calls[0].failAt))
  }

  function After(settings: Settings, b: Fields, calls: seq<Call>): Fields
    decreases |calls|
  {
    if calls == [] then b else After(settings, Next(settings, b, calls[0]), calls[1..])
  }

  /** The number of tracked failures of the function in the calls that reach it. */
  function Failures(settings: Settings, b: Fields, calls: seq<Call>): nat
    decreases |calls|
  {
    if calls == [] then 0
    else
      (if Passes(settings, b, calls[0].checkAt) && calls[0].outcome == RaisesTracked then 1 else 0)
      + Failures(settings, Next(settings, b, calls[0]), calls[1..])
  }

  predicate SuccessFree(calls: seq<Call>) {
    forall i :: 0 <= i < |calls| ==> calls[i].outcome != Returns
  }

  /** The number of failures in a row that opens a closed circuit. */
  function Limit(settings: Settings): (limit: nat)
    ensures limit >= 1 && limit >= settings.failureLimit
  {
    if settings.failureLimit > 1 then settings.failureLimit else 1
  }

  /** Closed means few failures since the last success, and otherwise there were enough to open the circuit. */
  predicate Inv(settings: Settings, b: Fields) {
    b.state == Closed <==> b.failures < Limit(settings)
  }

  lemma {:induction false} RunKeepsInv(settings: Settings, b: Fields, calls: seq<Call>)
    requires Inv(settings, b)
    ensures Inv(settings, After(settings, b, calls))
    decreases |calls|
  {
    if calls != [] {
      RunKeepsInv(settings, Next(settings, b, calls[0]), calls[1..]);
    }
  }

  /** The tracked failures that ran since the last call that ran and returned, counted from the end. */
  function RecentFailures(settings: Settings, b: Fields, calls: seq<Call>): nat
    decreases |calls|
  {
    if calls == [] then 0
    else
      var n := |calls| - 1;
      var before := RecentFailures(settings, b, calls[..n]);
      if !Passes(settings, After(settings, b, calls[..n]), calls[n].checkAt) then before
      else
        match calls[n].outcome
        case Returns => 0
        case RaisesTracked => before + 1
        case RaisesOther => before
  }

  lemma {:induction false} AfterOneMore(settings: Settings, b: Fields, calls: seq<Call>, n: nat)
    requires n < |calls|
    ensures After(settings, b, calls[..n + 1]) == Next(settings, After(settings, b, calls[..n]), calls[n])
    decreases n
  {
    if n > 0 {
      assert calls[..n + 1][1..] == calls[1..][..n] && calls[..n][1..] == calls[1..][..n - 1];
      AfterOneMore(settings, Next(settings, b, calls[0]), calls[1..], n - 1);
    } else {
      assert calls[..1][1..] == [];
    }
  }

  lemma {:induction false} FailuresAreRecent(settings: Settings, calls: seq<Call>)
    ensures After(settings, FRESH, calls).failures == RecentFailures(settings, FRESH, calls)
    decreases |calls|
  {
    if calls != [] {
      var n := |calls| - 1;
      FailuresAreRecent(settings, calls[..n]);
      AfterOneMore(settings, FRESH, calls, n);
      assert calls[..n + 1] == calls;
    }
  }

  /**
   * After any calls on a new circuit, its count is the number of tracked failures since the last success, and it is
   * closed exactly as long as these are fewer than the limit.
   */
  lemma ClosedMeansFewFailures(settings: Settings, calls: seq<Call>)
    ensures var b := After(settings, FRESH, calls);
      && b.failures == RecentFailures(settings, FRESH, calls)
      && (b.state == Closed <==> RecentFailures(settings, FRESH, calls) < Limit(settings))
  {
    FailuresAreRecent(settings, calls);
    RunKeepsInv(settings, FRESH, calls);
  }

  /** After an opening the function is not called again before the timeout has passed. */
  lemma {:induction false} QuietAfterOpening(settings: Settings, b: Fields, calls: seq<Call>, start: real, n: nat)
    requires b.state == Open && InOrder(calls, start) && n < |calls|
    requires Passes(settings, After(settings, b, calls[..n]), calls[n].checkAt)
    ensures calls[n].checkAt >= b.lastFailure + settings.timeout
  {
    if Passes(settings, b, calls[0].checkAt) {
      LaterCalls(calls, start, n);
    } else if n > 0 {
      assert calls[..n][1..] == calls[1..][..n - 1];
      QuietAfterOpening(settings, b, calls[1..], calls[0].failAt, n - 1);
    }
  }

  lemma {:induction false} LaterCalls(calls: seq<Call>, start: real, n: nat)
    requires InOrder(calls, start) && n < |calls|
    ensures start <= calls[0].checkAt <= calls[n].checkAt
  {
    if n > 0 {
      LaterCalls(calls[1..], calls[0].failAt, n - 1);
    }
  }

  // ----- The rate of failures

  /** `n` timeouts in a row. */
  function Periods(settings: Settings, n: nat): real {
    if n == 0 then 0.0 else Periods(settings, n - 1) + settings.timeout
  }

  /**
   * After `n` failures and no success since `start`: while the circuit is closed it has counted them all, and
   * otherwise each failure beyond the limit came at least one timeout after the previous opening.
   */
  predicate Paced(settings: Settings, b: Fields, start: real, n: nat) {
    if b.state == Closed then b.failures == n < Limit(settings)
    else n >= Limit(settings) && b.lastFailure >= start + Periods(settings, n - Limit(settings))
  }

  lemma StepKeepsPace(settings: Settings, b: Fields, start: real, n: nat, c: Call)
    requires Paced(settings, b, start, n) && start <= c.checkAt <= c.failAt && c.outcome != Returns
    requires b.state == HalfOpen ==> b.lastFailure + settings.timeout <= c.checkAt
    ensures Paced(settings, Next(settings, b, c), start,
                  n + if Passes(settings, b, c.checkAt) && c.outcome == RaisesTracked then 1 else 0)
    ensures Next(settings, b, c).state == HalfOpen ==> Next(settings, b, c).lastFailure + settings.timeout <= c.failAt
  {
    if n == Limit(settings) - 1 {
      assert Periods(settings, 0) == 0.0;
    }
  }

  /** Among calls without a success from `start` to `end`, the failures beyond the limit take a timeout each. */
  lemma {:induction false} FailuresArePaced(settings: Settings, b: Fields, start: real, n: nat, calls: seq<Call>,
                                            now: real, end: real)
    requires Paced(settings, b, start, n) && start <= now && InOrder(calls, now) && SuccessFree(calls)
    requires b.state == HalfOpen ==> b.lastFailure + settings.timeout <= now
    requires b.state != Closed ==> b.lastFailure <= end
    requires forall i :: 0 <= i < |calls| ==> calls[i].failAt <= end
    ensures n + Failures(settings, b, calls) > Limit(settings) ==>
      start + Periods(settings, n + Failures(settings, b, calls) - Limit(settings)) <= end
    decreases calls
  {
    if calls != [] {
      var c := calls[0];
      StepKeepsPace(settings, b, start, n, c);
      var more := if Passes(settings, b, c.checkAt) && c.outcome == RaisesTracked then 1 else 0;
      FailuresArePaced(settings, Next(settings, b, c), start, n + more, calls[1..], c.failAt, end);
    }
  }

  lemma PeriodsFit(settings: Settings, n: nat, length: real)
    requires settings.timeout > 0.0 && Periods(settings, n) <= length
    ensures n <= (length / settings.timeout).Floor
  {
    PeriodsMultiply(settings, n);
    var t := settings.timeout;
    assert length / t * t == length;
    assert n as real > length / t ==> n as real * t > length / t * t;
  }

  lemma {:induction false} PeriodsMultiply(settings: Settings, n: nat)
    ensures Periods(settings, n) == n as real * settings.timeout
  {
    if n > 0 {
      PeriodsMultiply(settings, n - 1);
    }
  }

  /**
   * The same from a circuit that is not closed: there the first failure is free and every other one takes a timeout.
   */
  lemma {:induction false} FailuresWhileTesting(settings: Settings, b: Fields, start: real, calls: seq<Call>,
                                                now: real, end: real)
    requires b.state != Closed && start <= now && InOrder(calls, now) && SuccessFree(calls)
    requires forall i :: 0 <= i < |calls| ==> calls[i].failAt <= end
    ensures Failures(settings, b, calls) > 0 ==> start + Periods(settings, Failures(settings, b, calls) - 1) <= end
    decreases calls
  {
    if calls != [] {
      var c, next := calls[0], Next(settings, b, calls[0]);
      if Passes(settings, b, c.checkAt) && c.outcome == RaisesTracked {
        assert Periods(settings, 0) == 0.0;
        FailuresArePaced(settings, next, start, Limit(settings), calls[1..], c.failAt, end);
      } else {
        FailuresWhileTesting(settings, next, start, calls[1..], c.failAt, end);
      }
    }
  }

  /** How many more failures a circuit lets through before it opens, again if it is not closed. */
  function Spare(settings: Settings, b: Fields): int {
    if b.state == Closed then Limit(settings) - b.failures else 1
  }

  /**
   * The rate bound: in a stretch without a success, of length `end - start`, at most floor(length / timeout) tracked
   * failures reach the function beyond those that the state at its start lets through.
   */
  lemma FailureRate(settings: Settings, b: Fields, calls: seq<Call>, start: real, end: real)
    requires settings.timeout > 0.0 && start <= end && Inv(settings, b)
    requires InOrder(calls, start) && SuccessFree(calls) && forall i :: 0 <= i < |calls| ==> calls[i].failAt <= end
    ensures Failures(settings, b, calls) <= Spare(settings, b) + ((end - start) / settings.timeout).Floor
  {
    var more := Failures(settings, b, calls) - Spare(settings, b);
    if b.state == Closed {
      FailuresArePaced(settings, b, start, b.failures, calls, start, end);
    } else {
      FailuresWhileTesting(settings, b, start, calls, start, end);
    }
    assert Periods(settings, 0) == 0.0;
    PeriodsFit(settings, if more > 0 then more else 0, end - start);
  }

  /** The bound is sharp: failing as early as possible reaches it, for every number of timeouts. */
  lemma {:induction false} BoundIsReached(settings: Settings, b: Fields, now: real, n: nat) returns (calls: seq<Call>)
    requires settings.timeout > 0.0 && Inv(settings, b) && (b.state == Open ==> b.lastFailure == now)
    ensures InOrder(calls, now) && SuccessFree(calls)
    ensures forall i :: 0 <= i < |calls| ==> calls[i].failAt <= now + Periods(settings, n)
    ensures Failures(settings, b, calls) == n + if b.state == Open then 0 else Spare(settings, b)
    decreases n, if b.state == Open then 0 else Spare(settings, b)
  {
    if b.state == Open && n == 0 {
      calls := [];
    } else {
      var t := if b.state == Open then now + settings.timeout else now;
      var c := Call(t, RaisesTracked, t);
      var rest := BoundIsReached(settings, Next(settings, b, c), t, if b.state == Open then n - 1 else n);
      calls := [c] + rest;
      assert calls[1..] == rest;
      PeriodsMultiply(settings, n);
    }
  }

  // ----- Half open

  lemma {:induction false} UntrackedKeepsHalfOpen(settings: Settings, b: Fields, calls: seq<Call>)
    requires b.state == HalfOpen && forall i :: 0 <= i < |calls| ==> calls[i].outcome == RaisesOther
    ensures After(settings, b, calls) == b
  {
    if calls != [] {
      UntrackedKeepsHalfOpen(settings, b, calls[1..]);
    }
  }

  /**
   * A half-open circuit stays half open exactly as long as every call ends in an exception that is not tracked, and all
   * of these calls get through: not one test call, but any number.
   */
  lemma StaysHalfOpen(settings: Settings, b: Fields, calls: seq<Call>)
    requires b.state == HalfOpen
    ensures (forall n :: 0 <= n <= |calls| ==> After(settings, b, calls[..n]).state == HalfOpen)
      <==> (forall i :: 0 <= i < |calls| ==> calls[i].outcome == RaisesOther)
    ensures (forall i :: 0 <= i < |calls| ==> calls[i].outcome == RaisesOther) ==>
      forall n :: 0 <= n < |calls| ==> Passes(settings, After(settings, b, calls[..n]), calls[n].checkAt)
  {
    if forall i :: 0 <= i < |calls| ==> calls[i].outcome == RaisesOther {
      forall n | 0 <= n <= |calls|
        ensures After(settings, b, calls[..n]) == b
      {
        UntrackedKeepsHalfOpen(settings, b, calls[..n]);
      }
    } else {
      var i :| 0 <= i < |calls| && calls[i].outcome != RaisesOther;
      AfterOneMore(settings, b, calls, i);
      assert After(settings, b, calls[..i]).state == HalfOpen ==> After(settings, b, calls[..i + 1]).state != HalfOpen;
    }
  }

  /** Whatever the settings, a new circuit can get half open: failures open it, and an untracked exception tests it. */
  lemma {:induction false} HalfOpenIsReached(settings: Settings, b: Fields, now: real) returns (calls: seq<Call>)
    requires Inv(settings, b) && b.state != HalfOpen && (b.state == Open ==> b.lastFailure == now)
    ensures Inv(settings, FRESH) && InOrder(calls, now) && After(settings, b, calls).state == HalfOpen
    decreases if b.state == Closed then Spare(settings, b) else 0
  {
    if b.state == Open {
      var t := if settings.timeout > 0.0 then now + settings.timeout else now;
      calls := [Call(t, RaisesOther, t)];
    } else {
      var c := Call(now, RaisesTracked, now);
      var rest := HalfOpenIsReached(settings, Next(settings, b, c), now);
      calls := [c] + rest;
      assert calls[1..] == rest;
    }
  }
}
