/**
 * RepeatUntilSuccessOrThrow: runs an attempt step until it says NoRepeat,
 * raises, or the retry limit is used up, waiting between repeats as the
 * step asks.
 *
 * A step is a pure function from the state it works on (the attempt's fields
 * it touches and the position in the collaborators' reply script) to its
 * reply and the state it leaves. `Run` is the loop's specification; the
 * method is the loop itself.
 */
module Repeat {
  import opened Errors

  /** What a step asks the loop to do next. */
  datatype RepeatAction = NoRepeat | RepeatWithDelay | RepeatNoDelay | RepeatWithBackoff

  /** The enum's numeric value. */
  function ActionCode(a: RepeatAction): (n: nat)
    ensures n <= 3
    ensures n == 0 <==> a == NoRepeat
  {
    match a
    case NoRepeat => 0
    case RepeatWithDelay => 1
    case RepeatNoDelay => 2
    case RepeatWithBackoff => 3
  }

  /** One call of a step: it returns an action and a value, or it raises. */
  datatype Turn<S, T> = Turn(action: RepeatAction, value: T, next: S) | Threw(error: Cause, next: S)

  /** A wait between two calls: the fixed operation retry delay, or a backoff in milliseconds. */
  datatype Delay = OpRetryDelay | Backoff(ms: nat)

  /** How the loop ends, and the state it leaves. */
  datatype Outcome<S, T> = Returned(value: T, state: S) | Thrown(error: Cause, state: S)

  /** The loop's result, the calls made and the waits taken. */
  datatype Trace<S, T> = Trace(outcome: Outcome<S, T>, turns: seq<Turn<S, T>>, delays: seq<Delay>)

  const DefaultRetryLimit := 100_000
  const InitialBackoffMs := 1
  const MaxBackoffMs := 100

  /** `Math.Min(ms * 10, 100)`. */
  function NextBackoff(ms: nat): (r: nat)
    ensures r <= MaxBackoffMs
    ensures r == ms * 10 || r == MaxBackoffMs
    ensures ms * 10 <= MaxBackoffMs ==> r == ms * 10
  {
    if ms * 10 < MaxBackoffMs then ms * 10 else MaxBackoffMs
  }

  /** The waits a repeat takes before the next call. */
  function DelaysFor(a: RepeatAction, backoffMs: nat): seq<Delay>
  {
    match a
    case RepeatWithDelay => [OpRetryDelay]
    case RepeatWithBackoff => [Backoff(backoffMs)]
    case _ => []
  }

  /**
   * The loop from a given `retryCount` (the calls made so far, minus one)
   * and current backoff.
   */
  function Run<S, T>(body: S -> Turn<S, T>, s: S, retryLimit: int, retryCount: int, backoffMs: nat): Trace<S, T>
    decreases retryLimit - retryCount
  {
    if retryCount >= retryLimit then Trace(Thrown(RetryLimitExceeded(retryLimit), s), [], [])
    else
      var t := body(s);
      if t.Threw? then Trace(Thrown(t.error, t.next), [t], [])
      else if t.action == NoRepeat then Trace(Returned(t.value, t.next), [t], [])
      else
        var rest := Run(body, t.next, retryLimit, retryCount + 1,
                        if t.action == RepeatWithBackoff then NextBackoff(backoffMs) else backoffMs);
        Trace(rest.outcome, [t] + rest.turns, DelaysFor(t.action, backoffMs) + rest.delays)
  }

  /** The loop as called: no call made yet, backoff 1 ms. */
  function RunFromStart<S, T>(body: S -> Turn<S, T>, s: S, retryLimit: int): Trace<S, T>
  {
    Run(body, s, retryLimit, -1, InitialBackoffMs)
  }

  /** `whole` is what is done so far, waits `done`, followed by `rest`. */
  ghost predicate Continues<S, T>(whole: Trace<S, T>, done: seq<Delay>, rest: Trace<S, T>)
  {
    whole.outcome == rest.outcome && whole.delays == done + rest.delays
  }

  /** Appending waits in two steps is appending them at once. */
  lemma Reassociate<X>(a: seq<X>, b: seq<X>, c: seq<X>)
    ensures (a + b) + c == a + (b + c)
  {
  }

  /** One call of the body, then the rest of the loop. */
  lemma RunUnfolds<S, T>(body: S -> Turn<S, T>, s: S, retryLimit: int, retryCount: int, backoffMs: nat)
    requires retryCount < retryLimit
    ensures var t, r := body(s), Run(body, s, retryLimit, retryCount, backoffMs);
      && (t.Threw? ==> r.outcome == Thrown(t.error, t.next) && r.delays == [])
      && (t.Turn? && t.action == NoRepeat ==> r.outcome == Returned(t.value, t.next) && r.delays == [])
      && (t.Turn? && t.action != NoRepeat ==>
            var rest := Run(body, t.next, retryLimit, retryCount + 1,
                            if t.action == RepeatWithBackoff then NextBackoff(backoffMs) else backoffMs);
            r.outcome == rest.outcome && r.delays == DelaysFor(t.action, backoffMs) + rest.delays)
  {
  }

  /** The loop. It returns the outcome and the waits it took, in order. */
  method RepeatUntilSuccessOrThrow<S, T>(body: S -> Turn<S, T>, init: S, retryLimit: int)
    returns (outcome: Outcome<S, T>, delays: seq<Delay>)
    ensures outcome == RunFromStart(body, init, retryLimit).outcome
    ensures delays == RunFromStart(body, init, retryLimit).delays
  {
    var retryCount := -1;
    var opRetryBackoffMs: nat := InitialBackoffMs;
    var s := init;
    delays := [];
    ghost var target := RunFromStart(body, init, retryLimit);
    while retryCount < retryLimit
      invariant Continues(target, delays, Run(body, s, retryLimit, retryCount, opRetryBackoffMs))
      decreases retryLimit - retryCount
    {
      RunUnfolds(body, s, retryLimit, retryCount, opRetryBackoffMs);
      var result := body(s);
      if result.Threw? {
        outcome := Thrown(result.error, result.next);
        return;
      }
      match result.action {
        case RepeatWithDelay =>
          Reassociate(delays, [OpRetryDelay], Run(body, result.next, retryLimit, retryCount + 1, opRetryBackoffMs).delays);
          delays := delays + [OpRetryDelay];
        case RepeatWithBackoff =>
          Reassociate(delays, [Backoff(opRetryBackoffMs)], Run(body, result.next, retryLimit, retryCount + 1, NextBackoff(opRetryBackoffMs)).delays);
          delays := delays + [Backoff(opRetryBackoffMs)];
          opRetryBackoffMs := NextBackoff(opRetryBackoffMs);
        case RepeatNoDelay =>
        case NoRepeat =>
          outcome := Returned(result.value, result.next);
          return;
      }
      retryCount := retryCount + 1;
      s := result.next;
    }
    outcome := Thrown(RetryLimitExceeded(retryLimit), s);
  }

  /** The number of calls a run that still has `n` calls left can make. */
  function CallsLeft(retryLimit: int, retryCount: int): nat
  {
    if retryCount >= retryLimit then 0 else retryLimit - retryCount
  }

  /**
   * The loop calls the step at most once per remaining retry, waits at most
   * once per call, and each call after the first is made on the state the
   * one before it left, after that call asked for a repeat.
   */
  lemma {:induction false} RunTurns<S, T>(body: S -> Turn<S, T>, s: S, retryLimit: int, retryCount: int, backoffMs: nat)
    ensures |Run(body, s, retryLimit, retryCount, backoffMs).turns| <= CallsLeft(retryLimit, retryCount)
    ensures |Run(body, s, retryLimit, retryCount, backoffMs).delays| <= |Run(body, s, retryLimit, retryCount, backoffMs).turns|
    ensures |Run(body, s, retryLimit, retryCount, backoffMs).turns| > 0 ==> Run(body, s, retryLimit, retryCount, backoffMs).turns[0] == body(s)
    ensures var ts := Run(body, s, retryLimit, retryCount, backoffMs).turns;
      forall i | 0 <= i < |ts| - 1 :: ts[i].Turn? && ts[i].action != NoRepeat && ts[i + 1] == body(ts[i].next)
    decreases retryLimit - retryCount
  {
    if retryCount < retryLimit {
      var t := body(s);
      if t.Turn? && t.action != NoRepeat {
        var nb := if t.action == RepeatWithBackoff then NextBackoff(backoffMs) else backoffMs;
        RunTurns(body, t.next, retryLimit, retryCount + 1, nb);
        var rest := Run(body, t.next, retryLimit, retryCount + 1, nb);
        var ts := [t] + rest.turns;
        assert forall i | 1 <= i < |ts| :: ts[i] == rest.turns[i - 1];
      }
    }
  }

  /**
   * How a run ends is decided by its last call: the value of a NoRepeat, the
   * error of a raise, and otherwise (every call asked for a repeat) the
   * retry-limit error after exactly the number of calls left.
   */
  lemma {:induction false} RunEnds<S, T>(body: S -> Turn<S, T>, s: S, retryLimit: int, retryCount: int, backoffMs: nat)
    ensures var r := Run(body, s, retryLimit, retryCount, backoffMs);
      |r.turns| > 0 && r.turns[|r.turns| - 1].Turn? && r.turns[|r.turns| - 1].action == NoRepeat ==>
        r.outcome == Returned(r.turns[|r.turns| - 1].value, r.turns[|r.turns| - 1].next)
    ensures var r := Run(body, s, retryLimit, retryCount, backoffMs);
      |r.turns| > 0 && r.turns[|r.turns| - 1].Threw? ==>
        r.outcome == Thrown(r.turns[|r.turns| - 1].error, r.turns[|r.turns| - 1].next)
    ensures var r := Run(body, s, retryLimit, retryCount, backoffMs);
      (|r.turns| == 0 || (r.turns[|r.turns| - 1].Turn? && r.turns[|r.turns| - 1].action != NoRepeat)) ==>
        |r.turns| == CallsLeft(retryLimit, retryCount) && r.outcome.Thrown? && r.outcome.error == RetryLimitExceeded(retryLimit)
    ensures var r := Run(body, s, retryLimit, retryCount, backoffMs);
      r.outcome.Returned? ==> |r.turns| > 0 && r.turns[|r.turns| - 1].Turn? && r.turns[|r.turns| - 1].action == NoRepeat
    decreases retryLimit - retryCount
  {
    if retryCount < retryLimit {
      var t := body(s);
      if t.Turn? && t.action != NoRepeat {
        var nb := if t.action == RepeatWithBackoff then NextBackoff(backoffMs) else backoffMs;
        RunEnds(body, t.next, retryLimit, retryCount + 1, nb);
        var rest := Run(body, t.next, retryLimit, retryCount + 1, nb);
        if |rest.turns| > 0 {
          assert ([t] + rest.turns)[|rest.turns|] == rest.turns[|rest.turns| - 1];
        }
      }
    }
  }

  /** Called with retry limit n >= 0, the step is called at most n + 1 times. */
  lemma CallBound<S, T>(body: S -> Turn<S, T>, s: S, retryLimit: int)
    requires retryLimit >= 0
    ensures |RunFromStart(body, s, retryLimit).turns| <= retryLimit + 1
    ensures |RunFromStart(body, s, retryLimit).turns| >= 1
  {
    RunTurns(body, s, retryLimit, -1, InitialBackoffMs);
  }

  /** A negative retry limit makes no call and raises at once. */
  lemma NegativeLimitRaises<S, T>(body: S -> Turn<S, T>, s: S, retryLimit: int)
    requires retryLimit < 0
    ensures RunFromStart(body, s, retryLimit).turns == []
    ensures RunFromStart(body, s, retryLimit).outcome == Thrown(RetryLimitExceeded(retryLimit), s)
  {
  }

  /** The backoff waits among the waits, in order. */
  function BackoffsOf(ds: seq<Delay>): (r: seq<nat>)
    ensures |r| <= |ds|
    decreases |ds|
  {
    if ds == [] then []
    else if ds[0].Backoff? then [ds[0].ms] + BackoffsOf(ds[1..])
    else BackoffsOf(ds[1..])
  }

  lemma {:induction false} BackoffsOfAppend(a: seq<Delay>, b: seq<Delay>)
    ensures BackoffsOf(a + b) == BackoffsOf(a) + BackoffsOf(b)
    decreases |a|
  {
    if a != [] {
      BackoffsOfAppend(a[1..], b);
      assert (a + b)[0] == a[0];
      assert (a + b)[1..] == a[1..] + b;
    } else {
      assert a + b == b;
    }
  }

  /** The backoff after `k` backoff waits starting at `ms`. */
  function BackoffAfter(ms: nat, k: nat): nat
    decreases k
  {
    if k == 0 then ms else BackoffAfter(NextBackoff(ms), k - 1)
  }

  /** The k-th backoff wait of a run is the start backoff grown k times. */
  lemma {:induction false} BackoffsGrow<S, T>(body: S -> Turn<S, T>, s: S, retryLimit: int, retryCount: int, backoffMs: nat)
    ensures var b := BackoffsOf(Run(body, s, retryLimit, retryCount, backoffMs).delays);
      forall k | 0 <= k < |b| :: b[k] == BackoffAfter(backoffMs, k)
    decreases retryLimit - retryCount
  {
    if retryCount < retryLimit {
      var t := body(s);
      if t.Turn? && t.action != NoRepeat {
        var nb := if t.action == RepeatWithBackoff then NextBackoff(backoffMs) else backoffMs;
        BackoffsGrow(body, t.next, retryLimit, retryCount + 1, nb);
        var rest := Run(body, t.next, retryLimit, retryCount + 1, nb);
        BackoffsOfAppend(DelaysFor(t.action, backoffMs), rest.delays);
        if t.action == RepeatWithBackoff {
          assert BackoffsOf(DelaysFor(t.action, backoffMs)) == [backoffMs];
          var b := BackoffsOf(Run(body, s, retryLimit, retryCount, backoffMs).delays);
          assert b == [backoffMs] + BackoffsOf(rest.delays);
          forall k | 0 <= k < |b|
            ensures b[k] == BackoffAfter(backoffMs, k)
          {
            if k > 0 {
              assert b[k] == BackoffsOf(rest.delays)[k - 1];
            }
          }
        } else {
          assert BackoffsOf(DelaysFor(t.action, backoffMs)) == [];
        }
      }
    }
  }

  /** From 1 ms the backoff runs 1, 10, 100, 100, ... */
  lemma {:induction false} BackoffFromOne(k: nat)
    ensures BackoffAfter(InitialBackoffMs, k) == (if k == 0 then 1 else if k == 1 then 10 else 100)
  {
    if k >= 2 {
      assert BackoffAfter(1, k) == BackoffAfter(100, k - 2) by {
        assert BackoffAfter(1, k) == BackoffAfter(10, k - 1);
        assert BackoffAfter(10, k - 1) == BackoffAfter(100, k - 2);
      }
      StaysAtMax(k - 2);
    }
  }

  lemma {:induction false} StaysAtMax(k: nat)
    ensures BackoffAfter(MaxBackoffMs, k) == MaxBackoffMs
    decreases k
  {
    if k > 0 {
      StaysAtMax(k - 1);
    }
  }

  /** The loop's backoff waits as called: 1, 10, 100, 100, ... ms. */
  lemma BackoffSchedule<S, T>(body: S -> Turn<S, T>, s: S, retryLimit: int)
    ensures var b := BackoffsOf(RunFromStart(body, s, retryLimit).delays);
      forall k | 0 <= k < |b| :: b[k] == (if k == 0 then 1 else if k == 1 then 10 else 100)
  {
    BackoffsGrow(body, s, retryLimit, -1, InitialBackoffMs);
    var b := BackoffsOf(RunFromStart(body, s, retryLimit).delays);
    forall k | 0 <= k < |b|
      ensures b[k] == (if k == 0 then 1 else if k == 1 then 10 else 100)
    {
      BackoffFromOne(k);
    }
  }

  /** A property every call keeps holds of the state the loop leaves. */
  lemma {:induction false} RunPreserves<S, T>(body: S -> Turn<S, T>, inv: S -> bool, s: S, retryLimit: int, retryCount: int, backoffMs: nat)
    requires forall x :: inv(x) ==> inv(body(x).next)
    requires inv(s)
    ensures match Run(body, s, retryLimit, retryCount, backoffMs).outcome
      case Returned(_, st) => inv(st)
      case Thrown(_, st) => inv(st)
    decreases retryLimit - retryCount
  {
    if retryCount < retryLimit {
      var t := body(s);
      if t.Turn? && t.action != NoRepeat {
        RunPreserves(body, inv, t.next, retryLimit, retryCount + 1,
                     if t.action == RepeatWithBackoff then NextBackoff(backoffMs) else backoffMs);
      }
    }
  }

  /**
   * When every NoRepeat reply of the step satisfies `done`, so does the
   * value and state of any run that returns.
   */
  lemma {:induction false} RunReturnsVia<S, T>(body: S -> Turn<S, T>, done: (T, S) -> bool, s: S, retryLimit: int, retryCount: int, backoffMs: nat)
    requires forall x :: body(x).Turn? && body(x).action == NoRepeat ==> done(body(x).value, body(x).next)
    ensures Run(body, s, retryLimit, retryCount, backoffMs).outcome.Returned? ==>
      done(Run(body, s, retryLimit, retryCount, backoffMs).outcome.value, Run(body, s, retryLimit, retryCount, backoffMs).outcome.state)
    decreases retryLimit - retryCount
  {
    if retryCount < retryLimit {
      var t := body(s);
      if t.Turn? && t.action != NoRepeat {
        RunReturnsVia(body, done, t.next, retryLimit, retryCount + 1,
                      if t.action == RepeatWithBackoff then NextBackoff(backoffMs) else backoffMs);
      }
    }
  }

  /**
   * When every raise of the step satisfies `bad`, so does the error of any
   * run that raises, unless it ran out of retries.
   */
  lemma {:induction false} RunRaisesVia<S, T>(body: S -> Turn<S, T>, bad: (Cause, S) -> bool, s: S, retryLimit: int, retryCount: int, backoffMs: nat)
    requires forall x :: body(x).Threw? ==> bad(body(x).error, body(x).next)
    ensures var o := Run(body, s, retryLimit, retryCount, backoffMs).outcome;
      o.Thrown? ==> o.error == RetryLimitExceeded(retryLimit) || bad(o.error, o.state)
    decreases retryLimit - retryCount
  {
    if retryCount < retryLimit {
      var t := body(s);
      if t.Turn? && t.action != NoRepeat {
        RunRaisesVia(body, bad, t.next, retryLimit, retryCount + 1,
                     if t.action == RepeatWithBackoff then NextBackoff(backoffMs) else backoffMs);
      }
    }
  }

  /** A step that never repeats is called once, and the loop hands back its reply. */
  lemma RunOnce<S, T>(body: S -> Turn<S, T>, s: S, retryLimit: int)
    requires retryLimit >= 0
    requires body(s).Turn? ==> body(s).action == NoRepeat
    ensures RunFromStart(body, s, retryLimit).outcome ==
      if body(s).Threw? then Thrown(body(s).error, body(s).next) else Returned(body(s).value, body(s).next)
  {
  }
}
