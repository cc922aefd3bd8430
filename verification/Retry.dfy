/** Connecting to a database that may still be warming up. Time is in milliseconds, and
    timers fire when they are set to. */
module Retry {
  import opened Base

  const MIN_ATTEMPT := 1000

  const FIRST_BACKOFF := 100

  const MAX_BACKOFF := 5000

  /** What an attempt would do if it were given the time. */
  datatype Attempt = Attempt(takes: nat, connects: bool)

  /** The pause after the k-th failure. */
  function Pause(k: nat): nat {
    if k < 6 then [100, 200, 400, 800, 1600, 3200][k] else 5000
  }

  /** When attempt k begins, if it is made: after the pause, but never past the budget. */
  function Begins(within: nat, attempts: nat -> Attempt, k: nat): nat
    decreases k, 0
  {
    if k == 0 then 0 else Min(within, Ends(within, attempts, k - 1) + Pause(k - 1))
  }

  /** When it is over, given what is left of the budget or a second if that is more. */
  function Ends(within: nat, attempts: nat -> Attempt, k: nat): nat
    decreases k, 1
  {
    var start := Begins(within, attempts, k);
    start + Min(attempts(k).takes, Max(within - start, 1000))
  }

  /** So attempts are no more than a tenth of a second apart would allow. */
  lemma TriesAreFew(within: nat, attempts: nat -> Attempt, tries: nat)
    requires forall k :: 0 <= k < tries - 1 ==> Misses(within, attempts, k)
    ensures 100 * (tries - 2) <= within
  {
    if tries >= 2 {
      PausesAddUp(within, attempts, tries - 2);
      assert Misses(within, attempts, tries - 2);
    }
  }

  /** An attempt that does not connect while it may, with some of the budget left. */
  predicate Misses(within: nat, attempts: nat -> Attempt, k: nat) {
    && (attempts(k).connects ==> attempts(k).takes > Max(within - Begins(within, attempts, k), 1000))
    && Ends(within, attempts, k) < within
  }

  lemma {:induction false} PausesAddUp(within: nat, attempts: nat -> Attempt, k: nat)
    ensures Begins(within, attempts, k) >= Min(within, 100 * k)
  {
    if k > 0 {
      PausesAddUp(within, attempts, k - 1);
      assert Pause(k - 1) >= 100;
    }
  }

  /** Try until it works or the budget is spent. Every attempt, the last one too, has at
      least a second, so the whole overruns the budget by a second at most; it gives up
      no earlier than asked to; and it does not try more often than it may nap. */
  method ConnectWithRetry(within: nat, attempts: nat -> Attempt) returns (connected: bool, elapsed: nat, tries: nat)
    ensures tries >= 1 && elapsed == Ends(within, attempts, tries - 1)
    ensures connected <==> attempts(tries - 1).connects && Begins(within, attempts, tries - 1) + attempts(tries - 1).takes == elapsed
    ensures elapsed <= within + 1000
    ensures !connected ==> elapsed >= within && (!attempts(tries - 1).connects || attempts(tries - 1).takes > MIN_ATTEMPT)
    ensures forall k :: 0 <= k < tries - 1 ==> Misses(within, attempts, k)
  {
    var now, backoff := 0, FIRST_BACKOFF;
    tries := 0;
    while true
      invariant now <= within && FIRST_BACKOFF <= backoff <= MAX_BACKOFF
      invariant forall k :: 0 <= k < tries ==> Misses(within, attempts, k)
      invariant now == Begins(within, attempts, tries) && backoff == Pause(tries)
      decreases within - now
    {
      var budget := Max(within - now, MIN_ATTEMPT);
      var attempt := attempts(tries);
      tries := tries + 1;
      if attempt.connects && attempt.takes <= budget {
        return true, now + attempt.takes, tries;
      }
      now := now + Min(attempt.takes, budget);
      if now >= within {
        return false, now, tries;
      }
      // Never past the deadline.
      var nap := Min(backoff, within - now);
      now := now + nap;
      backoff := Min(backoff * 2, MAX_BACKOFF);
    }
  }
}
