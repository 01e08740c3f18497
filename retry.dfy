/** What the two retry wrappers (`withRetry` in lib/productSync.js and in
    lib/shopifyStatusSync.js) promise: call the wrapped function until it
    succeeds or the retry budget is spent, waiting longer before each retry.

    The wrapped function is an oracle: `fn(i)` is what its (i+1)-th call
    settles to. The waits are recorded, not slept. */
module Retry {
  import opened Js

  /** A run of the wrapper that made `tries` calls and settled to `r`: every
      call but the last threw, the last one's outcome is the result, and a
      thrown result means the whole budget of `retries + 1` calls was used. */
  predicate Retried<T(==)>(fn: nat -> Result<T>, retries: nat, r: Result<T>, tries: nat) {
    && 1 <= tries <= retries + 1
    && (forall i :: 0 <= i < tries - 1 ==> fn(i).Threw?)
    && r == fn(tries - 1)
    && (r.Threw? ==> tries == retries + 1)
  }

  /** The waits before the first `n` retries: `delay * 1`, `delay * 2`, ... */
  function Backoff(delay: nat, n: nat): (waits: seq<nat>)
    ensures |waits| == n
    ensures forall i :: 0 <= i < n ==> waits[i] == delay * (i + 1)
  {
    seq(n, (i: nat) => delay * (i + 1))
  }

  lemma BackoffStep(delay: nat, n: nat)
    ensures Backoff(delay, n + 1) == Backoff(delay, n) + [delay * (n + 1)]
  {
  }

  /** The calls' outcomes decide the run: both wrappers, given the same
      function and budget, make the same calls and settle to the same
      result. */
  lemma RetriedIsDetermined<T>(fn: nat -> Result<T>, retries: nat, r1: Result<T>, t1: nat, r2: Result<T>, t2: nat)
    requires Retried(fn, retries, r1, t1) && Retried(fn, retries, r2, t2)
    ensures t1 == t2 && r1 == r2
  {
    if t1 < t2 {
      assert false;
    } else if t2 < t1 {
      assert false;
    }
  }

  /** The wrapper succeeds exactly when one of the first `retries + 1`
      calls succeeds, and then with the first success. */
  lemma RetrySucceedsIff<T>(fn: nat -> Result<T>, retries: nat, r: Result<T>, tries: nat)
    requires Retried(fn, retries, r, tries)
    ensures r.Ok? <==> exists i :: 0 <= i <= retries && fn(i).Ok?
    ensures r.Ok? ==> forall i :: 0 <= i < tries - 1 ==> !fn(i).Ok?
  {
    if r.Threw? {
      forall i | 0 <= i <= retries ensures !fn(i).Ok? {
        if i < tries - 1 {
          assert fn(i).Threw?;
        }
      }
    } else {
      assert fn(tries - 1).Ok?;
    }
  }
}
