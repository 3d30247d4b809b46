/** Retrying model calls (internal/llm/client.go:235-295, internal/llm/ollama.go:180-203,
    internal/llm/hybrid.go:84-98). What the n-th call will answer, and whether the context ends during the
    wait after it, is any function of n. */
module Retry {

  const SECOND: nat := 1_000_000_000

  datatype Answer =
    | Success(text: string)
    | RateLimited(retryAfter: nat)   // nanoseconds; 0 when the provider named none
    | NetworkFailed
    | Malformed
    | Fatal

  datatype Result =
    | Reply(text: string)
    | GaveUp(last: Answer)
    | Interrupted                    // the context ended during a wait
    | NoRemote                       // the local client failed or is missing, and there is no remote one

  /** The calls and context ends one client run may meet. */
  datatype World = World(answer: nat -> Answer, interrupted: nat -> bool)

  // ---------------------------------------------------------------- when a client stops, counted from scratch

  function RateLimits(w: World, n: nat): nat {
    if n == 0 then 0 else RateLimits(w, n - 1) + (if w.answer(n - 1).RateLimited? then 1 else 0)
  }

  function NetworkFailures(w: World, n: nat): nat {
    if n == 0 then 0 else NetworkFailures(w, n - 1) + (if w.answer(n - 1).NetworkFailed? then 1 else 0)
  }

  function MalformedReplies(w: World, n: nat): nat {
    if n == 0 then 0 else MalformedReplies(w, n - 1) + (if w.answer(n - 1).Malformed? then 1 else 0)
  }

  /** The Anthropic client is done with its n-th call. */
  predicate Stops(w: World, n: nat)
    requires n > 0
  {
    match w.answer(n - 1)
    case Success(_) => true
    case Fatal => true
    case RateLimited(_) => RateLimits(w, n) > 5 || w.interrupted(n - 1)
    case NetworkFailed => NetworkFailures(w, n) > 3 || w.interrupted(n - 1)
    case Malformed => MalformedReplies(w, n) > 2
  }

  /** The wait after the n-th call, if the client goes on (or is interrupted waiting). */
  function Wait(w: World, n: nat): nat
    requires n > 0
  {
    match w.answer(n - 1)
    case RateLimited(after) =>
      if RateLimits(w, n) > 5 then 0 else if after == 0 then 2 * RateLimits(w, n) * SECOND else after
    case NetworkFailed => if NetworkFailures(w, n) > 3 then 0 else PowerOfTwo(NetworkFailures(w, n)) * SECOND
    case _ => 0
  }

  function PowerOfTwo(n: nat): nat {
    if n == 0 then 1 else 2 * PowerOfTwo(n - 1)
  }

  function TotalWait(w: World, n: nat): nat {
    if n == 0 then 0 else TotalWait(w, n - 1) + Wait(w, n)
  }

  /** `n` is the first call after which the client stops. */
  ghost predicate FirstStop(w: World, n: nat) {
    n > 0 && Stops(w, n) && forall m | 0 < m < n :: !Stops(w, m)
  }

  /** What a run of `n` calls yields. */
  function Yield(w: World, n: nat): Result
    requires n > 0
  {
    match w.answer(n - 1)
    case Success(text) => Reply(text)
    case RateLimited(_) => if RateLimits(w, n) > 5 then GaveUp(w.answer(n - 1)) else Interrupted
    case NetworkFailed => if NetworkFailures(w, n) > 3 then GaveUp(w.answer(n - 1)) else Interrupted
    case _ => GaveUp(w.answer(n - 1))
  }

  /** As long as the client has not stopped, every call so far failed within its own budget. */
  lemma {:induction false} WithinBudgets(w: World, n: nat)
    requires forall m | 0 < m <= n :: !Stops(w, m)
    ensures RateLimits(w, n) <= 5 && NetworkFailures(w, n) <= 3 && MalformedReplies(w, n) <= 2
    ensures RateLimits(w, n) + NetworkFailures(w, n) + MalformedReplies(w, n) == n
    ensures forall m | 0 <= m < n :: !w.answer(m).Success?
    decreases n
  {
    if n > 0 {
      WithinBudgets(w, n - 1);
      assert !Stops(w, n);
    }
  }

  /** A call may be followed by another one if it met a rate limit or a network failure within the budget and the wait
      was not interrupted, or a malformed reply within the budget. */
  lemma GoesOnIff(w: World, n: nat)
    requires n > 0
    ensures !Stops(w, n) <==>
      || (w.answer(n - 1).RateLimited? && RateLimits(w, n) <= 5 && !w.interrupted(n - 1))
      || (w.answer(n - 1).NetworkFailed? && NetworkFailures(w, n) <= 3 && !w.interrupted(n - 1))
      || (w.answer(n - 1).Malformed? && MalformedReplies(w, n) <= 2)
  {
  }

  /** No call follows an interrupted wait, and a run ends as interrupted exactly when its last call was one to wait
      after and the context ended during that wait. Otherwise it ends with what the last call met. */
  lemma InterruptedIff(w: World, n: nat)
    requires FirstStop(w, n)
    ensures forall m | 0 <= m < n - 1 && !w.answer(m).Malformed? :: !w.interrupted(m)
    ensures Yield(w, n) == Interrupted <==>
      && w.interrupted(n - 1)
      && ((w.answer(n - 1).RateLimited? && RateLimits(w, n) <= 5)
          || (w.answer(n - 1).NetworkFailed? && NetworkFailures(w, n) <= 3))
    ensures Yield(w, n) != Interrupted && !w.answer(n - 1).Success? ==> Yield(w, n) == GaveUp(w.answer(n - 1))
  {
    forall m | 0 <= m < n - 1 && !w.answer(m).Malformed? ensures !w.interrupted(m) {
      GoesOnIff(w, m + 1);
      assert !Stops(w, m + 1);
    }
    GoesOnIff(w, n);
  }

  /** The wait the provider asked for is kept; otherwise the k-th rate limit waits 2k seconds and the k-th network
      failure 2^k; nothing else waits. */
  lemma WaitIs(w: World, n: nat)
    requires n > 0
    ensures TotalWait(w, n) - TotalWait(w, n - 1) ==
      match w.answer(n - 1)
      case RateLimited(after) =>
        if RateLimits(w, n) > 5 then 0 else if after > 0 then after else 2 * RateLimits(w, n) * 1_000_000_000
      case NetworkFailed =>
        if NetworkFailures(w, n) > 3 then 0
        else [2, 4, 8][NetworkFailures(w, n) - 1] * 1_000_000_000
      case _ => 0
  {
    assert PowerOfTwo(1) == 2 && PowerOfTwo(2) == 4 && PowerOfTwo(3) == 8;
  }

  ghost predicate NoRetryAfter(w: World) {
    forall n :: w.answer(n).RateLimited? ==> w.answer(n).retryAfter == 0
  }

  /** The waits add up to what the counts say: 2 + 4 + ... for rate limits, 2 + 4 + 8 + ... for the network. */
  lemma {:induction false} WaitsAddUp(w: World, n: nat)
    requires NoRetryAfter(w) && RateLimits(w, n) <= 5 && NetworkFailures(w, n) <= 3
    ensures var r, f := RateLimits(w, n), NetworkFailures(w, n);
      TotalWait(w, n) == (r * (r + 1) + 2 * PowerOfTwo(f) - 2) * SECOND
    decreases n
  {
    if n > 0 {
      WaitsAddUp(w, n - 1);
      var r, f := RateLimits(w, n - 1), NetworkFailures(w, n - 1);
      if w.answer(n - 1).RateLimited? {
        assert (r + 1) * (r + 2) == r * (r + 1) + 2 * (r + 1);
      }
    }
  }

  /** At most 5 + 3 + 2 failed calls precede the last one, and without RetryAfter at most 44 seconds pass. */
  lemma AnthropicBounds(w: World, n: nat)
    requires FirstStop(w, n)
    ensures n <= 11
    ensures NoRetryAfter(w) ==> TotalWait(w, n) <= 44 * SECOND
  {
    WithinBudgets(w, n - 1);
    if NoRetryAfter(w) {
      var r, f := RateLimits(w, n), NetworkFailures(w, n);
      WaitsAddUp(w, n - 1);
      MostWaits(RateLimits(w, n - 1), NetworkFailures(w, n - 1));
      if r <= 5 && f <= 3 {
        WaitsAddUp(w, n);
        MostWaits(r, f);
      }
      hide PowerOfTwo;
    }
  }

  lemma MostWaits(r: nat, f: nat)
    requires r <= 5 && f <= 3
    ensures r * (r + 1) + 2 * PowerOfTwo(f) - 2 <= 44
  {
    assert r * (r + 1) <= 5 * 6;
    assert PowerOfTwo(0) == 1 && PowerOfTwo(1) == 2 && PowerOfTwo(2) == 4 && PowerOfTwo(3) == 8;
  }

  /** Only a first success is returned, and an error only when no call succeeded. */
  lemma ErrorMeansNoSuccess(w: World, n: nat)
    requires FirstStop(w, n)
    ensures !Yield(w, n).Reply? <==> forall m | 0 <= m < n :: !w.answer(m).Success?
    ensures Yield(w, n).Reply? ==> w.answer(n - 1) == Success(Yield(w, n).text)
  {
    WithinBudgets(w, n - 1);
    assert w.answer(n - 1).Success? ==> !forall m | 0 <= m < n :: !w.answer(m).Success?;
  }

  /** *Client.CompleteWithRetry: three counters, one a class of errors. */
  method AnthropicCompleteWithRetry(w: World) returns (r: Result, calls: nat, waited: nat)
    ensures FirstStop(w, calls) && r == Yield(w, calls) && waited == TotalWait(w, calls)
  {
    var networkAttempts, rateLimitAttempts, malformedAttempts := 0, 0, 0;
    calls, waited := 0, 0;
    while true
      invariant rateLimitAttempts == RateLimits(w, calls) <= 5
      invariant networkAttempts == NetworkFailures(w, calls) <= 3
      invariant malformedAttempts == MalformedReplies(w, calls) <= 2
      invariant waited == TotalWait(w, calls)
      invariant forall m | 0 < m <= calls :: !Stops(w, m)
      decreases (5 - rateLimitAttempts) + (3 - networkAttempts) + (2 - malformedAttempts)
    {
      var a := w.answer(calls);
      calls := calls + 1;
      match a
      case Success(text) =>
        return Reply(text), calls, waited;
      case RateLimited(retryAfter) =>
        rateLimitAttempts := rateLimitAttempts + 1;
        if rateLimitAttempts > 5 {
          return GaveUp(a), calls, waited;
        }
        var wait := retryAfter;
        if wait == 0 {
          wait := rateLimitAttempts * 2 * SECOND;
        }
        waited := waited + wait;
        if w.interrupted(calls - 1) {
          return Interrupted, calls, waited;
        }
      case NetworkFailed =>
        networkAttempts := networkAttempts + 1;
        if networkAttempts > 3 {
          return GaveUp(a), calls, waited;
        }
        waited := waited + PowerOfTwo(networkAttempts) * SECOND;
        if w.interrupted(calls - 1) {
          return Interrupted, calls, waited;
        }
      case Malformed =>
        malformedAttempts := malformedAttempts + 1;
        if malformedAttempts > 2 {
          return GaveUp(a), calls, waited;
        }
      case Fatal =>
        return GaveUp(a), calls, waited;
    }
  }

  // ---------------------------------------------------------------- Ollama

  /** The Ollama client retries network failures only. */
  predicate OllamaStops(w: World, n: nat)
    requires n > 0
  {
    !w.answer(n - 1).NetworkFailed? || n > 3 || w.interrupted(n - 1)
  }

  ghost predicate FirstOllamaStop(w: World, n: nat) {
    n > 0 && OllamaStops(w, n) && forall m | 0 < m < n :: !OllamaStops(w, m)
  }

  function OllamaYield(w: World, n: nat): Result
    requires n > 0
  {
    match w.answer(n - 1)
    case Success(text) => Reply(text)
    case NetworkFailed => if n > 3 then GaveUp(NetworkFailed) else Interrupted
    case a => GaveUp(a)
  }

  /** The same of the Ollama client, which waits after network failures only. */
  lemma OllamaInterruptedIff(w: World, n: nat)
    requires FirstOllamaStop(w, n)
    ensures forall m | 0 <= m < n - 1 :: w.answer(m) == NetworkFailed && !w.interrupted(m)
    ensures OllamaYield(w, n) == Interrupted <==> w.answer(n - 1) == NetworkFailed && n <= 3
    ensures OllamaYield(w, n) == Interrupted ==> w.interrupted(n - 1)
    ensures OllamaYield(w, n) == match w.answer(n - 1)
      case Success(text) => Reply(text)
      case a => if a == NetworkFailed && n <= 3 then Interrupted else GaveUp(a)
  {
    forall m | 0 <= m < n - 1 ensures w.answer(m) == NetworkFailed && !w.interrupted(m) {
      assert !OllamaStops(w, m + 1);
    }
  }

  /** *OllamaClient.CompleteWithRetry: at most 4 calls and 6 seconds. */
  method OllamaCompleteWithRetry(w: World) returns (r: Result, calls: nat, waited: nat)
    ensures FirstOllamaStop(w, calls) && r == OllamaYield(w, calls)
    ensures var waits := if r.Interrupted? then calls else calls - 1;
      2 * waited == waits * (waits + 1) * SECOND
    ensures calls <= 4 && waited <= 6 * SECOND
    ensures !r.Reply? <==> forall m | 0 <= m < calls :: !w.answer(m).Success?
  {
    var attempts := 0;
    calls, waited := 0, 0;
    while true
      invariant attempts == calls <= 3 && 2 * waited == attempts * (attempts + 1) * SECOND
      invariant forall m | 0 < m <= calls :: !OllamaStops(w, m)
      invariant forall m | 0 <= m < calls :: !w.answer(m).Success?
      decreases 3 - attempts
    {
      var a := w.answer(calls);
      calls := calls + 1;
      if a.Success? {
        return Reply(a.text), calls, waited;
      }
      if !a.NetworkFailed? {
        return GaveUp(a), calls, waited;
      }
      attempts := attempts + 1;
      if attempts > 3 {
        return GaveUp(a), calls, waited;
      }
      waited := waited + attempts * SECOND;
      if w.interrupted(calls - 1) {
        return Interrupted, calls, waited;
      }
    }
  }

  // ---------------------------------------------------------------- local first, then remote

  class HybridCompleter {
    const hasLocal: bool
    const hasRemote: bool
    var lastUsedLocal: bool

    constructor (hasLocal: bool, hasRemote: bool)
      ensures this.hasLocal == hasLocal && this.hasRemote == hasRemote && !lastUsedLocal
    {
      this.hasLocal, this.hasRemote, lastUsedLocal := hasLocal, hasRemote, false;
    }

    /** Ollama first, the Anthropic client when it fails: at most 15 calls and 50 seconds together, and an error
        only if no call at all succeeded. `lastUsedLocal` is left alone when there is no remote to fall back on. */
    method CompleteWithRetry(local: World, remote: World)
      returns (r: Result, localCalls: nat, remoteCalls: nat, waited: nat)
      modifies this
      ensures localCalls + remoteCalls <= 15
      ensures NoRetryAfter(remote) ==> waited <= 50 * SECOND
      ensures !r.Reply? <==>
        && (forall m | 0 <= m < localCalls :: !local.answer(m).Success?)
        && (forall m | 0 <= m < remoteCalls :: !remote.answer(m).Success?)
      ensures hasLocal <==> localCalls > 0
      ensures hasLocal ==> FirstOllamaStop(local, localCalls)
      ensures remoteCalls > 0 <==> hasRemote && !(hasLocal && OllamaYield(local, localCalls).Reply?)
      ensures remoteCalls > 0 ==> FirstStop(remote, remoteCalls)
      ensures r ==
        if remoteCalls > 0 then Yield(remote, remoteCalls)
        else if hasLocal && OllamaYield(local, localCalls).Reply? then OllamaYield(local, localCalls) else NoRemote
      ensures lastUsedLocal ==
        if hasLocal && OllamaYield(local, localCalls).Reply? then true
        else if hasRemote then false else old(lastUsedLocal)
    {
      localCalls, remoteCalls, waited := 0, 0, 0;
      if hasLocal {
        r, localCalls, waited := OllamaCompleteWithRetry(local);
        if r.Reply? {
          lastUsedLocal := true;
          return;
        }
      }
      if !hasRemote {
        return NoRemote, localCalls, remoteCalls, waited;
      }
      lastUsedLocal := false;
      var more;
      r, remoteCalls, more := AnthropicCompleteWithRetry(remote);
      waited := waited + more;
      AnthropicBounds(remote, remoteCalls);
      ErrorMeansNoSuccess(remote, remoteCalls);
    }
  }

  // ---------------------------------------------------------------- the bounds are met

  function Worst(n: nat): Answer {
    if n < 5 then RateLimited(0) else if n < 8 then NetworkFailed else if n < 10 then Malformed else RateLimited(0)
  }

  /** Some errors do take the Anthropic client to 11 calls and 44 seconds. */
  lemma BoundsAreMet()
    ensures var w := World(Worst, (n: nat) => false);
      FirstStop(w, 11) && TotalWait(w, 11) == 44 * SECOND
  {
    var w := World(Worst, (n: nat) => false);
    forall n: nat | n <= 11
      ensures RateLimits(w, n) == (if n <= 5 then n else if n <= 10 then 5 else 6)
      ensures NetworkFailures(w, n) == (if n <= 5 then 0 else if n <= 8 then n - 5 else 3)
      ensures MalformedReplies(w, n) == (if n <= 8 then 0 else if n <= 10 then n - 8 else 2)
    {
      WorstCounts(w, n);
    }
    WaitsAddUp(w, 10);
    assert PowerOfTwo(3) == 2 * PowerOfTwo(2) == 8;
  }

  /** And some take the Ollama client to 4 calls. */
  lemma OllamaBoundIsMet()
    ensures var w := World((n: nat) => NetworkFailed, (n: nat) => false);
      FirstOllamaStop(w, 4) && OllamaYield(w, 4) == GaveUp(NetworkFailed)
  {
  }

  lemma {:induction false} WorstCounts(w: World, n: nat)
    requires w.answer == Worst && n <= 11
    ensures RateLimits(w, n) == (if n <= 5 then n else if n <= 10 then 5 else 6)
    ensures NetworkFailures(w, n) == (if n <= 5 then 0 else if n <= 8 then n - 5 else 3)
    ensures MalformedReplies(w, n) == (if n <= 8 then 0 else if n <= 10 then n - 8 else 2)
    decreases n
  {
    if n > 0 {
      WorstCounts(w, n - 1);
    }
  }
}
