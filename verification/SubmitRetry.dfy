/** Submitting to the ledger under a semaphore, with bounded retries and a growing wait between
    them. Durations are nanoseconds; the multiplier is a real number. */
module SubmitRetry {
  import opened Options
  import opened Helpers

  datatype Config = Config(maxConcurrent: int, maxAttempts: int, initialBackoff: int, maxBackoff: int, multiplier: real)

  function Capacity(c: Config): nat { if c.maxConcurrent > 0 then c.maxConcurrent else 200 }
  function Attempts(c: Config): nat { if c.maxAttempts <= 0 then 1 else c.maxAttempts }
  function Initial(c: Config): int { if c.initialBackoff <= 0 then 100_000_000 else c.initialBackoff }
  function Longest(c: Config): int { if c.maxBackoff <= 0 then 5_000_000_000 else c.maxBackoff }
  function Factor(c: Config): real { if c.multiplier <= 0.0 then 2.0 else c.multiplier }

  function Grown(backoff: int, factor: real, longest: int): int {
    var product := backoff as real * factor;
    (if product < longest as real then product else longest as real).Floor
  }

  /** The wait that follows failed attempt number `k + 1`. */
  function Wait(c: Config, k: nat): int {
    if k == 0 then Initial(c) else Grown(Wait(c, k - 1), Factor(c), Longest(c))
  }

  lemma GrownInRange(backoff: int, factor: real, longest: int)
    requires 0 <= backoff && 0.0 < factor && 0 < longest
    ensures 0 <= Grown(backoff, factor, longest) <= longest
  {
    NotNegative(backoff as real, factor);
  }

  lemma {:induction false} WaitsCapped(c: Config, k: nat)
    ensures Wait(c, k) >= 0
    ensures k > 0 || Initial(c) <= Longest(c) ==> Wait(c, k) <= Longest(c)
  {
    if k > 0 {
      WaitsCapped(c, k - 1);
      GrownInRange(Wait(c, k - 1), Factor(c), Longest(c));
    }
  }

  /** The one before times the multiplier, rounded down, but no more than the maximum. */
  lemma GrownIs(backoff: int, factor: real, longest: int, product: real)
    requires product == backoff as real * factor
    ensures Grown(backoff, factor, longest) == if product >= longest as real then longest else product.Floor
  {
    assert (longest as real).Floor == longest;
  }

  /** The first wait and each next one; unset durations and multipliers have their defaults. */
  lemma WaitsFollow(c: Config, k: nat)
    ensures Wait(c, 0) == if c.initialBackoff > 0 then c.initialBackoff else 100_000_000
    ensures
      var factor := if c.multiplier > 0.0 then c.multiplier else 2.0;
      Wait(c, k + 1) == Grown(Wait(c, k), factor, if c.maxBackoff > 0 then c.maxBackoff else 5_000_000_000)
  {}

  lemma GrownNotLess(backoff: int, factor: real, longest: int)
    requires 0 <= backoff <= longest && factor >= 1.0
    ensures backoff <= Grown(backoff, factor, longest) <= longest
  {
    assert backoff as real * factor >= backoff as real;
  }

  /** With a multiplier of at least one and a first wait within the maximum, waits never shrink. */
  lemma {:induction false} WaitsGrow(c: Config, j: nat, k: nat)
    requires j <= k && Factor(c) >= 1.0 && Initial(c) <= Longest(c)
    ensures Wait(c, j) <= Wait(c, k) <= Longest(c)
  {
    WaitsCapped(c, k);
    if j < k {
      WaitsGrow(c, j, k - 1);
      GrownNotLess(Wait(c, k - 1), Factor(c), Longest(c));
    }
  }

  function Power(b: nat, k: nat): nat { if k == 0 then 1 else b * Power(b, k - 1) }

  /** For a whole multiplier the waits are exactly the geometric sequence, cut off at the maximum. */
  lemma {:induction false} WaitsAreGeometric(c: Config, m: nat, k: nat)
    requires m >= 1 && c.multiplier == m as real && Initial(c) <= Longest(c)
    ensures Wait(c, k) == Cut(Initial(c) * Power(m, k), Longest(c))
  {
    if k > 0 {
      WaitsAreGeometric(c, m, k - 1);
      GrownWhole(Wait(c, k - 1), m, Longest(c));
      CutThenGrown(Initial(c), Power(m, k - 1), m, Longest(c));
    }
  }

  lemma {:induction false} WholeProduct(a: int, m: nat)
    ensures a as real * m as real == (a * m) as real
  {
    if m > 0 {
      WholeProduct(a, m - 1);
      var b := m - 1;
      assert m as real == b as real + 1.0;
      assert a as real * (b as real + 1.0) == a as real * b as real + a as real;
      assert a * m == a * b + a;
    }
  }

  lemma GrownWhole(backoff: int, m: nat, longest: int)
    ensures Grown(backoff, m as real, longest) == Cut(backoff * m, longest)
  {
    WholeProduct(backoff, m);
  }

  function Cut(n: int, longest: int): int { if n < longest then n else longest }

  lemma CutThenGrown(initial: int, power: nat, m: nat, longest: int)
    requires m >= 1 && 0 < longest
    ensures Cut(Cut(initial * power, longest) * m, longest) == Cut(initial * (m * power), longest)
  {
    assert initial * (m * power) == (initial * power) * m;
    var full := initial * power;
    if full >= longest {
      assert full * m >= longest && longest * m >= longest;
    }
  }

  // ---------------------------------------------------------------------------- one submission

  datatype Attempt<+R> = Success(value: R) | Transient(error: string) | Fatal(error: string)

  datatype Outcome<+R> =
    | Submitted(value: R) | CancelledWaiting | NotConnected | CancelledInRetry | Failed(error: string)

  /** Every attempt before number `n` failed transiently and its wait was sat out. */
  predicate Reached<R(!new)>(attempts: nat -> Attempt<R>, cancelled: nat -> bool, n: nat) {
    forall k: nat | 1 <= k < n :: attempts(k).Transient? && !cancelled(k)
  }

  class Client {
    const config: Config
    const connected: bool
    var held: nat

    constructor (config: Config, connected: bool)
      ensures this.config == config && this.connected == connected && held == 0
    {
      this.config, this.connected, held := config, connected, 0;
    }

    /** `admitted`: the semaphore had room before the context ended. `attempts(k)` is what the
        k-th submission returns, `cancelled(k)` whether the context ends in the wait after it.
        Every way out gives the semaphore back; `n` submissions were made, after the given waits. */
    method SubmitWithRetry<R(!new)>(admitted: bool, attempts: nat -> Attempt<R>, cancelled: nat -> bool)
      returns (o: Outcome<R>, n: nat, waits: seq<int>)
      requires admitted ==> held < Capacity(config)
      modifies this
      ensures held == old(held)
      ensures n <= if config.maxAttempts >= 1 then config.maxAttempts else 1
      ensures n <= Attempts(config) && Reached(attempts, cancelled, n)
      ensures forall k | 0 <= k < |waits| :: waits[k] == Wait(config, k)
      ensures waits != [] ==> waits[0] == if config.initialBackoff > 0 then config.initialBackoff else 100_000_000
      ensures n == 0 <==> !admitted || !connected
      ensures match o
              case CancelledWaiting => !admitted && waits == []
              case NotConnected => admitted && !connected && waits == []
              case Submitted(value) => n > 0 && attempts(n) == Success(value) && |waits| == n - 1
              case CancelledInRetry =>
                0 < n < Attempts(config) && attempts(n).Transient? && cancelled(n) && |waits| == n
              case Failed(e) => n > 0 && |waits| == n - 1
                                && (attempts(n) == Fatal(e) || (attempts(n) == Transient(e) && n == Attempts(config)))
      ensures o.Failed? && attempts(n).Transient? ==> n == if config.maxAttempts >= 1 then config.maxAttempts else 1
    {
      n, waits := 0, [];
      if !admitted {
        return CancelledWaiting, n, waits;
      }
      held := held + 1;
      if !connected {
        held := held - 1;
        return NotConnected, n, waits;
      }
      var maxAttempts := Attempts(config);
      var backoff := Initial(config);
      var maxBackoff := Longest(config);
      var multiplier := Factor(config);
      var lastErr := "";
      var attempt := 1;
      while attempt <= maxAttempts
        invariant 1 <= attempt <= maxAttempts && n == attempt - 1 && held == old(held) + 1
        invariant |waits| == n && forall k | 0 <= k < n :: waits[k] == Wait(config, k)
        invariant backoff == Wait(config, n)
        invariant Reached(attempts, cancelled, attempt)
      {
        n := n + 1;
        match attempts(attempt) {
          case Success(value) =>
            held := held - 1;
            return Submitted(value), n, waits;
          case Fatal(e) =>
            lastErr := e;
            break;
          case Transient(e) =>
            lastErr := e;
            if attempt == maxAttempts {
              break;
            }
        }
        waits := waits + [backoff];
        if cancelled(attempt) {
          held := held - 1;
          return CancelledInRetry, n, waits;
        }
        backoff := Grown(backoff, multiplier, maxBackoff);
        attempt := attempt + 1;
      }
      held := held - 1;
      return Failed(lastErr), n, waits;
    }
  }

  // ------------------------------------------------------------------- many submissions at once

  /** A call waits for the semaphore, then alternates attempts and waits, then has returned. */
  datatype Phase = Queued | Trying(attempt: nat) | Resting(attempt: nat) | Returned

  datatype World = World(tokens: nat, calls: map<nat, Phase>)

  datatype Event =
    | Arrive(call: nat)
    | Acquire(call: nat)
    | GiveUp(call: nat)
    | Try(call: nat, retryable: bool)
    | Wake(call: nat)

  predicate Holds(p: Phase) { p.Trying? || p.Resting? }

  /** The calls that are being tried or resting. */
  function Holders(calls: map<nat, Phase>): (holders: set<nat>)
    ensures forall call :: call in holders <==> call in calls && (calls[call].Trying? || calls[call].Resting?)
  {
    set call | call in calls && Holds(calls[call])
  }

  function Step(c: Config, connected: bool, w: World, e: Event): World {
    if e.Arrive? then if e.call in w.calls then w else w.(calls := w.calls[e.call := Queued])
    else if e.call !in w.calls then w
    else match (e, w.calls[e.call])
      case (Acquire(call), Queued) =>
        if w.tokens >= Capacity(c) then w
        else if !connected then w.(calls := w.calls[call := Returned])
        else World(w.tokens + 1, w.calls[call := Trying(1)])
      case (GiveUp(call), Queued) => w.(calls := w.calls[call := Returned])
      case (GiveUp(call), Resting(_)) => World(if w.tokens > 0 then w.tokens - 1 else 0, w.calls[call := Returned])
      case (Try(call, retryable), Trying(attempt)) =>
        if retryable && attempt < Attempts(c) then w.(calls := w.calls[call := Resting(attempt)])
        else World(if w.tokens > 0 then w.tokens - 1 else 0, w.calls[call := Returned])
      case (Wake(call), Resting(attempt)) => w.(calls := w.calls[call := Trying(attempt + 1)])
      case _ => w
  }

  function Run(c: Config, connected: bool, events: seq<Event>): World {
    if events == [] then World(0, map[])
    else Step(c, connected, Run(c, connected, events[..|events| - 1]), events[|events| - 1])
  }

  /** The semaphore counts exactly the calls in progress, so it is free again once they return. */
  ghost predicate Inv(c: Config, w: World) {
    && w.tokens == |Holders(w.calls)| <= Capacity(c)
    && forall call | call in w.calls :: match w.calls[call]
         case Trying(attempt) => 1 <= attempt <= Attempts(c)
         case Resting(attempt) => 1 <= attempt < Attempts(c)
         case _ => true
  }

  lemma PutHolder(calls: map<nat, Phase>, call: nat, p: Phase)
    ensures |Holders(calls[call := p])| == |Holders(calls)| + (if Holds(p) then 1 else 0)
                                           - (if call in calls && Holds(calls[call]) then 1 else 0)
  {
    var before, after := Holders(calls), Holders(calls[call := p]);
    assert after == if Holds(p) then before + {call} else before - {call};
    assert call in before <==> call in calls && Holds(calls[call]);
    if call !in before && !Holds(p) {
      assert after == before;
    } else if call in before && Holds(p) {
      assert after == before;
    }
  }

  lemma StepKeeps(c: Config, connected: bool, w: World, e: Event)
    requires Inv(c, w)
    ensures Inv(c, Step(c, connected, w, e))
  {
    var after := Step(c, connected, w, e);
    if e.call in after.calls {
      PutHolder(w.calls, e.call, after.calls[e.call]);
      assert e.call in w.calls && Holds(w.calls[e.call]) ==> e.call in Holders(w.calls) && |Holders(w.calls)| > 0;
      assert after.calls == w.calls || after.calls == w.calls[e.call := after.calls[e.call]];
    }
  }

  /** At every moment of every run at most the configured number of calls are being submitted, and
      no call is past its last attempt. */
  lemma {:induction false} NeverOverCapacity(c: Config, connected: bool, events: seq<Event>)
    ensures Inv(c, Run(c, connected, events))
    ensures |Holders(Run(c, connected, events).calls)| <= if c.maxConcurrent > 0 then c.maxConcurrent else 200
  {
    if events != [] {
      NeverOverCapacity(c, connected, events[..|events| - 1]);
      StepKeeps(c, connected, Run(c, connected, events[..|events| - 1]), events[|events| - 1]);
    }
  }

  /** In any run, a waiting call of a connected client can start exactly while fewer calls than the
      configured number are in progress, and a failed one can be retried exactly while it has been
      tried fewer times than configured. */
  lemma {:induction false} RoomIsUsed(c: Config, connected: bool, events: seq<Event>, call: nat)
    requires call in Run(c, connected, events).calls
    ensures
      var w := Run(c, connected, events);
      var begun, failed := Step(c, connected, w, Acquire(call)), Step(c, connected, w, Try(call, true));
      && (w.calls[call].Queued? && connected ==>
            (begun.calls[call] == Trying(1)
             <==> |Holders(w.calls)| < if c.maxConcurrent > 0 then c.maxConcurrent else 200))
      && (w.calls[call].Trying? ==>
            (failed.calls[call] == Resting(w.calls[call].attempt)
             <==> w.calls[call].attempt < if c.maxAttempts >= 1 then c.maxAttempts else 1))
  {
    NeverOverCapacity(c, connected, events);
  }

  function Tries(c: Config, connected: bool, events: seq<Event>, call: nat): nat {
    if events == [] then 0
    else
      var front, e := events[..|events| - 1], events[|events| - 1];
      var calls := Run(c, connected, front).calls;
      Tries(c, connected, front, call)
      + if e.Try? && e.call == call && call in calls && calls[call].Trying? then 1 else 0
  }

  /** How often a call that is in this phase has been tried. */
  ghost predicate Tried(calls: map<nat, Phase>, call: nat, tries: nat, most: nat) {
    if call !in calls || calls[call].Queued? then tries == 0
    else match calls[call]
      case Trying(attempt) => tries == attempt - 1 < most
      case Resting(attempt) => tries == attempt < most
      case _ => tries <= most
  }

  lemma TriedStep(c: Config, connected: bool, w: World, e: Event, call: nat, tries: nat)
    requires Inv(c, w) && Tried(w.calls, call, tries, Attempts(c))
    ensures Tried(Step(c, connected, w, e).calls, call,
                  tries + if e.Try? && e.call == call && call in w.calls && w.calls[call].Trying? then 1 else 0,
                  Attempts(c))
  {}

  /** Whatever the interleaving, one call makes at most its configured number of submissions. */
  lemma {:induction false} TriesBounded(c: Config, connected: bool, events: seq<Event>, call: nat)
    ensures Tried(Run(c, connected, events).calls, call, Tries(c, connected, events, call), Attempts(c))
    ensures Tries(c, connected, events, call) <= if c.maxAttempts >= 1 then c.maxAttempts else 1
  {
    if events != [] {
      var front := events[..|events| - 1];
      TriesBounded(c, connected, front, call);
      NeverOverCapacity(c, connected, front);
      TriedStep(c, connected, Run(c, connected, front), events[|events| - 1], call, Tries(c, connected, front, call));
    }
  }
}
