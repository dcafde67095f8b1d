/** The sliding-window limiter: a pruned list per client that stands for the full accepted log. */
module RateLimiting {

  function After(ts: seq<int>, cutoff: int): seq<int> {
    if ts == [] then []
    else if ts[|ts| - 1] > cutoff then After(ts[..|ts| - 1], cutoff) + [ts[|ts| - 1]]
    else After(ts[..|ts| - 1], cutoff)
  }

  /** How many of `ts` lie in the half-open interval (lo, hi]. */
  function CountIn(ts: seq<int>, lo: int, hi: int): nat {
    if ts == [] then 0
    else CountIn(ts[..|ts| - 1], lo, hi) + if lo < ts[|ts| - 1] <= hi then 1 else 0
  }

  /** The count is the number of entries in the interval. */
  lemma {:induction false} CountIs(ts: seq<int>, lo: int, hi: int)
    ensures CountIn(ts, lo, hi) == |set i | 0 <= i < |ts| && lo < ts[i] <= hi|
  {
    if ts != [] {
      var k := |ts| - 1;
      CountIs(ts[..k], lo, hi);
      assert (set i | 0 <= i < |ts| && lo < ts[i] <= hi)
          == (set i | 0 <= i < k && lo < ts[..k][i] <= hi) + if lo < ts[k] <= hi then {k} else {};
    }
  }

  ghost predicate Monotone(ts: seq<int>) {
    forall i, j | 0 <= i < j < |ts| :: ts[i] <= ts[j]
  }

  /** Every entry was accepted with fewer than `limit` accepted entries in its window before it. */
  ghost predicate AcceptedUnderLimit(log: seq<int>, limit: int, window: int) {
    forall k | 0 <= k < |log| :: AcceptedAt(log, k, limit, window)
  }

  predicate AcceptedAt(log: seq<int>, k: nat, limit: int, window: int)
    requires k < |log|
  {
    CountIn(log[..k], log[k] - window, log[k]) < limit
  }

  /** The pruned list lost nothing that any window ending at `now` or later can see. */
  ghost predicate Abbreviates(kept: seq<int>, log: seq<int>, cutoff: int) {
    After(kept, cutoff) == After(log, cutoff)
  }

  lemma {:induction false} AfterTwice(ts: seq<int>, early: int, late: int)
    requires early <= late
    ensures After(After(ts, early), late) == After(ts, late)
  {
    if ts != [] {
      var front, t := ts[..|ts| - 1], ts[|ts| - 1];
      AfterTwice(front, early, late);
      if t > early {
        assert (After(front, early) + [t])[..|After(front, early)|] == After(front, early);
      }
    }
  }

  /** A list that agrees with the log for one cutoff agrees with it for every later one. */
  lemma AbbreviatesLater(kept: seq<int>, log: seq<int>, early: int, late: int)
    requires Abbreviates(kept, log, early) && early <= late
    ensures Abbreviates(kept, log, late)
  {
    AfterTwice(kept, early, late);
    AfterTwice(log, early, late);
  }

  lemma {:induction false} AfterCounts(ts: seq<int>, lo: int, hi: int)
    requires forall t | t in ts :: t <= hi
    ensures |After(ts, lo)| == CountIn(ts, lo, hi)
    ensures forall t | t in After(ts, lo) :: t in ts && t > lo
  {
    if ts != [] {
      var front := ts[..|ts| - 1];
      assert ts[|ts| - 1] in ts && forall t | t in front :: t in ts;
      AfterCounts(front, lo, hi);
    }
  }

  lemma {:induction false} CountGrowsWithInterval(ts: seq<int>, lo: int, hi: int, lo': int, hi': int)
    requires lo' <= lo && hi <= hi'
    ensures CountIn(ts, lo, hi) <= CountIn(ts, lo', hi')
  {
    if ts != [] {
      CountGrowsWithInterval(ts[..|ts| - 1], lo, hi, lo', hi');
    }
  }

  lemma {:induction false} CountCapped(ts: seq<int>, lo: int, hi: int, top: int)
    requires forall t | t in ts :: t <= top
    ensures CountIn(ts, lo, hi) <= CountIn(ts, lo, top)
  {
    if ts != [] {
      var front := ts[..|ts| - 1];
      assert ts[|ts| - 1] in ts && forall t | t in front :: t in ts;
      CountCapped(front, lo, hi, top);
    }
  }

  /** No interval of the window's length, wherever it starts, holds more than `limit` accepted
      requests. */
  lemma {:induction false} NoWindowOverLimit(log: seq<int>, limit: int, window: int, start: int)
    requires Monotone(log) && AcceptedUnderLimit(log, limit, window)
    ensures CountIn(log, start, start + window) <= if limit < 0 then 0 else limit
    ensures |set i | 0 <= i < |log| && start < log[i] <= start + window| <= if limit < 0 then 0 else limit
  {
    CountIs(log, start, start + window);
    if log != [] {
      var front, t := log[..|log| - 1], log[|log| - 1];
      forall k | 0 <= k < |front| ensures AcceptedAt(front, k, limit, window) {
        assert AcceptedAt(log, k, limit, window);
        assert front[..k] == log[..k];
      }
      assert AcceptedAt(log, |front|, limit, window);
      NoWindowOverLimit(front, limit, window, start);
      if start < t <= start + window {
        CountCapped(front, start, start + window, t);
        CountGrowsWithInterval(front, start, t, t - window, t);
      }
    }
  }

  lemma MonotoneExtends(log: seq<int>, now: int)
    requires Monotone(log) && forall t | t in log :: t <= now
    ensures Monotone(log + [now])
  {
    forall i | 0 <= i < |log| ensures log[i] <= now { assert log[i] in log; }
  }

  lemma LogExtends(log: seq<int>, now: int, limit: int, window: int)
    requires AcceptedUnderLimit(log, limit, window) && CountIn(log, now - window, now) < limit
    ensures AcceptedUnderLimit(log + [now], limit, window)
  {
    var longer := log + [now];
    forall k | 0 <= k < |longer| ensures AcceptedAt(longer, k, limit, window) {
      if k < |log| {
        assert AcceptedAt(log, k, limit, window);
        assert longer[..k] == log[..k];
      } else {
        assert longer[..k] == log;
      }
    }
  }

  lemma AppendAbbreviates(mine: seq<int>, log: seq<int>, cutoff: int, now: int)
    requires Abbreviates(mine, log, cutoff)
    ensures Abbreviates(After(mine, cutoff) + [now], log + [now], cutoff)
  {
    AfterTwice(mine, cutoff, cutoff);
    assert (After(mine, cutoff) + [now])[..|After(mine, cutoff)|] == After(mine, cutoff);
    assert (log + [now])[..|log|] == log;
  }

  /** What holds of one client: `kept` is the stored list, `log` everything accepted so far. */
  ghost predicate ClientOk(kept: seq<int>, log: seq<int>, now: int, limit: int, window: int) {
    && Monotone(log) && (forall t | t in log :: t <= now)
    && AcceptedUnderLimit(log, limit, window)
    && Abbreviates(kept, log, now - window)
  }

  lemma ClientOkLater(kept: seq<int>, log: seq<int>, past: int, now: int, limit: int, window: int)
    requires ClientOk(kept, log, past, limit, window) && past <= now
    ensures ClientOk(kept, log, now, limit, window)
    ensures |After(kept, now - window)| == CountIn(log, now - window, now)
  {
    AbbreviatesLater(kept, log, past - window, now - window);
    AfterCounts(log, now - window, now);
  }

  lemma ClientOkAccepts(kept: seq<int>, log: seq<int>, now: int, limit: int, window: int)
    requires ClientOk(kept, log, now, limit, window) && CountIn(log, now - window, now) < limit
    ensures ClientOk(After(kept, now - window) + [now], log + [now], now, limit, window)
  {
    MonotoneExtends(log, now);
    LogExtends(log, now, limit, window);
    AppendAbbreviates(kept, log, now - window, now);
  }

  type Table = map<string, seq<int>>

  function Of(table: Table, client: string): seq<int> {
    if client in table then table[client] else []
  }

  ghost predicate EveryClientOk(kept: Table, logs: Table, now: int, limit: int, window: int) {
    forall c: string :: ClientOk(Of(kept, c), Of(logs, c), now, limit, window)
  }

  lemma EveryClientOkLater(kept: Table, logs: Table, past: int, now: int, limit: int, window: int)
    requires EveryClientOk(kept, logs, past, limit, window) && past <= now
    ensures EveryClientOk(kept, logs, now, limit, window)
  {
    forall c: string ensures ClientOk(Of(kept, c), Of(logs, c), now, limit, window) {
      ClientOkLater(Of(kept, c), Of(logs, c), past, now, limit, window);
    }
  }

  lemma EveryClientOkAfterAccept(kept: Table, logs: Table, client: string, now: int, limit: int, window: int)
    requires EveryClientOk(kept, logs, now, limit, window)
    requires CountIn(Of(logs, client), now - window, now) < limit
    ensures EveryClientOk(kept[client := After(Of(kept, client), now - window) + [now]],
                          logs[client := Of(logs, client) + [now]], now, limit, window)
  {
    ClientOkAccepts(Of(kept, client), Of(logs, client), now, limit, window);
    var kept' := kept[client := After(Of(kept, client), now - window) + [now]];
    var logs' := logs[client := Of(logs, client) + [now]];
    forall c: string ensures ClientOk(Of(kept', c), Of(logs', c), now, limit, window) {
      if c != client {
        assert Of(kept', c) == Of(kept, c) && Of(logs', c) == Of(logs, c);
      }
    }
  }

  class RateLimiter {
    const limit: int
    const window: int
    var requests: Table
    ghost var accepted: Table
    ghost var clock: int

    ghost predicate Valid()
      reads this
    {
      EveryClientOk(requests, accepted, clock, limit, window)
    }

    constructor (limit: int, window: int, ghost now: int)
      ensures Valid() && this.limit == limit && this.window == window && accepted == map[] && clock == now
    {
      this.limit, this.window := limit, window;
      requests, accepted, clock := map[], map[], now;
    }

    /** For each client, no half-open interval of the window's length holds more than `limit`
        accepted requests, and none at all when the limit is negative. */
    lemma NoClientOverLimit(client: string, start: int)
      requires Valid()
      ensures CountIn(Of(accepted, client), start, start + window) <= if limit < 0 then 0 else limit
    {
      assert ClientOk(Of(requests, client), Of(accepted, client), clock, limit, window);
      NoWindowOverLimit(Of(accepted, client), limit, window, start);
    }

    /** Refuses exactly when the window that ends now already holds `limit` accepted requests. */
    method Admit(client: string, now: int) returns (ok: bool)
      requires Valid() && clock <= now
      modifies this
      ensures Valid() && clock == now
      ensures ok <==> CountIn(Of(old(accepted), client), now - window, now) < limit
      ensures accepted ==
        if ok then old(accepted)[client := Of(old(accepted), client) + [now]] else old(accepted)
      ensures requests ==
        if ok then old(requests)[client := After(Of(old(requests), client), now - window) + [now]]
        else old(requests)
    {
      var cutoff := now - window;
      var mine := Of(requests, client);
      ghost var log := Of(accepted, client);
      var valid := Prune(mine, cutoff);
      EveryClientOkLater(requests, accepted, clock, now, limit, window);
      ClientOkLater(mine, log, clock, now, limit, window);
      clock := now;
      if |valid| >= limit {
        return false;
      }
      EveryClientOkAfterAccept(requests, accepted, client, now, limit, window);
      requests := requests[client := valid + [now]];
      accepted := accepted[client := log + [now]];
      return true;
    }
  }

  /** The loop that cleans old requests. */
  method Prune(mine: seq<int>, cutoff: int) returns (valid: seq<int>)
    ensures valid == After(mine, cutoff)
  {
    valid := [];
    for i := 0 to |mine|
      invariant valid == After(mine[..i], cutoff)
    {
      assert mine[..i + 1][..i] == mine[..i];
      if mine[i] > cutoff {
        valid := valid + [mine[i]];
      }
    }
    assert mine[..|mine|] == mine;
  }
}
