/** Which transfer requests the gateway lets through, and what that means over a whole run: replay
    protection joins the window of the nonce store with the window on the request's timestamp. */
module Admission {
  import opened Options
  import opened Helpers
  import opened TtlStores

  datatype Request = Request(fromId: string, toId: string, amount: int, internalRef: string,
                             idempotencyKey: string, nonce: string, timestamp: int)

  datatype Refusal = ValidationFailed | NonceAlreadyUsed | ExpiredOrFuture

  datatype Outcome<+R> = Refused(why: Refusal) | Cached(receipt: R) | Admitted

  /** The millisecond that a clock reading falls in. */
  function Millis(now: int): int { now / NANOS_PER_MILLI }

  /** A duration in whole milliseconds, cut off toward zero. */
  function WholeMillis(duration: int): int {
    if duration >= 0 then duration / NANOS_PER_MILLI else -(-duration / NANOS_PER_MILLI)
  }

  predicate WellFormed(req: Request) {
    && req.amount > 0 && req.fromId != req.toId
    && req.internalRef != "" && req.idempotencyKey != "" && |req.nonce| >= 16
  }

  predicate Timely(timestamp: int, now: int, window: int) {
    0 <= Millis(now) - timestamp <= WholeMillis(window)
  }

  /** The decision, read off the full logs of everything ever recorded. */
  function Decide<R>(req: Request, added: seq<Entry<int>>, stored: seq<Entry<Expiring<R>>>, window: int,
                     looked: int, seen: int, checked: int): Outcome<R> {
    if !WellFormed(req) then Refused(ValidationFailed)
    else match ServedFrom(stored, req.idempotencyKey, looked)
      case Some(receipt) => Cached(receipt)
      case None =>
        if UsedIn(added, req.nonce, seen, window) then Refused(NonceAlreadyUsed)
        else if !Timely(req.timestamp, checked, window) then Refused(ExpiredOrFuture)
        else Admitted
  }

  ghost predicate IsServed<R>(stored: seq<Entry<Expiring<R>>>, key: string, now: int) {
    exists i | 0 <= i < |stored| && IsLast(stored, key, i) :: now <= stored[i].value.expiresAt
  }

  ghost predicate IsSpent(added: seq<Entry<int>>, nonce: string, now: int, window: int) {
    exists i | 0 <= i < |added| && IsLast(added, nonce, i) :: now - added[i].value < window
  }

  /** The decision in plain terms: malformed requests are refused, then a stored result that has
      not expired is served, then a nonce within its window is refused, then a timestamp in the
      future or more than the window's whole milliseconds ago; all others are admitted. */
  lemma {:induction false} DecisionMeans<R>(req: Request, added: seq<Entry<int>>, stored: seq<Entry<Expiring<R>>>,
                                            window: int, looked: int, seen: int, checked: int)
    ensures
      var o := Decide(req, added, stored, window, looked, seen, checked);
      var malformed := req.amount <= 0 || req.fromId == req.toId || req.internalRef == "" || req.idempotencyKey == ""
                       || |req.nonce| < 16;
      var served, spent := IsServed(stored, req.idempotencyKey, looked), IsSpent(added, req.nonce, seen, window);
      var age := checked / 1_000_000 - req.timestamp;
      var most := if window >= 0 then window / 1_000_000 else -(-window / 1_000_000);
      && (o == Refused(ValidationFailed) <==> malformed)
      && (o.Cached? <==> !malformed && served)
      && (o == Refused(NonceAlreadyUsed) <==> !malformed && !served && spent)
      && (o == Refused(ExpiredOrFuture) <==> !malformed && !served && !spent && (age < 0 || age > most))
      && (o.Admitted? <==> !malformed && !served && !spent && 0 <= age <= most)
    ensures forall receipt ::
      Decide(req, added, stored, window, looked, seen, checked) == Cached(receipt) ==>
        exists i | 0 <= i < |stored| && IsLast(stored, req.idempotencyKey, i) :: stored[i].value.receipt == receipt
  {
    UsedIff(added, req.nonce, seen, window);
    match ServedFrom(stored, req.idempotencyKey, looked) {
      case Some(receipt) => ServedIff(stored, req.idempotencyKey, looked, receipt);
      case None =>
        if i :| 0 <= i < |stored| && IsLast(stored, req.idempotencyKey, i) && looked <= stored[i].value.expiresAt {
          ServedIff(stored, req.idempotencyKey, looked, stored[i].value.receipt);
        }
    }
  }

  /** One admitted request with its four clock readings: idempotency look-up, nonce look-up,
      timestamp check and nonce recording. `results` counts the results stored before it. */
  datatype Entrant = Entrant(req: Request, results: nat, looked: int, seen: int, checked: int, added: int)

  function NoncesOf(history: seq<Entrant>): (log: seq<Entry<int>>)
    ensures |log| == |history|
    ensures forall i | 0 <= i < |log| :: log[i] == Entry(history[i].req.nonce, history[i].added)
  {
    if history == [] then []
    else
      var last := history[|history| - 1];
      NoncesOf(history[..|history| - 1]) + [Entry(last.req.nonce, last.added)]
  }

  ghost predicate InOrder(history: seq<Entrant>) {
    forall i, j | 0 <= i < j < |history| :: history[i].added <= history[j].looked
  }

  /** The decision that let entrant `k` in, taken against what preceded it. */
  ghost predicate LetIn<R>(history: seq<Entrant>, k: nat, stored: seq<Entry<Expiring<R>>>, window: int)
    requires k < |history|
  {
    var e := history[k];
    && e.looked <= e.seen <= e.checked <= e.added && e.results <= |stored|
    && Decide(e.req, NoncesOf(history[..k]), stored[..e.results], window, e.looked, e.seen, e.checked).Admitted?
  }

  ghost predicate GoodHistory<R>(history: seq<Entrant>, stored: seq<Entry<Expiring<R>>>, window: int) {
    InOrder(history) && forall k: nat | k < |history| :: LetIn(history, k, stored, window)
  }

  ghost predicate ExpiriesInOrder<R>(stored: seq<Entry<Expiring<R>>>, top: int) {
    && (forall i, j | 0 <= i < j < |stored| :: stored[i].value.expiresAt <= stored[j].value.expiresAt)
    && forall i | 0 <= i < |stored| :: stored[i].value.expiresAt <= top
  }

  lemma {:induction false} LatestNotBefore(history: seq<Entrant>, i: nat)
    requires i < |history| && InOrder(history)
    requires forall k | 0 <= k < |history| :: history[k].looked <= history[k].added
    ensures Latest(NoncesOf(history), history[i].req.nonce).Some?
    ensures Latest(NoncesOf(history), history[i].req.nonce).value >= history[i].added
  {
    var log, nonce := NoncesOf(history), history[i].req.nonce;
    LatestIsTheLastEntry(log, nonce);
    assert log[i].key == nonce;
  }

  /** Two requests with one nonce and one timestamp both get in only at the very edge: the first
      is handled in the millisecond of its timestamp, the second exactly one window later. */
  lemma {:induction false} ReplayOnlyAtTheEdge<R>(history: seq<Entrant>, stored: seq<Entry<Expiring<R>>>, window: int,
                                                  i: nat, j: nat)
    requires GoodHistory(history, stored, window) && i < j < |history|
    requires history[i].req.nonce == history[j].req.nonce
    requires history[i].req.timestamp == history[j].req.timestamp
    ensures Millis(history[i].checked) == Millis(history[i].added) == history[i].req.timestamp
    ensures Millis(history[j].seen) == Millis(history[j].checked)
            == history[j].req.timestamp + WholeMillis(window)
    ensures history[j].seen - history[i].added >= window
  {
    var first, second := history[i], history[j];
    assert LetIn(history, i, stored, window) && LetIn(history, j, stored, window);
    forall k | 0 <= k < j ensures history[..j][k].looked <= history[..j][k].added {
      assert LetIn(history, k, stored, window);
    }
    LatestNotBefore(history[..j], i);
    assert first.added <= second.looked;
    WindowInMillis(second.seen - first.added, window, first.added, second.seen);
  }

  lemma {:induction false} WindowInMillis(passed: int, window: int, from: int, until: int)
    requires until == from + passed && passed >= window && passed >= 0
    ensures Millis(until) >= Millis(from) + WholeMillis(window)
  {
    if window >= 0 {
      assert until >= Millis(from) * NANOS_PER_MILLI + WholeMillis(window) * NANOS_PER_MILLI;
    }
  }

  /** So one signed request gets in at most twice, once the window is a millisecond or more. */
  lemma {:induction false} NeverThreeTimes<R>(history: seq<Entrant>, stored: seq<Entry<Expiring<R>>>, window: int,
                           i: nat, j: nat, k: nat)
    requires GoodHistory(history, stored, window) && i < j < k < |history| && window >= NANOS_PER_MILLI
    requires history[i].req.nonce == history[j].req.nonce == history[k].req.nonce
    requires history[i].req.timestamp == history[j].req.timestamp
    ensures history[k].req.timestamp != history[i].req.timestamp
  {
    if history[k].req.timestamp == history[i].req.timestamp {
      ReplayOnlyAtTheEdge(history, stored, window, i, j);
      ReplayOnlyAtTheEdge(history, stored, window, j, k);
    }
  }

  /** The edge is real: a request handled at its timestamp and repeated one window later is
      admitted both times, exactly when the window admits anything at all. */
  lemma {:induction false} EdgeIsReal<R>(req: Request, window: int)
    requires WellFormed(req)
    ensures
      var t := req.timestamp * NANOS_PER_MILLI;
      var later := t + if window < 0 then 0 else window;
      var history := [Entrant(req, 0, t, t, t, t), Entrant(req, 0, later, later, later, later)];
      GoodHistory<R>(history, [], window) <==> window > -NANOS_PER_MILLI
  {
    var t := req.timestamp * NANOS_PER_MILLI;
    var later := t + if window < 0 then 0 else window;
    var first, second := Entrant(req, 0, t, t, t, t), Entrant(req, 0, later, later, later, later);
    var history := [first, second];
    var none: seq<Entry<Expiring<R>>> := [];
    assert history[..0] == [] && history[..1] == [first] && none[..0] == none;
    assert NoncesOf([first]) == [Entry(req.nonce, t)];
    assert LetIn(history, 0, none, window) <==> Timely(req.timestamp, t, window);
    if window > -NANOS_PER_MILLI {
      assert Timely(req.timestamp, t, window);
      assert Millis(later) == req.timestamp + WholeMillis(window);
      assert LetIn(history, 1, none, window);
    }
  }

  /** An admitted request's idempotency key has no stored result that has not expired, however
      many results the key had: not just the latest one. */
  lemma {:induction false} AdmittedOnlyAfterExpiry<R>(history: seq<Entrant>, stored: seq<Entry<Expiring<R>>>,
                                                      window: int, top: int,
                                   k: nat, m: nat)
    requires GoodHistory(history, stored, window) && ExpiriesInOrder(stored, top)
    requires k < |history| && m < history[k].results <= |stored|
    requires stored[m].key == history[k].req.idempotencyKey
    ensures stored[m].value.expiresAt < history[k].looked
  {
    var e := history[k];
    assert LetIn(history, k, stored, window);
    var before := stored[..e.results];
    LatestIsTheLastEntry(before, e.req.idempotencyKey);
    assert before[m] == stored[m];
  }

  ghost predicate SoundPast<R>(history: seq<Entrant>, stored: seq<Entry<Expiring<R>>>, window: int, ttl: int,
                               now: int) {
    && GoodHistory(history, stored, window)
    && ExpiriesInOrder(stored, now + ttl)
    && forall k | 0 <= k < |history| :: history[k].added <= now
  }

  class Gateway<R> {
    const nonces: NonceStore
    const results: IdempotencyStore<R>
    const window: int
    const ttl: int
    ghost var history: seq<Entrant>
    ghost var clock: int

    ghost predicate Valid()
      reads this, nonces, results
    {
      && nonces.Valid() && results.Valid()
      && nonces.window == window && results.ttl == ttl
      && nonces.clock <= clock && results.clock <= clock
      && nonces.log == NoncesOf(history)
      && SoundPast(history, results.log, window, ttl, clock)
    }

    constructor (window: int, ttl: int, ghost now: int)
      ensures Valid() && fresh(nonces) && fresh(results) && history == [] && clock == now
      ensures this.window == window && this.ttl == ttl && results.log == []
    {
      this.window, this.ttl := window, ttl;
      nonces := new NonceStore(window, now);
      results := new IdempotencyStore(ttl, now);
      history, clock := [], now;
    }

    /** Decides as if nothing had ever been cleaned up; only an admission leaves a trace. */
    method Admit(req: Request, looked: int, seen: int, checked: int, added: int) returns (o: Outcome<R>)
      requires Valid() && clock <= looked <= seen <= checked <= added
      modifies this, nonces
      ensures Valid() && clock == if o.Admitted? then added else old(clock)
      ensures o == Decide(req, NoncesOf(old(history)), results.log, window, looked, seen, checked)
      ensures o == Refused(ValidationFailed) <==>
        req.amount <= 0 || req.fromId == req.toId || req.internalRef == "" || req.idempotencyKey == ""
        || |req.nonce| < 16
      ensures history == old(history) +
        if o.Admitted? then [Entrant(req, |results.log|, looked, seen, checked, added)] else []
    {
      if !WellFormed(req) {
        return Refused(ValidationFailed);
      }
      var existing := results.Get(req.idempotencyKey, looked);
      if existing.Some? {
        return Cached(existing.value);
      }
      var used := nonces.Exists(req.nonce, seen);
      if used {
        return Refused(NonceAlreadyUsed);
      }
      var timeDiff := Millis(checked) - req.timestamp;
      if timeDiff < 0 || timeDiff > WholeMillis(window) {
        return Refused(ExpiredOrFuture);
      }
      Record(req, looked, seen, checked, added);
      return Admitted;
    }

    method Record(req: Request, ghost looked: int, ghost seen: int, ghost checked: int, added: int)
      requires Valid() && clock <= looked <= seen <= checked <= added
      requires Decide(req, NoncesOf(history), results.log, window, looked, seen, checked).Admitted?
      modifies this, nonces
      ensures Valid() && clock == added
      ensures history == old(history) + [Entrant(req, |results.log|, looked, seen, checked, added)]
    {
      ghost var entrant := Entrant(req, |results.log|, looked, seen, checked, added);
      ghost var stored := results.log;
      HistoryGrows(history, entrant, stored, window, ttl, clock);
      nonces.Add(req.nonce, added);
      assert results.log == stored;
      history := history + [entrant];
      clock := added;
    }

    /** The result of a finished transfer is kept under its idempotency key. */
    method Complete(key: string, receipt: R, now: int)
      requires Valid() && clock <= now
      modifies this, results
      ensures Valid() && clock == now && history == old(history)
      ensures results.log == old(results.log) + [Entry(key, Expiring(receipt, now + ttl))]
    {
      results.Store(key, receipt, now);
      ResultsGrow(history, old(results.log), key, receipt, window, ttl, clock, now);
      clock := now;
    }

    method CleanUp(now: int, later: int)
      requires Valid() && clock <= now <= later
      modifies this, nonces, results
      ensures Valid() && clock == later && history == old(history) && results.log == old(results.log)
    {
      nonces.Cleanup(now);
      results.Cleanup(later);
      clock := later;
    }
  }

  lemma {:induction false} HistoryGrows<R>(history: seq<Entrant>, e: Entrant, stored: seq<Entry<Expiring<R>>>,
                                           window: int, ttl: int, now: int)
    requires SoundPast(history, stored, window, ttl, now)
    requires now <= e.looked <= e.seen <= e.checked <= e.added && e.results == |stored|
    requires Decide(e.req, NoncesOf(history), stored, window, e.looked, e.seen, e.checked).Admitted?
    ensures SoundPast(history + [e], stored, window, ttl, e.added)
    ensures NoncesOf(history + [e]) == NoncesOf(history) + [Entry(e.req.nonce, e.added)]
  {
    var longer := history + [e];
    assert longer[..|history|] == history && stored[..|stored|] == stored;
    assert LetIn(longer, |history|, stored, window);
    forall k: nat | k < |history| ensures LetIn(longer, k, stored, window) {
      LetInBefore(history, e, k, stored, window);
    }
  }

  lemma {:induction false} LetInBefore<R>(history: seq<Entrant>, e: Entrant, k: nat, stored: seq<Entry<Expiring<R>>>,
                                          window: int)
    requires GoodHistory(history, stored, window) && k < |history|
    ensures LetIn(history + [e], k, stored, window)
  {
    assert LetIn(history, k, stored, window);
    assert (history + [e])[..k] == history[..k];
  }

  lemma {:induction false} ResultsGrow<R>(history: seq<Entrant>, stored: seq<Entry<Expiring<R>>>, key: string,
                                          receipt: R,
                                          window: int, ttl: int, past: int, now: int)
    requires SoundPast(history, stored, window, ttl, past) && past <= now
    ensures SoundPast(history, stored + [Entry(key, Expiring(receipt, now + ttl))], window, ttl, now)
  {
    var more := stored + [Entry(key, Expiring(receipt, now + ttl))];
    forall k: nat | k < |history| ensures LetIn(history, k, more, window) {
      assert LetIn(history, k, stored, window);
      assert stored[..history[k].results] == more[..history[k].results];
    }
  }
}
