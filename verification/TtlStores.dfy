/** The nonce store and the idempotency store: maps that are written and cleaned in place, each
    proved to answer like an append-only log of everything ever written to it. Times are
    nanoseconds of one clock that never goes back. */
module TtlStores {
  import opened Options

  datatype Entry<+V> = Entry(key: string, value: V)

  function Latest<V>(log: seq<Entry<V>>, key: string): Option<V> {
    if log == [] then None
    else if log[|log| - 1].key == key then Some(log[|log| - 1].value)
    else Latest(log[..|log| - 1], key)
  }

  lemma {:induction false} LatestIsTheLastEntry<V>(log: seq<Entry<V>>, key: string)
    ensures Latest(log, key).None? <==> forall i | 0 <= i < |log| :: log[i].key != key
    ensures Latest(log, key).Some? ==>
      exists i | 0 <= i < |log| ::
        log[i] == Entry(key, Latest(log, key).value) && forall j | i < j < |log| :: log[j].key != key
  {
    if log != [] && log[|log| - 1].key != key {
      LatestIsTheLastEntry(log[..|log| - 1], key);
      if Latest(log, key).Some? {
        var front := log[..|log| - 1];
        var i :| 0 <= i < |front| && front[i] == Entry(key, Latest(log, key).value)
                 && forall j | i < j < |front| :: front[j].key != key;
        forall j | i < j < |log| ensures log[j].key != key {
          assert j < |front| ==> log[j] == front[j];
        }
        assert log[i] == Entry(key, Latest(log, key).value);
      } else {
        forall i | 0 <= i < |log| ensures log[i].key != key {
          assert i < |log| - 1 ==> log[i] == log[..|log| - 1][i];
        }
      }
    } else if log != [] {
      assert log[|log| - 1] == Entry(key, Latest(log, key).value);
    }
  }

  lemma LatestAfterAppend<V>(log: seq<Entry<V>>, key: string, value: V, other: string)
    ensures Latest(log + [Entry(key, value)], other) == if other == key then Some(value) else Latest(log, other)
  {
    assert (log + [Entry(key, value)])[..|log|] == log;
  }

  /** The map holds the latest write of every key, except writes that are dead already. */
  ghost predicate Abbreviates<V>(kept: map<string, V>, log: seq<Entry<V>>, dead: V -> bool) {
    forall key: string ::
      if key in kept then Latest(log, key) == Some(kept[key])
      else Latest(log, key).Some? ==> dead(Latest(log, key).value)
  }

  lemma AbbreviatesAfterWrite<V>(kept: map<string, V>, log: seq<Entry<V>>, dead: V -> bool, key: string, value: V)
    requires Abbreviates(kept, log, dead)
    ensures Abbreviates(kept[key := value], log + [Entry(key, value)], dead)
  {
    forall other: string
      ensures Latest(log + [Entry(key, value)], other) == if other == key then Some(value) else Latest(log, other)
    {
      LatestAfterAppend(log, key, value, other);
    }
  }

  // A nonce is used up from the moment it is added until the window has passed.

  predicate StillUsed(added: int, now: int, window: int) { now - added < window }

  function NonceDead(now: int, window: int): int -> bool { (added: int) => now - added > window }

  /** What `Exists` answers when nothing is ever deleted. */
  predicate UsedIn(log: seq<Entry<int>>, nonce: string, now: int, window: int) {
    match Latest(log, nonce)
    case None => false
    case Some(added) => StillUsed(added, now, window)
  }

  /** Entry `i` is the last one of its key. */
  ghost predicate IsLast<V>(log: seq<Entry<V>>, key: string, i: nat)
    requires i < |log|
  {
    log[i].key == key && forall j | i < j < |log| :: log[j].key != key
  }

  /** A nonce is refused while less than a window has passed since it was last added. */
  lemma {:induction false} UsedIff(log: seq<Entry<int>>, nonce: string, now: int, window: int)
    ensures UsedIn(log, nonce, now, window) <==>
      exists i | 0 <= i < |log| && IsLast(log, nonce, i) :: now - log[i].value < window
  {
    LatestIsTheLastEntry(log, nonce);
    if i :| 0 <= i < |log| && IsLast(log, nonce, i) {
      assert Latest(log, nonce).Some?;
      assert forall k | 0 <= k < |log| && IsLast(log, nonce, k) :: k == i;
    }
  }

  class NonceStore {
    const window: int
    var nonces: map<string, int>
    ghost var log: seq<Entry<int>>
    ghost var clock: int

    ghost predicate Valid()
      reads this
    {
      Abbreviates(nonces, log, NonceDead(clock, window))
    }

    constructor (window: int, ghost now: int)
      ensures Valid() && this.window == window && log == [] && clock == now
    {
      this.window := window;
      nonces, log, clock := map[], [], now;
    }

    method Add(nonce: string, now: int)
      requires Valid() && clock <= now
      modifies this
      ensures Valid() && clock == now
      ensures log == old(log) + [Entry(nonce, now)]
      ensures nonces == old(nonces)[nonce := now]
    {
      clock := now;
      AbbreviatesAfterWrite(nonces, log, NonceDead(clock, window), nonce, now);
      nonces := nonces[nonce := now];
      log := log + [Entry(nonce, now)];
    }

    /** Answers like the log, whatever was cleaned away before. */
    method Exists(nonce: string, now: int) returns (used: bool)
      requires Valid() && clock <= now
      ensures used <==> UsedIn(log, nonce, now, window)
    {
      return nonce in nonces && StillUsed(nonces[nonce], now, window);
    }

    /** Deletes exactly the entries that are dead now; the log, and so every answer, stays. */
    method Cleanup(now: int)
      requires Valid() && clock <= now
      modifies this
      ensures Valid() && clock == now && log == old(log)
      ensures nonces == map k | k in old(nonces) && old(nonces)[k] >= now - window :: old(nonces)[k]
    {
      var left := nonces.Keys;
      while left != {}
        invariant left <= old(nonces).Keys && log == old(log) && clock == old(clock)
        invariant nonces ==
          map k | k in old(nonces) && (k in left || old(nonces)[k] >= now - window) :: old(nonces)[k]
        decreases left
      {
        var nonce :| nonce in left;
        if now - nonces[nonce] > window {
          nonces := nonces - {nonce};
        }
        left := left - {nonce};
      }
      clock := now;
    }
  }

  // A stored receipt is served until its expiry has passed.

  datatype Expiring<+R> = Expiring(receipt: R, expiresAt: int)

  function ResultDead<R>(now: int): Expiring<R> -> bool { (e: Expiring<R>) => now > e.expiresAt }

  /** What `Get` answers when nothing is ever deleted. */
  function ServedFrom<R>(log: seq<Entry<Expiring<R>>>, key: string, now: int): Option<R> {
    match Latest(log, key)
    case None => None
    case Some(e) => if now > e.expiresAt then None else Some(e.receipt)
  }

  /** A key is served the receipt stored for it last, up to and including its expiry. */
  lemma {:induction false} ServedIff<R>(log: seq<Entry<Expiring<R>>>, key: string, now: int, receipt: R)
    ensures ServedFrom(log, key, now) == Some(receipt) <==>
      exists i | 0 <= i < |log| && IsLast(log, key, i) ::
        log[i].value.receipt == receipt && now <= log[i].value.expiresAt
  {
    LatestIsTheLastEntry(log, key);
    if i :| 0 <= i < |log| && IsLast(log, key, i) {
      assert Latest(log, key).Some?;
      assert forall k | 0 <= k < |log| && IsLast(log, key, k) :: k == i;
    }
  }

  class IdempotencyStore<R> {
    const ttl: int
    var entries: map<string, Expiring<R>>
    ghost var log: seq<Entry<Expiring<R>>>
    ghost var clock: int

    ghost predicate Valid()
      reads this
    {
      Abbreviates(entries, log, ResultDead(clock))
    }

    constructor (ttl: int, ghost now: int)
      ensures Valid() && this.ttl == ttl && log == [] && clock == now
    {
      this.ttl := ttl;
      entries, log, clock := map[], [], now;
    }

    method Store(key: string, receipt: R, now: int)
      requires Valid() && clock <= now
      modifies this
      ensures Valid() && clock == now
      ensures log == old(log) + [Entry(key, Expiring(receipt, now + ttl))]
      ensures entries == old(entries)[key := Expiring(receipt, now + ttl)]
    {
      var entry := Expiring(receipt, now + ttl);
      clock := now;
      AbbreviatesAfterWrite(entries, log, ResultDead(clock), key, entry);
      entries := entries[key := entry];
      log := log + [Entry(key, entry)];
    }

    method Get(key: string, now: int) returns (found: Option<R>)
      requires Valid() && clock <= now
      ensures found == ServedFrom(log, key, now)
    {
      if key !in entries || now > entries[key].expiresAt {
        return None;
      }
      return Some(entries[key].receipt);
    }

    method Cleanup(now: int)
      requires Valid() && clock <= now
      modifies this
      ensures Valid() && clock == now && log == old(log)
      ensures entries == map k | k in old(entries) && now <= old(entries)[k].expiresAt :: old(entries)[k]
    {
      var left := entries.Keys;
      while left != {}
        invariant left <= old(entries).Keys && log == old(log) && clock == old(clock)
        invariant entries ==
          map k | k in old(entries) && (k in left || now <= old(entries)[k].expiresAt) :: old(entries)[k]
        decreases left
      {
        var key :| key in left;
        if now > entries[key].expiresAt {
          entries := entries - {key};
        }
        left := left - {key};
      }
      clock := now;
    }
  }
}
