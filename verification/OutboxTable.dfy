/** The outbox service's own operations on the table, step by step, and their agreement with the
    interleaved system. */
module OutboxTable {
  import opened Options
  import opened Outbox

  /** How one attempt goes: the broker call, the save after it and whether that was written though
      it reports failure, and whether the save in the catch branch is written. */
  datatype Results = Results(published: bool, saved: bool, applied: bool, recorded: bool, error: string, random: real)

  /** The table after one claimed event has been worked on; `now`, `sentAt` and `failedAt` are the
      clock when it is loaded, sent and given up for this time. */
  function Worked(c: Config, rows: map<string, Row>, id: string, r: Results, now: int, sentAt: int,
                  failedAt: int): map<string, Row> {
    if id in rows && StillLeased(rows[id], now) then Written(c, rows, id, rows[id], r, sentAt, failedAt) else rows
  }

  function Written(c: Config, rows: map<string, Row>, id: string, row: Row, r: Results, sentAt: int,
                   failedAt: int): map<string, Row> {
    var sent := if r.published then MarkPublished(row, sentAt) else row;
    if r.published && r.saved then rows[id := sent]
    else if r.recorded then rows[id := MarkFailure(c, sent, r.error, failedAt, r.random)]
    else if r.published && r.applied then rows[id := sent]
    else rows
  }

  /** The delay before the retry that follows failed attempt number `k`, jitter aside: the lesser of
      the maximum and the initial delay doubled `k - 1` times. */
  function Delay(c: Config, k: nat): nat
    requires k >= 1
  {
    var doubled := if k == 1 then c.initialBackoffMs else 2 * Delay(c, k - 1);
    if doubled < c.maxBackoffMs then doubled else c.maxBackoffMs
  }

  lemma {:induction false} DelayIsCapped(c: Config, k: nat)
    requires k >= 1
    ensures CappedDelay(c, k) == Delay(c, k)
  {
    if k == 1 {
      DelayDoubles(c, 1);
    } else {
      DelayIsCapped(c, k - 1);
      DelayDoubles(c, k - 1);
    }
  }

  lemma RetryInRange(c: Config, k: nat, failedAt: int, random: real)
    requires k >= 1 && 0.0 <= random < 1.0
    ensures 5 * Delay(c, k) <= 5 * (NextAttemptAt(c, k, failedAt, random) - failedAt) <= 6 * Delay(c, k)
  {
    DelayIsCapped(c, k);
    BackoffInRange(c, k, failedAt, random);
  }

  class TransactionOutbox {
    const config: Config
    var rows: map<string, Row>

    constructor (config: Config)
      ensures this.config == config && rows == map[]
    {
      this.config, rows := config, map[];
    }

    /** `id` is a new one, as the database makes them. */
    method Enqueue(id: string, payload: string, now: int)
      requires id !in rows
      modifies this
      ensures rows == old(rows)[id := Row(payload, Pending, 0, now, None, None, None, now)]
      ensures Due(rows[id], now)
    {
      rows := rows[id := Row(payload, Pending, 0, now, None, None, None, now)];
    }

    /** `due` is the result of the claiming query. */
    method ClaimDueEvents(due: seq<string>, ghost locked: set<string>, now: int)
      requires IsBatch(config, rows, now, locked, due)
      modifies this
      ensures rows == Leased(old(rows), SetOf(due), now + config.leaseMs)
      ensures rows.Keys == old(rows).Keys
      ensures forall id | id in rows ::
        rows[id] == if id in due then old(rows)[id].(leasedUntil := Some(now + config.leaseMs)) else old(rows)[id]
      ensures config.leaseMs > 0 ==>
        forall id | id in due :: id in rows && StillLeased(rows[id], now) && !Due(rows[id], now)
    {
      forall id | id in due ensures id in rows && Due(rows[id], now) {
        var i :| 0 <= i < |due| && due[i] == id;
      }
      rows := LeaseAll(rows, due, now + config.leaseMs);
    }

    method PublishClaimedEvent(id: string, r: Results, now: int, sentAt: int, failedAt: int)
      modifies this
      ensures rows == Worked(config, old(rows), id, r, now, sentAt, failedAt)
      ensures
        var working := id in old(rows) && old(rows)[id].status == Pending
                       && old(rows)[id].leasedUntil != None && old(rows)[id].leasedUntil.value >= now;
        && (!working ==> rows == old(rows))
        && (working && r.published && r.saved ==>
              rows == old(rows)[id := old(rows)[id].(status := Published, publishedAt := Some(sentAt),
                                                     leasedUntil := None, lastError := None)])
        && (working && !r.published && r.recorded ==>
              && rows.Keys == old(rows).Keys && rows[id].attempts == old(rows)[id].attempts + 1
              && rows[id].leasedUntil == None
              && rows[id].lastError == Some(if |r.error| <= 1024 then r.error else r.error[..1024])
              && (rows[id].status == if rows[id].attempts > config.maxRetries then Failed else Pending)
              && (rows[id].status == Pending && 0.0 <= r.random < 1.0 ==>
                    var d := Delay(config, rows[id].attempts);
                    5 * d <= 5 * (rows[id].nextAttemptAt - failedAt) <= 6 * d))
    {
      if id !in rows {
        return;
      }
      var evt := rows[id];
      if evt.status != Pending {
        return;
      }
      if evt.leasedUntil == None || evt.leasedUntil.value < now {
        return;
      }
      if r.published {
        evt := evt.(status := Published);
        evt := evt.(publishedAt := Some(sentAt));
        evt := evt.(leasedUntil := None);
        evt := evt.(lastError := None);
        if r.saved || r.applied {
          rows := rows[id := evt];
        }
        if r.saved {
          return;
        }
      }
      evt := evt.(attempts := evt.attempts + 1);
      evt := evt.(leasedUntil := None);
      assert r.error[..|r.error|] == r.error;
      evt := evt.(lastError := Some(r.error[..Short(r.error)]));
      if evt.attempts > config.maxRetries {
        evt := evt.(status := Failed);
      } else {
        evt := evt.(nextAttemptAt := NextAttemptAt(config, evt.attempts, failedAt, r.random));
        if 0.0 <= r.random < 1.0 {
          RetryInRange(config, evt.attempts, failedAt, r.random);
        }
      }
      if r.recorded {
        rows := rows[id := evt];
      }
    }
  }

  lemma LoadStarts(c: Config, w: World, d: nat, id: string)
    requires d in w.dispatchers && id in w.dispatchers[d].batch && id !in w.dispatchers[d].tasks
    ensures
      var w' := Step(c, w, Load(d, id));
      && w'.rows == w.rows && w'.clock == w.clock && d in w'.dispatchers && id !in w'.dispatchers[d].batch
      && (if id in w.rows && StillLeased(w.rows[id], w.clock)
          then id in w'.dispatchers[d].tasks && w'.dispatchers[d].tasks[id] == Task(Loaded, w.rows[id])
          else id !in w'.dispatchers[d].tasks)
  {}

  /** From a loaded event, sending and the two saves; from none, nothing happens. */
  lemma LoadedFinishes(c: Config, w: World, d: nat, id: string, r: Results, saving: nat)
    requires d in w.dispatchers && id !in w.dispatchers[d].batch
    requires id in w.dispatchers[d].tasks ==> w.dispatchers[d].tasks[id].phase == Loaded
    ensures
      var w2 := Step(c, w, Publish(d, id, r.published, r.error, r.random));
      var w3 := Step(c, Step(c, w2, Elapse(saving)), Save(d, id, r.saved, r.applied, r.error, r.random));
      Step(c, w3, SaveFailure(d, id, r.recorded)).rows ==
        if id in w.dispatchers[d].tasks
        then Written(c, w.rows, id, w.dispatchers[d].tasks[id].row, r, w.clock,
                     if r.published then w.clock + saving else w.clock)
        else w.rows
  {
    var w2 := Step(c, w, Publish(d, id, r.published, r.error, r.random));
    var w3 := Step(c, Step(c, w2, Elapse(saving)), Save(d, id, r.saved, r.applied, r.error, r.random));
    assert d in w2.dispatchers && w2.rows == w.rows && id !in w2.dispatchers[d].batch;
    assert id in w2.dispatchers[d].tasks <==> id in w.dispatchers[d].tasks;
    assert d in w3.dispatchers;
  }

  /** The system's steps for one event, with nothing between them but time, do what the method
      does. */
  lemma StepsDoTheWork(c: Config, w: World, d: nat, id: string, r: Results, sending: nat, saving: nat)
    requires d in w.dispatchers && id in w.dispatchers[d].batch && id !in w.dispatchers[d].tasks
    ensures
      var w1 := Step(c, Step(c, w, Load(d, id)), Elapse(sending));
      var w2 := Step(c, w1, Publish(d, id, r.published, r.error, r.random));
      var w3 := Step(c, Step(c, w2, Elapse(saving)), Save(d, id, r.saved, r.applied, r.error, r.random));
      var sentAt := w.clock + sending;
      Step(c, w3, SaveFailure(d, id, r.recorded)).rows ==
        Worked(c, w.rows, id, r, w.clock, sentAt, if r.published then sentAt + saving else sentAt)
  {
    LoadStarts(c, w, d, id);
    LoadedFinishes(c, Step(c, Step(c, w, Load(d, id)), Elapse(sending)), d, id, r, saving);
  }
}
