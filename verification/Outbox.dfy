/** The transactional outbox: a table of events and the dispatchers that claim, publish, retry and
    give up on them. Each database or broker call is a step of its own. */
module Outbox {
  import opened Options
  import opened Helpers

  datatype Status = Pending | Published | Failed

  datatype Row = Row(payload: string, status: Status, attempts: nat, nextAttemptAt: int, leasedUntil: Option<int>,
                     publishedAt: Option<int>, lastError: Option<string>, createdAt: int)

  /** Durations are whole milliseconds. */
  datatype Config = Config(batchSize: int, leaseMs: int, maxRetries: nat, initialBackoffMs: nat, maxBackoffMs: nat)

  // ------------------------------------------------------------------------------ one row

  function Power2(n: nat): nat { if n == 0 then 1 else 2 * Power2(n - 1) }

  function CappedDelay(c: Config, attempts: nat): nat {
    var raw := c.initialBackoffMs * Power2(if attempts >= 1 then attempts - 1 else 0);
    if raw < c.maxBackoffMs then raw else c.maxBackoffMs
  }

  /** `random` is a draw from zero up to, and not including, one. */
  function NextAttemptAt(c: Config, attempts: nat, now: int, random: real): int {
    var capped := CappedDelay(c, attempts);
    now + capped + Jitter(capped, random)
  }

  /** The delay doubles from one attempt to the next, starting at the initial one, within the
      maximum. */
  lemma DelayDoubles(c: Config, k: nat)
    requires k >= 1
    ensures CappedDelay(c, 1) == if c.initialBackoffMs < c.maxBackoffMs then c.initialBackoffMs else c.maxBackoffMs
    ensures CappedDelay(c, k + 1) ==
      if 2 * CappedDelay(c, k) < c.maxBackoffMs then 2 * CappedDelay(c, k) else c.maxBackoffMs
  {
    assert Power2(0) == 1 && Power2(k) == 2 * Power2(k - 1);
    var raw := c.initialBackoffMs * Power2(k - 1);
    assert c.initialBackoffMs * Power2(k) == 2 * raw;
  }

  function Jitter(capped: nat, random: real): int { (capped as real * random * 0.2).Floor }

  lemma JitterInRange(capped: nat, random: real)
    requires 0.0 <= random < 1.0
    ensures 0 <= 5 * Jitter(capped, random) <= capped
  {
    var product := capped as real * random;
    NotNegative(capped as real, random);
    NotNegative(capped as real, 1.0 - random);
    assert capped as real * (1.0 - random) == capped as real - product;
    var fifth := product * 0.2;
    assert fifth.Floor as real <= fifth;
    assert (5 * fifth.Floor) as real <= product;
  }

  lemma DelayGrows(c: Config, attempts: nat)
    ensures CappedDelay(c, attempts) <= CappedDelay(c, attempts + 1)
  {
    if attempts >= 1 {
      var a, b := Power2(attempts - 1), Power2(attempts);
      assert b == 2 * a;
      assert c.initialBackoffMs * a <= c.initialBackoffMs * a + c.initialBackoffMs * a == c.initialBackoffMs * b;
    }
  }

  /** The wait lies between the capped delay and a fifth more, so never past the maximum and a
      fifth; without jitter it does not shrink from one attempt to the next. */
  lemma BackoffInRange(c: Config, attempts: nat, now: int, random: real)
    requires 0.0 <= random < 1.0
    ensures
      var capped := CappedDelay(c, attempts);
      && now + capped <= NextAttemptAt(c, attempts, now, random)
      && 5 * (NextAttemptAt(c, attempts, now, random) - now) <= 6 * capped <= 6 * c.maxBackoffMs
    ensures CappedDelay(c, attempts) <= CappedDelay(c, attempts + 1)
  {
    JitterInRange(CappedDelay(c, attempts), random);
    DelayGrows(c, attempts);
  }

  function MarkPublished(row: Row, now: int): Row {
    row.(status := Published, publishedAt := Some(now), leasedUntil := None, lastError := None)
  }

  /** The catch branch; it runs on the object as it stands, published or not. */
  function MarkFailure(c: Config, row: Row, error: string, now: int, random: real): Row {
    var again := row.(attempts := row.attempts + 1, leasedUntil := None, lastError := Some(error[..Short(error)]));
    if again.attempts > c.maxRetries then again.(status := Failed)
    else again.(nextAttemptAt := NextAttemptAt(c, again.attempts, now, random))
  }

  function Short(error: string): nat { if |error| < 1024 then |error| else 1024 }

  predicate Due(row: Row, now: int) {
    row.status.Pending? && row.nextAttemptAt <= now && (row.leasedUntil.None? || row.leasedUntil.value <= now)
  }

  /** Whether a claimed event is still to be published when its turn comes. */
  predicate StillLeased(row: Row, now: int) {
    row.status.Pending? && row.leasedUntil.Some? && row.leasedUntil.value >= now
  }

  predicate Earlier(a: Row, b: Row) {
    a.nextAttemptAt < b.nextAttemptAt || (a.nextAttemptAt == b.nextAttemptAt && a.createdAt <= b.createdAt)
  }

  function Take(c: Config): nat { if c.batchSize >= 1 then c.batchSize else 1 }

  /** A result of the claiming query: due rows that nobody has locked, in order, as many as asked
      for, and none passed over for a later one. */
  ghost predicate IsBatch(c: Config, rows: map<string, Row>, now: int, locked: set<string>, ids: seq<string>) {
    && (forall i | 0 <= i < |ids| :: ids[i] in rows && ids[i] !in locked && Due(rows[ids[i]], now))
    && (forall i, j | 0 <= i < j < |ids| :: ids[i] != ids[j] && Earlier(rows[ids[i]], rows[ids[j]]))
    && |ids| <= Take(c)
    && (forall id | id in rows && id !in locked && Due(rows[id], now) && id !in ids ::
          |ids| == Take(c) && forall i | 0 <= i < |ids| :: Earlier(rows[ids[i]], rows[id]))
  }

  function Leased(rows: map<string, Row>, ids: set<string>, lease: int): map<string, Row> {
    map id | id in rows :: if id in ids then rows[id].(leasedUntil := Some(lease)) else rows[id]
  }

  function SetOf(ids: seq<string>): set<string> { set id | id in ids }

  /** The claiming loop. */
  method LeaseAll(rows: map<string, Row>, ids: seq<string>, lease: int) returns (after: map<string, Row>)
    requires forall id | id in ids :: id in rows
    ensures after == Leased(rows, SetOf(ids), lease)
  {
    after := rows;
    for i := 0 to |ids|
      invariant after == Leased(rows, SetOf(ids[..i]), lease)
    {
      assert ids[..i + 1] == ids[..i] + [ids[i]];
      assert ids[i] in ids;
      after := after[ids[i] := after[ids[i]].(leasedUntil := Some(lease))];
    }
    assert ids[..|ids|] == ids;
  }

  function Flatten(chunks: seq<seq<string>>): seq<string> {
    if chunks == [] then [] else Flatten(chunks[..|chunks| - 1]) + chunks[|chunks| - 1]
  }

  /** The loop that hands the claimed events to the workers: each one once, in order, never more
      at a time than there are workers. */
  method Chunks(ids: seq<string>, workers: int) returns (chunks: seq<seq<string>>)
    ensures Flatten(chunks) == ids
    ensures forall chunk | chunk in chunks :: 0 < |chunk| <= if workers >= 1 then workers else 1
  {
    var workerSize := if workers >= 1 then workers else 1;
    chunks := [];
    var i := 0;
    while i < |ids|
      invariant 0 <= i <= |ids| && Flatten(chunks) == ids[..i]
      invariant forall chunk | chunk in chunks :: 0 < |chunk| <= workerSize
    {
      var end := if i + workerSize < |ids| then i + workerSize else |ids|;
      assert ids[..end] == ids[..i] + ids[i..end];
      assert (chunks + [ids[i..end]])[..|chunks|] == chunks;
      chunks := chunks + [ids[i..end]];
      i := end;
    }
    assert ids[..|ids|] == ids;
  }

  /** The claiming query in plain terms: what it returns is pending, its time has come, and nobody
      holds a lease on it; and it returns all such rows, or as many as were asked for. */
  lemma BatchMeans(c: Config, rows: map<string, Row>, now: int, locked: set<string>, ids: seq<string>, id: string)
    requires IsBatch(c, rows, now, locked, ids) && id in rows
    ensures id in ids ==>
      && rows[id].status == Pending && rows[id].nextAttemptAt <= now && id !in locked
      && (rows[id].leasedUntil == None || rows[id].leasedUntil.value <= now)
    ensures id !in ids && id !in locked && rows[id].status == Pending && rows[id].nextAttemptAt <= now
            && (rows[id].leasedUntil == None || rows[id].leasedUntil.value <= now) ==>
      && |ids| == (if c.batchSize > 1 then c.batchSize else 1)
      && forall other | other in ids :: other in rows && rows[other].nextAttemptAt <= rows[id].nextAttemptAt
  {
    if id in ids {
      var i :| 0 <= i < |ids| && ids[i] == id;
    }
    forall other | other in ids && Due(rows[id], now) && id !in ids && id !in locked
      ensures other in rows && rows[other].nextAttemptAt <= rows[id].nextAttemptAt
    {
      var i :| 0 <= i < |ids| && ids[i] == other;
    }
  }

  // ------------------------------------------------------------------------- the whole system

  /** How far a dispatcher is with one event, and the event object as it has it in memory. */
  datatype Phase = Loaded | Saving | Recovering

  datatype Task = Task(phase: Phase, row: Row)

  /** `batch` is claimed and not looked at yet; while anything is outstanding no tick starts. */
  datatype Dispatcher = Dispatcher(lease: int, batch: set<string>, tasks: map<string, Task>)

  datatype World = World(clock: int, rows: map<string, Row>, dispatchers: map<nat, Dispatcher>, sent: set<string>)

  /** `ok`: the call reports success. `applied`: a save that reports failure was written all the
      same; nothing depends on what the save in the catch branch reports. */
  datatype Event =
    | Elapse(ms: nat)
    | Enqueue(id: string, payload: string)
    | Claim(d: nat, ids: seq<string>, locked: set<string>)
    | Load(d: nat, id: string)
    | Publish(d: nat, id: string, ok: bool, error: string, random: real)
    | Save(d: nat, id: string, ok: bool, applied: bool, error: string, random: real)
    | SaveFailure(d: nat, id: string, applied: bool)
    | Crash(d: nat)

  function Outstanding(p: Dispatcher): set<string> { p.batch + p.tasks.Keys }

  function Idle(): Dispatcher { Dispatcher(0, {}, map[]) }

  function Of(w: World, d: nat): Dispatcher { if d in w.dispatchers then w.dispatchers[d] else Idle() }

  function Put(w: World, d: nat, p: Dispatcher): World { w.(dispatchers := w.dispatchers[d := p]) }

  function WithTask(p: Dispatcher, id: string, t: Task): Dispatcher {
    p.(batch := p.batch - {id}, tasks := p.tasks[id := t])
  }

  function Without(p: Dispatcher, id: string): Dispatcher { p.(batch := p.batch - {id}, tasks := p.tasks - {id}) }

  /** The step that a dispatcher takes with one of its events, when it is the next one due. */
  ghost function TaskStep(c: Config, w: World, e: Event): World
    requires e.Load? || e.Publish? || e.Save? || e.SaveFailure?
  {
    var p := Of(w, e.d);
    match e
    case Load(d, id) =>
      if id !in p.batch then w
      else if id in w.rows && StillLeased(w.rows[id], w.clock) then Put(w, d, WithTask(p, id, Task(Loaded, w.rows[id])))
      else Put(w, d, Without(p, id))
    case Publish(d, id, ok, error, random) =>
      if id !in p.tasks || p.tasks[id].phase != Loaded then w
      else if ok then
        Put(w, d, WithTask(p, id, Task(Saving, MarkPublished(p.tasks[id].row, w.clock)))).(sent := w.sent + {id})
      else Put(w, d, WithTask(p, id, Task(Recovering, MarkFailure(c, p.tasks[id].row, error, w.clock, random))))
    case Save(d, id, ok, applied, error, random) =>
      if id !in p.tasks || p.tasks[id].phase != Saving then w
      else
        var row := p.tasks[id].row;
        var rows := if ok || applied then w.rows[id := row] else w.rows;
        if ok then Put(w, d, Without(p, id)).(rows := rows)
        else Put(w, d, WithTask(p, id, Task(Recovering, MarkFailure(c, row, error, w.clock, random)))).(rows := rows)
    case SaveFailure(d, id, applied) =>
      if id !in p.tasks || p.tasks[id].phase != Recovering then w
      else if applied then Put(w, d, Without(p, id)).(rows := w.rows[id := p.tasks[id].row])
      else Put(w, d, Without(p, id))
  }

  /** A tick starts only when the one before is over. */
  ghost predicate MayClaim(c: Config, w: World, d: nat, ids: seq<string>, locked: set<string>) {
    Outstanding(Of(w, d)) == {} && IsBatch(c, w.rows, w.clock, locked, ids)
  }

  function Claimed(w: World, d: nat, ids: seq<string>, lease: int): World {
    Put(w, d, Dispatcher(lease, SetOf(ids), map[])).(rows := Leased(w.rows, SetOf(ids), lease))
  }

  ghost function Step(c: Config, w: World, e: Event): World {
    match e
    case Elapse(ms) => w.(clock := w.clock + ms)
    case Enqueue(id, payload) =>
      if id in w.rows then w
      else w.(rows := w.rows[id := Row(payload, Pending, 0, w.clock, None, None, None, w.clock)])
    case Claim(d, ids, locked) =>
      if MayClaim(c, w, d, ids, locked) then Claimed(w, d, ids, w.clock + c.leaseMs) else w
    case Crash(d) => Put(w, d, Idle())
    case _ => TaskStep(c, w, e)
  }

  ghost function Run(c: Config, start: World, events: seq<Event>): World {
    if events == [] then start
    else Step(c, Run(c, start, events[..|events| - 1]), events[|events| - 1])
  }

  /** Nobody claims while somebody else is still at work on a batch whose lease has run out. */
  ghost predicate NoOverrun(w: World, e: Event) {
    e.Claim? ==>
      forall d | d in w.dispatchers && d != e.d && Outstanding(w.dispatchers[d]) != {} ::
        w.clock < w.dispatchers[d].lease
  }

  ghost predicate NoOverruns(c: Config, start: World, events: seq<Event>) {
    events == [] ||
    var front := events[..|events| - 1];
    NoOverruns(c, start, front) && NoOverrun(Run(c, start, front), events[|events| - 1])
  }
}
