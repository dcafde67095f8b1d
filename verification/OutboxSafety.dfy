/** What every run of the outbox keeps, as long as nobody claims during another's overrun: one
    worker per event, final states that stay final, and honest bookkeeping. */
module OutboxSafety {
  import opened Options
  import opened Outbox

  /** FAILED exactly after the last retry, PUBLISHED only when really sent, no lease on either. */
  ghost predicate RowOk(c: Config, sent: set<string>, id: string, row: Row) {
    && row.attempts <= c.maxRetries + 1
    && (row.status.Failed? <==> row.attempts == c.maxRetries + 1)
    && (row.status.Published? ==> id in sent && row.publishedAt.Some?)
    && (!row.status.Pending? ==> row.leasedUntil.None?)
  }

  ghost predicate RowsOk(c: Config, sent: set<string>, rows: map<string, Row>) {
    forall id | id in rows :: RowOk(c, sent, id, rows[id])
  }

  /** The object in memory against the row it was read from. */
  ghost predicate TaskOk(c: Config, sent: set<string>, id: string, t: Task, row: Row) {
    && RowOk(c, sent, id, t.row) && t.row.payload == row.payload
    && match t.phase
       case Loaded => t.row == row
       case Saving => t.row.status.Published? && t.row.attempts == row.attempts
       case Recovering =>
         t.row.attempts == row.attempts + 1 && (row.status.Published? ==> !t.row.status.Pending?)
  }

  /** What is outstanding is pending under the dispatcher's own lease, or has been written as
      PUBLISHED by a save that reported failure. */
  ghost predicate Held(p: Dispatcher, id: string, row: Row) {
    || (row.status.Pending? && row.leasedUntil == Some(p.lease))
    || (row.status.Published? && id in p.tasks && p.tasks[id].phase == Recovering)
  }

  ghost predicate DispatcherOk(c: Config, sent: set<string>, rows: map<string, Row>, p: Dispatcher) {
    && p.batch !! p.tasks.Keys
    && (forall id | id in Outstanding(p) :: id in rows && Held(p, id, rows[id]))
    && forall id | id in p.tasks :: id in rows && TaskOk(c, sent, id, p.tasks[id], rows[id])
  }

  ghost predicate AllOk(c: Config, sent: set<string>, rows: map<string, Row>, ps: map<nat, Dispatcher>) {
    forall d | d in ps :: DispatcherOk(c, sent, rows, ps[d])
  }

  /** No event is with two dispatchers at once. */
  ghost predicate Apart(ps: map<nat, Dispatcher>) {
    forall d, d' | d in ps && d' in ps && d != d' :: Outstanding(ps[d]) !! Outstanding(ps[d'])
  }

  ghost predicate Inv(c: Config, w: World) {
    RowsOk(c, w.sent, w.rows) && AllOk(c, w.sent, w.rows, w.dispatchers) && Apart(w.dispatchers)
  }

  predicate Initial(w: World) { w.rows == map[] && w.dispatchers == map[] }

  // ------------------------------------------------------------------------------- one change

  /** A dispatcher gives something up or moves on with a task; others are not concerned. */
  lemma PutKeeps(c: Config, sent: set<string>, rows: map<string, Row>, ps: map<nat, Dispatcher>, d: nat, p: Dispatcher)
    requires AllOk(c, sent, rows, ps) && Apart(ps) && DispatcherOk(c, sent, rows, p)
    requires Outstanding(p) <= if d in ps then Outstanding(ps[d]) else {}
    ensures AllOk(c, sent, rows, ps[d := p]) && Apart(ps[d := p])
  {}

  /** A row that one dispatcher had outstanding, and has no longer, is rewritten. */
  lemma RewriteKeeps(c: Config, sent: set<string>, rows: map<string, Row>, ps: map<nat, Dispatcher>, id: string,
                     row: Row)
    requires AllOk(c, sent, rows, ps) && RowsOk(c, sent, rows) && RowOk(c, sent, id, row)
    requires forall d | d in ps :: id !in Outstanding(ps[d])
    ensures AllOk(c, sent, rows[id := row], ps) && RowsOk(c, sent, rows[id := row])
  {
    forall d | d in ps ensures DispatcherOk(c, sent, rows[id := row], ps[d]) {
      assert DispatcherOk(c, sent, rows, ps[d]);
    }
  }

  lemma SendKeeps(c: Config, sent: set<string>, rows: map<string, Row>, ps: map<nat, Dispatcher>, id: string)
    requires AllOk(c, sent, rows, ps) && RowsOk(c, sent, rows)
    ensures AllOk(c, sent + {id}, rows, ps) && RowsOk(c, sent + {id}, rows)
  {
    forall d | d in ps ensures DispatcherOk(c, sent + {id}, rows, ps[d]) {
      assert DispatcherOk(c, sent, rows, ps[d]);
    }
  }

  lemma TaskMoves(c: Config, sent: set<string>, rows: map<string, Row>, p: Dispatcher, id: string, t: Task)
    requires DispatcherOk(c, sent, rows, p) && id in Outstanding(p) && TaskOk(c, sent, id, t, rows[id])
    requires rows[id].status.Pending?
    ensures DispatcherOk(c, sent, rows, WithTask(p, id, t)) && Outstanding(WithTask(p, id, t)) == Outstanding(p)
  {}

  lemma TaskEnds(c: Config, sent: set<string>, rows: map<string, Row>, p: Dispatcher, id: string)
    requires DispatcherOk(c, sent, rows, p)
    ensures DispatcherOk(c, sent, rows, Without(p, id)) && Outstanding(Without(p, id)) == Outstanding(p) - {id}
  {}

  /** The catch branch on an object that is not FAILED yet, against the row it was read from or
      the same object written. */
  lemma FailureOk(c: Config, sent: set<string>, id: string, evt: Row, row: Row, error: string, now: int, random: real)
    requires RowOk(c, sent, id, evt) && !evt.status.Failed?
    requires evt.attempts == row.attempts && evt.payload == row.payload && (row.status.Pending? || row == evt)
    ensures TaskOk(c, sent, id, Task(Recovering, MarkFailure(c, evt, error, now, random)), row)
  {}

  /** A dispatcher writes back its object and is done with the event. */
  lemma WriteBackParts(c: Config, w: World, d: nat, id: string)
    requires Inv(c, w) && d in w.dispatchers && id in w.dispatchers[d].tasks
    ensures
      var p := w.dispatchers[d];
      var rows', ps := w.rows[id := p.tasks[id].row], w.dispatchers[d := Without(p, id)];
      RowsOk(c, w.sent, rows') && AllOk(c, w.sent, rows', ps) && Apart(ps)
  {
    var p := w.dispatchers[d];
    assert DispatcherOk(c, w.sent, w.rows, p);
    TaskEnds(c, w.sent, w.rows, p, id);
    PutKeeps(c, w.sent, w.rows, w.dispatchers, d, Without(p, id));
    var ps := w.dispatchers[d := Without(p, id)];
    forall d' | d' in ps ensures id !in Outstanding(ps[d']) {
      assert d' != d ==> Outstanding(w.dispatchers[d']) !! Outstanding(p);
    }
    RewriteKeeps(c, w.sent, w.rows, ps, id, p.tasks[id].row);
  }

  lemma WriteBackKeeps(c: Config, w: World, d: nat, id: string)
    requires Inv(c, w) && d in w.dispatchers && id in w.dispatchers[d].tasks
    ensures
      var p := w.dispatchers[d];
      Inv(c, Put(w, d, Without(p, id)).(rows := w.rows[id := p.tasks[id].row]))
  {
    WriteBackParts(c, w, d, id);
  }

  lemma MoveKeeps(c: Config, w: World, d: nat, id: string, t: Task)
    requires Inv(c, w) && d in w.dispatchers && id in Outstanding(w.dispatchers[d])
    requires id in w.rows && w.rows[id].status.Pending? && TaskOk(c, w.sent, id, t, w.rows[id])
    ensures Inv(c, Put(w, d, WithTask(w.dispatchers[d], id, t)))
  {
    TaskMoves(c, w.sent, w.rows, w.dispatchers[d], id, t);
    PutKeeps(c, w.sent, w.rows, w.dispatchers, d, WithTask(w.dispatchers[d], id, t));
  }

  /** A save is written but reports failure: the row is final, and its dispatcher goes on. */
  lemma LostSaveKeeps(c: Config, w: World, d: nat, id: string, t: Task)
    requires Inv(c, w) && d in w.dispatchers && id in w.dispatchers[d].tasks
    requires w.dispatchers[d].tasks[id].row.status.Published? && t.phase == Recovering
    requires TaskOk(c, w.sent, id, t, w.dispatchers[d].tasks[id].row)
    ensures
      var p := w.dispatchers[d];
      var rows', ps' := w.rows[id := p.tasks[id].row], w.dispatchers[d := WithTask(p, id, t)];
      RowsOk(c, w.sent, rows') && AllOk(c, w.sent, rows', ps') && Apart(ps')
  {
    var p := w.dispatchers[d];
    var rows', ps := w.rows[id := p.tasks[id].row], w.dispatchers[d := Without(p, id)];
    WriteBackParts(c, w, d, id);
    OtherDispatchersApart(c, w, d, id, t);
    TakeBackKeeps(c, w.sent, rows', ps, d, id, t);
    assert ps[d := WithTask(p, id, t)] == w.dispatchers[d := WithTask(p, id, t)];
    assert WithTask(Without(p, id), id, t) == WithTask(p, id, t);
  }

  lemma OtherDispatchersApart(c: Config, w: World, d: nat, id: string, t: Task)
    requires Inv(c, w) && d in w.dispatchers && id in w.dispatchers[d].tasks
    ensures forall d' | d' in w.dispatchers && d' != d ::
      Outstanding(w.dispatchers[d']) !! Outstanding(WithTask(w.dispatchers[d], id, t))
  {
    assert Outstanding(WithTask(w.dispatchers[d], id, t)) == Outstanding(w.dispatchers[d]);
  }

  lemma TakeBackKeeps(c: Config, sent: set<string>, rows: map<string, Row>, ps: map<nat, Dispatcher>, d: nat,
                      id: string, t: Task)
    requires AllOk(c, sent, rows, ps) && Apart(ps) && d in ps
    requires id in rows && rows[id].status.Published? && t.phase == Recovering && TaskOk(c, sent, id, t, rows[id])
    requires forall d' | d' in ps && d' != d :: Outstanding(ps[d']) !! Outstanding(WithTask(ps[d], id, t))
    ensures AllOk(c, sent, rows, ps[d := WithTask(ps[d], id, t)]) && Apart(ps[d := WithTask(ps[d], id, t)])
  {
    TakenBackOk(c, sent, rows, ps[d], id, t);
  }

  lemma TakenBackOk(c: Config, sent: set<string>, rows: map<string, Row>, p: Dispatcher, id: string, t: Task)
    requires DispatcherOk(c, sent, rows, p) && id in rows && rows[id].status.Published? && t.phase == Recovering
    requires TaskOk(c, sent, id, t, rows[id])
    ensures DispatcherOk(c, sent, rows, WithTask(p, id, t))
  {}

  lemma DropKeeps(c: Config, w: World, d: nat, id: string)
    requires Inv(c, w) && d in w.dispatchers
    ensures Inv(c, Put(w, d, Without(w.dispatchers[d], id)))
  {
    TaskEnds(c, w.sent, w.rows, w.dispatchers[d], id);
    PutKeeps(c, w.sent, w.rows, w.dispatchers, d, Without(w.dispatchers[d], id));
  }

  // ------------------------------------------------------------------------------- one step

  lemma PublishKeeps(c: Config, w: World, e: Event)
    requires Inv(c, w) && e.Publish? && e.d in w.dispatchers
    requires e.id in w.dispatchers[e.d].tasks && w.dispatchers[e.d].tasks[e.id].phase == Loaded
    ensures Inv(c, TaskStep(c, w, e))
  {
    var p, id := w.dispatchers[e.d], e.id;
    assert DispatcherOk(c, w.sent, w.rows, p) && Held(p, id, w.rows[id]) && RowOk(c, w.sent, id, w.rows[id]);
    if e.ok {
      SendKeeps(c, w.sent, w.rows, w.dispatchers, id);
      MoveKeeps(c, w.(sent := w.sent + {id}), e.d, id, Task(Saving, MarkPublished(p.tasks[id].row, w.clock)));
    } else {
      FailureOk(c, w.sent, id, p.tasks[id].row, w.rows[id], e.error, w.clock, e.random);
      MoveKeeps(c, w, e.d, id, Task(Recovering, MarkFailure(c, p.tasks[id].row, e.error, w.clock, e.random)));
    }
  }

  lemma SaveKeeps(c: Config, w: World, e: Event)
    requires Inv(c, w) && e.Save? && e.d in w.dispatchers
    requires e.id in w.dispatchers[e.d].tasks && w.dispatchers[e.d].tasks[e.id].phase == Saving
    ensures Inv(c, TaskStep(c, w, e))
  {
    var p, id := w.dispatchers[e.d], e.id;
    var evt := p.tasks[id].row;
    assert DispatcherOk(c, w.sent, w.rows, p) && Held(p, id, w.rows[id]) && RowOk(c, w.sent, id, w.rows[id]);
    var t := Task(Recovering, MarkFailure(c, evt, e.error, w.clock, e.random));
    if e.ok {
      WriteBackKeeps(c, w, e.d, id);
    } else if e.applied {
      FailureOk(c, w.sent, id, evt, evt, e.error, w.clock, e.random);
      LostSaveKeeps(c, w, e.d, id, t);
    } else {
      FailureOk(c, w.sent, id, evt, w.rows[id], e.error, w.clock, e.random);
      MoveKeeps(c, w, e.d, id, t);
    }
  }

  lemma TaskStepKeeps(c: Config, w: World, e: Event)
    requires Inv(c, w) && (e.Load? || e.Publish? || e.Save? || e.SaveFailure?)
    ensures Inv(c, TaskStep(c, w, e))
  {
    if e.d in w.dispatchers {
      var p, id := w.dispatchers[e.d], e.id;
      assert DispatcherOk(c, w.sent, w.rows, p);
      if e.Load? && id in p.batch {
        assert Held(p, id, w.rows[id]) && RowOk(c, w.sent, id, w.rows[id]);
        if StillLeased(w.rows[id], w.clock) {
          MoveKeeps(c, w, e.d, id, Task(Loaded, w.rows[id]));
        } else {
          DropKeeps(c, w, e.d, id);
        }
      } else if e.Publish? && id in p.tasks && p.tasks[id].phase == Loaded {
        PublishKeeps(c, w, e);
      } else if e.Save? && id in p.tasks && p.tasks[id].phase == Saving {
        SaveKeeps(c, w, e);
      } else if e.SaveFailure? && id in p.tasks && p.tasks[id].phase == Recovering {
        if e.applied {
          WriteBackKeeps(c, w, e.d, id);
        } else {
          DropKeeps(c, w, e.d, id);
        }
      }
    }
  }

  lemma BatchIsDue(c: Config, rows: map<string, Row>, now: int, locked: set<string>, ids: seq<string>)
    requires IsBatch(c, rows, now, locked, ids)
    ensures forall id | id in SetOf(ids) :: id in rows && Due(rows[id], now)
  {
    forall id | id in SetOf(ids) ensures id in rows && Due(rows[id], now) {
      var i :| 0 <= i < |ids| && ids[i] == id;
    }
  }

  lemma ClaimKeeps(c: Config, w: World, d: nat, ids: seq<string>, locked: set<string>, lease: int)
    requires Inv(c, w) && MayClaim(c, w, d, ids, locked)
    requires NoOverrun(w, Claim(d, ids, locked))
    ensures Inv(c, Claimed(w, d, ids, lease))
  {
    var mine := Dispatcher(lease, SetOf(ids), map[]);
    var rows' := Leased(w.rows, SetOf(ids), lease);
    BatchIsDue(c, w.rows, w.clock, locked, ids);
    forall d' | d' in w.dispatchers && d' != d
      ensures Outstanding(w.dispatchers[d']) !! SetOf(ids) && DispatcherOk(c, w.sent, rows', w.dispatchers[d'])
    {
      OthersUntouched(c, w, w.dispatchers[d'], SetOf(ids), lease);
    }
    assert Outstanding(mine) == SetOf(ids);
  }

  lemma OthersUntouched(c: Config, w: World, p: Dispatcher, ids: set<string>, lease: int)
    requires DispatcherOk(c, w.sent, w.rows, p) && (Outstanding(p) != {} ==> w.clock < p.lease)
    requires forall id | id in ids :: id in w.rows && Due(w.rows[id], w.clock)
    ensures Outstanding(p) !! ids && DispatcherOk(c, w.sent, Leased(w.rows, ids, lease), p)
  {}

  lemma EnqueueKeeps(c: Config, w: World, id: string, row: Row)
    requires Inv(c, w) && id !in w.rows && RowOk(c, w.sent, id, row)
    ensures Inv(c, w.(rows := w.rows[id := row]))
  {
    forall d | d in w.dispatchers ensures id !in Outstanding(w.dispatchers[d]) {
      assert DispatcherOk(c, w.sent, w.rows, w.dispatchers[d]);
    }
    RewriteKeeps(c, w.sent, w.rows, w.dispatchers, id, row);
  }

  lemma CrashKeeps(c: Config, w: World, d: nat)
    requires Inv(c, w)
    ensures Inv(c, Put(w, d, Idle()))
  {
    PutKeeps(c, w.sent, w.rows, w.dispatchers, d, Idle());
  }

  lemma ClaimStepKeeps(c: Config, w: World, d: nat, ids: seq<string>, locked: set<string>)
    requires Inv(c, w) && NoOverrun(w, Claim(d, ids, locked))
    ensures Inv(c, Step(c, w, Claim(d, ids, locked)))
  {
    var w' := Step(c, w, Claim(d, ids, locked));
    if MayClaim(c, w, d, ids, locked) {
      assert w' == Claimed(w, d, ids, w.clock + c.leaseMs);
      ClaimKeeps(c, w, d, ids, locked, w.clock + c.leaseMs);
    } else {
      assert w' == w;
    }
  }

  lemma StepKeeps(c: Config, w: World, e: Event)
    requires Inv(c, w) && NoOverrun(w, e)
    ensures Inv(c, Step(c, w, e))
  {
    match e {
      case Elapse(_) =>
      case Enqueue(id, payload) =>
        if id !in w.rows {
          EnqueueKeeps(c, w, id, Row(payload, Pending, 0, w.clock, None, None, None, w.clock));
        }
      case Claim(d, ids, locked) => ClaimStepKeeps(c, w, d, ids, locked);
      case Crash(d) => CrashKeeps(c, w, d);
      case _ => TaskStepKeeps(c, w, e);
    }
  }

  /** Over every run without overruns: one worker per event, FAILED exactly when the attempts are
      used up, and PUBLISHED only for events that were really sent. */
  lemma {:induction false} RunKeeps(c: Config, start: World, events: seq<Event>)
    requires Inv(c, start) && NoOverruns(c, start, events)
    ensures Inv(c, Run(c, start, events))
  {
    if events != [] {
      RunKeeps(c, start, events[..|events| - 1]);
      StepKeeps(c, Run(c, start, events[..|events| - 1]), events[|events| - 1]);
    }
  }

  // ------------------------------------------------------------------------- final is final

  ghost predicate LeftAlone(w: World, id: string) {
    forall d | d in w.dispatchers :: id !in Outstanding(w.dispatchers[d])
  }

  ghost predicate Final(w: World, id: string) { id in w.rows && !w.rows[id].status.Pending? }

  /** A FAILED row has no worker any more; a PUBLISHED one has only after a save that was written
      and reported failure. */
  lemma FailedIsLeftAlone(c: Config, w: World, id: string)
    requires Inv(c, w) && id in w.rows && w.rows[id].status.Failed?
    ensures LeftAlone(w, id)
  {
    forall d | d in w.dispatchers ensures id !in Outstanding(w.dispatchers[d]) {
      assert DispatcherOk(c, w.sent, w.rows, w.dispatchers[d]);
      assert !Held(w.dispatchers[d], id, w.rows[id]);
    }
  }

  lemma FinalStep(c: Config, w: World, e: Event, id: string)
    requires Final(w, id) && LeftAlone(w, id)
    ensures id in Step(c, w, e).rows && Step(c, w, e).rows[id] == w.rows[id] && LeftAlone(Step(c, w, e), id)
  {
    if e.Claim? && IsBatch(c, w.rows, w.clock, e.locked, e.ids) {
      BatchIsDue(c, w.rows, w.clock, e.locked, e.ids);
    }
  }

  /** The exact condition: a final row keeps its contents through whatever comes next if and only
      if no dispatcher has it outstanding. */
  lemma FinalStaysIff(c: Config, w: World, id: string)
    requires Inv(c, w) && Final(w, id)
    ensures LeftAlone(w, id) <==>
      forall e | NoOverrun(w, e) :: id in Step(c, w, e).rows && Step(c, w, e).rows[id] == w.rows[id]
  {
    if LeftAlone(w, id) {
      forall e | NoOverrun(w, e) ensures id in Step(c, w, e).rows && Step(c, w, e).rows[id] == w.rows[id] {
        FinalStep(c, w, e, id);
      }
    } else {
      var d :| d in w.dispatchers && id in Outstanding(w.dispatchers[d]);
      assert DispatcherOk(c, w.sent, w.rows, w.dispatchers[d]) && Held(w.dispatchers[d], id, w.rows[id]);
      var e := SaveFailure(d, id, true);
      assert NoOverrun(w, e) && Step(c, w, e).rows[id] == w.dispatchers[d].tasks[id].row;
    }
  }

  /** The object that a dispatcher may still write back for this row is the row itself. */
  ghost predicate Harmless(p: Dispatcher, id: string, row: Row) {
    id in p.tasks ==> p.tasks[id].phase == Recovering && p.tasks[id].row == row
  }

  ghost predicate NoHarm(w: World, id: string)
    requires id in w.rows
  {
    forall d | d in w.dispatchers :: Harmless(w.dispatchers[d], id, w.rows[id])
  }

  lemma {:induction false} HarmlessStep(c: Config, w: World, e: Event, id: string)
    requires Final(w, id) && NoHarm(w, id)
    ensures id in Step(c, w, e).rows && Step(c, w, e).rows[id] == w.rows[id] && NoHarm(Step(c, w, e), id)
  {
    if e.Claim? && IsBatch(c, w.rows, w.clock, e.locked, e.ids) {
      BatchIsDue(c, w.rows, w.clock, e.locked, e.ids);
    }
  }

  lemma {:induction false} HarmlessRun(c: Config, w: World, events: seq<Event>, id: string)
    requires Final(w, id) && NoHarm(w, id)
    ensures id in Run(c, w, events).rows && Run(c, w, events).rows[id] == w.rows[id] && NoHarm(Run(c, w, events), id)
  {
    if events != [] {
      HarmlessRun(c, w, events[..|events| - 1], id);
      HarmlessStep(c, Run(c, w, events[..|events| - 1]), events[|events| - 1], id);
    }
  }

  /** An error text that the row does not hold. */
  function OtherError(row: Row): (error: string)
    ensures row.lastError != Some(error[..Short(error)])
  {
    if row.lastError == Some("") then "x" else ""
  }

  /** How a dispatcher with a harmful object rewrites the row. */
  function Harm(d: nat, id: string, phase: Phase, error: string): seq<Event> {
    match phase
    case Loaded => [Publish(d, id, false, error, 0.0), SaveFailure(d, id, true)]
    case Saving => [Save(d, id, false, false, error, 0.0), SaveFailure(d, id, true)]
    case Recovering => [SaveFailure(d, id, true)]
  }

  lemma RunOfOne(c: Config, w: World, a: Event)
    ensures Run(c, w, [a]) == Step(c, w, a)
  {
    assert [a][..|[a]| - 1] == [];
    assert Run(c, w, [a][..|[a]| - 1]) == w;
  }

  lemma RunOfTwo(c: Config, w: World, a: Event, b: Event)
    ensures Run(c, w, [a, b]) == Step(c, Step(c, w, a), b)
  {
    RunOfOne(c, w, a);
    assert [a, b][..|[a, b]| - 1] == [a];
  }

  lemma HarmHappens(c: Config, w: World, id: string, d: nat)
    requires Final(w, id) && d in w.dispatchers && !Harmless(w.dispatchers[d], id, w.rows[id])
    ensures
      var events := Harm(d, id, w.dispatchers[d].tasks[id].phase, OtherError(w.rows[id]));
      id in Run(c, w, events).rows && Run(c, w, events).rows[id] != w.rows[id]
  {
    var t, error := w.dispatchers[d].tasks[id], OtherError(w.rows[id]);
    match t.phase
    case Recovering =>
      RunOfOne(c, w, SaveFailure(d, id, true));
    case Loaded =>
      var a := Publish(d, id, false, error, 0.0);
      RunOfTwo(c, w, a, SaveFailure(d, id, true));
      assert Step(c, w, a).dispatchers[d].tasks[id] == Task(Recovering, MarkFailure(c, t.row, error, w.clock, 0.0));
    case Saving =>
      var a := Save(d, id, false, false, error, 0.0);
      RunOfTwo(c, w, a, SaveFailure(d, id, true));
      assert Step(c, w, a).dispatchers[d].tasks[id] == Task(Recovering, MarkFailure(c, t.row, error, w.clock, 0.0));
  }

  /** The exact condition, in any state and with any overruns: a PUBLISHED or FAILED row keeps its
      contents over every run if and only if no dispatcher holds an object for it that differs. */
  lemma FinalForeverIff(c: Config, w: World, id: string)
    requires Final(w, id)
    ensures NoHarm(w, id) <==>
      forall events: seq<Event> :: id in Run(c, w, events).rows && Run(c, w, events).rows[id] == w.rows[id]
  {
    if NoHarm(w, id) {
      forall events: seq<Event> ensures id in Run(c, w, events).rows && Run(c, w, events).rows[id] == w.rows[id] {
        HarmlessRun(c, w, events, id);
      }
    } else {
      var d :| d in w.dispatchers && !Harmless(w.dispatchers[d], id, w.rows[id]);
      HarmHappens(c, w, id, d);
    }
  }

  /** A final row that nobody works on never changes again. */
  lemma {:induction false} FinalStaysFinal(c: Config, start: World, events: seq<Event>, id: string)
    requires Final(start, id) && LeftAlone(start, id)
    ensures id in Run(c, start, events).rows && Run(c, start, events).rows[id] == start.rows[id]
    ensures LeftAlone(Run(c, start, events), id)
  {
    if events != [] {
      var front := events[..|events| - 1];
      FinalStaysFinal(c, start, front, id);
      FinalStep(c, Run(c, start, front), events[|events| - 1], id);
    }
  }

  /** Every save tells the truth about whether it was written. */
  ghost predicate HonestSave(e: Event) { e.Save? && e.applied ==> e.ok }

  ghost predicate FinalsLeftAlone(w: World) { forall id | Final(w, id) :: LeftAlone(w, id) }

  lemma HonestTaskStep(c: Config, w: World, e: Event)
    requires Inv(c, w) && (e.Load? || e.Publish? || e.Save? || e.SaveFailure?) && HonestSave(e) && FinalsLeftAlone(w)
    ensures FinalsLeftAlone(TaskStep(c, w, e))
  {
    var w' := TaskStep(c, w, e);
    forall id | Final(w', id) ensures LeftAlone(w', id) {
      if Final(w, id) {
        FinalStep(c, w, e, id);
      } else {
        assert id == e.id && e.d in w.dispatchers && id in w.dispatchers[e.d].tasks;
        forall d | d in w'.dispatchers ensures id !in Outstanding(w'.dispatchers[d]) {
          assert d != e.d ==> Outstanding(w.dispatchers[d]) !! Outstanding(w.dispatchers[e.d]);
        }
      }
    }
  }

  lemma HonestStep(c: Config, w: World, e: Event)
    requires Inv(c, w) && HonestSave(e) && FinalsLeftAlone(w)
    ensures FinalsLeftAlone(Step(c, w, e))
  {
    if e.Load? || e.Publish? || e.Save? || e.SaveFailure? {
      HonestTaskStep(c, w, e);
    } else {
      var w' := Step(c, w, e);
      forall id | Final(w', id) ensures LeftAlone(w', id) {
        assert Final(w, id);
        FinalStep(c, w, e, id);
      }
    }
  }

  lemma {:induction false} HonestRun(c: Config, start: World, events: seq<Event>)
    requires Initial(start) && NoOverruns(c, start, events) && forall e | e in events :: HonestSave(e)
    ensures FinalsLeftAlone(Run(c, start, events))
  {
    if events != [] {
      var front, e := events[..|events| - 1], events[|events| - 1];
      assert e in events && forall f | f in front :: f in events;
      HonestRun(c, start, front);
      RunKeeps(c, start, front);
      HonestStep(c, Run(c, start, front), e);
    }
  }

  /** Whatever saves report, a final row never becomes PENDING again, and FAILED stays FAILED. */
  lemma NeverPendingAgainStep(c: Config, w: World, e: Event, id: string)
    requires Inv(c, w) && Final(w, id)
    ensures Final(Step(c, w, e), id)
  {
    if (e.Save? || e.SaveFailure?) && e.d in w.dispatchers && id in w.dispatchers[e.d].tasks {
      assert DispatcherOk(c, w.sent, w.rows, w.dispatchers[e.d]);
      assert Held(w.dispatchers[e.d], id, w.rows[id]);
    }
    if e.Claim? && IsBatch(c, w.rows, w.clock, e.locked, e.ids) {
      BatchIsDue(c, w.rows, w.clock, e.locked, e.ids);
    }
  }

  lemma {:induction false} NeverPendingAgain(c: Config, start: World, events: seq<Event>, id: string)
    requires Inv(c, start) && NoOverruns(c, start, events) && Final(start, id)
    ensures Final(Run(c, start, events), id)
  {
    if events != [] {
      var front := events[..|events| - 1];
      NeverPendingAgain(c, start, front, id);
      RunKeeps(c, start, front);
      NeverPendingAgainStep(c, Run(c, start, front), events[|events| - 1], id);
    }
  }

  /** Nothing that was enqueued is lost or altered, and its attempts go up one at a time. */
  lemma AttemptsStep(c: Config, w: World, e: Event, id: string)
    requires Inv(c, w) && id in w.rows
    ensures id in Step(c, w, e).rows
    ensures w.rows[id].attempts <= Step(c, w, e).rows[id].attempts <= w.rows[id].attempts + 1
    ensures Step(c, w, e).rows[id].payload == w.rows[id].payload
  {
    if (e.Save? || e.SaveFailure?) && e.d in w.dispatchers && id in w.dispatchers[e.d].tasks {
      assert DispatcherOk(c, w.sent, w.rows, w.dispatchers[e.d]);
    }
  }

  // -------------------------------------------------------------------- when overruns cannot be

  /** Only one dispatcher ever claims. */
  ghost predicate Solo(d: nat, events: seq<Event>) { forall e | e in events && e.Claim? :: e.d == d }

  /** Whoever still has work outstanding is inside its lease, at every moment. */
  ghost predicate InTime(w: World) {
    forall d | d in w.dispatchers && Outstanding(w.dispatchers[d]) != {} :: w.clock < w.dispatchers[d].lease
  }

  ghost predicate AlwaysInTime(c: Config, start: World, events: seq<Event>) {
    forall k: nat | k <= |events| :: InTime(Run(c, start, events[..k]))
  }

  ghost predicate OnlyAtWork(w: World, d: nat) {
    forall d' | d' in w.dispatchers && d' != d :: Outstanding(w.dispatchers[d']) == {}
  }

  lemma OnlyAtWorkStep(c: Config, w: World, e: Event, d: nat)
    requires OnlyAtWork(w, d) && (e.Claim? ==> e.d == d)
    ensures OnlyAtWork(Step(c, w, e), d)
  {}

  /** With a single dispatcher there are no overruns, however long it takes. */
  lemma {:induction false} SoloNeverOverruns(c: Config, start: World, events: seq<Event>, d: nat)
    requires Initial(start) && Solo(d, events)
    ensures NoOverruns(c, start, events) && OnlyAtWork(Run(c, start, events), d)
  {
    if events != [] {
      var front, e := events[..|events| - 1], events[|events| - 1];
      forall f | f in front && f.Claim? ensures f.d == d { assert f in events; }
      SoloNeverOverruns(c, start, front, d);
      assert e in events;
      OnlyAtWorkStep(c, Run(c, start, front), e, d);
    }
  }

  /** With several there are none when each finishes its batch strictly before its lease ends. */
  lemma {:induction false} InTimeNeverOverruns(c: Config, start: World, events: seq<Event>)
    requires AlwaysInTime(c, start, events)
    ensures NoOverruns(c, start, events)
  {
    if events != [] {
      var front := events[..|events| - 1];
      forall k: nat | k <= |front| ensures InTime(Run(c, start, front[..k])) { assert front[..k] == events[..k]; }
      InTimeNeverOverruns(c, start, front);
      assert events[..|front|] == front;
    }
  }

  /** The headline, for both ways of running, from an empty table: every row is as it should be and
      with one dispatcher at most; what was PUBLISHED or FAILED after `events` is never PENDING
      again, and stays exactly as it was if it is FAILED, if nobody works on it, or if the saves of
      `events` told the truth. */
  lemma Safety(c: Config, start: World, events: seq<Event>, more: seq<Event>, d: nat, id: string)
    requires Initial(start)
    requires Solo(d, events + more) || AlwaysInTime(c, start, events + more)
    ensures
      var w := Run(c, start, events + more);
      RowsOk(c, w.sent, w.rows) && Apart(w.dispatchers)
    ensures
      var mid, late := Run(c, start, events), Run(c, start, events + more);
      Final(mid, id) ==>
        && Final(late, id)
        && (mid.rows[id].status.Failed? || LeftAlone(mid, id) || (forall e | e in events :: HonestSave(e)) ==>
              late.rows[id] == mid.rows[id])
  {
    if Solo(d, events + more) {
      SoloNeverOverruns(c, start, events + more, d);
    } else {
      InTimeNeverOverruns(c, start, events + more);
    }
    RunKeeps(c, start, events + more);
    RunSplits(c, start, events, more);
    RunKeeps(c, start, events);
    FinalLater(c, start, events, more, id);
  }

  lemma FinalLater(c: Config, start: World, events: seq<Event>, more: seq<Event>, id: string)
    requires Initial(start) && NoOverruns(c, start, events) && NoOverruns(c, Run(c, start, events), more)
    requires Inv(c, Run(c, start, events))
    ensures
      var mid, late := Run(c, start, events), Run(c, Run(c, start, events), more);
      Final(mid, id) ==>
        && Final(late, id)
        && (mid.rows[id].status.Failed? || LeftAlone(mid, id) || (forall e | e in events :: HonestSave(e)) ==>
              late.rows[id] == mid.rows[id])
  {
    var mid := Run(c, start, events);
    if Final(mid, id) {
      NeverPendingAgain(c, mid, more, id);
      if mid.rows[id].status.Failed? {
        FailedIsLeftAlone(c, mid, id);
      }
      if forall e | e in events :: HonestSave(e) {
        HonestRun(c, start, events);
      }
      if LeftAlone(mid, id) {
        FinalStaysFinal(c, mid, more, id);
      }
    }
  }

  lemma {:induction false} RunSplits(c: Config, start: World, events: seq<Event>, more: seq<Event>)
    requires NoOverruns(c, start, events + more)
    ensures Run(c, start, events + more) == Run(c, Run(c, start, events), more)
    ensures NoOverruns(c, start, events) && NoOverruns(c, Run(c, start, events), more)
  {
    if more == [] {
      assert events + more == events;
    } else {
      var front := more[..|more| - 1];
      assert (events + more)[..|events + more| - 1] == events + front;
      RunSplits(c, start, events, front);
    }
  }

  // ------------------------------------------------------------------- what an overrun can do

  lemma ClaimsOne(c: Config, w: World, d: nat, id: string)
    requires w.rows.Keys == {id} && Due(w.rows[id], w.clock) && Outstanding(Of(w, d)) == {}
    ensures
      var lease := w.clock + c.leaseMs;
      Step(c, w, Claim(d, [id], {})) ==
        World(w.clock, map[id := w.rows[id].(leasedUntil := Some(lease))],
              w.dispatchers[d := Dispatcher(lease, {id}, map[])], w.sent)
  {
    assert IsBatch(c, w.rows, w.clock, {}, [id]);
    assert SetOf([id]) == {id};
    var lease := w.clock + c.leaseMs;
    assert Leased(w.rows, {id}, lease) == map[id := w.rows[id].(leasedUntil := Some(lease))];
  }

  lemma LoadsOne(c: Config, w: World, d: nat, id: string, lease: int)
    requires d in w.dispatchers && w.dispatchers[d] == Dispatcher(lease, {id}, map[])
    requires id in w.rows && StillLeased(w.rows[id], w.clock)
    ensures Step(c, w, Load(d, id)) ==
      w.(dispatchers := w.dispatchers[d := Dispatcher(lease, {}, map[id := Task(Loaded, w.rows[id])])])
  {
    assert WithTask(w.dispatchers[d], id, Task(Loaded, w.rows[id])) ==
           Dispatcher(lease, {}, map[id := Task(Loaded, w.rows[id])]);
  }

  function Fresh(clock: int): Row { Row("", Pending, 0, clock, None, None, None, clock) }

  /** One event is enqueued, claimed and loaded by dispatcher 1, whose lease then runs out. */
  ghost function FirstHolds(c: Config, clock: int): World
    requires c.leaseMs >= 0
  {
    var w1 := Step(c, World(clock, map[], map[], {}), Enqueue("e", ""));
    var w2 := Step(c, w1, Claim(1, ["e"], {}));
    Step(c, Step(c, w2, Load(1, "e")), Elapse(c.leaseMs))
  }

  /** Dispatcher 2 claims and loads it too. */
  ghost function BothHold(c: Config, clock: int): World
    requires c.leaseMs >= 0
  {
    Step(c, Step(c, FirstHolds(c, clock), Claim(2, ["e"], {})), Load(2, "e"))
  }

  lemma FirstHoldsIs(c: Config, clock: int)
    requires c.leaseMs >= 0
    ensures
      var row := Fresh(clock).(leasedUntil := Some(clock + c.leaseMs));
      FirstHolds(c, clock) == World(clock + c.leaseMs, map["e" := row],
                                    map[1 := Dispatcher(clock + c.leaseMs, {}, map["e" := Task(Loaded, row)])], {})
  {
    var w1 := Step(c, World(clock, map[], map[], {}), Enqueue("e", ""));
    assert w1.rows == map["e" := Fresh(clock)];
    ClaimsOne(c, w1, 1, "e");
    LoadsOne(c, Step(c, w1, Claim(1, ["e"], {})), 1, "e", clock + c.leaseMs);
  }

  lemma BothHoldIs(c: Config, clock: int)
    requires c.leaseMs >= 0
    ensures
      var later := clock + c.leaseMs;
      var row := Fresh(clock).(leasedUntil := Some(later));
      var row' := Fresh(clock).(leasedUntil := Some(later + c.leaseMs));
      var w := BothHold(c, clock);
      && w.clock == later && w.rows == map["e" := row']
      && w.dispatchers == map[1 := Dispatcher(later, {}, map["e" := Task(Loaded, row)]),
                              2 := Dispatcher(later + c.leaseMs, {}, map["e" := Task(Loaded, row')])]
  {
    FirstHoldsIs(c, clock);
    ClaimsOne(c, FirstHolds(c, clock), 2, "e");
    LoadsOne(c, Step(c, FirstHolds(c, clock), Claim(2, ["e"], {})), 2, "e", clock + c.leaseMs + c.leaseMs);
  }

  /** Both send, the second in vain, and the first saves its success. */
  ghost function FirstSaves(c: Config, w: World): World {
    var w1 := Step(c, w, Publish(1, "e", true, "", 0.0));
    var w2 := Step(c, w1, Publish(2, "e", false, "", 0.0));
    Step(c, w2, Save(1, "e", true, true, "", 0.0))
  }

  /** Then the second saves its failure. */
  ghost function SecondSaves(c: Config, w: World): World { Step(c, FirstSaves(c, w), SaveFailure(2, "e", true)) }

  lemma BothSend(c: Config, w: World, row: Row, row': Row, lease: int, lease': int)
    requires w.dispatchers == map[1 := Dispatcher(lease, {}, map["e" := Task(Loaded, row)]),
                                  2 := Dispatcher(lease', {}, map["e" := Task(Loaded, row')])]
    ensures
      var w2 := Step(c, Step(c, w, Publish(1, "e", true, "", 0.0)), Publish(2, "e", false, "", 0.0));
      && w2.rows == w.rows && w2.dispatchers.Keys == {1, 2}
      && w2.dispatchers[1].tasks == map["e" := Task(Saving, MarkPublished(row, w.clock))]
      && w2.dispatchers[2].tasks == map["e" := Task(Recovering, MarkFailure(c, row', "", w.clock, 0.0))]
  {
    var w1 := Step(c, w, Publish(1, "e", true, "", 0.0));
    assert w1.dispatchers[1].tasks == map["e" := Task(Saving, MarkPublished(row, w.clock))];
    assert w1.dispatchers[2] == w.dispatchers[2] && w1.dispatchers.Keys == {1, 2} && w1.rows == w.rows;
  }

  lemma BothFinish(c: Config, w: World, row: Row, row': Row, lease: int, lease': int)
    requires w.rows == map["e" := row']
    requires w.dispatchers == map[1 := Dispatcher(lease, {}, map["e" := Task(Loaded, row)]),
                                  2 := Dispatcher(lease', {}, map["e" := Task(Loaded, row')])]
    ensures FirstSaves(c, w).rows == map["e" := MarkPublished(row, w.clock)]
    ensures SecondSaves(c, w).rows == map["e" := MarkFailure(c, row', "", w.clock, 0.0)]
  {
    BothSend(c, w, row, row', lease, lease');
    var w2 := Step(c, Step(c, w, Publish(1, "e", true, "", 0.0)), Publish(2, "e", false, "", 0.0));
    var w3 := Step(c, w2, Save(1, "e", true, true, "", 0.0));
    assert w3.dispatchers[2] == w2.dispatchers[2];
  }

  /** The timing condition is needed: with an overrun a PUBLISHED event goes back to PENDING, or
      ends as FAILED when no retries are allowed. */
  lemma OverrunUndoesPublished(c: Config, clock: int)
    requires c.leaseMs >= 0
    ensures
      var before, after := FirstSaves(c, BothHold(c, clock)).rows, SecondSaves(c, BothHold(c, clock)).rows;
      && "e" in before && before["e"].status.Published?
      && "e" in after && after["e"].status == if c.maxRetries == 0 then Failed else Pending
  {
    BothHoldIs(c, clock);
    var later, w := clock + c.leaseMs, BothHold(c, clock);
    var row, row' := w.dispatchers[1].tasks["e"].row, w.rows["e"];
    BothFinish(c, w, row, row', later, later + c.leaseMs);
    assert FirstSaves(c, w).rows["e"] == MarkPublished(row, w.clock);
    assert SecondSaves(c, w).rows["e"] == MarkFailure(c, row', "", w.clock, 0.0);
  }

  // ------------------------------------------------------- what a save that hides its success does

  /** A single dispatcher, one event: the save of PUBLISHED is written but reports failure, and the
      catch branch writes the row again, as FAILED when no retries are allowed. */
  lemma HiddenSaveRewritesPublished(c: Config, clock: int)
    requires c.leaseMs >= 0
    ensures
      var w1 := Step(c, FirstHolds(c, clock), Publish(1, "e", true, "", 0.0));
      var w2 := Step(c, w1, Save(1, "e", false, true, "lost", 0.0));
      var w3 := Step(c, w2, SaveFailure(1, "e", true));
      && "e" in w2.rows && w2.rows["e"].status.Published? && w2.rows["e"].attempts == 0
      && "e" in w3.rows && w3.rows["e"].attempts == 1
      && w3.rows["e"].status == if c.maxRetries == 0 then Failed else Published
  {
    FirstHoldsIs(c, clock);
    var w := FirstHolds(c, clock);
    var w1 := Step(c, w, Publish(1, "e", true, "", 0.0));
    var evt := MarkPublished(w.rows["e"], w.clock);
    assert w1.dispatchers[1].tasks["e"] == Task(Saving, evt);
    var w2 := Step(c, w1, Save(1, "e", false, true, "lost", 0.0));
    assert w2.rows["e"] == evt;
    assert w2.dispatchers[1].tasks["e"] == Task(Recovering, MarkFailure(c, evt, "lost", w.clock, 0.0));
  }
}
