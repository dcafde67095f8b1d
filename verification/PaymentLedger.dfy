/** Transfer intents on the ledger: created once, then settled or cancelled by their creator. */
module PaymentLedger {
  import opened Options

  datatype Status = Pending | Settled | Cancelled

  datatype Intent = Intent(txId: string, commitmentHash: string, internalRef: string, policyID: string, status: Status,
                           createdAt: int, updatedAt: int, settledAt: int, creatorMSP: string)

  type Intents = map<string, Intent>

  datatype Call =
    | Create(commitmentHash: string, internalRef: string, policyID: string, privateDataOk: bool)
    | Settle(txId: string)
    | Cancel(txId: string, reason: string)

  /** The calling transaction: its id, the caller's organisation, its time in milliseconds. */
  datatype Context = Context(txId: string, msp: string, now: int)

  datatype Error = AlreadyExists | BadPrivateData | NotFound | NotPending | NotCreator

  function CloseError(intents: Intents, id: string, msp: string): Option<Error> {
    if id !in intents then Some(NotFound)
    else if !intents[id].status.Pending? then Some(NotPending)
    else if msp != intents[id].creatorMSP then Some(NotCreator)
    else None
  }

  /** What a call commits, or the error with which it commits nothing. */
  function Invoke(intents: Intents, call: Call, ctx: Context): Result<Intents, Error> {
    match call
    case Create(hash, ref, policy, privateDataOk) =>
      if ctx.txId in intents then Err(AlreadyExists)
      else if !privateDataOk then Err(BadPrivateData)
      else Ok(intents[ctx.txId := Intent(ctx.txId, hash, ref, policy, Pending, ctx.now, ctx.now, 0, ctx.msp)])
    case Settle(id) =>
      var e := CloseError(intents, id, ctx.msp);
      if e.Some? then Err(e.value)
      else Ok(intents[id := intents[id].(status := Settled, updatedAt := ctx.now, settledAt := ctx.now)])
    case Cancel(id, _) =>
      var e := CloseError(intents, id, ctx.msp);
      if e.Some? then Err(e.value)
      else Ok(intents[id := intents[id].(status := Cancelled, updatedAt := ctx.now)])
  }

  function Commit(intents: Intents, call: Call, ctx: Context): Intents {
    match Invoke(intents, call, ctx)
    case Ok(after) => after
    case Err(_) => intents
  }

  function Verify(intents: Intents, id: string, hash: string): Result<bool, Error> {
    if id !in intents then Err(NotFound) else Ok(intents[id].commitmentHash == hash)
  }

  class PaymentContract {
    var intents: Intents

    constructor ()
      ensures intents == map[]
    {
      intents := map[];
    }

    method CreateTransferIntent(hash: string, internalRef: string, policyID: string, privateDataOk: bool, ctx: Context)
      returns (error: Option<Error>)
      modifies this
      ensures match Invoke(old(intents), Create(hash, internalRef, policyID, privateDataOk), ctx)
              case Ok(after) => error == None && intents == after
              case Err(e) => error == Some(e) && intents == old(intents)
      ensures error == None <==> ctx.txId !in old(intents) && privateDataOk
      ensures error == None ==>
        && ctx.txId in intents
        && var intent := intents[ctx.txId];
        && intents == old(intents)[ctx.txId := intent]
        && intent.txId == ctx.txId && intent.commitmentHash == hash && intent.internalRef == internalRef
        && intent.policyID == policyID && intent.status == Pending && intent.creatorMSP == ctx.msp
        && intent.createdAt == intent.updatedAt == ctx.now && intent.settledAt == 0
    {
      if ctx.txId in intents {
        return Some(AlreadyExists);
      }
      var intent := Intent(ctx.txId, hash, internalRef, policyID, Pending, ctx.now, ctx.now, 0, ctx.msp);
      var work := intents[ctx.txId := intent];
      if !privateDataOk {
        return Some(BadPrivateData);
      }
      intents := work;
      return None;
    }

    method SettleTransfer(id: string, ctx: Context) returns (error: Option<Error>)
      modifies this
      ensures match Invoke(old(intents), Settle(id), ctx)
              case Ok(after) => error == None && intents == after
              case Err(e) => error == Some(e) && intents == old(intents)
      ensures error == None <==>
        id in old(intents) && old(intents)[id].status == Pending && ctx.msp == old(intents)[id].creatorMSP
      ensures error == None ==>
        intents == old(intents)[id := old(intents)[id].(status := Settled, updatedAt := ctx.now, settledAt := ctx.now)]
    {
      if id !in intents {
        return Some(NotFound);
      }
      var intent := intents[id];
      if intent.status != Pending {
        return Some(NotPending);
      }
      if ctx.msp != intent.creatorMSP {
        return Some(NotCreator);
      }
      intent := intent.(status := Settled);
      intent := intent.(updatedAt := ctx.now);
      intent := intent.(settledAt := ctx.now);
      intents := intents[id := intent];
      return None;
    }

    method CancelTransfer(id: string, reason: string, ctx: Context) returns (error: Option<Error>)
      modifies this
      ensures match Invoke(old(intents), Cancel(id, reason), ctx)
              case Ok(after) => error == None && intents == after
              case Err(e) => error == Some(e) && intents == old(intents)
      ensures error == None <==>
        id in old(intents) && old(intents)[id].status == Pending && ctx.msp == old(intents)[id].creatorMSP
      ensures error == None ==>
        intents == old(intents)[id := old(intents)[id].(status := Cancelled, updatedAt := ctx.now)]
    {
      if id !in intents {
        return Some(NotFound);
      }
      var intent := intents[id];
      if intent.status != Pending {
        return Some(NotPending);
      }
      if ctx.msp != intent.creatorMSP {
        return Some(NotCreator);
      }
      intent := intent.(status := Cancelled);
      intent := intent.(updatedAt := ctx.now);
      intents := intents[id := intent];
      return None;
    }
  }

  datatype Invocation = Invocation(call: Call, ctx: Context)

  function Run(start: Intents, calls: seq<Invocation>): Intents {
    if calls == [] then start
    else Commit(Run(start, calls[..|calls| - 1]), calls[|calls| - 1].call, calls[|calls| - 1].ctx)
  }

  /** The part of an intent that is fixed when it is created. */
  function Terms(i: Intent): Intent { i.(status := Pending, updatedAt := 0, settledAt := 0) }

  /** Whatever follows, an intent keeps its terms, and once settled or cancelled it keeps
      everything. */
  lemma {:induction false} IntentEndures(start: Intents, calls: seq<Invocation>, id: string)
    requires id in start
    ensures id in Run(start, calls) && Terms(Run(start, calls)[id]) == Terms(start[id])
    ensures !start[id].status.Pending? ==> Run(start, calls)[id] == start[id]
  {
    if calls != [] {
      IntentEndures(start, calls[..|calls| - 1], id);
    }
  }

  predicate Closes(intents: Intents, id: string, i: Invocation) {
    (i.call.Settle? || i.call.Cancel?) && i.call.txId == id && Invoke(intents, i.call, i.ctx).Ok?
  }

  function Closings(start: Intents, calls: seq<Invocation>, id: string): nat {
    if calls == [] then 0
    else
      var front := calls[..|calls| - 1];
      Closings(start, front, id) + if Closes(Run(start, front), id, calls[|calls| - 1]) then 1 else 0
  }

  /** Over any run a transfer is settled or cancelled at most once, and is no longer pending
      exactly when it was. */
  lemma {:induction false} ClosedOnce(start: Intents, calls: seq<Invocation>, id: string)
    requires id in start && start[id].status.Pending?
    ensures id in Run(start, calls) && Closings(start, calls, id) <= 1
    ensures Closings(start, calls, id) == 0 <==> Run(start, calls)[id].status.Pending?
    ensures Run(start, calls)[id].settledAt == start[id].settledAt || Run(start, calls)[id].status.Settled?
  {
    if calls != [] {
      ClosedOnce(start, calls[..|calls| - 1], id);
    }
  }

  /** Only the creating organisation's own call ever closes a transfer, and the transfer then shows
      which call that was and when. */
  lemma {:induction false} OnlyItsCreatorCloses(start: Intents, calls: seq<Invocation>, id: string)
    requires id in start && start[id].status == Pending
    ensures id in Run(start, calls)
    ensures Run(start, calls)[id].status != Pending ==>
      exists k | 0 <= k < |calls| :: ClosedBy(start[id].creatorMSP, Run(start, calls)[id], id, calls[k])
  {
    if calls != [] {
      var front, last := calls[..|calls| - 1], calls[|calls| - 1];
      OnlyItsCreatorCloses(start, front, id);
      IntentEndures(start, front, id);
      assert Terms(Run(start, front)[id]).creatorMSP == start[id].creatorMSP;
      if Run(start, front)[id].status != Pending {
        var k :| 0 <= k < |front| && ClosedBy(start[id].creatorMSP, Run(start, front)[id], id, front[k]);
        assert calls[k] == front[k];
      } else if Run(start, calls)[id].status != Pending {
        assert ClosedBy(start[id].creatorMSP, Run(start, calls)[id], id, calls[|calls| - 1]);
      }
    }
  }

  ghost predicate ClosedBy(creator: string, closed: Intent, id: string, i: Invocation) {
    && i.ctx.msp == creator && closed.updatedAt == i.ctx.now
    && match i.call
       case Settle(of) => of == id && closed.status == Settled && closed.settledAt == i.ctx.now
       case Cancel(of, _) => of == id && closed.status == Cancelled
       case _ => false
  }
}
