/** What every run of the governance contract keeps, and what its votes come to. */
module GovernanceSafety {
  import opened Options
  import opened Helpers
  import opened Governance

  /** For one or more organisations the three outcomes exclude each other by their counts; with
      none, any first vote rejects. */
  ghost predicate OutcomeOk(req: Request) {
    var approvals, rejections := |req.approvals|, |req.rejections|;
    match req.status
    case Pending =>
      && req.resolvedAt.None?
      && if req.totalOrgs >= 1 then approvals < req.requiredAck <= req.totalOrgs - rejections
         else approvals == rejections == 0
    case Approved =>
      req.totalOrgs >= 1 && approvals == req.requiredAck <= req.totalOrgs - rejections
    case Rejected =>
      if req.totalOrgs >= 1 then rejections == req.totalOrgs - req.requiredAck + 1 && approvals < req.requiredAck
      else approvals + rejections == 1
    case Expired => false
  }

  function Lookup(votes: map<VoteKey, VoteRecord>, id: string, voter: string): Option<VoteRecord> {
    if VoteKey(id, voter) in votes then Some(votes[VoteKey(id, voter)]) else None
  }

  ghost predicate RecordMatches(vote: Option<VoteRecord>, req: Request, voter: string) {
    if vote.None? then voter !in req.approvals && voter !in req.rejections
    else
      && voter != req.msp
      && (voter in req.approvals <==> vote.value.approve) && (voter in req.rejections <==> !vote.value.approve)
      && vote.value.at == if vote.value.approve then req.approvals[voter] else req.rejections[voter]
  }

  ghost predicate RecordsMatch(id: string, req: Request, votes: map<VoteKey, VoteRecord>) {
    forall voter: string :: RecordMatches(Lookup(votes, id, voter), req, voter)
  }

  ghost predicate RequestOk(id: string, req: Request, votes: map<VoteKey, VoteRecord>) {
    && req.totalOrgs >= 0 && req.requiredAck == Majority(req.totalOrgs)
    && OutcomeOk(req) && RecordsMatch(id, req, votes)
  }

  ghost predicate OnePendingEach(requests: map<string, Request>) {
    forall a, b | a in requests && b in requests && requests[a].status.Pending? && requests[b].status.Pending? ::
      requests[a].msp == requests[b].msp ==> a == b
  }

  ghost predicate Inv(ledger: Ledger) {
    && (forall id | id in ledger.requests :: RequestOk(id, ledger.requests[id], ledger.votes))
    && (forall key | key in ledger.votes :: key.request in ledger.requests)
    && OnePendingEach(ledger.requests)
  }

  /** Approvals and rejections never share a voter, and neither holds the requester. */
  lemma VotersDisjoint(ledger: Ledger, id: string)
    requires Inv(ledger) && id in ledger.requests
    ensures ledger.requests[id].approvals.Keys !! ledger.requests[id].rejections.Keys
    ensures ledger.requests[id].msp !in ledger.requests[id].approvals
    ensures ledger.requests[id].msp !in ledger.requests[id].rejections
  {
    var req := ledger.requests[id];
    assert RequestOk(id, req, ledger.votes);
    forall voter | voter in req.approvals || voter in req.rejections
      ensures voter != req.msp && !(voter in req.approvals && voter in req.rejections)
    {
      assert RecordMatches(Lookup(ledger.votes, id, voter), req, voter);
    }
  }

  // ------------------------------------------------------------------------------- one vote

  lemma VoteDecides(req: Request, voter: string, approve: bool, at: int)
    requires req.totalOrgs >= 0 && req.requiredAck == Majority(req.totalOrgs)
    requires OutcomeOk(req) && req.status.Pending? && voter !in req.approvals && voter !in req.rejections
    ensures OutcomeOk(Decided(Counted(req, voter, approve, at), at))
  {
    assert |req.approvals[voter := at]| == |req.approvals| + 1;
    assert |req.rejections[voter := at]| == |req.rejections| + 1;
  }

  lemma VoteRecorded(id: string, req: Request, votes: map<VoteKey, VoteRecord>, voter: string, vote: VoteRecord)
    requires RecordsMatch(id, req, votes)
    requires voter != req.msp && voter !in req.approvals && voter !in req.rejections
    ensures RecordsMatch(id, Decided(Counted(req, voter, vote.approve, vote.at), vote.at),
                         votes[VoteKey(id, voter) := vote])
  {
    var after := Decided(Counted(req, voter, vote.approve, vote.at), vote.at);
    var votes' := votes[VoteKey(id, voter) := vote];
    forall other: string ensures RecordMatches(Lookup(votes', id, other), after, other) {
      assert RecordMatches(Lookup(votes, id, other), req, other);
      assert other != voter ==> Lookup(votes', id, other) == Lookup(votes, id, other);
    }
  }

  lemma OtherRecordsStay(id: string, req: Request, votes: map<VoteKey, VoteRecord>, key: VoteKey, vote: VoteRecord)
    requires RecordsMatch(id, req, votes) && key.request != id
    ensures RecordsMatch(id, req, votes[key := vote])
  {
    var votes' := votes[key := vote];
    forall voter: string ensures RecordMatches(Lookup(votes', id, voter), req, voter) {
      assert RecordMatches(Lookup(votes, id, voter), req, voter);
    }
  }

  lemma PutKeeps(ledger: Ledger, after: Ledger, id: string, voter: string, vote: VoteRecord)
    requires Inv(ledger) && id in ledger.requests && id in after.requests
    requires after.requests == ledger.requests[id := after.requests[id]]
    requires after.votes == ledger.votes[VoteKey(id, voter) := vote]
    requires ledger.requests[id].status.Pending? && ledger.requests[id].msp == after.requests[id].msp
    requires RequestOk(id, after.requests[id], after.votes)
    ensures Inv(after)
  {
    forall other | other in ledger.requests && other != id
      ensures RequestOk(other, ledger.requests[other], after.votes)
    {
      OtherRecordsStay(other, ledger.requests[other], ledger.votes, VoteKey(id, voter), vote);
    }
  }

  lemma VoteKeeps(ledger: Ledger, id: string, ctx: Context, approve: bool, reason: string)
    requires Inv(ledger) && id in ledger.requests
    requires VoteRefused(ledger.requests[id], ExpiryHours(ledger), ctx.client, ctx.now).None?
    ensures Inv(AfterVote(ledger, id, ctx, approve, reason))
  {
    var at := Seconds(ctx.now);
    var vote := VoteRecord(approve, reason, at);
    VotedOk(id, ledger.requests[id], ledger.votes, ctx.client, vote);
    PutKeeps(ledger, AfterVote(ledger, id, ctx, approve, reason), id, ctx.client, vote);
  }

  lemma VotedOk(id: string, req: Request, votes: map<VoteKey, VoteRecord>, voter: string, vote: VoteRecord)
    requires RequestOk(id, req, votes) && req.status.Pending?
    requires voter != req.msp && voter !in req.approvals && voter !in req.rejections
    ensures RequestOk(id, Decided(Counted(req, voter, vote.approve, vote.at), vote.at),
                      votes[VoteKey(id, voter) := vote])
  {
    VoteDecides(req, voter, vote.approve, vote.at);
    VoteRecorded(id, req, votes, voter, vote);
  }

  // --------------------------------------------------------------------------------- one call

  /** A transaction id is used once. */
  ghost predicate Fresh(ledger: Ledger, call: Call, ctx: Context) {
    call.RequestJoin? ==> ctx.txId !in ledger.requests
  }

  ghost function Commit(ledger: Ledger, call: Call, ctx: Context): Ledger {
    match Invoke(ledger, call, ctx)
    case Ok(after) => after
    case Err(_) => ledger
  }

  lemma JoinKeeps(ledger: Ledger, call: Call, ctx: Context)
    requires Inv(ledger) && call.RequestJoin? && ctx.txId !in ledger.requests
    requires !HasPending(ledger.requests, call.msp)
    ensures Inv(ledger.(requests := ledger.requests[ctx.txId := NewRequest(call, ctx, |ledger.orgs|)]))
  {
    var req := NewRequest(call, ctx, |ledger.orgs|);
    forall voter: string ensures Lookup(ledger.votes, ctx.txId, voter).None? {}
    assert RequestOk(ctx.txId, req, ledger.votes);
  }

  lemma StepKeeps(ledger: Ledger, call: Call, ctx: Context)
    requires Inv(ledger) && Fresh(ledger, call, ctx)
    ensures Inv(Commit(ledger, call, ctx))
  {
    if Invoke(ledger, call, ctx).Ok? {
      match call {
        case RequestJoin(_, _, _, _, _, _, _, _) => JoinKeeps(ledger, call, ctx);
        case CastVote(id, approve, reason) => VoteKeeps(ledger, id, ctx, approve, reason);
        case _ =>
      }
    }
  }

  /** A committed vote registers the requester exactly when it ends the request as approved; with
      no organisations counted that fails for every approving vote, and for no other. */
  lemma RegistersIffApproved(ledger: Ledger, id: string, ctx: Context, approve: bool, reason: string)
    requires Inv(ledger) && id in ledger.requests
    requires VoteRefused(ledger.requests[id], ExpiryHours(ledger), ctx.client, ctx.now).None?
    ensures
      var req, at := ledger.requests[id], Seconds(ctx.now);
      var after := AfterVote(ledger, id, ctx, approve, reason);
      var registered := ledger.orgs[req.msp := Org(req.msp, req.orgName, req.domain, at)];
      if req.totalOrgs >= 1 || !approve
      then after.orgs == if after.requests[id].status.Approved? then registered else ledger.orgs
      else after.orgs == registered && after.requests[id].status.Rejected?
  {
    var req, at := ledger.requests[id], Seconds(ctx.now);
    assert RequestOk(id, req, ledger.votes);
    VoteDecides(req, ctx.client, approve, at);
  }

  /** When a vote is taken: up to the very nanosecond at which the policy's hours, 168 without a
      policy, have passed since the request was made, and never after. */
  lemma VoteInTime(ledger: Ledger, id: string, approve: bool, reason: string, ctx: Context, hours: int)
    requires id in ledger.requests && ledger.requests[id].status == Pending
    requires ctx.client != ledger.requests[id].msp
    requires ctx.client !in ledger.requests[id].approvals && ctx.client !in ledger.requests[id].rejections
    requires hours == if ledger.policy == None then 168 else ledger.policy.value.expiryHours
    requires -MOST_HOURS <= hours <= MOST_HOURS
    ensures
      var last := ledger.requests[id].createdAt * 1_000_000_000 + hours * 3_600_000_000_000;
      var outcome := Invoke(ledger, CastVote(id, approve, reason), ctx);
      && (outcome.Ok? <==> ctx.now <= last)
      && (outcome == Err(RequestExpired) <==> ctx.now > last)
  {
    WrapExact(hours * 3_600_000_000_000);
    assert ExpiryHours(ledger) == hours;
  }

  /** Beyond that number of hours the product wraps around, and the policy is not the one that was
      set: at some moment a vote in time is refused or a late one is taken. */
  lemma HoursHonouredIff(ledger: Ledger, id: string, approve: bool, reason: string, client: string)
    requires id in ledger.requests && ledger.requests[id].status == Pending
    requires client != ledger.requests[id].msp
    requires client !in ledger.requests[id].approvals && client !in ledger.requests[id].rejections
    requires ledger.policy.Some? && ledger.policy.value.expiryHours >= 1
    ensures
      var hours := ledger.policy.value.expiryHours;
      var last := ledger.requests[id].createdAt * 1_000_000_000 + hours * 3_600_000_000_000;
      (forall now: int :: Invoke(ledger, CastVote(id, approve, reason), Context("", client, now)).Ok? <==> now <= last)
      <==> hours <= MOST_HOURS
  {
    var hours := ledger.policy.value.expiryHours;
    var start := ledger.requests[id].createdAt * 1_000_000_000;
    var last, wrapped := start + hours * 3_600_000_000_000, start + Wrap64(hours * 3_600_000_000_000);
    forall now: int
      ensures Invoke(ledger, CastVote(id, approve, reason), Context("", client, now)).Ok? <==> now <= wrapped
    {}
    WrapExact(hours * 3_600_000_000_000);
    if hours > MOST_HOURS {
      assert wrapped != last;
      var between := if wrapped < last then last else wrapped;
      assert Invoke(ledger, CastVote(id, approve, reason), Context("", client, between)).Ok? <==> between <= wrapped;
    }
  }

  /** The case with no organisations counted: one approval registers the requester and leaves its
      request rejected. */
  lemma NoOrgsApprovalOverwritten(client: string, now: int)
    requires client != "NewMSP"
    ensures
      var join := RequestJoin("New", "NewMSP", "new.example", "", 7051, "", true, true);
      var before := Commit(Ledger(map[], map[], map[], None), join, Context("tx1", client, now));
      var closed := Commit(before, CastVote("tx1", true, ""), Context("tx2", client, now));
      "tx1" in closed.requests && closed.requests["tx1"].status.Rejected? && "NewMSP" in closed.orgs
  {
    var empty := Ledger(map[], map[], map[], None);
    var join := RequestJoin("New", "NewMSP", "new.example", "", 7051, "", true, true);
    var before := Commit(empty, join, Context("tx1", client, now));
    assert !HasPending(empty.requests, "NewMSP");
    var req := before.requests["tx1"];
    assert Wrap64(168 * 3600 * NANOS_PER_SECOND) == 168 * 3600 * NANOS_PER_SECOND;
    assert VoteRefused(req, ExpiryHours(before), client, now).None?;
  }

  /** The bootstrap list registers its organisations and no others; of two entries for one
      organisation the later stays, and entries that are not in the list are kept. */
  lemma {:induction false} ListRegisters(orgs: map<string, Org>, more: seq<Org>, at: int, msp: string)
    ensures msp in Registered(orgs, more, at) <==> msp in orgs || exists org | org in more :: org.msp == msp
    ensures (exists org | org in more :: org.msp == msp) ==>
      exists j | 0 <= j < |more| ::
        && more[j].msp == msp && Registered(orgs, more, at)[msp] == more[j].(registeredAt := at)
        && forall k | j < k < |more| :: more[k].msp != msp
    ensures msp in orgs && (forall org | org in more :: org.msp != msp) ==>
      Registered(orgs, more, at)[msp] == orgs[msp]
  {
    if more != [] {
      var front, last := more[..|more| - 1], more[|more| - 1];
      ListRegisters(orgs, front, at, msp);
      assert more == front + [last];
      if last.msp == msp {
        assert more[|more| - 1].msp == msp;
      } else {
        assert forall j | 0 <= j < |front| :: more[j] == front[j];
      }
    }
  }

  // --------------------------------------------------------------------------------- whole runs

  datatype Invocation = Invocation(call: Call, ctx: Context)

  ghost function Run(start: Ledger, calls: seq<Invocation>): Ledger {
    if calls == [] then start
    else
      var last := calls[|calls| - 1];
      Commit(Run(start, calls[..|calls| - 1]), last.call, last.ctx)
  }

  ghost predicate FreshIds(start: Ledger, calls: seq<Invocation>) {
    calls == [] ||
    var last, front := calls[|calls| - 1], calls[..|calls| - 1];
    FreshIds(start, front) && Fresh(Run(start, front), last.call, last.ctx)
  }

  lemma {:induction false} RunKeeps(start: Ledger, calls: seq<Invocation>)
    requires Inv(start) && FreshIds(start, calls)
    ensures Inv(Run(start, calls))
  {
    if calls != [] {
      var front := calls[..|calls| - 1];
      RunKeeps(start, front);
      StepKeeps(Run(start, front), calls[|calls| - 1].call, calls[|calls| - 1].ctx);
    }
  }

  /** How many more votes a request can take before it must be resolved. */
  ghost function Room(ledger: Ledger, id: string): int {
    if id in ledger.requests && ledger.requests[id].status.Pending?
    then
      var req := ledger.requests[id];
      (if req.totalOrgs >= 1 then req.totalOrgs else 1) - |req.approvals| - |req.rejections|
    else 0
  }

  ghost predicate TakesVote(ledger: Ledger, id: string, call: Call, ctx: Context) {
    call.CastVote? && call.request == id && Invoke(ledger, call, ctx).Ok?
  }

  lemma PendingHasRoom(ledger: Ledger, id: string)
    requires Inv(ledger)
    ensures Room(ledger, id) >= 0
    ensures id in ledger.requests && ledger.requests[id].status.Pending? ==> Room(ledger, id) >= 1
  {
    if id in ledger.requests {
      assert RequestOk(id, ledger.requests[id], ledger.votes);
    }
  }

  lemma OnlyVotesChange(ledger: Ledger, id: string, call: Call, ctx: Context)
    requires Fresh(ledger, call, ctx) && id in ledger.requests
    ensures id in Commit(ledger, call, ctx).requests
    ensures !TakesVote(ledger, id, call, ctx) ==> Commit(ledger, call, ctx).requests[id] == ledger.requests[id]
  {}

  lemma CountedGrows(req: Request, voter: string, approve: bool, at: int)
    requires voter !in req.approvals && voter !in req.rejections
    ensures
      var after := Decided(Counted(req, voter, approve, at), at);
      && |after.approvals| + |after.rejections| == |req.approvals| + |req.rejections| + 1
      && after.totalOrgs == req.totalOrgs
  {
    assert |req.approvals[voter := at]| == |req.approvals| + 1;
    assert |req.rejections[voter := at]| == |req.rejections| + 1;
  }

  /** A vote is taken only on a pending request, and uses up room. */
  lemma VoteUsesRoom(ledger: Ledger, id: string, call: Call, ctx: Context)
    requires Inv(ledger) && id in ledger.requests && TakesVote(ledger, id, call, ctx)
    ensures ledger.requests[id].status.Pending? && Room(Commit(ledger, call, ctx), id) < Room(ledger, id)
  {
    PendingHasRoom(ledger, id);
    CountedGrows(ledger.requests[id], ctx.client, call.approve, Seconds(ctx.now));
  }

  ghost function VotesTaken(start: Ledger, calls: seq<Invocation>, id: string): nat {
    if calls == [] then 0
    else
      var last, front := calls[|calls| - 1], calls[..|calls| - 1];
      VotesTaken(start, front, id) + if TakesVote(Run(start, front), id, last.call, last.ctx) then 1 else 0
  }

  /** Over any run a request takes at most as many votes as it has room for, and one that uses
      all of it is resolved: voting always comes to an end. */
  lemma {:induction false} VotingEnds(start: Ledger, calls: seq<Invocation>, id: string)
    requires Inv(start) && FreshIds(start, calls) && id in start.requests
    ensures id in Run(start, calls).requests
    ensures VotesTaken(start, calls, id) <= Room(start, id)
    ensures VotesTaken(start, calls, id) + Room(Run(start, calls), id) <= Room(start, id)
    ensures VotesTaken(start, calls, id) == Room(start, id) ==> !Run(start, calls).requests[id].status.Pending?
  {
    RunKeeps(start, calls);
    PendingHasRoom(Run(start, calls), id);
    if calls != [] {
      var last, front := calls[|calls| - 1], calls[..|calls| - 1];
      VotingEnds(start, front, id);
      RunKeeps(start, front);
      OnlyVotesChange(Run(start, front), id, last.call, last.ctx);
      if TakesVote(Run(start, front), id, last.call, last.ctx) {
        VoteUsesRoom(Run(start, front), id, last.call, last.ctx);
      }
    }
  }

  /** A resolved request never changes again. */
  lemma {:induction false} ResolvedIsFinal(start: Ledger, calls: seq<Invocation>, id: string)
    requires Inv(start) && FreshIds(start, calls) && id in start.requests
    requires !start.requests[id].status.Pending?
    ensures id in Run(start, calls).requests && Run(start, calls).requests[id] == start.requests[id]
  {
    if calls != [] {
      var last, front := calls[|calls| - 1], calls[..|calls| - 1];
      ResolvedIsFinal(start, front, id);
      RunKeeps(start, front);
      OnlyVotesChange(Run(start, front), id, last.call, last.ctx);
      if TakesVote(Run(start, front), id, last.call, last.ctx) {
        VoteUsesRoom(Run(start, front), id, last.call, last.ctx);
      }
    }
  }

  /** Every vote on the request comes after its expiry under the policy then in force. */
  ghost predicate VotesComeLate(start: Ledger, calls: seq<Invocation>, id: string, createdAt: int) {
    calls == [] ||
    var last, front := calls[|calls| - 1], calls[..|calls| - 1];
    && VotesComeLate(start, front, id, createdAt)
    && (last.call.CastVote? && last.call.request == id ==>
          IsExpired(createdAt, ExpiryHours(Run(start, front)), last.ctx.now))
  }

  /** A request past its expiry takes no votes and is never marked: as long as votes on it come too
      late it stays pending, and so refuses every further request of its organisation. */
  lemma {:induction false} ExpiredBlocks(start: Ledger, calls: seq<Invocation>, id: string, again: Call, ctx: Context)
    requires FreshIds(start, calls) && id in start.requests && start.requests[id].status.Pending?
    requires VotesComeLate(start, calls, id, start.requests[id].createdAt)
    ensures id in Run(start, calls).requests && Run(start, calls).requests[id] == start.requests[id]
    ensures again.RequestJoin? && again.msp == start.requests[id].msp ==> Invoke(Run(start, calls), again, ctx).Err?
  {
    if calls != [] {
      var front, last := calls[..|calls| - 1], calls[|calls| - 1];
      ExpiredBlocks(start, front, id, again, ctx);
      OnlyVotesChange(Run(start, front), id, last.call, last.ctx);
    }
  }

  /** An organisation enters the registry only by the bootstrap list or by a vote that made the
      majority of approvals on its own request. */
  lemma OnlyMajorityRegisters(ledger: Ledger, call: Call, ctx: Context, msp: string)
    requires Inv(ledger) && msp !in ledger.orgs && msp in Commit(ledger, call, ctx).orgs
    ensures call.RegisterExistingOrgs?
            || (call.CastVote? && call.request in ledger.requests && ledger.requests[call.request].msp == msp
                && |Commit(ledger, call, ctx).requests[call.request].approvals|
                   == Majority(ledger.requests[call.request].totalOrgs))
  {
    if call.CastVote? && call.request in ledger.requests {
      var req, at := ledger.requests[call.request], Seconds(ctx.now);
      assert RequestOk(call.request, req, ledger.votes);
      assert |req.approvals[ctx.client := at]| <= |req.approvals| + 1;
    }
  }
}
