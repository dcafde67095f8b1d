/** The governance ledger: join requests decided by majority, with early rejection. A call that
    returns an error commits nothing. */
module Governance {
  import opened Options
  import opened Helpers

  datatype Status = Pending | Approved | Rejected | Expired

  /** Times are whole seconds, the precision of the stored text. */
  datatype Request = Request(
    orgName: string, msp: string, domain: string, description: string, anchorHost: string, anchorPort: int,
    status: Status, approvals: map<string, int>, rejections: map<string, int>, requiredAck: int, totalOrgs: int,
    createdAt: int, updatedAt: int, resolvedAt: Option<int>, creator: string)

  datatype VoteRecord = VoteRecord(approve: bool, reason: string, at: int)

  datatype Org = Org(msp: string, name: string, domain: string, registeredAt: int)

  datatype Policy = Policy(policyType: string, thresholdPct: int, expiryHours: int, updatedAt: int, updatedBy: string)

  /** A vote record is kept under the pair of request and voter. */
  datatype VoteKey = VoteKey(request: string, voter: string)

  datatype Ledger = Ledger(requests: map<string, Request>, votes: map<VoteKey, VoteRecord>, orgs: map<string, Org>,
                           policy: Option<Policy>)

  datatype Error = MissingField | BadPort | QueryFailed | AlreadyPending | NotFound | NotPending | RequestExpired
                 | OwnRequest | AlreadyVoted | BadPolicy | BadJson

  /** Who calls, in which transaction, and at what time in nanoseconds. */
  datatype Context = Context(txId: string, client: string, now: int)

  datatype Call =
    | InitLedger
    | RequestJoin(orgName: string, msp: string, domain: string, anchorHost: string, anchorPort: int,
                  description: string, scanOk: bool, countOk: bool)
    | CastVote(request: string, approve: bool, reason: string)
    | UpdatePolicy(policyType: string, thresholdPct: int, expiryHours: int)
    | RegisterExistingOrgs(parsed: Option<seq<Org>>)

  const DEFAULT_EXPIRY_HOURS := 168

  function Seconds(now: int): int { now / NANOS_PER_SECOND }

  /** A product of two 64-bit integers keeps its low 64 bits. */
  function Wrap64(n: int): int {
    (n + 0x8000_0000_0000_0000) % 0x1_0000_0000_0000_0000 - 0x8000_0000_0000_0000
  }

  /** In nanoseconds the hours fit 64 bits exactly up to this number of them. */
  const MOST_HOURS := 2_562_047

  lemma WrapExact(n: int)
    ensures Wrap64(n) == n <==> -9_223_372_036_854_775_808 <= n <= 9_223_372_036_854_775_807
  {}

  function ExpiryHours(ledger: Ledger): int {
    if ledger.policy.Some? then ledger.policy.value.expiryHours else DEFAULT_EXPIRY_HOURS
  }

  predicate IsExpired(createdAt: int, hours: int, now: int) {
    now > createdAt * NANOS_PER_SECOND + Wrap64(hours * 3600 * NANOS_PER_SECOND)
  }

  ghost predicate HasPending(requests: map<string, Request>, msp: string) {
    exists id :: id in requests && requests[id].msp == msp && requests[id].status.Pending?
  }

  /** The least number above half; at least one, so the contract's floor of one never applies. */
  function Majority(total: nat): (ack: nat)
    ensures 2 * ack > total && forall n: nat | 2 * n > total :: ack <= n
  {
    total / 2 + 1
  }

  // ------------------------------------------------------------------------------- one vote

  function VoteRefused(req: Request, hours: int, voter: string, now: int): Option<Error> {
    if !req.status.Pending? then Some(NotPending)
    else if IsExpired(req.createdAt, hours, now) then Some(RequestExpired)
    else if voter == req.msp then Some(OwnRequest)
    else if voter in req.approvals || voter in req.rejections then Some(AlreadyVoted)
    else None
  }

  function Counted(req: Request, voter: string, approve: bool, at: int): Request {
    if approve then req.(approvals := req.approvals[voter := at], updatedAt := at)
    else req.(rejections := req.rejections[voter := at], updatedAt := at)
  }

  predicate Registers(counted: Request) { |counted.approvals| >= counted.requiredAck }

  predicate Hopeless(counted: Request) { counted.totalOrgs - |counted.rejections| < counted.requiredAck }

  /** The second test comes after the first and overrides it. */
  function Decided(counted: Request, at: int): Request {
    if Hopeless(counted) then counted.(status := Rejected, resolvedAt := Some(at))
    else if Registers(counted) then counted.(status := Approved, resolvedAt := Some(at))
    else counted
  }

  function AfterVote(ledger: Ledger, id: string, ctx: Context, approve: bool, reason: string): Ledger
    requires id in ledger.requests
  {
    var at := Seconds(ctx.now);
    var req := ledger.requests[id];
    var counted := Counted(req, ctx.client, approve, at);
    ledger.(requests := ledger.requests[id := Decided(counted, at)],
            votes := ledger.votes[VoteKey(id, ctx.client) := VoteRecord(approve, reason, at)],
            orgs := if Registers(counted) then ledger.orgs[req.msp := Org(req.msp, req.orgName, req.domain, at)]
                    else ledger.orgs)
  }

  // ------------------------------------------------------------------------------- the calls

  function Registered(orgs: map<string, Org>, more: seq<Org>, at: int): map<string, Org> {
    if more == [] then orgs
    else
      var last := more[|more| - 1];
      Registered(orgs, more[..|more| - 1], at)[last.msp := last.(registeredAt := at)]
  }

  function NewRequest(call: Call, ctx: Context, orgs: nat): Request
    requires call.RequestJoin?
  {
    var total := if call.countOk then orgs else 0;
    var at := Seconds(ctx.now);
    Request(call.orgName, call.msp, call.domain, call.description, call.anchorHost, call.anchorPort, Pending,
            map[], map[], Majority(total), total, at, at, None, ctx.client)
  }

  /** What one call commits, or the error with which it commits nothing. */
  ghost function Invoke(ledger: Ledger, call: Call, ctx: Context): Result<Ledger, Error> {
    match call
    case InitLedger =>
      if ledger.policy.Some? then Ok(ledger)
      else Ok(ledger.(policy := Some(Policy("MAJORITY", 51, DEFAULT_EXPIRY_HOURS, Seconds(ctx.now), ctx.client))))
    case RequestJoin(orgName, msp, domain, _, port, _, scanOk, _) =>
      if orgName == "" || msp == "" || domain == "" then Err(MissingField)
      else if port <= 0 || port > 65535 then Err(BadPort)
      else if !scanOk then Err(QueryFailed)
      else if HasPending(ledger.requests, msp) then Err(AlreadyPending)
      else Ok(ledger.(requests := ledger.requests[ctx.txId := NewRequest(call, ctx, |ledger.orgs|)]))
    case CastVote(id, approve, reason) =>
      if id !in ledger.requests then Err(NotFound)
      else
        var refused := VoteRefused(ledger.requests[id], ExpiryHours(ledger), ctx.client, ctx.now);
        if refused.Some? then Err(refused.value) else Ok(AfterVote(ledger, id, ctx, approve, reason))
    case UpdatePolicy(policyType, pct, hours) =>
      if policyType !in {"MAJORITY", "UNANIMOUS", "THRESHOLD"} || pct < 1 || pct > 100 || hours < 1 then Err(BadPolicy)
      else Ok(ledger.(policy := Some(Policy(policyType, pct, hours, Seconds(ctx.now), ctx.client))))
    case RegisterExistingOrgs(parsed) =>
      if parsed.None? then Err(BadJson)
      else Ok(ledger.(orgs := Registered(ledger.orgs, parsed.value, Seconds(ctx.now))))
  }

  /** The ledger state as the chaincode changes it: writes collect in a copy, and only a call that
      succeeds puts the copy back. */
  class GovernanceContract {
    var ledger: Ledger

    constructor ()
      ensures ledger == Ledger(map[], map[], map[], None)
    {
      ledger := Ledger(map[], map[], map[], None);
    }

    method InitialisePolicy(ctx: Context)
      modifies this
      ensures Invoke(old(ledger), InitLedger, ctx) == Ok(ledger)
      ensures ledger == if old(ledger).policy.Some? then old(ledger) else
        old(ledger).(policy := Some(Policy("MAJORITY", 51, 168, ctx.now / 1_000_000_000, ctx.client)))
    {
      if ledger.policy.Some? {
        return;
      }
      ledger := ledger.(policy := Some(Policy("MAJORITY", 51, DEFAULT_EXPIRY_HOURS, Seconds(ctx.now), ctx.client)));
    }

    method ChangePolicy(policyType: string, thresholdPct: int, expiryHours: int,
                        ctx: Context) returns (error: Option<Error>)
      modifies this
      ensures match Invoke(old(ledger), UpdatePolicy(policyType, thresholdPct, expiryHours), ctx)
              case Ok(after) => error == None && ledger == after
              case Err(e) => error == Some(e) && ledger == old(ledger)
      ensures error == None <==>
        && (policyType == "MAJORITY" || policyType == "UNANIMOUS" || policyType == "THRESHOLD")
        && 1 <= thresholdPct <= 100 && expiryHours >= 1
      ensures error == None ==> ledger == old(ledger).(
        policy := Some(Policy(policyType, thresholdPct, expiryHours, ctx.now / 1_000_000_000, ctx.client)))
    {
      if policyType != "MAJORITY" && policyType != "UNANIMOUS" && policyType != "THRESHOLD" {
        return Some(BadPolicy);
      }
      if thresholdPct < 1 || thresholdPct > 100 {
        return Some(BadPolicy);
      }
      if expiryHours < 1 {
        return Some(BadPolicy);
      }
      ledger := ledger.(policy := Some(Policy(policyType, thresholdPct, expiryHours, Seconds(ctx.now), ctx.client)));
      return None;
    }

    method FindPending(msp: string) returns (found: bool)
      ensures found <==> HasPending(ledger.requests, msp)
    {
      var left := ledger.requests.Keys;
      while left != {}
        invariant left <= ledger.requests.Keys
        invariant forall id | id in ledger.requests && id !in left ::
          ledger.requests[id].msp != msp || !ledger.requests[id].status.Pending?
        decreases left
      {
        var id :| id in left;
        if ledger.requests[id].msp == msp && ledger.requests[id].status == Pending {
          return true;
        }
        left := left - {id};
      }
      return false;
    }

    method CountExistingOrgs(countOk: bool) returns (count: nat)
      ensures count == if countOk then |ledger.orgs| else 0
    {
      if !countOk {
        return 0;
      }
      count := 0;
      var left := ledger.orgs.Keys;
      while left != {}
        invariant count + |left| == |ledger.orgs.Keys|
        decreases left
      {
        var msp :| msp in left;
        left := left - {msp};
        count := count + 1;
      }
    }

    method SubmitJoin(call: Call, ctx: Context) returns (error: Option<Error>)
      requires call.RequestJoin?
      modifies this
      ensures match Invoke(old(ledger), call, ctx)
              case Ok(after) => error == None && ledger == after
              case Err(e) => error == Some(e) && ledger == old(ledger)
      ensures error == None <==>
        && call.orgName != "" && call.msp != "" && call.domain != "" && 1 <= call.anchorPort <= 65535 && call.scanOk
        && forall id | id in old(ledger).requests && old(ledger).requests[id].status == Pending ::
             old(ledger).requests[id].msp != call.msp
      ensures error == None ==>
        var total := if call.countOk then |old(ledger).orgs| else 0;
        var at := ctx.now / 1_000_000_000;
        ledger == old(ledger).(requests := old(ledger).requests[ctx.txId := Request(
          call.orgName, call.msp, call.domain, call.description, call.anchorHost, call.anchorPort, Pending,
          map[], map[], total / 2 + 1, total, at, at, None, ctx.client)])
    {
      if call.orgName == "" || call.msp == "" || call.domain == "" {
        return Some(MissingField);
      }
      if call.anchorPort <= 0 || call.anchorPort > 65535 {
        return Some(BadPort);
      }
      if !call.scanOk {
        return Some(QueryFailed);
      }
      var pending := FindPending(call.msp);
      if pending {
        return Some(AlreadyPending);
      }
      var totalOrgs := CountExistingOrgs(call.countOk);
      var requiredAck := Majority(totalOrgs);
      var at := Seconds(ctx.now);
      var req := Request(call.orgName, call.msp, call.domain, call.description, call.anchorHost, call.anchorPort,
                         Pending, map[], map[], requiredAck, totalOrgs, at, at, None, ctx.client);
      ledger := ledger.(requests := ledger.requests[ctx.txId := req]);
      return None;
    }

    method CastJoinVote(id: string, approve: bool, reason: string, ctx: Context) returns (error: Option<Error>)
      modifies this
      ensures match Invoke(old(ledger), CastVote(id, approve, reason), ctx)
              case Ok(after) => error == None && ledger == after
              case Err(e) => error == Some(e) && ledger == old(ledger)
      ensures id in old(ledger).requests && old(ledger).requests[id].status == Pending ==>
        var hours := if old(ledger).policy == None then 168 else old(ledger).policy.value.expiryHours;
        -MOST_HOURS <= hours <= MOST_HOURS ==>
          (error == Some(RequestExpired) <==>
           ctx.now > old(ledger).requests[id].createdAt * 1_000_000_000 + hours * 3_600_000_000_000)
      ensures error == None ==>
        && id in old(ledger).requests && id in ledger.requests
        && var before, after, at := old(ledger).requests[id], ledger.requests[id], ctx.now / 1_000_000_000;
        && before.status == Pending
        && ctx.client != before.msp && ctx.client !in before.approvals && ctx.client !in before.rejections
        && ledger.votes == old(ledger).votes[VoteKey(id, ctx.client) := VoteRecord(approve, reason, at)]
        && after.approvals == (if approve then before.approvals[ctx.client := at] else before.approvals)
        && after.rejections == (if approve then before.rejections else before.rejections[ctx.client := at])
        && after.status == (if after.totalOrgs - |after.rejections| < after.requiredAck then Rejected
                            else if |after.approvals| >= after.requiredAck then Approved else Pending)
    {
      WrapExact(ExpiryHours(ledger) * 3_600_000_000_000);
      if id !in ledger.requests {
        return Some(NotFound);
      }
      var work, req, at := ledger, ledger.requests[id], Seconds(ctx.now);
      if req.status != Pending {
        return Some(NotPending);
      }
      if IsExpired(req.createdAt, ExpiryHours(ledger), ctx.now) {
        // Written to the copy, but the error keeps it from being committed.
        var expired := req.(status := Expired, updatedAt := at, resolvedAt := Some(at));
        work := work.(requests := work.requests[id := expired]);
        return Some(RequestExpired);
      }
      if ctx.client == req.msp {
        return Some(OwnRequest);
      }
      if ctx.client in req.approvals {
        return Some(AlreadyVoted);
      }
      if ctx.client in req.rejections {
        return Some(AlreadyVoted);
      }
      work := work.(votes := work.votes[VoteKey(id, ctx.client) := VoteRecord(approve, reason, at)]);
      if approve {
        req := req.(approvals := req.approvals[ctx.client := at]);
      } else {
        req := req.(rejections := req.rejections[ctx.client := at]);
      }
      req := req.(updatedAt := at);
      if |req.approvals| >= req.requiredAck {
        req := req.(status := Approved, resolvedAt := Some(at));
        work := work.(orgs := work.orgs[req.msp := Org(req.msp, req.orgName, req.domain, at)]);
      }
      var maxPossibleApprovals := req.totalOrgs - |req.rejections|;
      if maxPossibleApprovals < req.requiredAck {
        req := req.(status := Rejected, resolvedAt := Some(at));
      }
      work := work.(requests := work.requests[id := req]);
      ledger := work;
      return None;
    }

    method RegisterOrgs(parsed: Option<seq<Org>>, ctx: Context) returns (error: Option<Error>)
      modifies this
      ensures match Invoke(old(ledger), RegisterExistingOrgs(parsed), ctx)
              case Ok(after) => error == None && ledger == after
              case Err(e) => error == Some(e) && ledger == old(ledger)
    {
      if parsed.None? {
        return Some(BadJson);
      }
      var orgs, at := parsed.value, Seconds(ctx.now);
      for i := 0 to |orgs|
        invariant ledger == old(ledger).(orgs := Registered(old(ledger).orgs, orgs[..i], at))
      {
        assert orgs[..i + 1][..i] == orgs[..i];
        ledger := ledger.(orgs := ledger.orgs[orgs[i].msp := orgs[i].(registeredAt := at)]);
      }
      assert orgs[..|orgs|] == orgs;
      return None;
    }
  }
}
