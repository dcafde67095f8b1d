/** Merging votes does not depend on the order or the repetition of deliveries. */
module JoinConvergence {
  import opened Options
  import opened JoinRequests
  import opened JoinNode
  import opened JoinNetwork
  import opened JoinSafety

  // ------------------------------------------------------------- one request

  datatype Delivery = VoteIn(vote: Vote, now: int) | RequestIn(votes: seq<Vote>, now: int)

  function Deliver(r: JoinRequest, d: Delivery): JoinRequest {
    match d
    case VoteIn(v, now) => TakeVote(r, v, now)
    case RequestIn(votes, now) => TakeRequest(r, votes, now)
  }

  function DeliverAll(r: JoinRequest, ds: seq<Delivery>): JoinRequest {
    if ds == [] then r else Deliver(DeliverAll(r, ds[..|ds| - 1]), ds[|ds| - 1])
  }

  function Carried(d: Delivery): set<Vote> {
    match d case VoteIn(v, _) => {v} case RequestIn(votes, _) => VoteSet(votes)
  }

  function CarriedByAll(ds: seq<Delivery>): set<Vote> {
    if ds == [] then {} else CarriedByAll(ds[..|ds| - 1]) + Carried(ds[|ds| - 1])
  }

  /** What a node that runs no approval flow holds: approved exactly when its votes are a majority. */
  ghost predicate Settled(r: JoinRequest) {
    Distinct(r.votes) && r.status == if MajorityReached(r) then Approved else Pending
  }

  /** With their writes done, the two handlers for arriving packets change the stored request by
      `Deliver` and nothing else. */
  lemma HandlersDeliver(cfg: NodeConfig, s: NodeState, r: JoinRequest, v: Vote, now: int)
    requires r.id in s.requests && s.requests[r.id].id == r.id
    ensures ReceiveVote(cfg, s, r.id, v, now, true, true, true).requests ==
            s.requests[r.id := Deliver(s.requests[r.id], VoteIn(v, now))]
    ensures ReceiveRequest(cfg, s, r, now, true, true, true).requests ==
            s.requests[r.id := Deliver(s.requests[r.id], RequestIn(r.votes, now))]
  {
  }

  lemma {:induction false} MergeAdds(have: seq<Vote>, incoming: seq<Vote>)
    requires Distinct(have) && Consistent(VoteSet(have) + VoteSet(incoming))
    ensures var merged := MergeVotes(have, incoming);
      Distinct(merged) && VoteSet(merged) == VoteSet(have) + VoteSet(incoming)
  {
    if incoming != [] {
      var front, v := incoming[..|incoming| - 1], incoming[|incoming| - 1];
      assert incoming == front + [v] && v in VoteSet(incoming);
      assert VoteSet(incoming) == VoteSet(front) + {v};
      MergeAdds(have, front);
      var merged := MergeVotes(have, front);
      if HasVoted(merged, v.voterMsp) {
        var w :| w in merged && w.voterMsp == v.voterMsp;
        assert w in VoteSet(merged);
        assert v in VoteSet(merged);
      } else {
        DistinctAppend(merged, v);
      }
    }
  }

  lemma ResolveSettles(r: JoinRequest, votes: seq<Vote>, now: int)
    requires Settled(r) && Distinct(votes) && VoteSet(r.votes) <= VoteSet(votes)
    ensures Settled(Resolve(r.(votes := votes), now)) && Resolve(r.(votes := votes), now).votes == votes
  {
    CountIsCardinality(r.votes, r.totalPeers);
    CountIsCardinality(votes, r.totalPeers);
    ApproversGrow(VoteSet(r.votes), VoteSet(votes), r.totalPeers);
  }

  lemma DeliverAdds(r: JoinRequest, d: Delivery)
    requires Settled(r) && Consistent(VoteSet(r.votes) + Carried(d))
    ensures var r' := Deliver(r, d);
      Settled(r') && VoteSet(r'.votes) == VoteSet(r.votes) + Carried(d) && r'.totalPeers == r.totalPeers
  {
    match d
    case VoteIn(v, now) =>
      if HasVoted(r.votes, v.voterMsp) {
        var w :| w in r.votes && w.voterMsp == v.voterMsp;
        assert w in VoteSet(r.votes);
      } else {
        DistinctAppend(r.votes, v);
        ResolveSettles(r, r.votes + [v], now);
      }
    case RequestIn(votes, now) =>
      MergeAdds(r.votes, votes);
      ResolveSettles(r, MergeVotes(r.votes, votes), now);
  }

  lemma {:induction false} DeliverAllAdds(r: JoinRequest, ds: seq<Delivery>)
    requires Settled(r) && Consistent(VoteSet(r.votes) + CarriedByAll(ds))
    ensures var r' := DeliverAll(r, ds);
      Settled(r') && VoteSet(r'.votes) == VoteSet(r.votes) + CarriedByAll(ds) && r'.totalPeers == r.totalPeers
  {
    if ds != [] {
      DeliverAllAdds(r, ds[..|ds| - 1]);
      DeliverAdds(DeliverAll(r, ds[..|ds| - 1]), ds[|ds| - 1]);
    }
  }

  /** Deliveries that carry the same votes, in whatever grouping, order and number, leave the same
      vote map and the same status, which is approved exactly on a majority. */
  lemma OrderIsIrrelevant(r: JoinRequest, ds: seq<Delivery>, es: seq<Delivery>)
    requires Settled(r) && Consistent(VoteSet(r.votes) + CarriedByAll(ds)) && CarriedByAll(ds) == CarriedByAll(es)
    ensures var a, b := DeliverAll(r, ds), DeliverAll(r, es);
      && a.status == b.status && (a.status == Approved <==> MajorityReached(a))
      && forall msp :: VoteOf(a.votes, msp) == VoteOf(b.votes, msp)
  {
    DeliverAllAdds(r, ds);
    DeliverAllAdds(r, es);
    SameVotesSameOutcome(DeliverAll(r, ds).votes, DeliverAll(r, es).votes, r.totalPeers);
  }

  lemma {:induction false} MergeNothing(have: seq<Vote>, incoming: seq<Vote>)
    requires forall v | v in incoming :: v in have
    ensures MergeVotes(have, incoming) == have
  {
    if incoming != [] {
      assert incoming[|incoming| - 1] in have;
      MergeNothing(have, incoming[..|incoming| - 1]);
    }
  }

  /** A delivery that brings nothing new leaves the request exactly as it is. */
  lemma RedeliveryIsHarmless(r: JoinRequest, d: Delivery)
    requires Carried(d) <= VoteSet(r.votes)
    ensures Deliver(r, d) == r
  {
    match d
    case VoteIn(v, _) => assert v in VoteSet(r.votes);
    case RequestIn(votes, _) =>
      forall v | v in votes ensures v in r.votes { assert v in VoteSet(votes); }
      MergeNothing(r.votes, votes);
  }

  // --------------------------------------------------------------- whole runs

  /** The changed request reaches the store, in the save itself or in the save of its approval. */
  predicate Reaches(r: JoinRequest, saved: bool, marked: bool) { saved || (Marks(r) && marked) }

  /** The votes on request `id` that one event brings to a node's store. */
  function Brought(cfg: NodeConfig, s: NodeState, e: Event, id: string): set<Vote> {
    match e
    case Casting(_, i, approve, voteTime, _, save, _) =>
      if i == id && save != Failed then {OwnVote(cfg, approve, voteTime)} else {}
    case VoteArrives(_, _, i, v, _, read, saved, marked) =>
      if i == id && id in s.requests && read
         && (HasVoted(s.requests[id].votes, v.voterMsp) || Reaches(WithVote(s.requests[id], v), saved, marked))
      then {v} else {}
    case _ => {}
  }

  /** What one step of the system brings to node `n`. */
  ghost function BroughtBy(cfgs: Configs, sys: System, e: Event, n: string, id: string): set<Vote> {
    if e.n == n && Enabled(cfgs, sys, e) then Brought(cfgs[n], sys.nodes[n], e, id) else {}
  }

  /** The votes that node `n` has taken in on request `id` since it holds the request. */
  ghost function TakenIn(cfgs: Configs, start: System, es: seq<Event>, n: string, id: string): set<Vote> {
    if es == [] then {}
    else
      var front := es[..|es| - 1];
      TakenIn(cfgs, start, front, n, id) + BroughtBy(cfgs, Run(cfgs, start, front), es[|es| - 1], n, id)
  }

  /** A failed flow may have written an older list over the request it rejected. */
  ghost predicate Tracks(s: NodeState, id: string, taken: set<Vote>) {
    if id in s.requests then s.requests[id].status == Rejected || VoteSet(s.requests[id].votes) == taken
    else taken == {}
  }

  lemma {:induction false} TakingTracks(cfg: NodeConfig, s: NodeState, i: string, v: Vote, now: int, saved: bool,
                                        marked: bool,
                                        id: string, taken: set<Vote>)
    requires i in s.requests && s.requests[i].id == i && Distinct(s.requests[i].votes)
    requires !HasVoted(s.requests[i].votes, v.voterMsp) && Tracks(s, id, taken)
    ensures Tracks(SaveAndCheck(cfg, s, WithVote(s.requests[i], v), now, saved, marked), id,
                   taken + if i == id && Reaches(WithVote(s.requests[i], v), saved, marked) then {v} else {})
  {
    DistinctAppend(s.requests[i].votes, v);
  }

  lemma {:induction false} CastingTracks(cfg: NodeConfig, s: NodeState, e: Event, id: string, taken: set<Vote>)
    requires e.Casting? && Ready(cfg, s, e) && s.requests[e.id].id == e.id && Distinct(s.requests[e.id].votes)
    requires Tracks(s, id, taken)
    ensures Tracks(Handle(cfg, s, e), id, taken + Brought(cfg, s, e, id))
  {
    var v := OwnVote(cfg, e.approve, e.voteTime);
    DistinctAppend(s.requests[e.id].votes, v);
    TakingTracks(cfg, Broadcast(cfg, s, a => VotePacket(a, e.id, v)), e.id, v, e.now, true, e.marked, id, taken);
  }

  /** A vote that arrives again is in the list already, as every organisation cast one vote. */
  lemma {:induction false} VoteTracks(cfg: NodeConfig, s: NodeState, e: Event, issued: map<string, int>,
                                      ballots: set<Ballot>,
                                      id: string, taken: set<Vote>)
    requires NodeOk(cfg, s, issued, ballots) && e.VoteArrives? && Ballot(e.id, e.vote) in ballots
    requires Tracks(s, id, taken)
    requires OneBallot(ballots)
    ensures Tracks(Handle(cfg, s, e), id, taken + Brought(cfg, s, e, id))
  {
    if e.id in s.requests && e.read {
      var r := s.requests[e.id];
      assert StoredOk(cfg, e.id, r, issued, ballots);
      if HasVoted(r.votes, e.vote.voterMsp) {
        var w :| w in r.votes && w.voterMsp == e.vote.voterMsp;
        assert Ballot(e.id, w) == Ballot(e.id, e.vote);
        assert e.vote in VoteSet(r.votes);
      } else {
        TakingTracks(cfg, s, e.id, e.vote, e.now, e.saved, e.marked, id, taken);
      }
    }
  }

  lemma {:induction false} HandleTracks(cfg: NodeConfig, s: NodeState, e: Event, issued: map<string, int>,
                                        ballots: set<Ballot>,
                                        id: string, taken: set<Vote>)
    requires NodeOk(cfg, s, issued, ballots) && OneBallot(ballots) && Ready(cfg, s, e) && ReadOk(e)
    requires Tracks(s, id, taken)
    requires e.Submitting? ==> SubmittedBy(s, e).id !in issued
    requires e.RequestArrives? ==> PacketOk(RequestPacket(e.to, e.request), issued, ballots)
    requires e.VoteArrives? ==> Ballot(e.id, e.vote) in ballots
    ensures Tracks(Handle(cfg, s, e), id, taken + Brought(cfg, s, e, id))
  {
    if e.Casting? {
      assert StoredOk(cfg, e.id, s.requests[e.id], issued, ballots);
      CastingTracks(cfg, s, e, id, taken);
    } else if e.VoteArrives? {
      VoteTracks(cfg, s, e, issued, ballots, id, taken);
    } else {
      assert id in s.requests ==> StoredOk(cfg, id, s.requests[id], issued, ballots);
      if e.RequestArrives? {
        RequestArrivesOk(cfg, s, e, issued, ballots);
      }
    }
  }

  lemma {:induction false} StepTracks(cfgs: Configs, sys: System, e: Event, n: string, id: string, taken: set<Vote>)
    requires Inv(cfgs, sys) && n in sys.nodes && ReadOk(e) && Tracks(sys.nodes[n], id, taken) && OneBallot(sys.ballots)
    ensures n in Step(cfgs, sys, e).nodes
    ensures Tracks(Step(cfgs, sys, e).nodes[n], id, taken + BroughtBy(cfgs, sys, e, n, id))
  {
    if Enabled(cfgs, sys, e) && e.n == n {
      ArrivalsOk(cfgs, sys, e);
      HandleTracks(cfgs[n], sys.nodes[n], e, sys.issued, sys.ballots, id, taken);
    }
  }

  /** On every node, orderers included, the stored votes of a request that is not rejected are
      exactly those taken in, whatever writes fail. */
  lemma {:induction false} ListIsWhatWasTakenIn(cfgs: Configs, start: System, es: seq<Event>, n: string, id: string)
    requires Initial(cfgs, start) && n in cfgs && forall e | e in es :: ReadOk(e)
    ensures n in Run(cfgs, start, es).nodes
    ensures Tracks(Run(cfgs, start, es).nodes[n], id, TakenIn(cfgs, start, es, n, id))
  {
    if es != [] {
      var front, e := es[..|es| - 1], es[|es| - 1];
      assert e in es && forall f | f in front :: f in es;
      ListIsWhatWasTakenIn(cfgs, start, front, n, id);
      RunKeeps(cfgs, start, front);
      OneBallotEach(cfgs, start, front);
      StepTracks(cfgs, Run(cfgs, start, front), e, n, id, TakenIn(cfgs, start, front, n, id));
    }
  }

  // ------------------------------------------------------------------- approvals are saved

  /** The node saves every approval, whether it runs approval flows or not. */
  ghost predicate ApprovalsSaved(es: seq<Event>, n: string) {
    forall e | e in es && e.n == n && (e.RequestArrives? || e.Casting? || e.VoteArrives?) ::
      e.marked && (e.Casting? ==> e.save != Unreported)
  }

  ghost predicate Decided(s: NodeState) {
    forall id | id in s.requests :: s.requests[id].status == Pending ==> !MajorityReached(s.requests[id])
  }

  lemma {:induction false} TakingDecides(cfg: NodeConfig, s: NodeState, i: string, v: Vote, now: int, saved: bool)
    requires i in s.requests && s.requests[i].id == i && Decided(s)
    ensures Decided(SaveAndCheck(cfg, s, WithVote(s.requests[i], v), now, saved, true))
  {}

  /** A request without votes has no majority. */
  lemma {:induction false} HandleDecides(cfg: NodeConfig, s: NodeState, e: Event, issued: map<string, int>,
                                         ballots: set<Ballot>)
    requires NodeOk(cfg, s, issued, ballots) && Ready(cfg, s, e) && Decided(s)
    requires e.RequestArrives? ==> PacketOk(RequestPacket(e.to, e.request), issued, ballots)
    requires e.RequestArrives? || e.Casting? || e.VoteArrives? ==> e.marked
    requires e.Casting? ==> e.save != Unreported
    ensures Decided(Handle(cfg, s, e))
  {
    if e.Casting? {
      var v := OwnVote(cfg, e.approve, e.voteTime);
      assert StoredOk(cfg, e.id, s.requests[e.id], issued, ballots);
      TakingDecides(cfg, Broadcast(cfg, s, a => VotePacket(a, e.id, v)), e.id, v, e.now, true);
    } else if e.VoteArrives? && e.id in s.requests {
      assert StoredOk(cfg, e.id, s.requests[e.id], issued, ballots);
      TakingDecides(cfg, s, e.id, e.vote, e.now, e.saved);
    } else if e.RequestArrives? {
      RequestArrivesOk(cfg, s, e, issued, ballots);
    }
  }

  lemma {:induction false} StepDecides(cfgs: Configs, sys: System, e: Event, n: string)
    requires Inv(cfgs, sys) && n in sys.nodes && Decided(sys.nodes[n]) && ApprovalsSaved([e], n)
    ensures n in Step(cfgs, sys, e).nodes && Decided(Step(cfgs, sys, e).nodes[n])
  {
    if Enabled(cfgs, sys, e) && e.n == n {
      assert e in [e];
      ArrivalsOk(cfgs, sys, e);
      HandleDecides(cfgs[n], sys.nodes[n], e, sys.issued, sys.ballots);
    }
  }

  lemma {:induction false} RunDecides(cfgs: Configs, start: System, es: seq<Event>, n: string)
    requires Initial(cfgs, start) && n in cfgs && ApprovalsSaved(es, n)
    ensures n in Run(cfgs, start, es).nodes && Decided(Run(cfgs, start, es).nodes[n])
  {
    if es != [] {
      var front, e := es[..|es| - 1], es[|es| - 1];
      assert e in es && forall f | f in front :: f in es;
      RunDecides(cfgs, start, front, n);
      RunKeeps(cfgs, start, front);
      StepDecides(cfgs, Run(cfgs, start, front), e, n);
    }
  }

  /** The converse of approval safety: on a node that saves its approvals, a request that holds
      enough approving votes is not pending. */
  lemma EnoughApprovalsDecide(cfgs: Configs, start: System, es: seq<Event>, n: string, id: string)
    requires Initial(cfgs, start) && n in cfgs && ApprovalsSaved(es, n) && Holds(Run(cfgs, start, es), n, id)
    requires
      var r := Stored(Run(cfgs, start, es), n, id);
      if r.totalPeers > 0
      then |set v | v in r.votes && v.approve && v.voterMsp != "OrdererMSP" :: v.voterMsp| >= r.totalPeers / 2 + 1
      else r.totalPeers == 0 && exists v :: v in r.votes && v.approve
    ensures Stored(Run(cfgs, start, es), n, id).status in {Approved, Rejected}
  {
    RunKeeps(cfgs, start, es);
    RunDecides(cfgs, start, es, n);
    var sys := Run(cfgs, start, es);
    var r := Stored(sys, n, id);
    assert StoredOk(cfgs[n], id, r, sys.issued, sys.ballots);
    MajorityMeans(r);
    if r.totalPeers > 0 {
      assert ApprovingMsps(r.votes, r.totalPeers) ==
             set v | v in r.votes && v.approve && v.voterMsp != "OrdererMSP" :: v.voterMsp;
    } else {
      var v :| v in r.votes && v.approve;
      assert v.voterMsp in ApprovingMsps(r.votes, r.totalPeers);
    }
  }

  /** Two nodes, orderers included, that have taken in the same votes on a request and have not
      rejected it agree on its vote map; if both save their approvals, they also agree on its
      status, which is approved exactly when the votes are a majority. */
  lemma Convergence(cfgs: Configs, start: System, es: seq<Event>, n: string, m: string, id: string)
    requires Initial(cfgs, start) && n in cfgs && m in cfgs && forall e | e in es :: ReadOk(e)
    requires Holds(Run(cfgs, start, es), n, id) && Holds(Run(cfgs, start, es), m, id)
    requires Stored(Run(cfgs, start, es), n, id).status != Rejected
    requires Stored(Run(cfgs, start, es), m, id).status != Rejected
    requires TakenIn(cfgs, start, es, n, id) == TakenIn(cfgs, start, es, m, id)
    ensures var a, b := Stored(Run(cfgs, start, es), n, id), Stored(Run(cfgs, start, es), m, id);
      forall msp :: VoteOf(a.votes, msp) == VoteOf(b.votes, msp)
    ensures ApprovalsSaved(es, n) && ApprovalsSaved(es, m) ==>
      var a, b := Stored(Run(cfgs, start, es), n, id), Stored(Run(cfgs, start, es), m, id);
      a.status == b.status && (a.status == Approved <==> MajorityReached(a))
  {
    RunKeeps(cfgs, start, es);
    ListIsWhatWasTakenIn(cfgs, start, es, n, id);
    ListIsWhatWasTakenIn(cfgs, start, es, m, id);
    var sys := Run(cfgs, start, es);
    var a, b := Stored(sys, n, id), Stored(sys, m, id);
    assert StoredOk(cfgs[n], id, a, sys.issued, sys.ballots) && StoredOk(cfgs[m], id, b, sys.issued, sys.ballots);
    SameVotesSameOutcome(a.votes, b.votes, a.totalPeers);
    if ApprovalsSaved(es, n) && ApprovalsSaved(es, m) {
      RunDecides(cfgs, start, es, n);
      RunDecides(cfgs, start, es, m);
    }
  }
}
