/** What every run of the join protocol guarantees, whatever reads and writes fail, and what it
    guarantees as long as a request that a node holds can be read when it arrives again. */
module JoinSafety {
  import opened Options
  import opened Helpers
  import opened JoinRequests
  import opened JoinNode
  import opened JoinNetwork

  predicate Holds(sys: System, n: string, id: string) {
    n in sys.nodes && id in sys.nodes[n].requests
  }

  function Stored(sys: System, n: string, id: string): JoinRequest
    requires Holds(sys, n, id)
  {
    sys.nodes[n].requests[id]
  }

  // ------------------------------------------------------------------- cast votes

  /** The i-th event is `m` itself deciding on request `id` with vote `v`. */
  ghost predicate CastAt(cfgs: Configs, start: System, es: seq<Event>, i: nat, m: string, id: string, v: Vote) {
    && i < |es| && es[i].Casting? && es[i].n == m && es[i].id == id && m in cfgs
    && Enabled(cfgs, Run(cfgs, start, es[..i]), es[i])
    && v.voterMsp == m && v.approve == es[i].approve && v.timestamp == es[i].voteTime
  }

  /** A logged vote was cast by its own organisation's node, in some earlier step. */
  lemma {:induction false} LoggedVotesWereCast(cfgs: Configs, start: System, es: seq<Event>, b: Ballot)
    requires Initial(cfgs, start) && b in Run(cfgs, start, es).ballots
    ensures exists i: nat :: CastAt(cfgs, start, es, i, b.vote.voterMsp, b.id, b.vote)
  {
    if es != [] {
      var front := es[..|es| - 1];
      if b in Run(cfgs, start, front).ballots {
        LoggedVotesWereCast(cfgs, start, front, b);
        var i: nat :| CastAt(cfgs, start, front, i, b.vote.voterMsp, b.id, b.vote);
        assert front[..i] == es[..i];
        assert CastAt(cfgs, start, es, i, b.vote.voterMsp, b.id, b.vote);
      } else {
        assert CastAt(cfgs, start, es, |es| - 1, b.vote.voterMsp, b.id, b.vote);
      }
    }
  }

  /** The organisations, the orderer aside, that really cast an approving vote on `id`. */
  ghost function ReallyApproved(ballots: set<Ballot>, id: string): set<string> {
    set b | b in ballots && b.id == id && b.vote.approve && b.vote.voterMsp != "OrdererMSP" :: b.vote.voterMsp
  }

  /** Wherever a request has left pending, a majority of the network's organisations really
      approved it: more than half of TotalPeers, none of them the orderer; or one organisation when
      TotalPeers is 0. TotalPeers is the size fixed at submission, on every node. */
  lemma ApprovalSafety(cfgs: Configs, start: System, es: seq<Event>, n: string, id: string)
    requires Initial(cfgs, start) && Holds(Run(cfgs, start, es), n, id)
    ensures var sys := Run(cfgs, start, es);
      id in sys.issued && Stored(sys, n, id).totalPeers == sys.issued[id]
    ensures var sys := Run(cfgs, start, es);
      Stored(sys, n, id).status == Approved || Stored(sys, n, id).status == Rejected ==>
        && (sys.issued[id] > 0 ==> |ReallyApproved(sys.ballots, id)| >= sys.issued[id] / 2 + 1)
        && (sys.issued[id] <= 0 ==> exists b :: b in sys.ballots && b.id == id && b.vote.approve)
  {
    RunKeeps(cfgs, start, es);
    var sys := Run(cfgs, start, es);
    var r := Stored(sys, n, id);
    assert StoredOk(cfgs[n], id, r, sys.issued, sys.ballots);
    if r.status != Pending {
      MajorityMeans(r);
      ApproversReal(r, sys.ballots);
    }
  }

  lemma ApproversReal(r: JoinRequest, ballots: set<Ballot>)
    requires forall v | v in r.votes :: Ballot(r.id, v) in ballots
    ensures r.totalPeers != 0 ==>
      |ApprovingMsps(r.votes, r.totalPeers)| <= |ReallyApproved(ballots, r.id)|
    ensures ApprovingMsps(r.votes, r.totalPeers) != {} ==>
      exists b :: b in ballots && b.id == r.id && b.vote.approve
  {
    if r.totalPeers != 0 {
      forall m | m in ApprovingMsps(r.votes, r.totalPeers) ensures m in ReallyApproved(ballots, r.id) {
        var v :| v in r.votes && v.approve && v.voterMsp != "OrdererMSP" && v.voterMsp == m;
        assert Ballot(r.id, v) in ballots;
      }
      SubsetSize(ApprovingMsps(r.votes, r.totalPeers), ReallyApproved(ballots, r.id));
    }
    if m :| m in ApprovingMsps(r.votes, r.totalPeers) {
      var v :| v in r.votes && v.approve && v.voterMsp == m;
      assert Ballot(r.id, v) in ballots;
    }
  }

  // ------------------------------------------------------------------ vote agreement

  /** A request that arrives and is held can be read; without a stored file there is nothing that
      could fail to be. */
  predicate ReadOk(e: Event) { e.RequestArrives? ==> e.read }

  ghost predicate NodeReads(es: seq<Event>, n: string) { forall e | e in es && e.n == n :: ReadOk(e) }

  /** The node's own vote is in its list, unless a failed flow has written its copy over it; and
      it has cast one vote a request. */
  ghost predicate OwnOk(n: string, s: NodeState, ballots: set<Ballot>) {
    && (forall b | b in ballots && b.vote.voterMsp == n :: Keeps(n, s, b.id))
    && (forall b, c | b in ballots && c in ballots && b.vote.voterMsp == c.vote.voterMsp == n && b.id == c.id :: b == c)
  }

  /** What `OwnOk` asks of one stored request. */
  ghost predicate Keeps(n: string, s: NodeState, id: string) {
    id in s.requests && (s.requests[id].status == Rejected || HasVoted(s.requests[id].votes, n))
  }

  lemma {:induction false} VoteIsIn(r: JoinRequest, v: Vote, msp: string, now: int)
    ensures HasVoted(WithVote(r, v).votes, msp) <==> HasVoted(r.votes, msp) || v.voterMsp == msp
    ensures Resolve(WithVote(r, v), now).votes == WithVote(r, v).votes
    ensures r.status == Rejected ==> Resolve(WithVote(r, v), now).status == Rejected
  {
    assert v in WithVote(r, v).votes && forall w | w in r.votes :: w in WithVote(r, v).votes;
  }

  /** Taking one more vote into a stored request keeps what is kept, and keeps a vote that is saved. */
  lemma {:induction false} TakingKeeps(cfg: NodeConfig, s: NodeState, id: string, v: Vote, now: int, saved: bool,
                                       marked: bool,
                                       n: string, other: string)
    requires id in s.requests && s.requests[id].id == id
    ensures
      var s' := SaveAndCheck(cfg, s, WithVote(s.requests[id], v), now, saved, marked);
      (Keeps(n, s, other) ==> Keeps(n, s', other)) && (saved && v.voterMsp == n ==> Keeps(n, s', id))
  {
    VoteIsIn(s.requests[id], v, n, now);
  }

  lemma {:induction false} CastingKeeps(cfg: NodeConfig, s: NodeState, e: Event, other: string)
    requires e.Casting? && Ready(cfg, s, e) && s.requests[e.id].id == e.id
    ensures Keeps(cfg.mspId, s, other) ==> Keeps(cfg.mspId, Handle(cfg, s, e), other)
    ensures e.save != Failed ==> Keeps(cfg.mspId, Handle(cfg, s, e), e.id)
  {
    var v := OwnVote(cfg, e.approve, e.voteTime);
    var s1 := Broadcast(cfg, s, a => VotePacket(a, e.id, v));
    VoteIsIn(s.requests[e.id], v, cfg.mspId, e.now);
    TakingKeeps(cfg, s1, e.id, v, e.now, true, e.marked, cfg.mspId, other);
  }

  lemma {:induction false} OtherEventKeeps(cfg: NodeConfig, s: NodeState, e: Event, issued: map<string, int>,
                                           ballots: set<Ballot>, n: string, other: string)
    requires NodeOk(cfg, s, issued, ballots) && Ready(cfg, s, e) && ReadOk(e) && !e.Casting?
    requires e.Submitting? ==> SubmittedBy(s, e).id !in issued
    requires e.RequestArrives? ==> PacketOk(RequestPacket(e.to, e.request), issued, ballots)
    requires Keeps(n, s, other)
    ensures Keeps(n, Handle(cfg, s, e), other)
  {
    assert StoredOk(cfg, other, s.requests[other], issued, ballots);
    if e.VoteArrives? && e.id in s.requests {
      assert StoredOk(cfg, e.id, s.requests[e.id], issued, ballots);
      TakingKeeps(cfg, s, e.id, e.vote, e.now, e.saved, e.marked, n, other);
    } else if e.RequestArrives? {
      RequestArrivesOk(cfg, s, e, issued, ballots);
    }
  }

  lemma {:induction false} OwnStep(cfg: NodeConfig, s: NodeState, e: Event, issued: map<string, int>,
                                   ballots: set<Ballot>)
    requires NodeOk(cfg, s, issued, ballots) && OwnOk(cfg.mspId, s, ballots) && Ready(cfg, s, e) && ReadOk(e)
    requires e.Submitting? ==> SubmittedBy(s, e).id !in issued
    requires e.RequestArrives? ==> PacketOk(RequestPacket(e.to, e.request), issued, ballots)
    ensures OwnOk(cfg.mspId, Handle(cfg, s, e), ballots + NewBallots(cfg, e))
  {
    var ballots' := ballots + NewBallots(cfg, e);
    forall b | b in ballots' && b.vote.voterMsp == cfg.mspId ensures Keeps(cfg.mspId, Handle(cfg, s, e), b.id) {
      if e.Casting? {
        assert StoredOk(cfg, e.id, s.requests[e.id], issued, ballots);
        CastingKeeps(cfg, s, e, b.id);
      } else {
        OtherEventKeeps(cfg, s, e, issued, ballots, cfg.mspId, b.id);
      }
    }
  }

  lemma {:induction false} OwnSystemStep(cfgs: Configs, sys: System, e: Event, n: string)
    requires Inv(cfgs, sys) && n in sys.nodes && OwnOk(n, sys.nodes[n], sys.ballots) && (e.n == n ==> ReadOk(e))
    ensures n in Step(cfgs, sys, e).nodes && OwnOk(n, Step(cfgs, sys, e).nodes[n], Step(cfgs, sys, e).ballots)
  {
    if Enabled(cfgs, sys, e) {
      if e.n == n {
        ArrivalsOk(cfgs, sys, e);
        OwnStep(cfgs[n], sys.nodes[n], e, sys.issued, sys.ballots);
      } else {
        OthersVotesOk(n, sys.nodes[n], sys.ballots, NewBallots(cfgs[e.n], e));
      }
    }
  }

  lemma {:induction false} OthersVotesOk(n: string, s: NodeState, ballots: set<Ballot>, more: set<Ballot>)
    requires OwnOk(n, s, ballots) && forall b | b in more :: b.vote.voterMsp != n
    ensures OwnOk(n, s, ballots + more)
  {}

  lemma {:induction false} OwnVotes(cfgs: Configs, start: System, es: seq<Event>, n: string)
    requires Initial(cfgs, start) && n in cfgs && NodeReads(es, n)
    ensures n in Run(cfgs, start, es).nodes && OwnOk(n, Run(cfgs, start, es).nodes[n], Run(cfgs, start, es).ballots)
  {
    if es != [] {
      var front, e := es[..|es| - 1], es[|es| - 1];
      assert e in es && forall f | f in front :: f in es;
      OwnVotes(cfgs, start, front, n);
      RunKeeps(cfgs, start, front);
      OwnSystemStep(cfgs, Run(cfgs, start, front), e, n);
    }
  }

  /** No list ever holds two votes of one organisation, and every vote in it was cast. As long as
      held requests can be read, any two nodes agree on an organisation's vote. */
  lemma VoteAgreement(cfgs: Configs, start: System, es: seq<Event>)
    requires Initial(cfgs, start)
    ensures var sys := Run(cfgs, start, es);
      && (forall n, id | Holds(sys, n, id) :: Distinct(Stored(sys, n, id).votes))
      && (forall n, id, v | Holds(sys, n, id) && v in Stored(sys, n, id).votes :: Ballot(id, v) in sys.ballots)
    ensures (forall e | e in es :: ReadOk(e)) ==>
      var sys := Run(cfgs, start, es);
      && OneBallot(sys.ballots)
      && (forall n, m, id, v, w | Holds(sys, n, id) && Holds(sys, m, id)
            && v in Stored(sys, n, id).votes && w in Stored(sys, m, id).votes && v.voterMsp == w.voterMsp :: v == w)
  {
    RunKeeps(cfgs, start, es);
    var sys := Run(cfgs, start, es);
    forall n, id | Holds(sys, n, id) ensures RequestOk(Stored(sys, n, id), sys.issued, sys.ballots) {
      assert StoredOk(cfgs[n], id, Stored(sys, n, id), sys.issued, sys.ballots);
    }
    assert forall n, id | Holds(sys, n, id) :: Stored(sys, n, id).id == id by {
      forall n, id | Holds(sys, n, id) ensures Stored(sys, n, id).id == id {
        assert StoredOk(cfgs[n], id, Stored(sys, n, id), sys.issued, sys.ballots);
      }
    }
    if forall e | e in es :: ReadOk(e) {
      OneBallotEach(cfgs, start, es);
      forall n, m, id, v, w | Holds(sys, n, id) && Holds(sys, m, id)
        && v in Stored(sys, n, id).votes && w in Stored(sys, m, id).votes && v.voterMsp == w.voterMsp
        ensures v == w
      {
        assert Ballot(id, v) in sys.ballots && Ballot(id, w) in sys.ballots;
      }
    }
  }

  /** Every organisation has cast one vote a request. */
  ghost predicate OneBallot(ballots: set<Ballot>) {
    forall b, c | b in ballots && c in ballots && b.id == c.id && b.vote.voterMsp == c.vote.voterMsp :: b == c
  }

  lemma OneBallotEach(cfgs: Configs, start: System, es: seq<Event>)
    requires Initial(cfgs, start) && forall e | e in es :: ReadOk(e)
    ensures OneBallot(Run(cfgs, start, es).ballots)
  {
    RunKeeps(cfgs, start, es);
    var sys := Run(cfgs, start, es);
    forall b, c | b in sys.ballots && c in sys.ballots && b.id == c.id && b.vote.voterMsp == c.vote.voterMsp
      ensures b == c
    {
      assert b.vote.voterMsp in sys.nodes;
      OwnVotes(cfgs, start, es, b.vote.voterMsp);
    }
  }

  /** The condition is needed: a held request that cannot be read when it arrives again is stored
      afresh, pending and without votes, whatever it was; and its node may vote again, either way. */
  lemma UnreadableRequestIsReset(cfgs: Configs, sys: System, n: string, to: string, r: JoinRequest, now: int,
                                 marked: bool,
                                 approve: bool, voteTime: int)
    requires Inv(cfgs, sys) && n in sys.nodes && r.id in sys.nodes[n].requests && InFlight(sys, RequestPacket(to, r))
    ensures
      var reset := Step(cfgs, sys, RequestArrives(n, to, r, now, false, true, marked));
      var again := Step(cfgs, reset, Casting(n, r.id, approve, voteTime, now, Done, true));
      && Holds(reset, n, r.id) && Stored(reset, n, r.id).status == Pending && Stored(reset, n, r.id).votes == []
      && Ballot(r.id, OwnVote(cfgs[n], approve, voteTime)) in again.ballots
  {
    var e := RequestArrives(n, to, r, now, false, true, marked);
    assert Enabled(cfgs, sys, e);
    ArrivalsOk(cfgs, sys, e);
    var reset := Step(cfgs, sys, e);
    assert Enabled(cfgs, reset, Casting(n, r.id, approve, voteTime, now, Done, true));
  }

  // ------------------------------------------------------------------------ status

  function Rank(s: Status): nat {
    match s case Unset => 0 case Pending => 1 case Approved => 2 case Rejected => 3
  }

  ghost predicate MovedForward(s: NodeState, s': NodeState, id: string)
    requires id in s.requests
  {
    && id in s'.requests && Rank(s.requests[id].status) <= Rank(s'.requests[id].status)
    && s.started <= s'.started
  }

  lemma {:induction false} TakingMovesForward(cfg: NodeConfig, s: NodeState, i: string, v: Vote, now: int, saved: bool,
                                              marked: bool, id: string)
    requires i in s.requests && s.requests[i].id == i && id in s.requests
    ensures MovedForward(s, SaveAndCheck(cfg, s, WithVote(s.requests[i], v), now, saved, marked), id)
  {}

  lemma {:induction false} CastingMovesForward(cfg: NodeConfig, s: NodeState, e: Event, id: string)
    requires e.Casting? && Ready(cfg, s, e) && s.requests[e.id].id == e.id && id in s.requests
    ensures MovedForward(s, Handle(cfg, s, e), id)
  {
    var v := OwnVote(cfg, e.approve, e.voteTime);
    TakingMovesForward(cfg, Broadcast(cfg, s, a => VotePacket(a, e.id, v)), e.id, v, e.now, true, e.marked, id);
  }

  lemma {:induction false} HandlerMovesForward(cfg: NodeConfig, s: NodeState, e: Event, issued: map<string, int>,
                                               ballots: set<Ballot>, id: string)
    requires NodeOk(cfg, s, issued, ballots) && Ready(cfg, s, e) && ReadOk(e) && id in s.requests
    requires e.Submitting? ==> SubmittedBy(s, e).id !in issued
    requires e.RequestArrives? ==> PacketOk(RequestPacket(e.to, e.request), issued, ballots)
    ensures MovedForward(s, Handle(cfg, s, e), id)
  {
    assert StoredOk(cfg, id, s.requests[id], issued, ballots);
    if e.RequestArrives? {
      RequestArrivesOk(cfg, s, e, issued, ballots);
    } else if e.Casting? {
      assert StoredOk(cfg, e.id, s.requests[e.id], issued, ballots);
      CastingMovesForward(cfg, s, e, id);
    } else if e.VoteArrives? && e.id in s.requests {
      assert StoredOk(cfg, e.id, s.requests[e.id], issued, ballots);
      TakingMovesForward(cfg, s, e.id, e.vote, e.now, e.saved, e.marked, id);
    }
  }

  lemma {:induction false} StepMovesForward(cfgs: Configs, sys: System, e: Event, n: string, id: string)
    requires Inv(cfgs, sys) && Holds(sys, n, id) && (e.n == n ==> ReadOk(e))
    ensures n in Step(cfgs, sys, e).nodes && MovedForward(sys.nodes[n], Step(cfgs, sys, e).nodes[n], id)
  {
    if e.n == n && Enabled(cfgs, sys, e) {
      ArrivalsOk(cfgs, sys, e);
      HandlerMovesForward(cfgs[n], sys.nodes[n], e, sys.issued, sys.ballots, id);
    }
  }

  /** Over a whole run a node never forgets a request, its status only moves forward through
      pending, approved, rejected, and its approval flows are only added to, whatever writes fail. */
  lemma {:induction false} StatusNeverMovesBack(cfgs: Configs, start: System, es: seq<Event>, i: nat, n: string,
                                                id: string)
    requires Initial(cfgs, start) && NodeReads(es, n) && i <= |es| && Holds(Run(cfgs, start, es[..i]), n, id)
    ensures n in Run(cfgs, start, es).nodes
    ensures MovedForward(Run(cfgs, start, es[..i]).nodes[n], Run(cfgs, start, es).nodes[n], id)
    decreases |es|
  {
    if i == |es| {
      assert es[..i] == es;
    } else {
      var front, e := es[..|es| - 1], es[|es| - 1];
      assert front[..i] == es[..i] && e in es && forall f | f in front :: f in es;
      StatusNeverMovesBack(cfgs, start, front, i, n, id);
      RunKeeps(cfgs, start, front);
      StepMovesForward(cfgs, Run(cfgs, start, front), e, n, id);
    }
  }
}
