/** The approval flows of one node: one a request, never at the price of the node's own vote, as
    long as the node's approvals are saved; and what happens when one is not. */
module JoinFlows {
  import opened Options
  import opened JoinRequests
  import opened JoinNode
  import opened JoinNetwork
  import opened JoinSafety

  ghost predicate FlowFailed(s: NodeState, k: nat) { k in s.ended && !s.ended[k] }

  ghost predicate HasFailedFlow(s: NodeState, id: string) {
    exists k | 0 <= k < |s.started| :: s.started[k].id == id && FlowFailed(s, k)
  }

  /** A flow is for a request that has left pending, and its copy has the node's own vote. */
  ghost predicate FlowOk(n: string, s: NodeState, k: nat, ballots: set<Ballot>)
    requires k < |s.started|
  {
    var id := s.started[k].id;
    && id in s.requests && s.requests[id].status in {Approved, Rejected}
    && forall b | b in ballots && b.vote.voterMsp == n && b.id == id :: HasVoted(s.started[k].votes, n)
  }

  ghost predicate FlowsOk(n: string, s: NodeState, ballots: set<Ballot>) {
    && (forall b | b in ballots && b.vote.voterMsp == n ::
          b.id in s.requests && HasVoted(s.requests[b.id].votes, n))
    && (forall k | 0 <= k < |s.started| :: FlowOk(n, s, k, ballots))
    && (forall j, k | 0 <= j < k < |s.started| :: s.started[j].id != s.started[k].id)
    && (forall id | id in s.requests && s.requests[id].status == Rejected :: HasFailedFlow(s, id))
  }

  /** The step starts an approval flow without its approval being saved. */
  predicate Unmarked(cfg: NodeConfig, s: NodeState, e: Event)
    requires Ready(cfg, s, e)
  {
    (e.RequestArrives? || e.Casting? || e.VoteArrives?) && !e.marked && |Handle(cfg, s, e).started| > |s.started|
  }

  // ----------------------------------------------------------------- one handler

  lemma {:induction false} VotesGrow(r: JoinRequest, v: Vote, now: int, n: string)
    ensures HasVoted(r.votes, n) || v.voterMsp == n ==>
      HasVoted(Resolve(WithVote(r, v), now).votes, n) && HasVoted(WithVote(r, v).votes, n)
  {
    VoteIsIn(r, v, n, now);
  }

  /** Taking a vote into the store, with the approval saved if there is one. `ballots'` has the
      node's own vote on this request only if the list has it. */
  lemma {:induction false} TakingKeepsFlows(cfg: NodeConfig, s: NodeState, id: string, v: Vote, now: int, saved: bool,
                                            marked: bool, ballots: set<Ballot>, ballots': set<Ballot>)
    requires FlowsOk(cfg.mspId, s, ballots) && id in s.requests && s.requests[id].id == id
    requires RunsApproval(cfg) && Marks(WithVote(s.requests[id], v)) ==> marked
    requires ballots <= ballots' && (ballots' != ballots ==> saved && v.voterMsp == cfg.mspId)
    requires forall b | b in ballots' && b !in ballots :: b.id == id && s.requests[id].status == Pending
    ensures FlowsOk(cfg.mspId, SaveAndCheck(cfg, s, WithVote(s.requests[id], v), now, saved, marked), ballots')
  {
    var r, n := s.requests[id], cfg.mspId;
    var s' := SaveAndCheck(cfg, s, WithVote(r, v), now, saved, marked);
    VotesGrow(r, v, now, n);
    forall k | 0 <= k < |s'.started| ensures FlowOk(n, s', k, ballots') {
      if k < |s.started| {
        assert FlowOk(n, s, k, ballots);
      }
    }
    forall j, k | 0 <= j < k < |s'.started| ensures s'.started[j].id != s'.started[k].id {
      assert FlowOk(n, s, j, ballots);
    }
    forall i | i in s'.requests && s'.requests[i].status == Rejected ensures HasFailedFlow(s', i) {
      FailedStays(s, s', i);
    }
  }

  lemma {:induction false} FailedStays(s: NodeState, s': NodeState, id: string)
    requires HasFailedFlow(s, id) && s.started <= s'.started && forall k | FlowFailed(s, k) :: FlowFailed(s', k)
    ensures HasFailedFlow(s', id)
  {
    var k :| 0 <= k < |s.started| && s.started[k].id == id && FlowFailed(s, k);
    assert s'.started[k].id == id;
  }

  lemma {:induction false} RunFailsKeepsFlows(cfg: NodeConfig, s: NodeState, k: nat, now: int, saved: bool,
                                              ballots: set<Ballot>)
    requires FlowsOk(cfg.mspId, s, ballots) && Running(s, k)
    ensures FlowsOk(cfg.mspId, ApprovalFails(s, k, now, saved), ballots)
    ensures HasFailedFlow(ApprovalFails(s, k, now, saved), s.started[k].id)
  {
    var s' := ApprovalFails(s, k, now, saved);
    assert FlowOk(cfg.mspId, s, k, ballots);
    assert s'.started[k].id == s.started[k].id && FlowFailed(s', k);
    forall j | 0 <= j < |s'.started| ensures FlowOk(cfg.mspId, s', j, ballots) {
      assert FlowOk(cfg.mspId, s, j, ballots);
    }
    forall id | id in s'.requests && s'.requests[id].status == Rejected ensures HasFailedFlow(s', id) {
      if id != s.started[k].id {
        FailedStays(s, s', id);
      }
    }
  }

  /** Peers, packets, flows that end well, and requests that are stored for the first time. */
  lemma {:induction false} NothingLostKeepsFlows(n: string, s: NodeState, s': NodeState, ballots: set<Ballot>)
    requires FlowsOk(n, s, ballots) && s'.started == s.started
    requires forall id | id in s.requests :: id in s'.requests && s'.requests[id] == s.requests[id]
    requires forall id | id in s'.requests && id !in s.requests :: s'.requests[id].status == Pending
    requires forall k | FlowFailed(s, k) :: FlowFailed(s', k)
    ensures FlowsOk(n, s', ballots)
  {
    forall k | 0 <= k < |s'.started| ensures FlowOk(n, s', k, ballots) {
      assert FlowOk(n, s, k, ballots);
    }
    forall id | id in s'.requests && s'.requests[id].status == Rejected ensures HasFailedFlow(s', id) {
      FailedStays(s, s', id);
    }
  }

  lemma {:induction false} CastingKeepsFlows(cfg: NodeConfig, s: NodeState, e: Event, issued: map<string, int>,
                                             ballots: set<Ballot>)
    requires NodeOk(cfg, s, issued, ballots) && FlowsOk(cfg.mspId, s, ballots) && e.Casting? && Ready(cfg, s, e)
    requires !Unmarked(cfg, s, e)
    ensures FlowsOk(cfg.mspId, Handle(cfg, s, e), ballots + NewBallots(cfg, e))
  {
    var v, ballots' := OwnVote(cfg, e.approve, e.voteTime), ballots + NewBallots(cfg, e);
    assert StoredOk(cfg, e.id, s.requests[e.id], issued, ballots);
    if e.save == Done {
      var s1 := Broadcast(cfg, s, a => VotePacket(a, e.id, v));
      NothingLostKeepsFlows(cfg.mspId, s, s1, ballots);
      TakingKeepsFlows(cfg, s1, e.id, v, e.now, true, e.marked, ballots, ballots');
    } else if e.save == Unreported {
      UnreportedKeepsFlows(cfg, s, e.id, v, ballots, ballots');
    } else {
      assert ballots' == ballots;
    }
  }

  lemma {:induction false} UnreportedKeepsFlows(cfg: NodeConfig, s: NodeState, id: string, v: Vote,
                                                ballots: set<Ballot>,
                                                ballots': set<Ballot>)
    requires FlowsOk(cfg.mspId, s, ballots) && id in s.requests && s.requests[id].id == id
    requires s.requests[id].status == Pending && v.voterMsp == cfg.mspId && ballots' == ballots + {Ballot(id, v)}
    ensures FlowsOk(cfg.mspId, s.(requests := s.requests[id := WithVote(s.requests[id], v)]), ballots')
  {
    var s' := s.(requests := s.requests[id := WithVote(s.requests[id], v)]);
    VotesGrow(s.requests[id], v, 0, cfg.mspId);
    forall k | 0 <= k < |s'.started| ensures FlowOk(cfg.mspId, s', k, ballots') {
      assert FlowOk(cfg.mspId, s, k, ballots);
    }
    forall i | i in s'.requests && s'.requests[i].status == Rejected ensures HasFailedFlow(s', i) {
      FailedStays(s, s', i);
    }
  }

  lemma {:induction false} HandlerKeepsFlows(cfg: NodeConfig, s: NodeState, e: Event, issued: map<string, int>,
                                             ballots: set<Ballot>)
    requires NodeOk(cfg, s, issued, ballots) && FlowsOk(cfg.mspId, s, ballots) && Ready(cfg, s, e) && ReadOk(e)
    requires e.Submitting? ==> SubmittedBy(s, e).id !in issued
    requires e.RequestArrives? ==> PacketOk(RequestPacket(e.to, e.request), issued, ballots)
    requires !Unmarked(cfg, s, e)
    ensures FlowsOk(cfg.mspId, Handle(cfg, s, e), ballots + NewBallots(cfg, e))
  {
    if e.Casting? {
      CastingKeepsFlows(cfg, s, e, issued, ballots);
    } else {
      assert ballots + NewBallots(cfg, e) == ballots;
      if e.RunFails? {
        RunFailsKeepsFlows(cfg, s, e.k, e.now, e.saved, ballots);
      } else if e.VoteArrives? {
        VoteArrivesKeepsFlows(cfg, s, e, issued, ballots);
      } else {
        OtherKeepsFlows(cfg, s, e, issued, ballots);
      }
    }
  }

  lemma {:induction false} VoteArrivesKeepsFlows(cfg: NodeConfig, s: NodeState, e: Event, issued: map<string, int>,
                                                 ballots: set<Ballot>)
    requires NodeOk(cfg, s, issued, ballots) && FlowsOk(cfg.mspId, s, ballots) && e.VoteArrives? && !Unmarked(cfg, s, e)
    ensures FlowsOk(cfg.mspId, Handle(cfg, s, e), ballots)
  {
    if e.id in s.requests && e.read && !HasVoted(s.requests[e.id].votes, e.vote.voterMsp) {
      assert StoredOk(cfg, e.id, s.requests[e.id], issued, ballots);
      TakingKeepsFlows(cfg, s, e.id, e.vote, e.now, e.saved, e.marked, ballots, ballots);
    }
  }

  lemma {:induction false} OtherKeepsFlows(cfg: NodeConfig, s: NodeState, e: Event, issued: map<string, int>,
                                           ballots: set<Ballot>)
    requires NodeOk(cfg, s, issued, ballots) && FlowsOk(cfg.mspId, s, ballots) && Ready(cfg, s, e) && ReadOk(e)
    requires e.Submitting? ==> SubmittedBy(s, e).id !in issued
    requires e.RequestArrives? ==> PacketOk(RequestPacket(e.to, e.request), issued, ballots)
    requires !e.Casting? && !e.VoteArrives? && !e.RunFails?
    ensures FlowsOk(cfg.mspId, Handle(cfg, s, e), ballots)
  {
    if e.Submitting? {
      var id := SubmittedBy(s, e).id;
      assert id in s.requests ==> StoredOk(cfg, id, s.requests[id], issued, ballots);
    }
    if e.RequestArrives? {
      RequestArrivesOk(cfg, s, e, issued, ballots);
    }
    NothingLostKeepsFlows(cfg.mspId, s, Handle(cfg, s, e), ballots);
  }

  /** The exact condition, step by step: the flows stay in order if and only if no flow is started
      without its approval being saved. */
  lemma FlowsStayIff(cfg: NodeConfig, s: NodeState, e: Event, issued: map<string, int>, ballots: set<Ballot>)
    requires NodeOk(cfg, s, issued, ballots) && FlowsOk(cfg.mspId, s, ballots) && Ready(cfg, s, e) && ReadOk(e)
    requires e.Submitting? ==> SubmittedBy(s, e).id !in issued
    requires e.RequestArrives? ==> PacketOk(RequestPacket(e.to, e.request), issued, ballots)
    ensures FlowsOk(cfg.mspId, Handle(cfg, s, e), ballots + NewBallots(cfg, e)) <==> !Unmarked(cfg, s, e)
  {
    if !Unmarked(cfg, s, e) {
      HandlerKeepsFlows(cfg, s, e, issued, ballots);
    } else {
      var s' := Handle(cfg, s, e);
      if e.RequestArrives? {
        RequestArrivesOk(cfg, s, e, issued, ballots);
      }
      assert StoredOk(cfg, e.id, s.requests[e.id], issued, ballots);
      assert s'.requests[s'.started[|s.started|].id].status == Pending;
      assert !FlowOk(cfg.mspId, s', |s.started|, ballots + NewBallots(cfg, e));
    }
  }

  // ------------------------------------------------------------------------ whole runs

  /** Every approval that the node saves is saved. */
  ghost predicate MarksSaved(cfg: NodeConfig, es: seq<Event>, n: string) {
    RunsApproval(cfg) ==>
      forall e | e in es && e.n == n && (e.RequestArrives? || e.Casting? || e.VoteArrives?) :: e.marked
  }

  lemma {:induction false} SystemStepKeepsFlows(cfgs: Configs, sys: System, e: Event, n: string)
    requires Inv(cfgs, sys) && n in sys.nodes && FlowsOk(n, sys.nodes[n], sys.ballots)
    requires e.n == n ==> ReadOk(e) && MarksSaved(cfgs[n], [e], n)
    ensures n in Step(cfgs, sys, e).nodes && FlowsOk(n, Step(cfgs, sys, e).nodes[n], Step(cfgs, sys, e).ballots)
  {
    if Enabled(cfgs, sys, e) {
      if e.n == n {
        ArrivalsOk(cfgs, sys, e);
        assert e in [e];
        HandlerKeepsFlows(cfgs[n], sys.nodes[n], e, sys.issued, sys.ballots);
      } else {
        OthersKeepFlows(n, sys.nodes[n], sys.ballots, NewBallots(cfgs[e.n], e));
      }
    }
  }

  lemma {:induction false} OthersKeepFlows(n: string, s: NodeState, ballots: set<Ballot>, more: set<Ballot>)
    requires FlowsOk(n, s, ballots) && forall b | b in more :: b.vote.voterMsp != n
    ensures FlowsOk(n, s, ballots + more)
  {
    forall k | 0 <= k < |s.started| ensures FlowOk(n, s, k, ballots + more) {
      assert FlowOk(n, s, k, ballots);
    }
  }

  lemma {:induction false} RunKeepsFlows(cfgs: Configs, start: System, es: seq<Event>, n: string)
    requires Initial(cfgs, start) && n in cfgs && NodeReads(es, n) && MarksSaved(cfgs[n], es, n)
    ensures n in Run(cfgs, start, es).nodes && FlowsOk(n, Run(cfgs, start, es).nodes[n], Run(cfgs, start, es).ballots)
  {
    if es != [] {
      var front, e := es[..|es| - 1], es[|es| - 1];
      assert e in es && forall f | f in front :: f in es;
      RunKeepsFlows(cfgs, start, front, n);
      RunKeeps(cfgs, start, front);
      SystemStepKeepsFlows(cfgs, Run(cfgs, start, front), e, n);
    }
  }

  /** Once cast, a node's own vote is in its list for good, and in the copy of its flow. */
  lemma OwnVoteKept(cfgs: Configs, start: System, es: seq<Event>, b: Ballot)
    requires Initial(cfgs, start) && b in Run(cfgs, start, es).ballots
    requires b.vote.voterMsp in cfgs && NodeReads(es, b.vote.voterMsp)
    requires MarksSaved(cfgs[b.vote.voterMsp], es, b.vote.voterMsp)
    ensures
      var sys, n := Run(cfgs, start, es), b.vote.voterMsp;
      && Holds(sys, n, b.id) && b.vote in Stored(sys, n, b.id).votes
      && forall k | 0 <= k < |sys.nodes[n].started| && sys.nodes[n].started[k].id == b.id ::
           b.vote in sys.nodes[n].started[k].votes
  {
    var n, sys := b.vote.voterMsp, Run(cfgs, start, es);
    RunKeeps(cfgs, start, es);
    RunKeepsFlows(cfgs, start, es, n);
    OwnVotes(cfgs, start, es, n);
    var r := Stored(sys, n, b.id);
    assert StoredOk(cfgs[n], b.id, r, sys.issued, sys.ballots);
    var v :| v in r.votes && v.voterMsp == n;
    assert Ballot(b.id, v) in sys.ballots;
    forall k | 0 <= k < |sys.nodes[n].started| && sys.nodes[n].started[k].id == b.id
      ensures b.vote in sys.nodes[n].started[k].votes
    {
      assert FlowOk(n, sys.nodes[n], k, sys.ballots) && CopyOk(sys.nodes[n].started[k], sys.issued, sys.ballots);
      var w :| w in sys.nodes[n].started[k].votes && w.voterMsp == n;
      assert Ballot(b.id, w) in sys.ballots;
    }
  }

  /** Every failed flow writes its copy back. */
  ghost predicate FailuresSaved(es: seq<Event>, n: string) { forall e | e in es && e.n == n && e.RunFails? :: e.saved }

  ghost predicate FailedIsRejected(s: NodeState) {
    forall k | 0 <= k < |s.started| && FlowFailed(s, k) ::
      s.started[k].id in s.requests && s.requests[s.started[k].id].status == Rejected
  }

  lemma {:induction false} HandlerKeepsRejected(cfg: NodeConfig, s: NodeState, e: Event, issued: map<string, int>,
                                                ballots: set<Ballot>)
    requires NodeOk(cfg, s, issued, ballots) && FailedIsRejected(s) && Ready(cfg, s, e) && ReadOk(e)
    requires e.Submitting? ==> SubmittedBy(s, e).id !in issued
    requires e.RequestArrives? ==> PacketOk(RequestPacket(e.to, e.request), issued, ballots)
    requires e.RunFails? ==> e.saved
    ensures FailedIsRejected(Handle(cfg, s, e))
  {
    var s' := Handle(cfg, s, e);
    forall k | 0 <= k < |s'.started| && FlowFailed(s', k)
      ensures s'.started[k].id in s'.requests && s'.requests[s'.started[k].id].status == Rejected
    {
      FailedCopyRejected(cfg, s, e, issued, ballots, k);
    }
  }

  lemma {:induction false} FailedCopyRejected(cfg: NodeConfig, s: NodeState, e: Event, issued: map<string, int>,
                                              ballots: set<Ballot>, k: nat)
    requires NodeOk(cfg, s, issued, ballots) && FailedIsRejected(s) && Ready(cfg, s, e) && ReadOk(e)
    requires e.Submitting? ==> SubmittedBy(s, e).id !in issued
    requires e.RequestArrives? ==> PacketOk(RequestPacket(e.to, e.request), issued, ballots)
    requires e.RunFails? ==> e.saved
    requires k < |Handle(cfg, s, e).started| && FlowFailed(Handle(cfg, s, e), k)
    ensures
      var s' := Handle(cfg, s, e);
      s'.started[k].id in s'.requests && s'.requests[s'.started[k].id].status == Rejected
  {
    var s' := Handle(cfg, s, e);
    if FlowFailed(s, k) {
      HandlerMovesForward(cfg, s, e, issued, ballots, s.started[k].id);
    }
  }

  lemma {:induction false} SystemStepKeepsRejected(cfgs: Configs, sys: System, e: Event, n: string)
    requires Inv(cfgs, sys) && n in sys.nodes && FailedIsRejected(sys.nodes[n])
    requires e.n == n ==> ReadOk(e) && (e.RunFails? ==> e.saved)
    ensures n in Step(cfgs, sys, e).nodes && FailedIsRejected(Step(cfgs, sys, e).nodes[n])
  {
    if Enabled(cfgs, sys, e) && e.n == n {
      ArrivalsOk(cfgs, sys, e);
      HandlerKeepsRejected(cfgs[n], sys.nodes[n], e, sys.issued, sys.ballots);
    }
  }

  lemma {:induction false} RunKeepsRejected(cfgs: Configs, start: System, es: seq<Event>, n: string)
    requires Initial(cfgs, start) && n in cfgs && NodeReads(es, n) && FailuresSaved(es, n)
    ensures n in Run(cfgs, start, es).nodes && FailedIsRejected(Run(cfgs, start, es).nodes[n])
  {
    if es != [] {
      var front, e := es[..|es| - 1], es[|es| - 1];
      assert e in es && forall f | f in front :: f in es;
      RunKeepsRejected(cfgs, start, front, n);
      RunKeeps(cfgs, start, front);
      SystemStepKeepsRejected(cfgs, Run(cfgs, start, front), e, n);
    }
  }

  lemma {:induction false} ItsOwnFlowFailed(s: NodeState, k: nat)
    requires k < |s.started| && HasFailedFlow(s, s.started[k].id)
    requires forall i, j | 0 <= i < j < |s.started| :: s.started[i].id != s.started[j].id
    ensures FlowFailed(s, k)
  {
    var j :| 0 <= j < |s.started| && s.started[j].id == s.started[k].id && FlowFailed(s, j);
    assert j == k;
  }

  /** No request gets two approval flows on one node, and only a failed flow rejects one; if failed
      flows write their copies back, a request is rejected exactly when its flow has failed. */
  lemma OneFlowPerRequest(cfgs: Configs, start: System, es: seq<Event>, n: string)
    requires Initial(cfgs, start) && n in cfgs && NodeReads(es, n) && MarksSaved(cfgs[n], es, n)
    ensures n in Run(cfgs, start, es).nodes
    ensures var s := Run(cfgs, start, es).nodes[n];
      && (forall j, k | 0 <= j < k < |s.started| :: s.started[j].id != s.started[k].id)
      && (forall k | 0 <= k < |s.started| :: s.started[k].id in s.requests
            && s.requests[s.started[k].id].status in {Approved, Rejected})
      && (forall id | id in s.requests && s.requests[id].status == Rejected :: HasFailedFlow(s, id))
      && (FailuresSaved(es, n) ==> forall k | 0 <= k < |s.started| ::
            s.requests[s.started[k].id].status == if FlowFailed(s, k) then Rejected else Approved)
  {
    RunKeepsFlows(cfgs, start, es, n);
    var sys := Run(cfgs, start, es);
    var s := sys.nodes[n];
    forall k | 0 <= k < |s.started|
      ensures s.started[k].id in s.requests && s.requests[s.started[k].id].status in {Approved, Rejected}
    {
      assert FlowOk(n, s, k, sys.ballots);
    }
    if FailuresSaved(es, n) {
      RunKeepsRejected(cfgs, start, es, n);
      forall k | 0 <= k < |s.started|
        ensures s.requests[s.started[k].id].status == if FlowFailed(s, k) then Rejected else Approved
      {
        assert s.started[k].id in s.requests;
        if s.requests[s.started[k].id].status == Rejected {
          ItsOwnFlowFailed(s, k);
        }
      }
    }
  }

  /** One step may approve a pending request or reject an approved one, nothing else. */
  predicate Moves(before: Status, after: Status) {
    before == after || (before == Pending && after == Approved) || (before == Approved && after == Rejected)
  }

  lemma {:induction false} TakingMoves(cfg: NodeConfig, s: NodeState, i: string, v: Vote, now: int, saved: bool,
                                       marked: bool,
                                       id: string)
    requires i in s.requests && s.requests[i].id == i && id in s.requests
    ensures
      var s' := SaveAndCheck(cfg, s, WithVote(s.requests[i], v), now, saved, marked);
      id in s'.requests && Moves(s.requests[id].status, s'.requests[id].status)
  {}

  lemma {:induction false} CastingMoves(cfg: NodeConfig, s: NodeState, e: Event, id: string)
    requires e.Casting? && Ready(cfg, s, e) && s.requests[e.id].id == e.id && id in s.requests
    ensures
      var s' := Handle(cfg, s, e);
      id in s'.requests && Moves(s.requests[id].status, s'.requests[id].status)
  {
    var v := OwnVote(cfg, e.approve, e.voteTime);
    TakingMoves(cfg, Broadcast(cfg, s, a => VotePacket(a, e.id, v)), e.id, v, e.now, true, e.marked, id);
  }

  lemma {:induction false} HandlerMoves(cfg: NodeConfig, s: NodeState, e: Event, issued: map<string, int>,
                                        ballots: set<Ballot>, id: string)
    requires NodeOk(cfg, s, issued, ballots) && FlowsOk(cfg.mspId, s, ballots) && Ready(cfg, s, e) && ReadOk(e)
    requires e.Submitting? ==> SubmittedBy(s, e).id !in issued
    requires e.RequestArrives? ==> PacketOk(RequestPacket(e.to, e.request), issued, ballots)
    requires id in s.requests
    ensures
      var s' := Handle(cfg, s, e);
      id in s'.requests && Moves(s.requests[id].status, s'.requests[id].status)
  {
    assert StoredOk(cfg, id, s.requests[id], issued, ballots);
    if e.RequestArrives? {
      RequestArrivesOk(cfg, s, e, issued, ballots);
    } else if e.Casting? {
      assert StoredOk(cfg, e.id, s.requests[e.id], issued, ballots);
      CastingMoves(cfg, s, e, id);
    } else if e.VoteArrives? && e.id in s.requests {
      assert StoredOk(cfg, e.id, s.requests[e.id], issued, ballots);
      TakingMoves(cfg, s, e.id, e.vote, e.now, e.saved, e.marked, id);
    } else if e.RunFails? {
      assert FlowOk(cfg.mspId, s, e.k, ballots);
    }
  }

  lemma {:induction false} StatusStep(cfgs: Configs, sys: System, e: Event, n: string, id: string)
    requires Inv(cfgs, sys) && Holds(sys, n, id) && FlowsOk(n, sys.nodes[n], sys.ballots) && (e.n == n ==> ReadOk(e))
    ensures Holds(Step(cfgs, sys, e), n, id)
    ensures Moves(Stored(sys, n, id).status, Stored(Step(cfgs, sys, e), n, id).status)
  {
    if e.n == n && Enabled(cfgs, sys, e) {
      ArrivalsOk(cfgs, sys, e);
      HandlerMoves(cfgs[n], sys.nodes[n], e, sys.issued, sys.ballots, id);
    }
  }

  // ------------------------------------------------------------- an approval that is not saved

  lemma {:induction false} MajorityGrows(r: JoinRequest, v: Vote)
    requires Distinct(r.votes) && !HasVoted(r.votes, v.voterMsp) && MajorityReached(r)
    ensures MajorityReached(WithVote(r, v))
  {
    DistinctAppend(r.votes, v);
    CountIsCardinality(r.votes, r.totalPeers);
    CountIsCardinality(r.votes + [v], r.totalPeers);
    ApproversGrow(VoteSet(r.votes), VoteSet(r.votes + [v]), r.totalPeers);
  }

  /** The three results need the condition. On an orderer that has not voted yet, a vote reaches the
      majority and the save of the approval fails. The request is still pending, so the orderer may
      vote; that reaches the majority again and starts a second flow. When the first one fails, its
      copy overwrites the request: the orderer's own vote is gone, the request is rejected, and the
      second flow is still running. */
  lemma UnsavedApprovalStartsTwoFlows(cfg: NodeConfig, s: NodeState, id: string, v: Vote, approve: bool, voteTime: int,
                                      now: int)
    requires RunsApproval(cfg) && MayCast(cfg, s, id) && s.requests[id].id == id && Distinct(s.requests[id].votes)
    requires !HasVoted(s.requests[id].votes, v.voterMsp) && v.voterMsp != cfg.mspId
    requires MajorityReached(WithVote(s.requests[id], v))
    requires forall k | k in s.ended :: k < |s.started|
    ensures
      var k := |s.started|;
      var s1 := ReceiveVote(cfg, s, id, v, now, true, true, false);
      MayCast(cfg, s1, id) &&
      var s2 := Cast(cfg, s1, id, approve, voteTime, now, Done, true);
      Running(s2, k) && Running(s2, k + 1) && s2.started[k].id == s2.started[k + 1].id == id &&
      var s3 := ApprovalFails(s2, k, now, true);
      && Running(s3, k + 1) && s3.requests[id].status == Rejected && !HasVoted(s3.requests[id].votes, cfg.mspId)
  {
    var r, own := s.requests[id], OwnVote(cfg, approve, voteTime);
    var s1 := ReceiveVote(cfg, s, id, v, now, true, true, false);
    DistinctAppend(r.votes, v);
    assert s1.requests[id] == WithVote(r, v);
    MajorityGrows(WithVote(r, v), own);
    assert Marks(WithVote(WithVote(r, v), own));
  }
}
