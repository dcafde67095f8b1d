/** The join protocol over many nodes. A sent packet stays deliverable for ever, so one run may
    lose it, deliver it many times, or deliver it late. One step is one handler on one node, with
    every read and write of the node's store ending as it may. */
module JoinNetwork {
  import opened Options
  import opened JoinRequests
  import opened JoinNode

  /** One node per organisation, so nodes are named by their MSP. */
  type Configs = map<string, NodeConfig>

  /** A vote as its organisation cast it. */
  datatype Ballot = Ballot(id: string, vote: Vote)

  /** `issued` records the network size fixed for each submitted request, and `ballots` each vote
      at the moment its organisation cast it. */
  datatype System = System(nodes: map<string, NodeState>, issued: map<string, int>, ballots: set<Ballot>)

  /** `read`: the file to be read can be. `saved`, `marked`: the save of the changed request, and
      the save of its approval, is done. */
  datatype Event =
    | Submitting(n: string, request: JoinRequest, freshId: string, now: int, read: bool, save: Write)
    | RequestArrives(n: string, to: string, request: JoinRequest, now: int, read: bool, saved: bool, marked: bool)
    | Casting(n: string, id: string, approve: bool, voteTime: int, now: int, save: Write, marked: bool)
    | VoteArrives(n: string, to: string, id: string, vote: Vote, now: int, read: bool, saved: bool, marked: bool)
    | RunFails(n: string, k: nat, now: int, saved: bool)
    | RunSucceeds(n: string, k: nat, peerAddr: string, now: int, read: bool, saved: bool)
    | PeerArrives(n: string, to: string, peer: PeerInfo, read: bool, saved: bool)
    | HeartbeatArrives(n: string, msp: string, now: int, read: bool, saved: bool)

  ghost predicate InFlight(sys: System, p: Packet) {
    exists n | n in sys.nodes :: p in sys.nodes[n].sent
  }

  function SubmittedBy(s: NodeState, e: Event): JoinRequest
    requires e.Submitting?
  {
    Submitted(s, e.request, e.freshId, e.now, e.read)
  }

  /** What node `cfg` may do in state `s`, as far as its own state goes. */
  predicate Ready(cfg: NodeConfig, s: NodeState, e: Event) {
    match e
    case Submitting(_, r, _, _, _, _) => (r.status == Unset || r.status == Pending) && r.votes == []
    case Casting(_, id, _, _, _, _, _) => MayCast(cfg, s, id)
    case RunFails(_, k, _, _) => Running(s, k)
    case RunSucceeds(_, k, _, _, _, _) => Running(s, k)
    case _ => true
  }

  function Handle(cfg: NodeConfig, s: NodeState, e: Event): NodeState
    requires Ready(cfg, s, e)
  {
    match e
    case Submitting(_, r, freshId, now, read, save) => Submit(cfg, s, r, freshId, now, read, save)
    case RequestArrives(_, _, r, now, read, saved, marked) => ReceiveRequest(cfg, s, r, now, read, saved, marked)
    case Casting(_, id, approve, voteTime, now, save, marked) => Cast(cfg, s, id, approve, voteTime, now, save, marked)
    case VoteArrives(_, _, id, v, now, read, saved, marked) => ReceiveVote(cfg, s, id, v, now, read, saved, marked)
    case RunFails(_, k, now, saved) => ApprovalFails(s, k, now, saved)
    case RunSucceeds(_, k, addr, now, read, saved) => ApprovalSucceeds(cfg, s, k, addr, now, read, saved)
    case PeerArrives(_, _, p, read, saved) => s.(peers := WithPeer(s.peers, p, read, saved))
    case HeartbeatArrives(_, msp, now, read, saved) =>
      s.(peers := if read && saved then Touch(s.peers, msp, now) else s.peers)
  }

  /** What may happen next: a submitted request is new, undecided and without votes, and what
      arrives was sent. */
  ghost predicate Enabled(cfgs: Configs, sys: System, e: Event) {
    && e.n in cfgs && cfgs[e.n].mspId == e.n && e.n in sys.nodes
    && Ready(cfgs[e.n], sys.nodes[e.n], e)
    && match e
       case Submitting(n, _, _, _, _, _) => SubmittedBy(sys.nodes[n], e).id !in sys.issued
       case RequestArrives(_, to, r, _, _, _, _) => InFlight(sys, RequestPacket(to, r))
       case VoteArrives(_, to, id, v, _, _, _, _) => InFlight(sys, VotePacket(to, id, v))
       case PeerArrives(_, to, p, _, _) => InFlight(sys, PeerPacket(to, p))
       case _ => true
  }

  function NewIssued(s: NodeState, e: Event, issued: map<string, int>): map<string, int> {
    if e.Submitting? && e.save != Failed then issued[SubmittedBy(s, e).id := SubmittedBy(s, e).totalPeers] else issued
  }

  /** The ballot that a step casts: the vote counts as cast once it is stored. */
  function NewBallots(cfg: NodeConfig, e: Event): set<Ballot> {
    if e.Casting? && e.save != Failed then {Ballot(e.id, OwnVote(cfg, e.approve, e.voteTime))} else {}
  }

  /** An event that cannot happen changes nothing. */
  ghost function Step(cfgs: Configs, sys: System, e: Event): System {
    if !Enabled(cfgs, sys, e) then sys
    else
      var cfg, s := cfgs[e.n], sys.nodes[e.n];
      System(sys.nodes[e.n := Handle(cfg, s, e)], NewIssued(s, e, sys.issued), sys.ballots + NewBallots(cfg, e))
  }

  ghost predicate Initial(cfgs: Configs, sys: System) {
    && sys.nodes.Keys == cfgs.Keys
    && (forall n | n in cfgs :: cfgs[n].mspId == n)
    && (forall n | n in sys.nodes :: sys.nodes[n] == NodeState(sys.nodes[n].peers, map[], {}, [], map[]))
    && sys.issued == map[] && sys.ballots == {}
  }

  ghost function Run(cfgs: Configs, sys: System, es: seq<Event>): System {
    if es == [] then sys else Step(cfgs, Run(cfgs, sys, es[..|es| - 1]), es[|es| - 1])
  }

  // ------------------------------------------------------- what holds whatever fails

  ghost predicate RequestOk(r: JoinRequest, issued: map<string, int>, ballots: set<Ballot>) {
    && r.id in issued && r.totalPeers == issued[r.id]
    && Distinct(r.votes) && forall v | v in r.votes :: Ballot(r.id, v) in ballots
  }

  ghost predicate PacketOk(p: Packet, issued: map<string, int>, ballots: set<Ballot>) {
    match p
    case RequestPacket(_, r) => r.id in issued && r.totalPeers == issued[r.id] && r.votes == [] && r.status == Pending
    case VotePacket(_, id, v) => Ballot(id, v) in ballots
    case _ => true
  }

  /** A request that has left pending has its majority. */
  ghost predicate StoredOk(cfg: NodeConfig, id: string, r: JoinRequest, issued: map<string, int>,
                           ballots: set<Ballot>) {
    && r.id == id && RequestOk(r, issued, ballots) && r.status != Unset
    && (r.status != Pending ==> MajorityReached(r))
    && (r.status == Rejected ==> RunsApproval(cfg))
  }

  /** The copy that a run of the approval flow holds. */
  ghost predicate CopyOk(r: JoinRequest, issued: map<string, int>, ballots: set<Ballot>) {
    RequestOk(r, issued, ballots) && r.status == Approved && MajorityReached(r)
  }

  ghost predicate NodeOk(cfg: NodeConfig, s: NodeState, issued: map<string, int>, ballots: set<Ballot>) {
    && (forall id | id in s.requests :: StoredOk(cfg, id, s.requests[id], issued, ballots))
    && (forall k | 0 <= k < |s.started| :: CopyOk(s.started[k], issued, ballots))
    && (!RunsApproval(cfg) ==> s.started == [])
    && (forall k | k in s.ended :: k < |s.started|)
    && (forall p | p in s.sent :: PacketOk(p, issued, ballots))
  }

  ghost predicate Inv(cfgs: Configs, sys: System) {
    && sys.nodes.Keys == cfgs.Keys
    && (forall n | n in sys.nodes :: cfgs[n].mspId == n && NodeOk(cfgs[n], sys.nodes[n], sys.issued, sys.ballots))
    && forall b | b in sys.ballots :: b.vote.voterMsp in sys.nodes
  }

  ghost predicate Extends<K, V>(a: map<K, V>, b: map<K, V>) {
    forall k | k in a :: k in b && b[k] == a[k]
  }

  lemma {:induction false} NodeOkExtends(cfg: NodeConfig, s: NodeState, issued: map<string, int>, ballots: set<Ballot>,
                                         issued': map<string, int>, ballots': set<Ballot>)
    requires NodeOk(cfg, s, issued, ballots) && Extends(issued, issued') && ballots <= ballots'
    ensures NodeOk(cfg, s, issued', ballots')
  {
    forall id | id in s.requests ensures StoredOk(cfg, id, s.requests[id], issued', ballots') {
      assert StoredOk(cfg, id, s.requests[id], issued, ballots);
    }
    forall k | 0 <= k < |s.started| ensures CopyOk(s.started[k], issued', ballots') {
      assert CopyOk(s.started[k], issued, ballots);
    }
    forall p | p in s.sent ensures PacketOk(p, issued', ballots') {
      assert PacketOk(p, issued, ballots);
    }
  }

  /** Storing a sound request under its id. */
  lemma {:induction false} StoringOk(cfg: NodeConfig, s: NodeState, r: JoinRequest, issued: map<string, int>,
                                     ballots: set<Ballot>)
    requires NodeOk(cfg, s, issued, ballots) && StoredOk(cfg, r.id, r, issued, ballots)
    ensures NodeOk(cfg, s.(requests := s.requests[r.id := r]), issued, ballots)
  {
    var s' := s.(requests := s.requests[r.id := r]);
    forall id | id in s'.requests ensures StoredOk(cfg, id, s'.requests[id], issued, ballots) {
      assert id != r.id ==> StoredOk(cfg, id, s.requests[id], issued, ballots);
    }
  }

  lemma {:induction false} SaveAndCheckOk(cfg: NodeConfig, s: NodeState, r: JoinRequest, now: int, saved: bool,
                                          marked: bool,
                                          issued: map<string, int>, ballots: set<Ballot>)
    requires NodeOk(cfg, s, issued, ballots) && StoredOk(cfg, r.id, r, issued, ballots)
    ensures NodeOk(cfg, SaveAndCheck(cfg, s, r, now, saved, marked), issued, ballots)
  {
    var settled := Resolve(r, now);
    StoringOk(cfg, s, r, issued, ballots);
    assert RequestOk(settled, issued, ballots);
    assert Marks(r) ==> StoredOk(cfg, r.id, settled, issued, ballots) && CopyOk(settled, issued, ballots);
    if Marks(r) {
      StoringOk(cfg, s, settled, issued, ballots);
    }
  }

  lemma {:induction false} DistinctAppend(votes: seq<Vote>, v: Vote)
    requires Distinct(votes) && !HasVoted(votes, v.voterMsp)
    ensures Distinct(votes + [v]) && VoteSet(votes + [v]) == VoteSet(votes) + {v}
    ensures forall m :: HasVoted(votes + [v], m) <==> HasVoted(votes, m) || m == v.voterMsp
  {
    assert v in votes + [v] && forall w | w in votes :: w in votes + [v];
    forall i | 0 <= i < |votes| ensures votes[i].voterMsp != v.voterMsp {
      assert votes[i] in votes;
    }
  }

  /** A stored request that gains a cast vote stays sound; a majority is never lost. */
  lemma {:induction false} WithVoteOk(cfg: NodeConfig, r: JoinRequest, v: Vote, issued: map<string, int>,
                                      ballots: set<Ballot>)
    requires StoredOk(cfg, r.id, r, issued, ballots) && !HasVoted(r.votes, v.voterMsp) && Ballot(r.id, v) in ballots
    ensures StoredOk(cfg, r.id, WithVote(r, v), issued, ballots)
  {
    var votes := r.votes + [v];
    DistinctAppend(r.votes, v);
    CountIsCardinality(r.votes, r.totalPeers);
    CountIsCardinality(votes, r.totalPeers);
    ApproversGrow(VoteSet(r.votes), VoteSet(votes), r.totalPeers);
  }

  /** Changing peers, ending flows and sending harmless packets. */
  lemma {:induction false} SendingOk(cfg: NodeConfig, s: NodeState, s': NodeState, issued: map<string, int>,
                                     ballots: set<Ballot>)
    requires NodeOk(cfg, s, issued, ballots)
    requires s'.requests == s.requests && s'.started == s.started
    requires forall k | k in s'.ended :: k < |s.started|
    requires forall p | p in s'.sent :: p in s.sent || PacketOk(p, issued, ballots)
    ensures NodeOk(cfg, s', issued, ballots)
  {}

  // --------------------------------------------------------------------- one handler

  lemma {:induction false} SubmitOk(cfg: NodeConfig, s: NodeState, e: Event, issued: map<string, int>,
                                    ballots: set<Ballot>)
    requires NodeOk(cfg, s, issued, ballots) && e.Submitting? && Ready(cfg, s, e) && SubmittedBy(s, e).id !in issued
    ensures NodeOk(cfg, Handle(cfg, s, e), NewIssued(s, e, issued), ballots)
  {
    var q, issued' := SubmittedBy(s, e), NewIssued(s, e, issued);
    NodeOkExtends(cfg, s, issued, ballots, issued', ballots);
    if e.save != Failed {
      StoringOk(cfg, s, q, issued', ballots);
      SendingOk(cfg, s.(requests := s.requests[q.id := q]), Handle(cfg, s, e), issued', ballots);
    }
  }

  /** A gossiped request carries no votes, so a known one that can be read stays as it is. */
  lemma {:induction false} RequestArrivesOk(cfg: NodeConfig, s: NodeState, e: Event, issued: map<string, int>,
                                            ballots: set<Ballot>)
    requires NodeOk(cfg, s, issued, ballots)
    requires e.RequestArrives? && PacketOk(RequestPacket(e.to, e.request), issued, ballots)
    ensures NodeOk(cfg, Handle(cfg, s, e), issued, ballots)
    ensures e.request.id in s.requests && e.read ==> Handle(cfg, s, e) == s
  {
    StoringOk(cfg, s, e.request, issued, ballots);
  }

  lemma {:induction false} CastingOk(cfg: NodeConfig, s: NodeState, e: Event, issued: map<string, int>,
                                     ballots: set<Ballot>)
    requires NodeOk(cfg, s, issued, ballots) && e.Casting? && Ready(cfg, s, e)
    requires NewBallots(cfg, e) <= ballots
    ensures NodeOk(cfg, Handle(cfg, s, e), issued, ballots)
  {
    if e.save != Failed {
      var v, r := OwnVote(cfg, e.approve, e.voteTime), s.requests[e.id];
      assert StoredOk(cfg, e.id, r, issued, ballots);
      assert Ballot(e.id, v) in NewBallots(cfg, e);
      WithVoteOk(cfg, r, v, issued, ballots);
      StoringOk(cfg, s, WithVote(r, v), issued, ballots);
      if e.save == Done {
        var s1 := Broadcast(cfg, s, a => VotePacket(a, e.id, v));
        SendingOk(cfg, s, s1, issued, ballots);
        SaveAndCheckOk(cfg, s1, WithVote(r, v), e.now, true, e.marked, issued, ballots);
      }
    }
  }

  lemma {:induction false} VoteArrivesOk(cfg: NodeConfig, s: NodeState, e: Event, issued: map<string, int>,
                                         ballots: set<Ballot>)
    requires NodeOk(cfg, s, issued, ballots) && e.VoteArrives? && Ballot(e.id, e.vote) in ballots
    ensures NodeOk(cfg, Handle(cfg, s, e), issued, ballots)
  {
    if e.id in s.requests && !HasVoted(s.requests[e.id].votes, e.vote.voterMsp) {
      var r := s.requests[e.id];
      assert StoredOk(cfg, e.id, r, issued, ballots);
      WithVoteOk(cfg, r, e.vote, issued, ballots);
      SaveAndCheckOk(cfg, s, WithVote(r, e.vote), e.now, e.saved, e.marked, issued, ballots);
    }
  }

  lemma {:induction false} RunFailsOk(cfg: NodeConfig, s: NodeState, e: Event, issued: map<string, int>,
                                      ballots: set<Ballot>)
    requires NodeOk(cfg, s, issued, ballots) && e.RunFails? && Ready(cfg, s, e)
    ensures NodeOk(cfg, Handle(cfg, s, e), issued, ballots)
  {
    var r := s.started[e.k].(status := Rejected, resolvedAt := Some(e.now));
    assert CopyOk(s.started[e.k], issued, ballots);
    assert StoredOk(cfg, r.id, r, issued, ballots);
    StoringOk(cfg, s, r, issued, ballots);
    var s1 := if e.saved then s.(requests := s.requests[r.id := r]) else s;
    SendingOk(cfg, s1, Handle(cfg, s, e), issued, ballots);
  }

  lemma {:induction false} HandleOk(cfg: NodeConfig, s: NodeState, e: Event, issued: map<string, int>,
                                    ballots: set<Ballot>)
    requires NodeOk(cfg, s, issued, ballots) && Ready(cfg, s, e)
    requires e.Submitting? ==> SubmittedBy(s, e).id !in issued
    requires e.RequestArrives? ==> PacketOk(RequestPacket(e.to, e.request), issued, ballots)
    requires e.VoteArrives? ==> Ballot(e.id, e.vote) in ballots
    ensures NodeOk(cfg, Handle(cfg, s, e), NewIssued(s, e, issued), ballots + NewBallots(cfg, e))
  {
    var ballots' := ballots + NewBallots(cfg, e);
    NodeOkExtends(cfg, s, issued, ballots, issued, ballots');
    match e
    case Submitting(_, _, _, _, _, _) => SubmitOk(cfg, s, e, issued, ballots');
    case RequestArrives(_, _, _, _, _, _, _) => RequestArrivesOk(cfg, s, e, issued, ballots');
    case Casting(_, _, _, _, _, _, _) => CastingOk(cfg, s, e, issued, ballots');
    case VoteArrives(_, _, _, _, _, _, _, _) => VoteArrivesOk(cfg, s, e, issued, ballots');
    case RunFails(_, _, _, _) => RunFailsOk(cfg, s, e, issued, ballots');
    case _ => SendingOk(cfg, s, Handle(cfg, s, e), issued, ballots');
  }

  /** What arrives was sent, and what was sent is sound. */
  lemma {:induction false} ArrivalsOk(cfgs: Configs, sys: System, e: Event)
    requires Inv(cfgs, sys) && Enabled(cfgs, sys, e)
    ensures e.RequestArrives? ==> PacketOk(RequestPacket(e.to, e.request), sys.issued, sys.ballots)
    ensures e.VoteArrives? ==> Ballot(e.id, e.vote) in sys.ballots
  {
    if e.RequestArrives? {
      var n :| n in sys.nodes && RequestPacket(e.to, e.request) in sys.nodes[n].sent;
      assert NodeOk(cfgs[n], sys.nodes[n], sys.issued, sys.ballots);
    }
    if e.VoteArrives? {
      var n :| n in sys.nodes && VotePacket(e.to, e.id, e.vote) in sys.nodes[n].sent;
      assert NodeOk(cfgs[n], sys.nodes[n], sys.issued, sys.ballots);
      assert PacketOk(VotePacket(e.to, e.id, e.vote), sys.issued, sys.ballots);
    }
  }

  /** One node has moved on, and the logs have grown; the other nodes keep their share. */
  lemma {:induction false} PutKeeps(cfgs: Configs, sys: System, n: string, s: NodeState, issued: map<string, int>,
                                    ballots: set<Ballot>)
    requires Inv(cfgs, sys) && n in sys.nodes && Extends(sys.issued, issued) && sys.ballots <= ballots
    requires NodeOk(cfgs[n], s, issued, ballots)
    requires forall b | b in ballots && b !in sys.ballots :: b.vote.voterMsp == n
    ensures Inv(cfgs, System(sys.nodes[n := s], issued, ballots))
  {
    forall m | m in sys.nodes && m != n ensures NodeOk(cfgs[m], sys.nodes[m], issued, ballots) {
      NodeOkExtends(cfgs[m], sys.nodes[m], sys.issued, sys.ballots, issued, ballots);
    }
  }

  /** Every step keeps the invariant, whatever reads and writes fail. */
  lemma {:induction false} StepKeeps(cfgs: Configs, sys: System, e: Event)
    requires Inv(cfgs, sys)
    ensures Inv(cfgs, Step(cfgs, sys, e))
  {
    if Enabled(cfgs, sys, e) {
      var cfg, s := cfgs[e.n], sys.nodes[e.n];
      ArrivalsOk(cfgs, sys, e);
      HandleOk(cfg, s, e, sys.issued, sys.ballots);
      PutKeeps(cfgs, sys, e.n, Handle(cfg, s, e), NewIssued(s, e, sys.issued), sys.ballots + NewBallots(cfg, e));
    }
  }

  lemma {:induction false} RunKeeps(cfgs: Configs, sys: System, es: seq<Event>)
    requires Initial(cfgs, sys)
    ensures Inv(cfgs, Run(cfgs, sys, es))
  {
    if es != [] {
      RunKeeps(cfgs, sys, es[..|es| - 1]);
      StepKeeps(cfgs, Run(cfgs, sys, es[..|es| - 1]), es[|es| - 1]);
    }
  }
}
