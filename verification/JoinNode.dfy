/** One node of the join protocol: its stores, the packets it sends, and its handlers. */
module JoinNode {
  import opened Options
  import opened JoinRequests

  datatype Role = Bootstrap | Orderer | Peer

  datatype NodeConfig = NodeConfig(role: Role, orgName: string, mspId: string, ordererMgmtAddr: string)

  datatype PeerInfo = PeerInfo(
    orgName: string, mspId: string, domain: string, peerAddr: string, mgmtAddr: string,
    joinedAt: int, lastSeen: int)

  datatype Packet =
    | RequestPacket(to: string, request: JoinRequest)
    | VotePacket(to: string, requestId: string, vote: Vote)
    | PeerPacket(to: string, peer: PeerInfo)
    | NotifyPacket(to: string, requestId: string, approved: bool)

  /** `started[k]` is the request that the k-th run of the approval flow holds;
      `ended` says which runs are over and whether they succeeded. */
  datatype NodeState = NodeState(
    peers: seq<PeerInfo>, requests: map<string, JoinRequest>, sent: set<Packet>,
    started: seq<JoinRequest>, ended: map<nat, bool>)

  /** How a write to the store ends: done, done although it reports failure, or not done. */
  datatype Write = Done | Unreported | Failed

  // ------------------------------------------------------- effect on a request

  function Resolve(r: JoinRequest, now: int): JoinRequest {
    if r.status == Pending && MajorityReached(r)
    then r.(status := Approved, resolvedAt := Some(now))
    else r
  }

  /** The votes of `incoming` from organisations not yet heard, in order, after those of `have`. */
  function MergeVotes(have: seq<Vote>, incoming: seq<Vote>): seq<Vote>
    decreases |incoming|
  {
    if incoming == [] then have
    else
      var front := MergeVotes(have, incoming[..|incoming| - 1]);
      var v := incoming[|incoming| - 1];
      if HasVoted(front, v.voterMsp) then front else front + [v]
  }

  function TakeVote(r: JoinRequest, v: Vote, now: int): JoinRequest {
    if HasVoted(r.votes, v.voterMsp) then r
    else Resolve(r.(votes := r.votes + [v]), now)
  }

  function TakeRequest(r: JoinRequest, incoming: seq<Vote>, now: int): JoinRequest {
    var merged := MergeVotes(r.votes, incoming);
    if merged == r.votes then r else Resolve(r.(votes := merged), now)
  }

  // ---------------------------------------------------------- effect on peers

  function Upsert(peers: seq<PeerInfo>, p: PeerInfo): seq<PeerInfo> {
    if peers == [] then [p]
    else if peers[0].mspId == p.mspId then [p] + peers[1..]
    else [peers[0]] + Upsert(peers[1..], p)
  }

  function Touch(peers: seq<PeerInfo>, msp: string, now: int): seq<PeerInfo> {
    if peers == [] then []
    else if peers[0].mspId == msp then [peers[0].(lastSeen := now)] + peers[1..]
    else [peers[0]] + Touch(peers[1..], msp, now)
  }

  ghost predicate OnePerMsp(peers: seq<PeerInfo>) {
    forall i, j | 0 <= i < j < |peers| :: peers[i].mspId != peers[j].mspId
  }

  function PeerMsps(peers: seq<PeerInfo>): set<string> {
    set p | p in peers :: p.mspId
  }

  lemma {:induction false} UpsertCounts(peers: seq<PeerInfo>, p: PeerInfo)
    requires OnePerMsp(peers)
    ensures PeerMsps(Upsert(peers, p)) == PeerMsps(peers) + {p.mspId}
    ensures |Upsert(peers, p)| == |peers| + if p.mspId in PeerMsps(peers) then 0 else 1
    ensures p in Upsert(peers, p) && forall q :: q in peers && q.mspId != p.mspId ==> q in Upsert(peers, p)
  {
    if peers != [] {
      var tail := peers[1..];
      assert peers == [peers[0]] + tail;
      assert PeerMsps(peers) == {peers[0].mspId} + PeerMsps(tail);
      if peers[0].mspId == p.mspId {
        assert PeerMsps(Upsert(peers, p)) == {p.mspId} + PeerMsps(tail);
      } else {
        UpsertCounts(tail, p);
        var up := Upsert(tail, p);
        assert PeerMsps([peers[0]] + up) == {peers[0].mspId} + PeerMsps(up);
        assert peers[0].mspId !in PeerMsps(tail);
      }
    }
  }

  lemma {:induction false} UpsertDistinct(peers: seq<PeerInfo>, p: PeerInfo)
    requires OnePerMsp(peers)
    ensures OnePerMsp(Upsert(peers, p))
  {
    if peers != [] && peers[0].mspId != p.mspId {
      var tail := peers[1..];
      var up := Upsert(tail, p);
      UpsertDistinct(tail, p);
      UpsertCounts(tail, p);
      forall j | 0 <= j < |up| ensures up[j].mspId != peers[0].mspId {
        assert up[j].mspId in PeerMsps(up);
      }
    }
  }

  /** AddPeer keeps one entry per organisation, so `TotalPeers` counts organisations. */
  lemma UpsertKeepsOnePerMsp(peers: seq<PeerInfo>, p: PeerInfo)
    requires OnePerMsp(peers)
    ensures OnePerMsp(Upsert(peers, p)) && p in Upsert(peers, p)
    ensures PeerMsps(Upsert(peers, p)) == PeerMsps(peers) + {p.mspId}
    ensures |Upsert(peers, p)| == |peers| + if p.mspId in PeerMsps(peers) then 0 else 1
    ensures forall q :: q in peers && q.mspId != p.mspId ==> q in Upsert(peers, p)
  {
    UpsertDistinct(peers, p);
    UpsertCounts(peers, p);
  }

  lemma {:induction false} UpsertAt(peers: seq<PeerInfo>, p: PeerInfo, i: nat)
    requires i <= |peers| && forall j | 0 <= j < i :: peers[j].mspId != p.mspId
    requires i < |peers| ==> peers[i].mspId == p.mspId
    ensures Upsert(peers, p) == if i < |peers| then peers[i := p] else peers + [p]
  {
    if i > 0 {
      UpsertAt(peers[1..], p, i - 1);
    }
  }

  lemma {:induction false} TouchAt(peers: seq<PeerInfo>, msp: string, now: int, i: nat)
    requires i <= |peers| && forall j | 0 <= j < i :: peers[j].mspId != msp
    requires i < |peers| ==> peers[i].mspId == msp
    ensures Touch(peers, msp, now) == if i < |peers| then peers[i := peers[i].(lastSeen := now)] else peers
  {
    if i > 0 {
      TouchAt(peers[1..], msp, now, i - 1);
    }
  }

  // ------------------------------------------------------------------ gossip

  function Addresses(peers: seq<PeerInfo>): seq<string> {
    seq(|peers|, i requires 0 <= i < |peers| => peers[i].mgmtAddr)
  }

  lemma AddressesAreThePeers(peers: seq<PeerInfo>)
    ensures forall a :: a in Addresses(peers) <==> exists p :: p in peers && p.mgmtAddr == a
  {
    forall p | p in peers ensures p.mgmtAddr in Addresses(peers) {
      var i :| 0 <= i < |peers| && peers[i] == p;
      assert Addresses(peers)[i] == p.mgmtAddr;
    }
  }

  function GossipTargets(peers: seq<PeerInfo>, ordererMgmtAddr: string): seq<string> {
    var addrs := Addresses(peers);
    if ordererMgmtAddr != "" && ordererMgmtAddr !in addrs then addrs + [ordererMgmtAddr] else addrs
  }

  function Broadcast(cfg: NodeConfig, s: NodeState, message: string -> Packet): NodeState {
    s.(sent := s.sent + set a | a in GossipTargets(s.peers, cfg.ordererMgmtAddr) :: message(a))
  }

  // ----------------------------------------------------------------- handlers

  function RunsApproval(cfg: NodeConfig): bool {
    cfg.role == Bootstrap || cfg.role == Orderer
  }

  predicate Marks(r: JoinRequest) { r.status == Pending && MajorityReached(r) }

  /** Saves `r` and resolves it; an orderer node starts the approval flow when that approves it,
      whether the approval could be saved or not. `saved` and `marked` say which of the two writes
      were done; the second is tried only for a request that is approved. */
  function SaveAndCheck(cfg: NodeConfig, s: NodeState, r: JoinRequest, now: int, saved: bool, marked: bool): NodeState {
    var settled := Resolve(r, now);
    var s1 :=
      if Marks(r) && marked then s.(requests := s.requests[r.id := settled])
      else if saved then s.(requests := s.requests[r.id := r])
      else s;
    if Marks(r) && RunsApproval(cfg) then s1.(started := s1.started + [settled]) else s1
  }

  /** A peer list that cannot be read counts as empty. */
  function Submitted(s: NodeState, r: JoinRequest, freshId: string, now: int, peersRead: bool): JoinRequest {
    r.(id := if r.id == "" then freshId else r.id,
       status := if r.status == Unset then Pending else r.status,
       createdAt := if r.createdAt.None? then Some(now) else r.createdAt,
       totalPeers := if peersRead then |s.peers| else 0)
  }

  /** Only a save that reports success is followed by gossip. */
  function Submit(cfg: NodeConfig, s: NodeState, r: JoinRequest, freshId: string, now: int, peersRead: bool,
                  save: Write): NodeState {
    var q := Submitted(s, r, freshId, now, peersRead);
    var s1 := if save == Failed then s else s.(requests := s.requests[q.id := q]);
    if save == Done then Broadcast(cfg, s1, a => RequestPacket(a, q)) else s1
  }

  /** A request that is there but cannot be read is taken for a new one. */
  function ReceiveRequest(cfg: NodeConfig, s: NodeState, r: JoinRequest, now: int, read: bool, saved: bool,
                          marked: bool): NodeState {
    if r.id in s.requests && read then
      var mine := s.requests[r.id];
      var merged := MergeVotes(mine.votes, r.votes);
      if merged == mine.votes then s
      else SaveAndCheck(cfg, s, mine.(votes := merged), now, saved, marked)
    else if saved then s.(requests := s.requests[r.id := r])
    else s
  }

  predicate MayCast(cfg: NodeConfig, s: NodeState, id: string) {
    id in s.requests && s.requests[id].status == Pending && !HasVoted(s.requests[id].votes, cfg.mspId)
  }

  function OwnVote(cfg: NodeConfig, approve: bool, voteTime: int): Vote {
    Vote(cfg.orgName, cfg.mspId, approve, voteTime)
  }

  function WithVote(r: JoinRequest, v: Vote): JoinRequest { r.(votes := r.votes + [v]) }

  function Cast(cfg: NodeConfig, s: NodeState, id: string, approve: bool, voteTime: int, now: int, save: Write,
                marked: bool): NodeState
    requires MayCast(cfg, s, id)
  {
    var v := OwnVote(cfg, approve, voteTime);
    var r := WithVote(s.requests[id], v);
    match save
    case Failed => s
    case Unreported => s.(requests := s.requests[r.id := r])
    case Done => SaveAndCheck(cfg, Broadcast(cfg, s, a => VotePacket(a, id, v)), r, now, true, marked)
  }

  /** A vote on a request that is not there, or cannot be read, is ignored. */
  function ReceiveVote(cfg: NodeConfig, s: NodeState, id: string, v: Vote, now: int, read: bool, saved: bool,
                       marked: bool): NodeState {
    if id !in s.requests || !read || HasVoted(s.requests[id].votes, v.voterMsp) then s
    else SaveAndCheck(cfg, s, WithVote(s.requests[id], v), now, saved, marked)
  }

  predicate Running(s: NodeState, k: nat) {
    k < |s.started| && k !in s.ended
  }

  /** The failure step writes the run's own copy back, whatever the store holds by now. */
  function ApprovalFails(s: NodeState, k: nat, now: int, saved: bool): NodeState
    requires Running(s, k)
  {
    var r := s.started[k].(status := Rejected, resolvedAt := Some(now));
    s.(requests := if saved then s.requests[r.id := r] else s.requests,
       sent := s.sent + {NotifyPacket(r.applicant.mgmtAddr, r.id, false)},
       ended := s.ended[k := false])
  }

  function JoinedPeer(r: JoinRequest, peerAddr: string, now: int): PeerInfo {
    PeerInfo(r.applicant.orgName, r.applicant.mspId, r.applicant.domain, peerAddr, r.applicant.mgmtAddr, now, 0)
  }

  /** A peer list that cannot be read is started afresh. */
  function WithPeer(peers: seq<PeerInfo>, p: PeerInfo, read: bool, saved: bool): seq<PeerInfo> {
    if !saved then peers else Upsert(if read then peers else [], p)
  }

  function ApprovalSucceeds(cfg: NodeConfig, s: NodeState, k: nat, peerAddr: string, now: int, read: bool,
                            saved: bool): NodeState
    requires Running(s, k)
  {
    var r := s.started[k];
    var p := JoinedPeer(r, peerAddr, now);
    var s1 := Broadcast(cfg, s.(peers := WithPeer(s.peers, p, read, saved)), a => PeerPacket(a, p));
    s1.(sent := s1.sent + {NotifyPacket(r.applicant.mgmtAddr, r.id, true)}, ended := s1.ended[k := true])
  }

  // ------------------------------------------------------------------ Manager

  datatype CastError = NotFound | AlreadyResolved(status: Status) | AlreadyVoted | SaveFailed

  /** The running node: every handler changes the stores step by step. */
  class Manager {
    const config: NodeConfig
    var peers: seq<PeerInfo>
    var requests: map<string, JoinRequest>
    var sent: set<Packet>
    var started: seq<JoinRequest>
    var ended: map<nat, bool>

    constructor (config: NodeConfig, peers: seq<PeerInfo>)
      ensures this.config == config
      ensures State() == NodeState(peers, map[], {}, [], map[])
    {
      this.config := config;
      this.peers, requests, sent, started, ended := peers, map[], {}, [], map[];
    }

    function State(): NodeState
      reads this
    {
      NodeState(peers, requests, sent, started, ended)
    }

    method AddPeer(p: PeerInfo, read: bool, saved: bool)
      modifies this`peers
      ensures State() == old(State()).(peers := WithPeer(old(peers), p, read, saved))
    {
      var list := if read then peers else [];
      for i := 0 to |list|
        invariant peers == old(peers)
        invariant forall j | 0 <= j < i :: list[j].mspId != p.mspId
      {
        if list[i].mspId == p.mspId {
          UpsertAt(list, p, i);
          list := list[i := p];
          if saved {
            peers := list;
          }
          return;
        }
      }
      UpsertAt(list, p, |list|);
      list := list + [p];
      if saved {
        peers := list;
      }
    }

    method UpdatePeerLastSeen(msp: string, now: int, read: bool, saved: bool)
      modifies this`peers
      ensures State() == old(State()).(peers := if read && saved then Touch(old(peers), msp, now) else old(peers))
    {
      if !read {
        return;
      }
      for i := 0 to |peers|
        invariant peers == old(peers)
        invariant forall j | 0 <= j < i :: peers[j].mspId != msp
      {
        if peers[i].mspId == msp {
          TouchAt(peers, msp, now, i);
          if saved {
            peers := peers[i := peers[i].(lastSeen := now)];
          }
          return;
        }
      }
      TouchAt(peers, msp, now, |peers|);
    }

    method CollectTargets() returns (addrs: seq<string>)
      ensures addrs == GossipTargets(peers, config.ordererMgmtAddr)
      ensures forall a :: a in addrs <==>
        (exists p :: p in peers && p.mgmtAddr == a) || (a == config.ordererMgmtAddr && a != "")
    {
      addrs := [];
      for i := 0 to |peers|
        invariant addrs == Addresses(peers[..i])
      {
        addrs := addrs + [peers[i].mgmtAddr];
      }
      assert peers[..|peers|] == peers;
      AddressesAreThePeers(peers);
      if config.ordererMgmtAddr != "" {
        var dup := false;
        for i := 0 to |addrs|
          invariant !dup && forall j | 0 <= j < i :: addrs[j] != config.ordererMgmtAddr
        {
          if addrs[i] == config.ordererMgmtAddr {
            dup := true;
            break;
          }
        }
        if !dup {
          addrs := addrs + [config.ordererMgmtAddr];
        }
      }
    }

    method SendToAll(message: string -> Packet)
      modifies this`sent
      ensures State() == Broadcast(config, old(State()), message)
      ensures forall p | p in peers :: message(p.mgmtAddr) in sent
    {
      var targets := CollectTargets();
      for i := 0 to |targets|
        invariant sent == old(sent) + set a | a in targets[..i] :: message(a)
      {
        assert targets[..i + 1] == targets[..i] + [targets[i]];
        sent := sent + {message(targets[i])};
      }
      assert targets[..|targets|] == targets;
    }

    method SubmitJoinRequest(r: JoinRequest, freshId: string, now: int, peersRead: bool, save: Write) returns (ok: bool)
      modifies this
      ensures State() == Submit(config, old(State()), r, freshId, now, peersRead, save)
      ensures ok <==> save == Done
      ensures save != Failed ==>
        var id := if r.id == "" then freshId else r.id;
        && id in requests && requests[id].votes == r.votes && requests[id].applicant == r.applicant
        && requests[id].totalPeers == (if peersRead then |peers| else 0)
        && requests[id].status == (if r.status == Unset then Pending else r.status)
        && (ok ==> forall p | p in peers :: RequestPacket(p.mgmtAddr, requests[id]) in sent)
    {
      var q := r;
      if q.id == "" {
        q := q.(id := freshId);
      }
      if q.status == Unset {
        q := q.(status := Pending);
      }
      if q.createdAt.None? {
        q := q.(createdAt := Some(now));
      }
      q := q.(totalPeers := if peersRead then |peers| else 0);
      if save != Failed {
        requests := requests[q.id := q];
      }
      if save != Done {
        return false;
      }
      SendToAll(a => RequestPacket(a, q));
      return true;
    }

    /** Approves a pending request that has its majority and starts the approval flow, whatever
        becomes of the write. */
    method CheckMajority(r: JoinRequest, now: int, marked: bool)
      modifies this`requests, this`started
      ensures State() == SaveAndCheck(config, old(State()), r, now, false, marked)
      ensures
        var approves := r.status == Pending && MajorityReached(r);
        var settled := r.(status := Approved, resolvedAt := Some(now));
        && requests == (if approves && marked then old(requests)[r.id := settled] else old(requests))
        && started == old(started) + if approves && (config.role == Bootstrap || config.role == Orderer)
                                     then [settled] else []
    {
      if r.status != Pending {
        return;
      }
      var approvals := CountApprovals(r);
      if approvals < RequiredVotes(r.totalPeers) {
        return;
      }
      var settled := r.(status := Approved, resolvedAt := Some(now));
      if marked {
        requests := requests[r.id := settled];
      }
      if config.role == Bootstrap || config.role == Orderer {
        started := started + [settled];
      }
    }

    /** A save and the check that follows it. */
    method SaveThenCheck(r: JoinRequest, now: int, saved: bool, marked: bool)
      modifies this`requests, this`started
      ensures State() == SaveAndCheck(config, old(State()), r, now, saved, marked)
    {
      if saved {
        requests := requests[r.id := r];
      }
      CheckMajority(r, now, marked);
      assert old(requests)[r.id := r][r.id := Resolve(r, now)] == old(requests)[r.id := Resolve(r, now)];
    }

    method ReceiveGossipedRequest(r: JoinRequest, now: int, read: bool, saved: bool, marked: bool)
      modifies this`requests, this`started
      ensures State() == ReceiveRequest(config, old(State()), r, now, read, saved, marked)
    {
      if r.id in requests && read {
        var existing := requests[r.id];
        ghost var mine := existing;
        var changed := false;
        for i := 0 to |r.votes|
          invariant existing == mine.(votes := MergeVotes(mine.votes, r.votes[..i]))
          invariant changed <==> |existing.votes| > |mine.votes|
          invariant !changed ==> existing == mine
          invariant State() == old(State())
        {
          assert r.votes[..i + 1][..i] == r.votes[..i];
          var known := FindVoter(existing, r.votes[i].voterMsp);
          if !known {
            existing := existing.(votes := existing.votes + [r.votes[i]]);
            changed := true;
          }
        }
        assert r.votes[..|r.votes|] == r.votes;
        if changed {
          SaveThenCheck(existing, now, saved, marked);
        }
      } else if saved {
        requests := requests[r.id := r];
      }
    }

    method CastVote(id: string, approve: bool, voteTime: int, now: int, read: bool, save: Write, marked: bool)
      returns (result: Result<Vote, CastError>)
      modifies this
      ensures result.Ok? <==> read && MayCast(config, old(State()), id) && save == Done
      ensures result.Ok? ==>
        && result.value.approve == approve && result.value.voterMsp == config.mspId
        && result.value.voterOrg == config.orgName && result.value.timestamp == voteTime
        && forall p | p in peers :: VotePacket(p.mgmtAddr, id, result.value) in sent
      ensures State() ==
        if read && MayCast(config, old(State()), id)
        then Cast(config, old(State()), id, approve, voteTime, now, save, marked) else old(State())
      ensures result == Err(NotFound) <==> id !in old(requests) || !read
      ensures forall st :: result == Err(AlreadyResolved(st)) <==>
        read && id in old(requests) && old(requests)[id].status == st != Pending
      ensures result == Err(AlreadyVoted) <==>
        && read && id in old(requests) && old(requests)[id].status == Pending
        && HasVoted(old(requests)[id].votes, config.mspId)
      ensures result == Err(SaveFailed) <==> read && MayCast(config, old(State()), id) && save != Done
    {
      if id !in requests || !read {
        return Err(NotFound);
      }
      var r := requests[id];
      if r.status != Pending {
        return Err(AlreadyResolved(r.status));
      }
      var voted := FindVoter(r, config.mspId);
      if voted {
        return Err(AlreadyVoted);
      }
      var vote := Vote(config.orgName, config.mspId, approve, voteTime);
      r := r.(votes := r.votes + [vote]);
      if save != Failed {
        requests := requests[r.id := r];
      }
      if save != Done {
        return Err(SaveFailed);
      }
      SendToAll(a => VotePacket(a, id, vote));
      CheckMajority(r, now, marked);
      assert old(requests)[r.id := r][r.id := Resolve(r, now)] == old(requests)[r.id := Resolve(r, now)];
      return Ok(vote);
    }

    method ReceiveGossipedVote(id: string, vote: Vote, now: int, read: bool, saved: bool, marked: bool)
      modifies this`requests, this`started
      ensures State() == ReceiveVote(config, old(State()), id, vote, now, read, saved, marked)
      ensures id in old(requests) && read && saved && old(requests)[id].id == id ==>
        && id in requests
        && requests[id].votes == old(requests)[id].votes +
             if exists v :: v in old(requests)[id].votes && v.voterMsp == vote.voterMsp then [] else [vote]
    {
      if id !in requests || !read {
        return;
      }
      var r := requests[id];
      var voted := FindVoter(r, vote.voterMsp);
      if voted {
        return;
      }
      r := r.(votes := r.votes + [vote]);
      SaveThenCheck(r, now, saved, marked);
    }

    method FailApproval(k: nat, now: int, saved: bool)
      requires Running(State(), k)
      modifies this
      ensures State() == ApprovalFails(old(State()), k, now, saved)
      ensures saved ==>
        started[k].id in requests && requests[started[k].id] == started[k].(status := Rejected, resolvedAt := Some(now))
      ensures NotifyPacket(started[k].applicant.mgmtAddr, started[k].id, false) in sent
    {
      var r := started[k].(status := Rejected, resolvedAt := Some(now));
      if saved {
        requests := requests[r.id := r];
      }
      sent := sent + {NotifyPacket(r.applicant.mgmtAddr, r.id, false)};
      ended := ended[k := false];
    }

    method CompleteApproval(k: nat, peerAddr: string, now: int, read: bool, saved: bool)
      requires Running(State(), k)
      modifies this
      ensures State() == ApprovalSucceeds(config, old(State()), k, peerAddr, now, read, saved)
      ensures requests == old(requests)
      ensures NotifyPacket(started[k].applicant.mgmtAddr, started[k].id, true) in sent
      ensures saved && read && OnePerMsp(old(peers)) ==>
        (exists p | p in peers :: && p.mspId == started[k].applicant.mspId
                                  && p.mgmtAddr == started[k].applicant.mgmtAddr && p.peerAddr == peerAddr)
    {
      var r := started[k];
      var p := JoinedPeer(r, peerAddr, now);
      if OnePerMsp(peers) {
        UpsertCounts(peers, p);
      }
      AddPeer(p, read, saved);
      SendToAll(a => PeerPacket(a, p));
      sent := sent + {NotifyPacket(r.applicant.mgmtAddr, r.id, true)};
      ended := ended[k := true];
    }
  }
}
