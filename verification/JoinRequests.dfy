/** Join requests, the votes on them and the majority rule that resolves them. */
module JoinRequests {
  import opened Options
  import opened Helpers

  const ORDERER_MSP := "OrdererMSP"

  /** `Unset` is the empty status of a request that a client has just posted. */
  datatype Status = Unset | Pending | Approved | Rejected

  datatype Vote = Vote(voterOrg: string, voterMsp: string, approve: bool, timestamp: int)

  /** The organisation that asks to join, as it describes itself. */
  datatype Applicant = Applicant(
    orgName: string, mspId: string, domain: string, mgmtAddr: string, orgDefinition: string, orgMspBundle: string)

  datatype JoinRequest = JoinRequest(
    id: string, applicant: Applicant, status: Status, votes: seq<Vote>, totalPeers: int,
    createdAt: Option<int>, resolvedAt: Option<int>)

  // ---------------------------------------------------------------- counting

  function RequiredVotes(totalPeers: int): int {
    if totalPeers <= 0 then 1 else totalPeers / 2 + 1
  }

  /** The orderer's approval counts only while the network has no peer. */
  predicate Counts(v: Vote, totalPeers: int) {
    v.approve && (totalPeers == 0 || v.voterMsp != ORDERER_MSP)
  }

  function ApprovalCount(votes: seq<Vote>, totalPeers: int): nat {
    if votes == [] then 0
    else
      ApprovalCount(votes[..|votes| - 1], totalPeers)
      + if Counts(votes[|votes| - 1], totalPeers) then 1 else 0
  }

  predicate HasVoted(votes: seq<Vote>, msp: string) {
    exists v | v in votes :: v.voterMsp == msp
  }

  predicate MajorityReached(r: JoinRequest) {
    ApprovalCount(r.votes, r.totalPeers) >= RequiredVotes(r.totalPeers)
  }

  /** The distinct organisations with an approving vote in the list, the orderer's left out unless
      the network has no peer. */
  ghost function ApprovingMsps(votes: seq<Vote>, totalPeers: int): set<string> {
    set v | v in votes && v.approve && (totalPeers == 0 || v.voterMsp != "OrdererMSP") :: v.voterMsp
  }

  method CountApprovals(r: JoinRequest) returns (n: nat)
    ensures n == ApprovalCount(r.votes, r.totalPeers)
    ensures Distinct(r.votes) ==> n == |ApprovingMsps(r.votes, r.totalPeers)|
  {
    n := 0;
    for i := 0 to |r.votes|
      invariant n == ApprovalCount(r.votes[..i], r.totalPeers)
    {
      assert r.votes[..i + 1][..i] == r.votes[..i];
      if r.votes[i].approve {
        if r.totalPeers == 0 || r.votes[i].voterMsp != ORDERER_MSP {
          n := n + 1;
        }
      }
    }
    assert r.votes[..|r.votes|] == r.votes;
    if Distinct(r.votes) {
      CountIsApprovingMsps(r.votes, r.totalPeers);
    }
  }

  method FindVoter(r: JoinRequest, msp: string) returns (found: bool)
    ensures found <==> HasVoted(r.votes, msp)
  {
    for i := 0 to |r.votes|
      invariant forall j | 0 <= j < i :: r.votes[j].voterMsp != msp
    {
      if r.votes[i].voterMsp == msp {
        return true;
      }
    }
    return false;
  }

  // ------------------------------------------------- votes as sets and as maps

  /** No organisation appears twice in the list. */
  ghost predicate Distinct(votes: seq<Vote>) {
    forall i, j | 0 <= i < j < |votes| :: votes[i].voterMsp != votes[j].voterMsp
  }

  /** One organisation has one vote within the set. */
  ghost predicate Consistent(votes: set<Vote>) {
    forall v, w | v in votes && w in votes && v.voterMsp == w.voterMsp :: v == w
  }

  function VoteSet(votes: seq<Vote>): set<Vote> {
    set v | v in votes
  }

  /** The organisations whose approval counts. */
  function Approvers(votes: set<Vote>, totalPeers: int): set<string> {
    set v | v in votes && Counts(v, totalPeers) :: v.voterMsp
  }

  /** The vote map: what `msp` voted, if it did. */
  function VoteOf(votes: seq<Vote>, msp: string): Option<Vote> {
    if votes == [] then None
    else if votes[0].voterMsp == msp then Some(votes[0])
    else VoteOf(votes[1..], msp)
  }

  lemma {:induction false} VoteOfMembership(votes: seq<Vote>, msp: string)
    requires Distinct(votes)
    ensures forall v :: VoteOf(votes, msp) == Some(v) <==> v in votes && v.voterMsp == msp
  {
    if votes != [] {
      VoteOfMembership(votes[1..], msp);
      assert votes == [votes[0]] + votes[1..];
    }
  }

  /** The loop's counter is the number of distinct approving organisations. */
  lemma {:induction false} CountIsCardinality(votes: seq<Vote>, totalPeers: int)
    requires Distinct(votes)
    ensures ApprovalCount(votes, totalPeers) == |Approvers(VoteSet(votes), totalPeers)|
  {
    if votes != [] {
      var front, last := votes[..|votes| - 1], votes[|votes| - 1];
      CountIsCardinality(front, totalPeers);
      assert votes == front + [last];
      assert VoteSet(votes) == VoteSet(front) + {last};
      var a, b := Approvers(VoteSet(front), totalPeers), Approvers(VoteSet(votes), totalPeers);
      assert last.voterMsp !in a;
      if Counts(last, totalPeers) {
        assert b == a + {last.voterMsp};
      } else {
        assert b == a;
      }
    }
  }

  lemma CountIsApprovingMsps(votes: seq<Vote>, totalPeers: int)
    requires Distinct(votes)
    ensures ApprovalCount(votes, totalPeers) == |ApprovingMsps(votes, totalPeers)|
  {
    CountIsCardinality(votes, totalPeers);
    assert Approvers(VoteSet(votes), totalPeers) == ApprovingMsps(votes, totalPeers);
  }

  /** The majority rule, spelled out: more than half of the peers, or one organisation when there is
      no peer. */
  lemma MajorityMeans(r: JoinRequest)
    requires Distinct(r.votes)
    ensures MajorityReached(r) <==>
      |ApprovingMsps(r.votes, r.totalPeers)| >= if r.totalPeers <= 0 then 1 else r.totalPeers / 2 + 1
  {
    CountIsApprovingMsps(r.votes, r.totalPeers);
  }

  /** More votes never take a majority away. */
  lemma ApproversGrow(less: set<Vote>, more: set<Vote>, totalPeers: int)
    requires less <= more
    ensures |Approvers(less, totalPeers)| <= |Approvers(more, totalPeers)|
  {
    SubsetSize(Approvers(less, totalPeers), Approvers(more, totalPeers));
  }

  /** Two lists of the same votes, in any order, have the same approval count and vote map. */
  lemma SameVotesSameOutcome(a: seq<Vote>, b: seq<Vote>, totalPeers: int)
    requires Distinct(a) && Distinct(b) && VoteSet(a) == VoteSet(b)
    ensures ApprovalCount(a, totalPeers) == ApprovalCount(b, totalPeers)
    ensures forall msp :: VoteOf(a, msp) == VoteOf(b, msp)
  {
    CountIsCardinality(a, totalPeers);
    CountIsCardinality(b, totalPeers);
    forall msp ensures VoteOf(a, msp) == VoteOf(b, msp) {
      VoteOfMembership(a, msp);
      VoteOfMembership(b, msp);
      forall v | v in a || v in b ensures v in a && v in b {
        assert v in VoteSet(a) && v in VoteSet(b);
      }
      assert forall v :: VoteOf(a, msp) == Some(v) <==> VoteOf(b, msp) == Some(v);
    }
  }
}
