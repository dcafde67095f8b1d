/** When upgrades come to an end, and when they cannot. Wanted policies may change from one process
    to the next. */
module LifecycleRest {
  import opened Helpers
  import opened Lifecycle

  /** A failed policy query is harmless only while nothing is committed. */
  predicate Reliable(w: World, e: Event) {
    var asks := e.ReadPolicy? && e.pid in w.processes && w.processes[e.pid].phase.ReadingPolicy?;
    asks && w.processes[e.pid].phase.seen > 0 ==> e.answered
  }

  ghost predicate ReliableRun(printed: Printer, start: World, events: seq<Event>) {
    events == [] ||
    var front := events[..|events| - 1];
    ReliableRun(printed, start, front) && Reliable(Run(printed, start, front), events[|events| - 1])
  }

  predicate Content(printed: Printer, policy: string, wanted: string) {
    wanted == "" || wanted == printed(policy)
  }

  /** The sequence that a process is after, 0 while it has not chosen one. */
  function Target(phase: Phase): nat {
    match phase
    case Approving(target, _, _) => target
    case Checking(target) => target
    case Confirming(target) => target
    case Submitting(target, _) => target
    case _ => 0
  }

  predicate Finished(phase: Phase) { phase.Succeeded? || phase.Stopped? }

  /** Whoever is after the next sequence of a committed chaincode wants another policy. */
  ghost predicate Motivated(printed: Printer, channel: Channel, p: Process) {
    channel.committed > 0 && Target(p.phase) > channel.committed ==> !Content(printed, channel.policy, p.wanted)
  }

  /** Finished, wanting the policy in force, or after a sequence that is taken already. */
  predicate AtRest(printed: Printer, channel: Channel, p: Process) {
    Finished(p.phase) || Content(printed, channel.policy, p.wanted) || 1 <= Target(p.phase) <= channel.committed
  }

  lemma MotivatedStep(printed: Printer, w: World, pid: nat, e: Event)
    requires pid in w.processes && !e.Join? && !e.Begin? && e.pid == pid
    requires ProcessOk(w.channel, w.processes[pid]) && Motivated(printed, w.channel, w.processes[pid])
    requires Reliable(w, e)
    ensures Motivated(printed, Step(printed, w, e).channel, Step(printed, w, e).processes[pid])
  {}

  lemma AtRestStep(printed: Printer, w: World, pid: nat, e: Event)
    requires pid in w.processes && !e.Join? && !e.Begin? && e.pid == pid && w.channel.committed > 0
    requires ProcessOk(w.channel, w.processes[pid]) && Motivated(printed, w.channel, w.processes[pid])
    requires Reliable(w, e) && AtRest(printed, w.channel, w.processes[pid])
    ensures AtRest(printed, w.channel, Step(printed, w, e).processes[pid])
    ensures
      var after := Step(printed, w, e).channel;
      after.committed == w.channel.committed && after.policy == w.channel.policy
  {}

  ghost predicate AllMotivated(printed: Printer, w: World) {
    forall pid | pid in w.processes :: Motivated(printed, w.channel, w.processes[pid])
  }

  ghost predicate AllAtRest(printed: Printer, w: World) {
    forall pid | pid in w.processes :: AtRest(printed, w.channel, w.processes[pid])
  }

  lemma {:induction false} EveryoneMotivated(printed: Printer, start: World, events: seq<Event>)
    requires Initial(start) && ReliableRun(printed, start, events)
    ensures Inv(Run(printed, start, events)) && AllMotivated(printed, Run(printed, start, events))
  {
    SuccessMeansCommitted(printed, start, events);
    if events != [] {
      var front, e := events[..|events| - 1], events[|events| - 1];
      var w, w' := Run(printed, start, front), Run(printed, start, events);
      EveryoneMotivated(printed, start, front);
      CommitIsOneStep(printed, w, e);
      forall pid | pid in w'.processes ensures Motivated(printed, w'.channel, w'.processes[pid]) {
        if pid in w.processes && !e.Join? && !e.Begin? && e.pid == pid {
          MotivatedStep(printed, w, pid, e);
        }
      }
    }
  }

  lemma RestIsKept(printed: Printer, w: World, e: Event)
    requires Inv(w) && AllMotivated(printed, w) && AllAtRest(printed, w) && w.channel.committed > 0
    requires Reliable(w, e) && (e.Begin? ==> Content(printed, w.channel.policy, e.wanted))
    ensures
      var w' := Step(printed, w, e);
      && w'.channel.committed == w.channel.committed && w'.channel.policy == w.channel.policy
      && AllAtRest(printed, w')
  {
    var w' := Step(printed, w, e);
    if !e.Join? && !e.Begin? && e.pid in w.processes {
      AtRestStep(printed, w, e.pid, e);
    }
    forall pid | pid in w'.processes ensures AtRest(printed, w'.channel, w'.processes[pid]) {
      assert pid in w.processes ==> AtRest(printed, w.channel, w.processes[pid]);
    }
  }

  /** Once every process under way is at rest, and every later one wants the policy in force,
      nothing more is committed, as long as policy queries answer. Whatever was wanted before. */
  lemma {:induction false} AgreementEndsAllCommits(printed: Printer, start: World, events: seq<Event>, more: seq<Event>)
    requires Initial(start) && ReliableRun(printed, start, events + more)
    requires Run(printed, start, events).channel.committed > 0 && AllAtRest(printed, Run(printed, start, events))
    requires forall e | e in more && e.Begin? :: Content(printed, Run(printed, start, events).channel.policy, e.wanted)
    ensures
      var before, after := Run(printed, start, events), Run(printed, start, events + more);
      && after.channel.committed == before.channel.committed && after.channel.policy == before.channel.policy
      && AllAtRest(printed, after)
  {
    if more == [] {
      assert events + more == events;
    } else {
      var front, e := more[..|more| - 1], more[|more| - 1];
      assert (events + more)[..|events + more| - 1] == events + front;
      assert e in more && forall f | f in front :: f in more;
      AgreementEndsAllCommits(printed, start, events, front);
      EveryoneMotivated(printed, start, events + front);
      RestIsKept(printed, Run(printed, start, events + front), e);
    }
  }

  // ------------------------------------------------------------------ a majority that is not content

  datatype Voter = Voter(pid: nat, org: string)

  /** One organisation's process up to its approval; `answered` is about its policy query. */
  function Approval(v: Voter, wanted: string, answered: bool): seq<Event> {
    [Begin(v.pid, v.org, wanted), ReadSequence(v.pid, true), ReadPolicy(v.pid, answered),
     TryApprove(v.pid, true, true, false)]
  }

  function Approvals(voters: seq<Voter>, wanted: string, answered: bool): seq<Event> {
    if voters == [] then []
    else Approvals(voters[..|voters| - 1], wanted, answered) + Approval(voters[|voters| - 1], wanted, answered)
  }

  function CommitTail(pid: nat): seq<Event> { [Check(pid, true), Confirm(pid, true), Submit(pid, true, true, false)] }

  /** The last one goes on to commit. */
  function Upgrade(voters: seq<Voter>, wanted: string, answered: bool): seq<Event>
    requires voters != []
  {
    Approvals(voters, wanted, answered) + CommitTail(voters[|voters| - 1].pid)
  }

  /** What a policy query reads as. */
  function Read(printed: Printer, channel: Channel, answered: bool): string {
    if answered && channel.committed > 0 then printed(channel.policy) else ""
  }

  predicate SeesNoNeed(printed: Printer, channel: Channel, wanted: string, answered: bool) {
    channel.committed > 0 && (wanted == "" || wanted == Read(printed, channel, answered))
  }

  ghost predicate NewVoters(w: World, voters: seq<Voter>) {
    && (forall i | 0 <= i < |voters| :: voters[i].pid !in w.processes && voters[i].org in w.channel.orgs)
    && (forall i, j | 0 <= i < j < |voters| :: voters[i].pid != voters[j].pid && voters[i].org != voters[j].org)
  }

  lemma {:induction false} RunSplits(printed: Printer, start: World, a: seq<Event>, b: seq<Event>)
    ensures Run(printed, start, a + b) == Run(printed, Run(printed, start, a), b)
  {
    if b == [] {
      assert a + b == a;
    } else {
      assert (a + b)[..|a + b| - 1] == a + b[..|b| - 1];
      RunSplits(printed, start, a, b[..|b| - 1]);
    }
  }

  lemma RunOne(printed: Printer, w: World, e: Event)
    ensures Run(printed, w, [e]) == Step(printed, w, e)
  {
    assert [e][..0] == [];
    assert Run(printed, w, [e][..0]) == w;
  }

  lemma RunThree(printed: Printer, w: World, a: Event, b: Event, c: Event)
    ensures Run(printed, w, [a, b, c]) == Step(printed, Step(printed, Step(printed, w, a), b), c)
  {
    assert [a, b, c] == ([a] + [b]) + [c];
    RunSplits(printed, w, [a] + [b], [c]);
    RunSplits(printed, w, [a], [b]);
    RunOne(printed, w, a);
    RunOne(printed, Step(printed, w, a), b);
    RunOne(printed, Step(printed, Step(printed, w, a), b), c);
  }

  /** Where one process gets to with its two queries. */
  lemma ApprovalReads(printed: Printer, w: World, v: Voter, wanted: string, answered: bool)
    requires v.pid !in w.processes
    ensures
      var w3 := Run(printed, w, Queries(v, wanted, answered));
      && w3.channel == w.channel
      && w3.processes == w.processes[v.pid := Process(v.org, wanted,
           Targeted(w.channel.committed, Read(printed, w.channel, answered), wanted))]
  {
    RunThree(printed, w, Begin(v.pid, v.org, wanted), ReadSequence(v.pid, true), ReadPolicy(v.pid, answered));
    var w1 := Step(printed, w, Begin(v.pid, v.org, wanted));
    var w2 := Step(printed, w1, ReadSequence(v.pid, true));
    assert w1.processes[v.pid] == Process(v.org, wanted, ReadingSequence);
    assert w2.processes[v.pid] == Process(v.org, wanted, ReadingPolicy(w.channel.committed));
    var w3 := Step(printed, w2, ReadPolicy(v.pid, answered));
    assert w3.processes == w.processes[v.pid := w3.processes[v.pid]];
  }

  /** From `w` to `after`, one new process has approved, or found that there is no need. */
  ghost predicate ApprovedBy(w: World, after: World, v: Voter, wanted: string, noNeed: bool) {
    var next := w.channel.committed + 1;
    && after.channel == w.channel.(approvals := after.channel.approvals)
    && after.processes.Keys == w.processes.Keys + {v.pid} && after.processes[v.pid].wanted == wanted
    && if noNeed then Finished(after.processes[v.pid].phase)
       else && after.processes[v.pid].phase == Checking(next)
            && after.channel.approvals == w.channel.approvals[ApprovalKey(v.org, next) := wanted]
  }

  lemma ApproveStep(printed: Printer, w: World, queried: World, v: Voter, wanted: string, answered: bool)
    requires queried.channel == w.channel
    requires queried.processes == w.processes[v.pid := Process(v.org, wanted,
               Targeted(w.channel.committed, Read(printed, w.channel, answered), wanted))]
    ensures ApprovedBy(w, Step(printed, queried, TryApprove(v.pid, true, true, false)), v, wanted,
                       SeesNoNeed(printed, w.channel, wanted, answered))
  {}

  function Queries(v: Voter, wanted: string, answered: bool): seq<Event> {
    [Begin(v.pid, v.org, wanted), ReadSequence(v.pid, true), ReadPolicy(v.pid, answered)]
  }

  lemma ApprovalSplits(printed: Printer, w: World, v: Voter, wanted: string, answered: bool)
    ensures Run(printed, w, Approval(v, wanted, answered)) ==
            Step(printed, Run(printed, w, Queries(v, wanted, answered)), TryApprove(v.pid, true, true, false))
  {
    var try := TryApprove(v.pid, true, true, false);
    assert Approval(v, wanted, answered) == Queries(v, wanted, answered) + [try];
    RunSplits(printed, w, Queries(v, wanted, answered), [try]);
    RunOne(printed, Run(printed, w, Queries(v, wanted, answered)), try);
  }

  lemma ApprovalDone(printed: Printer, w: World, v: Voter, wanted: string, answered: bool)
    requires v.pid !in w.processes
    ensures ApprovedBy(w, Run(printed, w, Approval(v, wanted, answered)), v, wanted,
                       SeesNoNeed(printed, w.channel, wanted, answered))
  {
    ApprovalSplits(printed, w, v, wanted, answered);
    ApprovalReads(printed, w, v, wanted, answered);
    ApproveStep(printed, w, Run(printed, w, Queries(v, wanted, answered)), v, wanted, answered);
  }

  ghost predicate Supported(channel: Channel, voters: seq<Voter>, wanted: string) {
    forall i | 0 <= i < |voters| ::
      ApprovalKey(voters[i].org, channel.committed + 1) in channel.approvals
      && channel.approvals[ApprovalKey(voters[i].org, channel.committed + 1)] == wanted
  }

  function Pids(voters: seq<Voter>): set<nat> { set i | 0 <= i < |voters| :: voters[i].pid }

  ghost predicate Gathered(w: World, after: World, voters: seq<Voter>, wanted: string, noNeed: bool) {
    && after.channel == w.channel.(approvals := after.channel.approvals)
    && after.processes.Keys == w.processes.Keys + Pids(voters)
    && (!noNeed ==> Supported(after.channel, voters, wanted))
    && (voters != [] ==>
          var last := after.processes[voters[|voters| - 1].pid];
          last.wanted == wanted
          && if noNeed then Finished(last.phase) else last.phase == Checking(w.channel.committed + 1))
  }

  lemma {:induction false} GatherOne(w: World, mid: World, after: World, front: seq<Voter>, last: Voter,
                                     wanted: string, noNeed: bool)
    requires Gathered(w, mid, front, wanted, noNeed) && ApprovedBy(mid, after, last, wanted, noNeed)
    ensures Gathered(w, after, front + [last], wanted, noNeed)
  {
    var all := front + [last];
    assert all[|front|] == last && forall i | 0 <= i < |front| :: all[i] == front[i];
    assert Pids(all) == Pids(front) + {last.pid};
  }

  lemma {:induction false} Gather(printed: Printer, w: World, voters: seq<Voter>, wanted: string, answered: bool)
    requires NewVoters(w, voters)
    ensures Gathered(w, Run(printed, w, Approvals(voters, wanted, answered)), voters, wanted,
                     SeesNoNeed(printed, w.channel, wanted, answered))
  {
    if voters == [] {
      assert Pids(voters) == {};
    } else {
      Gather(printed, w, voters[..|voters| - 1], wanted, answered);
      GatherLast(printed, w, voters, wanted, answered);
    }
  }

  lemma {:induction false} GatherLast(printed: Printer, w: World, voters: seq<Voter>, wanted: string, answered: bool)
    requires NewVoters(w, voters) && voters != []
    requires Gathered(w, Run(printed, w, Approvals(voters[..|voters| - 1], wanted, answered)), voters[..|voters| - 1],
                      wanted, SeesNoNeed(printed, w.channel, wanted, answered))
    ensures Gathered(w, Run(printed, w, Approvals(voters, wanted, answered)), voters, wanted,
                     SeesNoNeed(printed, w.channel, wanted, answered))
  {
    var front, last := voters[..|voters| - 1], voters[|voters| - 1];
    var mid := Run(printed, w, Approvals(front, wanted, answered));
    RunSplits(printed, w, Approvals(front, wanted, answered), Approval(last, wanted, answered));
    ApprovalDone(printed, mid, last, wanted, answered);
    GatherOne(w, mid, Run(printed, mid, Approval(last, wanted, answered)), front, last, wanted,
              SeesNoNeed(printed, w.channel, wanted, answered));
    assert voters == front + [last];
  }

  function OrgsOf(voters: seq<Voter>): set<string> { set i | 0 <= i < |voters| :: voters[i].org }

  lemma {:induction false} OrgsOfSize(voters: seq<Voter>)
    requires forall i, j | 0 <= i < j < |voters| :: voters[i].org != voters[j].org
    ensures |OrgsOf(voters)| == |voters|
  {
    if voters != [] {
      var front, last := voters[..|voters| - 1], voters[|voters| - 1];
      OrgsOfSize(front);
      assert OrgsOf(voters) == OrgsOf(front) + {last.org};
    }
  }

  lemma SupportIsMajority(channel: Channel, voters: seq<Voter>, wanted: string)
    requires Supported(channel, voters, wanted) && 2 * |voters| > |channel.orgs|
    requires forall i | 0 <= i < |voters| :: voters[i].org in channel.orgs
    requires forall i, j | 0 <= i < j < |voters| :: voters[i].org != voters[j].org
    ensures StrictMajority(channel, channel.committed + 1, wanted)
  {
    OrgsOfSize(voters);
    SubsetSize(OrgsOf(voters), Approvers(channel, channel.committed + 1, wanted));
  }

  lemma CommitLands(printed: Printer, w: World, pid: nat)
    requires pid in w.processes && w.processes[pid].phase == Checking(w.channel.committed + 1)
    requires StrictMajority(w.channel, w.channel.committed + 1, w.processes[pid].wanted)
    ensures
      var w' := Run(printed, w, CommitTail(pid));
      w'.channel.committed == w.channel.committed + 1 && w'.channel.policy == w.processes[pid].wanted
  {
    RunThree(printed, w, Check(pid, true), Confirm(pid, true), Submit(pid, true, true, false));
    var w1 := Step(printed, w, Check(pid, true));
    assert w1.processes[pid].phase == Confirming(w.channel.committed + 1);
    var w2 := Step(printed, w1, Confirm(pid, true));
    assert w2.processes[pid].phase == Submitting(w.channel.committed + 1, 1);
  }

  lemma FinishedDoesNothing(printed: Printer, w: World, pid: nat)
    requires pid in w.processes && Finished(w.processes[pid].phase)
    ensures Run(printed, w, CommitTail(pid)).channel == w.channel
  {
    RunThree(printed, w, Check(pid, true), Confirm(pid, true), Submit(pid, true, true, false));
    FinishedStep(printed, w, pid, Check(pid, true));
    FinishedStep(printed, w, pid, Confirm(pid, true));
    FinishedStep(printed, w, pid, Submit(pid, true, true, false));
  }

  lemma FinishedStep(printed: Printer, w: World, pid: nat, e: Event)
    requires pid in w.processes && Finished(w.processes[pid].phase)
    requires (e.Check? || e.Confirm? || e.Submit?) && e.pid == pid
    ensures Step(printed, w, e) == w
  {
    assert w.processes[pid := w.processes[pid]] == w.processes;
  }

  lemma {:induction false} FromGathered(printed: Printer, w: World, gathered: World, voters: seq<Voter>,
                                        wanted: string, noNeed: bool)
    requires NewVoters(w, voters) && 2 * |voters| > |w.channel.orgs| && Gathered(w, gathered, voters, wanted, noNeed)
    ensures
      var after := Run(printed, gathered, CommitTail(voters[|voters| - 1].pid)).channel;
      if noNeed then after == gathered.channel
      else after.committed == w.channel.committed + 1 && after.policy == wanted
  {
    var pid := voters[|voters| - 1].pid;
    assert pid in Pids(voters);
    if noNeed {
      FinishedDoesNothing(printed, gathered, pid);
    } else {
      SupportIsMajority(gathered.channel, voters, wanted);
      CommitLands(printed, gathered, pid);
    }
  }

  /** The other side of agreement: a strict majority that wants one policy commits it, first of all
      when nothing is committed yet, and over the one in force exactly when it wants one and reads
      that one as different: because it is, because its own wording is not the printed one, or
      because the policy queries failed. */
  lemma MajorityCommitsAgain(printed: Printer, w: World, voters: seq<Voter>, wanted: string, answered: bool)
    requires NewVoters(w, voters) && 2 * |voters| > |w.channel.orgs|
    ensures
      var after := Run(printed, w, Upgrade(voters, wanted, answered)).channel;
      if w.channel.committed > 0 && (wanted == "" || wanted == if answered then printed(w.channel.policy) else "")
      then after.committed == w.channel.committed && after.policy == w.channel.policy
      else after.committed == w.channel.committed + 1 && after.policy == wanted
  {
    var noNeed := SeesNoNeed(printed, w.channel, wanted, answered);
    Gather(printed, w, voters, wanted, answered);
    FromGathered(printed, w, Run(printed, w, Approvals(voters, wanted, answered)), voters, wanted, noNeed);
    RunSplits(printed, w, Approvals(voters, wanted, answered), CommitTail(voters[|voters| - 1].pid));
  }
}
