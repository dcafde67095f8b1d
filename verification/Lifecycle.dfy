/** Several organisations upgrading one chaincode definition at the same time. Every peer command
    is a step of its own; commands may fail, and a command may report failure after it took
    effect. */
module Lifecycle {

  datatype ApprovalKey = ApprovalKey(org: string, sequence: nat)

  /** The channel's lifecycle state: the committed definition and the latest approval of each
      organisation at each sequence. Policies are the texts that were asked for. */
  datatype Channel = Channel(orgs: set<string>, committed: nat, policy: string, approvals: map<ApprovalKey, string>)

  /** The text the lifecycle shows for a committed policy, "" when it cannot be decoded. */
  type Printer = string -> string

  datatype Phase =
    | ReadingSequence
    | ReadingPolicy(seen: nat)
    | Approving(target: nat, settled: bool, tries: nat)
    | Checking(target: nat)
    | Confirming(target: nat)
    | Submitting(target: nat, tries: nat)
    | Succeeded(target: nat)
    | Stopped

  /** One run of the deployment for an organisation; `wanted` is the policy that run was given, ""
      for none. Two runs of one organisation may want different policies. */
  datatype Process = Process(org: string, wanted: string, phase: Phase)

  datatype World = World(channel: Channel, processes: map<nat, Process>)

  /** `answered`: the query succeeded. `applied`: the command reached the ledger if the ledger
      accepts it. `ok`: it reported success. `transient`: its error text asks for another try. */
  datatype Event =
    | Join(org: string)
    | Begin(pid: nat, org: string, wanted: string)
    | ReadSequence(pid: nat, answered: bool)
    | ReadPolicy(pid: nat, answered: bool)
    | FindApproved(pid: nat)
    | TryApprove(pid: nat, applied: bool, ok: bool, transient: bool)
    | Check(pid: nat, answered: bool)
    | Confirm(pid: nat, answered: bool)
    | Submit(pid: nat, applied: bool, ok: bool, transient: bool)
    | Stop(pid: nat)

  const MAX_APPROVE_ATTEMPTS := 24
  const MAX_COMMIT_ATTEMPTS := 12

  // --------------------------------------------------------------------------- the channel

  /** An approval is for the next sequence, or repeats the committed definition. */
  predicate AcceptsApproval(channel: Channel, sequence: nat, policy: string) {
    sequence == channel.committed + 1 || (sequence == channel.committed && policy == channel.policy)
  }

  function Approvers(channel: Channel, sequence: nat, policy: string): set<string> {
    set org | org in channel.orgs && ApprovalKey(org, sequence) in channel.approvals
              && channel.approvals[ApprovalKey(org, sequence)] == policy
  }

  /** The table that a readiness or committed query shows. */
  function ApprovalTable(channel: Channel, sequence: nat, policy: string): map<string, bool> {
    map org | org in channel.orgs :: org in Approvers(channel, sequence, policy)
  }

  predicate StrictMajority(channel: Channel, sequence: nat, policy: string) {
    2 * |Approvers(channel, sequence, policy)| > |channel.orgs|
  }

  /** The counting loop over the approval table. */
  method CommitReady(approvals: map<string, bool>) returns (ready: bool)
    ensures ready <==> 2 * |set org | org in approvals && approvals[org]| > |approvals|
  {
    var approvedCount := 0;
    var left := approvals.Keys;
    ghost var counted: set<string> := {};
    while left != {}
      invariant left <= approvals.Keys
      invariant counted == set org | org in approvals && org !in left && approvals[org]
      invariant approvedCount == |counted|
      decreases left
    {
      var org :| org in left;
      left := left - {org};
      if approvals[org] {
        approvedCount := approvedCount + 1;
        counted := counted + {org};
      }
    }
    assert counted == set org | org in approvals && approvals[org];
    return approvedCount >= |approvals| / 2 + 1;
  }

  /** What the check reads: the committed definition's approvals when the target is committed, the
      readiness of the wanted definition when the target is next, and nothing otherwise. */
  predicate SeesMajority(channel: Channel, target: nat, wanted: string) {
    if target == channel.committed then StrictMajority(channel, target, channel.policy)
    else target == channel.committed + 1 && StrictMajority(channel, target, wanted)
  }

  lemma TableCounts(channel: Channel, sequence: nat, policy: string)
    ensures
      var table := ApprovalTable(channel, sequence, policy);
      2 * |set org | org in table && table[org]| > |table| <==> StrictMajority(channel, sequence, policy)
  {
    var table := ApprovalTable(channel, sequence, policy);
    assert (set org | org in table && table[org]) == Approvers(channel, sequence, policy);
    assert table.Keys == channel.orgs;
    assert |table| == |table.Keys|;
  }

  // ----------------------------------------------------------------------------- one process

  /** The target is the committed sequence when the wanted policy is in force, else the next. */
  function Targeted(seen: nat, policyRead: string, wanted: string): Phase {
    if seen == 0 then Approving(1, false, 1)
    else if wanted == "" || policyRead == wanted then Approving(seen, true, 1)
    else Approving(seen + 1, false, 1)
  }

  function AfterApproval(target: nat, settled: bool): Phase {
    if settled then Succeeded(target) else Checking(target)
  }

  predicate Lands(channel: Channel, e: Event, target: nat)
    requires e.Submit?
  {
    e.applied && target == channel.committed + 1
  }

  function NextPhase(printed: Printer, channel: Channel, p: Process, e: Event): Phase {
    match (e, p.phase)
    case (ReadSequence(_, answered), ReadingSequence) => ReadingPolicy(if answered then channel.committed else 0)
    case (ReadPolicy(_, answered), ReadingPolicy(seen)) =>
      Targeted(seen, if answered && channel.committed > 0 then printed(channel.policy) else "", p.wanted)
    case (FindApproved(_), Approving(target, settled, _)) =>
      var policy := if target == channel.committed then channel.policy else p.wanted;
      if target >= channel.committed && p.org in Approvers(channel, target, policy) then AfterApproval(target, settled)
      else p.phase
    case (TryApprove(_, applied, ok, transient), Approving(target, settled, tries)) =>
      if applied && ok && AcceptsApproval(channel, target, p.wanted) then AfterApproval(target, settled)
      else if transient && tries < MAX_APPROVE_ATTEMPTS then Approving(target, settled, tries + 1)
      else Stopped
    case (Check(_, answered), Checking(target)) =>
      if answered && SeesMajority(channel, target, p.wanted) then Confirming(target) else Stopped
    case (Confirm(_, answered), Confirming(target)) =>
      if answered && channel.committed >= target then Succeeded(target) else Submitting(target, 1)
    case (Submit(_, _, ok, transient), Submitting(target, tries)) =>
      if ok && Lands(channel, e, target) then Succeeded(target)
      else if transient && tries < MAX_COMMIT_ATTEMPTS then Submitting(target, tries + 1)
      else Stopped
    case (Stop(_), _) => Stopped
    case _ => p.phase
  }

  function NextChannel(printed: Printer, channel: Channel, p: Process, e: Event): Channel {
    match (e, p.phase)
    case (TryApprove(_, applied, _, _), Approving(target, _, _)) =>
      var policy := p.wanted;
      if applied && AcceptsApproval(channel, target, policy)
      then channel.(approvals := channel.approvals[ApprovalKey(p.org, target) := policy])
      else channel
    case (Submit(_, _, _, _), Submitting(target, _)) =>
      if Lands(channel, e, target) then channel.(committed := target, policy := p.wanted) else channel
    case _ => channel
  }

  function Step(printed: Printer, w: World, e: Event): World {
    match e
    case Join(org) => w.(channel := w.channel.(orgs := w.channel.orgs + {org}))
    case Begin(pid, org, wanted) =>
      if pid in w.processes then w else w.(processes := w.processes[pid := Process(org, wanted, ReadingSequence)])
    case _ =>
      if e.pid !in w.processes then w
      else
        var p := w.processes[e.pid];
        World(NextChannel(printed, w.channel, p, e),
              w.processes[e.pid := p.(phase := NextPhase(printed, w.channel, p, e))])
  }

  function Run(printed: Printer, start: World, events: seq<Event>): World {
    if events == [] then start
    else Step(printed, Run(printed, start, events[..|events| - 1]), events[|events| - 1])
  }

  /** Nothing committed and no process under way. */
  predicate Initial(w: World) { w.channel.committed == 0 && w.processes == map[] }

  // -------------------------------------------------------------------- steps and sequences

  /** The committed sequence goes up by one or stays, and only a submission moves it. */
  lemma CommitIsOneStep(printed: Printer, w: World, e: Event)
    ensures
      var w' := Step(printed, w, e);
      || (w'.channel.committed == w.channel.committed && w'.channel.policy == w.channel.policy)
      || (&& e.Submit? && e.pid in w.processes && w.processes[e.pid].phase.Submitting?
          && w'.channel.committed == w.channel.committed + 1 == w.processes[e.pid].phase.target
          && w'.channel.policy == w.processes[e.pid].wanted)
  {}

  /** The definition committed at each sequence, in order of commitment. */
  ghost function Commits(printed: Printer, start: World, events: seq<Event>): seq<nat> {
    if events == [] then []
    else
      var front := events[..|events| - 1];
      var before, after := Run(printed, start, front).channel, Run(printed, start, events).channel;
      Commits(printed, start, front) + if after.committed != before.committed then [after.committed] else []
  }

  /** However many processes race, each sequence is committed once, in order, without a gap. */
  lemma {:induction false} EachSequenceOnce(printed: Printer, start: World, events: seq<Event>)
    ensures
      var commits := Commits(printed, start, events);
      && Run(printed, start, events).channel.committed == start.channel.committed + |commits|
      && forall k | 0 <= k < |commits| :: commits[k] == start.channel.committed + k + 1
  {
    if events != [] {
      var front, last := events[..|events| - 1], events[|events| - 1];
      EachSequenceOnce(printed, start, front);
      CommitIsOneStep(printed, Run(printed, start, front), last);
    }
  }

  /** What a process may hold on to. */
  ghost predicate ProcessOk(channel: Channel, p: Process) {
    match p.phase
    case ReadingSequence => true
    case ReadingPolicy(seen) => seen <= channel.committed
    case Approving(target, settled, tries) =>
      && 1 <= target <= channel.committed + (if settled then 0 else 1) && 1 <= tries <= MAX_APPROVE_ATTEMPTS
    case Checking(target) => 1 <= target <= channel.committed + 1
    case Confirming(target) => 1 <= target <= channel.committed + 1
    case Submitting(target, tries) => 1 <= target <= channel.committed + 1 && 1 <= tries <= MAX_COMMIT_ATTEMPTS
    case Succeeded(target) => 1 <= target <= channel.committed
    case Stopped => true
  }

  ghost predicate Inv(w: World) {
    forall pid | pid in w.processes :: ProcessOk(w.channel, w.processes[pid])
  }

  lemma ProcessStepOk(printed: Printer, channel: Channel, p: Process, e: Event)
    requires ProcessOk(channel, p)
    ensures ProcessOk(NextChannel(printed, channel, p, e), p.(phase := NextPhase(printed, channel, p, e)))
    ensures channel.committed <= NextChannel(printed, channel, p, e).committed
  {}

  lemma StepKeeps(printed: Printer, w: World, e: Event)
    requires Inv(w)
    ensures Inv(Step(printed, w, e))
  {
    if !e.Join? && !e.Begin? && e.pid in w.processes {
      ProcessStepOk(printed, w.channel, w.processes[e.pid], e);
    }
  }

  /** Success is only reported for a target that really is committed, and the retries of both
      commands stay within their bounds. */
  lemma {:induction false} SuccessMeansCommitted(printed: Printer, start: World, events: seq<Event>)
    requires Inv(start)
    ensures Inv(Run(printed, start, events))
    ensures
      var w := Run(printed, start, events);
      forall pid | pid in w.processes && w.processes[pid].phase.Succeeded? ::
        1 <= w.processes[pid].phase.target <= w.channel.committed
  {
    if events != [] {
      SuccessMeansCommitted(printed, start, events[..|events| - 1]);
      StepKeeps(printed, Run(printed, start, events[..|events| - 1]), events[|events| - 1]);
    }
  }

  // --------------------------------------------------------------- commits follow a majority

  /** At some moment of the run a strict majority had approved this definition. */
  ghost predicate HadMajority(printed: Printer, start: World, events: seq<Event>, sequence: nat, policy: string) {
    exists i | 0 <= i <= |events| :: StrictMajority(Run(printed, start, events[..i]).channel, sequence, policy)
  }

  lemma HadMajorityStays(printed: Printer, start: World, events: seq<Event>, e: Event, sequence: nat, policy: string)
    requires HadMajority(printed, start, events, sequence, policy)
    ensures HadMajority(printed, start, events + [e], sequence, policy)
  {
    var i :| 0 <= i <= |events| && StrictMajority(Run(printed, start, events[..i]).channel, sequence, policy);
    assert (events + [e])[..i] == events[..i];
  }

  /** A process past its check has seen its majority, or its target is committed already. */
  ghost predicate Earned(printed: Printer, start: World, events: seq<Event>, channel: Channel, p: Process) {
    p.phase.Confirming? || p.phase.Submitting? ==>
      p.phase.target <= channel.committed
      || HadMajority(printed, start, events, p.phase.target, p.wanted)
  }

  lemma EarnedStays(printed: Printer, start: World, events: seq<Event>, e: Event, p: Process, before: Channel,
                    after: Channel)
    requires Earned(printed, start, events, before, p) && before.committed <= after.committed
    ensures Earned(printed, start, events + [e], after, p)
  {
    if (p.phase.Confirming? || p.phase.Submitting?) && p.phase.target > after.committed {
      HadMajorityStays(printed, start, events, e, p.phase.target, p.wanted);
    }
  }

  /** A process gets to submitting only through a check that saw a majority at its target. */
  lemma OnlyCheckLeadsToCommit(printed: Printer, channel: Channel, p: Process, e: Event)
    ensures
      var after := NextPhase(printed, channel, p, e);
      after.Confirming? || after.Submitting? ==>
        || ((p.phase.Confirming? || p.phase.Submitting?) && p.phase.target == after.target)
        || SeesMajority(channel, after.target, p.wanted)
    ensures channel.committed <= NextChannel(printed, channel, p, e).committed
  {}

  lemma EarnedStep(printed: Printer, start: World, events: seq<Event>, p: Process, before: Channel, phase: Phase,
                   after: Channel)
    requires before == Run(printed, start, events).channel && Earned(printed, start, events, before, p)
    requires before.committed <= after.committed
    requires phase.Confirming? || phase.Submitting? ==>
               || ((p.phase.Confirming? || p.phase.Submitting?) && p.phase.target == phase.target)
               || SeesMajority(before, phase.target, p.wanted)
    ensures Earned(printed, start, events, after, p.(phase := phase))
  {
    assert events[..|events|] == events;
  }

  ghost predicate AllEarned(printed: Printer, start: World, events: seq<Event>, w: World) {
    forall pid | pid in w.processes :: Earned(printed, start, events, w.channel, w.processes[pid])
  }

  lemma {:induction false} MajorityEarned(printed: Printer, start: World, events: seq<Event>)
    requires Initial(start)
    ensures AllEarned(printed, start, events, Run(printed, start, events))
  {
    if events != [] {
      var front, e := events[..|events| - 1], events[|events| - 1];
      assert events == front + [e];
      var w, w' := Run(printed, start, front), Run(printed, start, events);
      MajorityEarned(printed, start, front);
      CommitIsOneStep(printed, w, e);
      forall pid | pid in w'.processes ensures Earned(printed, start, events, w'.channel, w'.processes[pid]) {
        if pid in w.processes {
          var p, p' := w.processes[pid], w'.processes[pid];
          if !e.Join? && !e.Begin? && e.pid == pid {
            OnlyCheckLeadsToCommit(printed, w.channel, p, e);
            EarnedStep(printed, start, front, p, w.channel, p'.phase, w'.channel);
            EarnedStays(printed, start, front, e, p', w'.channel, w'.channel);
          } else {
            EarnedStays(printed, start, front, e, p, w.channel, w'.channel);
          }
        }
      }
    }
  }

  /** Every commit of any run is preceded by a moment at which a strict majority of the channel's
      organisations had approved exactly the definition that is committed. */
  lemma CommitNeedsMajority(printed: Printer, start: World, events: seq<Event>, e: Event)
    requires Initial(start)
    requires Run(printed, start, events + [e]).channel.committed != Run(printed, start, events).channel.committed
    ensures
      var after := Run(printed, start, events + [e]).channel;
      HadMajority(printed, start, events, after.committed, after.policy)
    ensures
      var after := Run(printed, start, events + [e]).channel;
      exists i | 0 <= i <= |events| ::
        var channel := Run(printed, start, events[..i]).channel;
        2 * |set org | org in channel.orgs && ApprovalKey(org, after.committed) in channel.approvals
                       && channel.approvals[ApprovalKey(org, after.committed)] == after.policy| > |channel.orgs|
  {
    assert (events + [e])[..|events|] == events;
    MajorityEarned(printed, start, events);
    CommitIsOneStep(printed, Run(printed, start, events), e);
    var after := Run(printed, start, events + [e]).channel;
    var i :| 0 <= i <= |events|
             && StrictMajority(Run(printed, start, events[..i]).channel, after.committed, after.policy);
    var channel := Run(printed, start, events[..i]).channel;
    assert Approvers(channel, after.committed, after.policy)
        == set org | org in channel.orgs && ApprovalKey(org, after.committed) in channel.approvals
                     && channel.approvals[ApprovalKey(org, after.committed)] == after.policy;
  }

  /** The i-th event was this approval: given on the ledger by a run of that organisation that wanted
      that policy. */
  ghost predicate GaveApproval(printed: Printer, start: World, events: seq<Event>, i: nat, org: string, sequence: nat,
                               policy: string)
    requires i < |events|
  {
    var w, e := Run(printed, start, events[..i]), events[i];
    && e.TryApprove? && e.applied && e.pid in w.processes
    && w.processes[e.pid].org == org && w.processes[e.pid].wanted == policy
    && w.processes[e.pid].phase.Approving? && w.processes[e.pid].phase.target == sequence
  }

  /** Nobody approves for another: every approval on the channel was there at the start or was given
      by its own organisation for just that sequence and policy. */
  lemma {:induction false} ApprovalsAreOwn(printed: Printer, start: World, events: seq<Event>, org: string,
                                           sequence: nat)
    requires ApprovalKey(org, sequence) in Run(printed, start, events).channel.approvals
    ensures
      var key := ApprovalKey(org, sequence);
      var policy := Run(printed, start, events).channel.approvals[key];
      || (key in start.channel.approvals && start.channel.approvals[key] == policy)
      || exists i | 0 <= i < |events| :: GaveApproval(printed, start, events, i, org, sequence, policy)
  {
    if events != [] {
      var key, front, e := ApprovalKey(org, sequence), events[..|events| - 1], events[|events| - 1];
      var before, after := Run(printed, start, front), Run(printed, start, events);
      var policy := after.channel.approvals[key];
      if key in before.channel.approvals && before.channel.approvals[key] == policy {
        ApprovalsAreOwn(printed, start, front, org, sequence);
        if i :| 0 <= i < |front| && GaveApproval(printed, start, front, i, org, sequence, policy) {
          assert events[..i] == front[..i];
          assert GaveApproval(printed, start, events, i, org, sequence, policy);
        }
      } else {
        assert GaveApproval(printed, start, events, |events| - 1, org, sequence, policy);
      }
    }
  }

  /** An approval that reaches the ledger is taken for the next sequence, or for the committed one
      in exactly its policy; and one that the organisation has already is found. */
  lemma ApprovalTakenIff(printed: Printer, w: World, pid: nat)
    requires pid in w.processes && w.processes[pid].phase.Approving?
    ensures
      var p, channel := w.processes[pid], w.channel;
      var target, key := p.phase.target, ApprovalKey(p.org, p.phase.target);
      var tried := Step(printed, w, TryApprove(pid, true, true, false));
      if target == channel.committed + 1 || (target == channel.committed && p.wanted == channel.policy)
      then && tried.channel == channel.(approvals := channel.approvals[key := p.wanted])
           && tried.processes[pid].phase == if p.phase.settled then Succeeded(target) else Checking(target)
      else tried.channel == channel && tried.processes[pid].phase == Stopped
    ensures
      var p, channel := w.processes[pid], w.channel;
      var target, key := p.phase.target, ApprovalKey(p.org, p.phase.target);
      Step(printed, w, FindApproved(pid)).processes[pid].phase ==
        if target >= channel.committed && p.org in channel.orgs && key in channel.approvals
           && channel.approvals[key] == if target == channel.committed then channel.policy else p.wanted
        then if p.phase.settled then Succeeded(target) else Checking(target)
        else p.phase
  {}

  // ------------------------------------------------------------------------- trying again

  /** The event is a step of this process. */
  predicate IsStepOf(e: Event, pid: nat) { !e.Join? && !e.Begin? && e.pid == pid }

  function StepsOf(events: seq<Event>, pid: nat): nat {
    if events == [] then 0
    else StepsOf(events[..|events| - 1], pid) + if IsStepOf(events[|events| - 1], pid) then 1 else 0
  }

  /** Every step of the process is this command, failing with an error that asks for another try. */
  ghost predicate AllTransient(events: seq<Event>, pid: nat, commit: bool) {
    forall e | e in events && IsStepOf(e, pid) ::
      if commit then e.Submit? && !e.ok && e.transient else e.TryApprove? && !e.ok && e.transient
  }

  /** A commit that fails transiently is tried again, twelve times in all, whatever others do. */
  lemma {:induction false} TwelveCommits(printed: Printer, start: World, events: seq<Event>, pid: nat, target: nat)
    requires pid in start.processes && start.processes[pid].phase == Submitting(target, 1)
    requires AllTransient(events, pid, true)
    ensures
      var tried := StepsOf(events, pid);
      && pid in Run(printed, start, events).processes
      && Run(printed, start, events).processes[pid].phase
         == if tried < 12 then Submitting(target, tried + 1) else Stopped
  {
    if events != [] {
      TwelveCommits(printed, start, events[..|events| - 1], pid, target);
      assert events[|events| - 1] in events;
    }
  }

  /** An approval that fails transiently is tried twenty-four times in all. */
  lemma {:induction false} TwentyFourApprovals(printed: Printer, start: World, events: seq<Event>, pid: nat,
                                               target: nat, settled: bool)
    requires pid in start.processes && start.processes[pid].phase == Approving(target, settled, 1)
    requires AllTransient(events, pid, false)
    ensures
      var tried := StepsOf(events, pid);
      && pid in Run(printed, start, events).processes
      && Run(printed, start, events).processes[pid].phase
         == if tried < 24 then Approving(target, settled, tried + 1) else Stopped
  {
    if events != [] {
      TwentyFourApprovals(printed, start, events[..|events| - 1], pid, target, settled);
      assert events[|events| - 1] in events;
    }
  }
}
