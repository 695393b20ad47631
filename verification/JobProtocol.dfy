/**
 All interleavings of the authoring queue: owners enqueue, cancel, edit and apply, workers claim,
 call the provider, deliver or crash, leases run out. One invariant holds in every reachable state.
 */
module JobProtocol {
  import opened Outcomes
  import opened Proposals
  import opened Jobs

  // A model's output as the worker receives it.
  datatype Output = Output(changes: seq<Generated>, findings: seq<Finding>, outline: Option<string>)

  // What run_once makes of an output
  function Produce(v: Service, l: JobLease, o: Output): Result<(Option<Proposal>, Option<string>)> {
    if l.kind.Outline? then
      if o.outline.None? || o.changes != [] then Err(InvalidOutline)
      else if o.findings == [] then Ok((None, o.outline))
      else
        var checked :- Prepare(l.snapshot, o.changes, o.findings, true, false, v.validate);
        Ok((Some(checked.0), o.outline))
    else if o.outline.Some? then Err(UnexpectedOutline)
    else
      var prepared :- Prepare(l.snapshot, o.changes, o.findings, l.kind.Check?, l.kind.Concretize?, v.validate);
      Ok((Some(prepared.0), None))
  }

  function Deliver(v: Service, s: Desk, l: JobLease, o: Output, u: Usage): (Desk, Answer) {
    match Produce(v, l, o)
    case Err(_) => Fail(s, l, u)
    case Ok(result) => Succeed(s, l, result.0, result.1, u)
  }

  // A worker that stops taking steps has crashed, so leases handed out are never taken back.
  datatype System = System(desk: Desk, leases: set<JobLease>)

  datatype Step =
    | Tick(to: int)
    | CreateStory(owner: nat, draft: Draft)
    | Moderate(story: nat, editable: bool)
    | EnqueueStep(owner: nat, story: nat, base: nat, kind: Kind, outline: Option<(nat, nat)>, admitted: bool)
    | ClaimStep(busy: set<nat>)
    | ReserveStep(lease: JobLease, admitted: bool, later: int)
    | DeliverStep(lease: JobLease, output: Output, usage: Usage)
    | FailStep(lease: JobLease, usage: Usage)
    | AccountStep(lease: JobLease, usage: Usage)
    | CancelStep(owner: nat, job: nat)
    | OutlineStep(owner: nat, job: nat, expected: nat, text: Option<string>)
    | SaveStep(owner: nat, story: nat, expected: nat, draft: Draft)
    | RestoreStep(owner: nat, story: nat, expected: nat, revision: nat)
    | ApplyStep(owner: nat, story: nat, proposal: nat, expected: nat, ids: set<nat>)

  predicate Enabled(s: System, step: Step) {
    match step
    case Tick(to) => to >= s.desk.now
    case Moderate(story, _) => story < |s.desk.stories|
    case ReserveStep(l, _, _) => l in s.leases
    case DeliverStep(l, _, _) => l in s.leases
    case FailStep(l, _) => l in s.leases
    case AccountStep(l, _) => l in s.leases
    case _ => true
  }

  function Created(v: Service, s: Desk, owner: nat, d: Draft): Desk {
    var payload := Stored(v, |s.stories|, 1, d);
    s.(stories := s.stories + [Story(owner, true, 1, payload, [payload])])
  }

  function DeskStep(v: Service, s: Desk, step: Step): (Desk, Answer)
    requires step.Moderate? ==> step.story < |s.stories|
  {
    match step
    case Tick(to) => (s.(now := to), Finished)
    case CreateStory(owner, d) => (Created(v, s, owner, d), Finished)
    case Moderate(story, editable) => (s.(stories := s.stories[story := s.stories[story].(editable := editable)]),
        Finished)
    case EnqueueStep(owner, story, base, kind, outline, admitted) => Enqueue(v, s, owner, story, base, kind, outline,
        admitted)
    case ClaimStep(busy) => Claim(v, s, busy)
    case ReserveStep(l, admitted, later) => ReserveCall(s, l, admitted, later)
    case DeliverStep(l, o, u) => Deliver(v, s, l, o, u)
    case FailStep(l, u) => Fail(s, l, u)
    case AccountStep(l, u) => (RecordUsage(s, l, u), Finished)
    case CancelStep(owner, job) => Cancel(s, owner, job)
    case OutlineStep(owner, job, expected, text) => EditOutline(s, owner, job, expected, text)
    case SaveStep(owner, story, expected, d) => Save(v, s, owner, story, expected, d)
    case RestoreStep(owner, story, expected, revision) => Restore(v, s, owner, story, expected, revision)
    case ApplyStep(owner, story, proposal, expected, ids) => Apply(v, s, owner, story, proposal, expected, ids)
  }

  function Perform(v: Service, s: System, step: Step): System
    requires Enabled(s, step)
  {
    var (desk, answer) := DeskStep(v, s.desk, step);
    System(desk, if answer.Granted? then s.leases + {answer.lease} else s.leases)
  }

  // ---- the invariant ----

  ghost predicate StoryOk(st: Story) {
    st.revision == |st.history| && st.revision >= 1 && st.draft == st.history[st.revision - 1]
  }

  // The job works on the exact draft payload of its base revision.
  ghost predicate Snapshotted(stories: seq<Story>, j: Job) {
    && j.story < |stories| && j.owner == stories[j.story].owner
    && 1 <= j.base <= |stories[j.story].history| && j.snapshot == stories[j.story].history[j.base - 1]
  }

  ghost predicate QueueOk(j: Job) {
    && (j.state.Running? <==> j.lease.Some?)
    && j.requests <= 1 && (j.requests == 1 ==> !j.state.Queued?) && (j.state.Succeeded? ==> j.requests == 1)
    && j.attempts <= j.limits.maxAttempts && (j.state.Queued? ==> j.attempts < j.limits.maxAttempts)
    && j.attempts <= j.epoch
  }

  ghost predicate OutlineOk(j: Job) {
    && (j.approved.Some? ==> j.outline.Some? && j.approved.value == j.outlineRevision)
    && (j.outline.Some? <==> j.outlineRevision > 0)
    && (j.outline.Some? ==> j.state.Succeeded? && j.kind.Outline?)
  }

  ghost predicate JobOk(stories: seq<Story>, j: Job) {
    Snapshotted(stories, j) && QueueOk(j) && OutlineOk(j)
  }

  // Attempt rows of job `i`: unfinished exactly for the running epoch, reserved at most once.
  ghost predicate AttemptsOk(attempts: map<(nat, nat), Attempt>, i: nat, j: Job) {
    && (forall e: nat :: (i, e) in attempts ==> 1 <= e <= j.epoch)
    && (forall e: nat :: (i, e) in attempts ==> (attempts[(i, e)].finished.None? <==> j.state.Running? && e == j.epoch))
    && (forall e: nat :: (i, e) in attempts && attempts[(i, e)].reserved ==>
          j.requests == 1 && (j.state.Running? ==> e == j.epoch))
    && (forall e: nat, f: nat ::
         (i, e) in attempts && (i, f) in attempts && attempts[(i, e)].reserved && attempts[(i, f)].reserved ==> e == f)
    && (j.state.Running? ==> (i, j.epoch) in attempts)
    && (j.requests == 1 ==> exists e: nat :: (i, e) in attempts && attempts[(i, e)].reserved)
  }

  // Which proposals are prepared from a draft, what a draft becomes by adopting a selection, and
  // what is stored for it as a revision of a story.
  datatype Rules = Rules(
    made: iset<(Draft, Proposal)>, adopted: iset<(Draft, Proposal, set<nat>, Draft)>,
    stored: iset<(nat, nat, Draft, Draft)>)

  ghost predicate Made(v: Service, d: Draft, p: Proposal) {
    exists gs, fs, checkOnly, concretize ::
      Prepare(d, gs, fs, checkOnly, concretize, v.validate).Ok?
        && Prepare(d, gs, fs, checkOnly, concretize, v.validate).value.0 == p
  }

  ghost function RulesOf(v: Service): Rules {
    Rules(iset d, p | Made(v, d, p) :: (d, p),
          iset d: Draft, p: Proposal, ids, r: Draft | Adopt(d, p.changes, ids, v.validate) == Ok(r) :: (d, p, ids, r),
          iset story, revision, d | true :: (story, revision, d, Stored(v, story, revision, d)))
  }

  // An applied proposal was adopted into the snapshot of its job, and the result is the revision after its base.
  ghost predicate AppliedOk(g: Rules, stories: seq<Story>, j: Job, p: StoredProposal) {
    p.decision.Some? ==>
      && p.story < |stories| && p.decision.value.revision == p.base + 1 <= |stories[p.story].history|
      && exists d ::
          (j.snapshot, p.proposal, p.decision.value.adopted, d) in g.adopted
            && (p.story, p.base + 1, d, stories[p.story].history[p.base]) in g.stored
  }

  ghost predicate ProposalOk(g: Rules, s: Desk, p: StoredProposal) {
    && p.job < |s.jobs| && s.jobs[p.job].state.Succeeded?
    && p.story == s.jobs[p.job].story && p.base == s.jobs[p.job].base
    && (s.jobs[p.job].snapshot, p.proposal) in g.made
    && AppliedOk(g, s.stories, s.jobs[p.job], p)
  }

  ghost predicate JobsOk(s: Desk) {
    && (forall i :: 0 <= i < |s.stories| ==> StoryOk(s.stories[i]))
    && (forall i :: 0 <= i < |s.jobs| ==> JobOk(s.stories, s.jobs[i]) && AttemptsOk(s.attempts, i, s.jobs[i]))
    && (forall key :: key in s.attempts ==> key.0 < |s.jobs|)
  }

  ghost predicate ProposalsOk(g: Rules, s: Desk) {
    && (forall k :: 0 <= k < |s.proposals| ==> ProposalOk(g, s, s.proposals[k]))
    && (forall k, l :: 0 <= k < l < |s.proposals| ==> s.proposals[k].job != s.proposals[l].job)
  }

  ghost predicate CountsOk(v: Service, jobs: seq<Job>) {
    RunningCount(jobs) <= v.maxRunning && forall owner :: ActiveCount(jobs, owner) <= v.maxActive
  }

  ghost predicate DeskOk(v: Service, g: Rules, s: Desk) {
    JobsOk(s) && ProposalsOk(g, s) && CountsOk(v, s.jobs)
  }

  ghost predicate LeaseOk(s: Desk, l: JobLease) {
    && l.job < |s.jobs| && l.epoch <= s.jobs[l.job].epoch
    && l.story == s.jobs[l.job].story && l.base == s.jobs[l.job].base && l.snapshot == s.jobs[l.job].snapshot
      && l.kind == s.jobs[l.job].kind
  }

  ghost predicate Invariant(v: Service, g: Rules, s: System) {
    DeskOk(v, g, s.desk) && forall l :: l in s.leases ==> LeaseOk(s.desk, l)
  }

  // ---- how the desk evolves ----

  ghost predicate SameInput(j: Job, k: Job) {
    && j.owner == k.owner && j.story == k.story && j.base == k.base && j.snapshot == k.snapshot && j.kind == k.kind
    && j.limits == k.limits && j.approvedOutline == k.approvedOutline
  }

  ghost predicate JobEvolves(j: Job, k: Job) {
    && SameInput(j, k) && j.epoch <= k.epoch && j.requests <= k.requests && j.attempts <= k.attempts
    && (!Active(j) ==> k.state == j.state && k.epoch == j.epoch && k.requests == j.requests && k.attempts == j.attempts)
    && (j.requests > 0 && !j.state.Queued? ==> !k.state.Queued? && k.attempts == j.attempts)
  }

  ghost predicate StoryEvolves(a: Story, b: Story) {
    a.owner == b.owner && a.revision <= b.revision && a.history <= b.history
  }

  ghost predicate ProposalEvolves(p: StoredProposal, q: StoredProposal) {
    p.job == q.job && p.story == q.story && p.base == q.base && p.proposal == q.proposal
      && (p.decision.Some? ==> q.decision == p.decision)
  }

  ghost predicate Evolves(s: Desk, t: Desk) {
    && |s.jobs| <= |t.jobs| && |s.stories| <= |t.stories| && |s.proposals| <= |t.proposals|
    && (forall i :: 0 <= i < |s.jobs| ==> JobEvolves(s.jobs[i], t.jobs[i]))
    && (forall i :: 0 <= i < |s.stories| ==> StoryEvolves(s.stories[i], t.stories[i]))
    && (forall k :: 0 <= k < |s.proposals| ==> ProposalEvolves(s.proposals[k], t.proposals[k]))
  }

  lemma EvolvesSelf(s: Desk)
    ensures Evolves(s, s)
  {
  }

  lemma EvolvesOn(a: Desk, b: Desk, c: Desk)
    requires Evolves(a, b) && Evolves(b, c)
    ensures Evolves(a, c)
  {
    forall i | 0 <= i < |a.stories| ensures StoryEvolves(a.stories[i], c.stories[i]) {
      StoryEvolvesOn(a.stories[i], b.stories[i], c.stories[i]);
    }
    forall i | 0 <= i < |a.jobs| ensures JobEvolves(a.jobs[i], c.jobs[i]) {
      assert JobEvolves(a.jobs[i], b.jobs[i]) && JobEvolves(b.jobs[i], c.jobs[i]);
    }
    forall k | 0 <= k < |a.proposals| ensures ProposalEvolves(a.proposals[k], c.proposals[k]) {
      assert ProposalEvolves(a.proposals[k], b.proposals[k]) && ProposalEvolves(b.proposals[k], c.proposals[k]);
    }
  }

  lemma StoryEvolvesOn(a: Story, b: Story, c: Story)
    requires StoryEvolves(a, b) && StoryEvolves(b, c)
    ensures StoryEvolves(a, c)
  {
    assert forall r :: 0 <= r < |a.history| ==> a.history[r] == b.history[r] == c.history[r];
  }

  // ---- counts ----

  function One(b: bool): nat { if b then 1 else 0 }

  lemma {:induction false} RunningAfter(jobs: seq<Job>, i: nat, k: Job)
    requires i < |jobs|
    ensures RunningCount(jobs[i := k]) == RunningCount(jobs) - One(jobs[i].state.Running?) + One(k.state.Running?)
  {
    var last := |jobs| - 1;
    if i == last {
      assert jobs[i := k][..last] == jobs[..last];
    } else {
      RunningAfter(jobs[..last], i, k);
      assert jobs[i := k][..last] == jobs[..last][i := k];
    }
  }

  lemma {:induction false} ActiveAfter(jobs: seq<Job>, owner: nat, i: nat, k: Job)
    requires i < |jobs| && k.owner == jobs[i].owner
    ensures ActiveCount(jobs[i := k], owner) ==
      ActiveCount(jobs, owner) - One(Active(jobs[i]) && k.owner == owner) + One(Active(k) && k.owner == owner)
  {
    var last := |jobs| - 1;
    if i == last {
      assert jobs[i := k][..last] == jobs[..last];
    } else {
      ActiveAfter(jobs[..last], owner, i, k);
      assert jobs[i := k][..last] == jobs[..last][i := k];
    }
  }

  lemma CountsKept(v: Service, jobs: seq<Job>, i: nat, k: Job)
    requires CountsOk(v, jobs) && i < |jobs| && k.owner == jobs[i].owner
    requires Active(k) ==> Active(jobs[i])
    requires k.state.Running? ==> jobs[i].state.Running? || RunningCount(jobs) < v.maxRunning
    ensures CountsOk(v, jobs[i := k])
  {
    RunningAfter(jobs, i, k);
    var after := jobs[i := k];
    forall owner ensures ActiveCount(after, owner) <= v.maxActive { ActiveAfter(jobs, owner, i, k); }
  }

  // ---- one job row changes ----

  // The rest of the attempt table is left alone.
  ghost predicate OnlyAttemptsOf(a: map<(nat, nat), Attempt>, b: map<(nat, nat), Attempt>, i: nat) {
    forall key: (nat, nat) :: key.0 != i ==> (key in a <==> key in b) && (key in a ==> a[key] == b[key])
  }

  // Job `i` becomes `k`, in a way its state allows.
  ghost predicate RowStep(v: Service, s: Desk, t: Desk, i: nat, k: Job) {
    && i < |s.jobs| && t == s.(jobs := s.jobs[i := k], attempts := t.attempts, now := t.now)
    && JobOk(s.stories, k) && JobEvolves(s.jobs[i], k)
    && AttemptsOk(t.attempts, i, k) && OnlyAttemptsOf(s.attempts, t.attempts, i)
    && (k.state.Running? ==> s.jobs[i].state.Running? || RunningCount(s.jobs) < v.maxRunning)
  }

  lemma RowJobs(v: Service, s: Desk, t: Desk, i: nat, k: Job)
    requires JobsOk(s) && RowStep(v, s, t, i, k)
    ensures JobsOk(t)
  {
    forall n | 0 <= n < |t.jobs| && n != i ensures AttemptsOk(t.attempts, n, t.jobs[n]) {
      assert AttemptsOk(s.attempts, n, s.jobs[n]);
      AttemptsElsewhere(s.attempts, t.attempts, i, n, s.jobs[n]);
    }
  }

  lemma RowEvolves(v: Service, s: Desk, t: Desk, i: nat, k: Job)
    requires RowStep(v, s, t, i, k)
    ensures Evolves(s, t)
  {
  }

  lemma JobsEvolveProposals(v: Service, g: Rules, s: Desk, t: Desk)
    requires ProposalsOk(g, s) && Evolves(s, t) && t.stories == s.stories && t.proposals == s.proposals
    ensures ProposalsOk(g, t)
  {
    forall n | 0 <= n < |t.proposals| ensures ProposalOk(g, t, t.proposals[n]) {
      assert ProposalOk(g, s, s.proposals[n]) && JobEvolves(s.jobs[s.proposals[n].job], t.jobs[s.proposals[n].job]);
    }
  }

  lemma RowKeeps(v: Service, g: Rules, s: Desk, t: Desk, i: nat, k: Job)
    requires DeskOk(v, g, s) && RowStep(v, s, t, i, k)
    ensures DeskOk(v, g, t) && Evolves(s, t)
  {
    RowEvolves(v, s, t, i, k);
    RowJobs(v, s, t, i, k);
    JobsEvolveProposals(v, g, s, t);
    RowCounts(v, s, t, i, k);
  }

  lemma RowCounts(v: Service, s: Desk, t: Desk, i: nat, k: Job)
    requires CountsOk(v, s.jobs) && RowStep(v, s, t, i, k)
    ensures CountsOk(v, t.jobs)
  {
    CountsKept(v, s.jobs, i, k);
  }

  lemma AttemptsElsewhere(a: map<(nat, nat), Attempt>, b: map<(nat, nat), Attempt>, i: nat, n: nat, j: Job)
    requires OnlyAttemptsOf(a, b, i) && n != i && AttemptsOk(a, n, j)
    ensures AttemptsOk(b, n, j)
  {
    assert forall e: nat :: (n, e).0 == n;
    assert forall e: nat :: ((n, e) in a <==> (n, e) in b) && ((n, e) in a ==> a[(n, e)] == b[(n, e)]);
  }

  // ---- the attempt rows of one job ----

  lemma EndedAttempts(a: map<(nat, nat), Attempt>, i: nat, j: Job, k: Job, state: AttemptState, now: int)
    requires AttemptsOk(a, i, j) && !k.state.Running? && k.epoch >= j.epoch && k.requests == j.requests
    ensures AttemptsOk(EndAttempt(a, i, j.epoch, state, now), i, k)
    ensures OnlyAttemptsOf(a, EndAttempt(a, i, j.epoch, state, now), i)
  {
    var b := EndAttempt(a, i, j.epoch, state, now);
    assert forall e: nat :: (i, e) in a <==> (i, e) in b;
    assert forall e: nat :: (i, e) in a ==> a[(i, e)].reserved == b[(i, e)].reserved;
    if j.requests == 1 {
      var e: nat :| (i, e) in a && a[(i, e)].reserved;
      assert (i, e) in b && b[(i, e)].reserved;
    }
  }

  lemma TakenAttempts(a: map<(nat, nat), Attempt>, i: nat, j: Job, k: Job)
    requires AttemptsOk(a, i, j) && j.state.Queued? && j.requests == 0
    requires k.state.Running? && k.epoch == j.epoch + 1 && k.requests == 0
    ensures AttemptsOk(a[(i, k.epoch) := Attempt(Started, false, None)], i, k)
    ensures OnlyAttemptsOf(a, a[(i, k.epoch) := Attempt(Started, false, None)], i)
  {
  }

  lemma ReservedAttempts(a: map<(nat, nat), Attempt>, i: nat, j: Job, k: Job)
    requires AttemptsOk(a, i, j) && j.state.Running? && j.requests == 0
    requires k == j.(requests := 1) && (i, j.epoch) in a
    ensures AttemptsOk(a[(i, j.epoch) := a[(i, j.epoch)].(reserved := true, state := Requested)], i, k)
    ensures OnlyAttemptsOf(a, a[(i, j.epoch) := a[(i, j.epoch)].(reserved := true, state := Requested)], i)
  {
    var b := a[(i, j.epoch) := a[(i, j.epoch)].(reserved := true, state := Requested)];
    assert (i, j.epoch) in b && b[(i, j.epoch)].reserved;
  }

  // ---- every operation keeps the desk ----

  lemma JobAt(v: Service, g: Rules, s: Desk, i: nat)
    requires DeskOk(v, g, s) && i < |s.jobs|
    ensures JobOk(s.stories, s.jobs[i]) && AttemptsOk(s.attempts, i, s.jobs[i])
  {
  }

  lemma ClockKeeps(v: Service, g: Rules, s: Desk, now: int)
    requires DeskOk(v, g, s)
    ensures DeskOk(v, g, s.(now := now)) && Evolves(s, s.(now := now))
  {
    var t := s.(now := now);
    EvolvesSelf(s);
    JobsEvolveProposals(v, g, s, t);
  }

  lemma ExpireKeeps(v: Service, g: Rules, s: Desk, i: nat)
    requires DeskOk(v, g, s) && i < |s.jobs| && IsExpired(s, i)
    ensures DeskOk(v, g, Expire(s, i)) && Evolves(s, Expire(s, i))
  {
    var j := s.jobs[i];
    JobAt(v, g, s, i);
    var k := Expire(s, i).jobs[i];
    EndedAttempts(s.attempts, i, j, k, Expired, s.now);
    RowKeeps(v, g, s, Expire(s, i), i, k);
  }

  function Sweep(s: Desk, busy: set<nat>, i: nat): Desk
    requires i < |s.jobs|
  {
    if i !in busy && IsExpired(s, i) then Expire(s, i) else s
  }

  lemma SweepKeeps(v: Service, g: Rules, s: Desk, busy: set<nat>, i: nat)
    requires DeskOk(v, g, s) && i < |s.jobs|
    ensures DeskOk(v, g, Sweep(s, busy, i)) && Evolves(s, Sweep(s, busy, i))
  {
    if i !in busy && IsExpired(s, i) { ExpireKeeps(v, g, s, i); } else { EvolvesSelf(s); }
  }

  // A set of desks closed under sweeping one job is closed under sweeping all.
  lemma {:induction false} ExpireFromStays(ok: iset<Desk>, s: Desk, busy: set<nat>, i: nat)
    requires s in ok && i <= |s.jobs|
    requires forall t: Desk, k: nat :: t in ok && k < |t.jobs| ==> Sweep(t, busy, k) in ok
    ensures ExpireFrom(s, busy, i) in ok
    decreases |s.jobs| - i
  {
    if i < |s.jobs| { ExpireFromStays(ok, Sweep(s, busy, i), busy, i + 1); }
  }

  lemma {:induction false} ExpireFromKeeps(v: Service, g: Rules, s: Desk, busy: set<nat>)
    requires DeskOk(v, g, s)
    ensures DeskOk(v, g, ExpireFrom(s, busy, 0)) && Evolves(s, ExpireFrom(s, busy, 0))
  {
    var ok := iset t | DeskOk(v, g, t) && Evolves(s, t);
    forall t: Desk, k: nat | t in ok && k < |t.jobs| ensures Sweep(t, busy, k) in ok {
      SweepKeeps(v, g, t, busy, k);
      EvolvesOn(s, t, Sweep(t, busy, k));
    }
    EvolvesSelf(s);
    ExpireFromStays(ok, s, busy, 0);
  }

  lemma TakeKeeps(v: Service, g: Rules, s: Desk, i: nat)
    requires DeskOk(v, g, s) && i < |s.jobs| && s.jobs[i].state.Queued? && RunningCount(s.jobs) < v.maxRunning
    ensures DeskOk(v, g, Take(s, i)) && Evolves(s, Take(s, i))
  {
    JobAt(v, g, s, i);
    var k := Take(s, i).jobs[i];
    TakenAttempts(s.attempts, i, s.jobs[i], k);
    RowKeeps(v, g, s, Take(s, i), i, k);
  }

  lemma ClaimKeeps(v: Service, g: Rules, s: Desk, busy: set<nat>)
    requires DeskOk(v, g, s)
    ensures DeskOk(v, g, Claim(v, s, busy).0) && Evolves(s, Claim(v, s, busy).0)
    ensures Claim(v, s, busy).1.Granted? ==> LeaseOk(Claim(v, s, busy).0, Claim(v, s, busy).1.lease)
  {
    var swept := ExpireFrom(s, busy, 0);
    ExpireFromKeeps(v, g, s, busy);
    var (t, answer) := Claim(v, s, busy);
    if answer.Granted? {
      TakeKeeps(v, g, swept, answer.lease.job);
      EvolvesOn(s, swept, t);
    }
  }

  lemma ReserveKeeps(v: Service, g: Rules, s: Desk, l: JobLease, admitted: bool, later: int)
    requires DeskOk(v, g, s)
    ensures DeskOk(v, g, ReserveCall(s, l, admitted, later).0) && Evolves(s, ReserveCall(s, l, admitted, later).0)
  {
    var (t, answer) := ReserveCall(s, l, admitted, later);
    if answer.Finished? {
      JobAt(v, g, s, l.job);
      ReservedAttempts(s.attempts, l.job, s.jobs[l.job], t.jobs[l.job]);
      RowKeeps(v, g, s, t, l.job, t.jobs[l.job]);
    } else {
      ClockKeeps(v, g, s, t.now);
    }
  }

  // Rows whose state and attempts do not change
  lemma SameStateKeeps(v: Service, g: Rules, s: Desk, i: nat, k: Job)
    requires DeskOk(v, g, s) && i < |s.jobs| && JobOk(s.stories, k) && SameInput(s.jobs[i], k)
    requires k.state == s.jobs[i].state && k.epoch == s.jobs[i].epoch && k.requests == s.jobs[i].requests
      && k.attempts == s.jobs[i].attempts
    ensures DeskOk(v, g, s.(jobs := s.jobs[i := k])) && Evolves(s, s.(jobs := s.jobs[i := k]))
  {
    JobAt(v, g, s, i);
    assert AttemptsOk(s.attempts, i, k);
    RowKeeps(v, g, s, s.(jobs := s.jobs[i := k]), i, k);
  }

  lemma UsageKeeps(v: Service, g: Rules, s: Desk, l: JobLease, u: Usage)
    requires DeskOk(v, g, s)
    ensures DeskOk(v, g, RecordUsage(s, l, u)) && Evolves(s, RecordUsage(s, l, u))
  {
    var t := RecordUsage(s, l, u);
    if t != s {
      JobAt(v, g, s, l.job);
      SameStateKeeps(v, g, s, l.job, t.jobs[l.job]);
    } else {
      EvolvesSelf(s);
    }
  }

  lemma FinishKeeps(v: Service, g: Rules, s: Desk, i: nat, j: Job, state: JobState, attempt: AttemptState, u: Usage)
    requires DeskOk(v, g, s) && i < |s.jobs| && s.jobs[i].state.Running?
    requires state.Succeeded? || state.Failed?
    requires j == s.jobs[i].(outline := j.outline, outlineRevision := j.outlineRevision)
    requires JobOk(s.stories, j.(state := state, lease := None, usage := u))
    ensures DeskOk(v, g, Finish(s.(jobs := s.jobs[i := j]), i, state, attempt, u))
    ensures Evolves(s, Finish(s.(jobs := s.jobs[i := j]), i, state, attempt, u))
  {
    JobAt(v, g, s, i);
    var t := Finish(s.(jobs := s.jobs[i := j]), i, state, attempt, u);
    var k := t.jobs[i];
    EndedAttempts(s.attempts, i, s.jobs[i], k, attempt, s.now);
    assert t.jobs == s.jobs[i := k];
    RowKeeps(v, g, s, t, i, k);
  }

  lemma FailedKeeps(v: Service, g: Rules, s: Desk, i: nat, u: Usage)
    requires DeskOk(v, g, s) && i < |s.jobs| && s.jobs[i].state.Running?
    ensures DeskOk(v, g, Finish(s, i, Failed, Errored, u)) && Evolves(s, Finish(s, i, Failed, Errored, u))
  {
    JobAt(v, g, s, i);
    assert s == s.(jobs := s.jobs[i := s.jobs[i]]);
    FinishKeeps(v, g, s, i, s.jobs[i], Failed, Errored, u);
  }

  lemma FailKeeps(v: Service, g: Rules, s: Desk, l: JobLease, u: Usage)
    requires DeskOk(v, g, s)
    ensures DeskOk(v, g, Fail(s, l, u).0) && Evolves(s, Fail(s, l, u).0)
  {
    if Fenced(s, l, s.now) {
      FailedKeeps(v, g, s, l.job, u);
    } else {
      EvolvesSelf(s);
    }
  }

  // A new proposal of a job that has none
  lemma StoredKeeps(v: Service, g: Rules, s: Desk, p: StoredProposal)
    requires DeskOk(v, g, s) && ProposalOk(g, s, p)
    requires forall k :: 0 <= k < |s.proposals| ==> s.proposals[k].job != p.job
    ensures DeskOk(v, g, s.(proposals := s.proposals + [p])) && Evolves(s, s.(proposals := s.proposals + [p]))
  {
    var t := s.(proposals := s.proposals + [p]);
    EvolvesSelf(s);
    forall q | ProposalOk(g, s, q) ensures ProposalOk(g, t, q) { ProposalBeside(g, s, t.proposals, q); }
    assert forall n :: 0 <= n < |t.proposals| ==> t.proposals[n] == if n < |s.proposals| then s.proposals[n] else p;
  }

  lemma ProposalBeside(g: Rules, s: Desk, proposals: seq<StoredProposal>, q: StoredProposal)
    requires ProposalOk(g, s, q)
    ensures ProposalOk(g, s.(proposals := proposals), q)
  {
  }

  // The job of a successful result, before its proposal is stored
  lemma CompletedKeeps(v: Service, g: Rules, s: Desk, i: nat, outline: Option<string>, u: Usage)
    requires DeskOk(v, g, s) && i < |s.jobs| && s.jobs[i].state.Running? && s.jobs[i].requests == 1
      && (outline.Some? ==> s.jobs[i].kind.Outline?)
    ensures var kept := if outline.Some? then s.jobs[i].(outline := outline, outlineRevision := 1) else s.jobs[i];
      var done := Finish(s.(jobs := s.jobs[i := kept]), i, Succeeded, Completed, u);
      DeskOk(v, g, done) && Evolves(s, done) && done.jobs[i].state.Succeeded?
  {
    JobAt(v, g, s, i);
    FinishKeeps(v, g, s, i, if outline.Some? then s.jobs[i].(outline := outline, outlineRevision := 1) else s.jobs[i],
        Succeeded, Completed, u);
  }

  lemma NoneStored(v: Service, g: Rules, s: Desk, i: nat)
    requires DeskOk(v, g, s) && i < |s.jobs| && !s.jobs[i].state.Succeeded?
    ensures forall k :: 0 <= k < |s.proposals| ==> s.proposals[k].job != i
  {
    forall k | 0 <= k < |s.proposals| ensures s.proposals[k].job != i { assert ProposalOk(g, s, s.proposals[k]); }
  }

  lemma SucceedKeeps(v: Service, g: Rules, s: Desk, l: JobLease, proposal: Option<Proposal>, outline: Option<string>,
          u: Usage)
    requires DeskOk(v, g, s) && LeaseOk(s, l) && (outline.Some? ==> l.kind.Outline?)
    requires proposal.Some? ==> (s.jobs[l.job].snapshot, proposal.value) in g.made
    ensures DeskOk(v, g, Succeed(s, l, proposal, outline, u).0) && Evolves(s, Succeed(s, l, proposal, outline, u).0)
  {
    var (t, answer) := Succeed(s, l, proposal, outline, u);
    if !answer.Finished? {
      EvolvesSelf(s);
    } else {
      var i, j := l.job, s.jobs[l.job];
      var done := Finish(s.(jobs :=
          s.jobs[i := if outline.Some? then j.(outline := outline, outlineRevision := 1) else j]), i, Succeeded,
              Completed, u);
      CompletedKeeps(v, g, s, i, outline, u);
      if proposal.None? {
        assert s.proposals + [] == s.proposals;
        assert t == done;
      } else {
        NoneStored(v, g, s, i);
        var p := StoredProposal(i, j.story, j.base, proposal.value, None);
        assert t == done.(proposals := done.proposals + [p]);
        StoredKeeps(v, g, done, p);
        EvolvesOn(s, done, t);
      }
    }
  }

  lemma DeliverKeeps(v: Service, g: Rules, s: Desk, l: JobLease, o: Output, u: Usage)
    requires DeskOk(v, g, s) && g == RulesOf(v) && LeaseOk(s, l)
    ensures DeskOk(v, g, Deliver(v, s, l, o, u).0) && Evolves(s, Deliver(v, s, l, o, u).0)
  {
    match Produce(v, l, o)
    case Err(_) => FailKeeps(v, g, s, l, u);
    case Ok(result) =>
      if result.0.Some? { ProducedIsMade(v, l, o); }
      SucceedKeeps(v, g, s, l, result.0, result.1, u);
  }

  lemma ProducedIsMade(v: Service, l: JobLease, o: Output)
    requires Produce(v, l, o).Ok? && Produce(v, l, o).value.0.Some?
    ensures (l.snapshot, Produce(v, l, o).value.0.value) in RulesOf(v).made
  {
    var p := Produce(v, l, o).value.0.value;
    if l.kind.Outline? {
      assert Prepare(l.snapshot, o.changes, o.findings, true, false, v.validate).value.0 == p;
    } else {
      assert Prepare(l.snapshot, o.changes, o.findings, l.kind.Check?, l.kind.Concretize?, v.validate).value.0 == p;
    }
  }

  lemma CancelKeeps(v: Service, g: Rules, s: Desk, owner: nat, job: nat)
    requires DeskOk(v, g, s)
    ensures DeskOk(v, g, Cancel(s, owner, job).0) && Evolves(s, Cancel(s, owner, job).0)
  {
    var t := Cancel(s, owner, job).0;
    if t != s {
      JobAt(v, g, s, job);
      EndedAttempts(s.attempts, job, s.jobs[job], t.jobs[job], Withdrawn, s.now);
      RowKeeps(v, g, s, t, job, t.jobs[job]);
    } else {
      EvolvesSelf(s);
    }
  }

  lemma OutlineKeeps(v: Service, g: Rules, s: Desk, owner: nat, job: nat, expected: nat, text: Option<string>)
    requires DeskOk(v, g, s)
    ensures DeskOk(v, g, EditOutline(s, owner, job, expected, text).0)
      && Evolves(s, EditOutline(s, owner, job, expected, text).0)
  {
    var t := EditOutline(s, owner, job, expected, text).0;
    if t != s {
      JobAt(v, g, s, job);
      SameStateKeeps(v, g, s, job, t.jobs[job]);
    } else {
      EvolvesSelf(s);
    }
  }

  // ---- stories change, jobs do not ----

  lemma StoriesKeep(v: Service, g: Rules, s: Desk, t: Desk)
    requires DeskOk(v, g, s) && t == s.(stories := t.stories) && Evolves(s, t)
    requires forall i :: 0 <= i < |t.stories| ==> StoryOk(t.stories[i])
    ensures DeskOk(v, g, t)
  {
    forall i | 0 <= i < |t.jobs| ensures JobOk(t.stories, t.jobs[i]) && AttemptsOk(t.attempts, i, t.jobs[i]) {
      JobAt(v, g, s, i);
      assert StoryEvolves(s.stories[t.jobs[i].story], t.stories[t.jobs[i].story]);
    }
    forall k | 0 <= k < |t.proposals| ensures ProposalOk(g, t, t.proposals[k]) {
      var p := s.proposals[k];
      assert ProposalOk(g, s, p);
      if p.decision.Some? { assert StoryEvolves(s.stories[p.story], t.stories[p.story]); }
    }
  }

  lemma CreateKeeps(v: Service, g: Rules, s: Desk, owner: nat, d: Draft)
    requires DeskOk(v, g, s)
    ensures DeskOk(v, g, Created(v, s, owner, d)) && Evolves(s, Created(v, s, owner, d))
  {
    StoriesKeep(v, g, s, Created(v, s, owner, d));
  }

  lemma ModerateKeeps(v: Service, g: Rules, s: Desk, story: nat, editable: bool)
    requires DeskOk(v, g, s) && story < |s.stories|
    ensures DeskOk(v, g, s.(stories := s.stories[story := s.stories[story].(editable := editable)]))
    ensures Evolves(s, s.(stories := s.stories[story := s.stories[story].(editable := editable)]))
  {
    StoriesKeep(v, g, s, s.(stories := s.stories[story := s.stories[story].(editable := editable)]));
  }

  // `b` is the next revision of `a`, as it is stored for the draft.
  ghost predicate NextRevision(g: Rules, story: nat, a: Story, d: Draft, b: Story) {
    && StoryOk(b) && StoryEvolves(a, b) && b.revision == a.revision + 1
    && (story, b.revision, d, b.history[a.revision]) in g.stored
  }

  lemma PayloadRevises(g: Rules, story: nat, a: Story, d: Draft, payload: Draft)
    requires StoryOk(a) && (story, a.revision + 1, d, payload) in g.stored
    ensures NextRevision(g, story, a, d, a.(revision := a.revision + 1, draft := payload,
        history := a.history + [payload]))
  {
  }

  lemma IsStored(v: Service, story: nat, revision: nat, d: Draft)
    ensures (story, revision, d, Stored(v, story, revision, d)) in RulesOf(v).stored
  {
  }

  lemma RevisedNext(v: Service, s: Desk, story: nat, d: Draft)
    requires story < |s.stories| && StoryOk(s.stories[story]) && Revise(v, s, story, d).Ok?
    ensures NextRevision(RulesOf(v), story, s.stories[story], d, Revise(v, s, story, d).value)
  {
    var revision := s.stories[story].revision + 1;
    IsStored(v, story, revision, d);
    PayloadRevises(RulesOf(v), story, s.stories[story], d, Stored(v, story, revision, d));
  }

  lemma SavedKeeps(v: Service, g: Rules, s: Desk, story: nat, st: Story)
    requires DeskOk(v, g, s) && story < |s.stories| && StoryOk(st) && StoryEvolves(s.stories[story], st)
    ensures DeskOk(v, g, s.(stories := s.stories[story := st])) && Evolves(s, s.(stories := s.stories[story := st]))
  {
    StoriesKeep(v, g, s, s.(stories := s.stories[story := st]));
  }

  lemma SaveKeeps(v: Service, g: Rules, s: Desk, owner: nat, story: nat, expected: nat, d: Draft)
    requires DeskOk(v, g, s)
    ensures DeskOk(v, g, Save(v, s, owner, story, expected, d).0) && Evolves(s, Save(v, s, owner, story, expected, d).0)
  {
    if !Save(v, s, owner, story, expected, d).1.Revised? {
      EvolvesSelf(s);
    } else {
      assert StoryOk(s.stories[story]);
      RevisedNext(v, s, story, d);
      SavedKeeps(v, g, s, story, Revise(v, s, story, d).value);
    }
  }

  lemma DecidedKeeps(v: Service, g: Rules, s: Desk, n: nat, decision: Decision)
    requires DeskOk(v, g, s) && n < |s.proposals| && s.proposals[n].decision.None?
    requires s.proposals[n].job < |s.jobs| ==>
      AppliedOk(g, s.stories, s.jobs[s.proposals[n].job], s.proposals[n].(decision := Some(decision)))
    ensures DeskOk(v, g, s.(proposals := s.proposals[n := s.proposals[n].(decision := Some(decision))]))
    ensures Evolves(s, s.(proposals := s.proposals[n := s.proposals[n].(decision := Some(decision))]))
  {
    var t := s.(proposals := s.proposals[n := s.proposals[n].(decision := Some(decision))]);
    forall k | 0 <= k < |t.proposals|
      ensures ProposalOk(g, t, t.proposals[k])
    {
      assert ProposalOk(g, s, s.proposals[k]);
    }
  }

  // The draft a proposal is applied to is the snapshot of its job.
  lemma AppliedToSnapshot(v: Service, g: Rules, s: Desk, story: nat, n: nat)
    requires DeskOk(v, g, s) && n < |s.proposals| && s.proposals[n].story == story && story < |s.stories|
    requires s.proposals[n].base == s.stories[story].revision
    ensures s.proposals[n].job < |s.jobs| && s.stories[story].draft == s.jobs[s.proposals[n].job].snapshot
  {
    assert ProposalOk(g, s, s.proposals[n]);
    JobAt(v, g, s, s.proposals[n].job);
    assert StoryOk(s.stories[story]);
  }

  lemma AppliedKeeps(v: Service, g: Rules, s: Desk, story: nat, n: nat, ids: set<nat>, d: Draft, st: Story)
    requires DeskOk(v, g, s) && n < |s.proposals| && s.proposals[n].story == story && story < |s.stories|
    requires s.proposals[n].base == s.stories[story].revision && s.proposals[n].decision.None?
    requires (s.stories[story].draft, s.proposals[n].proposal, ids, d) in g.adopted
      && NextRevision(g, story, s.stories[story], d, st)
    ensures var t := s.(stories := s.stories[story := st],
          proposals := s.proposals[n := s.proposals[n].(decision := Some(Decision(st.revision, ids)))]);
      DeskOk(v, g, t) && Evolves(s, t)
  {
    AppliedToSnapshot(v, g, s, story, n);
    var saved := s.(stories := s.stories[story := st]);
    SavedKeeps(v, g, s, story, st);
    var decision := Decision(st.revision, ids);
    DecidedKeeps(v, g, saved, n, decision);
    EvolvesOn(s, saved, saved.(proposals := saved.proposals[n := saved.proposals[n].(decision := Some(decision))]));
  }

  lemma ApplyRefuses(v: Service, s: Desk, owner: nat, story: nat, n: nat, expected: nat, ids: set<nat>)
    requires !Apply(v, s, owner, story, n, expected, ids).1.Revised?
    ensures Apply(v, s, owner, story, n, expected, ids).0 == s
  {
  }

  lemma ApplyRevises(v: Service, s: Desk, owner: nat, story: nat, n: nat, expected: nat, ids: set<nat>)
    requires Apply(v, s, owner, story, n, expected, ids).1.Revised?
    ensures n < |s.proposals| && s.proposals[n].story == story && story < |s.stories|
    ensures s.proposals[n].base == s.stories[story].revision && s.proposals[n].decision.None?
    ensures Adopt(s.stories[story].draft, s.proposals[n].proposal.changes, ids, v.validate).Ok?
    ensures var d := Adopt(s.stories[story].draft, s.proposals[n].proposal.changes, ids, v.validate).value;
      Revise(v, s, story, d).Ok? &&
      var st := Revise(v, s, story, d).value;
      Apply(v, s, owner, story, n, expected, ids).0 == s.(stories := s.stories[story := st],
          proposals := s.proposals[n := s.proposals[n].(decision := Some(Decision(st.revision, ids)))])
  {
  }

  lemma ApplyKeeps(v: Service, g: Rules, s: Desk, owner: nat, story: nat, n: nat, expected: nat, ids: set<nat>)
    requires DeskOk(v, g, s) && g == RulesOf(v)
    ensures DeskOk(v, g, Apply(v, s, owner, story, n, expected, ids).0)
      && Evolves(s, Apply(v, s, owner, story, n, expected, ids).0)
  {
    if Apply(v, s, owner, story, n, expected, ids).1.Revised? {
      ApplyRevises(v, s, owner, story, n, expected, ids);
      var d := Adopt(s.stories[story].draft, s.proposals[n].proposal.changes, ids, v.validate).value;
      assert StoryOk(s.stories[story]);
      RevisedNext(v, s, story, d);
      AppliedKeeps(v, g, s, story, n, ids, d, Revise(v, s, story, d).value);
    } else {
      ApplyRefuses(v, s, owner, story, n, expected, ids);
      EvolvesSelf(s);
    }
  }

  lemma {:induction false} ActiveWithNew(jobs: seq<Job>, j: Job, owner: nat)
    ensures ActiveCount(jobs + [j], owner) == ActiveCount(jobs, owner) + One(Active(j) && j.owner == owner)
    ensures RunningCount(jobs + [j]) == RunningCount(jobs) + One(j.state.Running?)
  {
    assert (jobs + [j])[..|jobs|] == jobs;
  }

  lemma {:induction false} QueuedCounts(v: Service, jobs: seq<Job>, j: Job)
    requires CountsOk(v, jobs) && j.state.Queued? && ActiveCount(jobs, j.owner) < v.maxActive
    ensures CountsOk(v, jobs + [j])
  {
    var after := jobs + [j];
    ActiveWithNew(jobs, j, 0);
    forall o ensures ActiveCount(after, o) <= v.maxActive { ActiveWithNew(jobs, j, o); }
  }

  lemma QueuedJobs(s: Desk, j: Job)
    requires JobsOk(s) && JobOk(s.stories, j) && j.state.Queued? && j.requests == 0
    ensures JobsOk(s.(jobs := s.jobs + [j])) && Evolves(s, s.(jobs := s.jobs + [j]))
  {
    assert forall e: nat :: (|s.jobs|, e).0 == |s.jobs|;
    assert AttemptsOk(s.attempts, |s.jobs|, j);
  }

  lemma QueuedKeeps(v: Service, g: Rules, s: Desk, j: Job)
    requires DeskOk(v, g, s) && JobOk(s.stories, j) && j.state.Queued? && j.requests == 0
      && ActiveCount(s.jobs, j.owner) < v.maxActive
    ensures DeskOk(v, g, s.(jobs := s.jobs + [j])) && Evolves(s, s.(jobs := s.jobs + [j]))
  {
    QueuedCounts(v, s.jobs, j);
    QueuedJobs(s, j);
    JobsEvolveProposals(v, g, s, s.(jobs := s.jobs + [j]));
  }

  lemma EnqueueKeeps(v: Service, g: Rules, s: Desk, owner: nat, story: nat, base: nat, kind: Kind,
          outline: Option<(nat, nat)>, admitted: bool)
    requires DeskOk(v, g, s) && v.limits.maxAttempts >= 1
    ensures DeskOk(v, g, Enqueue(v, s, owner, story, base, kind, outline, admitted).0)
    ensures Evolves(s, Enqueue(v, s, owner, story, base, kind, outline, admitted).0)
  {
    var (t, answer) := Enqueue(v, s, owner, story, base, kind, outline, admitted);
    if answer.Finished? {
      assert StoryOk(s.stories[story]);
      QueuedKeeps(v, g, s, NewJob(owner, story, s.stories[story], kind, v.limits,
          if outline.Some? then s.jobs[outline.value.0].outline else None));
    } else {
      EvolvesSelf(s);
    }
  }

  lemma RestoreKeeps(v: Service, g: Rules, s: Desk, owner: nat, story: nat, expected: nat, revision: nat)
    requires DeskOk(v, g, s)
    ensures DeskOk(v, g, Restore(v, s, owner, story, expected, revision).0)
      && Evolves(s, Restore(v, s, owner, story, expected, revision).0)
  {
    EvolvesSelf(s);
    if OwnsStory(s, owner, story) && 1 <= revision <= |s.stories[story].history| {
      SaveKeeps(v, g, s, owner, story, expected, s.stories[story].history[revision - 1]);
    }
  }

  // Steps of owners on their jobs
  lemma OwnerStepKeeps(v: Service, g: Rules, s: Desk, step: Step)
    requires DeskOk(v, g, s) && v.limits.maxAttempts >= 1
    requires step.EnqueueStep? || step.CancelStep? || step.OutlineStep?
    ensures DeskOk(v, g, DeskStep(v, s, step).0) && Evolves(s, DeskStep(v, s, step).0)
  {
    match step
    case EnqueueStep(owner, story, base, kind, outline, admitted) => EnqueueKeeps(v, g, s, owner, story, base, kind,
        outline, admitted);
    case CancelStep(owner, job) => CancelKeeps(v, g, s, owner, job);
    case OutlineStep(owner, job, expected, text) => OutlineKeeps(v, g, s, owner, job, expected, text);
  }

  // Steps of owners on their drafts
  lemma DraftStepKeeps(v: Service, g: Rules, s: Desk, step: Step)
    requires DeskOk(v, g, s)
    requires step.CreateStory? || step.SaveStep?
    ensures DeskOk(v, g, DeskStep(v, s, step).0) && Evolves(s, DeskStep(v, s, step).0)
  {
    match step
    case CreateStory(owner, d) => CreateKeeps(v, g, s, owner, d);
    case SaveStep(owner, story, expected, d) => SaveKeeps(v, g, s, owner, story, expected, d);
  }

  // Steps that bring back a revision or adopt a proposal
  lemma RevisionStepKeeps(v: Service, g: Rules, s: Desk, step: Step)
    requires DeskOk(v, g, s) && g == RulesOf(v)
    requires step.RestoreStep? || step.ApplyStep?
    ensures DeskOk(v, g, DeskStep(v, s, step).0) && Evolves(s, DeskStep(v, s, step).0)
  {
    match step
    case RestoreStep(owner, story, expected, revision) => RestoreKeeps(v, g, s, owner, story, expected, revision);
    case ApplyStep(owner, story, n, expected, ids) => ApplyKeeps(v, g, s, owner, story, n, expected, ids);
  }

  // Steps of workers, of moderation and of the clock
  lemma WorkerStepKeeps(v: Service, g: Rules, s: System, step: Step)
    requires Invariant(v, g, s) && g == RulesOf(v) && Enabled(s, step)
    requires step.Tick? || step.Moderate? || step.ClaimStep? || step.ReserveStep? || step.DeliverStep?
      || step.FailStep? || step.AccountStep?
    ensures DeskOk(v, g, DeskStep(v, s.desk, step).0) && Evolves(s.desk, DeskStep(v, s.desk, step).0)
  {
    match step
    case Tick(to) => ClockKeeps(v, g, s.desk, to);
    case Moderate(story, editable) => ModerateKeeps(v, g, s.desk, story, editable);
    case ClaimStep(busy) => ClaimKeeps(v, g, s.desk, busy);
    case ReserveStep(l, admitted, later) => ReserveKeeps(v, g, s.desk, l, admitted, later);
    case DeliverStep(l, o, u) => DeliverKeeps(v, g, s.desk, l, o, u);
    case FailStep(l, u) => FailKeeps(v, g, s.desk, l, u);
    case AccountStep(l, u) => UsageKeeps(v, g, s.desk, l, u);
  }

  lemma DeskStepKeeps(v: Service, g: Rules, s: System, step: Step)
    requires Invariant(v, g, s) && g == RulesOf(v) && Enabled(s, step) && v.limits.maxAttempts >= 1
    ensures DeskOk(v, g, DeskStep(v, s.desk, step).0) && Evolves(s.desk, DeskStep(v, s.desk, step).0)
  {
    if step.EnqueueStep? || step.CancelStep? || step.OutlineStep? {
      OwnerStepKeeps(v, g, s.desk, step);
    } else if step.CreateStory? || step.SaveStep? {
      DraftStepKeeps(v, g, s.desk, step);
    } else if step.RestoreStep? || step.ApplyStep? {
      RevisionStepKeeps(v, g, s.desk, step);
    } else {
      WorkerStepKeeps(v, g, s, step);
    }
  }

  lemma LeasesKept(s: Desk, t: Desk, leases: set<JobLease>)
    requires Evolves(s, t) && forall l :: l in leases ==> LeaseOk(s, l)
    ensures forall l :: l in leases ==> LeaseOk(t, l)
  {
    forall l | l in leases ensures LeaseOk(t, l) {
      assert LeaseOk(s, l) && JobEvolves(s.jobs[l.job], t.jobs[l.job]);
    }
  }

  lemma OnlyClaimGrants(v: Service, s: Desk, step: Step)
    requires step.Moderate? ==> step.story < |s.stories|
    ensures DeskStep(v, s, step).1.Granted? ==> step.ClaimStep?
  {
  }

  lemma GrantedOk(v: Service, g: Rules, s: Desk, step: Step)
    requires DeskOk(v, g, s) && step.ClaimStep?
    ensures var (t, answer) := DeskStep(v, s, step); answer.Granted? ==> LeaseOk(t, answer.lease)
  {
    ClaimKeeps(v, g, s, step.busy);
  }

  // Every step keeps the invariant.
  lemma StepKeeps(v: Service, g: Rules, s: System, step: Step)
    requires Invariant(v, g, s) && g == RulesOf(v) && Enabled(s, step) && v.limits.maxAttempts >= 1
    ensures Invariant(v, g, Perform(v, s, step)) && Evolves(s.desk, Perform(v, s, step).desk)
  {
    DeskStepKeeps(v, g, s, step);
    LeasesKept(s.desk, DeskStep(v, s.desk, step).0, s.leases);
    OnlyClaimGrants(v, s.desk, step);
    if step.ClaimStep? { GrantedOk(v, g, s.desk, step); }
  }
}
