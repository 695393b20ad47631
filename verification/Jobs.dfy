/**
 The authoring job queue and the story drafts it works on. Every operation is one transaction
 under the admission, request or row lock that the store takes; `now` is the database clock.
 */
module Jobs {
  import opened Outcomes
  import opened JsonValues
  import opened Proposals
  import opened References

  datatype Kind = Check | Fill | Outline | Concretize

  datatype JobState = Queued | Running | Succeeded | Failed | Cancelled

  datatype JobLimits = JobLimits(maxAttempts: nat, lease: nat)

  datatype Usage = Usage(input: nat, output: nat, complete: bool)

  datatype Job = Job(
    owner: nat, story: nat, base: nat, snapshot: Draft, kind: Kind, limits: JobLimits, approvedOutline: Option<string>,
    state: JobState, attempts: nat, epoch: nat, lease: Option<int>, requests: nat,
    outline: Option<string>, outlineRevision: nat, approved: Option<nat>, usage: Usage)

  datatype AttemptState = Started | Requested | Expired | Completed | Errored | Withdrawn

  datatype Attempt = Attempt(state: AttemptState, reserved: bool, finished: Option<int>)

  datatype Decision = Decision(revision: nat, adopted: set<nat>)

  datatype StoredProposal = StoredProposal(job: nat, story: nat, base: nat, proposal: Proposal,
      decision: Option<Decision>)

  // `history[r - 1]` is the payload of revision r.
  datatype Story = Story(owner: nat, editable: bool, revision: nat, draft: Draft, history: seq<Draft>)

  datatype Desk = Desk(
    now: int, jobs: seq<Job>, attempts: map<(nat, nat), Attempt>, proposals: seq<StoredProposal>, stories: seq<Story>)

  // Settings of the service; `validate` is the draft model, `ownRef` the reference of a story's
  // scenario, and `supply` what the references generated for a revision of a story are made from.
  datatype Service = Service(
    maxRunning: nat, maxActive: nat, limits: JobLimits,
    validate: Json -> Option<Draft>, ownRef: nat -> string, supply: (nat, nat) -> nat -> string)

  datatype JobLease = JobLease(job: nat, epoch: nat, story: nat, base: nat, snapshot: Draft, kind: Kind)

  datatype Answer =
    | Nothing                  // no job, or the lease no longer counts
    | Denied(problem: Problem) // an error is raised
    | Finished
    | Granted(lease: JobLease)
    | Revised(revision: nat)

  datatype Problem =
    | NotFound | Unavailable | RevisionConflict | OutlineNotApproved | UsageLimit | LeaseExpired | NotReserved
    | OutlineUnavailable | OutlineConflict | AlreadyApplied | BaseMoved | Rejected(code: Code)

  // ---- counting ----

  predicate Active(j: Job) {
    j.state.Queued? || j.state.Running?
  }

  function RunningCount(jobs: seq<Job>): nat {
    if jobs == [] then 0 else RunningCount(jobs[..|jobs| - 1]) + (if jobs[|jobs| - 1].state.Running? then 1 else 0)
  }

  function ActiveCount(jobs: seq<Job>, owner: nat): nat {
    if jobs == [] then 0
    else
      var last := jobs[|jobs| - 1];
      ActiveCount(jobs[..|jobs| - 1], owner) + (if Active(last) && last.owner == owner then 1 else 0)
  }

  // ---- the queue ----

  predicate OwnsStory(s: Desk, owner: nat, story: nat) {
    story < |s.stories| && s.stories[story].owner == owner
  }

  predicate OutlineApproved(s: Desk, owner: nat, story: nat, source: nat, revision: nat) {
    source < |s.jobs| &&
    var j := s.jobs[source];
    && j.owner == owner && j.story == story && story < |s.stories| && j.base == s.stories[story].revision
    && j.kind.Outline? && j.state.Succeeded? && j.approved == Some(revision) && j.outlineRevision == revision
  }

  function NewJob(owner: nat, story: nat, st: Story, kind: Kind, limits: JobLimits, outline: Option<string>): Job {
    Job(owner, story, st.revision, st.draft, kind, limits, outline, Queued, 0, 0, None, 0, None, 0, None,
        Usage(0, 0, false))
  }

  // enqueue; `outline` names an outline job and its approved revision
  function Enqueue(v: Service, s: Desk, owner: nat, story: nat, base: nat, kind: Kind, outline: Option<(nat, nat)>,
          admitted: bool): (Desk, Answer)
  {
    if !OwnsStory(s, owner, story) then (s, Denied(NotFound))
    else
      var st := s.stories[story];
      if !st.editable then (s, Denied(Unavailable))
      else if st.revision != base then (s, Denied(RevisionConflict))
      else if outline.Some? && !OutlineApproved(s, owner, story, outline.value.0, outline.value.1) then
        (s, Denied(OutlineNotApproved))
      else if ActiveCount(s.jobs, owner) >= v.maxActive || !admitted then (s, Denied(UsageLimit))
      else
        (s.(jobs := s.jobs + [NewJob(owner, story, st, kind, v.limits,
            if outline.Some? then s.jobs[outline.value.0].outline else None)]), Finished)
  }

  function EndAttempt(attempts: map<(nat, nat), Attempt>, job: nat, epoch: nat, state: AttemptState,
          now: int): map<(nat, nat), Attempt>
  {
    if epoch != 0 && (job, epoch) in attempts then
      attempts[(job, epoch) := attempts[(job, epoch)].(state := state, finished := Some(now))]
    else attempts
  }

  predicate IsExpired(s: Desk, i: nat)
    requires i < |s.jobs|
  {
    s.jobs[i].state.Running? && s.jobs[i].lease.Some? && s.jobs[i].lease.value <= s.now
  }

  // A job with no attempts left, or whose request may have reached the provider, is not queued again.
  predicate Exhausted(j: Job) {
    j.requests > 0 || j.attempts >= j.limits.maxAttempts
  }

  function Expire(s: Desk, i: nat): Desk
    requires i < |s.jobs|
  {
    var j := s.jobs[i];
    s.(jobs := s.jobs[i := j.(state := if Exhausted(j) then Failed else Queued, lease := None, epoch := j.epoch + 1)],
       attempts := EndAttempt(s.attempts, i, j.epoch, Expired, s.now))
  }

  // The first loop of claim; rows locked by another transaction (`busy`) are skipped
  function ExpireFrom(s: Desk, busy: set<nat>, i: nat): (r: Desk)
    requires i <= |s.jobs|
    ensures |r.jobs| == |s.jobs| && r.stories == s.stories
    decreases |s.jobs| - i
  {
    if i == |s.jobs| then s
    else ExpireFrom(if i !in busy && IsExpired(s, i) then Expire(s, i) else s, busy, i + 1)
  }

  function FirstQueued(jobs: seq<Job>, busy: set<nat>, i: nat): (r: nat)
    requires i <= |jobs|
    ensures i <= r <= |jobs|
    ensures r < |jobs| ==> r !in busy && jobs[r].state.Queued?
    ensures forall k :: i <= k < r ==> k in busy || !jobs[k].state.Queued?
    decreases |jobs| - i
  {
    if i == |jobs| || (i !in busy && jobs[i].state.Queued?) then i else FirstQueued(jobs, busy, i + 1)
  }

  function Take(s: Desk, i: nat): Desk
    requires i < |s.jobs|
  {
    var j := s.jobs[i];
    s.(jobs := s.jobs[i := j.(state := Running, attempts := j.attempts + 1, epoch := j.epoch + 1,
        lease := Some(s.now + j.limits.lease))],
       attempts := s.attempts[(i, j.epoch + 1) := Attempt(Started, false, None)])
  }

  // claim
  function Claim(v: Service, s: Desk, busy: set<nat>): (Desk, Answer) {
    var swept := ExpireFrom(s, busy, 0);
    var i := FirstQueued(swept.jobs, busy, 0);
    if RunningCount(swept.jobs) >= v.maxRunning || i == |swept.jobs| then (swept, Nothing)
    else
      var j := swept.jobs[i];
      (Take(swept, i), Granted(JobLease(i, j.epoch + 1, j.story, j.base, j.snapshot, j.kind)))
  }

  // _fenced
  predicate Fenced(s: Desk, l: JobLease, now: int) {
    l.job < |s.jobs| && s.jobs[l.job].state.Running? && s.jobs[l.job].epoch == l.epoch &&
    s.jobs[l.job].lease.Some? && s.jobs[l.job].lease.value > now
  }

  predicate Editable(s: Desk, story: nat) {
    story < |s.stories| && s.stories[story].editable
  }

  // reserve_call; the clock may move on while the usage lock is awaited
  function ReserveCall(s: Desk, l: JobLease, admitted: bool, later: int): (Desk, Answer) {
    var clock := if later > s.now then later else s.now;
    if !Editable(s, l.story) then (s, Denied(Unavailable))
    else if !Fenced(s, l, s.now) || s.jobs[l.job].requests != 0 then (s, Nothing)
    else if !admitted then (s.(now := clock), Denied(UsageLimit))
    else if !Fenced(s, l, clock) || (l.job, l.epoch) !in s.attempts then (s.(now := clock), Denied(LeaseExpired))
    else
      (s.(now := clock, jobs := s.jobs[l.job := s.jobs[l.job].(requests := 1)],
          attempts := s.attempts[(l.job, l.epoch) :=
              s.attempts[(l.job, l.epoch)].(reserved := true, state := Requested)]),
       Finished)
  }

  function Larger(a: nat, b: nat): nat { if a >= b then a else b }

  // record_usage: accounting only
  function RecordUsage(s: Desk, l: JobLease, u: Usage): Desk {
    if l.job >= |s.jobs| || (l.job, l.epoch) !in s.attempts || !s.attempts[(l.job, l.epoch)].reserved then s
    else
      var j := s.jobs[l.job];
      s.(jobs := s.jobs[l.job :=
          j.(usage := Usage(Larger(j.usage.input, u.input), Larger(j.usage.output, u.output), j.usage.complete
              || u.complete))])
  }

  function Finish(s: Desk, job: nat, state: JobState, attempt: AttemptState, u: Usage): Desk
    requires job < |s.jobs|
  {
    var j := s.jobs[job];
    s.(jobs := s.jobs[job := j.(state := state, lease := None, usage := u)],
        attempts := EndAttempt(s.attempts, job, j.epoch, attempt, s.now))
  }

  // succeed
  function Succeed(s: Desk, l: JobLease, proposal: Option<Proposal>, outline: Option<string>, u: Usage): (Desk, Answer)
  {
    if !Editable(s, l.story) then (s, Denied(Unavailable))
    else if !Fenced(s, l, s.now) then (s, Nothing)
    else if s.jobs[l.job].requests != 1 then (s, Denied(NotReserved))
    else
      var j := s.jobs[l.job];
      var kept := if outline.Some? then j.(outline := outline, outlineRevision := 1) else j;
      var stored := if proposal.Some? then [StoredProposal(l.job, j.story, j.base, proposal.value, None)] else [];
      (Finish(s.(jobs := s.jobs[l.job := kept], proposals := s.proposals + stored), l.job, Succeeded, Completed, u),
          Finished)
  }

  // fail
  function Fail(s: Desk, l: JobLease, u: Usage): (Desk, Answer) {
    if !Fenced(s, l, s.now) then (s, Nothing) else (Finish(s, l.job, Failed, Errored, u), Finished)
  }

  // cancel
  function Cancel(s: Desk, owner: nat, job: nat): (Desk, Answer) {
    if job >= |s.jobs| || s.jobs[job].owner != owner then (s, Denied(NotFound))
    else if !Active(s.jobs[job]) then (s, Finished)
    else
      var j := s.jobs[job];
      (s.(jobs := s.jobs[job := j.(state := Cancelled, lease := None, epoch := j.epoch + 1)],
          attempts := EndAttempt(s.attempts, job, j.epoch, Withdrawn, s.now)),
       Finished)
  }

  // edit_outline, or its approval when no new text is given
  function EditOutline(s: Desk, owner: nat, job: nat, expected: nat, text: Option<string>): (Desk, Answer) {
    if job >= |s.jobs| || s.jobs[job].owner != owner then (s, Denied(NotFound))
    else
      var j := s.jobs[job];
      if !Editable(s, j.story) then (s, Denied(Unavailable))
      else if !j.kind.Outline? || !j.state.Succeeded? || j.outline.None? then (s, Denied(OutlineUnavailable))
      else if j.outlineRevision != expected then (s, Denied(OutlineConflict))
      else if text.None? then (s.(jobs := s.jobs[job := j.(approved := Some(j.outlineRevision))]), Finished)
      else (s.(jobs := s.jobs[job :=
          j.(outline := text, outlineRevision := j.outlineRevision + 1, approved := None)]), Finished)
  }

  // ---- drafts ----

  // What is stored for a draft: the scenario has the story's own reference, version 1 and no missing refs
  function Stored(v: Service, story: nat, revision: nat, d: Draft): Draft {
    var values := d.scenario["scenario_ref" := Str(v.ownRef(story))]["version" := Num(1)];
    d.(scenario := FillScenario(values, v.supply(story, revision)))
  }

  // _revise
  function Revise(v: Service, s: Desk, story: nat, d: Draft): Result<Story>
    requires story < |s.stories|
  {
    var own := Str(v.ownRef(story));
    if "scenario_ref" in d.scenario && d.scenario["scenario_ref"] != own then Err(ImmutableRef)
    else
      var st := s.stories[story];
      var payload := Stored(v, story, st.revision + 1, d);
      Ok(st.(revision := st.revision + 1, draft := payload, history := st.history + [payload]))
  }

  // save
  function Save(v: Service, s: Desk, owner: nat, story: nat, expected: nat, d: Draft): (Desk, Answer) {
    if !OwnsStory(s, owner, story) then (s, Denied(NotFound))
    else if !s.stories[story].editable then (s, Denied(Unavailable))
    else if s.stories[story].revision != expected then (s, Denied(RevisionConflict))
    else
      match Revise(v, s, story, d)
      case Err(code) => (s, Denied(Rejected(code)))
      case Ok(st) => (s.(stories := s.stories[story := st]), Revised(st.revision))
  }

  // restore
  function Restore(v: Service, s: Desk, owner: nat, story: nat, expected: nat, revision: nat): (Desk, Answer) {
    if !OwnsStory(s, owner, story) then (s, Denied(NotFound))
    else if !s.stories[story].editable then (s, Denied(Unavailable))
    else if s.stories[story].revision != expected then (s, Denied(RevisionConflict))
    else if !(1 <= revision <= |s.stories[story].history|) then (s, Denied(NotFound))
    else Save(v, s, owner, story, expected, s.stories[story].history[revision - 1])
  }

  // apply
  function Apply(v: Service, s: Desk, owner: nat, story: nat, proposal: nat, expected: nat,
          ids: set<nat>): (Desk, Answer)
  {
    if !OwnsStory(s, owner, story) then (s, Denied(NotFound))
    else if !s.stories[story].editable then (s, Denied(Unavailable))
    else if proposal >= |s.proposals| || s.proposals[proposal].story != story then (s, Denied(NotFound))
    else if s.proposals[proposal].decision.Some? then (s, Denied(AlreadyApplied))
    else if s.stories[story].revision != expected then (s, Denied(RevisionConflict))
    else if s.proposals[proposal].base != expected then (s, Denied(BaseMoved))
    else
      match Adopt(s.stories[story].draft, s.proposals[proposal].proposal.changes, ids, v.validate)
      case Err(code) => (s, Denied(Rejected(code)))
      case Ok(d) =>
        match Revise(v, s, story, d)
        case Err(code) => (s, Denied(Rejected(code)))
        case Ok(st) =>
          (s.(stories := s.stories[story := st],
              proposals := s.proposals[proposal :=
                  s.proposals[proposal].(decision := Some(Decision(st.revision, ids)))]),
           Revised(st.revision))
  }

  // ---- the store, whose methods update the rows in place ----

  class JobStore {
    const service: Service
    var now: int
    var jobs: seq<Job>
    var attempts: map<(nat, nat), Attempt>
    var proposals: seq<StoredProposal>
    var stories: seq<Story>

    ghost function Contents(): Desk reads this {
      Desk(now, jobs, attempts, proposals, stories)
    }

    constructor (v: Service)
      ensures Contents() == Desk(0, [], map[], [], []) && service == v
    {
      service, now := v, 0;
      jobs, attempts, proposals, stories := [], map[], [], [];
    }

    method CountRunning() returns (n: nat)
      ensures n == RunningCount(jobs)
    {
      n := 0;
      for i := 0 to |jobs|
        invariant n == RunningCount(jobs[..i])
      {
        assert jobs[..i + 1][..i] == jobs[..i];
        if jobs[i].state.Running? { n := n + 1; }
      }
      assert jobs[..|jobs|] == jobs;
    }

    method CountActive(owner: nat) returns (n: nat)
      ensures n == ActiveCount(jobs, owner)
    {
      n := 0;
      for i := 0 to |jobs|
        invariant n == ActiveCount(jobs[..i], owner)
      {
        assert jobs[..i + 1][..i] == jobs[..i];
        if Active(jobs[i]) && jobs[i].owner == owner { n := n + 1; }
      }
      assert jobs[..|jobs|] == jobs;
    }

    method EnqueueJob(owner: nat, story: nat, base: nat, kind: Kind, outline: Option<(nat, nat)>, admitted: bool)
      returns (r: Answer)
      modifies this`jobs
      ensures (Contents(), r) == Enqueue(service, old(Contents()), owner, story, base, kind, outline, admitted)
    {
      if story >= |stories| || stories[story].owner != owner { return Denied(NotFound); }
      var st := stories[story];
      if !st.editable { return Denied(Unavailable); }
      if st.revision != base { return Denied(RevisionConflict); }
      var approved := None;
      if outline.Some? {
        var (source, revision) := outline.value;
        if source >= |jobs| || jobs[source].owner != owner { return Denied(OutlineNotApproved); }
        var j := jobs[source];
        if j.story != story || j.base != st.revision || !j.kind.Outline? || !j.state.Succeeded?
          || j.approved != Some(revision) || j.outlineRevision != revision {
          return Denied(OutlineNotApproved);
        }
        approved := j.outline;
      }
      var active := CountActive(owner);
      if active >= service.maxActive || !admitted { return Denied(UsageLimit); }
      jobs := jobs + [NewJob(owner, story, st, kind, service.limits, approved)];
      r := Finished;
    }

    // Both loops of claim: expired leases are ended first, then the oldest queued job is leased.
    method ClaimJob(busy: set<nat>) returns (r: Answer)
      modifies this`jobs, this`attempts
      ensures (Contents(), r) == Claim(service, old(Contents()), busy)
    {
      var i := 0;
      while i < |jobs|
        invariant 0 <= i <= |jobs|
        invariant ExpireFrom(old(Contents()), busy, 0) == ExpireFrom(Contents(), busy, i)
      {
        if i !in busy && jobs[i].state.Running? && jobs[i].lease.Some? && jobs[i].lease.value <= now {
          var j := jobs[i];
          attempts := EndAttempt(attempts, i, j.epoch, Expired, now);
          jobs := jobs[i := j.(state := if Exhausted(j) then Failed else Queued, lease := None, epoch := j.epoch + 1)];
        }
        i := i + 1;
      }
      ghost var swept := Contents();
      var running := CountRunning();
      if running >= service.maxRunning { return Nothing; }
      var id := 0;
      while id < |jobs| && (id in busy || !jobs[id].state.Queued?)
        invariant 0 <= id <= |jobs| && Contents() == swept
        invariant FirstQueued(jobs, busy, 0) == FirstQueued(jobs, busy, id)
      {
        id := id + 1;
      }
      if id == |jobs| { return Nothing; }
      var j := jobs[id];
      LeaseJob(id);
      r := Granted(JobLease(id, j.epoch + 1, j.story, j.base, j.snapshot, j.kind));
    }

    method LeaseJob(id: nat)
      requires id < |jobs|
      modifies this`jobs, this`attempts
      ensures Contents() == Take(old(Contents()), id)
    {
      var j := jobs[id];
      jobs := jobs[id := j.(state := Running, attempts := j.attempts + 1, epoch := j.epoch + 1,
          lease := Some(now + j.limits.lease))];
      attempts := attempts[(id, j.epoch + 1) := Attempt(Started, false, None)];
    }

    method Reserve(l: JobLease, admitted: bool, later: int) returns (r: Answer)
      modifies this`now, this`jobs, this`attempts
      ensures (Contents(), r) == ReserveCall(old(Contents()), l, admitted, later)
    {
      if l.story >= |stories| || !stories[l.story].editable { return Denied(Unavailable); }
      var fenced := IsFenced(l);
      if !fenced || jobs[l.job].requests != 0 { return Nothing; }
      if later > now { now := later; }
      if !admitted { return Denied(UsageLimit); }
      if jobs[l.job].lease.value <= now || (l.job, l.epoch) !in attempts { return Denied(LeaseExpired); }
      attempts := attempts[(l.job, l.epoch) := attempts[(l.job, l.epoch)].(reserved := true, state := Requested)];
      jobs := jobs[l.job := jobs[l.job].(requests := 1)];
      r := Finished;
    }

    method IsFenced(l: JobLease) returns (b: bool)
      ensures b == Fenced(Contents(), l, now)
    {
      b := l.job < |jobs| && jobs[l.job].state.Running? && jobs[l.job].epoch == l.epoch && jobs[l.job].lease.Some?
        && jobs[l.job].lease.value > now;
    }

    method AccountUsage(l: JobLease, u: Usage)
      modifies this`jobs
      ensures Contents() == RecordUsage(old(Contents()), l, u)
    {
      if l.job >= |jobs| || (l.job, l.epoch) !in attempts || !attempts[(l.job, l.epoch)].reserved { return; }
      var j := jobs[l.job];
      var total := j.usage;
      if u.input > total.input { total := total.(input := u.input); }
      if u.output > total.output { total := total.(output := u.output); }
      if u.complete { total := total.(complete := true); }
      jobs := jobs[l.job := j.(usage := total)];
    }

    method Close(job: nat, state: JobState, attempt: AttemptState, u: Usage)
      requires job < |jobs|
      modifies this`jobs, this`attempts
      ensures Contents() == Finish(old(Contents()), job, state, attempt, u)
    {
      attempts := EndAttempt(attempts, job, jobs[job].epoch, attempt, now);
      jobs := jobs[job := jobs[job].(state := state, lease := None, usage := u)];
    }

    method SucceedJob(l: JobLease, proposal: Option<Proposal>, outline: Option<string>, u: Usage) returns (r: Answer)
      modifies this`jobs, this`attempts, this`proposals
      ensures (Contents(), r) == Succeed(old(Contents()), l, proposal, outline, u)
    {
      if l.story >= |stories| || !stories[l.story].editable { return Denied(Unavailable); }
      var fenced := IsFenced(l);
      if !fenced { return Nothing; }
      var j := jobs[l.job];
      if j.requests != 1 { return Denied(NotReserved); }
      if proposal.Some? {
        proposals := proposals + [StoredProposal(l.job, j.story, j.base, proposal.value, None)];
      }
      assert proposal.None? ==> proposals == old(proposals) + [];
      if outline.Some? { jobs := jobs[l.job := j.(outline := outline, outlineRevision := 1)]; }
      assert outline.None? ==> jobs == old(jobs)[l.job := j];
      Close(l.job, Succeeded, Completed, u);
      r := Finished;
    }

    method FailJob(l: JobLease, u: Usage) returns (r: Answer)
      modifies this`jobs, this`attempts
      ensures (Contents(), r) == Fail(old(Contents()), l, u)
    {
      var fenced := IsFenced(l);
      if !fenced { return Nothing; }
      Close(l.job, Failed, Errored, u);
      r := Finished;
    }

    method CancelJob(owner: nat, job: nat) returns (r: Answer)
      modifies this`jobs, this`attempts
      ensures (Contents(), r) == Cancel(old(Contents()), owner, job)
    {
      if job >= |jobs| || jobs[job].owner != owner { return Denied(NotFound); }
      var j := jobs[job];
      if j.state.Queued? || j.state.Running? {
        attempts := EndAttempt(attempts, job, j.epoch, Withdrawn, now);
        jobs := jobs[job := j.(state := Cancelled, lease := None, epoch := j.epoch + 1)];
      }
      r := Finished;
    }

    method ReviseOutline(owner: nat, job: nat, expected: nat, text: Option<string>) returns (r: Answer)
      modifies this`jobs
      ensures (Contents(), r) == EditOutline(old(Contents()), owner, job, expected, text)
    {
      if job >= |jobs| || jobs[job].owner != owner { return Denied(NotFound); }
      var j := jobs[job];
      if j.story >= |stories| || !stories[j.story].editable { return Denied(Unavailable); }
      if !j.kind.Outline? || !j.state.Succeeded? || j.outline.None? { return Denied(OutlineUnavailable); }
      if j.outlineRevision != expected { return Denied(OutlineConflict); }
      if text.None? {
        j := j.(approved := Some(j.outlineRevision));
      } else {
        j := j.(outline := text, outlineRevision := j.outlineRevision + 1, approved := None);
      }
      jobs := jobs[job := j];
      r := Finished;
    }

    method SaveDraft(owner: nat, story: nat, expected: nat, d: Draft) returns (r: Answer)
      modifies this`stories
      ensures (Contents(), r) == Save(service, old(Contents()), owner, story, expected, d)
    {
      if story >= |stories| || stories[story].owner != owner { return Denied(NotFound); }
      if !stories[story].editable { return Denied(Unavailable); }
      if stories[story].revision != expected { return Denied(RevisionConflict); }
      var revised := ReviseDraft(story, d);
      if revised.Err? { return Denied(Rejected(revised.code)); }
      r := Revised(revised.value);
    }

    method RestoreDraft(owner: nat, story: nat, expected: nat, to: nat) returns (r: Answer)
      modifies this`stories
      ensures (Contents(), r) == Restore(service, old(Contents()), owner, story, expected, to)
    {
      if story >= |stories| || stories[story].owner != owner { return Denied(NotFound); }
      if !stories[story].editable { return Denied(Unavailable); }
      if stories[story].revision != expected { return Denied(RevisionConflict); }
      if to < 1 || to > |stories[story].history| { return Denied(NotFound); }
      r := SaveDraft(owner, story, expected, stories[story].history[to - 1]);
    }

    method ReviseDraft(story: nat, d: Draft) returns (r: Result<nat>)
      requires story < |stories|
      modifies this`stories
      ensures match Revise(service, old(Contents()), story, d)
        case Err(code) => r == Err(code) && Contents() == old(Contents())
        case Ok(st) => r == Ok(st.revision) && Contents() == old(Contents()).(stories := old(stories)[story := st])
    {
      var own := Str(service.ownRef(story));
      if "scenario_ref" in d.scenario && d.scenario["scenario_ref"] != own { return Err(ImmutableRef); }
      var values := d.scenario["scenario_ref" := own];
      values := values["version" := Num(1)];
      var st := stories[story];
      st := st.(revision := st.revision + 1);
      values := AssignMissingRefs(values, service.supply(story, st.revision));
      var normalized := d.(scenario := values);
      st := st.(draft := normalized);
      st := st.(history := st.history + [normalized]);
      stories := stories[story := st];
      r := Ok(st.revision);
    }

    method ApplyProposal(owner: nat, story: nat, proposal: nat, expected: nat, ids: set<nat>) returns (r: Answer)
      modifies this`stories, this`proposals
      ensures (Contents(), r) == Apply(service, old(Contents()), owner, story, proposal, expected, ids)
    {
      if story >= |stories| || stories[story].owner != owner { return Denied(NotFound); }
      if !stories[story].editable { return Denied(Unavailable); }
      if proposal >= |proposals| || proposals[proposal].story != story { return Denied(NotFound); }
      var row := proposals[proposal];
      if row.decision.Some? { return Denied(AlreadyApplied); }
      if stories[story].revision != expected { return Denied(RevisionConflict); }
      if row.base != expected { return Denied(BaseMoved); }
      var payload := AdoptChanges(stories[story].draft, row.proposal.changes, ids, service.validate);
      if payload.Err? { return Denied(Rejected(payload.code)); }
      var revised := ReviseDraft(story, payload.value);
      if revised.Err? { return Denied(Rejected(revised.code)); }
      proposals := proposals[proposal := row.(decision := Some(Decision(revised.value, ids)))];
      r := Revised(revised.value);
    }
  }
}
