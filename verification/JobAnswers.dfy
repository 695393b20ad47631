/** What the operations on authoring jobs answer and leave behind, in terms of the rows themselves. */
module JobAnswers {
  import opened Outcomes
  import opened JsonValues
  import opened Proposals
  import opened Jobs
  import opened JobProtocol
  import opened Acceptance

  // ---- leases that have run out ----

  ghost predicate RunOut(s: Desk, busy: set<nat>, i: nat) {
    && i < |s.jobs| && i !in busy && s.jobs[i].state == Running
    && s.jobs[i].lease.Some? && s.jobs[i].lease.value <= s.now
  }

  // A job whose lease has run out goes back to the queue while an attempt is left and nothing was
  // requested of the provider; otherwise it has failed. Either way its worker is fenced.
  function GivenUp(j: Job): Job {
    j.(state := if j.requests == 0 && j.attempts < j.limits.maxAttempts then Queued else Failed,
       lease := None, epoch := j.epoch + 1)
  }

  // The rows after the first loop of a claim
  ghost predicate Swept(s: Desk, busy: set<nat>, jobs: seq<Job>) {
    |jobs| == |s.jobs| && forall i :: 0 <= i < |s.jobs| ==>
      jobs[i] == if RunOut(s, busy, i) then GivenUp(s.jobs[i]) else s.jobs[i]
  }

  // The rows up to `i` are swept, the others are as they were.
  ghost predicate SweptTo(s: Desk, busy: set<nat>, jobs: seq<Job>, i: nat) {
    |jobs| == |s.jobs| && forall n :: 0 <= n < |s.jobs| ==>
      jobs[n] == if n < i && RunOut(s, busy, n) then GivenUp(s.jobs[n]) else s.jobs[n]
  }

  lemma {:induction false} SweepFrom(s: Desk, t: Desk, busy: set<nat>, i: nat)
    requires i <= |t.jobs| && SweptTo(s, busy, t.jobs, i) && t.now == s.now
    ensures var u := ExpireFrom(t, busy, i);
      && Swept(s, busy, u.jobs) && u.now == s.now && u.stories == t.stories && u.proposals == t.proposals
    decreases |t.jobs| - i
  {
    if i < |t.jobs| {
      var next := if i !in busy && IsExpired(t, i) then Expire(t, i) else t;
      assert SweptTo(s, busy, next.jobs, i + 1);
      SweepFrom(s, next, busy, i + 1);
    }
  }

  ghost predicate Waits(jobs: seq<Job>, busy: set<nat>, i: nat) {
    i < |jobs| && i !in busy && jobs[i].state == Queued
  }

  // The oldest waiting job is leased for as long as its limits say, as a further attempt.
  ghost predicate Leases(s: Desk, jobs: seq<Job>, i: nat, t: Desk, answer: Answer)
    requires i < |jobs|
  {
    var j := jobs[i];
    && answer == Granted(JobLease(i, j.epoch + 1, j.story, j.base, j.snapshot, j.kind))
    && t.jobs == jobs[i := j.(state := Running, attempts := j.attempts + 1, epoch := j.epoch + 1,
        lease := Some(s.now + j.limits.lease))]
    && (i, j.epoch + 1) in t.attempts && t.attempts[(i, j.epoch + 1)] == Attempt(Started, false, None)
  }

  function RunningAt(jobs: seq<Job>): set<int> {
    set i | 0 <= i < |jobs| && jobs[i].state == Running
  }

  function Runners(jobs: seq<Job>): nat {
    |RunningAt(jobs)|
  }

  lemma RunningAtStep(jobs: seq<Job>)
    requires jobs != []
    ensures var last := |jobs| - 1;
      RunningAt(jobs) == RunningAt(jobs[..last]) + if jobs[last].state == Running then {last} else {}
  {
  }

  lemma {:induction false} RunnersAreCounted(jobs: seq<Job>)
    ensures Runners(jobs) == RunningCount(jobs)
  {
    if jobs != [] {
      RunnersAreCounted(jobs[..|jobs| - 1]);
      RunningAtStep(jobs);
    }
  }

  // The oldest waiting job, if any waits
  ghost predicate First(jobs: seq<Job>, busy: set<nat>, i: nat) {
    i <= |jobs| && (i < |jobs| ==> Waits(jobs, busy, i)) && forall n: nat :: n < i ==> !Waits(jobs, busy, n)
  }

  lemma {:induction false} FirstIsUnique(jobs: seq<Job>, busy: set<nat>, i: nat)
    requires First(jobs, busy, i)
    ensures FirstQueued(jobs, busy, 0) == i
  {
    var r := FirstQueued(jobs, busy, 0);
    assert r < |jobs| ==> Waits(jobs, busy, r);
    assert i < r ==> !Waits(jobs, busy, i);
  }

  // A claim gives up the leases that have run out, and leases the oldest waiting job while fewer than the
  // limit are running.
  lemma ClaimAnswer(v: Service, s: Desk, busy: set<nat>, jobs: seq<Job>, i: nat)
    requires Swept(s, busy, jobs) && First(jobs, busy, i)
    ensures var (t, answer) := Claim(v, s, busy);
      && t.now == s.now && t.stories == s.stories && t.proposals == s.proposals
      && if Runners(jobs) < v.maxRunning && i < |jobs| then Leases(s, jobs, i, t, answer)
         else answer == Nothing && t.jobs == jobs
  {
    SweptBy(s, busy, jobs);
    FirstIsUnique(jobs, busy, i);
    RunnersAreCounted(jobs);
    ClaimFrom(v, s, busy, ExpireFrom(s, busy, 0), i);
  }

  lemma {:induction false} SweptBy(s: Desk, busy: set<nat>, jobs: seq<Job>)
    requires Swept(s, busy, jobs)
    ensures var u := ExpireFrom(s, busy, 0);
      u.jobs == jobs && u.now == s.now && u.stories == s.stories && u.proposals == s.proposals
  {
    SweepFrom(s, s, busy, 0);
  }

  lemma {:induction false} ClaimFrom(v: Service, s: Desk, busy: set<nat>, swept: Desk, i: nat)
    requires swept == ExpireFrom(s, busy, 0) && i == FirstQueued(swept.jobs, busy, 0) && swept.now == s.now
    ensures var (t, answer) := Claim(v, s, busy);
      && t.now == swept.now && t.stories == swept.stories && t.proposals == swept.proposals
      && if RunningCount(swept.jobs) < v.maxRunning && i < |swept.jobs| then Leases(s, swept.jobs, i, t, answer)
         else answer == Nothing && t.jobs == swept.jobs
  {
    if i < |swept.jobs| { TakeLeases(s, swept, i); }
  }

  lemma TakeLeases(s: Desk, swept: Desk, i: nat)
    requires i < |swept.jobs| && swept.now == s.now
    ensures var (t, j) := (Take(swept, i), swept.jobs[i]);
      && t.now == swept.now && t.stories == swept.stories && t.proposals == swept.proposals
      && Leases(s, swept.jobs, i, t, Granted(JobLease(i, j.epoch + 1, j.story, j.base, j.snapshot, j.kind)))
  {
  }

  // ---- enqueueing ----

  ghost predicate Unfinished(j: Job, owner: nat) {
    j.owner == owner && j.state in {Queued, Running}
  }

  // The approved outline a job is to follow
  ghost predicate Follows(s: Desk, owner: nat, story: nat, source: nat, revision: nat) {
    && source < |s.jobs| && s.jobs[source].owner == owner && s.jobs[source].story == story
    && s.jobs[source].kind == Outline && s.jobs[source].state == Succeeded
    && story < |s.stories| && s.jobs[source].base == s.stories[story].revision
    && s.jobs[source].approved == Some(revision) && s.jobs[source].outlineRevision == revision
  }

  // The jobs of the owner that are queued or running
  function HeldAt(jobs: seq<Job>, owner: nat): set<int> {
    set i | 0 <= i < |jobs| && jobs[i].owner == owner && jobs[i].state in {Queued, Running}
  }

  lemma HeldAtStep(jobs: seq<Job>, owner: nat)
    requires jobs != []
    ensures var last := |jobs| - 1;
      HeldAt(jobs, owner) == HeldAt(jobs[..last], owner) + if Unfinished(jobs[last], owner) then {last} else {}
  {
  }

  lemma {:induction false} HeldIsActive(jobs: seq<Job>, owner: nat)
    ensures |HeldAt(jobs, owner)| == ActiveCount(jobs, owner)
  {
    if jobs != [] {
      HeldIsActive(jobs[..|jobs| - 1], owner);
      HeldAtStep(jobs, owner);
    }
  }

  lemma EnqueueAnswer(v: Service, s: Desk, owner: nat, story: nat, base: nat, kind: Kind, outline: Option<(nat, nat)>,
          admitted: bool)
    ensures var (t, answer) := Enqueue(v, s, owner, story, base, kind, outline, admitted);
      if story < |s.stories| && s.stories[story].owner == owner && s.stories[story].editable
        && s.stories[story].revision == base
        && (outline.Some? ==> Follows(s, owner, story, outline.value.0, outline.value.1))
        && |HeldAt(s.jobs, owner)| < v.maxActive && admitted then
        && answer == Finished && t == s.(jobs := t.jobs) && |t.jobs| == |s.jobs| + 1 && s.jobs <= t.jobs
        && var j := t.jobs[|s.jobs|];
           && j.owner == owner && j.story == story && j.base == base && j.snapshot == s.stories[story].draft
           && j.kind == kind && j.limits == v.limits && j.state == Queued && j.attempts == j.epoch == j.requests == 0
           && j.lease.None? && j.outline.None? && j.approved.None?
           && j.approvedOutline == (if outline.Some? then s.jobs[outline.value.0].outline else None)
      else t == s && answer.Denied?
  {
    HeldIsActive(s.jobs, owner);
  }

  // ---- reserving and closing ----

  // The lease is the job's latest and lasts.
  ghost predicate Current(s: Desk, l: JobLease, now: int) {
    && l.job < |s.jobs| && s.jobs[l.job].state == Running && s.jobs[l.job].epoch == l.epoch
    && s.jobs[l.job].lease.Some? && now < s.jobs[l.job].lease.value
  }

  ghost predicate Writable(s: Desk, story: nat) {
    story < |s.stories| && s.stories[story].editable
  }

  ghost predicate MayReserve(s: Desk, l: JobLease, admitted: bool, clock: int) {
    && Writable(s, l.story) && Current(s, l, clock) && s.jobs[l.job].requests == 0 && admitted
    && (l.job, l.epoch) in s.attempts
  }

  // The one request of a job is reserved under a lease that is current before and after waiting.
  lemma ReserveAnswer(s: Desk, l: JobLease, admitted: bool, later: int)
    ensures var clock := if s.now < later then later else s.now;
      var (t, answer) := ReserveCall(s, l, admitted, later);
      if MayReserve(s, l, admitted, clock) then
        && answer == Finished && t.now == clock && t.stories == s.stories && t.proposals == s.proposals
        && t.jobs == s.jobs[l.job := s.jobs[l.job].(requests := 1)]
        && t.attempts == s.attempts[(l.job, l.epoch) :=
            s.attempts[(l.job, l.epoch)].(reserved := true, state := Requested)]
      else
        && answer in {Nothing, Denied(Unavailable), Denied(UsageLimit), Denied(LeaseExpired)}
        && t == s.(now := t.now)
  {
  }

  // The attempt's row once it is over
  ghost predicate AttemptEnds(s: Desk, t: Desk, job: nat, epoch: nat, state: AttemptState) {
    && t.attempts.Keys == s.attempts.Keys
    && (forall key :: key in s.attempts && key != (job, epoch) ==> t.attempts[key] == s.attempts[key])
    && (epoch != 0 && (job, epoch) in s.attempts ==>
          t.attempts[(job, epoch)] == s.attempts[(job, epoch)].(state := state, finished := Some(s.now)))
  }

  // A result is stored under the current lease of a job whose request was reserved.
  lemma SucceedAnswer(s: Desk, l: JobLease, proposal: Option<Proposal>, outline: Option<string>, u: Usage)
    ensures var (t, answer) := Succeed(s, l, proposal, outline, u);
      if Writable(s, l.story) && Current(s, l, s.now) && s.jobs[l.job].requests == 1 then
        && answer == Finished && t.stories == s.stories && t.now == s.now && |t.jobs| == |s.jobs|
        && (forall i :: 0 <= i < |s.jobs| && i != l.job ==> t.jobs[i] == s.jobs[i])
        && var (j, k) := (s.jobs[l.job], t.jobs[l.job]);
           && k == j.(state := Succeeded, lease := None, usage := u, outline := k.outline,
               outlineRevision := k.outlineRevision)
           && (if outline.Some? then k.outline == outline && k.outlineRevision == 1
               else k.outline == j.outline && k.outlineRevision == j.outlineRevision)
           && t.proposals == s.proposals +
               (if proposal.Some? then [StoredProposal(l.job, j.story, j.base, proposal.value, None)] else [])
           && AttemptEnds(s, t, l.job, j.epoch, Completed)
      else t == s && answer in {Nothing, Denied(Unavailable), Denied(NotReserved)}
  {
  }

  lemma FailAnswer(s: Desk, l: JobLease, u: Usage)
    ensures var (t, answer) := Fail(s, l, u);
      if Current(s, l, s.now) then
        && answer == Finished && t == s.(jobs := t.jobs, attempts := t.attempts)
        && t.jobs == s.jobs[l.job := s.jobs[l.job].(state := Failed, lease := None, usage := u)]
        && AttemptEnds(s, t, l.job, l.epoch, Errored)
      else t == s && answer == Nothing
  {
  }

  // A job that is not over is cancelled by its owner, and whoever works on it is fenced.
  lemma CancelAnswer(s: Desk, owner: nat, job: nat)
    ensures var (t, answer) := Cancel(s, owner, job);
      if job < |s.jobs| && Unfinished(s.jobs[job], owner) then
        && answer == Finished && t == s.(jobs := t.jobs, attempts := t.attempts)
        && t.jobs == s.jobs[job := s.jobs[job].(state := Cancelled, lease := None, epoch := s.jobs[job].epoch + 1)]
        && AttemptEnds(s, t, job, s.jobs[job].epoch, Withdrawn)
      else t == s && answer == (if job < |s.jobs| && s.jobs[job].owner == owner then Finished else Denied(NotFound))
  {
  }

  // A finished outline is approved as it is, or edited and with that no longer approved.
  lemma OutlineAnswer(s: Desk, owner: nat, job: nat, expected: nat, text: Option<string>)
    ensures var (t, answer) := EditOutline(s, owner, job, expected, text);
      if job < |s.jobs| && s.jobs[job].owner == owner && Writable(s, s.jobs[job].story)
        && s.jobs[job].kind == Outline && s.jobs[job].state == Succeeded && s.jobs[job].outline.Some?
        && s.jobs[job].outlineRevision == expected then
        && answer == Finished && t == s.(jobs := t.jobs)
        && t.jobs == s.jobs[job :=
            if text.None? then s.jobs[job].(approved := Some(expected))
            else s.jobs[job].(outline := text, outlineRevision := expected + 1, approved := None)]
      else t == s && answer.Denied?
  {
  }

  // What an attempt has used only grows, and is recorded for attempts that have reserved their request.
  lemma UsageAnswer(s: Desk, l: JobLease, u: Usage)
    ensures var t := RecordUsage(s, l, u);
      if l.job < |s.jobs| && (l.job, l.epoch) in s.attempts && s.attempts[(l.job, l.epoch)].reserved then
        var (a, b) := (s.jobs[l.job].usage, t.jobs[l.job].usage);
        && t == s.(jobs := s.jobs[l.job := s.jobs[l.job].(usage := b)])
        && b.input in {a.input, u.input} && a.input <= b.input && u.input <= b.input
        && b.output in {a.output, u.output} && a.output <= b.output && u.output <= b.output
        && (b.complete <==> a.complete || u.complete)
      else t == s
  {
  }

  // ---- what a worker makes of the model's output ----

  lemma {:induction false} PreparedCheck(d: Draft, gs: seq<Generated>, findings: seq<Finding>,
          validate: Json -> Option<Draft>)
    ensures var r := Prepare(d, gs, findings, true, false, validate);
      r.Ok? ==> r.value.0 == Proposal([], findings + Refusals(gs))
  {
    var policies := Policies(Dump(d), d.policies, map[]);
    if policies.Ok? { CheckAnswer(d, policies.value, Start(d, policies.value, false, findings), gs); }
  }

  // An outline job yields its outline, with a proposal for findings only; the other kinds yield a proposal and
  // no outline. A check proposes no change, and only making a draft concrete supplies its schema.
  lemma ProduceAnswer(v: Service, l: JobLease, o: Output)
    ensures var r := Produce(v, l, o);
      match l.kind
      case Outline =>
        && (o.outline.None? || o.changes != [] ==> r.Err?)
        && (r.Ok? ==> r.value.1 == o.outline)
        && (r.Ok? ==> r.value.0 == if o.findings == [] then None else Some(Proposal([], o.findings)))
      case Check =>
        && (o.outline.Some? ==> r.Err?)
        && (r.Ok? ==> r.value == (Some(Proposal([], o.findings + Refusals(o.changes))), None))
      case _ =>
        && (o.outline.Some? ==> r.Err?)
        && (o.outline.None? ==>
              match Prepare(l.snapshot, o.changes, o.findings, false, l.kind == Concretize, v.validate)
              case Ok(prepared) => r == Ok((Some(prepared.0), None))
              case Err(code) => r == Err(code))
  {
    if l.kind.Outline? || l.kind.Check? {
      PreparedCheck(l.snapshot, o.changes, o.findings, v.validate);
      assert o.findings + [] == o.findings;
    }
  }
}
