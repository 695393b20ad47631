/** What the authoring queue guarantees over whole runs, and what it means for applied proposals. */
module JobLaws {
  import opened Outcomes
  import opened JsonValues
  import opened Patch
  import opened Proposals
  import opened ProposalLaws
  import opened SelectionLaws
  import opened References
  import opened Jobs
  import opened JobProtocol

  function Initial(now: int): System {
    System(Desk(now, [], map[], [], []), {})
  }

  ghost predicate Next(v: Service, s: System, t: System) {
    exists step :: Enabled(s, step) && t == Perform(v, s, step)
  }

  ghost predicate Behavior(v: Service, run: seq<System>) {
    && v.limits.maxAttempts >= 1
    && run != [] && (exists now :: run[0] == Initial(now))
    && forall i, j :: 0 <= i && j == i + 1 && j < |run| ==> Next(v, run[i], run[j])
  }

  lemma NextKeeps(v: Service, s: System, t: System)
    requires Invariant(v, RulesOf(v), s) && Next(v, s, t) && v.limits.maxAttempts >= 1
    ensures Invariant(v, RulesOf(v), t) && Evolves(s.desk, t.desk)
  {
    var step :| Enabled(s, step) && t == Perform(v, s, step);
    StepKeeps(v, RulesOf(v), s, step);
  }

  // The invariant holds in every state of every run.
  lemma {:induction false} AlwaysInvariant(v: Service, run: seq<System>, i: nat)
    requires Behavior(v, run) && i < |run|
    ensures Invariant(v, RulesOf(v), run[i])
    ensures i > 0 ==> Evolves(run[i - 1].desk, run[i].desk)
  {
    if i > 0 {
      AlwaysInvariant(v, run, i - 1);
      assert Next(v, run[i - 1], run[i]);
      NextKeeps(v, run[i - 1], run[i]);
    }
  }

  lemma EachStepEvolves(v: Service, run: seq<System>)
    requires Behavior(v, run)
    ensures forall a, b :: 0 <= a && b == a + 1 && b < |run| ==> Evolves(run[a].desk, run[b].desk)
  {
    forall a, b | 0 <= a && b == a + 1 && b < |run| ensures Evolves(run[a].desk, run[b].desk) {
      AlwaysInvariant(v, run, b);
    }
  }

  lemma {:induction false} EvolvesChain(run: seq<System>, i: nat, j: nat)
    requires forall a, b :: 0 <= a && b == a + 1 && b < |run| ==> Evolves(run[a].desk, run[b].desk)
    requires i <= j < |run|
    ensures Evolves(run[i].desk, run[j].desk)
  {
    if i == j {
      EvolvesSelf(run[i].desk);
    } else {
      EvolvesChain(run, i, j - 1);
      EvolvesOn(run[i].desk, run[j - 1].desk, run[j].desk);
    }
  }

  // Job inputs, reserved requests, terminal states, revision payloads and decisions are never taken back.
  lemma AlwaysEvolves(v: Service, run: seq<System>, i: nat, j: nat)
    requires Behavior(v, run) && i <= j < |run|
    ensures Evolves(run[i].desk, run[j].desk)
  {
    EachStepEvolves(v, run);
    EvolvesChain(run, i, j);
  }

  // ---- the queue ----

  // A job runs exactly while it has a lease, stays within its attempts, makes at most one request,
  // and has an unfinished attempt exactly for the epoch it runs in.
  lemma QueueIsConsistent(v: Service, run: seq<System>, k: nat, i: nat, e: nat)
    requires Behavior(v, run) && k < |run| && i < |run[k].desk.jobs|
    ensures var d, j := run[k].desk, run[k].desk.jobs[i];
      && (j.state.Running? <==> j.lease.Some?)
      && j.attempts <= j.limits.maxAttempts && j.requests <= 1
      && ((i, e) in d.attempts && d.attempts[(i, e)].finished.None? <==> j.state.Running? && e == j.epoch)
  {
    AlwaysInvariant(v, run, k);
    JobAt(v, RulesOf(v), run[k].desk, i);
  }

  lemma {:induction false} LimitsHold(v: Service, run: seq<System>, k: nat, owner: nat)
    requires Behavior(v, run) && k < |run|
    ensures RunningCount(run[k].desk.jobs) <= v.maxRunning && ActiveCount(run[k].desk.jobs, owner) <= v.maxActive
  {
    AlwaysInvariant(v, run, k);
  }

  // A terminal job stays as it is, and a job whose request was reserved is never queued or leased again.
  lemma ReservedIsFinal(v: Service, run: seq<System>, a: nat, b: nat, i: nat)
    requires Behavior(v, run) && a <= b < |run| && i < |run[a].desk.jobs|
    ensures i < |run[b].desk.jobs|
    ensures !Active(run[a].desk.jobs[i]) ==>
      run[b].desk.jobs[i].state == run[a].desk.jobs[i].state && run[b].desk.jobs[i].epoch == run[a].desk.jobs[i].epoch
    ensures run[a].desk.jobs[i].requests > 0 ==>
      !run[b].desk.jobs[i].state.Queued? && run[b].desk.jobs[i].requests == 1
        && run[b].desk.jobs[i].attempts == run[a].desk.jobs[i].attempts
  {
    AlwaysInvariant(v, run, a);
    AlwaysInvariant(v, run, b);
    JobAt(v, RulesOf(v), run[a].desk, i);
    AlwaysEvolves(v, run, a, b);
    assert JobEvolves(run[a].desk.jobs[i], run[b].desk.jobs[i]);
    JobAt(v, RulesOf(v), run[b].desk, i);
  }

  // No job gets a second physical request, whichever leases the requests come from.
  lemma OneRequest(v: Service, run: seq<System>, a: nat, b: nat, l: JobLease, m: JobLease, admitted: bool, later: int,
          again: bool, latest: int)
    requires Behavior(v, run) && a < b < |run| && l.job == m.job
    requires l in run[a].leases && run[a + 1] == Perform(v, run[a], ReserveStep(l, admitted, later))
    requires ReserveCall(run[a].desk, l, admitted, later).1.Finished?
    ensures !ReserveCall(run[b].desk, m, again, latest).1.Finished?
  {
    assert run[a + 1].desk.jobs[l.job].requests == 1;
    ReservedIsFinal(v, run, a + 1, b, l.job);
  }

  // A result only counts for the latest epoch while its lease lasts, and closes the job.
  lemma ResultsAreFenced(v: Service, run: seq<System>, k: nat, l: JobLease, o: Output, u: Usage)
    requires Behavior(v, run) && k < |run| && l in run[k].leases
    ensures var (t, answer) := Deliver(v, run[k].desk, l, o, u);
      if answer.Finished? then
        && l.job < |run[k].desk.jobs| && l.job < |t.jobs| && Fenced(run[k].desk, l, run[k].desk.now)
        && run[k].desk.jobs[l.job].epoch == l.epoch && !Active(t.jobs[l.job])
      else t == run[k].desk
  {
    AlwaysInvariant(v, run, k);
    assert LeaseOk(run[k].desk, l);
    var produced := Produce(v, l, o);
    if produced.Err? {
      FailCloses(run[k].desk, l, u);
    } else {
      SucceedCloses(run[k].desk, l, produced.value.0, produced.value.1, u);
    }
  }

  lemma FailCloses(s: Desk, l: JobLease, u: Usage)
    ensures var (t, answer) := Fail(s, l, u);
      if answer.Finished? then Fenced(s, l, s.now) && l.job < |t.jobs| && !Active(t.jobs[l.job]) else t == s
  {
  }

  lemma SucceedCloses(s: Desk, l: JobLease, proposal: Option<Proposal>, outline: Option<string>, u: Usage)
    ensures var (t, answer) := Succeed(s, l, proposal, outline, u);
      if answer.Finished? then Fenced(s, l, s.now) && l.job < |t.jobs| && !Active(t.jobs[l.job]) else t == s
  {
  }

  lemma ClaimRaisesEpoch(v: Service, g: Rules, s: Desk, busy: set<nat>, l: JobLease)
    requires DeskOk(v, g, s) && LeaseOk(s, l)
    requires Claim(v, s, busy).1.Granted? && Claim(v, s, busy).1.lease.job == l.job
    ensures l.job < |Claim(v, s, busy).0.jobs| && Claim(v, s, busy).0.jobs[l.job].epoch > l.epoch
  {
    ExpireFromKeeps(v, g, s, busy);
    assert JobEvolves(s.jobs[l.job], ExpireFrom(s, busy, 0).jobs[l.job]);
  }

  // A claim gives out an epoch above all earlier ones, so every earlier lease of the job is fenced for good.
  lemma ClaimFencesForever(v: Service, run: seq<System>, a: nat, b: nat, busy: set<nat>, l: JobLease, now: int)
    requires Behavior(v, run) && a < b < |run| && l in run[a].leases
    requires run[a + 1] == Perform(v, run[a], ClaimStep(busy))
    requires Claim(v, run[a].desk, busy).1.Granted? && Claim(v, run[a].desk, busy).1.lease.job == l.job
    ensures !Fenced(run[b].desk, l, now)
  {
    AlwaysInvariant(v, run, a);
    ClaimRaisesEpoch(v, RulesOf(v), run[a].desk, busy, l);
    AlwaysEvolves(v, run, a + 1, b);
    assert JobEvolves(run[a + 1].desk.jobs[l.job], run[b].desk.jobs[l.job]);
  }

  // ---- proposals ----

  // Every stored proposal was prepared from the payload of its job's base revision, which is still
  // that revision's payload in every later state.
  lemma ProposalsMatchSnapshots(v: Service, run: seq<System>, a: nat, b: nat, n: nat)
    requires Behavior(v, run) && a <= b < |run| && n < |run[a].desk.proposals|
    ensures var p := run[a].desk.proposals[n];
      && p.job < |run[a].desk.jobs| && p.story < |run[b].desk.stories|
        && 1 <= p.base <= |run[b].desk.stories[p.story].history|
      && run[b].desk.stories[p.story].history[p.base - 1] == run[a].desk.jobs[p.job].snapshot
      && Made(v, run[a].desk.jobs[p.job].snapshot, p.proposal)
  {
    AlwaysDesk(v, run, a);
    AlwaysEvolves(v, run, a, b);
    SnapshotMade(v, run[a].desk, run[b].desk, n);
  }

  lemma SnapshotMade(v: Service, s: Desk, t: Desk, n: nat)
    requires DeskOk(v, RulesOf(v), s) && Evolves(s, t) && n < |s.proposals|
    ensures var p := s.proposals[n];
      && p.job < |s.jobs| && p.story < |t.stories| && 1 <= p.base <= |t.stories[p.story].history|
      && t.stories[p.story].history[p.base - 1] == s.jobs[p.job].snapshot
      && Made(v, s.jobs[p.job].snapshot, p.proposal)
  {
    SnapshotRemains(v, RulesOf(v), s, t, n);
    MadeOf(v, s.jobs[s.proposals[n].job].snapshot, s.proposals[n].proposal);
  }

  lemma AlwaysDesk(v: Service, run: seq<System>, a: nat)
    requires Behavior(v, run) && a < |run|
    ensures DeskOk(v, RulesOf(v), run[a].desk)
  {
    AlwaysInvariant(v, run, a);
  }

  lemma MadeOf(v: Service, d: Draft, p: Proposal)
    requires (d, p) in RulesOf(v).made
    ensures Made(v, d, p)
  {
  }

  lemma SnapshotRemains(v: Service, g: Rules, s: Desk, t: Desk, n: nat)
    requires DeskOk(v, g, s) && Evolves(s, t) && n < |s.proposals|
    ensures var p := s.proposals[n];
      && p.job < |s.jobs| && p.story < |t.stories| && 1 <= p.base <= |t.stories[p.story].history|
      && t.stories[p.story].history[p.base - 1] == s.jobs[p.job].snapshot
      && (s.jobs[p.job].snapshot, p.proposal) in g.made
  {
    var p := s.proposals[n];
    assert ProposalOk(g, s, p);
    JobAt(v, g, s, p.job);
    assert StoryEvolves(s.stories[p.story], t.stories[p.story]);
  }

  // A proposal is applied at most once.
  lemma AppliedOnce(v: Service, run: seq<System>, a: nat, b: nat, owner: nat, story: nat, n: nat, expected: nat,
          ids: set<nat>, owner2: nat, story2: nat, expected2: nat, ids2: set<nat>)
    requires Behavior(v, run) && a < b < |run|
    requires run[a + 1] == Perform(v, run[a], ApplyStep(owner, story, n, expected, ids))
    requires Apply(v, run[a].desk, owner, story, n, expected, ids).1.Revised?
    ensures !Apply(v, run[b].desk, owner2, story2, n, expected2, ids2).1.Revised?
  {
    AlwaysEvolves(v, run, a + 1, b);
    assert run[a + 1].desk.proposals[n].decision.Some?;
    assert ProposalEvolves(run[a + 1].desk.proposals[n], run[b].desk.proposals[n]);
  }

  // The payload is stored for what adopting the selection into the snapshot makes of it.
  ghost predicate AdoptedInto(v: Service, snapshot: Draft, p: StoredProposal, adopted: set<nat>, payload: Draft) {
    exists d :: Adopt(snapshot, p.proposal.changes, adopted, v.validate) == Ok(d)
      && payload == Stored(v, p.story, p.base + 1, d)
  }

  lemma AdoptedByRules(v: Service, snapshot: Draft, p: StoredProposal, adopted: set<nat>, payload: Draft, d: Draft)
    requires (snapshot, p.proposal, adopted, d) in RulesOf(v).adopted
      && (p.story, p.base + 1, d, payload) in RulesOf(v).stored
    ensures AdoptedInto(v, snapshot, p, adopted, payload)
  {
  }

  // Each decision records an adoption into the exact snapshot the proposal was made from.
  lemma DecisionsAreAdoptions(v: Service, run: seq<System>, k: nat, n: nat)
    requires Behavior(v, run) && k < |run| && n < |run[k].desk.proposals| && run[k].desk.proposals[n].decision.Some?
    ensures var s, p := run[k].desk, run[k].desk.proposals[n];
      && p.job < |s.jobs| && p.story < |s.stories| && p.base < |s.stories[p.story].history|
      && p.decision.value.revision == p.base + 1
      && AdoptedInto(v, s.jobs[p.job].snapshot, p, p.decision.value.adopted, s.stories[p.story].history[p.base])
  {
    AlwaysDesk(v, run, k);
    var s, p := run[k].desk, run[k].desk.proposals[n];
    assert ProposalOk(RulesOf(v), s, p);
    DecisionAt(v, s.stories, s.jobs[p.job], p);
  }

  lemma DecisionAt(v: Service, stories: seq<Story>, j: Job, p: StoredProposal)
    requires AppliedOk(RulesOf(v), stories, j, p) && p.decision.Some?
    ensures AdoptedInto(v, j.snapshot, p, p.decision.value.adopted, stories[p.story].history[p.base])
  {
    var d := AppliedBy(RulesOf(v), stories, j, p);
    AdoptedByRules(v, j.snapshot, p, p.decision.value.adopted, stories[p.story].history[p.base], d);
  }

  lemma AppliedBy(g: Rules, stories: seq<Story>, j: Job, p: StoredProposal) returns (d: Draft)
    requires AppliedOk(g, stories, j, p) && p.decision.Some?
    ensures (j.snapshot, p.proposal, p.decision.value.adopted, d) in g.adopted
      && (p.story, p.base + 1, d, stories[p.story].history[p.base]) in g.stored
  {
    d :| (j.snapshot, p.proposal, p.decision.value.adopted, d) in g.adopted
      && (p.story, p.base + 1, d, stories[p.story].history[p.base]) in g.stored;
  }

  function ScenarioRef(d: Draft): Option<Json> {
    if "scenario_ref" in d.scenario then Some(d.scenario["scenario_ref"]) else None
  }

  // The draft model leaves the scenario's reference as it is.
  ghost predicate KeepsRefs(v: Service) {
    forall payload, d :: v.validate(payload) == Some(d) ==>
      ReadAt(payload, ["scenario", "scenario_ref"]) == ScenarioRef(d)
  }

  // The draft carries its story's own reference and version 1, and no row of its collections lacks its ref.
  ghost predicate OwnDraft(v: Service, story: nat, d: Draft) {
    && ScenarioRef(d) == Some(Str(v.ownRef(story)))
    && "version" in d.scenario && d.scenario["version"] == Num(1) && Complete(d.scenario)
  }

  // So does every draft, and every revision of it there has been.
  ghost predicate OwnRefs(v: Service, stories: seq<Story>) {
    forall i :: 0 <= i < |stories| ==>
      OwnDraft(v, i, stories[i].draft)
        && forall r :: 0 <= r < |stories[i].history| ==> OwnDraft(v, i, stories[i].history[r])
  }

  lemma StoredIsOwn(v: Service, story: nat, revision: nat, d: Draft)
    ensures OwnDraft(v, story, Stored(v, story, revision, d))
  {
    var values := d.scenario["scenario_ref" := Str(v.ownRef(story))]["version" := Num(1)];
    FillCompletes(values, v.supply(story, revision));
    OwnByFilling(v, story, values, Stored(v, story, revision, d));
  }

  lemma OwnByFilling(v: Service, story: nat, values: map<string, Json>, stored: Draft)
    requires "scenario_ref" in values && values["scenario_ref"] == Str(v.ownRef(story))
    requires "version" in values && values["version"] == Num(1) && Complete(stored.scenario)
    requires forall key :: key !in FILLED && key in values ==>
      key in stored.scenario && stored.scenario[key] == values[key]
    ensures OwnDraft(v, story, stored)
  {
  }

  // The story has one more revision, which is its draft and was stored for some payload.
  ghost predicate Grown(v: Service, i: nat, older: seq<Draft>, st: Story) {
    exists revision, d :: st.draft == Stored(v, i, revision, d) && st.history == older + [st.draft]
  }

  ghost predicate SameDrafts(a: Story, b: Story) {
    a.draft == b.draft && a.history == b.history
  }

  // What a step makes of the stories: a new one, a revision of one, or nothing but its release
  ghost predicate DraftsAfter(v: Service, s: Desk, t: Desk) {
    forall i :: 0 <= i < |t.stories| ==>
      || (i < |s.stories| && SameDrafts(t.stories[i], s.stories[i]))
      || Grown(v, i, if i < |s.stories| then s.stories[i].history else [], t.stories[i])
  }

  lemma DraftsAfterRevision(v: Service, s: Desk, t: Desk, story: nat, d: Draft)
    requires story < |s.stories| && Revise(v, s, story, d).Ok?
    requires t.stories == s.stories[story := Revise(v, s, story, d).value]
    ensures DraftsAfter(v, s, t)
  {
    assert t.stories[story].draft == Stored(v, story, s.stories[story].revision + 1, d);
  }

  lemma DraftsAfterSave(v: Service, s: Desk, owner: nat, story: nat, expected: nat, d: Draft)
    ensures DraftsAfter(v, s, Save(v, s, owner, story, expected, d).0)
  {
    var (t, answer) := Save(v, s, owner, story, expected, d);
    if answer.Revised? { DraftsAfterRevision(v, s, t, story, d); }
  }

  lemma DraftsAfterApply(v: Service, s: Desk, owner: nat, story: nat, n: nat, expected: nat, ids: set<nat>)
    ensures DraftsAfter(v, s, Apply(v, s, owner, story, n, expected, ids).0)
  {
    var (t, answer) := Apply(v, s, owner, story, n, expected, ids);
    if answer.Revised? {
      ApplyRevises(v, s, owner, story, n, expected, ids);
      var d := Adopt(s.stories[story].draft, s.proposals[n].proposal.changes, ids, v.validate).value;
      DraftsAfterRevision(v, s, t, story, d);
    } else {
      ApplyRefuses(v, s, owner, story, n, expected, ids);
    }
  }

  lemma DraftsAfterRestore(v: Service, s: Desk, owner: nat, story: nat, expected: nat, revision: nat)
    ensures DraftsAfter(v, s, Restore(v, s, owner, story, expected, revision).0)
  {
    if OwnsStory(s, owner, story) && 1 <= revision <= |s.stories[story].history| {
      DraftsAfterSave(v, s, owner, story, expected, s.stories[story].history[revision - 1]);
    }
  }

  lemma DraftsAfterCreation(v: Service, s: Desk, owner: nat, d: Draft)
    ensures DraftsAfter(v, s, Created(v, s, owner, d))
  {
    assert Created(v, s, owner, d).stories[|s.stories|].draft == Stored(v, |s.stories|, 1, d);
  }

  lemma StoriesAfterWriting(v: Service, s: Desk, step: Step)
    requires step.CreateStory? || step.SaveStep? || step.RestoreStep? || step.ApplyStep?
    ensures DraftsAfter(v, s, DeskStep(v, s, step).0)
  {
    match step
    case CreateStory(owner, d) => DraftsAfterCreation(v, s, owner, d);
    case SaveStep(owner, story, expected, d) => DraftsAfterSave(v, s, owner, story, expected, d);
    case RestoreStep(owner, story, expected, revision) => DraftsAfterRestore(v, s, owner, story, expected, revision);
    case ApplyStep(owner, story, n, expected, ids) => DraftsAfterApply(v, s, owner, story, n, expected, ids);
  }

  lemma StoriesAfterOther(v: Service, s: Desk, step: Step)
    requires !(step.CreateStory? || step.SaveStep? || step.RestoreStep? || step.ApplyStep?)
    requires step.Moderate? ==> step.story < |s.stories|
    ensures DraftsAfter(v, s, DeskStep(v, s, step).0)
  {
  }

  lemma StoriesAfter(v: Service, s: System, step: Step)
    requires Enabled(s, step)
    ensures DraftsAfter(v, s.desk, Perform(v, s, step).desk)
  {
    if step.CreateStory? || step.SaveStep? || step.RestoreStep? || step.ApplyStep? {
      StoriesAfterWriting(v, s.desk, step);
    } else {
      StoriesAfterOther(v, s.desk, step);
    }
  }

  lemma StepOwnRefs(v: Service, s: System, t: System)
    requires Next(v, s, t) && OwnRefs(v, s.desk.stories)
    ensures OwnRefs(v, t.desk.stories)
  {
    var step :| Enabled(s, step) && t == Perform(v, s, step);
    StoriesAfter(v, s, step);
    var a, b := s.desk.stories, t.desk.stories;
    forall i | 0 <= i < |b|
      ensures OwnDraft(v, i, b[i].draft) && forall r :: 0 <= r < |b[i].history| ==> OwnDraft(v, i, b[i].history[r])
    {
      if !(i < |a| && SameDrafts(b[i], a[i])) { GrownIsOwn(v, i, if i < |a| then a[i].history else [], b[i]); }
    }
  }

  lemma GrownIsOwn(v: Service, i: nat, older: seq<Draft>, st: Story)
    requires Grown(v, i, older, st) && forall r :: 0 <= r < |older| ==> OwnDraft(v, i, older[r])
    ensures OwnDraft(v, i, st.draft) && forall r :: 0 <= r < |st.history| ==> OwnDraft(v, i, st.history[r])
  {
    var revision, d :| st.draft == Stored(v, i, revision, d) && st.history == older + [st.draft];
    StoredIsOwn(v, i, revision, d);
  }

  lemma {:induction false} AlwaysOwnRefs(v: Service, run: seq<System>, k: nat)
    requires Behavior(v, run) && k < |run|
    ensures OwnRefs(v, run[k].desk.stories)
  {
    if k > 0 {
      AlwaysOwnRefs(v, run, k - 1);
      assert Next(v, run[k - 1], run[k - 1 + 1]);
      StepOwnRefs(v, run[k - 1], run[k]);
    }
  }

  lemma DumpRef(d: Draft)
    ensures ReadAt(Dump(d), ["scenario", "scenario_ref"]) == ScenarioRef(d)
  {
    ChildIsSee(Dump(d), "scenario");
    ReadField(Obj(d.scenario), "scenario_ref");
    assert ["scenario", "scenario_ref"][1..] == ["scenario_ref"];
  }

  lemma AdoptionKeepsRef(v: Service, base: Draft, changes: seq<Change>, ids: set<nat>)
    requires KeepsRefs(v) && Adopt(base, changes, ids, v.validate).Ok?
    ensures ScenarioRef(Adopt(base, changes, ids, v.validate).value) == ScenarioRef(base)
  {
    AdoptionProtects(base, changes, ids, v.validate);
    var payload :| v.validate(payload) == Some(Adopt(base, changes, ids, v.validate).value)
      && IdentityKept(Dump(base), payload);
    DumpRef(base);
    assert "scenario_ref" in IDENTITY;
  }

  // Any selection of a prepared proposal is adopted into its snapshot unless the final model
  // refuses it or it moves a fixed path.
  lemma MadeAdopts(v: Service, d: Draft, p: Proposal, ids: set<nat>)
    requires Made(v, d, p) && ids <= Ids(p.changes)
    ensures var adopted := Adopt(d, p.changes, ids, v.validate);
      (adopted.Err? ==> adopted.code in {InvalidDraft, FixedField})
        && (FixedStays(d, p.changes) ==> adopted != Err(FixedField))
  {
    var gs, fs, checkOnly, concretize :| Prepare(d, gs, fs, checkOnly, concretize, v.validate).Ok? &&
      Prepare(d, gs, fs, checkOnly, concretize, v.validate).value.0 == p;
    SelectionAnswers(d, gs, fs, checkOnly, concretize, v.validate, ids);
  }

  // Such an adoption keeps the scenario's reference or is refused.
  lemma AdoptionSettles(v: Service, d: Draft, p: Proposal, ids: set<nat>, adopted: Result<Draft>)
    requires KeepsRefs(v) && Made(v, d, p) && ids <= Ids(p.changes)
    requires adopted == Adopt(d, p.changes, ids, v.validate)
    ensures if adopted.Ok? then ScenarioRef(adopted.value) == ScenarioRef(d)
      else adopted.code in {InvalidDraft, FixedField}
    ensures FixedStays(d, p.changes) ==> adopted != Err(FixedField)
  {
    MadeAdopts(v, d, p, ids);
    if adopted.Ok? { AdoptionKeepsRef(v, d, p.changes, ids); }
  }

  // The answer of apply when the adoption itself is settled
  lemma ApplyAnswer(v: Service, s: Desk, owner: nat, story: nat, n: nat, ids: set<nat>, adopted: Result<Draft>)
    requires n < |s.proposals| && s.proposals[n].story == story && s.proposals[n].decision.None?
    requires OwnsStory(s, owner, story) && s.stories[story].editable && s.proposals[n].base == s.stories[story].revision
    requires adopted == Adopt(s.stories[story].draft, s.proposals[n].proposal.changes, ids, v.validate)
    requires adopted.Ok? ==> ScenarioRef(adopted.value) == Some(Str(v.ownRef(story)))
    ensures Apply(v, s, owner, story, n, s.stories[story].revision, ids).1 ==
      if adopted.Ok? then Revised(s.stories[story].revision + 1) else Denied(Rejected(adopted.code))
  {
  }

  // An undecided proposal at its story's current revision: what apply does with any selection of it
  ghost predicate Applicable(s: Desk, owner: nat, story: nat, n: nat, ids: set<nat>) {
    && n < |s.proposals| && s.proposals[n].story == story && s.proposals[n].decision.None?
    && OwnsStory(s, owner, story) && s.stories[story].editable && s.proposals[n].base == s.stories[story].revision
    && ids <= Ids(s.proposals[n].proposal.changes)
  }

  // The story is revised, or the final model refuses the draft, or a fixed path moves that is movable.
  ghost predicate Clean(s: Desk, story: nat, n: nat, answer: Answer)
    requires story < |s.stories| && n < |s.proposals|
  {
    && answer in {Revised(s.stories[story].revision + 1), Denied(Rejected(InvalidDraft)), Denied(Rejected(FixedField))}
    && (FixedStays(s.stories[story].draft, s.proposals[n].proposal.changes) ==> answer != Denied(Rejected(FixedField)))
  }

  // Applying such a proposal never meets a conflict, an overlap or an immutable reference: it
  // revises the story unless the final model refuses the draft or a fixed path moves, and none moves
  // unless one is movable by the proposal's changes.
  lemma ApplyNeverConflicts(v: Service, run: seq<System>, k: nat, owner: nat, story: nat, n: nat, ids: set<nat>)
    requires Behavior(v, run) && k < |run| && KeepsRefs(v) && Applicable(run[k].desk, owner, story, n, ids)
    ensures Clean(run[k].desk, story, n,
        Apply(v, run[k].desk, owner, story, n, run[k].desk.stories[story].revision, ids).1)
  {
    SnapshotOf(v, run, k, n);
    AlwaysOwnRefs(v, run, k);
    AppliesCleanly(v, run[k].desk, owner, story, n, ids);
  }

  lemma AppliesCleanly(v: Service, s: Desk, owner: nat, story: nat, n: nat, ids: set<nat>)
    requires KeepsRefs(v) && Applicable(s, owner, story, n, ids) && OwnRefs(v, s.stories)
    requires Made(v, s.stories[story].draft, s.proposals[n].proposal)
    ensures Clean(s, story, n, Apply(v, s, owner, story, n, s.stories[story].revision, ids).1)
  {
    var adopted := Adopt(s.stories[story].draft, s.proposals[n].proposal.changes, ids, v.validate);
    AdoptionSettles(v, s.stories[story].draft, s.proposals[n].proposal, ids, adopted);
    ApplyAnswer(v, s, owner, story, n, ids, adopted);
  }

  // A proposal at its story's current revision was made from the current draft.
  lemma SnapshotOf(v: Service, run: seq<System>, k: nat, n: nat)
    requires Behavior(v, run) && k < |run| && n < |run[k].desk.proposals|
    requires run[k].desk.proposals[n].story < |run[k].desk.stories|
    requires run[k].desk.proposals[n].base == run[k].desk.stories[run[k].desk.proposals[n].story].revision
    ensures Made(v, run[k].desk.stories[run[k].desk.proposals[n].story].draft, run[k].desk.proposals[n].proposal)
  {
    ProposalsMatchSnapshots(v, run, k, k, n);
    AlwaysInvariant(v, run, k);
    AppliedToSnapshot(v, RulesOf(v), run[k].desk, run[k].desk.proposals[n].story, n);
  }
}
