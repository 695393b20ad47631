/**
 What creating, saving, restoring and applying make of a story's draft, in every state the authoring
 desk can be in.
 */
module DraftLaws {
  import opened Outcomes
  import opened JsonValues
  import opened Proposals
  import opened References
  import opened Jobs
  import opened JobProtocol
  import opened JobLaws

  // ---- drafts ----

  // The owner may revise the story at this revision.
  ghost predicate MayRevise(s: Desk, owner: nat, story: nat, expected: nat) {
    && story < |s.stories| && s.stories[story].owner == owner && s.stories[story].editable
    && s.stories[story].revision == expected
  }

  // The draft has no reference of its own or the story's.
  ghost predicate RefFits(v: Service, story: nat, d: Draft) {
    "scenario_ref" in d.scenario ==> d.scenario["scenario_ref"] == Str(v.ownRef(story))
  }

  // Only this story has changed, by one more revision, which is its draft.
  ghost predicate OneMore(s: Desk, t: Desk, story: nat, d: Draft) {
    && story < |s.stories| == |t.stories|
    && t.jobs == s.jobs && t.attempts == s.attempts && t.now == s.now
    && (forall i :: 0 <= i < |s.stories| && i != story ==> t.stories[i] == s.stories[i])
    && var (a, b) := (s.stories[story], t.stories[story]);
       b == a.(revision := a.revision + 1, draft := d, history := a.history + [d])
  }

  // What is stored keeps all of the draft that was given: its notes, metadata and policies, and every
  // value of the scenario at its place, except for the version, which is 1, and refs that were missing.
  ghost predicate Keeps(v: Service, story: nat, given: Draft, stored: Draft) {
    && stored.notes == given.notes && stored.metadata == given.metadata && stored.policies == given.policies
    && "scenario_ref" in stored.scenario && stored.scenario["scenario_ref"] == Str(v.ownRef(story))
    && "version" in stored.scenario && stored.scenario["version"] == Num(1)
    && (forall key :: key in given.scenario ==> key in stored.scenario)
    && (forall key :: key in given.scenario && key !in {"scenario_ref", "version"} ==>
          OnlyRefsAdded(given.scenario[key], stored.scenario[key]))
    && (forall key :: key in given.scenario && key !in FILLED + {"scenario_ref", "version"} ==>
          stored.scenario[key] == given.scenario[key])
    && (forall key :: key in stored.scenario && key !in {"scenario_ref", "version"} ==> key in given.scenario)
  }

  // The same fields, to which only refs are added, and only below those that hold collections
  ghost predicate Faithful(a: map<string, Json>, b: map<string, Json>) {
    && (forall key :: key in a <==> key in b)
    && (forall key :: key in a ==> OnlyRefsAdded(a[key], b[key]))
    && (forall key :: key in a && key !in FILLED ==> b[key] == a[key])
  }

  lemma FaithfulFrom(a: map<string, Json>, b: map<string, Json>)
    requires OnlyRefsAdded(Obj(a), Obj(b))
    requires forall key :: key !in FILLED ==> (key in b <==> key in a) && (key in a ==> b[key] == a[key])
    ensures Faithful(a, b)
  {
    forall key ensures (key in a <==> key in b) && (key in a ==> OnlyRefsAdded(a[key], b[key])) {
      if key !in FILLED && key in a { OnlyRefsSelf(a[key]); }
    }
  }

  lemma FillIsFaithful(scenario: map<string, Json>, supply: nat -> string)
    ensures Faithful(scenario, FillScenario(scenario, supply))
  {
    FillKeeps(scenario, supply);
    FillCompletes(scenario, supply);
    FaithfulFrom(scenario, FillScenario(scenario, supply));
  }

  lemma ScenarioKept(v: Service, story: nat, d: Draft, values: map<string, Json>, stored: Draft)
    requires values == d.scenario["scenario_ref" := Str(v.ownRef(story))]["version" := Num(1)]
    requires Faithful(values, stored.scenario) && stored == d.(scenario := stored.scenario)
    ensures Keeps(v, story, d, stored)
  {
  }

  lemma StoredKeeps(v: Service, story: nat, revision: nat, d: Draft)
    ensures Keeps(v, story, d, Stored(v, story, revision, d))
  {
    var values := d.scenario["scenario_ref" := Str(v.ownRef(story))]["version" := Num(1)];
    FillIsFaithful(values, v.supply(story, revision));
    ScenarioKept(v, story, d, values, Stored(v, story, revision, d));
  }

  // A draft is saved exactly for its owner, at the expected revision, unless its reference is another
  // story's; what is stored keeps it.
  lemma SaveAnswer(v: Service, s: Desk, owner: nat, story: nat, expected: nat, d: Draft)
    ensures var (t, answer) := Save(v, s, owner, story, expected, d);
      if MayRevise(s, owner, story, expected) && RefFits(v, story, d) then
        && answer == Revised(expected + 1) && t.proposals == s.proposals && story < |t.stories|
        && OneMore(s, t, story, t.stories[story].draft) && Keeps(v, story, d, t.stories[story].draft)
      else t == s && answer.Denied?
  {
    if MayRevise(s, owner, story, expected) && RefFits(v, story, d) {
      StoredKeeps(v, story, expected + 1, d);
      SaveStores(v, s, owner, story, expected, d, Stored(v, story, expected + 1, d));
    } else {
      SaveDenies(v, s, owner, story, expected, d);
    }
  }

  lemma SaveStores(v: Service, s: Desk, owner: nat, story: nat, expected: nat, d: Draft, stored: Draft)
    requires MayRevise(s, owner, story, expected) && RefFits(v, story, d)
      && stored == Stored(v, story, expected + 1, d)
    ensures var (t, answer) := Save(v, s, owner, story, expected, d);
      answer == Revised(expected + 1) && t.proposals == s.proposals && OneMore(s, t, story, stored)
  {
  }

  lemma SaveDenies(v: Service, s: Desk, owner: nat, story: nat, expected: nat, d: Draft)
    requires !(MayRevise(s, owner, story, expected) && RefFits(v, story, d))
    ensures Save(v, s, owner, story, expected, d).0 == s && Save(v, s, owner, story, expected, d).1.Denied?
  {
  }

  lemma CreateAnswer(v: Service, s: Desk, owner: nat, d: Draft)
    ensures var t := Created(v, s, owner, d);
      && t == s.(stories := t.stories) && |t.stories| == |s.stories| + 1 && s.stories <= t.stories
      && var st := t.stories[|s.stories|];
         && st == Story(owner, true, 1, st.draft, [st.draft]) && Keeps(v, |s.stories|, d, st.draft)
  {
    StoredKeeps(v, |s.stories|, 1, d);
  }

  // A draft that is the story's own already is stored as it is.
  lemma OwnIsStored(v: Service, story: nat, revision: nat, d: Draft)
    requires OwnDraft(v, story, d)
    ensures Stored(v, story, revision, d) == d
  {
    assert d.scenario["scenario_ref" := Str(v.ownRef(story))]["version" := Num(1)] == d.scenario;
    CompleteStays(d.scenario, v.supply(story, revision));
  }

  // In every state of every run, a restore brings back exactly the revision asked for, as a new one.
  lemma RestoreAnswer(v: Service, run: seq<System>, k: nat, owner: nat, story: nat, expected: nat, revision: nat)
    requires Behavior(v, run) && k < |run|
    ensures var s := run[k].desk;
      var (t, answer) := Restore(v, s, owner, story, expected, revision);
      if MayRevise(s, owner, story, expected) && 1 <= revision <= |s.stories[story].history| then
        && answer == Revised(expected + 1) && t.proposals == s.proposals
        && OneMore(s, t, story, s.stories[story].history[revision - 1])
      else t == s && answer.Denied?
  {
    AlwaysOwnRefs(v, run, k);
    RestoreIn(v, run[k].desk, owner, story, expected, revision);
  }

  lemma RestoreIn(v: Service, s: Desk, owner: nat, story: nat, expected: nat, revision: nat)
    requires OwnRefs(v, s.stories)
    ensures var (t, answer) := Restore(v, s, owner, story, expected, revision);
      if MayRevise(s, owner, story, expected) && 1 <= revision <= |s.stories[story].history| then
        && answer == Revised(expected + 1) && t.proposals == s.proposals
        && OneMore(s, t, story, s.stories[story].history[revision - 1])
      else t == s && answer.Denied?
  {
    if MayRevise(s, owner, story, expected) && 1 <= revision <= |s.stories[story].history| {
      OwnIsStored(v, story, expected + 1, s.stories[story].history[revision - 1]);
    }
  }

  // What is adopted when the selection may be applied
  ghost function Adopted(v: Service, s: Desk, story: nat, n: nat, ids: set<nat>): Result<Draft>
    requires story < |s.stories| && n < |s.proposals|
  {
    Adopt(s.stories[story].draft, s.proposals[n].proposal.changes, ids, v.validate)
  }

  ghost predicate MayApply(v: Service, s: Desk, owner: nat, story: nat, n: nat, expected: nat, ids: set<nat>) {
    && MayRevise(s, owner, story, expected) && n < |s.proposals| && s.proposals[n].story == story
    && s.proposals[n].decision.None? && s.proposals[n].base == expected
    && Adopted(v, s, story, n, ids).Ok? && RefFits(v, story, Adopted(v, s, story, n, ids).value)
  }

  // Applying a selection stores what adopting it makes of the draft, and decides the proposal.
  lemma ApplyAnswer(v: Service, s: Desk, owner: nat, story: nat, n: nat, expected: nat, ids: set<nat>)
    ensures var (t, answer) := Apply(v, s, owner, story, n, expected, ids);
      if MayApply(v, s, owner, story, n, expected, ids) then
        && answer == Revised(expected + 1) && story < |t.stories| && OneMore(s, t, story, t.stories[story].draft)
        && t.proposals == s.proposals[n := s.proposals[n].(decision := Some(Decision(expected + 1, ids)))]
        && Keeps(v, story, Adopted(v, s, story, n, ids).value, t.stories[story].draft)
      else t == s && answer.Denied?
  {
    if MayApply(v, s, owner, story, n, expected, ids) {
      var d := Adopted(v, s, story, n, ids).value;
      StoredKeeps(v, story, expected + 1, d);
      ApplyStores(v, s, owner, story, n, expected, ids, d, Stored(v, story, expected + 1, d));
    } else {
      ApplyDenies(v, s, owner, story, n, expected, ids);
    }
  }

  lemma ApplyStores(v: Service, s: Desk, owner: nat, story: nat, n: nat, expected: nat, ids: set<nat>, d: Draft,
          stored: Draft)
    requires MayApply(v, s, owner, story, n, expected, ids) && Adopted(v, s, story, n, ids) == Ok(d)
      && stored == Stored(v, story, expected + 1, d)
    ensures var (t, answer) := Apply(v, s, owner, story, n, expected, ids);
      && answer == Revised(expected + 1) && OneMore(s, t, story, stored)
      && t.proposals == s.proposals[n := s.proposals[n].(decision := Some(Decision(expected + 1, ids)))]
  {
  }

  lemma ApplyDenies(v: Service, s: Desk, owner: nat, story: nat, n: nat, expected: nat, ids: set<nat>)
    requires !MayApply(v, s, owner, story, n, expected, ids)
    ensures Apply(v, s, owner, story, n, expected, ids).0 == s && Apply(v, s, owner, story, n, expected, ids).1.Denied?
  {
  }
}
