/**
 The explorer against the runtime it predicts: for a story of schema 2 without a bounded world
 and without combat, the explored graph is the graph of saved runs, so a complete exploration
 without a dead end means that no saved run is ever stuck.
 */
module Agreement {
  import opened Outcomes
  import opened Scenarios
  import opened Progressor
  import Explorer
  import RunCommits

  // The stories for which the prediction is meant to be exact.
  ghost predicate Predictable(d: Definition) {
    && ValidGraph(d) && d.schemaVersion == 2 && d.world.None?
    && forall i :: 0 <= i < |d.scenes| ==> d.scenes[i].combat.None?
  }

  function StateOf(d: Definition, run: RunSnapshot): State {
    match CurrentScene(d, run)
    case None => State("", run.flags)
    case Some(place) => State(place.scene.ref, run.flags)
  }

  // What an update of a run is to the explorer
  function UpdateOutcome(d: Definition, run: RunSnapshot, u: Update): Outcome {
    if u.ending.Some? then Ends(u.ending.value) else Moves(StateOf(d, Applied(run, u)))
  }

  function ProgressOutcome(d: Definition, run: RunSnapshot, p: Progress): Outcome {
    if p.Updated? then UpdateOutcome(d, run, p.update) else Skipped
  }

  lemma {:induction false} OverriddenEnding(d: Definition, overrides: seq<Override>, flags: set<string>,
          ending: Option<string>)
    requires ending.Some? ==> KnownEnding(d, ending.value)
    requires forall i :: 0 <= i < |overrides| ==> KnownEnding(d, overrides[i].ending)
    requires overrides != [] ==> ending.Some?
    ensures Overridden(overrides, flags, ending).Some? <==> ending.Some?
    ensures ending.Some? ==> KnownEnding(d, Overridden(overrides, flags, ending).value)
  {
    if overrides != [] {
      assert KnownEnding(d, overrides[0].ending);
      OverriddenEnding(d, overrides[1..], flags, ending);
    }
  }

  // Where a run is after an update that does not end it
  lemma StateAfter(d: Definition, run: RunSnapshot, u: Update, i: nat, target: Scene)
    requires UniqueScenes(d.scenes) && WellFormed(d, run) && run.active && Proper(run, u) && u.ending.None?
    requires if u.toScene.Some? then i < |run.scenes| && u.toScene == Some(run.scenes[i].id)
      else OnlyActive(run.scenes, i)
    requires target in d.scenes && target.sequence == run.scenes[i].sequence
    ensures StateOf(d, Applied(run, u)) == State(target.ref, run.flags + Elements(u.addFlags))
  {
    AppliedWellFormed(d, run, u);
    AppliedActive(run, u);
    MovedSequences(run.scenes, u);
    var k, scene := ActivePlace(d, Applied(run, u));
    assert OnlyActive(Applied(run, u).scenes, i);
    FoundSequence(d.scenes, run.scenes[i].sequence);
    SameSequence(d, scene, target);
  }

  function MoveUpdate(d: Definition, run: RunSnapshot, place: Place, e: Effect, to: Option<nat>): Update {
    Update(place.runtime.id, to, Fresh(e.addFlags, run.flags), None, if d.mvpV2 then 1 else 0, 0, [])
  }

  lemma GoUpdated(d: Definition, run: RunSnapshot, place: Place, e: Effect, id: nat)
    requires d.world.None? && e.ending.None? && e.overrides == [] && Destination(d, run, e.nextScene) == Some(Some(id))
    ensures ProgressEffect(d, run, place, e) == Updated(MoveUpdate(d, run, place, e, Some(id)))
  {
  }

  lemma GoProper(run: RunSnapshot, u: Update, k: nat, i: nat)
    requires OnlyActive(run.scenes, k) && u.fromScene == run.scenes[k].id && i < |run.scenes|
      && u.toScene == Some(run.scenes[i].id)
    requires u.ending.None? && 0 <= run.alert + u.alertDelta <= 5
    ensures Proper(run, u)
  {
  }

  lemma StayAgrees(d: Definition, run: RunSnapshot, place: Place, e: Effect)
    requires UniqueScenes(d.scenes) && d.world.None? && WellFormed(d, run) && run.active
    requires CurrentScene(d, run) == Some(place) && e.ending.None? && e.overrides == [] && e.nextScene.None?
    ensures ProgressEffect(d, run, place, e).Updated? && Proper(run, ProgressEffect(d, run, place, e).update)
    ensures ProgressOutcome(d, run, ProgressEffect(d, run, place, e)) ==
      Moves(State(place.scene.ref, run.flags + Elements(e.addFlags)))
  {
    var k, scene := ActivePlace(d, run);
    FoundSequence(d.scenes, run.scenes[k].sequence);
    StateAfter(d, run, MoveUpdate(d, run, place, e, None), k, scene);
  }

  lemma GoAgrees(d: Definition, run: RunSnapshot, place: Place, e: Effect)
    requires UniqueScenes(d.scenes) && d.world.None? && WellFormed(d, run) && run.active
    requires CurrentScene(d, run) == Some(place) && e.ending.None? && e.overrides == []
    requires e.nextScene.Some? && KnownScene(d, e.nextScene.value)
    ensures ProgressEffect(d, run, place, e).Updated? && Proper(run, ProgressEffect(d, run, place, e).update)
    ensures ProgressOutcome(d, run, ProgressEffect(d, run, place, e)) ==
      Moves(State(e.nextScene.value, run.flags + Elements(e.addFlags)))
  {
    var k, scene := ActivePlace(d, run);
    var i, target := DestinationRow(d, run, e.nextScene.value);
    GoUpdated(d, run, place, e, run.scenes[i].id);
    GoProper(run, MoveUpdate(d, run, place, e, Some(run.scenes[i].id)), k, i);
    StateAfter(d, run, MoveUpdate(d, run, place, e, Some(run.scenes[i].id)), i, target);
  }

  // One effect: the runtime's verdict and update are what the explorer computes.
  lemma EffectAgrees(d: Definition, run: RunSnapshot, place: Place, a: Action, e: Effect)
    requires Predictable(d) && WellFormed(d, run) && run.active
    requires CurrentScene(d, run) == Some(place) && KnownEffect(d, e)
    ensures !ProgressEffect(d, run, place, e).StateError? && !ProgressEffect(d, run, place, e).Unchanged?
    ensures ProgressEffect(d, run, place, e).Updated? ==> Proper(run, ProgressEffect(d, run, place, e).update)
    ensures ProgressOutcome(d, run, ProgressEffect(d, run, place, e)) == EffectOutcome(d, place.scene, a, run.flags, e)
  {
    var k, scene := ActivePlace(d, run);
    OverriddenEnding(d, e.overrides, run.flags, e.ending);
    assert scene.combat.None? by { var i :| 0 <= i < |d.scenes| && d.scenes[i] == scene; }
    assert ResultingFlags(scene, a, run.flags, e) == run.flags + Elements(e.addFlags);
    if e.ending.None? {
      if e.nextScene.None? { StayAgrees(d, run, place, e); } else { GoAgrees(d, run, place, e); }
    }
  }

  lemma SameSequence(d: Definition, a: Scene, b: Scene)
    requires UniqueScenes(d.scenes) && a in d.scenes && b in d.scenes && a.sequence == b.sequence
    ensures a == b
  {
    var i :| 0 <= i < |d.scenes| && d.scenes[i] == a;
    var j :| 0 <= j < |d.scenes| && d.scenes[j] == b;
  }

  // ---- steps of a run ----

  // Binding a reference and progressing with some roll updates the run.
  ghost predicate Plays(d: Definition, run: RunSnapshot, u: Update) {
    exists ref, roll, hp ::
      && BindRegistered(d, run, ref).Some?
      && ProgressFor(d, run, BindRegistered(d, run, ref).value, roll, hp) == Updated(u)
  }

  lemma {:induction false} FirstIsAvailable(actions: seq<Action>, ref: string, flags: set<string>)
    ensures FirstAvailable(actions, ref, flags).Some? ==>
      FirstAvailable(actions, ref, flags).value in actions
        && Available(FirstAvailable(actions, ref, flags).value, flags)
    ensures (exists a :: a in actions && a.ref == ref && Available(a, flags)) ==>
      FirstAvailable(actions, ref, flags).Some? && FirstAvailable(actions, ref, flags).value.ref == ref
  {
    if actions != [] {
      FirstIsAvailable(actions[1..], ref, flags);
      assert forall a :: a in actions ==> a == actions[0] || a in actions[1..];
    }
  }

  lemma BindsUnique(d: Definition, run: RunSnapshot, scene: Scene, a: Action)
    requires ValidGraph(d) && scene in d.scenes && a in scene.actions && Available(a, run.flags)
    ensures FirstAvailable(scene.actions, a.ref, run.flags) == Some(a)
  {
    FirstIsAvailable(scene.actions, a.ref, run.flags);
    var b := FirstAvailable(scene.actions, a.ref, run.flags).value;
    var i :| 0 <= i < |d.scenes| && d.scenes[i] == scene;
    var k :| 0 <= k < |scene.actions| && scene.actions[k] == a;
    var l :| 0 <= l < |scene.actions| && scene.actions[l] == b;
    assert d.scenes[i].actions[k].ref == d.scenes[i].actions[l].ref;
  }

  lemma ChosenKnown(a: Action, roll: Roll, hp: Option<nat>)
    ensures ChosenEffect(a, roll, hp).Some? ==> ChosenEffect(a, roll, hp).value in Effects(a)
  {
  }

  lemma SomeRollChooses(a: Action, e: Effect) returns (roll: Roll, hp: Option<nat>)
    requires e in Effects(a)
    ensures ChosenEffect(a, roll, hp) == Some(e)
  {
    hp := Some(0);
    roll := if a.Skill? && e != a.success then Failure else Success;
  }

  lemma PlaysIsLeads(d: Definition, run: RunSnapshot, u: Update)
    requires Predictable(d) && WellFormed(d, run) && Plays(d, run, u)
    ensures run.active && Proper(run, u) && Leads(d, StateOf(d, run), UpdateOutcome(d, run, u))
  {
    var ref, roll, hp :| BindRegistered(d, run, ref).Some?
      && ProgressFor(d, run, BindRegistered(d, run, ref).value, roll, hp) == Updated(u);
    var a := BindRegistered(d, run, ref).value;
    var k, scene := ActivePlace(d, run);
    var place := CurrentScene(d, run).value;
    FirstIsAvailable(scene.actions, ref, run.flags);
    ChosenKnown(a, roll, hp);
    var e := ChosenEffect(a, roll, hp).value;
    KnownAt(d, scene, a);
    EffectAgrees(d, run, place, a, e);
    assert EffectOutcome(d, scene, a, run.flags, e) == UpdateOutcome(d, run, u);
  }

  lemma LeadsIsPlays(d: Definition, run: RunSnapshot, o: Outcome) returns (u: Update)
    requires Predictable(d) && WellFormed(d, run) && run.active
    requires Leads(d, StateOf(d, run), o) && o != Skipped
    ensures Plays(d, run, u) && UpdateOutcome(d, run, u) == o
  {
    var k, scene := ActivePlace(d, run);
    var place := CurrentScene(d, run).value;
    var a, e := LeadsBy(d, StateOf(d, run), o);
    KnownAt(d, scene, a);
    EffectAgrees(d, run, place, a, e);
    BindsUnique(d, run, scene, a);
    var roll, hp := SomeRollChooses(a, e);
    assert ProgressFor(d, run, a, roll, hp) == ProgressEffect(d, run, place, e);
    u := ProgressEffect(d, run, place, e).update;
    assert BindRegistered(d, run, a.ref) == Some(a);
  }

  // The explorer's successor relation is the one registered actions induce over all rolls.
  lemma SuccessorsAgree(d: Definition, run: RunSnapshot, o: Outcome)
    requires Predictable(d) && WellFormed(d, run) && run.active && o != Skipped
    ensures Leads(d, StateOf(d, run), o) <==> exists u :: Plays(d, run, u) && UpdateOutcome(d, run, u) == o
  {
    if Leads(d, StateOf(d, run), o) {
      var u := LeadsIsPlays(d, run, o);
    }
    if u :| Plays(d, run, u) && UpdateOutcome(d, run, u) == o {
      PlaysIsLeads(d, run, u);
    }
  }

  // ---- whole runs ----

  ghost predicate Step(d: Definition, run: RunSnapshot, next: RunSnapshot) {
    exists u :: Plays(d, run, u) && next == Applied(run, u)
  }

  ghost predicate Play(d: Definition, runs: seq<RunSnapshot>) {
    runs != [] && forall i, j :: 0 <= i && j == i + 1 && j < |runs| ==> Step(d, runs[i], runs[j])
  }

  ghost predicate Gets(d: Definition, from: RunSnapshot, to: RunSnapshot) {
    exists runs :: Play(d, runs) && runs[0] == from && runs[|runs| - 1] == to
  }

  // A new run: the scene of sequence 1 is active, the others are planned.
  function NewRun(d: Definition): RunSnapshot {
    RunSnapshot(true, None,
      seq(|d.scenes|, i requires 0 <= i < |d.scenes| => RuntimeScene(i, d.scenes[i].sequence,
          if d.scenes[i].sequence == 1 then Active else Planned)),
      {}, 0, 0, [])
  }

  ghost predicate Played(d: Definition, run: RunSnapshot) {
    Gets(d, NewRun(d), run)
  }

  ghost predicate Finishable(d: Definition, run: RunSnapshot) {
    exists end :: Gets(d, run, end) && !end.active && end.ending.Some?
  }

  // Some saved run that players can get to can never be finished.
  ghost predicate StuckRun(d: Definition) {
    exists run :: Played(d, run) && run.active && !Finishable(d, run)
  }

  lemma NewRunWellFormed(d: Definition)
    requires ValidGraph(d)
    ensures WellFormed(d, NewRun(d)) && NewRun(d).active && StateOf(d, NewRun(d)) == StartState(d)
  {
    var run := NewRun(d);
    assert RowSequences(run.scenes) == SceneSequences(d.scenes) by {
      forall n | n in SceneSequences(d.scenes) ensures n in RowSequences(run.scenes) {
        var i :| 0 <= i < |d.scenes| && d.scenes[i].sequence == n;
        assert run.scenes[i] in run.scenes;
      }
      forall n | n in RowSequences(run.scenes) ensures n in SceneSequences(d.scenes) {
        var i :| 0 <= i < |run.scenes| && run.scenes[i].sequence == n;
        assert d.scenes[i] in d.scenes;
      }
    }
    var first :| 0 <= first < |d.scenes| && d.scenes[first].sequence == 1;
    assert OnlyActive(run.scenes, first);
    assert WellFormed(d, run);
    var k, scene := ActivePlace(d, run);
  }

  lemma StepKeeps(d: Definition, run: RunSnapshot, next: RunSnapshot)
    requires Predictable(d) && WellFormed(d, run) && Step(d, run, next)
    ensures WellFormed(d, next) && run.active && run.flags <= next.flags
    ensures next.active ==> Leads(d, StateOf(d, run), Moves(StateOf(d, next)))
    ensures !next.active ==> next.ending.Some? && Leads(d, StateOf(d, run), Ends(next.ending.value))
  {
    var u :| Plays(d, run, u) && next == Applied(run, u);
    PlaysIsLeads(d, run, u);
    AppliedWellFormed(d, run, u);
  }

  lemma {:induction false} PlayKeeps(d: Definition, runs: seq<RunSnapshot>, i: nat)
    requires Predictable(d) && Play(d, runs) && i < |runs| && WellFormed(d, runs[0])
    ensures WellFormed(d, runs[i]) && (runs[i].active ==> Reaches(d, StateOf(d, runs[0]), StateOf(d, runs[i])))
    ensures i > 0 ==> runs[i - 1].active
  {
    if i == 0 {
      ReachesSelf(d, StateOf(d, runs[0]));
    } else {
      PlayKeeps(d, runs, i - 1);
      assert Step(d, runs[i - 1], runs[i - 1 + 1]);
      StepKeeps(d, runs[i - 1], runs[i]);
      if runs[i].active { ReachesStep(d, StateOf(d, runs[0]), StateOf(d, runs[i - 1]), StateOf(d, runs[i])); }
    }
  }

  // Every saved run is well formed, and while active it is in a state the explorer's graph reaches.
  lemma PlayedIsReachable(d: Definition, run: RunSnapshot)
    requires Predictable(d) && Played(d, run)
    ensures WellFormed(d, run) && (run.active ==> Reachable(d, StateOf(d, run)))
  {
    NewRunWellFormed(d);
    var runs :| Play(d, runs) && runs[0] == NewRun(d) && runs[|runs| - 1] == run;
    PlayKeeps(d, runs, |runs| - 1);
  }

  lemma GetsStep(d: Definition, from: RunSnapshot, run: RunSnapshot, next: RunSnapshot)
    requires Gets(d, from, run) && Step(d, run, next)
    ensures Gets(d, from, next)
  {
    var runs :| Play(d, runs) && runs[0] == from && runs[|runs| - 1] == run;
    var longer := runs + [next];
    assert Play(d, longer) by {
      forall i, j | 0 <= i && j == i + 1 && j < |longer| ensures Step(d, longer[i], longer[j]) {
        if i < |runs| - 1 { assert Step(d, runs[i], runs[i + 1]); }
      }
    }
  }

  // A path of explored states is played by a run.
  lemma {:induction false} Follow(d: Definition, from: RunSnapshot, states: seq<State>, i: nat)
    returns (run: RunSnapshot)
    requires Predictable(d) && WellFormed(d, from) && from.active
    requires Run(d, states) && states[0] == StateOf(d, from) && i < |states|
    ensures Gets(d, from, run) && WellFormed(d, run) && run.active && StateOf(d, run) == states[i]
  {
    if i == 0 {
      run := from;
      assert Play(d, [from]);
    } else {
      var before := Follow(d, from, states, i - 1);
      assert Leads(d, states[i - 1], Moves(states[i - 1 + 1]));
      var u := LeadsIsPlays(d, before, Moves(states[i]));
      run := Applied(before, u);
      assert Step(d, before, run);
      GetsStep(d, from, before, run);
      StepKeeps(d, before, run);
    }
  }

  lemma ReachableIsPlayed(d: Definition, s: State) returns (run: RunSnapshot)
    requires Predictable(d) && Reachable(d, s)
    ensures Played(d, run) && run.active && StateOf(d, run) == s
  {
    NewRunWellFormed(d);
    var states :| Run(d, states) && states[0] == StartState(d) && states[|states| - 1] == s;
    run := Follow(d, NewRun(d), states, |states| - 1);
  }

  lemma FinishedWasWinnable(d: Definition, run: RunSnapshot, end: RunSnapshot)
    requires Predictable(d) && WellFormed(d, run) && run.active && Gets(d, run, end) && !end.active
    ensures Winnable(d, StateOf(d, run))
  {
    var runs :| Play(d, runs) && runs[0] == run && runs[|runs| - 1] == end;
    var last := |runs| - 1;
    PlayKeeps(d, runs, last);
    PlayKeeps(d, runs, last - 1);
    assert Step(d, runs[last - 1], runs[last - 1 + 1]);
    StepKeeps(d, runs[last - 1], runs[last]);
    assert CanEnd(d, StateOf(d, runs[last - 1]));
  }

  lemma WinnableFinishes(d: Definition, run: RunSnapshot)
    requires Predictable(d) && WellFormed(d, run) && run.active && Winnable(d, StateOf(d, run))
    ensures Finishable(d, run)
  {
    var t :| Reaches(d, StateOf(d, run), t) && CanEnd(d, t);
    var states :| Run(d, states) && states[0] == StateOf(d, run) && states[|states| - 1] == t;
    var before := Follow(d, run, states, |states| - 1);
    var e :| Leads(d, t, Ends(e));
    var u := LeadsIsPlays(d, before, Ends(e));
    assert Step(d, before, Applied(before, u));
    StepKeeps(d, before, Applied(before, u));
    GetsStep(d, run, before, Applied(before, u));
  }

  // A run can be finished exactly when the explorer's graph has a way to an ending from its state.
  lemma FinishableIsWinnable(d: Definition, run: RunSnapshot)
    requires Predictable(d) && WellFormed(d, run) && run.active
    ensures Finishable(d, run) <==> Winnable(d, StateOf(d, run))
  {
    if Finishable(d, run) {
      var end :| Gets(d, run, end) && !end.active && end.ending.Some?;
      FinishedWasWinnable(d, run, end);
    }
    if Winnable(d, StateOf(d, run)) { WinnableFinishes(d, run); }
  }

  // The explorer's dead-end finding: it holds exactly when some saved run can get stuck.
  lemma DeadEndIsStuckRun(d: Definition)
    requires Predictable(d)
    ensures Explorer.DeadEnd(d) <==> StuckRun(d)
  {
    if Explorer.DeadEnd(d) {
      ReachesSelf(d, StartState(d));
      var s := StuckState(d);
      var run := ReachableIsPlayed(d, s);
      PlayedIsReachable(d, run);
      FinishableIsWinnable(d, run);
    }
    if StuckRun(d) {
      var run :| Played(d, run) && run.active && !Finishable(d, run);
      PlayedIsReachable(d, run);
      FinishableIsWinnable(d, run);
    }
  }

  lemma StuckState(d: Definition) returns (s: State)
    requires Explorer.DeadEnd(d)
    ensures Reachable(d, s) && !Winnable(d, s)
  {
    if exists s :: Reachable(d, s) && !Winnable(d, s) {
      s :| Reachable(d, s) && !Winnable(d, s);
    } else {
      s := StartState(d);
      ReachesSelf(d, s);
      assert Reachable(d, s);
      assert Winnable(d, s);
      var t :| Reaches(d, s, t) && CanEnd(d, t);
      assert CanEnd(d, t);
      var e :| Leads(d, t, Ends(e));
      assert Explorer.Obtainable(d, e);
    }
  }

  // ---- what the commit makes of it ----

  // Stories under the ruleset that lets a run go back, where no effect names the scene it starts
  // in as its destination or a flag twice
  ghost predicate Committable(d: Definition) {
    && d.mvpV2
    && forall scene, a, e :: scene in d.scenes && a in scene.actions && e in Effects(a) ==>
      e.nextScene != Some(scene.ref) && Distinct(e.addFlags)
  }

  lemma PlaysCommit(d: Definition, run: RunSnapshot, u: Update)
    requires Predictable(d) && Committable(d) && WellFormed(d, run) && Plays(d, run, u)
    ensures RunCommits.Committed(d, run, Applied(run, u))
  {
    var ref, roll, hp :| BindRegistered(d, run, ref).Some?
      && ProgressFor(d, run, BindRegistered(d, run, ref).value, roll, hp) == Updated(u);
    var a := BindRegistered(d, run, ref).value;
    var k, scene := ActivePlace(d, run);
    FirstIsAvailable(scene.actions, ref, run.flags);
    ChosenKnown(a, roll, hp);
    var e := ChosenEffect(a, roll, hp).value;
    KnownAt(d, scene, a);
    if e.nextScene.Some? {
      var i, target := DestinationRow(d, run, e.nextScene.value);
      FoundSequence(d.scenes, run.scenes[k].sequence);
      if i == k { SameSequence(d, scene, target); }
    }
    RunCommits.RegisteredCommit(d, run, a, roll, hp, k);
    assert CommitAccepts(d.mvpV2, run, run.scenes[k].id, u);
  }

  // In such a story the commit accepts every step of every play, so the saved runs above are
  // exactly the committed ones.
  lemma PlayIsCommitted(d: Definition, runs: seq<RunSnapshot>)
    requires Predictable(d) && Committable(d) && Play(d, runs) && runs[0] == NewRun(d)
    ensures RunCommits.Commits(d, runs)
  {
    NewRunWellFormed(d);
    forall i, j | 0 <= i && j == i + 1 && j < |runs| ensures RunCommits.Committed(d, runs[i], runs[j]) {
      PlayKeeps(d, runs, i);
      assert Step(d, runs[i], runs[j]);
      var u :| Plays(d, runs[i], u) && runs[j] == Applied(runs[i], u);
      PlaysCommit(d, runs[i], u);
    }
  }

  // compile_draft's use of the exploration: a complete one reports an error exactly for stuck runs.
  method ExploreStory(d: Definition, limit: nat) returns (r: Explorer.Report)
    requires Predictable(d)
    ensures r.exhausted <==> Explorer.OverBudget(d, limit)
    ensures !r.exhausted ==> (r.errors != {} <==> StuckRun(d))
    ensures r.exhausted ==> r.errors == {}
  {
    DeadEndIsStuckRun(d);
    r := Explorer.Explore(d, limit);
  }
}
