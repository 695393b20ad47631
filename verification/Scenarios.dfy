/** Scenario definitions and the graph of (scene, flags) states that registered actions span. */
module Scenarios {
  import opened Outcomes

  datatype Override = Override(requiresFlags: seq<string>, ending: string)

  datatype Effect = Effect(nextScene: Option<string>, ending: Option<string>, addFlags: seq<string>,
      overrides: seq<Override>)

  datatype Action =
    | Direct(ref: string, required: seq<string>, disabled: seq<string>, success: Effect)
    | Skill(ref: string, required: seq<string>, disabled: seq<string>, success: Effect, failure: Effect)
    | Attack(ref: string, required: seq<string>, disabled: seq<string>, defeated: Effect)

  datatype Combat = Combat(startedFlag: string, defeatEnding: string)

  datatype Scene = Scene(
    ref: string, sequence: nat, actions: seq<Action>, combat: Option<Combat>,
    openFlags: seq<string>, openDestinations: seq<string>)

  datatype Ending = Ending(ref: string, required: seq<string>)

  datatype ProtectedFact = ProtectedFact(ref: string, scene: Option<string>, acquiredFlag: Option<string>)

  datatype World = World(goalScene: string, goalFlag: string, facts: seq<ProtectedFact>)

  datatype Definition = Definition(
    schemaVersion: nat, scenes: seq<Scene>, flags: seq<string>, endings: seq<Ending>,
    world: Option<World>, mvpV2: bool, entities: Option<set<string>>)

  function Elements(s: seq<string>): set<string> {
    set x | x in s
  }

  function Effects(a: Action): seq<Effect> {
    match a
    case Direct(_, _, _, success) => [success]
    case Skill(_, _, _, success, failure) => [success, failure]
    case Attack(_, _, _, defeated) => [defeated]
  }

  // ---- well-formed definitions ----

  ghost predicate KnownScene(d: Definition, ref: string) {
    exists i :: 0 <= i < |d.scenes| && d.scenes[i].ref == ref
  }

  ghost predicate KnownEnding(d: Definition, ref: string) {
    exists i :: 0 <= i < |d.endings| && d.endings[i].ref == ref
  }

  ghost predicate KnownFlags(d: Definition, flags: seq<string>) {
    Elements(flags) <= Elements(d.flags)
  }

  ghost predicate KnownEffect(d: Definition, e: Effect) {
    && !(e.nextScene.Some? && e.ending.Some?)
    && (e.nextScene.Some? ==> KnownScene(d, e.nextScene.value))
    && (e.ending.Some? ==> KnownEnding(d, e.ending.value))
    && KnownFlags(d, e.addFlags)
    && (e.overrides != [] ==> e.ending.Some?)
    && forall i :: 0 <= i < |e.overrides| ==>
      KnownFlags(d, e.overrides[i].requiresFlags) && KnownEnding(d, e.overrides[i].ending)
  }

  ghost predicate KnownAction(d: Definition, a: Action) {
    && KnownFlags(d, a.required) && KnownFlags(d, a.disabled)
    && Elements(a.required) !! Elements(a.disabled)
    && forall e :: e in Effects(a) ==> KnownEffect(d, e)
  }

  ghost predicate UniqueScenes(scenes: seq<Scene>) {
    forall i, j :: 0 <= i < j < |scenes| ==> scenes[i].ref != scenes[j].ref && scenes[i].sequence != scenes[j].sequence
  }

  ghost predicate UniqueEndings(endings: seq<Ending>) {
    forall i, j :: 0 <= i < j < |endings| ==> endings[i].ref != endings[j].ref
  }

  ghost predicate UniqueActions(scenes: seq<Scene>) {
    forall i, j, k, l ::
      (0 <= i < |scenes| && 0 <= j < |scenes| && 0 <= k < |scenes[i].actions| && 0 <= l < |scenes[j].actions| &&
       scenes[i].actions[k].ref == scenes[j].actions[l].ref) ==> i == j && k == l
  }

  ghost predicate KnownCombat(d: Definition, scene: Scene) {
    scene.combat.Some? ==>
      KnownFlags(d, [scene.combat.value.startedFlag]) && KnownEnding(d, scene.combat.value.defeatEnding) &&
      exists k :: 0 <= k < |scene.actions| && scene.actions[k].Attack?
  }

  ghost predicate KnownOpen(d: Definition, scene: Scene) {
    KnownFlags(d, scene.openFlags) && forall ref :: ref in scene.openDestinations ==> KnownScene(d, ref)
  }

  ghost predicate KnownWorld(d: Definition, w: World) {
    && KnownScene(d, w.goalScene) && KnownFlags(d, [w.goalFlag])
    && (forall i, j :: 0 <= i < j < |w.facts| ==> w.facts[i].ref != w.facts[j].ref)
    && forall i :: 0 <= i < |w.facts| && w.facts[i].scene.Some? ==> KnownScene(d, w.facts[i].scene.value)
  }

  // ScenarioDefinition.valid_graph
  ghost predicate ValidGraph(d: Definition) {
    && UniqueScenes(d.scenes) && UniqueActions(d.scenes) && UniqueEndings(d.endings)
    && (forall i, j :: 0 <= i < j < |d.flags| ==> d.flags[i] != d.flags[j])
    && (exists i :: 0 <= i < |d.scenes| && d.scenes[i].sequence == 1)
    && (forall i :: 0 <= i < |d.endings| ==> KnownFlags(d, d.endings[i].required))
    && (forall i :: 0 <= i < |d.scenes| ==> KnownCombat(d, d.scenes[i]) && KnownOpen(d, d.scenes[i]))
    && (forall i, k :: 0 <= i < |d.scenes| && 0 <= k < |d.scenes[i].actions| ==> KnownAction(d, d.scenes[i].actions[k]))
    && (d.world.Some? ==> KnownWorld(d, d.world.value))
  }

  function FindScene(scenes: seq<Scene>, ref: string): Option<Scene> {
    if scenes == [] then None else if scenes[0].ref == ref then Some(scenes[0]) else FindScene(scenes[1..], ref)
  }

  function FindSequence(scenes: seq<Scene>, sequence: nat): Option<Scene> {
    if scenes == [] then None else if scenes[0].sequence == sequence then Some(scenes[0])
    else FindSequence(scenes[1..], sequence)
  }

  function FindEnding(endings: seq<Ending>, ref: string): Option<Ending> {
    if endings == [] then None else if endings[0].ref == ref then Some(endings[0]) else FindEnding(endings[1..], ref)
  }

  // ---- the state graph ----

  datatype State = State(scene: string, flags: set<string>)

  predicate Available(a: Action, flags: set<string>) {
    Elements(a.required) <= flags && Elements(a.disabled) !! flags
  }

  // The first override whose flags are held replaces the ending.
  function Overridden(overrides: seq<Override>, flags: set<string>, ending: Option<string>): Option<string> {
    if overrides == [] then ending
    else if Elements(overrides[0].requiresFlags) <= flags then Some(overrides[0].ending)
    else Overridden(overrides[1..], flags, ending)
  }

  datatype Outcome = Skipped | Ends(ending: string) | Moves(target: State)

  // Effects of a bounded world that the explorer leaves out.
  predicate BlockedByWorld(d: Definition, scene: Scene, flags: set<string>, e: Effect) {
    d.world.Some? &&
    var w := d.world.value;
    || (w.goalFlag in e.addFlags && scene.ref != w.goalScene)
    || exists f :: f in w.facts && f.acquiredFlag.Some? && f.acquiredFlag.value in e.addFlags &&
         f.acquiredFlag.value !in flags && f.scene != Some(scene.ref)
  }

  function ResultingFlags(scene: Scene, a: Action, flags: set<string>, e: Effect): set<string> {
    flags + Elements(e.addFlags) + (if a.Attack? && scene.combat.Some? then {scene.combat.value.startedFlag} else {})
  }

  // The body of _explore's loop over the effects of an available action
  function EffectOutcome(d: Definition, scene: Scene, a: Action, flags: set<string>, e: Effect): Outcome {
    var resulting := ResultingFlags(scene, a, flags, e);
    if BlockedByWorld(d, scene, flags, e) then Skipped
    else
      match Overridden(e.overrides, flags, e.ending)
      case Some(ending) =>
        var known := FindEnding(d.endings, ending);
        if known.Some? && Elements(known.value.required) <= resulting then Ends(ending) else Skipped
      case None => Moves(State(if e.nextScene.Some? then e.nextScene.value else scene.ref, resulting))
  }

  // One action with one of its effects takes the state to the outcome.
  ghost predicate Leads(d: Definition, s: State, o: Outcome) {
    var scene := FindScene(d.scenes, s.scene);
    scene.Some? && exists a, e ::
      a in scene.value.actions && Available(a, s.flags) && e in Effects(a)
        && EffectOutcome(d, scene.value, a, s.flags, e) == o
  }

  function StartState(d: Definition): State {
    match FindSequence(d.scenes, 1)
    case Some(scene) => State(scene.ref, {})
    case None => State("", {})
  }

  // Consecutive states of a run.
  ghost predicate Run(d: Definition, run: seq<State>) {
    run != [] && forall i, j :: 0 <= i && j == i + 1 && j < |run| ==> Leads(d, run[i], Moves(run[j]))
  }

  ghost predicate Reaches(d: Definition, s: State, t: State) {
    exists run :: Run(d, run) && run[0] == s && run[|run| - 1] == t
  }

  ghost predicate Reachable(d: Definition, s: State) {
    Reaches(d, StartState(d), s)
  }

  ghost predicate CanEnd(d: Definition, s: State) {
    exists ending :: Leads(d, s, Ends(ending))
  }

  // From `s` some run gets to a state where an action ends the story.
  ghost predicate Winnable(d: Definition, s: State) {
    exists t :: Reaches(d, s, t) && CanEnd(d, t)
  }

  lemma ReachesSelf(d: Definition, s: State)
    ensures Reaches(d, s, s)
  {
    assert Run(d, [s]);
  }

  lemma ReachesStep(d: Definition, s: State, t: State, u: State)
    requires Reaches(d, s, t) && Leads(d, t, Moves(u))
    ensures Reaches(d, s, u)
  {
    var run :| Run(d, run) && run[0] == s && run[|run| - 1] == t;
    var longer := run + [u];
    assert Run(d, longer) by {
      forall i, j | 0 <= i && j == i + 1 && j < |longer| ensures Leads(d, longer[i], Moves(longer[j])) {
        if i < |run| - 1 { assert Leads(d, run[i], Moves(run[i + 1])); }
      }
    }
  }

  lemma WinnableStep(d: Definition, s: State, t: State)
    requires Leads(d, s, Moves(t)) && Winnable(d, t)
    ensures Winnable(d, s)
  {
    var u :| Reaches(d, t, u) && CanEnd(d, u);
    var run :| Run(d, run) && run[0] == t && run[|run| - 1] == u;
    var longer := [s] + run;
    assert Run(d, longer) by {
      forall i, j | 0 <= i && j == i + 1 && j < |longer| ensures Leads(d, longer[i], Moves(longer[j])) {
        if i > 0 { assert Leads(d, run[i - 1], Moves(run[i])); }
      }
    }
    assert longer[0] == s && longer[|longer| - 1] == u;
  }

  lemma {:induction false} FoundScene(scenes: seq<Scene>, ref: string)
    ensures FindScene(scenes, ref).Some? ==>
      FindScene(scenes, ref).value in scenes && FindScene(scenes, ref).value.ref == ref
    ensures (exists i :: 0 <= i < |scenes| && scenes[i].ref == ref) ==> FindScene(scenes, ref).Some?
  {
    if scenes != [] {
      FoundScene(scenes[1..], ref);
      assert forall i :: 1 <= i < |scenes| ==> scenes[i] == scenes[1..][i - 1];
    }
  }

  lemma {:induction false} FoundSequence(scenes: seq<Scene>, sequence: nat)
    ensures FindSequence(scenes, sequence).Some? ==>
      FindSequence(scenes, sequence).value in scenes && FindSequence(scenes, sequence).value.sequence == sequence
    ensures (exists i :: 0 <= i < |scenes| && scenes[i].sequence == sequence) ==> FindSequence(scenes, sequence).Some?
  {
    if scenes != [] {
      FoundSequence(scenes[1..], sequence);
      assert forall i :: 1 <= i < |scenes| ==> scenes[i] == scenes[1..][i - 1];
    }
  }

  // In a valid graph every reachable state is in a scene of the definition.
  ghost predicate Placed(d: Definition, s: State) {
    FindScene(d.scenes, s.scene).Some?
  }

  lemma StartPlaced(d: Definition)
    requires ValidGraph(d)
    ensures Placed(d, StartState(d))
  {
    FoundSequence(d.scenes, 1);
    FoundScene(d.scenes, StartState(d).scene);
    var scene := FindSequence(d.scenes, 1).value;
    var i :| 0 <= i < |d.scenes| && d.scenes[i] == scene;
    assert d.scenes[i].ref == StartState(d).scene;
  }

  lemma KnownAt(d: Definition, scene: Scene, a: Action)
    requires ValidGraph(d) && scene in d.scenes && a in scene.actions
    ensures KnownAction(d, a)
  {
    var i :| 0 <= i < |d.scenes| && d.scenes[i] == scene;
    var k :| 0 <= k < |d.scenes[i].actions| && d.scenes[i].actions[k] == a;
  }

  lemma EffectPlaced(d: Definition, scene: Scene, a: Action, flags: set<string>, e: Effect, t: State)
    requires KnownEffect(d, e) && FindScene(d.scenes, scene.ref).Some?
    requires EffectOutcome(d, scene, a, flags, e) == Moves(t)
    ensures Placed(d, t)
  {
    if e.nextScene.Some? { FoundScene(d.scenes, e.nextScene.value); }
  }

  lemma LeadsBy(d: Definition, s: State, o: Outcome) returns (a: Action, e: Effect)
    requires Leads(d, s, o)
    ensures FindScene(d.scenes, s.scene).Some?
    ensures a in FindScene(d.scenes, s.scene).value.actions && Available(a, s.flags) && e in Effects(a)
    ensures EffectOutcome(d, FindScene(d.scenes, s.scene).value, a, s.flags, e) == o
  {
    var scene := FindScene(d.scenes, s.scene).value;
    a, e :| a in scene.actions && Available(a, s.flags) && e in Effects(a)
      && EffectOutcome(d, scene, a, s.flags, e) == o;
  }

  lemma MovesPlaced(d: Definition, s: State, t: State)
    requires ValidGraph(d) && Placed(d, s) && Leads(d, s, Moves(t))
    ensures Placed(d, t)
  {
    FoundScene(d.scenes, s.scene);
    var scene := FindScene(d.scenes, s.scene).value;
    var a, e := LeadsBy(d, s, Moves(t));
    assert KnownEffect(d, e) by { KnownAt(d, scene, a); }
    EffectPlaced(d, scene, a, s.flags, e, t);
  }

  // Moves from scenes of the definition lead to scenes of the definition.
  ghost predicate Closed(d: Definition) {
    forall s, t :: Placed(d, s) && Leads(d, s, Moves(t)) ==> Placed(d, t)
  }

  lemma ValidClosed(d: Definition)
    requires ValidGraph(d)
    ensures Closed(d) && Placed(d, StartState(d))
  {
    StartPlaced(d);
    forall s, t | Placed(d, s) && Leads(d, s, Moves(t)) ensures Placed(d, t) {
      MovesPlaced(d, s, t);
    }
  }
}
