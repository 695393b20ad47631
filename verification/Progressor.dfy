/** A saved run of a scenario: binding registered actions, progressing the run, committing the update. */
module Progressor {
  import opened Outcomes
  import opened Scenarios

  datatype SceneStatus = Planned | Active | Closed

  datatype RuntimeScene = RuntimeScene(id: nat, sequence: nat, status: SceneStatus)

  datatype Fact = Fact(ref: string, kind: FactKind, text: string, scene: nat)

  datatype FactKind = PlaceFact | PersonFact | ClueFact | RouteFact

  datatype RunSnapshot = RunSnapshot(
    active: bool, ending: Option<string>, scenes: seq<RuntimeScene>, flags: set<string>,
    elapsed: nat, alert: int, facts: seq<Fact>)

  datatype Update = Update(
    fromScene: nat, toScene: Option<nat>, addFlags: seq<string>, ending: Option<string>,
    elapsed: int, alertDelta: int, facts: seq<Fact>)

  datatype Roll = Success | Failure | Neutral

  datatype Progress = StateError | Unavailable | Unchanged | Updated(update: Update)

  datatype Place = Place(scene: Scene, runtime: RuntimeScene)

  // ---- the active scene ----

  predicate SameSequences(defined: seq<Scene>, scenes: seq<RuntimeScene>) {
    && (forall i, j :: 0 <= i < j < |scenes| ==> scenes[i].sequence != scenes[j].sequence)
    && RowSequences(scenes) == SceneSequences(defined)
  }

  function RowSequences(scenes: seq<RuntimeScene>): set<nat> {
    set s | s in scenes :: s.sequence
  }

  function SceneSequences(scenes: seq<Scene>): set<nat> {
    set s | s in scenes :: s.sequence
  }

  predicate OnlyActive(scenes: seq<RuntimeScene>, k: nat) {
    && k < |scenes| && scenes[k].status.Active?
    && forall j :: 0 <= j < |scenes| && j != k ==> !scenes[j].status.Active?
  }

  // _current_scene
  function CurrentScene(d: Definition, run: RunSnapshot): Option<Place> {
    if run.active && run.ending.None? && SameSequences(d.scenes, run.scenes)
      && exists k :: 0 <= k < |run.scenes| && OnlyActive(run.scenes, k) then
      var k :| 0 <= k < |run.scenes| && OnlyActive(run.scenes, k);
      var scene := FindSequence(d.scenes, run.scenes[k].sequence);
      if scene.Some? then Some(Place(scene.value, run.scenes[k])) else None
    else
      None
  }

  // bind_registered_action: the first available action with this reference
  function BindRegistered(d: Definition, run: RunSnapshot, ref: string): Option<Action> {
    match CurrentScene(d, run)
    case None => None
    case Some(place) => FirstAvailable(place.scene.actions, ref, run.flags)
  }

  function FirstAvailable(actions: seq<Action>, ref: string, flags: set<string>): Option<Action> {
    if actions == [] then None
    else if actions[0].ref == ref && Available(actions[0], flags) then Some(actions[0])
    else FirstAvailable(actions[1..], ref, flags)
  }

  // ---- progress of a registered action ----

  function ChosenEffect(a: Action, roll: Roll, targetHp: Option<nat>): Option<Effect> {
    match a
    case Direct(_, _, _, success) => if roll.Failure? then None else Some(success)
    case Skill(_, _, _, success, failure) => if roll.Neutral? then None else if roll.Success? then Some(success)
      else Some(failure)
    case Attack(_, _, _, defeated) => if targetHp == Some(0) then Some(defeated) else None
  }

  // _validate_protected_effect refuses these.
  predicate ProtectedElsewhere(d: Definition, scene: Scene, flags: set<string>, added: set<string>) {
    d.world.Some? && exists f ::
      f in d.world.value.facts && f.acquiredFlag.Some? && f.acquiredFlag.value in added - flags
        && f.scene != Some(scene.ref)
  }

  predicate EndingMet(d: Definition, ending: string, flags: set<string>) {
    var known := FindEnding(d.endings, ending);
    known.Some? && Elements(known.value.required) <= flags
  }

  function RuntimeOf(scenes: seq<RuntimeScene>, sequence: nat): Option<nat> {
    if scenes == [] then None else if scenes[0].sequence == sequence then Some(scenes[0].id)
    else RuntimeOf(scenes[1..], sequence)
  }

  // The runtime scene an effect moves to; nothing when the definition or the run lacks it
  function Destination(d: Definition, run: RunSnapshot, next: Option<string>): Option<Option<nat>> {
    match next
    case None => Some(None)
    case Some(ref) =>
      match FindScene(d.scenes, ref)
      case None => None
      case Some(target) =>
        match RuntimeOf(run.scenes, target.sequence)
        case None => None
        case Some(id) => Some(Some(id))
  }

  function Fresh(flags: seq<string>, held: set<string>): (r: seq<string>)
    ensures Elements(r) == Elements(flags) - held
  {
    if flags == [] then []
    else
      assert Elements(flags) == {flags[0]} + Elements(flags[1..]) by { assert flags == [flags[0]] + flags[1..]; }
      var rest := Fresh(flags[1..], held);
      if flags[0] in held then rest else
      assert Elements([flags[0]] + rest) == {flags[0]} + Elements(rest);
      [flags[0]] + rest
  }

  predicate Distinct(refs: seq<string>) {
    forall i, j :: 0 <= i < j < |refs| ==> refs[i] != refs[j]
  }

  // A flag that is not held yet occurs twice.
  predicate Repeats(flags: seq<string>, held: set<string>) {
    exists i, j :: 0 <= i < j < |flags| && flags[i] == flags[j] && flags[i] !in held
  }

  // Dropping the held flags leaves the repetitions of the others.
  lemma {:induction false} FreshKeepsRepeats(flags: seq<string>, held: set<string>)
    ensures Distinct(Fresh(flags, held)) <==> !Repeats(flags, held)
  {
    if flags != [] {
      var rest := flags[1..];
      FreshKeepsRepeats(rest, held);
      assert forall i :: 1 <= i < |flags| ==> flags[i] == rest[i - 1];
      if Repeats(rest, held) {
        var i, j :| 0 <= i < j < |rest| && rest[i] == rest[j] && rest[i] !in held;
        assert flags[i + 1] == flags[j + 1];
      }
      if flags[0] !in held {
        var r := Fresh(rest, held);
        assert Fresh(flags, held) == [flags[0]] + r;
        assert flags[0] in rest <==> flags[0] in Elements(r);
        assert Distinct([flags[0]] + r) <==> Distinct(r) && flags[0] !in r by { ConsDistinct(flags[0], r); }
      }
    }
  }

  lemma ConsDistinct(head: string, refs: seq<string>)
    ensures Distinct([head] + refs) <==> Distinct(refs) && head !in refs
  {
    var all := [head] + refs;
    assert forall i :: 0 <= i < |refs| ==> all[i + 1] == refs[i];
    if Distinct(all) {
      forall i, j | 0 <= i < j < |refs| ensures refs[i] != refs[j] { assert all[i + 1] != all[j + 1]; }
      forall i | 0 <= i < |refs| ensures refs[i] != head { assert all[0] != all[i + 1]; }
    }
  }

  // progress_for
  function ProgressFor(d: Definition, run: RunSnapshot, a: Action, roll: Roll, targetHp: Option<nat>): Progress {
    match CurrentScene(d, run)
    case None => StateError
    case Some(place) =>
      if a !in place.scene.actions then StateError
      else
        match ChosenEffect(a, roll, targetHp)
        case None => Unchanged
        case Some(e) => ProgressEffect(d, run, place, e)
  }

  function ProgressEffect(d: Definition, run: RunSnapshot, place: Place, e: Effect): Progress {
    var ending := Overridden(e.overrides, run.flags, e.ending);
    if ProtectedElsewhere(d, place.scene, run.flags, Elements(e.addFlags)) then Unavailable
    else if d.schemaVersion == 2 && ending.Some?
      && !EndingMet(d, ending.value, run.flags + Elements(e.addFlags)) then Unavailable
    else
      match Destination(d, run, e.nextScene)
      case None => StateError
      case Some(to) => Updated(Update(place.runtime.id, to, Fresh(e.addFlags, run.flags), ending,
          if d.mvpV2 then 1 else 0, 0, []))
  }

  // ---- applying an update to the run ----

  function Restatus(scenes: seq<RuntimeScene>, id: nat, status: SceneStatus): (r: seq<RuntimeScene>)
    ensures |r| == |scenes|
    ensures forall i :: 0 <= i < |r| ==> r[i] == if scenes[i].id == id then scenes[i].(status := status) else scenes[i]
  {
    seq(|scenes|, i requires 0 <= i < |scenes| => if scenes[i].id ==
        id then scenes[i].(status := status) else scenes[i])
  }

  function MovedScenes(scenes: seq<RuntimeScene>, u: Update): seq<RuntimeScene> {
    var left := if u.toScene.Some? || u.ending.Some? then Restatus(scenes, u.fromScene, Closed) else scenes;
    if u.toScene.Some? then Restatus(left, u.toScene.value, Active) else left
  }

  // The row changes of commit_resolution for a scenario update
  function Applied(run: RunSnapshot, u: Update): RunSnapshot {
    RunSnapshot(
      run.active && u.ending.None?, if u.ending.Some? then u.ending else run.ending, MovedScenes(run.scenes, u),
      run.flags + Elements(u.addFlags), if run.elapsed + u.elapsed >= 0 then run.elapsed + u.elapsed else 0,
      run.alert + u.alertDelta, run.facts + u.facts)
  }

  predicate HasStatus(scenes: seq<RuntimeScene>, id: nat, statuses: set<SceneStatus>) {
    exists i :: 0 <= i < |scenes| && scenes[i].id == id && scenes[i].status in statuses
  }

  // Scenes a run may enter: planned ones, and under mvp_v2 closed ones too.
  function Enterable(mvpV2: bool): set<SceneStatus> {
    if mvpV2 then {Planned, Closed} else {Planned}
  }

  predicate UniqueFacts(facts: seq<Fact>) {
    forall i, j :: 0 <= i < j < |facts| ==> facts[i].ref != facts[j].ref
  }

  // The rows an update inserts meet the keys of their tables: one row for every flag of the
  // campaign, and one for every fact reference.
  predicate Insertable(run: RunSnapshot, u: Update) {
    && Distinct(u.addFlags) && (forall f :: f in u.addFlags ==> f !in run.flags)
    && UniqueFacts(u.facts) && (forall f, g :: f in u.facts && g in run.facts ==> f.ref != g.ref)
  }

  // The scenario checks of commit_resolution and of the tables it writes; `turnScene` is the
  // scene the turn was accepted in
  predicate CommitAccepts(mvpV2: bool, run: RunSnapshot, turnScene: nat, u: Update) {
    && run.active
    && HasStatus(run.scenes, u.fromScene, {Active}) && u.fromScene == turnScene
    && (u.toScene.Some? ==> HasStatus(run.scenes, u.toScene.value, Enterable(mvpV2)))
    && !(u.ending.Some? && u.toScene.Some?)
    && u.elapsed >= 0 && 0 <= run.alert + u.alertDelta <= 5
    && (!mvpV2 ==> u.elapsed == 0 && u.alertDelta == 0 && u.facts == [])
    && (forall f :: f in u.facts ==> f.scene == u.fromScene) && Insertable(run, u)
    && OtherActive(run.scenes, u.fromScene) + (if u.toScene.Some? || u.ending.Some? then 0 else 1) +
      (if u.toScene.Some? then 1 else 0) <= 1
  }

  function OtherActive(scenes: seq<RuntimeScene>, from: nat): nat {
    if scenes == [] then 0
    else
      var here := if scenes[0].status.Active? && scenes[0].id != from then 1 else 0;
      here + OtherActive(scenes[1..], from)
  }

  // ---- runs ----

  ghost predicate UniqueRows(scenes: seq<RuntimeScene>) {
    forall i, j :: 0 <= i < j < |scenes| ==> scenes[i].id != scenes[j].id && scenes[i].sequence != scenes[j].sequence
  }

  // A run is active exactly when one scene is, and has an ending exactly when it is not active.
  ghost predicate WellFormed(d: Definition, run: RunSnapshot) {
    && UniqueRows(run.scenes) && SameSequences(d.scenes, run.scenes)
    && (run.active <==> run.ending.None?)
    && (run.active ==> exists k: nat :: OnlyActive(run.scenes, k))
    && (!run.active ==> forall i :: 0 <= i < |run.scenes| ==> !run.scenes[i].status.Active?)
    && 0 <= run.alert <= 5
  }

  lemma ActivePlace(d: Definition, run: RunSnapshot) returns (k: nat, scene: Scene)
    requires UniqueScenes(d.scenes) && WellFormed(d, run) && run.active
    ensures OnlyActive(run.scenes, k) && CurrentScene(d, run) == Some(Place(scene, run.scenes[k]))
    ensures FindSequence(d.scenes, run.scenes[k].sequence) == Some(scene)
    ensures scene in d.scenes && FindScene(d.scenes, scene.ref) == Some(scene)
  {
    k :| OnlyActive(run.scenes, k);
    assert run.scenes[k].sequence in RowSequences(run.scenes);
    var sequence := run.scenes[k].sequence;
    assert sequence in SceneSequences(d.scenes);
    var known :| known in d.scenes && known.sequence == sequence;
    var i :| 0 <= i < |d.scenes| && d.scenes[i] == known;
    FoundSequence(d.scenes, sequence);
    scene := FindSequence(d.scenes, sequence).value;
    FoundUnique(d.scenes, scene);
  }

  lemma {:induction false} FoundUnique(scenes: seq<Scene>, scene: Scene)
    requires UniqueScenes(scenes) && scene in scenes
    ensures FindScene(scenes, scene.ref) == Some(scene) && FindSequence(scenes, scene.sequence) == Some(scene)
  {
    var i :| 0 <= i < |scenes| && scenes[i] == scene;
    FoundScene(scenes, scene.ref);
    FoundSequence(scenes, scene.sequence);
    var a := FindScene(scenes, scene.ref).value;
    var j :| 0 <= j < |scenes| && scenes[j] == a;
    var b := FindSequence(scenes, scene.sequence).value;
    var k :| 0 <= k < |scenes| && scenes[k] == b;
  }

  lemma {:induction false} RuntimeFound(scenes: seq<RuntimeScene>, sequence: nat)
    ensures forall id :: RuntimeOf(scenes, sequence) == Some(id) ==>
      exists i :: 0 <= i < |scenes| && scenes[i].id == id && scenes[i].sequence == sequence
    ensures (exists i :: 0 <= i < |scenes| && scenes[i].sequence == sequence) ==> RuntimeOf(scenes, sequence).Some?
  {
    if scenes != [] {
      RuntimeFound(scenes[1..], sequence);
      assert forall i :: 1 <= i < |scenes| ==> scenes[i] == scenes[1..][i - 1];
    }
  }

  // The scene an effect names has exactly one row in a well-formed run.
  lemma DestinationRow(d: Definition, run: RunSnapshot, ref: string) returns (i: nat, target: Scene)
    requires SameSequences(d.scenes, run.scenes) && KnownScene(d, ref)
    ensures FindScene(d.scenes, ref) == Some(target) && target.ref == ref && target in d.scenes
    ensures i < |run.scenes| && run.scenes[i].sequence == target.sequence
    ensures Destination(d, run, Some(ref)) == Some(Some(run.scenes[i].id))
  {
    FoundScene(d.scenes, ref);
    target := FindScene(d.scenes, ref).value;
    assert target.sequence in SceneSequences(d.scenes);
    assert target.sequence in RowSequences(run.scenes);
    var row :| row in run.scenes && row.sequence == target.sequence;
    var j :| 0 <= j < |run.scenes| && run.scenes[j] == row;
    RuntimeFound(run.scenes, target.sequence);
    var id := RuntimeOf(run.scenes, target.sequence).value;
    i :| 0 <= i < |run.scenes| && run.scenes[i].id == id && run.scenes[i].sequence == target.sequence;
  }

  lemma {:induction false} OtherActiveCount(scenes: seq<RuntimeScene>, from: nat)
    ensures OtherActive(scenes, from) == 0 <==>
      forall i :: 0 <= i < |scenes| && scenes[i].status.Active? ==> scenes[i].id == from
  {
    if scenes != [] {
      OtherActiveCount(scenes[1..], from);
      assert forall i :: 1 <= i < |scenes| ==> scenes[i] == scenes[1..][i - 1];
    }
  }

  lemma MovedSequences(scenes: seq<RuntimeScene>, u: Update)
    ensures |MovedScenes(scenes, u)| == |scenes|
    ensures forall i :: 0 <= i < |scenes| ==>
      MovedScenes(scenes, u)[i].id == scenes[i].id && MovedScenes(scenes, u)[i].sequence == scenes[i].sequence
    ensures RowSequences(MovedScenes(scenes, u)) == RowSequences(scenes)
  {
    var moved := MovedScenes(scenes, u);
    forall n | n in RowSequences(scenes) ensures n in RowSequences(moved) {
      var i :| 0 <= i < |scenes| && scenes[i].sequence == n;
      assert moved[i] in moved;
    }
    forall n | n in RowSequences(moved) ensures n in RowSequences(scenes) {
      var i :| 0 <= i < |moved| && moved[i].sequence == n;
      assert scenes[i] in scenes;
    }
  }

  // An update that leaves the active scene goes to a row of the run, or ends it, or stays.
  ghost predicate Proper(run: RunSnapshot, u: Update) {
    && !(u.toScene.Some? && u.ending.Some?)
    && (exists k: nat :: OnlyActive(run.scenes, k) && run.scenes[k].id == u.fromScene)
    && (u.toScene.Some? ==> exists i :: 0 <= i < |run.scenes| && run.scenes[i].id == u.toScene.value)
    && 0 <= run.alert + u.alertDelta <= 5
  }

  lemma AppliedActive(run: RunSnapshot, u: Update)
    requires UniqueRows(run.scenes) && Proper(run, u)
    ensures u.ending.None? && u.toScene.None? ==> forall k: nat :: OnlyActive(run.scenes, k) ==>
      OnlyActive(Applied(run, u).scenes, k)
    ensures forall i :: 0 <= i < |run.scenes| && u.toScene == Some(run.scenes[i].id) ==>
      OnlyActive(Applied(run, u).scenes, i)
    ensures u.ending.Some? ==> forall i :: 0 <= i < |run.scenes| ==> !Applied(run, u).scenes[i].status.Active?
  {
    var k: nat :| OnlyActive(run.scenes, k) && run.scenes[k].id == u.fromScene;
    MovedSequences(run.scenes, u);
  }

  // Invariant of a run over its commits, together with what every commit leaves alone.
  lemma AppliedWellFormed(d: Definition, run: RunSnapshot, u: Update)
    requires WellFormed(d, run) && run.active && Proper(run, u)
    ensures WellFormed(d, Applied(run, u))
    ensures run.flags <= Applied(run, u).flags && run.facts <= Applied(run, u).facts
    ensures u.ending == Applied(run, u).ending && Applied(run, u).active == u.ending.None?
  {
    AppliedActive(run, u);
    MovedSequences(run.scenes, u);
    var after := Applied(run, u);
    assert UniqueRows(after.scenes);
    if after.active {
      if u.toScene.Some? {
        var i :| 0 <= i < |run.scenes| && run.scenes[i].id == u.toScene.value;
        assert OnlyActive(after.scenes, i);
      } else {
        var k: nat :| OnlyActive(run.scenes, k) && run.scenes[k].id == u.fromScene;
        assert OnlyActive(after.scenes, k);
      }
    }
  }

  // Whatever commit_resolution accepts keeps the run well formed.
  lemma AcceptedIsProper(d: Definition, run: RunSnapshot, turnScene: nat, u: Update)
    requires WellFormed(d, run) && CommitAccepts(d.mvpV2, run, turnScene, u)
    ensures Proper(run, u) && WellFormed(d, Applied(run, u))
  {
    var k: nat :| OnlyActive(run.scenes, k);
    var i :| 0 <= i < |run.scenes| && run.scenes[i].id == u.fromScene && run.scenes[i].status in {Active};
    assert i == k;
    if u.toScene.Some? {
      var j :| 0 <= j < |run.scenes| && run.scenes[j].id == u.toScene.value
        && run.scenes[j].status in Enterable(d.mvpV2);
    }
    AppliedWellFormed(d, run, u);
  }
}
