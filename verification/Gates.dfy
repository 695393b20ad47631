/**
 Which actions a state of a story opens, what they lead to, and when a gate keeps every ending out
 of reach; all stated on the flag lists of the actions, endings and overrides themselves.
 */
module Gates {
  import opened Outcomes
  import opened Scenarios
  import opened Progressor
  import opened Agreement
  import Explorer

  // ---- open actions ----

  ghost predicate Holds(flags: set<string>, wanted: seq<string>) {
    forall f :: f in wanted ==> f in flags
  }

  // Every flag the action requires is held, and none of those that disable it.
  ghost predicate Unlocked(a: Action, flags: set<string>) {
    Holds(flags, a.required) && forall f :: f in a.disabled ==> f !in flags
  }

  lemma AvailableIsUnlocked(a: Action, flags: set<string>)
    ensures Available(a, flags) <==> Unlocked(a, flags)
  {
    assert forall f :: f in Elements(a.required) <==> f in a.required;
    assert forall f :: f in Elements(a.disabled) <==> f in a.disabled;
  }

  // The scene of the definition in which an active run is
  ghost predicate InScene(d: Definition, run: RunSnapshot, k: nat, scene: Scene) {
    run.active && OnlyActive(run.scenes, k) && scene in d.scenes && scene.sequence == run.scenes[k].sequence
  }

  lemma InSceneIsCurrent(d: Definition, run: RunSnapshot, k: nat, scene: Scene)
    requires UniqueScenes(d.scenes) && WellFormed(d, run) && InScene(d, run, k, scene)
    ensures CurrentScene(d, run) == Some(Place(scene, run.scenes[k]))
  {
    var j, current := ActivePlace(d, run);
    FoundUnique(d.scenes, scene);
  }

  // A reference is bound to the action of the active scene that carries it, exactly if that is unlocked.
  lemma BindAnswer(d: Definition, run: RunSnapshot, k: nat, scene: Scene, ref: string, a: Action)
    requires ValidGraph(d) && WellFormed(d, run) && InScene(d, run, k, scene)
    ensures BindRegistered(d, run, ref) == Some(a) <==>
      a in scene.actions && a.ref == ref && Unlocked(a, run.flags)
  {
    InSceneIsCurrent(d, run, k, scene);
    AvailableIsUnlocked(a, run.flags);
    FirstIsAvailable(scene.actions, ref, run.flags);
    FirstHasRef(scene.actions, ref, run.flags);
    if a in scene.actions && a.ref == ref && Unlocked(a, run.flags) { BindsUnique(d, run, scene, a); }
  }

  // A run that is over binds nothing.
  lemma OverBindsNothing(d: Definition, run: RunSnapshot, ref: string)
    requires !run.active
    ensures BindRegistered(d, run, ref).None?
  {
  }

  lemma {:induction false} FirstHasRef(actions: seq<Action>, ref: string, flags: set<string>)
    ensures FirstAvailable(actions, ref, flags).Some? ==> FirstAvailable(actions, ref, flags).value.ref == ref
  {
    if actions != [] { FirstHasRef(actions[1..], ref, flags); }
  }

  // ---- what an effect leads to ----

  // The ending an effect names: the first override whose flags are held, or else its own
  ghost predicate Names(e: Effect, flags: set<string>, ending: string) {
    || (e.ending == Some(ending) && forall i :: 0 <= i < |e.overrides| ==> !Holds(flags, e.overrides[i].requiresFlags))
    || exists i :: FirstHeld(e.overrides, flags, i) && e.overrides[i].ending == ending
  }

  ghost predicate FirstHeld(overrides: seq<Override>, flags: set<string>, i: int) {
    && 0 <= i < |overrides| && Holds(flags, overrides[i].requiresFlags)
    && forall j :: 0 <= j < i ==> !Holds(flags, overrides[j].requiresFlags)
  }

  lemma HoldsElements(flags: set<string>, wanted: seq<string>)
    ensures Elements(wanted) <= flags <==> Holds(flags, wanted)
  {
    assert forall f :: f in Elements(wanted) <==> f in wanted;
  }

  lemma {:induction false} OverriddenAnswer(overrides: seq<Override>, flags: set<string>, ending: Option<string>)
    ensures (forall i :: 0 <= i < |overrides| ==> !Holds(flags, overrides[i].requiresFlags)) ==>
      Overridden(overrides, flags, ending) == ending
    ensures forall i :: FirstHeld(overrides, flags, i) ==>
      Overridden(overrides, flags, ending) == Some(overrides[i].ending)
    ensures (forall i :: 0 <= i < |overrides| ==> !Holds(flags, overrides[i].requiresFlags))
      || exists i :: FirstHeld(overrides, flags, i)
  {
    if overrides != [] {
      var rest := overrides[1..];
      HoldsElements(flags, overrides[0].requiresFlags);
      OverriddenAnswer(rest, flags, ending);
      assert forall i :: 1 <= i < |overrides| ==> overrides[i] == rest[i - 1];
      if Holds(flags, overrides[0].requiresFlags) {
        assert FirstHeld(overrides, flags, 0);
      } else {
        forall i | FirstHeld(overrides, flags, i)
          ensures Overridden(overrides, flags, ending) == Some(overrides[i].ending)
        {
          assert FirstHeld(rest, flags, i - 1) by {
            forall j | 0 <= j < i - 1
              ensures !Holds(flags, rest[j].requiresFlags)
            {
              assert rest[j] == overrides[j + 1];
            }
          }
        }
        if i :| FirstHeld(rest, flags, i) { assert FirstHeld(overrides, flags, i + 1); }
      }
    }
  }

  lemma {:induction false} NamesAnswer(e: Effect, flags: set<string>)
    ensures forall x :: Names(e, flags, x) <==> Overridden(e.overrides, flags, e.ending) == Some(x)
  {
    OverriddenAnswer(e.overrides, flags, e.ending);
  }

  // The flags held once an action has had one of its effects
  ghost predicate Gains(scene: Scene, a: Action, e: Effect, flags: set<string>, after: set<string>) {
    forall f :: f in after <==>
      f in flags || f in e.addFlags || (a.Attack? && scene.combat.Some? && f == scene.combat.value.startedFlag)
  }

  // The ending's own conditions
  ghost predicate Deserved(d: Definition, ending: string, flags: set<string>) {
    exists i :: 0 <= i < |d.endings| && d.endings[i].ref == ending && Holds(flags, d.endings[i].required)
  }

  ghost predicate Yields(d: Definition, scene: Scene, a: Action, e: Effect, flags: set<string>, o: Outcome) {
    match o
    case Skipped => false
    case Ends(x) => Names(e, flags, x) && exists after :: Gains(scene, a, e, flags, after) && Deserved(d, x, after)
    case Moves(t) =>
      && (forall x :: !Names(e, flags, x)) && Gains(scene, a, e, flags, t.flags)
      && t.scene == (if e.nextScene.Some? then e.nextScene.value else scene.ref)
  }

  // A bounded world gives its goal flag in the goal scene only, and a protected fact where it belongs.
  ghost predicate Permits(d: Definition, scene: Scene, flags: set<string>, e: Effect) {
    d.world.Some? ==>
      && (d.world.value.goalFlag in e.addFlags ==> scene.ref == d.world.value.goalScene)
      && forall fact :: fact in d.world.value.facts && fact.acquiredFlag.Some? ==>
        fact.acquiredFlag.value in e.addFlags && fact.acquiredFlag.value !in flags ==> fact.scene == Some(scene.ref)
  }

  lemma {:induction false} FoundEnding(endings: seq<Ending>, ref: string)
    requires UniqueEndings(endings)
    ensures forall i :: 0 <= i < |endings| && endings[i].ref == ref ==> FindEnding(endings, ref) == Some(endings[i])
    ensures FindEnding(endings, ref).Some? ==> exists i :: 0 <= i < |endings| && endings[i].ref == ref
  {
    if endings != [] {
      var rest := endings[1..];
      assert forall i :: 1 <= i < |endings| ==> endings[i] == rest[i - 1];
      assert UniqueEndings(rest);
      FoundEnding(rest, ref);
      if endings[0].ref == ref { assert forall i :: 1 <= i < |endings| ==> endings[i].ref != ref; }
    }
  }

  lemma DeservedAnswer(d: Definition, ending: string, flags: set<string>)
    requires UniqueEndings(d.endings)
    ensures Deserved(d, ending, flags) <==> EndingMet(d, ending, flags)
  {
    FoundEnding(d.endings, ending);
    forall i | 0 <= i < |d.endings| ensures Elements(d.endings[i].required) <= flags <==>
      Holds(flags, d.endings[i].required)
    {
      HoldsElements(flags, d.endings[i].required);
    }
  }

  lemma GainsAnswer(scene: Scene, a: Action, e: Effect, flags: set<string>, after: set<string>)
    ensures Gains(scene, a, e, flags, after) <==> after == ResultingFlags(scene, a, flags, e)
  {
    assert forall f :: f in Elements(e.addFlags) <==> f in e.addFlags;
  }

  lemma OutcomeAnswer(d: Definition, scene: Scene, a: Action, flags: set<string>, e: Effect, o: Outcome)
    requires UniqueEndings(d.endings) && o != Skipped
    ensures EffectOutcome(d, scene, a, flags, e) == o <==>
      Permits(d, scene, flags, e) && Yields(d, scene, a, e, flags, o)
  {
    NamesAnswer(e, flags);
    assert Permits(d, scene, flags, e) <==> !BlockedByWorld(d, scene, flags, e);
    match o
    case Ends(x) =>
      var after := ResultingFlags(scene, a, flags, e);
      forall f ensures Gains(scene, a, e, flags, f) <==> f == after { GainsAnswer(scene, a, e, flags, f); }
      DeservedAnswer(d, x, after);
      assert Yields(d, scene, a, e, flags, o) <==> Names(e, flags, x) && Deserved(d, x, after);
    case Moves(t) =>
      GainsAnswer(scene, a, e, flags, t.flags);
      assert (forall x :: !Names(e, flags, x)) <==> Overridden(e.overrides, flags, e.ending).None?;
  }

  // ---- the graph's steps ----

  // One effect of an unlocked action of the scene the state is in
  ghost predicate Acts(d: Definition, s: State, scene: Scene, a: Action, e: Effect) {
    && scene in d.scenes && scene.ref == s.scene && a in scene.actions && Unlocked(a, s.flags)
    && e in Effects(a) && Permits(d, scene, s.flags, e)
  }

  // The outcomes of a state are those of the effects of its unlocked actions, and no others.
  lemma LeadsAnswer(d: Definition, s: State, o: Outcome)
    requires ValidGraph(d) && o != Skipped
    ensures Leads(d, s, o) <==>
      exists scene, a, e :: Acts(d, s, scene, a, e) && Yields(d, scene, a, e, s.flags, o)
  {
    if Leads(d, s, o) {
      var a, e := LeadsBy(d, s, o);
      var scene := FindScene(d.scenes, s.scene).value;
      FoundScene(d.scenes, s.scene);
      AvailableIsUnlocked(a, s.flags);
      OutcomeAnswer(d, scene, a, s.flags, e, o);
      assert Acts(d, s, scene, a, e);
    }
    if scene, a, e :| Acts(d, s, scene, a, e) && Yields(d, scene, a, e, s.flags, o) {
      FoundUnique(d.scenes, scene);
      AvailableIsUnlocked(a, s.flags);
      OutcomeAnswer(d, scene, a, s.flags, e, o);
    }
  }

  // Every step of a run is an effect of an unlocked action.
  lemma StepsAnswer(d: Definition, run: seq<State>, i: nat)
    requires ValidGraph(d) && Run(d, run) && i + 1 < |run|
    ensures exists scene, a, e ::
      Acts(d, run[i], scene, a, e) && Yields(d, scene, a, e, run[i].flags, Moves(run[i + 1]))
  {
    assert Leads(d, run[i], Moves(run[i + 1]));
    LeadsAnswer(d, run[i], Moves(run[i + 1]));
  }

  // ---- gates ----

  ghost predicate ActionOf(d: Definition, scene: Scene, a: Action) {
    scene in d.scenes && a in scene.actions
  }

  // No effect of any action, and no fight, gives one of these flags.
  ghost predicate Unobtainable(d: Definition, missing: set<string>) {
    && (forall scene, a, e, f :: ActionOf(d, scene, a) && e in Effects(a) && f in e.addFlags ==> f !in missing)
    && forall scene :: scene in d.scenes && scene.combat.Some? ==> scene.combat.value.startedFlag !in missing
  }

  ghost predicate CanName(a: Action) {
    exists e :: e in Effects(a) && (e.ending.Some? || e.overrides != [])
  }

  // The action requires a flag that is missing for good, or is disabled by one that is held.
  ghost predicate Barred(a: Action, missing: set<string>, flags: set<string>) {
    (exists f :: f in a.required && f in missing) || exists f :: f in a.disabled && f in flags
  }

  // Every action that can end the story is barred.
  ghost predicate Gated(d: Definition, missing: set<string>, s: State) {
    && Unobtainable(d, missing) && s.flags !! missing
    && forall scene, a :: ActionOf(d, scene, a) && CanName(a) ==> Barred(a, missing, s.flags)
  }

  lemma GateHolds(d: Definition, missing: set<string>, s: State, t: State)
    requires ValidGraph(d) && Gated(d, missing, s) && Leads(d, s, Moves(t))
    ensures Gated(d, missing, t) && s.flags <= t.flags
  {
    LeadsAnswer(d, s, Moves(t));
    var scene, a, e :| Acts(d, s, scene, a, e) && Yields(d, scene, a, e, s.flags, Moves(t));
    assert ActionOf(d, scene, a);
    forall scene, a | ActionOf(d, scene, a) && CanName(a) ensures Barred(a, missing, t.flags) {
      assert Barred(a, missing, s.flags);
    }
  }

  lemma GateCloses(d: Definition, missing: set<string>, s: State, ending: string)
    requires ValidGraph(d) && Gated(d, missing, s)
    ensures !Leads(d, s, Ends(ending))
  {
    LeadsAnswer(d, s, Ends(ending));
    forall scene, a, e | Acts(d, s, scene, a, e) ensures !CanName(a) {
      assert ActionOf(d, scene, a);
    }
    forall e, x | Names(e, s.flags, x) ensures e.ending.Some? || e.overrides != [] {
    }
    if scene, a, e :| Acts(d, s, scene, a, e) && Yields(d, scene, a, e, s.flags, Ends(ending)) {
      assert false;
    }
  }

  lemma {:induction false} GateAlong(d: Definition, missing: set<string>, run: seq<State>, i: nat)
    requires ValidGraph(d) && Run(d, run) && Gated(d, missing, run[0]) && i < |run|
    ensures Gated(d, missing, run[i])
  {
    if i > 0 {
      GateAlong(d, missing, run, i - 1);
      assert Leads(d, run[i - 1], Moves(run[i - 1 + 1]));
      GateHolds(d, missing, run[i - 1], run[i]);
    }
  }

  // A state from which every action that ends the story is barred can never win.
  lemma GateLaw(d: Definition, missing: set<string>, s: State)
    requires ValidGraph(d) && Gated(d, missing, s)
    ensures !Winnable(d, s)
    ensures forall t, ending :: Reaches(d, s, t) ==> !Leads(d, t, Ends(ending))
  {
    forall t, ending | Reaches(d, s, t) ensures !Leads(d, t, Ends(ending)) {
      var run :| Run(d, run) && run[0] == s && run[|run| - 1] == t;
      GateAlong(d, missing, run, |run| - 1);
      GateCloses(d, missing, t, ending);
    }
  }

  // When it is so from the start, no ending is obtainable, and a complete exploration reports a dead end.
  lemma GatedStory(d: Definition, missing: set<string>)
    requires ValidGraph(d) && Gated(d, missing, StartState(d))
    ensures Explorer.DeadEnd(d) && forall ending :: !Explorer.Obtainable(d, ending)
  {
    GateLaw(d, missing, StartState(d));
  }

  // When a state that can be reached is gated, a complete exploration reports a dead end as well.
  lemma GatedStateIsDeadEnd(d: Definition, missing: set<string>, s: State)
    requires ValidGraph(d) && Gated(d, missing, s) && Reachable(d, s)
    ensures Explorer.DeadEnd(d)
  {
    GateLaw(d, missing, s);
  }

  // ---- what a roll makes of a bound action ----

  ghost predicate Picks(a: Action, roll: Roll, targetHp: Option<nat>, e: Effect) {
    || (a.Direct? && !roll.Failure? && e == a.success)
    || (a.Skill? && roll.Success? && e == a.success)
    || (a.Skill? && roll.Failure? && e == a.failure)
    || (a.Attack? && targetHp == Some(0) && e == a.defeated)
  }

  ghost predicate With(flags: set<string>, added: seq<string>, after: set<string>) {
    forall f :: f in after <==> f in flags || f in added
  }

  // The runtime keeps the flags of a bounded world's protected facts to the scenes they belong to.
  ghost predicate Guarded(d: Definition, scene: Scene, flags: set<string>, e: Effect) {
    d.world.Some? ==> forall fact :: fact in d.world.value.facts && fact.acquiredFlag.Some? ==>
      fact.acquiredFlag.value in e.addFlags && fact.acquiredFlag.value !in flags ==> fact.scene == Some(scene.ref)
  }

  // The ending the effect names, if any, is deserved where the story's schema asks for it.
  ghost predicate Granted(d: Definition, e: Effect, flags: set<string>, after: set<string>) {
    d.schemaVersion == 2 ==> forall x :: Names(e, flags, x) ==> Deserved(d, x, after)
  }

  // What the effect leaves behind: its flags, the ending it names, one more action of time under mvp_v2, and
  // unless the run has ended, the scene it leads to
  ghost predicate Taken(d: Definition, run: RunSnapshot, scene: Scene, e: Effect, flags: set<string>,
          after: RunSnapshot)
  {
    && after.flags == flags && after.alert == run.alert && after.facts == run.facts
    && after.elapsed == run.elapsed + (if d.mvpV2 then 1 else 0)
    && (forall x :: Names(e, run.flags, x) ==> after.ending == Some(x) && !after.active)
    && ((forall x :: !Names(e, run.flags, x)) ==> forall target ::
          target in d.scenes && target.ref == (if e.nextScene.Some? then e.nextScene.value else scene.ref) ==>
            after.ending == run.ending && exists i :: 0 <= i < |run.scenes| && InScene(d, after, i, target))
  }

  lemma MoveLands(d: Definition, run: RunSnapshot, k: nat, u: Update, i: nat, target: Scene)
    requires UniqueRows(run.scenes) && OnlyActive(run.scenes, k) && run.active && u.fromScene == run.scenes[k].id
    requires i < |run.scenes| && target in d.scenes && target.sequence == run.scenes[i].sequence && u.ending.None?
    requires u.toScene == Some(run.scenes[i].id) || (u.toScene.None? && i == k)
    ensures InScene(d, Applied(run, u), i, target)
  {
    MovedSequences(run.scenes, u);
  }

  // The update of an effect leads to its scene.
  lemma UpdateLands(d: Definition, run: RunSnapshot, k: nat, scene: Scene, next: Option<string>, u: Update,
          target: Scene)
    requires ValidGraph(d) && WellFormed(d, run) && InScene(d, run, k, scene) && u.fromScene == run.scenes[k].id
    requires Destination(d, run, next) == Some(u.toScene)
      || (u.toScene.None? && Destination(d, run, next) == Some(Some(run.scenes[k].id)))
    requires target in d.scenes && target.ref == (if next.Some? then next.value else scene.ref) && u.ending.None?
    ensures exists i :: 0 <= i < |run.scenes| && InScene(d, Applied(run, u), i, target)
  {
    FoundUnique(d.scenes, target);
    FoundUnique(d.scenes, scene);
    if next.Some? {
      RuntimeFound(run.scenes, target.sequence);
      var id := RuntimeOf(run.scenes, target.sequence).value;
      var i :| 0 <= i < |run.scenes| && run.scenes[i].id == id && run.scenes[i].sequence == target.sequence;
      MoveLands(d, run, k, u, i, target);
    } else {
      MoveLands(d, run, k, u, k, target);
    }
  }

  lemma KnownLands(d: Definition, run: RunSnapshot, next: Option<string>)
    requires WellFormed(d, run) && (next.Some? ==> KnownScene(d, next.value))
    ensures Destination(d, run, next).Some?
  {
    if next.Some? { var i, target := DestinationRow(d, run, next.value); }
  }

  lemma EffectAnswer(d: Definition, run: RunSnapshot, k: nat, scene: Scene, e: Effect, after: set<string>)
    requires ValidGraph(d) && WellFormed(d, run) && InScene(d, run, k, scene) && KnownEffect(d, e)
    requires With(run.flags, e.addFlags, after)
    ensures var p := ProgressEffect(d, run, Place(scene, run.scenes[k]), e);
      if Guarded(d, scene, run.flags, e) && Granted(d, e, run.flags, after) then
        p.Updated? && Taken(d, run, scene, e, after, Applied(run, p.update))
      else p == Unavailable
  {
    var p := ProgressEffect(d, run, Place(scene, run.scenes[k]), e);
    assert forall f :: f in Elements(e.addFlags) <==> f in e.addFlags;
    assert after == run.flags + Elements(e.addFlags);
    assert Guarded(d, scene, run.flags, e) <==> !ProtectedElsewhere(d, scene, run.flags, Elements(e.addFlags));
    NamesAnswer(e, run.flags);
    forall x ensures Deserved(d, x, after) <==> EndingMet(d, x, after) { DeservedAnswer(d, x, after); }
    KnownLands(d, run, e.nextScene);
    if p.Updated? { TakenAnswer(d, run, k, scene, e, after); }
  }

  lemma TakenAnswer(d: Definition, run: RunSnapshot, k: nat, scene: Scene, e: Effect, after: set<string>)
    requires ValidGraph(d) && WellFormed(d, run) && InScene(d, run, k, scene)
    requires after == run.flags + Elements(e.addFlags)
    requires ProgressEffect(d, run, Place(scene, run.scenes[k]), e).Updated?
    ensures Taken(d, run, scene, e, after,
        Applied(run, ProgressEffect(d, run, Place(scene, run.scenes[k]), e).update))
  {
    var u := ProgressEffect(d, run, Place(scene, run.scenes[k]), e).update;
    NamesAnswer(e, run.flags);
    forall target | target in d.scenes
      && target.ref == (if e.nextScene.Some? then e.nextScene.value else scene.ref) && u.ending.None?
      ensures exists i :: 0 <= i < |run.scenes| && InScene(d, Applied(run, u), i, target)
    {
      UpdateLands(d, run, k, scene, e.nextScene, u, target);
    }
    assert (forall x :: !Names(e, run.flags, x)) ==> u.ending.None?;
  }

  // A roll picks one effect of the action. It changes the run as it says, or is not available where a world
  // guards one of its flags or the ending it names is not deserved. A roll that picks none changes nothing.
  lemma RollAnswer(d: Definition, run: RunSnapshot, k: nat, scene: Scene, a: Action, roll: Roll, targetHp: Option<nat>)
    requires ValidGraph(d) && WellFormed(d, run) && InScene(d, run, k, scene) && a in scene.actions
    ensures var p := ProgressFor(d, run, a, roll, targetHp);
      && ((forall e :: !Picks(a, roll, targetHp, e)) ==> p == Unchanged)
      && forall e, after :: Picks(a, roll, targetHp, e) && With(run.flags, e.addFlags, after) ==>
        if Guarded(d, scene, run.flags, e) && Granted(d, e, run.flags, after) then
          p.Updated? && Taken(d, run, scene, e, after, Applied(run, p.update))
        else p == Unavailable
  {
    InSceneIsCurrent(d, run, k, scene);
    var p := ProgressFor(d, run, a, roll, targetHp);
    forall e, after | Picks(a, roll, targetHp, e) && With(run.flags, e.addFlags, after)
      ensures if Guarded(d, scene, run.flags, e) && Granted(d, e, run.flags, after) then
          p.Updated? && Taken(d, run, scene, e, after, Applied(run, p.update))
        else p == Unavailable
    {
      assert e in Effects(a);
      KnownAt(d, scene, a);
      EffectAnswer(d, run, k, scene, e, after);
      assert p == ProgressEffect(d, run, Place(scene, run.scenes[k]), e);
    }
    if ChosenEffect(a, roll, targetHp).Some? {
      assert Picks(a, roll, targetHp, ChosenEffect(a, roll, targetHp).value);
    }
  }

  // ---- what a commit accepts ----

  // Another scene of the run, not left yet unless the ruleset lets a run go back
  ghost predicate MayEnter(d: Definition, run: RunSnapshot, k: nat, id: nat) {
    exists i ::
      0 <= i < |run.scenes| && i != k && run.scenes[i].id == id && (d.mvpV2 || run.scenes[i].status == Planned)
  }

  // New flags, each named once, and new facts of the scene, each under its own reference
  ghost predicate AllNew(run: RunSnapshot, u: Update) {
    && (forall f :: f in u.addFlags ==> f !in run.flags)
    && (forall i, j :: 0 <= i < |u.addFlags| && 0 <= j < |u.addFlags| && i != j ==> u.addFlags[i] != u.addFlags[j])
    && (forall f, g :: f in u.facts && g in run.facts ==> f.ref != g.ref)
    && (forall i, j :: 0 <= i < |u.facts| && 0 <= j < |u.facts| && i != j ==> u.facts[i].ref != u.facts[j].ref)
    && forall f :: f in u.facts ==> f.scene == u.fromScene
  }

  // An update, however it was made, is accepted exactly if it leaves the active scene of the turn for one that
  // may be entered, or ends the run, or stays; what it adds is new; and time, alert and facts are within the
  // ruleset's bounds.
  lemma CommitAnswer(d: Definition, run: RunSnapshot, k: nat, turnScene: nat, u: Update)
    requires WellFormed(d, run) && OnlyActive(run.scenes, k) && run.active
    ensures CommitAccepts(d.mvpV2, run, turnScene, u) <==>
      && u.fromScene == turnScene && run.scenes[k].id == turnScene && AllNew(run, u)
      && (u.toScene.Some? ==> u.ending.None? && MayEnter(d, run, k, u.toScene.value))
      && u.elapsed >= 0 && 0 <= run.alert + u.alertDelta && run.alert + u.alertDelta <= 5
      && (d.mvpV2 || (u.elapsed == 0 && u.alertDelta == 0 && u.facts == []))
  {
    OtherActiveCount(run.scenes, run.scenes[k].id);
    assert HasStatus(run.scenes, u.fromScene, {Active}) <==> u.fromScene == run.scenes[k].id;
    if u.toScene.Some? {
      assert HasStatus(run.scenes, u.toScene.value, Enterable(d.mvpV2)) <==> MayEnter(d, run, k, u.toScene.value);
    }
    assert Insertable(run, u) && (forall f :: f in u.facts ==> f.scene == u.fromScene) <==> AllNew(run, u);
  }
}
