/**
 Open actions: which effects a run admits, and what one leaves behind, in terms of the story's and
 the effect's own lists.
 */
module OpenAnswers {
  import opened Outcomes
  import opened Scenarios
  import opened Progressor
  import opened RunCommits
  import opened Gates

  // A fact of the run under this reference
  ghost predicate Knows(run: RunSnapshot, ref: string, f: Fact) {
    f in run.facts && f.ref == ref
  }

  // The fact the action is about is known, and here if it is a place or a person.
  ghost predicate About(run: RunSnapshot, target: Option<string>, here: nat) {
    target.Some? ==> exists f ::
      Knows(run, target.value, f) && (f.kind in {PlaceFact, PersonFact} ==> f.scene == here)
  }

  // A fact that may be told: possible, none of the story's own, and as it was told before
  ghost predicate Tellable(d: Definition, lang: Language, run: RunSnapshot, here: nat, flags: set<string>, f: OpenFact)
  {
    && !lang.impossible(f.text) && !lang.contradicts(f.text, flags)
    && (d.world.Some? ==> forall p :: p in d.world.value.facts ==> p.ref != f.ref)
    && (d.schemaVersion == 2 && d.entities.Some? ==> f.ref !in d.entities.value && f.ref != "hero")
    && forall g :: Knows(run, f.ref, g) ==> g.kind == f.kind && g.text == f.text && g.scene == here
  }

  // Flags that open actions of the scene may give, in their places
  ghost predicate Givable(d: Definition, scene: Scene, flags: set<string>, added: seq<string>) {
    && (forall f :: f in added ==> f in scene.openFlags)
    && (d.world.Some? ==>
          && (d.world.value.goalFlag in added ==> scene.ref == d.world.value.goalScene)
          && forall fact :: fact in d.world.value.facts && fact.acquiredFlag.Some? ==>
            fact.acquiredFlag.value in added && fact.acquiredFlag.value !in flags ==> fact.scene == Some(scene.ref))
  }

  ghost predicate NoDefeat(d: Definition, ending: string) {
    forall s :: s in d.scenes && s.combat.Some? ==> s.combat.value.defeatEnding != ending
  }

  // The run admits the effect in this scene.
  ghost predicate Admits(d: Definition, lang: Language, run: RunSnapshot, scene: Scene, here: nat, e: OpenEffect,
          after: set<string>)
  {
    && Givable(d, scene, run.flags, e.addFlags)
    && (e.ending.Some? ==> NoDefeat(d, e.ending.value) && Deserved(d, e.ending.value, after))
    && (e.nextScene.Some? ==> e.nextScene.value in scene.openDestinations)
    && (forall i, j :: 0 <= i < j < |e.facts| ==> e.facts[i].ref != e.facts[j].ref)
    && forall f :: f in e.facts ==> Tellable(d, lang, run, here, after, f)
  }

  function Within(alert: int): int {
    if alert > 5 then 5 else if alert < 0 then 0 else alert
  }

  // What the effect leaves behind: its flags, its ending, the alert moved by its delta within 0..5, one more
  // action of time, and the facts that were not known, located where the run was.
  ghost predicate Left(run: RunSnapshot, here: nat, e: OpenEffect, flags: set<string>, after: RunSnapshot) {
    && after.flags == flags && after.ending == (if e.ending.Some? then e.ending else run.ending)
    && after.alert == Within(run.alert + e.alertDelta) && after.elapsed == run.elapsed + 1
    && run.facts <= after.facts
    && (forall f :: f in after.facts && f !in run.facts ==>
          f.scene == here && exists g :: g in e.facts && f.ref == g.ref && f.kind == g.kind && f.text == g.text)
    && forall g :: g in e.facts ==> exists f :: f in after.facts && f.ref == g.ref
  }

  lemma {:induction false} FoundIsFirst(facts: seq<Fact>, ref: string)
    ensures FindFact(facts, ref).Some? ==> FindFact(facts, ref).value in facts && FindFact(facts, ref).value.ref == ref
  {
    if facts != [] { FoundIsFirst(facts[1..], ref); }
  }

  // Under distinct references a fact is the one found.
  lemma {:induction false} KnownIsFound(run: RunSnapshot, ref: string, f: Fact)
    requires UniqueFacts(run.facts) && Knows(run, ref, f)
    ensures FindFact(run.facts, ref) == Some(f)
  {
    FoundFact(run.facts, ref);
    FoundIsFirst(run.facts, ref);
    var g := FindFact(run.facts, ref).value;
    var i :| 0 <= i < |run.facts| && run.facts[i] == f;
    var j :| 0 <= j < |run.facts| && run.facts[j] == g;
  }

  lemma AboutAnswer(run: RunSnapshot, target: Option<string>, here: nat)
    requires UniqueFacts(run.facts)
    ensures About(run, target, here) <==> TargetHere(run, target, here)
  {
    if target.Some? {
      FoundFact(run.facts, target.value);
      FoundIsFirst(run.facts, target.value);
      if FindFact(run.facts, target.value).Some? {
        assert Knows(run, target.value, FindFact(run.facts, target.value).value);
      }
      forall f | Knows(run, target.value, f) ensures FindFact(run.facts, target.value) == Some(f) {
        KnownIsFound(run, target.value, f);
      }
    }
  }

  lemma TellableAnswer(d: Definition, lang: Language, run: RunSnapshot, here: nat, flags: set<string>, f: OpenFact)
    requires UniqueFacts(run.facts)
    ensures Tellable(d, lang, run, here, flags, f) <==> FactAllowed(d, lang, run, here, flags, f)
  {
    FoundFact(run.facts, f.ref);
    FoundIsFirst(run.facts, f.ref);
    if FindFact(run.facts, f.ref).Some? { assert Knows(run, f.ref, FindFact(run.facts, f.ref).value); }
    forall g | Knows(run, f.ref, g) ensures FindFact(run.facts, f.ref) == Some(g) { KnownIsFound(run, f.ref, g); }
  }

  lemma GivableAnswer(d: Definition, scene: Scene, flags: set<string>, added: seq<string>)
    ensures Givable(d, scene, flags, added) <==> FlagsAllowed(d, scene, flags, Elements(added))
  {
    assert forall f :: f in Elements(added) <==> f in added;
    assert forall f :: f in Elements(scene.openFlags) <==> f in scene.openFlags;
  }

  lemma EndingAnswer(d: Definition, ending: Option<string>, flags: set<string>)
    requires UniqueEndings(d.endings)
    ensures (ending.Some? ==> NoDefeat(d, ending.value) && Deserved(d, ending.value, flags)) <==>
      EndingAllowed(d, ending, flags)
  {
    if ending.Some? { DeservedAnswer(d, ending.value, flags); }
  }

  // The row of the run an open destination leads to
  lemma DestinationAnswer(d: Definition, run: RunSnapshot, scene: Scene, next: Option<string>)
    requires ValidGraph(d) && WellFormed(d, run) && scene in d.scenes
    requires next.Some? ==> next.value in scene.openDestinations
    ensures Destination(d, run, next).Some? && (next.Some? ==> FindScene(d.scenes, next.value).Some?)
  {
    if next.Some? {
      var i :| 0 <= i < |d.scenes| && d.scenes[i] == scene;
      assert KnownOpen(d, d.scenes[i]);
      var j, target := DestinationRow(d, run, next.value);
    }
  }

  lemma {:induction false} AdmitsAnswer(d: Definition, lang: Language, run: RunSnapshot, scene: Scene,
          runtime: RuntimeScene, e: OpenEffect, after: set<string>)
    requires ValidGraph(d) && WellFormed(d, run) && UniqueFacts(run.facts) && scene in d.scenes
    requires With(run.flags, e.addFlags, after)
    ensures OpenProgress(d, lang, run, Place(scene, runtime), e).Updated? <==>
      Admits(d, lang, run, scene, runtime.id, e, after)
    ensures OpenProgress(d, lang, run, Place(scene, runtime), e).Updated?
      || OpenProgress(d, lang, run, Place(scene, runtime), e) == Unavailable
  {
    assert forall f :: f in Elements(e.addFlags) <==> f in e.addFlags;
    assert after == run.flags + Elements(e.addFlags);
    GivableAnswer(d, scene, run.flags, e.addFlags);
    EndingAnswer(d, e.ending, after);
    forall f ensures Tellable(d, lang, run, runtime.id, after, f) <==> FactAllowed(d, lang, run, runtime.id, after, f) {
      TellableAnswer(d, lang, run, runtime.id, after, f);
    }
    if e.nextScene.Some? ==> e.nextScene.value in scene.openDestinations {
      DestinationAnswer(d, run, scene, e.nextScene);
    }
  }

  lemma {:induction false} NewFactsAnswer(facts: seq<OpenFact>, known: seq<Fact>, here: nat)
    ensures forall f :: f in NewFacts(facts, known, here) ==>
      f.scene == here && exists g :: g in facts && f.ref == g.ref && f.kind == g.kind && f.text == g.text
    ensures forall g :: g in facts && FindFact(known, g.ref).None? ==>
      exists f :: f in NewFacts(facts, known, here) && f.ref == g.ref
  {
    if facts != [] {
      NewFactsAnswer(facts[1..], known, here);
      var own := if FindFact(known, facts[0].ref).None? then
        [Fact(facts[0].ref, facts[0].kind, facts[0].text, here)] else [];
      assert NewFacts(facts, known, here) == own + NewFacts(facts[1..], known, here);
      assert forall g :: g in facts <==> g == facts[0] || g in facts[1..];
      assert own != [] ==> own[0] in own + NewFacts(facts[1..], known, here);
    }
  }

  lemma LeftAnswer(d: Definition, lang: Language, run: RunSnapshot, place: Place, e: OpenEffect, flags: set<string>)
    requires OpenProgress(d, lang, run, place, e).Updated? && With(run.flags, e.addFlags, flags) && 0 <= run.alert <= 5
    ensures Left(run, place.runtime.id, e, flags,
        Applied(run, OpenProgress(d, lang, run, place, e).update))
  {
    var u := OpenProgress(d, lang, run, place, e).update;
    assert forall f :: f in Elements(e.addFlags) <==> f in e.addFlags;
    NewFactsAnswer(e.facts, run.facts, place.runtime.id);
    var after := Applied(run, u);
    assert after.facts == run.facts + u.facts;
    forall g | g in e.facts ensures exists f :: f in after.facts && f.ref == g.ref {
      FoundIsFirst(run.facts, g.ref);
    }
  }

  // The effect the open action has when it goes this way; a failure without an effect has none.
  ghost predicate Attempted(intent: OpenIntent, success: bool, e: OpenEffect) {
    if success then e == intent.success else intent.failure == Some(e)
  }

  // An open action updates the run exactly if the story is an open one, the approach is possible, its
  // target is known and here, and the run admits the effect; and then it leaves that effect behind.
  lemma {:induction false} OpenAnswer(d: Definition, lang: Language, run: RunSnapshot, k: nat, scene: Scene,
          intent: OpenIntent, success: bool, e: OpenEffect, after: set<string>)
    requires ValidGraph(d) && WellFormed(d, run) && UniqueFacts(run.facts) && InScene(d, run, k, scene)
    requires Attempted(intent, success, e) && With(run.flags, e.addFlags, after)
    ensures var p := ProgressOpen(d, lang, run, intent, success);
      if d.world.Some? && d.mvpV2 && !lang.impossible(intent.approach)
        && About(run, intent.targetFact, run.scenes[k].id)
        && Admits(d, lang, run, scene, run.scenes[k].id, e, after) then
        p.Updated? && Left(run, run.scenes[k].id, e, after, Applied(run, p.update))
      else p == Unavailable
  {
    InSceneIsCurrent(d, run, k, scene);
    AboutAnswer(run, intent.targetFact, run.scenes[k].id);
    AdmitsAnswer(d, lang, run, scene, run.scenes[k], e, after);
    if OpenProgress(d, lang, run, Place(scene, run.scenes[k]), e).Updated? {
      LeftAnswer(d, lang, run, Place(scene, run.scenes[k]), e, after);
    }
  }

  // Where the run is afterwards: in the scene the effect names, or where it was
  lemma {:induction false} OpenMove(d: Definition, lang: Language, run: RunSnapshot, k: nat, scene: Scene,
          intent: OpenIntent, success: bool, e: OpenEffect, target: Scene)
    requires ValidGraph(d) && WellFormed(d, run) && UniqueFacts(run.facts) && InScene(d, run, k, scene)
    requires Attempted(intent, success, e) && !(e.nextScene.Some? && e.ending.Some?)
    requires target in d.scenes && target.ref == (if e.nextScene.Some? then e.nextScene.value else scene.ref)
    ensures var p := ProgressOpen(d, lang, run, intent, success);
      p.Updated? && e.ending.None? ==>
        exists i :: 0 <= i < |run.scenes| && InScene(d, Applied(run, p.update), i, target)
  {
    InSceneIsCurrent(d, run, k, scene);
    var p := ProgressOpen(d, lang, run, intent, success);
    if p.Updated? && e.ending.None? { UpdateLands(d, run, k, scene, e.nextScene, p.update, target); }
  }
}
