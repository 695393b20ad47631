/** What commits do to saved runs: which updates are refused, and what every run keeps. */
module RunCommits {
  import opened Outcomes
  import opened Scenarios
  import opened Progressor

  // ---- updates of registered actions ----

  lemma OnlyOtherActive(run: RunSnapshot, k: nat)
    requires OnlyActive(run.scenes, k) && UniqueRows(run.scenes)
    ensures OtherActive(run.scenes, run.scenes[k].id) == 0 && HasStatus(run.scenes, run.scenes[k].id, {Active})
  {
    OtherActiveCount(run.scenes, run.scenes[k].id);
  }

  lemma {:induction false} EndingNeedsNoMove(overrides: seq<Override>, flags: set<string>)
    ensures overrides == [] ==> Overridden(overrides, flags, None).None?
  {
  }

  // Another row of the run than the active one, planned unless the run may go back
  ghost predicate Elsewhere(mvpV2: bool, run: RunSnapshot, k: nat, id: nat) {
    exists i :: 0 <= i < |run.scenes| && run.scenes[i].id == id && i != k && (mvpV2 || run.scenes[i].status.Planned?)
  }

  lemma ElsewhereIsEnterable(mvpV2: bool, run: RunSnapshot, k: nat, id: nat)
    requires UniqueRows(run.scenes) && OnlyActive(run.scenes, k)
    ensures HasStatus(run.scenes, id, Enterable(mvpV2)) <==> Elsewhere(mvpV2, run, k, id)
  {
  }

  lemma {:induction false} FreshInsertable(run: RunSnapshot, flags: seq<string>)
    ensures Distinct(Fresh(flags, run.flags)) <==> !Repeats(flags, run.flags)
    ensures forall f :: f in Fresh(flags, run.flags) ==> f !in run.flags
  {
    FreshKeepsRepeats(flags, run.flags);
    assert forall f :: f in Fresh(flags, run.flags) ==> f in Elements(Fresh(flags, run.flags));
  }

  lemma EffectCommit(d: Definition, run: RunSnapshot, place: Place, e: Effect, k: nat)
    requires UniqueRows(run.scenes) && OnlyActive(run.scenes, k) && run.active && 0 <= run.alert <= 5
    requires place.runtime == run.scenes[k] && KnownEffect(d, e) && ProgressEffect(d, run, place, e).Updated?
    ensures var u := ProgressEffect(d, run, place, e).update;
      CommitAccepts(d.mvpV2, run, run.scenes[k].id, u) <==>
      (u.toScene.Some? ==> Elsewhere(d.mvpV2, run, k, u.toScene.value)) && !Repeats(e.addFlags, run.flags)
  {
    var u := ProgressEffect(d, run, place, e).update;
    FreshInsertable(run, e.addFlags);
    EndingNeedsNoMove(e.overrides, run.flags);
    OnlyOtherActive(run, k);
    if u.toScene.Some? { ElsewhereIsEnterable(d.mvpV2, run, k, u.toScene.value); }
  }

  // The commit refuses an update of a registered action for its destination, which is the scene
  // the run is in or under mvp_v1 one it has left, or for a new flag the effect names twice, and
  // for nothing else.
  lemma RegisteredCommit(d: Definition, run: RunSnapshot, a: Action, roll: Roll, hp: Option<nat>, k: nat)
    requires ValidGraph(d) && WellFormed(d, run) && OnlyActive(run.scenes, k) && run.active
    requires ProgressFor(d, run, a, roll, hp).Updated?
    ensures ChosenEffect(a, roll, hp).Some?
    ensures var u := ProgressFor(d, run, a, roll, hp).update;
      CommitAccepts(d.mvpV2, run, run.scenes[k].id, u) <==>
      (u.toScene.Some? ==> Elsewhere(d.mvpV2, run, k, u.toScene.value))
        && !Repeats(ChosenEffect(a, roll, hp).value.addFlags, run.flags)
  {
    var j, scene := ActivePlace(d, run);
    var e := ChosenEffect(a, roll, hp).value;
    assert e in Effects(a);
    KnownAt(d, scene, a);
    EffectCommit(d, run, Place(scene, run.scenes[k]), e, k);
  }

  // ---- open actions ----

  datatype OpenFact = OpenFact(ref: string, kind: FactKind, text: string)

  datatype OpenEffect = OpenEffect(nextScene: Option<string>, ending: Option<string>, addFlags: seq<string>,
      alertDelta: int, facts: seq<OpenFact>)

  datatype OpenIntent = OpenIntent(approach: string, targetFact: Option<string>, success: OpenEffect,
      failure: Option<OpenEffect>)

  // The heuristics over natural language that progress_open consults.
  datatype Language = Language(impossible: string -> bool, contradicts: (string, set<string>) -> bool)

  function FindFact(facts: seq<Fact>, ref: string): Option<Fact> {
    if facts == [] then None else if facts[0].ref == ref then Some(facts[0]) else FindFact(facts[1..], ref)
  }

  predicate DistinctFacts(facts: seq<OpenFact>) {
    forall i, j :: 0 <= i < j < |facts| ==> facts[i].ref != facts[j].ref
  }

  predicate TargetHere(run: RunSnapshot, target: Option<string>, active: nat) {
    target.Some? ==>
      var fact := FindFact(run.facts, target.value);
      fact.Some? && (fact.value.kind in {PlaceFact, PersonFact} ==> fact.value.scene == active)
  }

  predicate DefeatEnding(d: Definition, ending: string) {
    exists s :: s in d.scenes && s.combat.Some? && s.combat.value.defeatEnding == ending
  }

  predicate FactAllowed(d: Definition, lang: Language, run: RunSnapshot, active: nat, flags: set<string>, f: OpenFact) {
    && !lang.impossible(f.text)
    && (d.world.Some? ==> forall p :: p in d.world.value.facts ==> p.ref != f.ref)
    && (d.schemaVersion == 2 && d.entities.Some? ==> f.ref !in d.entities.value && f.ref != "hero")
    && !lang.contradicts(f.text, flags)
    && var previous := FindFact(run.facts, f.ref);
       previous.Some? ==>
         previous.value.kind == f.kind && previous.value.text == f.text && previous.value.scene == active
  }

  predicate EndingAllowed(d: Definition, ending: Option<string>, flags: set<string>) {
    ending.Some? ==> !DefeatEnding(d, ending.value) && EndingMet(d, ending.value, flags)
  }

  predicate FlagsAllowed(d: Definition, scene: Scene, flags: set<string>, added: set<string>) {
    && added <= Elements(scene.openFlags)
    && (d.world.Some? && d.world.value.goalFlag in added ==> scene.ref == d.world.value.goalScene)
    && !ProtectedElsewhere(d, scene, flags, added)
  }

  function Clamp(alert: int): (r: int)
    ensures 0 <= r <= 5
  {
    if alert < 0 then 0 else if alert > 5 then 5 else alert
  }

  // New facts, located in the active scene
  function NewFacts(facts: seq<OpenFact>, known: seq<Fact>, active: nat): seq<Fact> {
    if facts == [] then []
    else (if FindFact(known, facts[0].ref).None? then [Fact(facts[0].ref, facts[0].kind, facts[0].text, active)]
        else []) + NewFacts(facts[1..], known, active)
  }

  // progress_open
  function ProgressOpen(d: Definition, lang: Language, run: RunSnapshot, intent: OpenIntent, success: bool): Progress {
    match CurrentScene(d, run)
    case None => StateError
    case Some(place) =>
      if d.world.None? || !d.mvpV2 || lang.impossible(intent.approach)
        || !TargetHere(run, intent.targetFact, place.runtime.id) then Unavailable
      else if !success && intent.failure.None? then Unavailable
      else OpenProgress(d, lang, run, place, if success then intent.success else intent.failure.value)
  }

  function OpenProgress(d: Definition, lang: Language, run: RunSnapshot, place: Place, e: OpenEffect): Progress {
    var added := Elements(e.addFlags);
    if !FlagsAllowed(d, place.scene, run.flags, added)
      || !EndingAllowed(d, e.ending, run.flags + added) then Unavailable
    else if e.nextScene.Some?
      && (FindScene(d.scenes, e.nextScene.value).None? || e.nextScene.value !in place.scene.openDestinations) then
        Unavailable
    else if !DistinctFacts(e.facts)
      || exists f :: f in e.facts && !FactAllowed(d, lang, run, place.runtime.id, run.flags + added, f) then Unavailable
    else
      match Destination(d, run, e.nextScene)
      case None => StateError
      case Some(to) =>
        Updated(Update(place.runtime.id, if to ==
            Some(place.runtime.id) then None else to, Fresh(e.addFlags, run.flags), e.ending,
                       1, Clamp(run.alert + e.alertDelta) - run.alert, NewFacts(e.facts, run.facts, place.runtime.id)))
  }

  lemma {:induction false} FoundFact(facts: seq<Fact>, ref: string)
    ensures FindFact(facts, ref).None? <==> forall f :: f in facts ==> f.ref != ref
  {
    if facts != [] {
      FoundFact(facts[1..], ref);
      assert forall f :: f in facts <==> f == facts[0] || f in facts[1..];
    }
  }

  function Refs(facts: seq<OpenFact>): set<string> {
    set f | f in facts :: f.ref
  }

  lemma {:induction false} NewFactsFresh(facts: seq<OpenFact>, known: seq<Fact>, active: nat)
    requires DistinctFacts(facts)
    ensures UniqueFacts(NewFacts(facts, known, active))
    ensures forall f :: f in NewFacts(facts, known, active) ==>
      f.scene == active && f.ref in Refs(facts) && FindFact(known, f.ref).None?
  {
    if facts != [] {
      var head, tail := facts[0], facts[1..];
      NewFactsFresh(tail, known, active);
      assert facts == [head] + tail;
      assert Refs(facts) == {head.ref} + Refs(tail);
      assert head.ref !in Refs(tail);
      var rest := NewFacts(tail, known, active);
      assert forall i :: 0 <= i < |rest| ==> rest[i] in rest;
    }
  }

  lemma {:induction false} FactsStayUnique(known: seq<Fact>, facts: seq<OpenFact>, active: nat)
    requires UniqueFacts(known) && DistinctFacts(facts)
    ensures UniqueFacts(known + NewFacts(facts, known, active))
  {
    var added := NewFacts(facts, known, active);
    NewFactsFresh(facts, known, active);
    forall i, j | 0 <= i < |known| && 0 <= j < |added| ensures known[i].ref != added[j].ref {
      assert added[j] in added;
      FoundFact(known, added[j].ref);
      assert known[i] in known;
    }
  }

  function OpenChoice(intent: OpenIntent, success: bool): OpenEffect
    requires success || intent.failure.Some?
  {
    if success then intent.success else intent.failure.value
  }

  // The commit refuses an update of progress_open exactly for a new flag the effect names twice;
  // the facts it adds never repeat a reference.
  lemma OpenCommit(d: Definition, lang: Language, run: RunSnapshot, intent: OpenIntent, success: bool, k: nat)
    requires ValidGraph(d) && WellFormed(d, run) && UniqueFacts(run.facts) && OnlyActive(run.scenes, k) && run.active
    requires !(intent.success.nextScene.Some? && intent.success.ending.Some?)
    requires intent.failure.Some? ==> !(intent.failure.value.nextScene.Some? && intent.failure.value.ending.Some?)
    requires ProgressOpen(d, lang, run, intent, success).Updated?
    ensures success || intent.failure.Some?
    ensures var u := ProgressOpen(d, lang, run, intent, success).update;
      && (CommitAccepts(d.mvpV2, run, run.scenes[k].id, u) <==>
            !Repeats(OpenChoice(intent, success).addFlags, run.flags))
      && UniqueFacts(Applied(run, u).facts) && Applied(run, u).elapsed == run.elapsed + 1
  {
    var j, scene := ActivePlace(d, run);
    var e := OpenChoice(intent, success);
    OpenEffectCommit(d, lang, run, Place(scene, run.scenes[k]), e, k);
  }

  lemma OpenEffectCommit(d: Definition, lang: Language, run: RunSnapshot, place: Place, e: OpenEffect, k: nat)
    requires UniqueRows(run.scenes) && UniqueFacts(run.facts) && OnlyActive(run.scenes, k) && run.active
      && 0 <= run.alert <= 5
    requires d.mvpV2 && place.runtime == run.scenes[k] && !(e.nextScene.Some? && e.ending.Some?)
    requires OpenProgress(d, lang, run, place, e).Updated?
    ensures var u := OpenProgress(d, lang, run, place, e).update;
      && (CommitAccepts(true, run, run.scenes[k].id, u) <==> !Repeats(e.addFlags, run.flags))
      && UniqueFacts(Applied(run, u).facts) && Applied(run, u).elapsed == run.elapsed + 1
  {
    var u := OpenProgress(d, lang, run, place, e).update;
    OnlyOtherActive(run, k);
    FreshInsertable(run, e.addFlags);
    NewFactsFresh(e.facts, run.facts, run.scenes[k].id);
    forall f | f in u.facts ensures forall g :: g in run.facts ==> f.ref != g.ref { FoundFact(run.facts, f.ref); }
    FactsStayUnique(run.facts, e.facts, run.scenes[k].id);
    if u.toScene.Some? {
      DestinationIsRow(d, run, e.nextScene.value);
      ElsewhereIsEnterable(true, run, k, u.toScene.value);
    }
  }

  lemma DestinationIsRow(d: Definition, run: RunSnapshot, ref: string)
    ensures forall id :: Destination(d, run, Some(ref)) == Some(Some(id)) ==>
      exists i :: 0 <= i < |run.scenes| && run.scenes[i].id == id
  {
    if FindScene(d.scenes, ref).Some? { RuntimeFound(run.scenes, FindScene(d.scenes, ref).value.sequence); }
  }

  // ---- a flag named twice ----

  const TWICE := ["alerted", "alerted"]

  const SHOUT := Direct("shout", [], [], Effect(None, None, TWICE, []))

  const ALARM := Definition(1, [Scene("hall", 1, [SHOUT], None, ["alerted"], [])], ["alerted"], [Ending("over", [])],
    Some(World("hall", "alerted", [])), true, None)

  const ALARM_RUN := RunSnapshot(true, None, [RuntimeScene(0, 1, Active)], {}, 0, 0, [])

  lemma AlarmIsValid()
    ensures ValidGraph(ALARM) && WellFormed(ALARM, ALARM_RUN) && OnlyActive(ALARM_RUN.scenes, 0)
    ensures CurrentScene(ALARM, ALARM_RUN) == Some(Place(ALARM.scenes[0], ALARM_RUN.scenes[0]))
  {
    assert ALARM.scenes[0].sequence == 1 && ALARM.scenes[0].ref == "hall";
    assert KnownScene(ALARM, "hall");
    assert KnownFlags(ALARM, TWICE);
    assert RowSequences(ALARM_RUN.scenes) == {1} by { assert ALARM_RUN.scenes[0] in ALARM_RUN.scenes; }
    assert SceneSequences(ALARM.scenes) == {1} by { assert ALARM.scenes[0] in ALARM.scenes; }
    assert OnlyActive(ALARM_RUN.scenes, 0);
    assert UniqueActions(ALARM.scenes);
    assert ValidGraph(ALARM);
    var k, scene := ActivePlace(ALARM, ALARM_RUN);
  }

  // The update of a new run that adds these flags and stays in its scene
  function AlarmUpdate(flags: seq<string>): Update {
    Update(0, None, flags, None, 1, 0, [])
  }

  lemma AlarmCommit(flags: seq<string>)
    ensures CommitAccepts(true, ALARM_RUN, 0, AlarmUpdate(flags)) <==> Distinct(flags)
  {
    AlarmIsValid();
    OnlyOtherActive(ALARM_RUN, 0);
  }

  lemma TwiceIsFresh()
    ensures Fresh(TWICE, {}) == TWICE && !Distinct(TWICE) && Distinct(["alerted"]) && Elements(TWICE) == {"alerted"}
  {
    assert TWICE[0] == TWICE[1];
    assert TWICE[1..] == ["alerted"] && TWICE[1..][1..] == [];
    assert Fresh(["alerted"], {}) == ["alerted"] + Fresh([], {}) by { assert ["alerted"][1..] == []; }
  }

  lemma AlarmProgress()
    ensures ProgressFor(ALARM, ALARM_RUN, SHOUT, Success, None) == Updated(AlarmUpdate(TWICE))
  {
    AlarmIsValid();
    TwiceIsFresh();
  }

  function Shouting(): OpenIntent {
    OpenIntent("shout", None, OpenEffect(None, None, TWICE, 0, []), None)
  }

  lemma AlarmOpen(lang: Language)
    requires !lang.impossible("shout")
    ensures ProgressOpen(ALARM, lang, ALARM_RUN, Shouting(), true) == Updated(AlarmUpdate(TWICE))
  {
    AlarmIsValid();
    TwiceIsFresh();
    assert Elements(ALARM.scenes[0].openFlags) == {"alerted"};
    assert NewFacts([], [], 0) == [];
  }

  // A valid story and a new run whose update, of a registered and of an open action alike, is refused
  // by nothing but the flag it names twice.
  lemma RepeatedFlagIsRefused(lang: Language)
    requires !lang.impossible("shout")
    ensures ValidGraph(ALARM) && WellFormed(ALARM, ALARM_RUN)
    ensures ProgressFor(ALARM, ALARM_RUN, SHOUT, Success, None) == Updated(AlarmUpdate(TWICE))
    ensures ProgressOpen(ALARM, lang, ALARM_RUN, Shouting(), true) == Updated(AlarmUpdate(TWICE))
    ensures !CommitAccepts(true, ALARM_RUN, 0, AlarmUpdate(TWICE))
    ensures CommitAccepts(true, ALARM_RUN, 0, AlarmUpdate(["alerted"]))
  {
    AlarmIsValid();
    AlarmProgress();
    AlarmOpen(lang);
    TwiceIsFresh();
    AlarmCommit(TWICE);
    AlarmCommit(["alerted"]);
  }

  // ---- whole runs of commits ----

  // Every commit changes the run by an update that passes the scenario checks.
  ghost predicate Commits(d: Definition, runs: seq<RunSnapshot>) {
    runs != [] && forall i, j :: 0 <= i && j == i + 1 && j < |runs| ==> Committed(d, runs[i], runs[j])
  }

  ghost predicate Committed(d: Definition, run: RunSnapshot, next: RunSnapshot) {
    exists turnScene, u :: CommitAccepts(d.mvpV2, run, turnScene, u) && next == Applied(run, u)
  }

  function Rank(status: SceneStatus): nat {
    match status
    case Planned => 0
    case Active => 1
    case Closed => 2
  }

  // What one commit, and then any number of them, may do to a run.
  ghost predicate Advances(d: Definition, run: RunSnapshot, next: RunSnapshot) {
    && run.flags <= next.flags && run.elapsed <= next.elapsed && run.facts <= next.facts
    && |next.scenes| == |run.scenes| && (UniqueFacts(run.facts) ==> UniqueFacts(next.facts))
    && (!d.mvpV2 ==> forall i :: 0 <= i < |run.scenes| ==> Rank(run.scenes[i].status) <= Rank(next.scenes[i].status))
  }

  lemma InsertedFacts(run: RunSnapshot, u: Update)
    requires Insertable(run, u)
    ensures UniqueFacts(run.facts) ==> UniqueFacts(run.facts + u.facts)
  {
    assert forall i :: 0 <= i < |run.facts| ==> run.facts[i] in run.facts;
    assert forall i :: 0 <= i < |u.facts| ==> u.facts[i] in u.facts;
  }

  // Under mvp_v1 a commit closes an active scene and enters a planned one.
  lemma RanksGrow(run: RunSnapshot, turnScene: nat, u: Update)
    requires UniqueRows(run.scenes) && CommitAccepts(false, run, turnScene, u)
    ensures |Applied(run, u).scenes| == |run.scenes|
    ensures forall i :: 0 <= i < |run.scenes| ==> Rank(run.scenes[i].status) <= Rank(Applied(run, u).scenes[i].status)
  {
  }

  lemma CommitAdvances(d: Definition, run: RunSnapshot, next: RunSnapshot)
    requires WellFormed(d, run) && Committed(d, run, next)
    ensures WellFormed(d, next) && run.active && Advances(d, run, next)
  {
    var turnScene, u :| CommitAccepts(d.mvpV2, run, turnScene, u) && next == Applied(run, u);
    AcceptedIsProper(d, run, turnScene, u);
    AppliedWellFormed(d, run, u);
    InsertedFacts(run, u);
    if !d.mvpV2 { RanksGrow(run, turnScene, u); }
  }

  lemma AdvancesOn(d: Definition, a: RunSnapshot, b: RunSnapshot, c: RunSnapshot)
    requires Advances(d, a, b) && Advances(d, b, c)
    ensures Advances(d, a, c)
  {
    assert forall i :: 0 <= i < |a.facts| ==> a.facts[i] == b.facts[i] == c.facts[i];
  }

  lemma {:induction false} CommitsWellFormed(d: Definition, runs: seq<RunSnapshot>, j: nat)
    requires Commits(d, runs) && WellFormed(d, runs[0]) && j < |runs|
    ensures WellFormed(d, runs[j])
    ensures j < |runs| - 1 ==> runs[j].active && Advances(d, runs[j], runs[j + 1])
  {
    if j > 0 {
      CommitsWellFormed(d, runs, j - 1);
      assert Committed(d, runs[j - 1], runs[j - 1 + 1]);
      CommitAdvances(d, runs[j - 1], runs[j]);
    }
    if j < |runs| - 1 {
      assert Committed(d, runs[j], runs[j + 1]);
      CommitAdvances(d, runs[j], runs[j + 1]);
    }
  }

  lemma {:induction false} AdvancesChain(d: Definition, runs: seq<RunSnapshot>, i: nat, j: nat)
    requires forall a, b :: i <= a && b == a + 1 && b <= j && b < |runs| ==> Advances(d, runs[a], runs[b])
    requires i <= j < |runs|
    ensures Advances(d, runs[i], runs[j])
  {
    if i < j {
      AdvancesChain(d, runs, i, j - 1);
      AdvancesOn(d, runs[i], runs[j - 1], runs[j]);
    }
  }

  lemma CommitsAdvance(d: Definition, runs: seq<RunSnapshot>)
    requires Commits(d, runs) && WellFormed(d, runs[0])
    ensures forall a, b :: 0 <= a && b == a + 1 && b < |runs| ==> Advances(d, runs[a], runs[b])
  {
    forall a, b | 0 <= a && b == a + 1 && b < |runs| ensures Advances(d, runs[a], runs[b]) {
      CommitsWellFormed(d, runs, a);
    }
  }

  // Over any run of commits: exactly one scene is active while the run is, flags and facts only
  // grow, the alert level stays in 0..5, and an mvp_v1 run never goes back to a scene it left.
  lemma CommitsKeep(d: Definition, runs: seq<RunSnapshot>, i: nat, j: nat)
    requires Commits(d, runs) && WellFormed(d, runs[0]) && i <= j < |runs|
    ensures WellFormed(d, runs[j]) && Advances(d, runs[i], runs[j])
    ensures i < j ==> runs[i].active
  {
    CommitsWellFormed(d, runs, j);
    CommitsWellFormed(d, runs, i);
    CommitsAdvance(d, runs);
    AdvancesChain(d, runs, i, j);
  }
}
