/**
 Whole campaigns: the scenario run and the canonical store change together with every committed
 turn of the hero, so the laws of runs and the laws of bundles hold along one history.
 */
module Campaigns {
  import opened Outcomes
  import opened Scenarios
  import opened Progressor
  import opened Resolution
  import opened Mechanics
  import opened ResolutionLaws
  import opened AssemblyLaws
  import RunCommits

  // What the commits of a campaign change; `played` holds the state changes of all turns in order.
  datatype Campaign = Campaign(run: RunSnapshot, store: Canon, version: nat, played: seq<Change>)

  // The snapshot a turn of the hero is resolved against: the canonical values, the flags and the
  // combat of the scene the run is in.
  ghost predicate Sees(d: Definition, hero: nat, c: Campaign, s: Snapshot) {
    && s.actor == hero && CanonOf(Start(s)) == c.store && s.version == c.version && s.flags == c.run.flags
    && (s.combat.Some? ==>
          && CurrentScene(d, c.run).Some? && CurrentScene(d, c.run).value.scene.combat.Some?
          && CurrentScene(d, c.run).value.scene.combat.value.defeatEnding == s.combat.value.defeatEnding)
  }

  // The scenario part of the commit
  ghost predicate RunMoves(d: Definition, run: RunSnapshot, scene: nat, update: Option<Update>, next: RunSnapshot) {
    if update.None? then next == run
    else CommitAccepts(d.mvpV2, run, scene, update.value) && next == Progressor.Applied(run, update.value)
  }

  // commit_resolution of a bundle whose projection is `p`
  ghost predicate Commits(d: Definition, c: Campaign, s: Snapshot, b: Bundle, p: Projection, next: Campaign) {
    && RunMoves(d, c.run, s.scene, b.update, next.run)
    && CommitMutations(c.store, p.mutations) == Some(next.store)
    && next.version == p.version && next.played == c.played + ChangesOf(b.actions + b.reactions)
  }

  // One turn: a plan the preflight lets through is resolved, assembled, projected and committed.
  ghost predicate TurnBy(d: Definition, hero: nat, c: Campaign, next: Campaign, s: Snapshot, intents: seq<Intent>,
          update: Option<Update>, ids: nat -> nat, tape: Tape, first: nat)
  {
    && Sees(d, hero, c, s) && Preflight(s, intents) && Injective(ids)
    && var b := Assemble(s, intents, update, ids, tape);
       b.Some? &&
       var p := Project(b.value, ContextOf(s), first);
       p.Some? && Commits(d, c, s, b.value, p.value, next)
  }

  ghost predicate Turn(d: Definition, hero: nat, c: Campaign, next: Campaign) {
    exists s, intents, update, ids: nat -> nat, tape: Tape, first ::
      TurnBy(d, hero, c, next, s, intents, update, ids, tape, first)
  }

  ghost predicate History(d: Definition, hero: nat, campaigns: seq<Campaign>) {
    campaigns != [] && forall i, j :: 0 <= i && j == i + 1 && j < |campaigns| ==>
      Turn(d, hero, campaigns[i], campaigns[j])
  }

  // What a reaction makes of a scenario update never turns an acceptable commit into a refused one.
  lemma ReactionUpdateCommits(mvpV2: bool, run: RunSnapshot, s: Snapshot, combat: Mechanics.Combat,
          update: Option<Update>, result: ActionResult, k: nat)
    requires run.active && UniqueRows(run.scenes) && OnlyActive(run.scenes, k) && 0 <= run.alert <= 5
    requires s.flags == run.flags && s.scene == run.scenes[k].id && !Leaves(update)
    requires update.Some? ==> CommitAccepts(mvpV2, run, s.scene, update.value)
    ensures var after := ReactionUpdate(s, combat, update, result);
      after.Some? ==> CommitAccepts(mvpV2, run, s.scene, after.value)
  {
    RunCommits.OnlyOtherActive(run, k);
    var before := if update.Some? then update.value.addFlags else [];
    assert Distinct(before) && combat.startedFlag !in before ==> Distinct(before + [combat.startedFlag]);
  }

  // ---- the invariant ----

  ghost predicate Standing(store: Canon, hero: nat) {
    HpKey(hero) in store && store[HpKey(hero)].value > 0
  }

  // A hero without hit points has ended the run with a defeat.
  ghost predicate DefeatIsTold(d: Definition, hero: nat, c: Campaign) {
    HpKey(hero) in c.store && (!Standing(c.store, hero) ==>
        c.run.ending.Some? && RunCommits.DefeatEnding(d, c.run.ending.value))
  }

  ghost predicate Sound(d: Definition, hero: nat, c: Campaign) {
    && UniqueScenes(d.scenes) && WellFormed(d, c.run) && Bounded(c.store) && DefeatIsTold(d, hero, c)
  }

  lemma SeesSound(d: Definition, hero: nat, c: Campaign, s: Snapshot)
    requires Sees(d, hero, c, s) && Bounded(c.store)
    ensures SoundSnapshot(s)
  {
    CanonAt(Start(s));
    forall id | id in s.characters ensures s.characters[id].hp <= s.characters[id].max { assert HpKey(id) in c.store; }
  }

  lemma RunKeeps(d: Definition, run: RunSnapshot, scene: nat, update: Option<Update>, next: RunSnapshot)
    requires WellFormed(d, run) && RunMoves(d, run, scene, update, next)
    ensures WellFormed(d, next) && RunCommits.Advances(d, run, next)
    ensures update.Some? ==> run.active && next.ending == update.value.ending
    ensures update.None? ==> next == run
  {
    if update.Some? {
      assert RunCommits.Committed(d, run, next);
      RunCommits.CommitAdvances(d, run, next);
    }
  }

  // The combat a snapshot shows belongs to a scene of the definition.
  lemma DefeatIsDefined(d: Definition, hero: nat, c: Campaign, s: Snapshot, update: Option<Update>)
    requires UniqueScenes(d.scenes) && WellFormed(d, c.run) && c.run.active && Sees(d, hero, c, s) && Defeats(s, update)
    ensures update.value.ending.Some? && RunCommits.DefeatEnding(d, update.value.ending.value)
  {
    var k, scene := ActivePlace(d, c.run);
  }

  lemma TurnKeeps(d: Definition, hero: nat, c: Campaign, next: Campaign, s: Snapshot, intents: seq<Intent>,
          update: Option<Update>, ids: nat -> nat, tape: Tape, first: nat)
    requires Sound(d, hero, c) && TurnBy(d, hero, c, next, s, intents, update, ids, tape, first)
    ensures Sound(d, hero, next) && RunCommits.Advances(d, c.run, next.run)
    ensures c.version <= next.version <= c.version + 1
    ensures exists cs :: next.played == c.played + cs && DoAll(c.store, cs) == Some(next.store)
  {
    var b := Assemble(s, intents, update, ids, tape).value;
    var p := Project(b, ContextOf(s), first).value;
    SeesSound(d, hero, c, s);
    CommitEqualsPlay(s, intents, update, ids, tape, first);
    DefeatEndsTheRun(s, intents, update, ids, tape);
    RunKeeps(d, c.run, s.scene, b.update, next.run);
    if !Standing(next.store, hero) { DefeatIsDefined(d, hero, c, s, b.update); }
    assert DefeatIsTold(d, hero, next);
    assert next.played == c.played + ChangesOf(b.actions + b.reactions);
  }

  lemma StepKeeps(d: Definition, hero: nat, c: Campaign, next: Campaign)
    requires Sound(d, hero, c) && Turn(d, hero, c, next)
    ensures Sound(d, hero, next) && RunCommits.Advances(d, c.run, next.run)
    ensures c.version <= next.version
    ensures exists cs :: next.played == c.played + cs && DoAll(c.store, cs) == Some(next.store)
  {
    var s, intents, update, ids: nat -> nat, tape: Tape,
      first :| TurnBy(d, hero, c, next, s, intents, update, ids, tape, first);
    TurnKeeps(d, hero, c, next, s, intents, update, ids, tape, first);
  }

  // What holds at first and is kept by every step holds along a history.
  lemma {:induction false} Along(campaigns: seq<Campaign>, step: iset<(Campaign, Campaign)>, good: iset<Campaign>,
          i: nat)
    requires forall a, b :: 0 <= a && b == a + 1 && b < |campaigns| ==> (campaigns[a], campaigns[b]) in step
    requires forall c, next :: c in good && (c, next) in step ==> next in good
    requires i < |campaigns| && campaigns[0] in good
    ensures campaigns[i] in good
  {
    if i > 0 {
      Along(campaigns, step, good, i - 1);
      assert (campaigns[i - 1], campaigns[i]) in step;
    }
  }

  ghost function Turns(d: Definition, hero: nat): iset<(Campaign, Campaign)> {
    iset c, next | Turn(d, hero, c, next) :: (c, next)
  }

  // Over every history of committed turns: while the run is active the hero has hit points left,
  // and a hero without any has ended it with the defeat of a combat; the run stays well formed
  // and hit points stay within their maxima.
  lemma ActiveMeansStanding(d: Definition, hero: nat, campaigns: seq<Campaign>, i: nat)
    requires History(d, hero, campaigns) && Sound(d, hero, campaigns[0]) && i < |campaigns|
    ensures Sound(d, hero, campaigns[i])
    ensures campaigns[i].run.active ==> Standing(campaigns[i].store, hero)
  {
    var good := iset c | Sound(d, hero, c);
    forall c, next | c in good && (c, next) in Turns(d, hero) ensures next in good { StepKeeps(d, hero, c, next); }
    Along(campaigns, Turns(d, hero), good, i);
  }

  // The changes played since `start` lead from its store to the present one.
  ghost predicate Replays(start: Campaign, c: Campaign) {
    DoAll(start.store, c.played) == Some(c.store) && start.version <= c.version
  }

  lemma ReplaysOn(d: Definition, hero: nat, start: Campaign, c: Campaign, next: Campaign)
    requires Sound(d, hero, c) && Replays(start, c) && Turn(d, hero, c, next)
    ensures Sound(d, hero, next) && Replays(start, next)
  {
    StepKeeps(d, hero, c, next);
    var cs :| next.played == c.played + cs && DoAll(c.store, cs) == Some(next.store);
    DoAllConcat(start.store, c.played, cs);
  }

  // Replaying all state changes of a history, one by one, gives the store the net mutations gave.
  lemma HistoryReplays(d: Definition, hero: nat, campaigns: seq<Campaign>, i: nat)
    requires History(d, hero, campaigns) && Sound(d, hero, campaigns[0]) && i < |campaigns| && campaigns[0].played == []
    ensures DoAll(campaigns[0].store, campaigns[i].played) == Some(campaigns[i].store)
    ensures campaigns[0].version <= campaigns[i].version
  {
    var start := campaigns[0];
    var good := iset c | Sound(d, hero, c) && Replays(start, c);
    forall c, next | c in good && (c, next) in Turns(d, hero)
      ensures next in good
    {
      ReplaysOn(d, hero, start, c, next);
    }
    Along(campaigns, Turns(d, hero), good, i);
  }
}
