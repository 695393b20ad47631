/**
 The turn that commits a projected bundle: the version its narration names is the one the campaign
 gets, and it is raised exactly if the canonical store or the scenario run changes.
 */
module CommittedBundles {
  import opened Outcomes
  import opened Resolution
  import opened Mechanics
  import opened ResolutionLaws
  import opened AssemblyLaws
  import Progressor
  import Turns
  import TurnAnswers

  // What commit_resolution does to the turn for a bundle whose projection is `p`
  function Asked(b: Bundle, p: Projection, input: string): Turns.Bundle {
    Turns.Bundle(b.base, true, p.mutations != [] || b.update.Some?, |p.events|, input)
  }

  // A worker in good standing, whose turn is still at the version the bundle was made from
  ghost predicate InStanding(s: Turns.Store, id: nat, epoch: nat, version: nat) {
    && id < |s.turns| && TurnAnswers.Resolves(s.turns[id], epoch, s.now)
    && TurnAnswers.Timely(s.turns[id].res, s.now) && s.version == version
  }

  // The events of the log are those of the projection.
  ghost predicate LogsEvents(s: Turns.Store, u: Turns.Store, id: nat, events: seq<Event>) {
    && |u.events| == |s.events| + |events| && s.events <= u.events
    && forall k :: 0 <= k < |events| ==>
      u.events[|s.events| + k] == Turns.Event(id, events[k].sequence, events[k].version, false)
  }

  lemma ProjectedCommit(s: Turns.Store, id: nat, epoch: nat, b: Bundle, turn: Context, input: string)
    requires InStanding(s, id, epoch, b.base) && Project(b, turn, s.sequence + 1).Some?
    ensures var p := Project(b, turn, s.sequence + 1).value;
      var (u, reply) := Turns.CommitResolution(s, id, epoch, Asked(b, p, input));
      && reply == Turns.AtVersion(p.version) && u.version == p.version == b.narration.version
      && id < |u.turns| && u.turns[id].committed == Some(p.version)
      && LogsEvents(s, u, id, p.events)
      && u.version == s.version + (if p.mutations == [] && b.update.None? then 0 else 1)
  {
    var p := Project(b, turn, s.sequence + 1).value;
    EventsAreNumbered(b, s.sequence + 1, p.version);
    ProjectionCommits(s, id, epoch, b, p, input);
  }

  lemma ProjectionCommits(s: Turns.Store, id: nat, epoch: nat, b: Bundle, p: Projection, input: string)
    requires InStanding(s, id, epoch, b.base) && p.version == VersionOf(b, p.mutations)
    requires Numbered(p.events, s.sequence + 1, p.version)
    ensures var (u, reply) := Turns.CommitResolution(s, id, epoch, Asked(b, p, input));
      && reply == Turns.AtVersion(p.version) && u.version == p.version
      && id < |u.turns| && u.turns[id].committed == Some(p.version) && LogsEvents(s, u, id, p.events)
  {
    TurnAnswers.CommitAnswer(s, id, epoch, Asked(b, p, input));
  }

  // The net mutations are none exactly if the changes leave the canonical store as it is.
  lemma {:induction false} MutationsTell(store: Canon, cs: seq<Change>)
    requires Bounded(store) && DoAll(store, cs).Some? && forall i :: 0 <= i < |cs| ==> ValidChange(cs[i])
    ensures NetMutations(cs).Some?
    ensures NetMutations(cs).value == [] <==> DoAll(store, cs) == Some(store)
  {
    NetRefinesChanges(store, cs);
    AbsorbAllOrdered(NOTHING, cs);
    NothingReached(store);
    AllDoneIsAbsorbed(store, store, NOTHING, cs);
    var n := AbsorbAll(NOTHING, cs).value;
    MutationsAreChanges(n);
    if k :| k in n.changed && n.changed[k].before != n.changed[k].after {
      assert DoAll(store, cs).value[k].value != store[k].value;
    }
  }

  // The changes of a bundle, one by one, on the canonical values of its snapshot
  ghost function PlayedOn(s: Snapshot, b: Bundle): Option<Canon> {
    DoAll(CanonOf(Start(s)), ChangesOf(b.actions + b.reactions))
  }

  // A hero's turn is committed at the version its narration names. That is one more than before exactly
  // if an action or the reaction has changed the canonical values on the whole, or the run moves.
  lemma HeroTurnCommits(s: Snapshot, intents: seq<Intent>, update: Option<Progressor.Update>, ids: nat -> nat,
          tape: Tape, t: Turns.Store, id: nat, epoch: nat, input: string)
    requires Preflight(s, intents) && Injective(ids) && SoundSnapshot(s) && s.actor !in s.npcs
    requires Assemble(s, intents, update, ids, tape).Some? && InStanding(t, id, epoch, s.version)
    ensures var b := Assemble(s, intents, update, ids, tape).value;
      var p := Project(b, ContextOf(s), t.sequence + 1);
      && p.Some?
      && var (u, reply) := Turns.CommitResolution(t, id, epoch, Asked(b, p.value, input));
         && reply == Turns.AtVersion(b.narration.version) && u.version == b.narration.version
         && (u.version == t.version <==> PlayedOn(s, b) == Some(CanonOf(Start(s))) && b.update.None?)
         && u.version <= t.version + 1
  {
    var b := Assemble(s, intents, update, ids, tape).value;
    HeroIsAccepted(s, intents, update, ids, tape, t.sequence + 1);
    ProjectedCommit(t, id, epoch, b, ContextOf(s), input);
    PlayedIsValid(s, intents, update, ids, tape);
    StartIsBounded(s);
    MutationsTell(CanonOf(Start(s)), ChangesOf(b.actions + b.reactions));
  }

  lemma {:induction false} PlayedIsValid(s: Snapshot, intents: seq<Intent>, update: Option<Progressor.Update>,
          ids: nat -> nat, tape: Tape)
    requires Preflight(s, intents) && Assemble(s, intents, update, ids, tape).Some?
    ensures var b := Assemble(s, intents, update, ids, tape).value;
      && PlayedOn(s, b).Some?
      && forall i :: 0 <= i < |ChangesOf(b.actions + b.reactions)| ==>
        ValidChange(ChangesOf(b.actions + b.reactions)[i])
  {
    var (records, w) := ResolveFrom(s, Start(s), intents, 0, ids, tape).value;
    var b := Assemble(s, intents, update, ids, tape).value;
    PlanIsOk(s, Start(s), intents, 0, ids, tape);
    ReactionIsOk(s, records, update, ids(|intents|), tape, w.draws);
    ChangesConcat(records, b.reactions);
    FollowAllIsDoAll(Start(s), ChangesOf(records) + ChangesOf(b.reactions));
  }
}
