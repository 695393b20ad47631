/**
 The producing side: dice, rules and the worker that resolves a plan of actions in order, lets the
 configured enemy react, predicts the committed version and assembles the bundle.
 */
module Mechanics {
  import opened Outcomes
  import opened Resolution
  import Progressor

  datatype Character = Character(hp: nat, max: nat, defense: int, bonus: int)

  datatype Weapon = Weapon(dice: Dice, bonus: int)

  datatype Combat = Combat(enemy: Option<nat>, startedFlag: string, defeatEnding: string, dice: Dice, bonus: int)

  // What a turn is resolved against. `combat.enemy` is the entity with the configured reference when
  // it is public and reachable in the active scene; `npcs` are the entities of that kind.
  datatype Snapshot = Snapshot(
    campaign: nat, turn: nat, scene: nat, actor: nat, version: nat, maxActions: nat,
    characters: map<nat, Character>, stock: map<(nat, nat), nat>, weapons: map<nat, Weapon>,
    attackable: set<nat>, npcs: set<nat>, combat: Option<Combat>, flags: set<string>)

  datatype Intent =
    | AttackIntent(target: nat, weapon: Option<nat>)
    | ItemIntent(item: nat)
    | SkillIntent(modifier: int, difficulty: int)
    | StoryIntent
    | OpenIntent(check: Option<(int, int)>)

  // ---- dice over an arbitrary sequence of draws ----

  type Tape = nat -> nat

  // DiceEngine.roll; nothing for an unsupported expression
  function Roll(d: Dice, tape: Tape, at: nat): Option<DiceResult> {
    if !ValidDice(d) then None
    else
      var rolls := seq(d.count, i requires 0 <= i < d.count => 1 + tape(at + i) % d.sides);
      Some(DiceResult(d, rolls, Sum(rolls) + d.modifier))
  }

  // ---- rules ----

  // resolve_attack
  function ResolveAttack(c: Command, actor: Character, target: Character, tape: Tape, at: nat): Option<ActionResult>
    requires c.Attack?
  {
    if actor.hp == 0 || target.hp == 0 then None
    else
      var attack := Roll(Dice(1, 20, c.bonus), tape, at);
      if attack.None? then None
      else if attack.value.total < target.defense then Some(Applied(Progressor.Failure, [attack.value], []))
      else
        var damage := Roll(c.dice, tape, at + 1);
        if damage.None? then None
        else
          var amount := AtLeast0(damage.value.total + c.damageBonus);
          Some(Applied(Progressor.Success, [attack.value, damage.value],
              [Damage(c.target, amount, target.hp, Lowered(target.hp, amount))]))
  }

  // resolve_use_item of a healing potion on its user
  function ResolveItem(c: Command, actor: Character, quantity: nat, tape: Tape, at: nat): Option<ActionResult>
    requires c.UseItem?
  {
    if actor.hp == 0 || quantity < 1 then None
    else
      var healing := Roll(Dice(1, 6, 2), tape, at);
      if healing.None? || healing.value.total < 0 then None
      else
        var amount := healing.value.total;
        Some(Applied(Progressor.Success, [healing.value],
          [Heal(c.actor, amount, actor.hp, Raised(actor.hp, amount, actor.max), actor.max),
              Consume(c.actor, c.item, quantity, quantity - 1)]))
  }

  // A d20 check against a difficulty class
  function ResolveCheck(modifier: int, difficulty: int, tape: Tape, at: nat): Option<ActionResult> {
    var roll := Roll(Dice(1, 20, modifier), tape, at);
    if roll.None? then None
    else
      Some(Applied(if roll.value.total >= difficulty then Progressor.Success else Progressor.Failure, [roll.value], []))
  }

  // ---- the plan ----

  predicate IntentReady(s: Snapshot, intent: Intent) {
    match intent
    case AttackIntent(target, weapon) =>
      && target in s.attackable && target != s.actor && target in s.characters && s.characters[target].hp > 0
      && (weapon.Some? ==>
            weapon.value in s.weapons && (s.actor, weapon.value) in s.stock && s.stock[(s.actor, weapon.value)] >= 1)
    case ItemIntent(item) =>
      && (s.actor, item) in s.stock && s.stock[(s.actor, item)] >= 1
      && s.actor in s.characters && s.characters[s.actor].hp < s.characters[s.actor].max
    case _ => true
  }

  // _preflight_actions: the whole plan against the initial snapshot
  predicate Preflight(s: Snapshot, intents: seq<Intent>) {
    && s.actor in s.characters && s.characters[s.actor].hp > 0
    && 1 <= |intents| <= s.maxActions
    && forall i :: 0 <= i < |intents| ==> IntentReady(s, intents[i])
  }

  // Working state of the loop: characters and quantities as changed so far, the dice used and the draws taken.
  datatype Working = Working(characters: map<nat, Character>, stock: map<(nat, nat), nat>, dice: nat, draws: nat)

  function Start(s: Snapshot): Working {
    Working(s.characters, s.stock, 0, 0)
  }

  function CommandOf(s: Snapshot, w: Working, intent: Intent, ordinal: nat, id: nat): Command
    requires IntentReady(s, intent) && s.actor in w.characters
  {
    match intent
    case AttackIntent(target, weapon) =>
      var arm := if weapon.Some? then s.weapons[weapon.value] else Weapon(Dice(1, 2, 0), 0);
      Attack(id, s.campaign, s.turn, s.actor, ordinal, target, weapon, w.characters[s.actor].bonus, arm.dice, arm.bonus)
    case ItemIntent(item) => UseItem(id, s.campaign, s.turn, s.actor, ordinal, item)
    case SkillIntent(modifier, difficulty) => Check(id, s.campaign, s.turn, s.actor, ordinal, modifier, difficulty)
    case StoryIntent => StoryAction(id, s.campaign, s.turn, s.actor, ordinal)
    case OpenIntent(_) => OpenAction(id, s.campaign, s.turn, s.actor, ordinal)
  }

  // One action against the working state
  function ResolveIntent(s: Snapshot, w: Working, intent: Intent, c: Command, tape: Tape): Option<ActionResult>
    requires s.actor in w.characters
    requires intent.AttackIntent? ==> c.Attack? && intent.target in w.characters
    requires intent.ItemIntent? ==> c.UseItem? && (s.actor, intent.item) in w.stock
  {
    var actor := w.characters[s.actor];
    match intent
    case AttackIntent(target, _) =>
      if w.characters[target].hp == 0 then Some(NotApplicable(TargetUnavailable))
      else ResolveAttack(c, actor, w.characters[target], tape, w.draws)
    case ItemIntent(item) =>
      if w.stock[(s.actor, item)] == 0 then Some(NotApplicable(ResourceUnavailable))
      else if actor.hp >= actor.max then Some(NotApplicable(RulePrecondition))
      else ResolveItem(c, actor, w.stock[(s.actor, item)], tape, w.draws)
    case SkillIntent(modifier, difficulty) => if actor.hp == 0 then None
      else ResolveCheck(modifier, difficulty, tape, w.draws)
    case StoryIntent => Some(Applied(Progressor.Neutral, [], []))
    case OpenIntent(check) =>
      if check.None? then Some(Applied(Progressor.Neutral, [], []))
      else ResolveCheck(check.value.0, check.value.1, tape, w.draws)
  }

  function DrawCount(dice: seq<DiceResult>): nat {
    if dice == [] then 0 else |dice[0].rolls| + DrawCount(dice[1..])
  }

  // The working state follows a state change whose before value it agrees with.
  function Follow(w: Working, c: Change): Option<Working> {
    match c
    case Consume(owner, item, before, after) =>
      if (owner, item) in w.stock
        && w.stock[(owner, item)] == before then Some(w.(stock := w.stock[(owner, item) := after])) else None
    case Damage(target, _, before, after) => SetHp(w, target, before, after)
    case Heal(target, _, before, after, _) => SetHp(w, target, before, after)
  }

  function SetHp(w: Working, target: nat, before: nat, after: nat): Option<Working> {
    if target in w.characters && w.characters[target].hp == before then
      Some(w.(characters := w.characters[target := w.characters[target].(hp := after)]))
    else None
  }

  function FollowAll(w: Working, cs: seq<Change>): Option<Working>
    decreases |cs|
  {
    if cs == [] then Some(w)
    else
      match Follow(w, cs[0])
      case None => None
      case Some(next) => FollowAll(next, cs[1..])
  }

  function Indices(first: nat, count: nat): (r: seq<nat>)
    ensures |r| == count && forall i :: 0 <= i < count ==> r[i] == first + i
  {
    seq(count, i => first + i)
  }

  function DiceOf(r: ActionResult): seq<DiceResult> {
    if r.Applied? then r.dice else []
  }

  function ChangesIn(r: ActionResult): seq<Change> {
    if r.Applied? then r.changes else []
  }

  // The working state keeps every character and item of the snapshot, and only hit points change.
  ghost predicate Tracks(s: Snapshot, w: Working) {
    && w.characters.Keys == s.characters.Keys && w.stock.Keys == s.stock.Keys
    && forall id :: id in s.characters ==> w.characters[id] == s.characters[id].(hp := w.characters[id].hp)
  }

  lemma FollowTracks(s: Snapshot, w: Working, c: Change)
    requires Tracks(s, w)
    ensures Follow(w, c).Some? ==>
      Tracks(s, Follow(w, c).value) && Follow(w, c).value.dice == w.dice && Follow(w, c).value.draws == w.draws
  {
  }

  lemma {:induction false} FollowAllTracks(s: Snapshot, w: Working, cs: seq<Change>)
    requires Tracks(s, w)
    ensures FollowAll(w, cs).Some? ==> Tracks(s, FollowAll(w, cs).value)
    decreases |cs|
  {
    if cs != [] {
      FollowTracks(s, w, cs[0]);
      if Follow(w, cs[0]).Some? { FollowAllTracks(s, Follow(w, cs[0]).value, cs[1..]); }
    }
  }

  // What a resolved action adds: its record, and the working state after its changes
  function Conclude(w: Working, c: Command, result: Option<ActionResult>): Option<(Record, Working)> {
    match result
    case None => None
    case Some(r) =>
      match FollowAll(w, ChangesIn(r))
      case None => None
      case Some(next) =>
        Some((Record(c, r, Indices(w.dice, |DiceOf(r)|)),
            next.(dice := w.dice + |DiceOf(r)|, draws := w.draws + DrawCount(DiceOf(r)))))
  }

  // The body of _resolve_actions for one intent
  function Step(s: Snapshot, w: Working, intent: Intent, ordinal: nat, id: nat, tape: Tape): Option<(Record, Working)>
    requires Tracks(s, w) && s.actor in s.characters && IntentReady(s, intent)
  {
    var c := CommandOf(s, w, intent, ordinal, id);
    Conclude(w, c, ResolveIntent(s, w, intent, c, tape))
  }

  lemma ConcludeTracks(s: Snapshot, w: Working, c: Command, result: Option<ActionResult>)
    requires Tracks(s, w)
    ensures Conclude(w, c, result).Some? ==> Tracks(s, Conclude(w, c, result).value.1)
  {
    if result.Some? { FollowAllTracks(s, w, ChangesIn(result.value)); }
  }

  lemma StepTracks(s: Snapshot, w: Working, intent: Intent, ordinal: nat, id: nat, tape: Tape)
    requires Tracks(s, w) && s.actor in s.characters && IntentReady(s, intent)
    ensures Step(s, w, intent, ordinal, id, tape).Some? ==> Tracks(s, Step(s, w, intent, ordinal, id, tape).value.1)
  {
    var c := CommandOf(s, w, intent, ordinal, id);
    ConcludeTracks(s, w, c, ResolveIntent(s, w, intent, c, tape));
  }

  // _resolve_actions; `ids` supplies the action identifiers
  function ResolveFrom(s: Snapshot, w: Working, intents: seq<Intent>, i: nat, ids: nat -> nat,
          tape: Tape): Option<(seq<Record>, Working)>
    requires Tracks(s, w) && Preflight(s, intents) && i <= |intents|
    decreases |intents| - i
  {
    if i == |intents| then Some(([], w))
    else
      StepTracks(s, w, intents[i], i + 1, ids(i), tape);
      match Step(s, w, intents[i], i + 1, ids(i), tape)
      case None => None
      case Some((record, next)) =>
        match ResolveFrom(s, next, intents, i + 1, ids, tape)
        case None => None
        case Some((records, last)) => Some(([record] + records, last))
  }

  function With(records: seq<Record>, more: Option<(seq<Record>, Working)>): Option<(seq<Record>, Working)> {
    if more.None? then None else Some((records + more.value.0, more.value.1))
  }

  lemma WithTwice(a: seq<Record>, b: seq<Record>, more: Option<(seq<Record>, Working)>)
    ensures With(a, With(b, more)) == With(a + b, more) && With([], more) == more
  {
    if more.Some? { assert a + (b + more.value.0) == a + b + more.value.0 && [] + more.value.0 == more.value.0; }
  }

  // The record of an action and the move of the working state
  method RecordResult(w: Working, c: Command, result: ActionResult) returns (r: Option<(Record, Working)>)
    ensures r == Conclude(w, c, Some(result))
  {
    var dice := DiceOf(result);
    var followed := FollowChanges(w, ChangesIn(result));
    if followed.None? { return None; }
    r := Some((Record(c, result, Indices(w.dice, |dice|)),
        followed.value.(dice := w.dice + |dice|, draws := w.draws + DrawCount(dice))));
  }

  lemma FromStep(s: Snapshot, w: Working, intents: seq<Intent>, i: nat, ids: nat -> nat, tape: Tape,
          records: seq<Record>)
    requires Tracks(s, w) && Preflight(s, intents) && i < |intents|
    ensures match Step(s, w, intents[i], i + 1, ids(i), tape)
      case None => ResolveFrom(s, w, intents, i, ids, tape).None?
      case Some((record, next)) =>
        Tracks(s, next) && With(records, ResolveFrom(s, w, intents, i, ids, tape)) ==
          With(records + [record], ResolveFrom(s, next, intents, i + 1, ids, tape))
  {
    StepTracks(s, w, intents[i], i + 1, ids(i), tape);
    match Step(s, w, intents[i], i + 1, ids(i), tape)
    case None =>
    case Some((record, next)) => WithTwice(records, [record], ResolveFrom(s, next, intents, i + 1, ids, tape));
  }

  method ResolveActions(s: Snapshot, intents: seq<Intent>, ids: nat -> nat, tape: Tape)
    returns (r: Option<(seq<Record>, Working)>)
    requires Preflight(s, intents)
    ensures r == ResolveFrom(s, Start(s), intents, 0, ids, tape)
  {
    var records: seq<Record> := [];
    var w := Start(s);
    WithTwice([], [], ResolveFrom(s, w, intents, 0, ids, tape));
    for i := 0 to |intents|
      invariant Tracks(s, w)
      invariant ResolveFrom(s, Start(s), intents, 0, ids, tape) ==
        With(records, ResolveFrom(s, w, intents, i, ids, tape))
    {
      FromStep(s, w, intents, i, ids, tape, records);
      var c := CommandOf(s, w, intents[i], i + 1, ids(i));
      var result := ResolveIntent(s, w, intents[i], c, tape);
      if result.None? { return None; }
      var one := RecordResult(w, c, result.value);
      if one.None? { return None; }
      records, w := records + [one.value.0], one.value.1;
    }
    assert records + [] == records;
    r := Some((records, w));
  }

  // The loops that move the working state along an action's changes
  method FollowChanges(w: Working, changes: seq<Change>) returns (r: Option<Working>)
    ensures r == FollowAll(w, changes)
  {
    var next := w;
    assert changes[0..] == changes;
    for k := 0 to |changes|
      invariant FollowAll(w, changes) == FollowAll(next, changes[k..])
    {
      assert changes[k..][1..] == changes[k + 1..];
      var followed := Follow(next, changes[k]);
      if followed.None? { return None; }
      next := followed.value;
    }
    r := Some(next);
  }

  // ---- the enemy reaction ----

  datatype CombatResolution = CombatResolution(reactions: seq<Record>, update: Option<Progressor.Update>)

  predicate Attacked(records: seq<Record>, enemy: nat) {
    exists i ::
      0 <= i < |records| && records[i].command.Attack? && records[i].command.target == enemy
        && records[i].result.Applied?
  }

  predicate Leaves(update: Option<Progressor.Update>) {
    update.Some? && (update.value.toScene.Some? || update.value.ending.Some?)
  }

  // The configured enemy, which both sides look up among the npcs
  function EnemyOf(s: Snapshot): Option<nat> {
    if s.combat.Some? && s.combat.value.enemy.Some? && s.combat.value.enemy.value in s.npcs then s.combat.value.enemy
    else None
  }

  // Whether the enemy gets to react at all
  predicate Reacts(s: Snapshot, records: seq<Record>, update: Option<Progressor.Update>) {
    s.combat.Some? && AnyApplied(records) && !Leaves(update)
  }

  function IndexCount(records: seq<Record>): nat {
    if records == [] then 0 else |records[0].rng| + IndexCount(records[1..])
  }

  function HpChanges(cs: seq<Change>): seq<Change> {
    if cs == [] then [] else (if cs[0].Consume? then [] else [cs[0]]) + HpChanges(cs[1..])
  }

  // The scenario update after a reaction: the combat has started, and the actor may be defeated
  function ReactionUpdate(s: Snapshot, combat: Combat, update: Option<Progressor.Update>,
          result: ActionResult): Option<Progressor.Update>
  {
    var before := if update.Some? then update.value.addFlags else [];
    var flags := if combat.startedFlag !in s.flags && combat.startedFlag !in before then before + [combat.startedFlag]
      else before;
    var defeated := result.Applied?
      && exists i :: 0 <= i < |result.changes| && result.changes[i].Damage? && result.changes[i].after == 0;
    if flags == [] && !defeated then update
    else
      Some(Progressor.Update(s.scene, None, flags, if defeated then Some(combat.defeatEnding) else None,
        if update.Some? then update.value.elapsed else 0, if update.Some? then update.value.alertDelta else 0,
        if update.Some? then update.value.facts else []))
  }

  // resolve_enemy_reaction; nothing when it raises an error. `at` is the next draw of the dice.
  function EnemyReaction(s: Snapshot, records: seq<Record>, update: Option<Progressor.Update>, id: nat, tape: Tape,
          at: nat): Option<CombatResolution>
  {
    var quiet := Some(CombatResolution([], update));
    if !Reacts(s, records, update) then quiet
    else
      var combat := s.combat.value;
      if EnemyOf(s).None? then None
      else
        var enemy := EnemyOf(s).value;
        if combat.startedFlag !in s.flags && !Attacked(records, enemy) then quiet
        else
          match FollowAll(Start(s), HpChanges(ChangesOf(records)))
          case None => None
          case Some(w) =>
            if enemy !in w.characters || s.actor !in w.characters then None
            else ReactWith(s, records, update, combat, enemy, w, id, tape, at)
  }

  lemma {:induction false} HpChangesConcat(a: seq<Change>, b: seq<Change>)
    ensures HpChanges(a + b) == HpChanges(a) + HpChanges(b)
  {
    if a == [] {
      assert a + b == b;
    } else {
      assert (a + b)[0] == a[0] && (a + b)[1..] == a[1..] + b;
      HpChangesConcat(a[1..], b);
    }
  }

  lemma {:induction false} FollowAllConcat(w: Working, a: seq<Change>, b: seq<Change>)
    ensures FollowAll(w, a + b) == match FollowAll(w, a) case None => None case Some(v) => FollowAll(v, b)
    decreases |a|
  {
    if a == [] {
      assert a + b == b;
    } else {
      assert (a + b)[0] == a[0] && (a + b)[1..] == a[1..] + b;
      if Follow(w, a[0]).Some? { FollowAllConcat(Follow(w, a[0]).value, a[1..], b); }
    }
  }

  // The inner loop of resolve_enemy_reaction over the changes of one action
  method FollowHp(w: Working, changes: seq<Change>) returns (r: Option<Working>)
    ensures r == FollowAll(w, HpChanges(changes))
  {
    var next := w;
    assert changes[0..] == changes;
    for k := 0 to |changes|
      invariant FollowAll(w, HpChanges(changes)) == FollowAll(next, HpChanges(changes[k..]))
    {
      var c, rest := changes[k], HpChanges(changes[k + 1..]);
      assert changes[k..][0] == c && changes[k..][1..] == changes[k + 1..];
      if c.Consume? {
        assert HpChanges(changes[k..]) == [] + rest == rest;
        continue;
      }
      assert HpChanges(changes[k..]) == [c] + rest && ([c] + rest)[1..] == rest;
      var followed := Follow(next, c);
      if followed.None? { return None; }
      next := followed.value;
    }
    r := Some(next);
  }

  // The loop of resolve_enemy_reaction that brings the characters up to date
  method CurrentCharacters(s: Snapshot, records: seq<Record>) returns (r: Option<Working>)
    ensures r == FollowAll(Start(s), HpChanges(ChangesOf(records)))
  {
    var w := Start(s);
    assert records[0..] == records;
    for i := 0 to |records|
      invariant FollowAll(Start(s), HpChanges(ChangesOf(records))) == FollowAll(w, HpChanges(ChangesOf(records[i..])))
    {
      ChangesFrom(records, i);
      var changes := ChangesIn(records[i].result);
      HpChangesConcat(changes, ChangesOf(records[i + 1..]));
      FollowAllConcat(w, HpChanges(changes), HpChanges(ChangesOf(records[i + 1..])));
      var next := FollowHp(w, changes);
      if next.None? { return None; }
      w := next.value;
    }
    r := Some(w);
  }

  // The enemy's attack on the actor and what it does to the scenario update
  function ReactWith(s: Snapshot, records: seq<Record>, update: Option<Progressor.Update>, combat: Combat, enemy: nat,
          w: Working, id: nat, tape: Tape, at: nat): Option<CombatResolution>
    requires enemy in w.characters && s.actor in w.characters
  {
    if w.characters[enemy].hp == 0 || w.characters[s.actor].hp == 0 then Some(CombatResolution([], update))
    else
      var c := Attack(id, s.campaign, s.turn, enemy, 1, s.actor, None, w.characters[enemy].bonus, combat.dice,
          combat.bonus);
      match ResolveAttack(c, w.characters[enemy], w.characters[s.actor], tape, at)
      case None => None
      case Some(result) =>
        Some(CombatResolution([Record(c, result, Indices(IndexCount(records), |DiceOf(result)|))],
            ReactionUpdate(s, combat, update, result)))
  }

  method ResolveEnemyReaction(s: Snapshot, records: seq<Record>, update: Option<Progressor.Update>, id: nat,
          tape: Tape, at: nat)
    returns (r: Option<CombatResolution>)
    ensures r == EnemyReaction(s, records, update, id, tape, at)
  {
    if !Reacts(s, records, update) { return Some(CombatResolution([], update)); }
    var combat := s.combat.value;
    if EnemyOf(s).None? { return None; }
    var enemy := EnemyOf(s).value;
    if combat.startedFlag !in s.flags && !Attacked(records, enemy) { return Some(CombatResolution([], update)); }
    var w := CurrentCharacters(s, records);
    if w.None? || enemy !in w.value.characters || s.actor !in w.value.characters { return None; }
    r := ReactWith(s, records, update, combat, enemy, w.value, id, tape, at);
  }

  // ---- the bundle ----

  predicate Moves(c: Change) {
    c.Consume? || c.before != c.after
  }

  // The worker's own test for a change of the canonical state
  predicate StateChanged(update: Option<Progressor.Update>, cs: seq<Change>) {
    update.Some? || exists i :: 0 <= i < |cs| && Moves(cs[i])
  }

  function BundleOf(s: Snapshot, records: seq<Record>, combat: CombatResolution): Bundle
    requires forall i :: 0 <= i < |combat.reactions| ==> combat.reactions[i].command.Attack?
  {
    var changed := StateChanged(combat.update, ChangesOf(records) + ChangesOf(combat.reactions));
    Bundle(s.campaign, s.scene, s.turn, s.version, records,
      Narration(s.version + (if changed then 1 else 0), s.maxActions, ResolvedOf(records),
          ResolvedReactionsOf(combat.reactions)),
      combat.update, combat.reactions)
  }

  function ContextOf(s: Snapshot): Context {
    Context(s.scene, s.actor, s.maxActions, EnemyOf(s))
  }

  lemma ReactionIsAttack(s: Snapshot, records: seq<Record>, update: Option<Progressor.Update>, id: nat, tape: Tape,
          at: nat)
    ensures var r := EnemyReaction(s, records, update, id, tape, at);
      r.Some? ==> |r.value.reactions| <= 1 && forall i :: 0 <= i < |r.value.reactions| ==>
        r.value.reactions[i].command.Attack?
  {
  }

  // The worker's path from a plan to the bundle it commits. The scenario update of the actions is
  // the progressor's and may be any.
  function Assemble(s: Snapshot, intents: seq<Intent>, update: Option<Progressor.Update>, ids: nat -> nat,
          tape: Tape): Option<Bundle>
    requires Preflight(s, intents)
  {
    match ResolveFrom(s, Start(s), intents, 0, ids, tape)
    case None => None
    case Some((records, w)) =>
      ReactionIsAttack(s, records, update, ids(|intents|), tape, w.draws);
      match EnemyReaction(s, records, update, ids(|intents|), tape, w.draws)
      case None => None
      case Some(combat) => Some(BundleOf(s, records, combat))
  }
}
