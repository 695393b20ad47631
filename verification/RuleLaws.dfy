/**
 What the dice decide: for every action of a plan and for the enemy's reaction, the outcome and the
 hit points and stacks it leaves, in terms of the draws and of the snapshot's values.
 */
module RuleLaws {
  import opened Outcomes
  import opened Resolution
  import opened Mechanics
  import opened AssemblyLaws
  import Progressor

  // ---- dice ----

  // `count` dice drawn one after the other
  function DiceTotal(tape: Tape, at: nat, count: nat, sides: nat): nat
    requires sides > 0
    decreases count
  {
    if count == 0 then 0 else 1 + tape(at) % sides + DiceTotal(tape, at + 1, count - 1, sides)
  }

  function Twenty(tape: Tape, at: nat): nat {
    1 + tape(at) % 20
  }

  lemma {:induction false} SumOfDraws(rolls: seq<nat>, tape: Tape, at: nat, sides: nat)
    requires sides > 0 && forall i :: 0 <= i < |rolls| ==> rolls[i] == 1 + tape(at + i) % sides
    ensures Sum(rolls) == DiceTotal(tape, at, |rolls|, sides)
  {
    if rolls != [] {
      forall i | 0 <= i < |rolls| - 1 ensures rolls[1..][i] == 1 + tape(at + 1 + i) % sides {
        assert at + (i + 1) == at + 1 + i;
      }
      SumOfDraws(rolls[1..], tape, at + 1, sides);
    }
  }

  predicate Rollable(d: Dice) {
    1 <= d.count <= 20 && 2 <= d.sides <= 100 && -100 <= d.modifier <= 100
  }

  lemma {:induction false} RollTotal(d: Dice, tape: Tape, at: nat)
    ensures Roll(d, tape, at).Some? <==> Rollable(d)
    ensures Rollable(d) ==>
      var r := Roll(d, tape, at).value;
      r.total == DiceTotal(tape, at, d.count, d.sides) + d.modifier && |r.rolls| == d.count
  {
    if Rollable(d) { SumOfDraws(Roll(d, tape, at).value.rolls, tape, at, d.sides); }
  }

  lemma OneDie(sides: nat, modifier: int, tape: Tape, at: nat)
    requires Rollable(Dice(1, sides, modifier))
    ensures Roll(Dice(1, sides, modifier), tape, at).Some?
    ensures var r := Roll(Dice(1, sides, modifier), tape, at).value;
      r.total == 1 + tape(at) % sides + modifier && |r.rolls| == 1
  {
    RollTotal(Dice(1, sides, modifier), tape, at);
    assert DiceTotal(tape, at + 1, 0, sides) == 0;
  }

  // ---- attacks ----

  // The attack roll reaches the target's defense.
  predicate Hits(attacker: Character, defender: Character, tape: Tape, at: nat) {
    Twenty(tape, at) + attacker.bonus >= defender.defense
  }

  // What a hit takes off, never less than nothing
  function Loss(dice: Dice, bonus: int, tape: Tape, at: nat): nat
    requires dice.sides > 0
  {
    var sum := DiceTotal(tape, at, dice.count, dice.sides) + dice.modifier + bonus;
    if sum > 0 then sum else 0
  }

  function Minus(hp: nat, loss: nat): nat {
    if loss < hp then hp - loss else 0
  }

  // An attack drawn at `at` leads from the hit points `before` to `after`.
  ghost predicate Struck(attacker: Character, defender: Character, target: nat, dice: Dice, bonus: int, tape: Tape,
          at: nat, r: ActionResult, before: map<nat, Character>, after: map<nat, Character>)
  {
    && r.Applied? && target in before
    && if Hits(attacker, defender, tape, at) then
         && Rollable(dice) && r.outcome.Success? && DrawCount(r.dice) == 1 + dice.count
         && var hp := before[target].hp;
            after == before[target := before[target].(hp := Minus(hp, Loss(dice, bonus, tape, at + 1)))]
       else r.outcome.Failure? && DrawCount(r.dice) == 1 && after == before
  }

  lemma DrawsOfOne(a: DiceResult)
    ensures DrawCount([a]) == |a.rolls|
  {
    assert [a][1..] == [];
  }

  lemma DrawsOfTwo(a: DiceResult, b: DiceResult)
    ensures DrawCount([a, b]) == |a.rolls| + |b.rolls|
  {
    assert [a, b][1..] == [b];
    DrawsOfOne(b);
  }

  // An attack roll with an unsupported bonus is an error.
  lemma AttackAnswer(c: Command, attacker: Character, defender: Character, tape: Tape, at: nat)
    requires c.Attack? && attacker.hp > 0 && defender.hp > 0 && c.bonus == attacker.bonus
    requires ResolveAttack(c, attacker, defender, tape, at).Some?
    ensures var r := ResolveAttack(c, attacker, defender, tape, at).value;
      && r.Applied?
      && (if Hits(attacker, defender, tape, at) then
            && Rollable(c.dice) && r.outcome.Success? && DrawCount(r.dice) == 1 + c.dice.count
            && var loss := Loss(c.dice, c.damageBonus, tape, at + 1);
               r.changes == [Damage(c.target, loss, defender.hp, Minus(defender.hp, loss))]
          else r.outcome.Failure? && DrawCount(r.dice) == 1 && r.changes == [])
  {
    RollTotal(Dice(1, 20, c.bonus), tape, at);
    OneDie(20, c.bonus, tape, at);
    RollTotal(c.dice, tape, at + 1);
    var r := ResolveAttack(c, attacker, defender, tape, at).value;
    if |r.dice| == 1 { DrawsOfOne(r.dice[0]); } else { DrawsOfTwo(r.dice[0], r.dice[1]); }
    assert r.dice == if |r.dice| == 1 then [r.dice[0]] else [r.dice[0], r.dice[1]];
  }

  lemma AttackGoesThrough(c: Command, attacker: Character, defender: Character, tape: Tape, at: nat)
    requires c.Attack? && attacker.hp > 0 && defender.hp > 0 && -100 <= c.bonus <= 100 && Rollable(c.dice)
    ensures ResolveAttack(c, attacker, defender, tape, at).Some?
  {
    RollTotal(Dice(1, 20, c.bonus), tape, at);
    RollTotal(c.dice, tape, at + 1);
  }

  // ---- potions and checks ----

  function Topped(hp: nat, amount: nat, max: nat): nat {
    if hp + amount < max then hp + amount else max
  }

  lemma ItemAnswer(c: Command, actor: Character, quantity: nat, tape: Tape, at: nat)
    requires c.UseItem? && actor.hp > 0 && quantity >= 1
    ensures ResolveItem(c, actor, quantity, tape, at).Some?
    ensures var r := ResolveItem(c, actor, quantity, tape, at).value;
      var amount := 1 + tape(at) % 6 + 2;
      && r.Applied? && r.outcome.Success? && DrawCount(r.dice) == 1
      && r.changes == [Heal(c.actor, amount, actor.hp, Topped(actor.hp, amount, actor.max), actor.max),
          Consume(c.actor, c.item, quantity, quantity - 1)]
  {
    OneDie(6, 2, tape, at);
    DrawsOfOne(ResolveItem(c, actor, quantity, tape, at).value.dice[0]);
  }

  lemma CheckAnswer(modifier: int, difficulty: int, tape: Tape, at: nat)
    ensures ResolveCheck(modifier, difficulty, tape, at).Some? <==> -100 <= modifier <= 100
    ensures -100 <= modifier <= 100 ==>
      var r := ResolveCheck(modifier, difficulty, tape, at).value;
      && r.Applied? && r.changes == [] && DrawCount(r.dice) == 1
      && r.outcome == if Twenty(tape, at) + modifier >= difficulty then Progressor.Success else Progressor.Failure
  {
    RollTotal(Dice(1, 20, modifier), tape, at);
    if -100 <= modifier <= 100 {
      OneDie(20, modifier, tape, at);
      DrawsOfOne(ResolveCheck(modifier, difficulty, tape, at).value.dice[0]);
    }
  }

  // ---- one action of a plan ----

  // The weapon of an attack, or bare hands
  function Arms(s: Snapshot, weapon: Option<nat>): Weapon
    requires weapon.Some? ==> weapon.value in s.weapons
  {
    if weapon.Some? then s.weapons[weapon.value] else Weapon(Dice(1, 2, 0), 0)
  }

  // Nothing but the dice drawn
  ghost predicate Idle(w: Working, next: Working, draws: nat) {
    next.characters == w.characters && next.stock == w.stock && next.draws == w.draws + draws
  }

  ghost predicate Checked(w: Working, next: Working, modifier: int, difficulty: int, tape: Tape, r: ActionResult) {
    && r.Applied? && Idle(w, next, 1)
    && r.outcome == if Twenty(tape, w.draws) + modifier >= difficulty then Progressor.Success else Progressor.Failure
  }

  ghost predicate Attacking(s: Snapshot, w: Working, next: Working, target: nat, arms: Weapon, tape: Tape,
          r: ActionResult)
    requires s.actor in s.characters && target in s.characters && target in w.characters
  {
    if w.characters[target].hp == 0 then r == NotApplicable(TargetUnavailable) && Idle(w, next, 0)
    else
      && next.stock == w.stock && r.Applied? && next.draws == w.draws + DrawCount(r.dice)
      && Struck(s.characters[s.actor], s.characters[target], target, arms.dice, arms.bonus, tape, w.draws, r,
          w.characters, next.characters)
  }

  ghost predicate Drinking(s: Snapshot, w: Working, next: Working, item: nat, tape: Tape, r: ActionResult)
    requires s.actor in w.characters && (s.actor, item) in w.stock
  {
    var actor, quantity := w.characters[s.actor], w.stock[(s.actor, item)];
    if quantity == 0 then r == NotApplicable(ResourceUnavailable) && Idle(w, next, 0)
    else if actor.hp >= actor.max then r == NotApplicable(RulePrecondition) && Idle(w, next, 0)
    else
      && r.Applied? && r.outcome.Success? && next.draws == w.draws + 1
      && next.characters ==
           w.characters[s.actor := actor.(hp := Topped(actor.hp, 1 + tape(w.draws) % 6 + 2, actor.max))]
      && next.stock == w.stock[(s.actor, item) := quantity - 1]
  }

  // The command names what the intent is about.
  predicate Told(intent: Intent, c: Command) {
    match intent
    case AttackIntent(target, weapon) => c.Attack? && c.target == target && c.weapon == weapon
    case ItemIntent(item) => c.UseItem? && c.item == item
    case SkillIntent(modifier, difficulty) => c.Check? && c.modifier == modifier && c.difficulty == difficulty
    case StoryIntent => c.StoryAction?
    case OpenIntent(_) => c.OpenAction?
  }

  // What the dice make of an intent against the working state `w`
  ghost predicate Answer(s: Snapshot, w: Working, intent: Intent, tape: Tape, record: Record, next: Working)
    requires Tracks(s, w) && s.actor in s.characters && IntentReady(s, intent)
  {
    var r := record.result;
    Told(intent, record.command) &&
    match intent
    case AttackIntent(target, weapon) => Attacking(s, w, next, target, Arms(s, weapon), tape, r)
    case ItemIntent(item) => Drinking(s, w, next, item, tape, r)
    case SkillIntent(modifier, difficulty) => Checked(w, next, modifier, difficulty, tape, r)
    case StoryIntent => r.Applied? && r.outcome.Neutral? && Idle(w, next, 0)
    case OpenIntent(check) =>
      if check.None? then r.Applied? && r.outcome.Neutral? && Idle(w, next, 0)
      else Checked(w, next, check.value.0, check.value.1, tape, r)
  }

  lemma {:induction false} StrikeConcludes(s: Snapshot, w: Working, c: Command, result: ActionResult)
    requires Tracks(s, w) && c.Attack? && c.target in w.characters && result.Applied?
    requires result.changes == []
      || exists amount: nat, after: nat ::
        result.changes == [Damage(c.target, amount, w.characters[c.target].hp, after)]
    ensures Conclude(w, c, Some(result)).Some?
    ensures var next := Conclude(w, c, Some(result)).value.1;
      && next.stock == w.stock && next.draws == w.draws + DrawCount(result.dice)
      && (result.changes == [] ==> next.characters == w.characters)
      && forall amount: nat, after: nat ::
          result.changes == [Damage(c.target, amount, w.characters[c.target].hp, after)] ==>
            next.characters == w.characters[c.target := w.characters[c.target].(hp := after)]
  {
    if result.changes != [] { FollowOne(w, result.changes[0]); }
    assert result.changes == [] || result.changes == [result.changes[0]];
  }

  lemma {:induction false} AttackStep(s: Snapshot, w: Working, intent: Intent, ordinal: nat, id: nat, tape: Tape)
    requires Tracks(s, w) && s.actor in s.characters && IntentReady(s, intent) && intent.AttackIntent?
    requires Step(s, w, intent, ordinal, id, tape).Some? && w.characters[s.actor].hp > 0
    ensures var (record, next) := Step(s, w, intent, ordinal, id, tape).value;
      Answer(s, w, intent, tape, record, next)
  {
    var c := CommandOf(s, w, intent, ordinal, id);
    var actor, target := w.characters[s.actor], w.characters[intent.target];
    assert Arms(s, intent.weapon) == Weapon(c.dice, c.damageBonus);
    if target.hp > 0 {
      AttackAnswer(c, actor, target, tape, w.draws);
      StrikeConcludes(s, w, c, ResolveAttack(c, actor, target, tape, w.draws).value);
    }
  }

  lemma {:induction false} DrinkConcludes(w: Working, c: Command, heal: Change, consume: Change, dice: seq<DiceResult>)
    requires heal.Heal? && consume.Consume? && heal.target in w.characters
      && w.characters[heal.target].hp == heal.before
    requires (consume.owner, consume.item) in w.stock && w.stock[(consume.owner, consume.item)] == consume.before
    ensures var done := Conclude(w, c, Some(Applied(Progressor.Success, dice, [heal, consume])));
      && done.Some? && done.value.1.draws == w.draws + DrawCount(dice)
      && done.value.1.characters == w.characters[heal.target := w.characters[heal.target].(hp := heal.after)]
      && done.value.1.stock == w.stock[(consume.owner, consume.item) := consume.after]
  {
    assert [heal, consume][1..] == [consume];
    FollowOne(Follow(w, heal).value, consume);
  }

  lemma {:induction false} ItemStep(s: Snapshot, w: Working, intent: Intent, ordinal: nat, id: nat, tape: Tape)
    requires Tracks(s, w) && s.actor in s.characters && IntentReady(s, intent) && intent.ItemIntent?
    requires w.characters[s.actor].hp > 0
    ensures Step(s, w, intent, ordinal, id, tape).Some?
    ensures var (record, next) := Step(s, w, intent, ordinal, id, tape).value;
      Answer(s, w, intent, tape, record, next)
  {
    var c := CommandOf(s, w, intent, ordinal, id);
    var actor, quantity := w.characters[s.actor], w.stock[(s.actor, intent.item)];
    if quantity > 0 && actor.hp < actor.max {
      ItemAnswer(c, actor, quantity, tape, w.draws);
      var r := ResolveItem(c, actor, quantity, tape, w.draws).value;
      DrinkConcludes(w, c, r.changes[0], r.changes[1], r.dice);
    }
  }

  lemma {:induction false} StepAnswer(s: Snapshot, w: Working, intent: Intent, ordinal: nat, id: nat, tape: Tape)
    requires Tracks(s, w) && s.actor in s.characters && IntentReady(s, intent)
    requires Step(s, w, intent, ordinal, id, tape).Some? && w.characters[s.actor].hp > 0
    ensures var (record, next) := Step(s, w, intent, ordinal, id, tape).value;
      Answer(s, w, intent, tape, record, next)
  {
    match intent
    case AttackIntent(_, _) => AttackStep(s, w, intent, ordinal, id, tape);
    case ItemIntent(_) => ItemStep(s, w, intent, ordinal, id, tape);
    case SkillIntent(modifier, difficulty) => CheckAnswer(modifier, difficulty, tape, w.draws);
    case StoryIntent =>
    case OpenIntent(check) =>
      if check.Some? { CheckAnswer(check.value.0, check.value.1, tape, w.draws); }
  }

  // ---- whole plans ----

  lemma ActorOutlasts(s: Snapshot, w: Working, intent: Intent, tape: Tape, record: Record, next: Working)
    requires Tracks(s, w) && Tracks(s, next) && s.actor in s.characters && IntentReady(s, intent)
    requires w.characters[s.actor].hp > 0 && Answer(s, w, intent, tape, record, next)
    ensures next.characters[s.actor].hp > 0
  {
  }

  // The working states before and after each action
  ghost predicate Answered(s: Snapshot, intents: seq<Intent>, i: nat, tape: Tape, records: seq<Record>,
          states: seq<Working>)
    requires Preflight(s, intents) && i + |records| <= |intents|
  {
    && |states| == |records| + 1
    && (forall k :: 0 <= k < |states| ==> Tracks(s, states[k]))
    && forall k, l :: 0 <= k && l == k + 1 && l < |states| ==>
      Answer(s, states[k], intents[i + k], tape, records[k], states[l])
  }

  lemma {:induction false} PlanUnfolds(s: Snapshot, w: Working, intents: seq<Intent>, i: nat, ids: nat -> nat,
          tape: Tape)
    requires Tracks(s, w) && Preflight(s, intents) && i < |intents| && ResolveFrom(s, w, intents, i, ids, tape).Some?
    ensures Step(s, w, intents[i], i + 1, ids(i), tape).Some?
    ensures var (record, next) := Step(s, w, intents[i], i + 1, ids(i), tape).value;
      && Tracks(s, next) && ResolveFrom(s, next, intents, i + 1, ids, tape).Some?
      && var (records, last) := ResolveFrom(s, next, intents, i + 1, ids, tape).value;
         ResolveFrom(s, w, intents, i, ids, tape).value == ([record] + records, last)
  {
    StepTracks(s, w, intents[i], i + 1, ids(i), tape);
  }

  // Every action of a plan is decided by its draws, against what the actions before it left.
  lemma {:induction false} PlanAnswers(s: Snapshot, w: Working, intents: seq<Intent>, i: nat, ids: nat -> nat,
          tape: Tape) returns (states: seq<Working>)
    requires Tracks(s, w) && Preflight(s, intents) && i <= |intents| && w.characters[s.actor].hp > 0
    requires ResolveFrom(s, w, intents, i, ids, tape).Some?
    ensures var (records, last) := ResolveFrom(s, w, intents, i, ids, tape).value;
      && |records| == |intents| - i && Answered(s, intents, i, tape, records, states)
      && states[0] == w && states[|records|] == last
    decreases |intents| - i
  {
    if i == |intents| {
      states := [w];
    } else {
      PlanUnfolds(s, w, intents, i, ids, tape);
      var (record, next) := Step(s, w, intents[i], i + 1, ids(i), tape).value;
      StepAnswer(s, w, intents[i], i + 1, ids(i), tape);
      ActorOutlasts(s, w, intents[i], tape, record, next);
      var rest := PlanAnswers(s, next, intents, i + 1, ids, tape);
      states := [w] + rest;
      AnsweredOn(s, intents, i, tape, w, record, ResolveFrom(s, next, intents, i + 1, ids, tape).value.0, rest);
    }
  }

  lemma {:induction false} AnsweredOn(s: Snapshot, intents: seq<Intent>, i: nat, tape: Tape, w: Working,
          record: Record, records: seq<Record>, rest: seq<Working>)
    requires Preflight(s, intents) && i + 1 + |records| <= |intents| && Tracks(s, w)
    requires Answered(s, intents, i + 1, tape, records, rest)
    requires Answer(s, w, intents[i], tape, record, rest[0])
    ensures Answered(s, intents, i, tape, [record] + records, [w] + rest)
  {
    var states, all := [w] + rest, [record] + records;
    forall k, l | 0 <= k && l == k + 1 && l < |states|
      ensures Answer(s, states[k], intents[i + k], tape, all[k], states[l])
    {
      if k > 0 {
        assert Answer(s, rest[k - 1], intents[i + 1 + (k - 1)], tape, records[k - 1], rest[k]);
        assert i + 1 + (k - 1) == i + k;
      }
    }
  }

  // Bonuses and dice expressions that the dice engine supports
  predicate Supported(s: Snapshot, intent: Intent)
    requires s.actor in s.characters && IntentReady(s, intent)
  {
    match intent
    case AttackIntent(_, weapon) => -100 <= s.characters[s.actor].bonus <= 100 && Rollable(Arms(s, weapon).dice)
    case SkillIntent(modifier, _) => -100 <= modifier <= 100
    case OpenIntent(check) => check.Some? ==> -100 <= check.value.0 <= 100
    case _ => true
  }

  lemma {:induction false} StepGoesThrough(s: Snapshot, w: Working, intent: Intent, ordinal: nat, id: nat, tape: Tape)
    requires Tracks(s, w) && s.actor in s.characters && IntentReady(s, intent) && Supported(s, intent)
    requires w.characters[s.actor].hp > 0
    ensures Step(s, w, intent, ordinal, id, tape).Some?
  {
    var c := CommandOf(s, w, intent, ordinal, id);
    match intent
    case AttackIntent(target, weapon) =>
      if w.characters[target].hp > 0 {
        assert Arms(s, weapon) == Weapon(c.dice, c.damageBonus);
        AttackGoesThrough(c, w.characters[s.actor], w.characters[target], tape, w.draws);
        AttackAnswer(c, w.characters[s.actor], w.characters[target], tape, w.draws);
        StrikeConcludes(s, w, c, ResolveAttack(c, w.characters[s.actor], w.characters[target], tape, w.draws).value);
      }
    case ItemIntent(_) => ItemStep(s, w, intent, ordinal, id, tape);
    case SkillIntent(modifier, difficulty) => CheckAnswer(modifier, difficulty, tape, w.draws);
    case StoryIntent =>
    case OpenIntent(check) =>
      if check.Some? { CheckAnswer(check.value.0, check.value.1, tape, w.draws); }
  }

  // A plan the preflight lets through with supported dice is resolved to the end, whatever is drawn.
  lemma {:induction false} PlanGoesThrough(s: Snapshot, w: Working, intents: seq<Intent>, i: nat, ids: nat -> nat,
          tape: Tape)
    requires Tracks(s, w) && Preflight(s, intents) && i <= |intents| && w.characters[s.actor].hp > 0
    requires forall k :: 0 <= k < |intents| ==> Supported(s, intents[k])
    ensures ResolveFrom(s, w, intents, i, ids, tape).Some?
    decreases |intents| - i
  {
    if i < |intents| {
      StepGoesThrough(s, w, intents[i], i + 1, ids(i), tape);
      var (record, next) := Step(s, w, intents[i], i + 1, ids(i), tape).value;
      StepTracks(s, w, intents[i], i + 1, ids(i), tape);
      StepAnswer(s, w, intents[i], i + 1, ids(i), tape);
      ActorOutlasts(s, w, intents[i], tape, record, next);
      PlanGoesThrough(s, next, intents, i + 1, ids, tape);
    }
  }

  // ---- the reaction ----

  // The configured enemy of the scene's combat
  ghost predicate Enemy(s: Snapshot, enemy: nat) {
    s.combat.Some? && s.combat.value.enemy == Some(enemy) && enemy in s.npcs
  }

  // An action was carried out in a scene with combat, and the turn does not leave the scene.
  ghost predicate Fought(s: Snapshot, records: seq<Record>, update: Option<Progressor.Update>) {
    && s.combat.Some? && (exists i :: 0 <= i < |records| && records[i].result.Applied?)
    && (update.Some? ==> update.value.toScene.None? && update.value.ending.None?)
  }

  // The combat is under way, or one of the actions has started it.
  ghost predicate Engaged(s: Snapshot, records: seq<Record>, enemy: nat)
    requires s.combat.Some?
  {
    s.combat.value.startedFlag in s.flags ||
    exists i ::
      0 <= i < |records| && records[i].result.Applied? && records[i].command.Attack?
        && records[i].command.target == enemy
  }

  function FlagsOf(update: Option<Progressor.Update>): seq<string> {
    if update.Some? then update.value.addFlags else []
  }

  // The reaction starts the combat if it is not under way, and ends the run if the actor falls.
  ghost predicate Reported(s: Snapshot, update: Option<Progressor.Update>, fallen: bool,
          after: Option<Progressor.Update>)
    requires s.combat.Some?
  {
    var started := s.combat.value.startedFlag;
    var flags := if started in s.flags || started in FlagsOf(update) then FlagsOf(update)
      else FlagsOf(update) + [started];
    if flags == [] && !fallen then after == update
    else
      && after.Some? && after.value.fromScene == s.scene && after.value.toScene.None? && after.value.addFlags == flags
      && after.value.ending == (if fallen then Some(s.combat.value.defeatEnding) else None)
      && (update.Some? ==>
            after.value.elapsed == update.value.elapsed && after.value.alertDelta == update.value.alertDelta
              && after.value.facts == update.value.facts)
      && (update.None? ==> after.value.elapsed == 0 && after.value.alertDelta == 0 && after.value.facts == [])
  }

  // One attack of the enemy on the actor, against the hit points `before`
  ghost predicate Retaliates(s: Snapshot, update: Option<Progressor.Update>, enemy: nat, before: map<nat, Character>,
          tape: Tape, at: nat, r: CombatResolution)
    requires s.combat.Some? && enemy in s.characters && s.actor in s.characters
  {
    && |r.reactions| == 1 && r.reactions[0].command.Attack?
    && r.reactions[0].command.actor == enemy && r.reactions[0].command.target == s.actor
    && exists after: map<nat, Character> ::
        && Struck(s.characters[enemy], s.characters[s.actor], s.actor, s.combat.value.dice, s.combat.value.bonus, tape,
            at, r.reactions[0].result, before, after)
        && s.actor in after && Reported(s, update, after[s.actor].hp == 0, r.update)
  }

  // The enemy's bonus and dice are ones the dice engine supports.
  predicate Armed(s: Snapshot, enemy: nat)
    requires s.combat.Some? && enemy in s.characters
  {
    -100 <= s.characters[enemy].bonus <= 100 && Rollable(s.combat.value.dice)
  }

  lemma ArmedReacts(s: Snapshot, records: seq<Record>, update: Option<Progressor.Update>, id: nat, tape: Tape,
          at: nat, w: Working, enemy: nat)
    requires s.combat.Some? && Tracks(s, w) && enemy in s.characters && s.actor in s.characters && Armed(s, enemy)
    ensures ReactWith(s, records, update, s.combat.value, enemy, w, id, tape, at).Some?
  {
    var combat := s.combat.value;
    var c := Attack(id, s.campaign, s.turn, enemy, 1, s.actor, None, w.characters[enemy].bonus, combat.dice,
        combat.bonus);
    if w.characters[enemy].hp > 0 && w.characters[s.actor].hp > 0 {
      AttackGoesThrough(c, w.characters[enemy], w.characters[s.actor], tape, at);
    }
  }

  // Whether the enemy reacts at all, and how, given the working state the actions left
  lemma {:induction false} ReactionAnswer(s: Snapshot, records: seq<Record>, update: Option<Progressor.Update>,
          id: nat, tape: Tape, at: nat, w: Working)
    requires FollowAll(Start(s), ChangesOf(records)) == Some(w) && Tracks(s, w) && s.actor in s.characters
    ensures var r := EnemyReaction(s, records, update, id, tape, at);
      && (!Fought(s, records, update) ==> r == Some(CombatResolution([], update)))
      && (Fought(s, records, update) && (forall enemy :: !Enemy(s, enemy)) ==> r.None?)
      && forall enemy :: Fought(s, records, update) && Enemy(s, enemy) && enemy in s.characters ==>
        if !Engaged(s, records, enemy) || w.characters[enemy].hp == 0 || w.characters[s.actor].hp == 0 then
          r == Some(CombatResolution([], update))
        else
          (Armed(s, enemy) ==> r.Some?) && (r.Some? ==> Retaliates(s, update, enemy, w.characters, tape, at, r.value))
  {
    if EnemyOf(s).Some? { assert Enemy(s, EnemyOf(s).value); }
    forall enemy | Fought(s, records, update) && Enemy(s, enemy) && enemy in s.characters
      ensures var r := EnemyReaction(s, records, update, id, tape, at);
        if !Engaged(s, records, enemy) || w.characters[enemy].hp == 0 || w.characters[s.actor].hp == 0 then
          r == Some(CombatResolution([], update))
        else
          (Armed(s, enemy) ==> r.Some?) && (r.Some? ==> Retaliates(s, update, enemy, w.characters, tape, at, r.value))
    {
      EnemyAnswer(s, records, update, id, tape, at, w, enemy);
    }
  }

  lemma {:induction false} EnemyAnswer(s: Snapshot, records: seq<Record>, update: Option<Progressor.Update>, id: nat,
          tape: Tape, at: nat, w: Working, enemy: nat)
    requires FollowAll(Start(s), ChangesOf(records)) == Some(w) && s.actor in s.characters && Tracks(s, w)
    requires Fought(s, records, update) && Enemy(s, enemy) && enemy in s.characters
    ensures var r := EnemyReaction(s, records, update, id, tape, at);
      if !Engaged(s, records, enemy) || w.characters[enemy].hp == 0 || w.characters[s.actor].hp == 0 then
        r == Some(CombatResolution([], update))
      else (Armed(s, enemy) ==> r.Some?) && (r.Some? ==> Retaliates(s, update, enemy, w.characters, tape, at, r.value))
  {
    HpFollows(Start(s), Start(s), ChangesOf(records));
    assert EnemyOf(s) == Some(enemy);
    var v := FollowAll(Start(s), HpChanges(ChangesOf(records))).value;
    assert v.characters == w.characters;
    FollowAllTracks(s, Start(s), HpChanges(ChangesOf(records)));
    assert Engaged(s, records, enemy) <==> s.combat.value.startedFlag in s.flags || Attacked(records, enemy);
    if Engaged(s, records, enemy) && w.characters[enemy].hp > 0 && w.characters[s.actor].hp > 0 {
      assert EnemyReaction(s, records, update, id, tape, at)
        == ReactWith(s, records, update, s.combat.value, enemy, v, id, tape, at);
      if Armed(s, enemy) { ArmedReacts(s, records, update, id, tape, at, v, enemy); }
      if EnemyReaction(s, records, update, id, tape, at).Some? {
        EnemyStrikes(s, records, update, id, tape, at, v, enemy);
      }
    }
  }

  lemma EnemyStrikes(s: Snapshot, records: seq<Record>, update: Option<Progressor.Update>, id: nat, tape: Tape,
          at: nat, w: Working, enemy: nat)
    requires s.combat.Some? && Tracks(s, w) && enemy in s.characters && s.actor in s.characters
    requires update.Some? ==> update.value.toScene.None? && update.value.ending.None?
    requires w.characters[enemy].hp > 0 && w.characters[s.actor].hp > 0
    requires ReactWith(s, records, update, s.combat.value, enemy, w, id, tape, at).Some?
    ensures Retaliates(s, update, enemy, w.characters, tape, at,
        ReactWith(s, records, update, s.combat.value, enemy, w, id, tape, at).value)
  {
    var r := ReactWith(s, records, update, s.combat.value, enemy, w, id, tape, at).value;
    var c, result := r.reactions[0].command, r.reactions[0].result;
    AttackAnswer(c, w.characters[enemy], w.characters[s.actor], tape, at);
    var hit := Hits(s.characters[enemy], s.characters[s.actor], tape, at);
    assert hit == Hits(w.characters[enemy], w.characters[s.actor], tape, at);
    var hp := w.characters[s.actor].hp;
    var left := if hit then Minus(hp, Loss(c.dice, c.damageBonus, tape, at + 1)) else hp;
    var after := w.characters[s.actor := w.characters[s.actor].(hp := left)];
    assert !hit ==> after == w.characters;
    assert Struck(s.characters[enemy], s.characters[s.actor], s.actor, s.combat.value.dice, s.combat.value.bonus, tape,
        at, result, w.characters, after);
    assert hit ==> result.changes[0].after == left;
    ReportAnswer(s, update, result, left == 0);
  }

  lemma ReportAnswer(s: Snapshot, update: Option<Progressor.Update>, result: ActionResult, fallen: bool)
    requires s.combat.Some? && result.Applied? && |result.changes| <= 1
    requires fallen <==> result.changes != [] && result.changes[0].Damage? && result.changes[0].after == 0
    requires update.Some? ==> update.value.toScene.None? && update.value.ending.None?
    ensures Reported(s, update, fallen, ReactionUpdate(s, s.combat.value, update, result))
  {
  }
}
