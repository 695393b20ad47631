/**
 What the projection and the canonical half of the commit accept, field by field, and which events
 they tell; for any bundle, however it was made.
 */
module ProjectionAnswers {
  import opened Outcomes
  import opened Resolution
  import opened Mechanics
  import opened ResolutionLaws
  import opened AssemblyLaws

  // ---- the checks on a bundle ----

  // The actions of the turn: at least one and not too many, numbered from 1, each identified once, all of
  // them the acting character's
  ghost predicate OwnActions(b: Bundle, turn: Context) {
    && b.scene == turn.scene && b.actions != [] && |b.actions| <= turn.maxActions
    && (forall i :: 0 <= i < |b.actions| ==>
          var c := b.actions[i].command;
          c.ordinal == i + 1 && c.campaign == b.campaign && c.turn == b.turn && c.actor == turn.actor)
    && forall i, j :: 0 <= i < |b.actions| && 0 <= j < |b.actions| && i != j ==>
      b.actions[i].command.id != b.actions[j].command.id
  }

  // The dice are ones the engine rolls, within their sides, and add up to the total.
  ghost predicate Thrown(roll: DiceResult, count: nat, sides: nat, modifier: int) {
    && 1 <= count <= 20 && 2 <= sides <= 100 && -100 <= modifier <= 100
    && roll.dice == Dice(count, sides, modifier) && |roll.rolls| == count
    && (forall i :: 0 <= i < count ==> 1 <= roll.rolls[i] <= sides)
    && roll.total == Sum(roll.rolls) + modifier
  }

  // The dice drawn for the actions before
  function DrawnBefore(actions: seq<Record>): nat {
    if actions == [] then 0
    else
      var last := actions[|actions| - 1].result;
      DrawnBefore(actions[..|actions| - 1]) + (if last.Applied? then |last.dice| else 0)
  }

  lemma {:induction false} DrawnIsDraws(actions: seq<Record>)
    ensures DrawsOf(actions) == DrawnBefore(actions)
  {
    if actions != [] {
      DrawnIsDraws(actions[..|actions| - 1]);
      DrawsSnoc(actions[..|actions| - 1], actions[|actions| - 1]);
      assert actions == actions[..|actions| - 1] + [actions[|actions| - 1]];
    }
  }

  lemma {:induction false} DrawsSnoc(actions: seq<Record>, r: Record)
    ensures DrawsOf(actions + [r]) == DrawsOf(actions) + (if r.result.Applied? then |r.result.dice| else 0)
  {
    if actions == [] {
      assert [] + [r] == [r] && [r][1..] == [];
    } else {
      assert (actions + [r])[0] == actions[0] && (actions + [r])[1..] == actions[1..] + [r];
      DrawsSnoc(actions[1..], r);
    }
  }

  // A hit's dice and the damage they amount to
  ghost predicate Dealt(r: Record, actor: nat)
    requires r.command.Attack? && r.result.Applied?
  {
    && |r.result.dice| == 2 && |r.result.changes| == 1 && r.result.changes[0].Damage?
    && Thrown(r.result.dice[1], r.command.dice.count, r.command.dice.sides, r.command.dice.modifier)
    && var (c, sum) := (r.result.changes[0], r.result.dice[1].total + r.command.damageBonus);
       && c.target == actor && c.amount == (if sum < 0 then 0 else sum)
       && c.after == (if c.amount < c.before then c.before - c.amount else 0)
  }

  // The one reaction: the configured enemy, another character, attacks the actor once; its dice are numbered
  // on from those of the actions, and make a hit or a miss.
  ghost predicate OwnReaction(b: Bundle, turn: Context, r: Record) {
    && r.command.Attack? && r.result.Applied? && turn.enemy == Some(r.command.actor)
    && r.command.actor != turn.actor && r.command.target == turn.actor
    && r.command.campaign == b.campaign && r.command.turn == b.turn && r.command.ordinal == 1
    && (forall i :: 0 <= i < |b.actions| ==> b.actions[i].command.id != r.command.id)
    && |r.rng| == |r.result.dice|
    && (forall i :: 0 <= i < |r.rng| ==> r.rng[i] == DrawnBefore(b.actions) + i)
    && r.result.dice != [] && Thrown(r.result.dice[0], 1, 20, r.command.bonus)
    && match r.result.outcome
       case Success => Dealt(r, turn.actor)
       case Failure => |r.result.dice| == 1 && r.result.changes == []
       case Neutral => false
  }

  ghost predicate OwnReactions(b: Bundle, turn: Context) {
    || b.reactions == []
    || (|b.reactions| == 1 && (exists i :: 0 <= i < |b.actions| && b.actions[i].result.Applied?)
        && OwnReaction(b, turn, b.reactions[0]))
  }

  // The narration input tells the results of the actions and of the reaction, and this version.
  ghost predicate TellsResults(b: Bundle, turn: Context, version: nat) {
    var n := b.narration;
    && n.version == version && n.maxActions == turn.maxActions
    && |n.actions| == |b.actions| && |n.reactions| == |b.reactions|
    && (forall i :: 0 <= i < |b.actions| ==>
          var c := b.actions[i].command; n.actions[i] == Resolved(c.id, c.ordinal, b.actions[i].result))
    && forall i :: 0 <= i < |b.reactions| && b.reactions[i].command.Attack? ==>
      var c := b.reactions[i].command;
      n.reactions[i] == ResolvedReaction(c.id, c.actor, c.target, b.reactions[i].result)
  }

  // One index for each die of an action, none for an action that was not carried out
  ghost predicate Indexed(b: Bundle) {
    forall i :: 0 <= i < |b.actions| ==>
      |b.actions[i].rng| == if b.actions[i].result.Applied? then |b.actions[i].result.dice| else 0
  }

  lemma {:induction false} ActionsAnswer(b: Bundle, turn: Context)
    ensures ActionsValid(b, turn) <==> OwnActions(b, turn)
  {
    if OwnActions(b, turn) {
      forall i, j | 0 <= i < j < |b.actions| ensures b.actions[i].command.id != b.actions[j].command.id {
      }
    }
  }

  lemma DealtAnswer(r: Record, actor: nat)
    requires r.command.Attack? && r.result.Applied? && r.result.outcome.Success?
    ensures Dealt(r, actor) <==>
      && |r.result.dice| == 2 && |r.result.changes| == 1 && RollOf(r.result.dice[1], r.command.dice)
      && r.result.changes[0].Damage? && r.result.changes[0].target == actor
      && r.result.changes[0].amount == AtLeast0(r.result.dice[1].total + r.command.damageBonus)
      && r.result.changes[0].after == Lowered(r.result.changes[0].before, r.result.changes[0].amount)
  {
  }

  lemma {:induction false} ReactionAnswer(b: Bundle, turn: Context, r: Record)
    ensures ReactionValid(b, turn, r) <==> OwnReaction(b, turn, r)
  {
    DrawnIsDraws(b.actions);
    if r.command.Attack? && r.result.Applied? && r.result.outcome.Success? { DealtAnswer(r, turn.actor); }
    if ReactionValid(b, turn, r) { assert OwnReaction(b, turn, r); }
    if OwnReaction(b, turn, r) { assert ReactionValid(b, turn, r); }
  }

  lemma {:induction false} ReactionsAnswer(b: Bundle, turn: Context)
    ensures ReactionsValid(b, turn) <==> OwnReactions(b, turn)
  {
    if |b.reactions| == 1 { ReactionAnswer(b, turn, b.reactions[0]); }
  }

  lemma {:induction false} TellsAnswer(b: Bundle, turn: Context, version: nat)
    requires forall i :: 0 <= i < |b.reactions| ==> b.reactions[i].command.Attack?
    ensures TellsResults(b, turn, version) <==>
      b.narration == Narration(version, turn.maxActions, ResolvedOf(b.actions), ResolvedReactionsOf(b.reactions))
  {
    if TellsResults(b, turn, version) {
      assert b.narration.actions == ResolvedOf(b.actions);
      assert b.narration.reactions == ResolvedReactionsOf(b.reactions);
    }
  }

  lemma {:induction false} EventsAnswer(actions: seq<Record>, first: nat, version: nat)
    ensures ActionEvents(actions, first, version).Some? <==>
      forall i :: 0 <= i < |actions| ==>
        |actions[i].rng| == if actions[i].result.Applied? then |actions[i].result.dice| else 0
  {
    if actions != [] {
      var own := Number(KindsOf(actions[0].result), Some(actions[0].command.id), first, version);
      EventsAnswer(actions[1..], first + |own|, version);
      assert forall i :: 1 <= i < |actions| ==> actions[i] == actions[1..][i - 1];
    }
  }

  // A bundle is accepted exactly if its actions and its reaction are the turn's own, the changes form a
  // continuous chain, every die is indexed and the narration tells the results at the version that the
  // changes and the scenario update amount to.
  lemma {:induction false} ProjectAnswer(b: Bundle, turn: Context, first: nat)
    ensures var net := NetMutations(ChangesOf(b.actions + b.reactions));
      Project(b, turn, first).Some? <==>
        && OwnActions(b, turn) && OwnReactions(b, turn) && net.Some? && Indexed(b)
        && TellsResults(b, turn, if net.value == [] && b.update.None? then b.base else b.base + 1)
    ensures Project(b, turn, first).Some? ==>
      var p := Project(b, turn, first).value;
      && p.version == b.narration.version && Some(p.mutations) == NetMutations(ChangesOf(b.actions + b.reactions))
      && Events(b, first, p.version) == Some(p.events)
  {
    ActionsAnswer(b, turn);
    ReactionsAnswer(b, turn);
    if OwnReactions(b, turn) {
      assert forall i :: 0 <= i < |b.reactions| ==> b.reactions[i].command.Attack?;
      var net := NetMutations(ChangesOf(b.actions + b.reactions));
      if net.Some? {
        var version := VersionOf(b, net.value);
        TellsAnswer(b, turn, version);
        EventsAnswer(b.actions, first, version);
      }
    }
  }

  // ---- the events ----

  function Count(events: seq<Event>, kind: EventKind): nat {
    if events == [] then 0 else (if events[0].kind == kind then 1 else 0) + Count(events[1..], kind)
  }

  lemma {:induction false} CountConcat(a: seq<Event>, b: seq<Event>, kind: EventKind)
    ensures Count(a + b, kind) == Count(a, kind) + Count(b, kind)
  {
    if a == [] {
      assert a + b == b;
    } else {
      assert (a + b)[0] == a[0] && (a + b)[1..] == a[1..] + b;
      CountConcat(a[1..], b, kind);
    }
  }

  lemma {:induction false} CountSame(kinds: seq<EventKind>, own: EventKind, action: Option<nat>, first: nat,
          version: nat, kind: EventKind)
    requires forall i :: 0 <= i < |kinds| ==> kinds[i] == own
    ensures Count(Number(kinds, action, first, version), kind) == if kind == own then |kinds| else 0
  {
    if kinds != [] {
      assert Number(kinds, action, first, version)[1..] == Number(kinds[1..], action, first + 1, version);
      CountSame(kinds[1..], own, action, first + 1, version, kind);
    }
  }

  lemma {:induction false} CountOthers(events: seq<Event>, kind: EventKind)
    requires forall i :: 0 <= i < |events| ==> events[i].kind != kind
    ensures Count(events, kind) == 0
  {
    if events != [] { CountOthers(events[1..], kind); }
  }

  // One action tells its dice, its changes and then its result.
  lemma {:induction false} ResultCounts(r: ActionResult, action: Option<nat>, first: nat, version: nat)
    ensures var own := Number(KindsOf(r), action, first, version);
      && Count(own, DiceRolled) == (if r.Applied? then |r.dice| else 0)
      && Count(own, ActionResolved) == 1 && own[|own| - 1].kind == ActionResolved
      && Count(own, EnemyReacted) == 0 && Count(own, ScenarioProgressed) == 0
  {
    forall kind: EventKind | !kind.Changed?
      ensures Count(Number(KindsOf(r), action, first, version), kind) ==
        (if kind == DiceRolled && r.Applied? then |r.dice| else 0) + (if kind == ActionResolved then 1 else 0)
    {
      ResultCount(r, action, first, version, kind);
    }
  }

  lemma {:induction false} ResultCount(r: ActionResult, action: Option<nat>, first: nat, version: nat, kind: EventKind)
    requires !kind.Changed?
    ensures Count(Number(KindsOf(r), action, first, version), kind) ==
      (if kind == DiceRolled && r.Applied? then |r.dice| else 0) + (if kind == ActionResolved then 1 else 0)
  {
    if r.Applied? {
      var rolled: seq<EventKind> := seq(|r.dice|, i => DiceRolled);
      var changed := seq(|r.changes|, i requires 0 <= i < |r.changes| => Changed(r.changes[i]));
      NumberConcat(rolled + changed, [ActionResolved], action, first, version);
      NumberConcat(rolled, changed, action, first, version);
      var a, b, c := Number(rolled, action, first, version), Number(changed, action, first + |rolled|, version),
        Number([ActionResolved], action, first + |rolled + changed|, version);
      CountConcat(a + b, c, kind);
      CountConcat(a, b, kind);
      CountSame(rolled, DiceRolled, action, first, version, kind);
      CountOthers(b, kind);
      CountSame([ActionResolved], ActionResolved, action, first + |rolled + changed|, version, kind);
    } else {
      CountSame([ActionResolved], ActionResolved, action, first, version, kind);
    }
  }

  lemma {:induction false} ActionCounts(actions: seq<Record>, first: nat, version: nat)
    requires ActionEvents(actions, first, version).Some?
    ensures var events := ActionEvents(actions, first, version).value;
      && Count(events, DiceRolled) == DrawsOf(actions) && Count(events, ActionResolved) == |actions|
      && Count(events, EnemyReacted) == 0 && Count(events, ScenarioProgressed) == 0
  {
    if actions != [] {
      var own := Number(KindsOf(actions[0].result), Some(actions[0].command.id), first, version);
      var rest := ActionEvents(actions[1..], first + |own|, version).value;
      ActionCounts(actions[1..], first + |own|, version);
      ResultCounts(actions[0].result, Some(actions[0].command.id), first, version);
      CountConcat(own, rest, DiceRolled);
      CountConcat(own, rest, ActionResolved);
      CountConcat(own, rest, EnemyReacted);
      CountConcat(own, rest, ScenarioProgressed);
    }
  }

  // The events tell every die of the actions, each action's result, each reaction, and the progress of the
  // scenario if there is one.
  lemma {:induction false} EventCounts(b: Bundle, first: nat, version: nat)
    requires Events(b, first, version).Some?
    ensures var events := Events(b, first, version).value;
      && Count(events, DiceRolled) == DrawnBefore(b.actions) && Count(events, ActionResolved) == |b.actions|
      && Count(events, EnemyReacted) == |b.reactions|
      && Count(events, ScenarioProgressed) == (if b.update.Some? then 1 else 0)
      && (b.update.Some? ==> events[|events| - 1].kind == ScenarioProgressed)
  {
    var told := ActionEvents(b.actions, first, version).value;
    ActionCounts(b.actions, first, version);
    DrawnIsDraws(b.actions);
    var kinds: seq<EventKind> := seq(|b.reactions|, i => EnemyReacted);
    var reacted := Number(kinds, None, first + |told|, version);
    var progressed := if b.update.Some? then [Event(ScenarioProgressed, None, first + |told| + |reacted|, version)]
      else [];
    assert Events(b, first, version).value == told + reacted + progressed;
    forall kind | kind in {DiceRolled, ActionResolved, EnemyReacted, ScenarioProgressed}
      ensures Count(told + reacted + progressed, kind) == Count(told, kind)
        + (if kind == EnemyReacted then |b.reactions| else 0)
        + (if kind == ScenarioProgressed && b.update.Some? then 1 else 0)
    {
      CountConcat(told + reacted, progressed, kind);
      CountConcat(told, reacted, kind);
      CountSame(kinds, EnemyReacted, None, first + |told|, version, kind);
      LastCount(progressed, kind);
    }
  }

  lemma {:induction false} LastCount(events: seq<Event>, kind: EventKind)
    requires |events| <= 1
    ensures Count(events, kind) == if events != [] && events[0].kind == kind then 1 else 0
  {
    if events != [] { assert events[1..] == []; }
  }

  // ---- writing the net mutations ----

  // The mutation starts from the stored value, agrees on the maximum and does not exceed it.
  ghost predicate Applies(store: Canon, m: Mutation) {
    && m.key in store && store[m.key].value == m.before
    && (m.max.Some? ==> m.max == Some(store[m.key].max))
    && (m.key.HpKey? ==> m.after <= store[m.key].max)
  }

  // Mutations of distinct keys are written exactly if each applies to the store as it was, and they change its
  // values and nothing else.
  lemma {:induction false} CommitAnswer(store: Canon, ms: seq<Mutation>)
    requires forall i, j :: 0 <= i < j < |ms| ==> ms[i].key != ms[j].key
    ensures CommitMutations(store, ms).Some? <==> forall i :: 0 <= i < |ms| ==> Applies(store, ms[i])
    ensures CommitMutations(store, ms).Some? ==>
      var after := CommitMutations(store, ms).value;
      && after.Keys == store.Keys
      && (forall i :: 0 <= i < |ms| ==> after[ms[i].key] == store[ms[i].key].(value := ms[i].after))
      && forall k :: k in store && (forall i :: 0 <= i < |ms| ==> ms[i].key != k) ==> after[k] == store[k]
  {
    if CommitMutations(store, ms).Some? { UpdateAnswer(store, ms); }
  }

  lemma {:induction false} UpdateAnswer(store: Canon, ms: seq<Mutation>)
    requires forall i, j :: 0 <= i < j < |ms| ==> ms[i].key != ms[j].key
    requires forall i :: 0 <= i < |ms| ==> ms[i].key in store
    ensures var after := Update(store, ms);
      && after.Keys == store.Keys
      && (forall i :: 0 <= i < |ms| ==> after[ms[i].key] == store[ms[i].key].(value := ms[i].after))
      && forall k :: k in store && (forall i :: 0 <= i < |ms| ==> ms[i].key != k) ==> after[k] == store[k]
    decreases |ms|
  {
    if ms != [] {
      var next, rest := store[ms[0].key := store[ms[0].key].(value := ms[0].after)], ms[1..];
      assert forall i :: 1 <= i < |ms| ==> ms[i] == rest[i - 1] && ms[i].key != ms[0].key;
      UpdateAnswer(next, rest);
      assert next.Keys == store.Keys;
      assert forall i :: 0 <= i < |rest| ==> rest[i].key != ms[0].key;
    }
  }

  // ---- the plan's own check ----

  // A standing target other than the actor and a weapon that is carried; or an item in stock and an injury
  ghost predicate Sensible(s: Snapshot, intent: Intent) {
    match intent
    case AttackIntent(target, weapon) =>
      && target in s.attackable && target != s.actor && target in s.characters && s.characters[target].hp >= 1
      && (weapon.None? || (weapon.value in s.weapons && Stocks(s, weapon.value)))
    case ItemIntent(item) =>
      && Stocks(s, item) && s.actor in s.characters && s.characters[s.actor].hp < s.characters[s.actor].max
    case _ => true
  }

  ghost predicate Stocks(s: Snapshot, item: nat) {
    (s.actor, item) in s.stock && s.stock[(s.actor, item)] >= 1
  }

  // A plan is let through exactly if the actor stands, the number of intents is right and each is sensible.
  lemma PreflightAnswer(s: Snapshot, intents: seq<Intent>)
    ensures Preflight(s, intents) <==>
      && s.actor in s.characters && s.characters[s.actor].hp >= 1 && intents != [] && |intents| <= s.maxActions
      && forall i :: 0 <= i < |intents| ==> Sensible(s, intents[i])
  {
    forall i | 0 <= i < |intents| ensures Sensible(s, intents[i]) <==> IntentReady(s, intents[i]) {
    }
  }
}
