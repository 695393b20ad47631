/**
 The independent check of a resolved turn: net mutations of the canonical state, the enemy
 reaction, the event list and the committed version are all derived again from the bundle.
 */
module Resolution {
  import opened Outcomes
  import Progressor

  datatype Dice = Dice(count: nat, sides: nat, modifier: int)

  datatype DiceResult = DiceResult(dice: Dice, rolls: seq<nat>, total: int)

  datatype Change =
    | Damage(target: nat, amount: nat, before: nat, after: nat)
    | Heal(target: nat, amount: nat, before: nat, after: nat, max: nat)
    | Consume(owner: nat, item: nat, before: nat, after: nat)

  datatype ActionResult = Applied(outcome: Progressor.Roll, dice: seq<DiceResult>,
      changes: seq<Change>) | NotApplicable(reason: Reason)

  datatype Reason = TargetUnavailable | ResourceUnavailable | RulePrecondition

  datatype Command =
    | Attack(id: nat, campaign: nat, turn: nat, actor: nat, ordinal: nat, target: nat, weapon: Option<nat>,
        bonus: int, dice: Dice, damageBonus: int)
    | Check(id: nat, campaign: nat, turn: nat, actor: nat, ordinal: nat, modifier: int, difficulty: int)
    | UseItem(id: nat, campaign: nat, turn: nat, actor: nat, ordinal: nat, item: nat)
    | StoryAction(id: nat, campaign: nat, turn: nat, actor: nat, ordinal: nat)
    | OpenAction(id: nat, campaign: nat, turn: nat, actor: nat, ordinal: nat)

  // `rng` holds the draw index recorded for each dice result.
  datatype Record = Record(command: Command, result: ActionResult, rng: seq<nat>)

  datatype Resolved = Resolved(id: nat, ordinal: nat, result: ActionResult)

  datatype ResolvedReaction = ResolvedReaction(id: nat, actor: nat, target: nat, result: ActionResult)

  datatype Narration = Narration(version: nat, maxActions: nat, actions: seq<Resolved>,
      reactions: seq<ResolvedReaction>)

  datatype Bundle = Bundle(
    campaign: nat, scene: nat, turn: nat, base: nat, actions: seq<Record>, narration: Narration,
    update: Option<Progressor.Update>, reactions: seq<Record>)

  datatype Context = Context(scene: nat, actor: nat, maxActions: nat, enemy: Option<nat>)

  // ---- transitions ----

  function Lowered(hp: nat, amount: nat): nat { if hp >= amount then hp - amount else 0 }

  function Raised(hp: nat, amount: nat, max: nat): nat { if hp + amount <= max then hp + amount else max }

  // The validators of DamageApplied, HealingApplied and ItemConsumed
  predicate ValidChange(c: Change) {
    match c
    case Damage(_, amount, before, after) => after == Lowered(before, amount)
    case Heal(_, amount, before, after, max) => before <= max && max > 0 && after == Raised(before, amount, max)
    case Consume(_, _, before, after) => before > 0 && after == before - 1
  }

  function ChangesOf(records: seq<Record>): seq<Change> {
    if records == [] then []
    else (if records[0].result.Applied? then records[0].result.changes else []) + ChangesOf(records[1..])
  }

  // ---- net mutations ----

  datatype Key = HpKey(entity: nat) | StockKey(owner: nat, item: nat)

  // `max` is known for hit points once a healing has named it.
  datatype Mutation = Mutation(key: Key, before: nat, after: nat, max: Option<nat>)

  datatype Net = Net(changed: map<Key, Mutation>, order: seq<Key>)

  function KeyOf(c: Change): Key {
    match c
    case Damage(target, _, _, _) => HpKey(target)
    case Heal(target, _, _, _, _) => HpKey(target)
    case Consume(owner, item, _, _) => StockKey(owner, item)
  }

  function MaxOf(c: Change): Option<nat> {
    if c.Heal? then Some(c.max) else None
  }

  // One change continues the chain of its key, or the bundle is rejected.
  function Absorb(n: Net, c: Change): Option<Net> {
    var key := KeyOf(c);
    if key !in n.changed then Some(Net(n.changed[key := Mutation(key, c.before, c.after, MaxOf(c))], n.order + [key]))
    else
      var previous := n.changed[key];
      if previous.after != c.before || (previous.max.Some? && MaxOf(c).Some? && previous.max != MaxOf(c)) then None
      else Some(n.(changed := n.changed[key :=
          Mutation(key, previous.before, c.after, if previous.max.Some? then previous.max else MaxOf(c))]))
  }

  function AbsorbAll(n: Net, cs: seq<Change>): Option<Net>
    decreases |cs|
  {
    if cs == [] then Some(n)
    else
      match Absorb(n, cs[0])
      case None => None
      case Some(next) => AbsorbAll(next, cs[1..])
  }

  const NOTHING := Net(map[], [])

  // Keys in order of their first change, without those that end where they began
  function Mutations(changed: map<Key, Mutation>, order: seq<Key>): seq<Mutation>
    requires forall k :: k in order ==> k in changed
  {
    if order == [] then []
    else
      var kept := if changed[order[0]].before != changed[order[0]].after then [changed[order[0]]] else [];
      kept + Mutations(changed, order[1..])
  }

  ghost predicate Ordered(n: Net) {
    && (forall k :: k in n.changed <==> k in n.order)
    && (forall k :: k in n.changed ==> n.changed[k].key == k)
    && (forall i, j :: 0 <= i < j < |n.order| ==> n.order[i] != n.order[j])
  }

  lemma AbsorbOrdered(n: Net, c: Change)
    requires Ordered(n)
    ensures Absorb(n, c).Some? ==> Ordered(Absorb(n, c).value)
  {
    if KeyOf(c) !in n.changed {
      var more := n.order + [KeyOf(c)];
      assert forall k :: k in more <==> k in n.order || k == KeyOf(c);
    }
  }

  lemma {:induction false} AbsorbAllOrdered(n: Net, cs: seq<Change>)
    requires Ordered(n)
    ensures AbsorbAll(n, cs).Some? ==> Ordered(AbsorbAll(n, cs).value)
    decreases |cs|
  {
    if cs != [] {
      AbsorbOrdered(n, cs[0]);
      if Absorb(n, cs[0]).Some? { AbsorbAllOrdered(Absorb(n, cs[0]).value, cs[1..]); }
    }
  }

  // _canonical_mutations
  function NetMutations(cs: seq<Change>): Option<seq<Mutation>> {
    AbsorbAllOrdered(NOTHING, cs);
    match AbsorbAll(NOTHING, cs)
    case None => None
    case Some(n) => Some(Mutations(n.changed, n.order))
  }

  lemma {:induction false} AbsorbAllConcat(n: Net, a: seq<Change>, b: seq<Change>)
    ensures AbsorbAll(n, a + b) == match AbsorbAll(n, a) case None => None case Some(m) => AbsorbAll(m, b)
    decreases |a|
  {
    if a == [] {
      assert a + b == b;
    } else {
      assert (a + b)[0] == a[0] && (a + b)[1..] == a[1..] + b;
      if Absorb(n, a[0]).Some? { AbsorbAllConcat(Absorb(n, a[0]).value, a[1..], b); }
    }
  }

  // The inner loop of _canonical_mutations, over the changes of one result
  method AbsorbResult(n: Net, changes: seq<Change>) returns (r: Option<Net>)
    ensures r == AbsorbAll(n, changes)
  {
    var changed, order := n.changed, n.order;
    assert changes[0..] == changes;
    for k := 0 to |changes|
      invariant AbsorbAll(n, changes) == AbsorbAll(Net(changed, order), changes[k..])
    {
      assert changes[k..][1..] == changes[k + 1..];
      var c := changes[k];
      var key := KeyOf(c);
      if key in changed {
        var previous := changed[key];
        if previous.after != c.before { return None; }
        if previous.max.Some? && MaxOf(c).Some? && previous.max != MaxOf(c) { return None; }
        changed := changed[key :=
            Mutation(key, previous.before, c.after, if previous.max.Some? then previous.max else MaxOf(c))];
      } else {
        order := order + [key];
        changed := changed[key := Mutation(key, c.before, c.after, MaxOf(c))];
      }
    }
    r := Some(Net(changed, order));
  }

  // The last loop of _canonical_mutations
  method KeepChanged(changed: map<Key, Mutation>, order: seq<Key>) returns (mutations: seq<Mutation>)
    requires forall k :: k in order ==> k in changed
    ensures mutations == Mutations(changed, order)
  {
    mutations := [];
    assert order[0..] == order;
    for i := 0 to |order|
      invariant Mutations(changed, order) == mutations + Mutations(changed, order[i..])
    {
      assert order[i..][1..] == order[i + 1..];
      if changed[order[i]].before != changed[order[i]].after { mutations := mutations + [changed[order[i]]]; }
    }
  }

  lemma ChangesFrom(records: seq<Record>, i: nat)
    requires i < |records|
    ensures ChangesOf(records[i..]) ==
      (if records[i].result.Applied? then records[i].result.changes else []) + ChangesOf(records[i + 1..])
  {
    assert records[i..][1..] == records[i + 1..];
  }

  method CanonicalMutations(records: seq<Record>) returns (r: Option<seq<Mutation>>)
    ensures r == NetMutations(ChangesOf(records))
  {
    AbsorbAllOrdered(NOTHING, ChangesOf(records));
    var n := NOTHING;
    assert records[0..] == records;
    for i := 0 to |records|
      invariant AbsorbAll(NOTHING, ChangesOf(records)) == AbsorbAll(n, ChangesOf(records[i..]))
    {
      ChangesFrom(records, i);
      var changes := if records[i].result.Applied? then records[i].result.changes else [];
      AbsorbAllConcat(n, changes, ChangesOf(records[i + 1..]));
      var next := AbsorbResult(n, changes);
      if next.None? { return None; }
      n := next.value;
    }
    var mutations := KeepChanged(n.changed, n.order);
    r := Some(mutations);
  }

  // ---- the enemy reaction ----

  predicate ValidDice(d: Dice) {
    1 <= d.count <= 20 && 2 <= d.sides <= 100 && -100 <= d.modifier <= 100
  }

  function Sum(rolls: seq<nat>): nat {
    if rolls == [] then 0 else rolls[0] + Sum(rolls[1..])
  }

  // _validate_reaction_die
  predicate RollOf(roll: DiceResult, d: Dice) {
    && ValidDice(d) && roll.dice == d && |roll.rolls| == d.count
    && (forall i :: 0 <= i < |roll.rolls| ==> 1 <= roll.rolls[i] <= d.sides)
    && roll.total == Sum(roll.rolls) + d.modifier
  }

  function DrawsOf(records: seq<Record>): nat {
    if records == [] then 0
    else
      var own := if records[0].result.Applied? then |records[0].result.dice| else 0;
      own + DrawsOf(records[1..])
  }

  function AtLeast0(i: int): nat { if i >= 0 then i else 0 }

  predicate AnyApplied(records: seq<Record>) {
    exists i :: 0 <= i < |records| && records[i].result.Applied?
  }

  // _validate_enemy_reactions
  predicate ReactionsValid(b: Bundle, turn: Context) {
    |b.reactions| <= 1 && (|b.reactions| == 1 ==> AnyApplied(b.actions) && ReactionValid(b, turn, b.reactions[0]))
  }

  predicate ReactionValid(b: Bundle, turn: Context, r: Record) {
    && r.command.Attack? && r.result.Applied?
    && turn.enemy == Some(r.command.actor) && r.command.actor != turn.actor && r.command.target == turn.actor
    && r.command.campaign == b.campaign && r.command.turn == b.turn && r.command.ordinal == 1
    && (forall i :: 0 <= i < |b.actions| ==> b.actions[i].command.id != r.command.id)
    && |r.rng| == |r.result.dice| && (forall i :: 0 <= i < |r.rng| ==> r.rng[i] == DrawsOf(b.actions) + i)
    && !r.result.outcome.Neutral?
    && |r.result.dice| == (if r.result.outcome.Success? then 2 else 1)
    && |r.result.changes| == (if r.result.outcome.Success? then 1 else 0)
    && RollOf(r.result.dice[0], Dice(1, 20, r.command.bonus))
    && (r.result.outcome.Success? ==>
          && RollOf(r.result.dice[1], r.command.dice) && r.result.changes[0].Damage?
            && r.result.changes[0].target == turn.actor
          && r.result.changes[0].amount == AtLeast0(r.result.dice[1].total + r.command.damageBonus)
          && r.result.changes[0].after == Lowered(r.result.changes[0].before, r.result.changes[0].amount))
  }

  // ---- events ----

  datatype EventKind = DiceRolled | Changed(change: Change) | ActionResolved | EnemyReacted | ScenarioProgressed

  datatype Event = Event(kind: EventKind, action: Option<nat>, sequence: nat, version: nat)

  function KindsOf(r: ActionResult): seq<EventKind> {
    if r.Applied? then
      seq(|r.dice|, i => DiceRolled) + seq(|r.changes|, i requires 0 <= i < |r.changes| => Changed(r.changes[i])) +
        [ActionResolved]
    else [ActionResolved]
  }

  function Number(kinds: seq<EventKind>, action: Option<nat>, first: nat, version: nat): (r: seq<Event>)
    ensures |r| == |kinds|
  {
    seq(|kinds|, i requires 0 <= i < |kinds| => Event(kinds[i], action, first + i, version))
  }

  predicate RngMatches(r: Record) {
    |r.rng| == if r.result.Applied? then |r.result.dice| else 0
  }

  function ActionEvents(actions: seq<Record>, first: nat, version: nat): Option<seq<Event>> {
    if actions == [] then Some([])
    else if !RngMatches(actions[0]) then None
    else
      var own := Number(KindsOf(actions[0].result), Some(actions[0].command.id), first, version);
      match ActionEvents(actions[1..], first + |own|, version)
      case None => None
      case Some(rest) => Some(own + rest)
  }

  // _events
  function Events(b: Bundle, first: nat, version: nat): Option<seq<Event>> {
    match ActionEvents(b.actions, first, version)
    case None => None
    case Some(events) =>
      var reacted := Number(seq(|b.reactions|, i => EnemyReacted), None, first + |events|, version);
      var progressed := if b.update.Some? then
        [Event(ScenarioProgressed, None, first + |events| + |reacted|, version)] else [];
      Some(events + reacted + progressed)
  }

  function Prepended(events: seq<Event>, more: Option<seq<Event>>): Option<seq<Event>> {
    if more.None? then None else Some(events + more.value)
  }

  lemma PrependedTwice(a: seq<Event>, b: seq<Event>, more: Option<seq<Event>>)
    ensures Prepended(a, Prepended(b, more)) == Prepended(a + b, more)
    ensures Prepended([], more) == more
  {
    if more.Some? { assert a + (b + more.value) == a + b + more.value && [] + more.value == more.value; }
  }

  // The loop over one action's dice, state changes and result
  method AppendKinds(events: seq<Event>, kinds: seq<EventKind>, action: Option<nat>, version: nat, first: nat)
    returns (r: seq<Event>)
    ensures r == events + Number(kinds, action, first + |events|, version)
  {
    r := events;
    for k := 0 to |kinds|
      invariant r == events + Number(kinds, action, first + |events|, version)[..k]
    {
      r := r + [Event(kinds[k], action, first + |r|, version)];
    }
  }

  method AssignEvents(b: Bundle, first: nat, version: nat) returns (r: Option<seq<Event>>)
    ensures r == Events(b, first, version)
  {
    var events: seq<Event> := [];
    PrependedTwice([], [], ActionEvents(b.actions, first, version));
    assert b.actions[0..] == b.actions;
    for i := 0 to |b.actions|
      invariant ActionEvents(b.actions, first, version) ==
        Prepended(events, ActionEvents(b.actions[i..], first + |events|, version))
    {
      assert b.actions[i..][1..] == b.actions[i + 1..];
      var a := b.actions[i];
      if |a.rng| != (if a.result.Applied? then |a.result.dice| else 0) { return None; }
      var own := Number(KindsOf(a.result), Some(a.command.id), first + |events|, version);
      PrependedTwice(events, own, ActionEvents(b.actions[i + 1..], first + |events| + |own|, version));
      events := AppendKinds(events, KindsOf(a.result), Some(a.command.id), version, first);
    }
    assert b.actions[|b.actions|..] == [] && events + [] == events;
    assert ActionEvents(b.actions, first, version) == Some(events);
    var reacted := AppendKinds(events, seq(|b.reactions|, i => EnemyReacted), None, version, first);
    events := reacted;
    assert reacted + [] == reacted;
    if b.update.Some? { events := events + [Event(ScenarioProgressed, None, first + |events|, version)]; }
    r := Some(events);
  }

  // ---- the projection ----

  datatype Projection = Projection(mutations: seq<Mutation>, events: seq<Event>, version: nat)

  function ResolvedOf(records: seq<Record>): seq<Resolved> {
    seq(|records|, i requires 0 <= i < |records| => Resolved(records[i].command.id, records[i].command.ordinal,
        records[i].result))
  }

  predicate ActionsValid(b: Bundle, turn: Context) {
    && b.scene == turn.scene && 1 <= |b.actions| <= turn.maxActions
    && (forall i :: 0 <= i < |b.actions| ==> b.actions[i].command.ordinal == i + 1)
    && (forall i, j :: 0 <= i < j < |b.actions| ==> b.actions[i].command.id != b.actions[j].command.id)
    && (forall i :: 0 <= i < |b.actions| ==>
          b.actions[i].command.campaign == b.campaign && b.actions[i].command.turn == b.turn
            && b.actions[i].command.actor == turn.actor)
  }

  function ResolvedReactionsOf(records: seq<Record>): seq<ResolvedReaction>
    requires forall i :: 0 <= i < |records| ==> records[i].command.Attack?
  {
    seq(|records|, i requires 0 <= i < |records| =>
      ResolvedReaction(records[i].command.id, records[i].command.actor, records[i].command.target, records[i].result))
  }

  function VersionOf(b: Bundle, mutations: seq<Mutation>): nat {
    b.base + (if mutations != [] || b.update.Some? then 1 else 0)
  }

  // project_resolution; nothing when the bundle is invalid
  function Project(b: Bundle, turn: Context, first: nat): Option<Projection> {
    if !ActionsValid(b, turn) || !ReactionsValid(b, turn) then None
    else
      match NetMutations(ChangesOf(b.actions + b.reactions))
      case None => None
      case Some(mutations) =>
        var version := VersionOf(b, mutations);
        if b.narration != Narration(version, turn.maxActions, ResolvedOf(b.actions),
            ResolvedReactionsOf(b.reactions)) then
          None
        else
          match Events(b, first, version)
          case None => None
          case Some(events) => Some(Projection(mutations, events, version))
  }
}
