/** Every bundle the worker assembles is accepted by the projection, with the version it predicted. */
module AssemblyLaws {
  import opened Outcomes
  import opened Resolution
  import opened Mechanics
  import opened ResolutionLaws
  import Progressor

  // ---- the working state as a canonical store ----

  function CanonOf(w: Working): Canon {
    (map id | id in w.characters :: HpKey(id) := Cell(w.characters[id].hp, w.characters[id].max)) +
    (map p | p in w.stock :: StockKey(p.0, p.1) := Cell(w.stock[p], 0))
  }

  lemma CanonAt(w: Working)
    ensures forall id :: HpKey(id) in CanonOf(w) <==> id in w.characters
    ensures forall id :: id in w.characters ==> CanonOf(w)[HpKey(id)] == Cell(w.characters[id].hp, w.characters[id].max)
    ensures forall o: nat, i: nat :: StockKey(o, i) in CanonOf(w) <==> (o, i) in w.stock
    ensures forall o: nat, i: nat :: (o, i) in w.stock ==> CanonOf(w)[StockKey(o, i)] == Cell(w.stock[(o, i)], 0)
  {
    forall o: nat, i: nat ensures StockKey(o, i) in CanonOf(w) <==> (o, i) in w.stock {
      if (o, i) in w.stock { var p := (o, i); assert p in w.stock && StockKey(p.0, p.1) in CanonOf(w); }
    }
  }

  // A healing names the maximum of the character it heals.
  ghost predicate HealsMatch(w: Working, cs: seq<Change>) {
    forall i :: 0 <= i < |cs| && cs[i].Heal? ==>
      cs[i].target in w.characters && cs[i].max == w.characters[cs[i].target].max
  }

  lemma CanonSetHp(w: Working, next: Working, target: nat, hp: nat)
    requires target in w.characters && next == w.(characters := w.characters[target := w.characters[target].(hp := hp)])
    ensures CanonOf(next) == CanonOf(w)[HpKey(target) := Cell(hp, w.characters[target].max)]
  {
    CanonAt(w);
    CanonAt(next);
    SameCanon(CanonOf(w)[HpKey(target) := Cell(hp, w.characters[target].max)], CanonOf(next));
  }

  lemma SetHpIsDo(w: Working, c: Change, target: nat)
    requires !c.Consume? && KeyOf(c) == HpKey(target) && SetHp(w, target, c.before, c.after).Some?
    requires c.Heal? ==> target in w.characters && c.max == w.characters[target].max
    ensures Do(CanonOf(w), c) == Some(CanonOf(SetHp(w, target, c.before, c.after).value))
  {
    CanonAt(w);
    CanonSetHp(w, SetHp(w, target, c.before, c.after).value, target, c.after);
  }

  lemma CanonSetStock(w: Working, next: Working, p: (nat, nat), quantity: nat)
    requires p in w.stock && next == w.(stock := w.stock[p := quantity])
    ensures CanonOf(next) == CanonOf(w)[StockKey(p.0, p.1) := Cell(quantity, 0)]
  {
    CanonAt(w);
    CanonAt(next);
    SameCanon(CanonOf(w)[StockKey(p.0, p.1) := Cell(quantity, 0)], CanonOf(next));
  }

  lemma ConsumeIsDo(w: Working, c: Change)
    requires c.Consume? && Follow(w, c).Some?
    ensures Do(CanonOf(w), c) == Some(CanonOf(Follow(w, c).value))
  {
    CanonAt(w);
    CanonSetStock(w, Follow(w, c).value, (c.owner, c.item), c.after);
  }

  lemma SameCanon(a: Canon, b: Canon)
    requires forall id: nat :: (HpKey(id) in a <==> HpKey(id) in b) && (HpKey(id) in a ==> a[HpKey(id)] == b[HpKey(id)])
    requires forall o: nat, i: nat ::
      (StockKey(o, i) in a <==> StockKey(o, i) in b) && (StockKey(o, i) in a ==> a[StockKey(o, i)] == b[StockKey(o, i)])
    ensures a == b
  {
    forall k ensures (k in a <==> k in b) && (k in a ==> a[k] == b[k]) {
      match k
      case HpKey(id) =>
      case StockKey(o, i) =>
    }
  }

  lemma FollowIsDo(w: Working, c: Change)
    requires Follow(w, c).Some? && (c.Heal? ==> c.target in w.characters && c.max == w.characters[c.target].max)
    ensures Do(CanonOf(w), c) == Some(CanonOf(Follow(w, c).value))
  {
    match c
    case Consume(_, _, _, _) => ConsumeIsDo(w, c);
    case Damage(target, _, _, _) => SetHpIsDo(w, c, target);
    case Heal(target, _, _, _, _) => SetHpIsDo(w, c, target);
  }

  lemma {:induction false} FollowAllIsDoAll(w: Working, cs: seq<Change>)
    requires FollowAll(w, cs).Some? && HealsMatch(w, cs)
    ensures DoAll(CanonOf(w), cs) == Some(CanonOf(FollowAll(w, cs).value))
    decreases |cs|
  {
    if cs != [] {
      var next := Follow(w, cs[0]).value;
      FollowIsDo(w, cs[0]);
      assert HealsMatch(next, cs[1..]) by {
        forall i | 0 <= i < |cs[1..]| && cs[1..][i].Heal?
          ensures cs[1..][i].target in next.characters && cs[1..][i].max == next.characters[cs[1..][i].target].max
        {
          assert cs[1..][i] == cs[i + 1];
        }
      }
      FollowAllIsDoAll(next, cs[1..]);
    }
  }

  // ---- what the rules produce ----

  lemma RollIsValid(d: Dice, tape: Tape, at: nat)
    ensures Roll(d, tape, at).Some? ==> RollOf(Roll(d, tape, at).value, d)
  {
  }

  // Changes that are valid, pair healing with consumption and heal up to the character's maximum.
  ghost predicate Fair(w: Working, cs: seq<Change>) {
    (forall i :: 0 <= i < |cs| ==> ValidChange(cs[i])) && Paired(cs) && HealsMatch(w, cs)
  }

  lemma AttackIsFair(w: Working, c: Command, actor: Character, target: Character, tape: Tape, at: nat)
    requires c.Attack? && ResolveAttack(c, actor, target, tape, at).Some?
    ensures Fair(w, ChangesIn(ResolveAttack(c, actor, target, tape, at).value))
  {
  }

  lemma ItemIsFair(w: Working, c: Command, quantity: nat, tape: Tape, at: nat)
    requires c.UseItem? && c.actor in w.characters && w.characters[c.actor].hp < w.characters[c.actor].max
    requires ResolveItem(c, w.characters[c.actor], quantity, tape, at).Some?
    ensures Fair(w, ChangesIn(ResolveItem(c, w.characters[c.actor], quantity, tape, at).value))
  {
    var cs := ChangesIn(ResolveItem(c, w.characters[c.actor], quantity, tape, at).value);
    assert cs[1].Consume?;
  }

  lemma IntentIsFair(s: Snapshot, w: Working, intent: Intent, ordinal: nat, id: nat, tape: Tape)
    requires Tracks(s, w) && s.actor in s.characters && IntentReady(s, intent)
    ensures var r := ResolveIntent(s, w, intent, CommandOf(s, w, intent, ordinal, id), tape);
      r.Some? ==> Fair(w, ChangesIn(r.value))
  {
    var c := CommandOf(s, w, intent, ordinal, id);
    match intent
    case AttackIntent(target, _) =>
      if w.characters[target].hp != 0
        && ResolveAttack(c, w.characters[s.actor], w.characters[target], tape, w.draws).Some? {
        AttackIsFair(w, c, w.characters[s.actor], w.characters[target], tape, w.draws);
      }
    case ItemIntent(item) =>
      if w.characters[s.actor].hp < w.characters[s.actor].max
        && ResolveItem(c, w.characters[s.actor], w.stock[(s.actor, item)], tape, w.draws).Some? {
        ItemIsFair(w, c, w.stock[(s.actor, item)], tape, w.draws);
      }
    case _ =>
  }

  // ---- one action ----

  // The record of an action belongs to the turn and indexes its dice from `first`.
  ghost predicate RecordOk(s: Snapshot, r: Record, ordinal: nat, id: nat, first: nat) {
    && r.command.id == id && r.command.ordinal == ordinal
    && r.command.campaign == s.campaign && r.command.turn == s.turn && r.command.actor == s.actor
    && (r.command.Attack? ==> r.command.target != s.actor) && RngMatches(r)
  }

  lemma {:induction false} StepIsOk(s: Snapshot, w: Working, intent: Intent, ordinal: nat, id: nat, tape: Tape)
    requires Tracks(s, w) && s.actor in s.characters && IntentReady(s, intent)
    ensures var r := Step(s, w, intent, ordinal, id, tape);
      r.Some? ==>
        && RecordOk(s, r.value.0, ordinal, id, w.dice) && Fair(w, ChangesIn(r.value.0.result))
        && FollowAll(w, ChangesIn(r.value.0.result)).Some?
        && r.value.1.characters == FollowAll(w, ChangesIn(r.value.0.result)).value.characters
        && r.value.1.stock == FollowAll(w, ChangesIn(r.value.0.result)).value.stock
  {
    IntentIsFair(s, w, intent, ordinal, id, tape);
  }

  // ---- all actions ----

  ghost predicate SameState(v: Working, w: Working) {
    v.characters == w.characters && v.stock == w.stock
  }

  lemma {:induction false} FollowSame(v: Working, w: Working, cs: seq<Change>)
    requires SameState(v, w) && FollowAll(w, cs).Some?
    ensures FollowAll(v, cs).Some? && SameState(FollowAll(v, cs).value, FollowAll(w, cs).value)
    decreases |cs|
  {
    if cs != [] { FollowSame(Follow(v, cs[0]).value, Follow(w, cs[0]).value, cs[1..]); }
  }

  lemma FairConcat(w: Working, v: Working, a: seq<Change>, b: seq<Change>)
    requires Fair(w, a) && Fair(v, b)
    requires forall id :: id in v.characters ==> id in w.characters && w.characters[id].max == v.characters[id].max
    ensures Fair(w, a + b)
  {
    var both := a + b;
    assert forall i :: |a| <= i < |both| ==> both[i] == b[i - |a|];
    assert forall i :: 0 <= i < |a| ==> both[i] == a[i];
    if i :| 0 <= i < |both| && both[i].Heal? {
      if i < |a| {
        var k :| 0 <= k < |a| && a[k].Consume?;
        assert both[k].Consume?;
      } else {
        assert b[i - |a|].Heal?;
        var k :| 0 <= k < |b| && b[k].Consume?;
        assert both[|a| + k].Consume?;
      }
    }
  }

  ghost predicate RecordsOk(s: Snapshot, records: seq<Record>, first: nat, ids: nat -> nat) {
    forall i :: 0 <= i < |records| ==> RecordOk(s, records[i], first + i + 1, ids(first + i), 0)
  }

  // The records of a plan: in order, with fair changes that lead from the working state to the last one.
  lemma {:induction false} PlanIsOk(s: Snapshot, w: Working, intents: seq<Intent>, i: nat, ids: nat -> nat, tape: Tape)
    requires Tracks(s, w) && Preflight(s, intents) && i <= |intents|
    ensures var r := ResolveFrom(s, w, intents, i, ids, tape);
      r.Some? ==>
        && |r.value.0| == |intents| - i && RecordsOk(s, r.value.0, i, ids)
        && Fair(w, ChangesOf(r.value.0)) && Tracks(s, r.value.1)
        && FollowAll(w, ChangesOf(r.value.0)).Some? && SameState(FollowAll(w, ChangesOf(r.value.0)).value, r.value.1)
    decreases |intents| - i
  {
    var r := ResolveFrom(s, w, intents, i, ids, tape);
    if i < |intents| && r.Some? {
      StepTracks(s, w, intents[i], i + 1, ids(i), tape);
      StepIsOk(s, w, intents[i], i + 1, ids(i), tape);
      var (record, next) := Step(s, w, intents[i], i + 1, ids(i), tape).value;
      PlanIsOk(s, next, intents, i + 1, ids, tape);
      var rest := ResolveFrom(s, next, intents, i + 1, ids, tape).value.0;
      PlanJoins(s, w, next, record, rest);
      assert r.value.0 == [record] + rest;
      RecordsJoin(s, record, rest, i, ids);
    }
  }

  lemma RecordsJoin(s: Snapshot, record: Record, rest: seq<Record>, i: nat, ids: nat -> nat)
    requires RecordOk(s, record, i + 1, ids(i), 0) && RecordsOk(s, rest, i + 1, ids)
    ensures RecordsOk(s, [record] + rest, i, ids)
  {
    var all := [record] + rest;
    forall k | 0 <= k < |all| ensures RecordOk(s, all[k], i + k + 1, ids(i + k), 0) {
      if k > 0 { assert RecordOk(s, rest[k - 1], i + 1 + (k - 1) + 1, ids(i + 1 + (k - 1)), 0); }
    }
  }

  lemma {:induction false} PlanJoins(s: Snapshot, w: Working, next: Working, record: Record, rest: seq<Record>)
    requires Tracks(s, w) && Tracks(s, next)
    requires Fair(w, ChangesIn(record.result)) && Fair(next, ChangesOf(rest))
    requires FollowAll(w, ChangesIn(record.result)).Some?
      && SameState(next, FollowAll(w, ChangesIn(record.result)).value)
    requires FollowAll(next, ChangesOf(rest)).Some?
    ensures Fair(w, ChangesOf([record] + rest)) && FollowAll(w, ChangesOf([record] + rest)).Some?
    ensures SameState(FollowAll(w, ChangesOf([record] + rest)).value, FollowAll(next, ChangesOf(rest)).value)
  {
    assert ([record] + rest)[1..] == rest;
    assert ChangesOf([record] + rest) == ChangesIn(record.result) + ChangesOf(rest);
    FairConcat(w, next, ChangesIn(record.result), ChangesOf(rest));
    FollowAllConcat(w, ChangesIn(record.result), ChangesOf(rest));
    FollowSame(FollowAll(w, ChangesIn(record.result)).value, next, ChangesOf(rest));
  }

  // ---- the reaction ----

  // The reaction's own bookkeeping of hit points never breaks off and ends where the actions did.
  lemma {:induction false} HpFollows(v: Working, w: Working, cs: seq<Change>)
    requires v.characters == w.characters && FollowAll(w, cs).Some?
    ensures FollowAll(v, HpChanges(cs)).Some?
      && FollowAll(v, HpChanges(cs)).value.characters == FollowAll(w, cs).value.characters
    decreases |cs|
  {
    if cs != [] {
      var next := Follow(w, cs[0]).value;
      if cs[0].Consume? {
        HpFollows(v, next, cs[1..]);
        assert HpChanges(cs) == [] + HpChanges(cs[1..]) == HpChanges(cs[1..]);
      } else {
        HpFollows(Follow(v, cs[0]).value, next, cs[1..]);
        assert HpChanges(cs) == [cs[0]] + HpChanges(cs[1..]);
        assert HpChanges(cs)[1..] == HpChanges(cs[1..]);
      }
    }
  }

  lemma {:induction false} IndicesCountDraws(records: seq<Record>)
    requires forall i :: 0 <= i < |records| ==> RngMatches(records[i])
    ensures IndexCount(records) == DrawsOf(records)
  {
    if records != [] { IndicesCountDraws(records[1..]); }
  }

  // The attack of an enemy other than the actor passes the check of reactions.
  lemma {:induction false} ReactionPasses(s: Snapshot, records: seq<Record>, c: Command, actor: Character,
          target: Character, tape: Tape, at: nat, b: Bundle)
    requires c.Attack? && ResolveAttack(c, actor, target, tape, at).Some?
    requires forall i :: 0 <= i < |records| ==> RngMatches(records[i]) && records[i].command.id != c.id
    requires b.actions == records && b.campaign == c.campaign == s.campaign && b.turn == c.turn == s.turn
      && c.ordinal == 1 && c.target == s.actor
    requires ContextOf(s).enemy == Some(c.actor) && c.actor != s.actor
    ensures var result := ResolveAttack(c, actor, target, tape, at).value;
      ReactionValid(b, ContextOf(s), Record(c, result, Indices(IndexCount(records), |DiceOf(result)|)))
  {
    IndicesCountDraws(records);
    RollIsValid(Dice(1, 20, c.bonus), tape, at);
    RollIsValid(c.dice, tape, at + 1);
  }

  // ---- events ----

  lemma {:induction false} EventsExist(actions: seq<Record>, first: nat, version: nat)
    requires forall i :: 0 <= i < |actions| ==> RngMatches(actions[i])
    ensures ActionEvents(actions, first, version).Some?
  {
    if actions != [] {
      var own := Number(KindsOf(actions[0].result), Some(actions[0].command.id), first, version);
      EventsExist(actions[1..], first + |own|, version);
    }
  }

  // Events are numbered without gaps from the first sequence and carry the committed version.
  ghost predicate Numbered(events: seq<Event>, first: nat, version: nat) {
    forall i :: 0 <= i < |events| ==> events[i].sequence == first + i && events[i].version == version
  }

  lemma {:induction false} ActionEventsNumbered(actions: seq<Record>, first: nat, version: nat)
    ensures ActionEvents(actions, first, version).Some? ==>
      Numbered(ActionEvents(actions, first, version).value, first, version)
  {
    if actions != [] && ActionEvents(actions, first, version).Some? {
      var own := Number(KindsOf(actions[0].result), Some(actions[0].command.id), first, version);
      ActionEventsNumbered(actions[1..], first + |own|, version);
    }
  }

  lemma EventsAreNumbered(b: Bundle, first: nat, version: nat)
    ensures Events(b, first, version).Some? ==> Numbered(Events(b, first, version).value, first, version)
  {
    ActionEventsNumbered(b.actions, first, version);
  }

  function ToldBy(events: seq<Event>): seq<Change> {
    if events == [] then []
    else (if events[0].kind.Changed? then [events[0].kind.change] else []) + ToldBy(events[1..])
  }

  lemma {:induction false} ToldConcat(a: seq<Event>, b: seq<Event>)
    ensures ToldBy(a + b) == ToldBy(a) + ToldBy(b)
  {
    if a == [] {
      assert a + b == b;
    } else {
      assert (a + b)[0] == a[0] && (a + b)[1..] == a[1..] + b;
      ToldConcat(a[1..], b);
    }
  }

  lemma {:induction false} ToldByKinds(kinds: seq<EventKind>, changes: seq<Change>, action: Option<nat>, first: nat,
          version: nat)
    requires |kinds| == |changes| && forall i :: 0 <= i < |changes| ==> kinds[i] == Changed(changes[i])
    ensures ToldBy(Number(kinds, action, first, version)) == changes
  {
    if kinds != [] {
      assert Number(kinds, action, first, version)[1..] == Number(kinds[1..], action, first + 1, version);
      ToldByKinds(kinds[1..], changes[1..], action, first + 1, version);
    }
  }

  lemma {:induction false} ToldByOthers(events: seq<Event>)
    requires forall i :: 0 <= i < |events| ==> !events[i].kind.Changed?
    ensures ToldBy(events) == []
  {
    if events != [] { ToldByOthers(events[1..]); }
  }

  lemma NumberConcat(a: seq<EventKind>, b: seq<EventKind>, action: Option<nat>, first: nat, version: nat)
    ensures Number(a + b, action, first, version) ==
      Number(a, action, first, version) + Number(b, action, first + |a|, version)
  {
  }

  lemma ToldByResult(r: ActionResult, action: Option<nat>, first: nat, version: nat)
    ensures ToldBy(Number(KindsOf(r), action, first, version)) == ChangesIn(r)
  {
    if r.Applied? {
      var rolled: seq<EventKind> := seq(|r.dice|, i => DiceRolled);
      var changed := seq(|r.changes|, i requires 0 <= i < |r.changes| => Changed(r.changes[i]));
      NumberConcat(rolled + changed, [ActionResolved], action, first, version);
      NumberConcat(rolled, changed, action, first, version);
      var a, b, c := Number(rolled, action, first, version), Number(changed, action, first + |rolled|, version),
        Number([ActionResolved], action, first + |rolled + changed|, version);
      ToldConcat(a + b, c);
      ToldConcat(a, b);
      ToldByOthers(a);
      ToldByOthers(c);
      ToldByKinds(changed, r.changes, action, first + |rolled|, version);
    } else {
      ToldByOthers(Number(KindsOf(r), action, first, version));
    }
  }

  lemma {:induction false} ActionEventsTell(actions: seq<Record>, first: nat, version: nat)
    requires ActionEvents(actions, first, version).Some?
    ensures ToldBy(ActionEvents(actions, first, version).value) == ChangesOf(actions)
  {
    if actions != [] {
      var own := Number(KindsOf(actions[0].result), Some(actions[0].command.id), first, version);
      ActionEventsTell(actions[1..], first + |own|, version);
      ToldByResult(actions[0].result, Some(actions[0].command.id), first, version);
      ToldConcat(own, ActionEvents(actions[1..], first + |own|, version).value);
    }
  }

  // The events tell exactly the state changes of the player's actions, in their order.
  lemma EventsTellChanges(b: Bundle, first: nat, version: nat)
    requires Events(b, first, version).Some?
    ensures ToldBy(Events(b, first, version).value) == ChangesOf(b.actions)
  {
    ActionEventsTell(b.actions, first, version);
    var told := ActionEvents(b.actions, first, version).value;
    var reacted := Number(seq(|b.reactions|, i => EnemyReacted), None, first + |told|, version);
    ToldConcat(told, reacted);
    ToldByOthers(reacted);
    var progressed := if b.update.Some? then [Event(ScenarioProgressed, None, first + |told| + |reacted|, version)]
      else [];
    ToldConcat(told + reacted, progressed);
    ToldByOthers(progressed);
    assert Events(b, first, version).value == told + reacted + progressed;
    assert ChangesOf(b.actions) + [] + [] == ChangesOf(b.actions);
  }

  // ---- the actor is never hit by its own actions ----

  ghost predicate Harmless(s: Snapshot, cs: seq<Change>) {
    forall i :: 0 <= i < |cs| && cs[i].Damage? ==> cs[i].target != s.actor
  }

  lemma {:induction false} AliveAfter(store: Canon, cs: seq<Change>, s: Snapshot)
    requires HpKey(s.actor) in store && store[HpKey(s.actor)].value > 0 && DoAll(store, cs).Some? && Harmless(s, cs)
    requires forall i :: 0 <= i < |cs| ==> ValidChange(cs[i])
    ensures HpKey(s.actor) in DoAll(store, cs).value && DoAll(store, cs).value[HpKey(s.actor)].value > 0
    decreases |cs|
  {
    if cs != [] {
      assert ValidChange(cs[0]) && (cs[0].Damage? ==> cs[0].target != s.actor);
      AliveAfter(Do(store, cs[0]).value, cs[1..], s);
    }
  }

  lemma {:induction false} PlanIsHarmless(s: Snapshot, w: Working, intents: seq<Intent>, i: nat, ids: nat -> nat,
          tape: Tape)
    requires Tracks(s, w) && Preflight(s, intents) && i <= |intents|
    ensures ResolveFrom(s, w, intents, i, ids, tape).Some? ==>
      Harmless(s, ChangesOf(ResolveFrom(s, w, intents, i, ids, tape).value.0))
    decreases |intents| - i
  {
    if i < |intents| && ResolveFrom(s, w, intents, i, ids, tape).Some? {
      StepTracks(s, w, intents[i], i + 1, ids(i), tape);
      var (record, next) := Step(s, w, intents[i], i + 1, ids(i), tape).value;
      PlanIsHarmless(s, next, intents, i + 1, ids, tape);
      var rest := ResolveFrom(s, next, intents, i + 1, ids, tape).value.0;
      StepIsHarmless(s, w, intents[i], i + 1, ids(i), tape);
      assert ([record] + rest)[1..] == rest;
      assert ChangesOf([record] + rest) == ChangesIn(record.result) + ChangesOf(rest);
    }
  }

  lemma StepIsHarmless(s: Snapshot, w: Working, intent: Intent, ordinal: nat, id: nat, tape: Tape)
    requires Tracks(s, w) && s.actor in s.characters && IntentReady(s, intent)
    ensures Step(s, w, intent, ordinal, id, tape).Some? ==>
      Harmless(s, ChangesIn(Step(s, w, intent, ordinal, id, tape).value.0.result))
  {
  }

  // ---- producer and checker agree ----

  // Identifiers are never repeated.
  ghost predicate Injective(ids: nat -> nat) {
    forall i, j :: ids(i) == ids(j) ==> i == j
  }

  // What resolve_enemy_reaction adds to fair records
  ghost predicate ReactionOk(s: Snapshot, records: seq<Record>, combat: CombatResolution) {
    && |combat.reactions| <= 1
    && (forall i :: 0 <= i < |combat.reactions| ==> combat.reactions[i].command.Attack?)
    && Fair(Start(s), ChangesOf(records) + ChangesOf(combat.reactions))
    && FollowAll(Start(s), ChangesOf(records) + ChangesOf(combat.reactions)).Some?
  }

  lemma {:induction false} NoReactionOk(s: Snapshot, records: seq<Record>, update: Option<Progressor.Update>)
    requires Fair(Start(s), ChangesOf(records)) && FollowAll(Start(s), ChangesOf(records)).Some?
    ensures ReactionOk(s, records, CombatResolution([], update))
  {
    assert ChangesOf(records) + [] == ChangesOf(records);
  }

  lemma {:induction false} FollowOne(w: Working, c: Change)
    ensures FollowAll(w, [c]) == Follow(w, c)
  {
    assert [c][1..] == [];
  }

  lemma {:induction false} AttackReactionOk(s: Snapshot, records: seq<Record>, w: Working, r: Record,
          update: Option<Progressor.Update>)
    requires Fair(Start(s), ChangesOf(records)) && FollowAll(Start(s), ChangesOf(records)) == Some(w) && Tracks(s, w)
    requires r.command.Attack? && r.command.target == s.actor && s.actor in w.characters
    requires Fair(w, ChangesIn(r.result)) && r.result.Applied?
    requires r.result.changes == []
      || exists amount: nat, after: nat ::
        r.result.changes == [Damage(s.actor, amount, w.characters[s.actor].hp, after)]
    ensures ReactionOk(s, records, CombatResolution([r], update))
  {
    assert [r][1..] == [];
    assert ChangesOf([r]) == ChangesIn(r.result) + [] == ChangesIn(r.result);
    FairConcat(Start(s), w, ChangesOf(records), ChangesIn(r.result));
    FollowAllConcat(Start(s), ChangesOf(records), ChangesIn(r.result));
    if amount: nat, after: nat :| r.result.changes == [Damage(s.actor, amount, w.characters[s.actor].hp, after)] {
      FollowOne(w, Damage(s.actor, amount, w.characters[s.actor].hp, after));
    }
  }

  lemma {:induction false} ReactionIsOk(s: Snapshot, records: seq<Record>, update: Option<Progressor.Update>, id: nat,
          tape: Tape, at: nat)
    requires Fair(Start(s), ChangesOf(records)) && FollowAll(Start(s), ChangesOf(records)).Some?
      && s.actor in s.characters
    ensures var r := EnemyReaction(s, records, update, id, tape, at);
      r.Some? ==> ReactionOk(s, records, r.value)
  {
    var w := FollowAll(Start(s), ChangesOf(records)).value;
    FollowAllTracks(s, Start(s), ChangesOf(records));
    NoReactionOk(s, records, update);
    HpFollows(Start(s), Start(s), ChangesOf(records));
    var r := EnemyReaction(s, records, update, id, tape, at);
    if r.Some? && r.value.reactions != [] {
      var enemy := EnemyOf(s).value;
      var c := r.value.reactions[0].command;
      AttackIsFair(w, c, w.characters[enemy], w.characters[s.actor], tape, at);
      AttackReactionOk(s, records, w, r.value.reactions[0], r.value.update);
    }
  }

  // The records and the reaction behind an assembled bundle
  ghost predicate AssembledFrom(s: Snapshot, b: Bundle, records: seq<Record>, combat: CombatResolution) {
    && (forall i :: 0 <= i < |combat.reactions| ==> combat.reactions[i].command.Attack?)
    && b == BundleOf(s, records, combat) && ReactionOk(s, records, combat)
    && (forall i :: 0 <= i < |records| ==> RngMatches(records[i]))
    && ActionsValid(b, ContextOf(s))
  }

  // The reaction either passes the check of reactions or comes from the actor itself.
  ghost predicate ReactionAccepted(s: Snapshot, b: Bundle) {
    b.reactions == [] || (b.reactions[0].command.Attack? && b.reactions[0].command.actor != s.actor)
  }

  lemma {:induction false} ChangesConcat(a: seq<Record>, b: seq<Record>)
    ensures ChangesOf(a + b) == ChangesOf(a) + ChangesOf(b)
  {
    if a == [] {
      assert a + b == b;
    } else {
      assert (a + b)[0] == a[0] && (a + b)[1..] == a[1..] + b;
      ChangesConcat(a[1..], b);
    }
  }

  // Hit points of the snapshot are within their maxima, as the character table requires.
  ghost predicate SoundSnapshot(s: Snapshot) {
    forall id :: id in s.characters ==> s.characters[id].hp <= s.characters[id].max
  }

  lemma StartIsBounded(s: Snapshot)
    requires SoundSnapshot(s)
    ensures Bounded(CanonOf(Start(s)))
  {
    CanonAt(Start(s));
    forall k | k in CanonOf(Start(s)) && k.HpKey? ensures CanonOf(Start(s))[k].value <= CanonOf(Start(s))[k].max {
      assert k == HpKey(k.entity);
    }
  }

  // The narration input of the bundle names the version the projection derives.
  lemma PredictsVersion(s: Snapshot, b: Bundle, records: seq<Record>, combat: CombatResolution)
    requires AssembledFrom(s, b, records, combat)
    ensures NetMutations(ChangesOf(b.actions + b.reactions)).Some?
    ensures b.narration.version == VersionOf(b, NetMutations(ChangesOf(b.actions + b.reactions)).value)
  {
    var cs := ChangesOf(records) + ChangesOf(combat.reactions);
    ChangesConcat(records, combat.reactions);
    FollowAllIsDoAll(Start(s), cs);
    AcceptedIsContinuous(cs);
    VersionTestsAgree(cs);
  }

  lemma AssembledIsAccepted(s: Snapshot, b: Bundle, records: seq<Record>, combat: CombatResolution, first: nat)
    requires AssembledFrom(s, b, records, combat) && ReactionsValid(b, ContextOf(s))
    ensures Project(b, ContextOf(s), first).Some?
      && Project(b, ContextOf(s), first).value.version == b.narration.version
  {
    PredictsVersion(s, b, records, combat);
    EventsExist(b.actions, first, b.narration.version);
  }

  lemma RecordsAreActions(s: Snapshot, records: seq<Record>, intents: seq<Intent>, ids: nat -> nat, b: Bundle)
    requires RecordsOk(s, records, 0, ids) && |records| == |intents| && 1 <= |intents| <= s.maxActions && Injective(ids)
    requires b.actions == records && b.scene == s.scene && b.campaign == s.campaign && b.turn == s.turn
    ensures ActionsValid(b, ContextOf(s))
    ensures forall i :: 0 <= i < |records| ==> RngMatches(records[i]) && records[i].command.id != ids(|intents|)
    ensures !Attacked(records, s.actor)
  {
    forall i | 0 <= i < |records|
      ensures records[i].command.Attack? ==> records[i].command.target != s.actor
      ensures RngMatches(records[i]) && records[i].command.id == ids(i) && records[i].command.ordinal == i + 1
      ensures records[i].command.campaign == b.campaign && records[i].command.turn == b.turn
        && records[i].command.actor == s.actor
    {
      assert RecordOk(s, records[i], 0 + i + 1, ids(0 + i), 0);
    }
  }

  lemma ReactionChecked(s: Snapshot, records: seq<Record>, update: Option<Progressor.Update>, id: nat, tape: Tape,
          at: nat, b: Bundle)
    requires EnemyReaction(s, records, update, id, tape, at).Some?
    requires forall i :: 0 <= i < |records| ==> RngMatches(records[i]) && records[i].command.id != id
    requires b.actions == records && b.campaign == s.campaign && b.turn == s.turn
    requires b.reactions == EnemyReaction(s, records, update, id, tape, at).value.reactions
    ensures ReactionsValid(b, ContextOf(s)) <==> ReactionAccepted(s, b)
  {
    if b.reactions != [] && ReactionAccepted(s, b) {
      var enemy := EnemyOf(s).value;
      var w := FollowAll(Start(s), HpChanges(ChangesOf(records))).value;
      ReactionPasses(s, records, b.reactions[0].command, w.characters[enemy], w.characters[s.actor], tape, at, b);
    }
  }

  // The case both sides judge differently: the configured enemy of a combat that has started is
  // the acting character, and the turn does not leave the scene.
  ghost predicate EnemyActs(s: Snapshot, update: Option<Progressor.Update>) {
    EnemyOf(s) == Some(s.actor) && s.combat.value.startedFlag in s.flags && !Leaves(update)
  }

  // The first action of a plan is always carried out.
  lemma {:induction false} FirstApplies(s: Snapshot, intents: seq<Intent>, ids: nat -> nat, tape: Tape)
    requires Preflight(s, intents) && ResolveFrom(s, Start(s), intents, 0, ids, tape).Some?
    ensures AnyApplied(ResolveFrom(s, Start(s), intents, 0, ids, tape).value.0)
  {
    StepTracks(s, Start(s), intents[0], 1, ids(0), tape);
    var records := ResolveFrom(s, Start(s), intents, 0, ids, tape).value.0;
    assert records[0] == Step(s, Start(s), intents[0], 1, ids(0), tape).value.0;
    assert records[0].result.Applied?;
  }

  // The actor is still standing when its actions are done.
  lemma {:induction false} ActorStands(s: Snapshot, cs: seq<Change>)
    requires s.actor in s.characters && s.characters[s.actor].hp > 0
    requires Fair(Start(s), cs) && FollowAll(Start(s), cs).Some? && Harmless(s, cs)
    ensures FollowAll(Start(s), HpChanges(cs)).Some?
    ensures var w := FollowAll(Start(s), HpChanges(cs)).value; s.actor in w.characters && w.characters[s.actor].hp > 0
  {
    CanonAt(Start(s));
    FollowAllIsDoAll(Start(s), cs);
    AliveAfter(CanonOf(Start(s)), cs, s);
    CanonAt(FollowAll(Start(s), cs).value);
    HpFollows(Start(s), Start(s), cs);
  }

  lemma {:induction false} ActorReacts(s: Snapshot, records: seq<Record>, update: Option<Progressor.Update>, id: nat,
          tape: Tape, at: nat)
    requires EnemyReaction(s, records, update, id, tape, at).Some? && AnyApplied(records) && !Attacked(records, s.actor)
    requires s.actor in s.characters && s.characters[s.actor].hp > 0
    requires Fair(Start(s), ChangesOf(records)) && FollowAll(Start(s), ChangesOf(records)).Some?
      && Harmless(s, ChangesOf(records))
    ensures var r := EnemyReaction(s, records, update, id, tape, at).value;
      EnemyActs(s, update) <==> r.reactions != [] && r.reactions[0].command.actor == s.actor
  {
    ActorStands(s, ChangesOf(records));
  }

  // For every plan, snapshot, scenario update and sequence of draws: the projection accepts the
  // assembled bundle, with the version it predicted, exactly unless the acting character is the
  // configured enemy of a combat under way.
  lemma ProducerAndCheckerAgree(s: Snapshot, intents: seq<Intent>, update: Option<Progressor.Update>, ids: nat -> nat,
          tape: Tape, first: nat)
    requires Preflight(s, intents) && Injective(ids) && Assemble(s, intents, update, ids, tape).Some?
    ensures var b := Assemble(s, intents, update, ids, tape).value;
      && (Project(b, ContextOf(s), first).Some? <==> !EnemyActs(s, update))
      && (Project(b, ContextOf(s), first).Some? ==>
            Project(b, ContextOf(s), first).value.version == b.narration.version)
  {
    var (records, w) := ResolveFrom(s, Start(s), intents, 0, ids, tape).value;
    var id := ids(|intents|);
    var b := Assemble(s, intents, update, ids, tape).value;
    PlanIsOk(s, Start(s), intents, 0, ids, tape);
    PlanIsHarmless(s, Start(s), intents, 0, ids, tape);
    FirstApplies(s, intents, ids, tape);
    RecordsAreActions(s, records, intents, ids, b);
    var combat := EnemyReaction(s, records, update, id, tape, w.draws).value;
    ReactionIsOk(s, records, update, id, tape, w.draws);
    ReactionChecked(s, records, update, id, tape, w.draws, b);
    ActorReacts(s, records, update, id, tape, w.draws);
    if ReactionsValid(b, ContextOf(s)) { AssembledIsAccepted(s, b, records, combat, first); }
  }

  // A character that is no npc, as the hero of every adventure is, never meets a rejection.
  lemma HeroIsAccepted(s: Snapshot, intents: seq<Intent>, update: Option<Progressor.Update>, ids: nat -> nat,
          tape: Tape, first: nat)
    requires Preflight(s, intents) && Injective(ids) && Assemble(s, intents, update, ids, tape).Some?
      && s.actor !in s.npcs
    ensures var b := Assemble(s, intents, update, ids, tape).value;
      Project(b, ContextOf(s), first).Some? && Project(b, ContextOf(s), first).value.version == b.narration.version
  {
    ProducerAndCheckerAgree(s, intents, update, ids, tape, first);
  }

  // An npc that its controller plays in its own combat
  const PLAYED_NPC := Snapshot(0, 0, 0, 7, 0, 1, map[7 := Character(5, 5, 10, 0)], map[], map[], {}, {7},
    Some(Combat(Some(7), "fight", "defeat", Dice(1, 6, 0), 0)), {"fight"})

  const IN_ORDER: nat -> nat := i => i

  const ALL_ONES: Tape := i => 0

  const LONE_RECORD := Record(StoryAction(0, 0, 0, 7, 1), Applied(Progressor.Neutral, [], []), [])

  lemma PlayedNpcActs()
    ensures Preflight(PLAYED_NPC, [StoryIntent])
    ensures ResolveFrom(PLAYED_NPC, Start(PLAYED_NPC), [StoryIntent], 0, IN_ORDER, ALL_ONES) ==
      Some(([LONE_RECORD], Start(PLAYED_NPC)))
  {
    var s := PLAYED_NPC;
    assert Indices(0, 0) == [];
    assert Step(s, Start(s), StoryIntent, 1, 0, ALL_ONES) == Some((LONE_RECORD, Start(s)));
    assert ResolveFrom(s, Start(s), [StoryIntent], 1, IN_ORDER, ALL_ONES) == Some(([], Start(s)));
    assert [LONE_RECORD] + [] == [LONE_RECORD];
  }

  lemma PlayedNpcReacts()
    ensures EnemyReaction(PLAYED_NPC, [LONE_RECORD], None, 1, ALL_ONES, 0).Some?
  {
    var s := PLAYED_NPC;
    assert ChangesOf([LONE_RECORD]) == [] && HpChanges([]) == [];
    assert [LONE_RECORD][0].result.Applied?;
    var c := Attack(1, 0, 0, 7, 1, 7, None, 0, Dice(1, 6, 0), 0);
    assert Sum([1]) == 1;
    assert ResolveAttack(c, s.characters[7], s.characters[7], ALL_ONES, 0).Some?;
  }

  // Its turn is assembled and then rejected.
  lemma PlayedNpcIsRejected(first: nat)
    ensures Preflight(PLAYED_NPC, [StoryIntent])
    ensures Assemble(PLAYED_NPC, [StoryIntent], None, IN_ORDER, ALL_ONES).Some?
    ensures Project(Assemble(PLAYED_NPC, [StoryIntent], None, IN_ORDER, ALL_ONES).value, ContextOf(PLAYED_NPC),
        first).None?
  {
    PlayedNpcActs();
    PlayedNpcReacts();
    assert Assemble(PLAYED_NPC, [StoryIntent], None, IN_ORDER, ALL_ONES).Some?;
    ProducerAndCheckerAgree(PLAYED_NPC, [StoryIntent], None, IN_ORDER, ALL_ONES, first);
  }

  // What is committed for an accepted bundle is what the actions and the reaction did one by one.
  lemma CommitEqualsPlay(s: Snapshot, intents: seq<Intent>, update: Option<Progressor.Update>, ids: nat -> nat,
          tape: Tape, first: nat)
    requires Preflight(s, intents) && Injective(ids) && SoundSnapshot(s)
      && Assemble(s, intents, update, ids, tape).Some?
    requires Project(Assemble(s, intents, update, ids, tape).value, ContextOf(s), first).Some?
    ensures var b := Assemble(s, intents, update, ids, tape).value;
      var p := Project(b, ContextOf(s), first).value;
      var store := CanonOf(Start(s));
      && CommitMutations(store, p.mutations).Some?
      && CommitMutations(store, p.mutations) == DoAll(store, ChangesOf(b.actions + b.reactions))
      && Bounded(CommitMutations(store, p.mutations).value)
      && Numbered(p.events, first, p.version)
  {
    var (records, w) := ResolveFrom(s, Start(s), intents, 0, ids, tape).value;
    var b := Assemble(s, intents, update, ids, tape).value;
    PlanIsOk(s, Start(s), intents, 0, ids, tape);
    ReactionIsOk(s, records, update, ids(|intents|), tape, w.draws);
    var cs := ChangesOf(records) + ChangesOf(b.reactions);
    ChangesConcat(records, b.reactions);
    FollowAllIsDoAll(Start(s), cs);
    StartIsBounded(s);
    NetRefinesChanges(CanonOf(Start(s)), cs);
    ChangesStayBounded(CanonOf(Start(s)), cs);
    EventsAreNumbered(b, first, Project(b, ContextOf(s), first).value.version);
  }

  // ---- a defeated actor ends the run ----

  lemma {:induction false} DoAllConcat(store: Canon, a: seq<Change>, b: seq<Change>)
    ensures DoAll(store, a + b) == match DoAll(store, a) case None => None case Some(next) => DoAll(next, b)
    decreases |a|
  {
    if a == [] {
      assert a + b == b;
    } else {
      assert (a + b)[0] == a[0] && (a + b)[1..] == a[1..] + b;
      if Do(store, a[0]).Some? { DoAllConcat(Do(store, a[0]).value, a[1..], b); }
    }
  }

  // The update that ends the run with the defeat of its combat
  ghost predicate Defeats(s: Snapshot, update: Option<Progressor.Update>) {
    s.combat.Some? && update.Some? && update.value.ending == Some(s.combat.value.defeatEnding)
  }

  // A reaction that brings the actor to zero hit points ends the run.
  lemma DefeatingReactionEnds(s: Snapshot, records: seq<Record>, update: Option<Progressor.Update>, id: nat,
          tape: Tape, at: nat)
    requires EnemyReaction(s, records, update, id, tape, at).Some?
    ensures var r := EnemyReaction(s, records, update, id, tape, at).value;
      && |ChangesOf(r.reactions)| <= 1
      && ((exists i :: 0 <= i < |ChangesOf(r.reactions)| && ChangesOf(r.reactions)[i].after == 0) ==>
            Defeats(s, r.update))
  {
    var r := EnemyReaction(s, records, update, id, tape, at).value;
    if r.reactions != [] {
      assert r.reactions[1..] == [];
      assert ChangesOf(r.reactions) == r.reactions[0].result.changes + [] == r.reactions[0].result.changes;
    }
  }

  // After harmless changes and at most one more, only that last one can have taken the actor down.
  lemma {:induction false} DownByTheLast(store: Canon, first: seq<Change>, second: seq<Change>, s: Snapshot)
    requires HpKey(s.actor) in store && store[HpKey(s.actor)].value > 0 && DoAll(store, first + second).Some?
      && |second| <= 1
    requires Harmless(s, first) && forall i :: 0 <= i < |first| ==> ValidChange(first[i])
    ensures HpKey(s.actor) in DoAll(store, first + second).value
    ensures DoAll(store, first + second).value[HpKey(s.actor)].value == 0 ==> |second| == 1 && second[0].after == 0
  {
    DoAllConcat(store, first, second);
    AliveAfter(store, first, s);
    assert |second| == 1 ==> second[1..] == [];
  }

  // The actor only ever falls to zero hit points in a turn that ends the run with its defeat.
  lemma DefeatEndsTheRun(s: Snapshot, intents: seq<Intent>, update: Option<Progressor.Update>, ids: nat -> nat,
          tape: Tape)
    requires Preflight(s, intents) && Assemble(s, intents, update, ids, tape).Some?
    ensures var b := Assemble(s, intents, update, ids, tape).value;
      var after := DoAll(CanonOf(Start(s)), ChangesOf(b.actions + b.reactions));
      && after.Some? && HpKey(s.actor) in after.value
      && (after.value[HpKey(s.actor)].value == 0 ==> Defeats(s, b.update))
  {
    var (records, w) := ResolveFrom(s, Start(s), intents, 0, ids, tape).value;
    var combat := EnemyReaction(s, records, update, ids(|intents|), tape, w.draws).value;
    PlanDone(s, records, w, intents, update, ids, tape);
    DefeatingReactionEnds(s, records, update, ids(|intents|), tape, w.draws);
    ChangesConcat(records, combat.reactions);
    CanonAt(Start(s));
    DownByTheLast(CanonOf(Start(s)), ChangesOf(records), ChangesOf(combat.reactions), s);
  }

  lemma {:induction false} PlanDone(s: Snapshot, records: seq<Record>, w: Working, intents: seq<Intent>,
          update: Option<Progressor.Update>, ids: nat -> nat, tape: Tape)
    requires Preflight(s, intents) && ResolveFrom(s, Start(s), intents, 0, ids, tape) == Some((records, w))
    requires EnemyReaction(s, records, update, ids(|intents|), tape, w.draws).Some?
    ensures Harmless(s, ChangesOf(records)) && forall i :: 0 <= i < |ChangesOf(records)| ==>
      ValidChange(ChangesOf(records)[i])
    ensures DoAll(CanonOf(Start(s)),
        ChangesOf(records) + ChangesOf(EnemyReaction(s, records, update, ids(|intents|), tape,
            w.draws).value.reactions)).Some?
  {
    PlanIsOk(s, Start(s), intents, 0, ids, tape);
    PlanIsHarmless(s, Start(s), intents, 0, ids, tape);
    ReactionIsOk(s, records, update, ids(|intents|), tape, w.draws);
    FollowAllIsDoAll(Start(s),
        ChangesOf(records) + ChangesOf(EnemyReaction(s, records, update, ids(|intents|), tape,
            w.draws).value.reactions));
  }
}
