/**
 Net mutations refine the changes applied one by one, and every bundle the worker assembles passes
 the independent projection, whatever the dice.
 */
module ResolutionLaws {
  import opened Outcomes
  import opened Resolution
  import opened Mechanics

  // ---- the canonical store ----

  // Current value of a character's hit points or of a stack of items; `max` is for hit points.
  datatype Cell = Cell(value: nat, max: nat)

  type Canon = map<Key, Cell>

  // One change applied to the store it was computed from
  function Do(store: Canon, c: Change): Option<Canon> {
    var key := KeyOf(c);
    if key in store && store[key].value == c.before && (c.Heal? ==> store[key].max == c.max) then
      Some(store[key := store[key].(value := c.after)])
    else None
  }

  function DoAll(store: Canon, cs: seq<Change>): Option<Canon>
    decreases |cs|
  {
    if cs == [] then Some(store)
    else
      match Do(store, cs[0])
      case None => None
      case Some(next) => DoAll(next, cs[1..])
  }

  // _validate_canonical_mutations for one mutation
  predicate Validated(store: Canon, m: Mutation) {
    && m.key in store && store[m.key].value == m.before
    && (m.max.Some? ==> m.max.value == store[m.key].max)
    && (m.key.HpKey? ==> m.after <= store[m.key].max)
  }

  function Update(store: Canon, ms: seq<Mutation>): Canon
    requires forall i :: 0 <= i < |ms| ==> ms[i].key in store
  {
    if ms == [] then store else Update(store[ms[0].key := store[ms[0].key].(value := ms[0].after)], ms[1..])
  }

  // The canonical half of commit_resolution: all mutations are checked, then all are written.
  function CommitMutations(store: Canon, ms: seq<Mutation>): Option<Canon> {
    if forall i :: 0 <= i < |ms| ==> Validated(store, ms[i]) then Some(Update(store, ms)) else None
  }

  // ---- net mutations against changes in order ----

  ghost predicate Matches(store: Canon, n: Net) {
    forall k :: k in n.changed ==>
      k in store && store[k].value == n.changed[k].before
        && (n.changed[k].max.Some? ==> store[k].max == n.changed[k].max.value)
  }

  // `now` is `store` after the changes that make up `n`.
  ghost predicate Reached(store: Canon, now: Canon, n: Net) {
    && Ordered(n) && Matches(store, n)
    && (forall k :: k in n.changed ==> k in now && now[k] == store[k].(value := n.changed[k].after))
    && (forall k :: k !in n.changed ==> (k in store <==> k in now) && (k in store ==> store[k] == now[k]))
  }

  lemma AbsorbReaches(store: Canon, now: Canon, next: Canon, n: Net, m: Net, c: Change)
    requires Reached(store, now, n) && Do(now, c) == Some(next) && Absorb(n, c) == Some(m) && Ordered(m)
    ensures Reached(store, next, m)
  {
    var key := KeyOf(c);
    assert m.changed == n.changed[key := m.changed[key]];
    assert next == now[key := now[key].(value := c.after)];
    assert key in store && m.changed[key].after == c.after;
  }

  lemma DoneIsAbsorbed(store: Canon, now: Canon, n: Net, c: Change)
    requires Reached(store, now, n) && Do(now, c).Some?
    ensures Absorb(n, c).Some? && Reached(store, Do(now, c).value, Absorb(n, c).value)
  {
    AbsorbOrdered(n, c);
    AbsorbReaches(store, now, Do(now, c).value, n, Absorb(n, c).value, c);
  }

  lemma {:induction false} AllDoneIsAbsorbed(store: Canon, now: Canon, n: Net, cs: seq<Change>)
    requires Reached(store, now, n) && DoAll(now, cs).Some?
    ensures AbsorbAll(n, cs).Some? && Reached(store, DoAll(now, cs).value, AbsorbAll(n, cs).value)
    decreases |cs|
  {
    if cs != [] {
      DoneIsAbsorbed(store, now, n, cs[0]);
      AllDoneIsAbsorbed(store, Do(now, cs[0]).value, Absorb(n, cs[0]).value, cs[1..]);
    }
  }

  // Later changes keep the before values and the known maxima of a net.
  ghost predicate Extends(n: Net, m: Net) {
    forall k :: k in n.changed ==>
      k in m.changed && m.changed[k].before == n.changed[k].before
        && (n.changed[k].max.Some? ==> m.changed[k].max == n.changed[k].max)
  }

  lemma {:induction false} AbsorbAllExtends(n: Net, cs: seq<Change>)
    ensures AbsorbAll(n, cs).Some? ==> Extends(n, AbsorbAll(n, cs).value)
    decreases |cs|
  {
    if cs != [] && Absorb(n, cs[0]).Some? {
      AbsorbAllExtends(Absorb(n, cs[0]).value, cs[1..]);
    }
  }

  lemma {:induction false} AbsorbedCanBeDone(store: Canon, now: Canon, n: Net, cs: seq<Change>)
    requires Reached(store, now, n) && AbsorbAll(n, cs).Some? && Matches(store, AbsorbAll(n, cs).value)
    ensures DoAll(now, cs).Some?
    decreases |cs|
  {
    if cs != [] {
      var next := Absorb(n, cs[0]).value;
      AbsorbAllExtends(next, cs[1..]);
      assert KeyOf(cs[0]) in next.changed;
      assert Do(now, cs[0]).Some?;
      DoneIsAbsorbed(store, now, n, cs[0]);
      AbsorbedCanBeDone(store, Do(now, cs[0]).value, next, cs[1..]);
    }
  }

  lemma NothingReached(store: Canon)
    ensures Reached(store, store, NOTHING)
  {
  }

  // A store on which the net's first values hold
  function Before(n: Net): Canon {
    map k | k in n.changed :: Cell(n.changed[k].before, if n.changed[k].max.Some? then n.changed[k].max.value else 0)
  }

  // The bundle's changes are accepted exactly when some store admits them all in order.
  lemma {:induction false} AcceptedIsContinuous(cs: seq<Change>)
    ensures NetMutations(cs).Some? <==> exists store :: DoAll(store, cs).Some?
  {
    if NetMutations(cs).Some? {
      var n := AbsorbAll(NOTHING, cs).value;
      NothingReached(Before(n));
      AbsorbedCanBeDone(Before(n), Before(n), NOTHING, cs);
    }
    if store :| DoAll(store, cs).Some? {
      NothingReached(store);
      AllDoneIsAbsorbed(store, store, NOTHING, cs);
    }
  }

  // Hit points stay between 0 and their maximum.
  ghost predicate Bounded(store: Canon) {
    forall k :: k in store && k.HpKey? ==> store[k].value <= store[k].max
  }

  lemma {:induction false} ChangesStayBounded(store: Canon, cs: seq<Change>)
    requires Bounded(store) && DoAll(store, cs).Some? && forall i :: 0 <= i < |cs| ==> ValidChange(cs[i])
    ensures Bounded(DoAll(store, cs).value)
    decreases |cs|
  {
    if cs != [] {
      assert ValidChange(cs[0]);
      ChangesStayBounded(Do(store, cs[0]).value, cs[1..]);
    }
  }

  function Consumptions(cs: seq<Change>, key: Key): nat {
    if cs == [] then 0 else (if cs[0].Consume? && KeyOf(cs[0]) == key then 1 else 0) + Consumptions(cs[1..], key)
  }

  // A stack of items falls by exactly the number of times it was consumed.
  lemma {:induction false} StockFallsByConsumptions(store: Canon, cs: seq<Change>, key: Key)
    requires key.StockKey? && key in store && DoAll(store, cs).Some? && forall i :: 0 <= i < |cs| ==> ValidChange(cs[i])
    ensures key in DoAll(store, cs).value
      && DoAll(store, cs).value[key].value + Consumptions(cs, key) == store[key].value
    decreases |cs|
  {
    if cs != [] {
      assert ValidChange(cs[0]);
      StockFallsByConsumptions(Do(store, cs[0]).value, cs[1..], key);
    }
  }

  // ---- writing the net mutations ----

  lemma {:induction false} MutationsOf(n: Net, order: seq<Key>)
    requires forall k :: k in order ==> k in n.changed && n.changed[k].key == k
    ensures forall i :: 0 <= i < |Mutations(n.changed, order)| ==>
      Mutations(n.changed, order)[i].key in order
        && Mutations(n.changed, order)[i] == n.changed[Mutations(n.changed, order)[i].key]
    ensures forall k :: k in order && n.changed[k].before != n.changed[k].after ==>
      n.changed[k] in Mutations(n.changed, order)
  {
    if order != [] {
      assert forall k :: k in order <==> k == order[0] || k in order[1..];
      MutationsOf(n, order[1..]);
    }
  }

  lemma {:induction false} UpdateReaches(store: Canon, now: Canon, n: Net, order: seq<Key>)
    requires forall k :: k in order ==> k in n.changed && n.changed[k].key == k && k in store
    requires forall i, j :: 0 <= i < j < |order| ==> order[i] != order[j]
    requires store.Keys == now.Keys
    requires forall k :: k in order ==>
      store[k].value == n.changed[k].before && now[k] == store[k].(value := n.changed[k].after)
    requires forall k :: k in store && k !in order ==> now[k] == store[k]
    ensures forall i :: 0 <= i < |Mutations(n.changed, order)| ==> Mutations(n.changed, order)[i].key in store
    ensures Update(store, Mutations(n.changed, order)) == now
  {
    MutationsOf(n, order);
    if order == [] {
      assert store == now;
    } else {
      var key, rest := order[0], order[1..];
      assert key !in rest;
      assert forall k :: k in order <==> k == key || k in rest;
      var m := n.changed[key];
      var next := store[key := store[key].(value := m.after)];
      UpdateReaches(next, now, n, rest);
      if m.before != m.after {
        assert Mutations(n.changed, order) == [m] + Mutations(n.changed, rest);
        assert ([m] + Mutations(n.changed, rest))[1..] == Mutations(n.changed, rest);
      } else {
        assert next == store;
        assert Mutations(n.changed, order) == [] + Mutations(n.changed, rest) == Mutations(n.changed, rest);
      }
    }
  }

  // Committing the net mutations passes every check and equals applying all changes in order.
  lemma {:induction false} NetRefinesChanges(store: Canon, cs: seq<Change>)
    requires Bounded(store) && DoAll(store, cs).Some? && forall i :: 0 <= i < |cs| ==> ValidChange(cs[i])
    ensures NetMutations(cs).Some? && CommitMutations(store, NetMutations(cs).value) == DoAll(store, cs)
  {
    NothingReached(store);
    AllDoneIsAbsorbed(store, store, NOTHING, cs);
    var n, now := AbsorbAll(NOTHING, cs).value, DoAll(store, cs).value;
    ChangesStayBounded(store, cs);
    ReachedKeys(store, now, n);
    MutationsOf(n, n.order);
    UpdateReaches(store, now, n, n.order);
    var ms := NetMutations(cs).value;
    forall i | 0 <= i < |ms| ensures Validated(store, ms[i]) {
      assert ms[i] == n.changed[ms[i].key] && now[ms[i].key] == store[ms[i].key].(value := ms[i].after);
    }
  }

  lemma ReachedKeys(store: Canon, now: Canon, n: Net)
    requires Reached(store, now, n)
    ensures store.Keys == now.Keys
  {
    forall k ensures k in store.Keys <==> k in now.Keys {
      if k in n.changed { assert k in store && k in now; }
    }
  }

  // ---- the two tests for a changed state agree ----

  ghost predicate Changes(n: Net) {
    exists k :: k in n.changed && n.changed[k].before != n.changed[k].after
  }

  lemma MutationsAreChanges(n: Net)
    requires Ordered(n)
    ensures Mutations(n.changed, n.order) != [] <==> Changes(n)
  {
    MutationsOf(n, n.order);
    var ms := Mutations(n.changed, n.order);
    if ms != [] {
      MutationsDiffer(n, n.order);
      assert ms[0].key in n.changed && ms[0].before != ms[0].after;
    }
  }

  lemma {:induction false} MutationsDiffer(n: Net, order: seq<Key>)
    requires forall k :: k in order ==> k in n.changed
    ensures forall i :: 0 <= i < |Mutations(n.changed, order)| ==>
      Mutations(n.changed, order)[i].before != Mutations(n.changed, order)[i].after
  {
    if order != [] { MutationsDiffer(n, order[1..]); }
  }

  lemma {:induction false} StillIsFlat(n: Net, cs: seq<Change>)
    requires !Changes(n) && AbsorbAll(n, cs).Some? && forall i :: 0 <= i < |cs| ==> !Moves(cs[i])
    ensures !Changes(AbsorbAll(n, cs).value)
    decreases |cs|
  {
    if cs != [] {
      assert !Moves(cs[0]);
      StillIsFlat(Absorb(n, cs[0]).value, cs[1..]);
    }
  }

  // What is consumed has fallen, and so has what was only ever damaged and was damaged at all.
  ghost predicate Falls(n: Net, k: Key) {
    k in n.changed && n.changed[k].after < n.changed[k].before
  }

  lemma {:induction false} ConsumedFalls(n: Net, cs: seq<Change>, k: Key)
    requires k.StockKey? && (k in n.changed ==> Falls(n, k)) && AbsorbAll(n, cs).Some?
    requires forall i :: 0 <= i < |cs| ==> ValidChange(cs[i])
    ensures k in AbsorbAll(n, cs).value.changed ==> Falls(AbsorbAll(n, cs).value, k)
    ensures k in n.changed || (exists i :: 0 <= i < |cs| && KeyOf(cs[i]) == k) ==> k in AbsorbAll(n, cs).value.changed
    decreases |cs|
  {
    if cs != [] {
      assert ValidChange(cs[0]);
      ConsumedFalls(Absorb(n, cs[0]).value, cs[1..], k);
      assert forall i :: 1 <= i < |cs| ==> cs[i] == cs[1..][i - 1];
    }
  }

  lemma {:induction false} DamagedFalls(n: Net, cs: seq<Change>, k: Key)
    requires (k in n.changed ==> n.changed[k].after <= n.changed[k].before) && AbsorbAll(n, cs).Some?
    requires forall i :: 0 <= i < |cs| ==> ValidChange(cs[i]) && cs[i].Damage?
    ensures k in AbsorbAll(n, cs).value.changed ==>
      AbsorbAll(n, cs).value.changed[k].after <= AbsorbAll(n, cs).value.changed[k].before
    ensures Falls(n, k) || (exists i :: 0 <= i < |cs| && KeyOf(cs[i]) == k && Moves(cs[i])) ==>
      Falls(AbsorbAll(n, cs).value, k)
    decreases |cs|
  {
    if cs != [] {
      assert ValidChange(cs[0]) && cs[0].Damage?;
      DamagedFalls(Absorb(n, cs[0]).value, cs[1..], k);
      assert forall i :: 1 <= i < |cs| ==> cs[i] == cs[1..][i - 1];
    }
  }

  // Healing always comes with the consumption of an item.
  ghost predicate Paired(cs: seq<Change>) {
    (exists i :: 0 <= i < |cs| && cs[i].Heal?) ==> exists i :: 0 <= i < |cs| && cs[i].Consume?
  }

  // The worker's test of each change and the projection's test of the net mutations agree.
  lemma VersionTestsAgree(cs: seq<Change>)
    requires NetMutations(cs).Some? && Paired(cs) && forall i :: 0 <= i < |cs| ==> ValidChange(cs[i])
    ensures (exists i :: 0 <= i < |cs| && Moves(cs[i])) <==> NetMutations(cs).value != []
  {
    AbsorbAllOrdered(NOTHING, cs);
    var n := AbsorbAll(NOTHING, cs).value;
    MutationsAreChanges(n);
    if !exists i :: 0 <= i < |cs| && Moves(cs[i]) {
      StillIsFlat(NOTHING, cs);
    } else if i :| 0 <= i < |cs| && cs[i].Consume? {
      ConsumedFalls(NOTHING, cs, KeyOf(cs[i]));
    } else {
      var i :| 0 <= i < |cs| && Moves(cs[i]);
      DamagedFalls(NOTHING, cs, KeyOf(cs[i]));
    }
  }

  // They need that pairing: a healing undone by damage moves hit points but changes nothing on the whole.
  lemma LoneHealingDisagrees()
    ensures var cs := [Heal(0, 2, 3, 5, 9), Damage(0, 2, 5, 3)];
      (forall i :: 0 <= i < |cs| ==> ValidChange(cs[i])) && Moves(cs[0]) && NetMutations(cs) == Some([])
  {
    var heal, damage := Heal(0, 2, 3, 5, 9), Damage(0, 2, 5, 3);
    var cs := [heal, damage];
    assert cs[1..] == [damage] && cs[1..][1..] == [];
    var first := Absorb(NOTHING, heal).value;
    assert first.order == [HpKey(0)];
    var second := Absorb(first, damage).value;
    assert AbsorbAll(NOTHING, cs) == AbsorbAll(first, [damage]) == Some(second);
    assert second.order[1..] == [];
    assert Mutations(second.changed, second.order) == [];
  }
}
