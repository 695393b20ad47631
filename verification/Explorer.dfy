/**
 The bounded breadth-first exploration of a scenario's states and the backward computation of
 the states that can still reach an ending, proved against plain graph reachability.
 */
module Explorer {
  import opened Outcomes
  import opened Scenarios

  datatype Search = Search(
    queue: seq<State>, seen: set<State>, reverse: map<State, set<State>>,
    canEnd: set<State>, endings: set<string>, exhausted: bool)

  function Sources(reverse: map<State, set<State>>, t: State): set<State> {
    if t in reverse then reverse[t] else {}
  }

  // What _explore records for one effect of an action of `state`
  function Record(w: Search, state: State, o: Outcome, limit: nat): Search {
    match o
    case Skipped => w
    case Ends(ending) => w.(endings := w.endings + {ending}, canEnd := w.canEnd + {state})
    case Moves(target) =>
      var linked := w.(reverse := w.reverse[target := Sources(w.reverse, target) + {state}]);
      if target in w.seen then linked
      else if |w.seen| >= limit then linked.(exhausted := true)
      else linked.(seen := w.seen + {target}, queue := w.queue + [target])
  }

  // ---- the graph being explored, as plain relations ----

  datatype Graph = Graph(
    moves: iset<(State, State)>, ends: iset<(State, string)>, reach: iset<State>, win: iset<State>)

  ghost function GraphOf(d: Definition): Graph {
    Graph(iset s, t | Leads(d, s, Moves(t)) :: (s, t),
          iset s, e | Leads(d, s, Ends(e)) :: (s, e),
          iset s | Reachable(d, s) && Placed(d, s),
          iset s | Winnable(d, s))
  }

  // Moves keep reachability forwards and winnability backwards.
  ghost predicate Regular(g: Graph) {
    && (forall s, t :: s in g.reach && (s, t) in g.moves ==> t in g.reach)
    && (forall s, t :: t in g.win && (s, t) in g.moves ==> s in g.win)
    && (forall s, e :: (s, e) in g.ends ==> s in g.win)
  }

  lemma GraphRegular(d: Definition)
    requires Closed(d)
    ensures Regular(GraphOf(d))
  {
    var g := GraphOf(d);
    forall s, t | s in g.reach && (s, t) in g.moves ensures t in g.reach {
      ReachesStep(d, StartState(d), s, t);
    }
    forall s, t | t in g.win && (s, t) in g.moves ensures s in g.win {
      WinnableStep(d, s, t);
    }
    forall s, e | (s, e) in g.ends ensures s in g.win {
      ReachesSelf(d, s);
      assert CanEnd(d, s);
    }
  }

  ghost predicate InGraph(g: Graph, s: State, o: Outcome) {
    match o
    case Skipped => true
    case Ends(ending) => (s, ending) in g.ends
    case Moves(target) => (s, target) in g.moves
  }

  // ---- what a search knows ----

  ghost predicate Recorded(w: Search, s: State, o: Outcome) {
    match o
    case Skipped => true
    case Ends(ending) => ending in w.endings && s in w.canEnd
    case Moves(target) => target in w.seen && s in Sources(w.reverse, target)
  }

  ghost predicate Covered(g: Graph, w: Search, s: State) {
    forall o :: InGraph(g, s, o) ==> Recorded(w, s, o)
  }

  // Everything found is really there.
  ghost predicate Sound(g: Graph, w: Search, limit: nat) {
    && (forall s :: s in w.seen ==> s in g.reach)
    && (forall s :: s in w.queue ==> s in w.seen)
    && (forall s, t :: s in Sources(w.reverse, t) ==> s in w.seen && (s, t) in g.moves)
    && (forall s :: s in w.canEnd ==> s in w.seen && exists e :: (s, e) in g.ends)
    && (forall e :: e in w.endings ==> exists s :: s in w.seen && (s, e) in g.ends)
    && |w.seen| <= (if limit >= 1 then limit else 1)
    && (w.exhausted ==> |w.seen| >= limit && exists t :: t !in w.seen && t in g.reach)
  }

  ghost predicate Grows(w: Search, x: Search) {
    && w.seen <= x.seen && w.canEnd <= x.canEnd && w.endings <= x.endings
    && (forall t :: Sources(w.reverse, t) <= Sources(x.reverse, t))
    && (w.exhausted ==> x.exhausted)
    && (forall s :: s in x.seen && s !in w.seen ==> s in x.queue)
    && (forall s :: s in w.queue ==> s in x.queue)
    && |w.seen| <= |x.seen|
    && |x.queue| - |w.queue| == |x.seen| - |w.seen|
  }

  lemma GrowsRecorded(w: Search, x: Search, s: State, o: Outcome)
    requires Grows(w, x) && Recorded(w, s, o)
    ensures Recorded(x, s, o)
  {
  }

  lemma GrowsTrans(w: Search, x: Search, y: Search)
    requires Grows(w, x) && Grows(x, y)
    ensures Grows(w, y)
  {
  }

  // Recording a move only adds the source to the target's sources, and the target when it is new.
  lemma MoveSources(w: Search, state: State, target: State, limit: nat)
    ensures var x := Record(w, state, Moves(target), limit);
      forall t :: Sources(x.reverse, t) ==
        if t == target then Sources(w.reverse, target) + {state} else Sources(w.reverse, t)
  {
  }

  lemma RecordMoveSound(g: Graph, w: Search, state: State, target: State, limit: nat)
    requires Sound(g, w, limit) && state in w.seen && (state, target) in g.moves && target in g.reach && !w.exhausted
    ensures Sound(g, Record(w, state, Moves(target), limit), limit)
  {
    MoveSources(w, state, target, limit);
    var x := Record(w, state, Moves(target), limit);
    assert w.seen <= x.seen <= w.seen + {target};
    assert forall s :: s in x.queue ==> s in w.queue || s == target;
    forall s, t | s in Sources(x.reverse, t) ensures s in x.seen && (s, t) in g.moves {
      assert s in Sources(w.reverse, t) || (s == state && t == target);
    }
  }

  lemma RecordMoveGrows(w: Search, state: State, target: State, limit: nat)
    requires !w.exhausted
    ensures Grows(w, Record(w, state, Moves(target), limit))
  {
    MoveSources(w, state, target, limit);
    assert target !in w.seen && |w.seen| < limit ==> target in w.queue + [target];
  }

  lemma RecordStep(g: Graph, w: Search, state: State, o: Outcome, limit: nat)
    requires Regular(g) && Sound(g, w, limit) && state in w.seen && InGraph(g, state, o) && !w.exhausted
    ensures Sound(g, Record(w, state, o, limit), limit)
    ensures Grows(w, Record(w, state, o, limit))
    ensures !Record(w, state, o, limit).exhausted ==> Recorded(Record(w, state, o, limit), state, o)
  {
    match o
    case Skipped =>
    case Ends(ending) => assert (state, ending) in g.ends;
    case Moves(target) =>
      RecordMoveSound(g, w, state, target, limit);
      RecordMoveGrows(w, state, target, limit);
      MoveSources(w, state, target, limit);
  }

  // ---- expanding one state ----

  ghost predicate DoneActions(d: Definition, w: Search, scene: Scene, state: State, i: nat)
    requires i <= |scene.actions|
  {
    forall k, e :: 0 <= k < i && Available(scene.actions[k], state.flags) && e in Effects(scene.actions[k]) ==>
      Recorded(w, state, EffectOutcome(d, scene, scene.actions[k], state.flags, e))
  }

  ghost predicate DoneEffects(d: Definition, w: Search, scene: Scene, state: State, a: Action, j: nat)
    requires j <= |Effects(a)|
  {
    forall k :: 0 <= k < j ==> Recorded(w, state, EffectOutcome(d, scene, a, state.flags, Effects(a)[k]))
  }

  lemma DoneKept(d: Definition, w: Search, x: Search, scene: Scene, state: State, i: nat)
    requires i < |scene.actions| && Grows(w, x)
    ensures DoneActions(d, w, scene, state, i) ==> DoneActions(d, x, scene, state, i)
    ensures forall j ::
      0 <= j <= |Effects(scene.actions[i])| && DoneEffects(d, w, scene, state, scene.actions[i], j) ==>
        DoneEffects(d, x, scene, state, scene.actions[i], j)
  {
    forall s, o | Recorded(w, s, o) ensures Recorded(x, s, o) { GrowsRecorded(w, x, s, o); }
  }

  lemma OutcomeInGraph(d: Definition, scene: Scene, state: State, a: Action, e: Effect)
    requires FindScene(d.scenes, state.scene) == Some(scene) && a in scene.actions && Available(a, state.flags)
      && e in Effects(a)
    ensures InGraph(GraphOf(d), state, EffectOutcome(d, scene, a, state.flags, e))
  {
    assert Leads(d, state, EffectOutcome(d, scene, a, state.flags, e));
  }

  lemma AllDone(d: Definition, w: Search, scene: Scene, state: State)
    requires FindScene(d.scenes, state.scene) == Some(scene) && DoneActions(d, w, scene, state, |scene.actions|)
    ensures Covered(GraphOf(d), w, state)
  {
    forall o | InGraph(GraphOf(d), state, o) ensures Recorded(w, state, o) {
      if o != Skipped {
        assert Leads(d, state, o);
        var a, e := LeadsBy(d, state, o);
        var k :| 0 <= k < |scene.actions| && scene.actions[k] == a;
      }
    }
  }

  // The loops of _explore over the actions of one scene and the effects of each action
  method Expand(d: Definition, scene: Scene, state: State, limit: nat, w0: Search, ghost g: Graph) returns (w: Search)
    requires g == GraphOf(d) && Regular(g)
    requires Sound(g, w0, limit) && state in w0.seen && !w0.exhausted
    requires FindScene(d.scenes, state.scene) == Some(scene)
    ensures Sound(g, w, limit) && Grows(w0, w)
    ensures !w.exhausted ==> Covered(g, w, state)
  {
    w := w0;
    for i := 0 to |scene.actions|
      invariant Sound(g, w, limit) && Grows(w0, w) && !w.exhausted
      invariant DoneActions(d, w, scene, state, i)
    {
      var a := scene.actions[i];
      if Available(a, state.flags) {
        w := ExpandAction(d, scene, state, limit, w0, g, w, i);
        if w.exhausted { return; }
      }
    }
    AllDone(d, w, scene, state);
  }

  // The inner loop, over the effects of action `i`
  method ExpandAction(d: Definition, scene: Scene, state: State, limit: nat, ghost w0: Search, ghost g: Graph,
          w1: Search, i: nat) returns (w: Search)
    requires g == GraphOf(d) && Regular(g) && FindScene(d.scenes, state.scene) == Some(scene)
    requires state in w0.seen && Sound(g, w1, limit) && Grows(w0, w1) && !w1.exhausted
    requires i < |scene.actions| && Available(scene.actions[i], state.flags)
    requires DoneActions(d, w1, scene, state, i)
    ensures Sound(g, w, limit) && Grows(w0, w)
    ensures !w.exhausted ==> DoneActions(d, w, scene, state, i + 1)
  {
    w := w1;
    var a := scene.actions[i];
    var effects := Effects(a);
    for j := 0 to |effects|
      invariant Sound(g, w, limit) && Grows(w0, w) && !w.exhausted
      invariant DoneActions(d, w, scene, state, i) && DoneEffects(d, w, scene, state, a, j)
    {
      var o := EffectOutcome(d, scene, a, state.flags, effects[j]);
      OutcomeInGraph(d, scene, state, a, effects[j]);
      ghost var before := w;
      RecordStep(g, before, state, o, limit);
      w := Record(w, state, o, limit);
      GrowsTrans(w0, before, w);
      DoneKept(d, before, w, scene, state, i);
      if w.exhausted { return; }
    }
  }

  // ---- the worklist ----

  ghost predicate Explored(g: Graph, w: Search, scenes: set<string>) {
    && (forall s :: s in w.seen && s !in w.queue ==> Covered(g, w, s) && s.scene in scenes)
    && (forall r :: r in scenes ==> exists s :: s in w.seen && s.scene == r)
  }

  lemma ExploredStep(g: Graph, w: Search, popped: Search, x: Search, scenes: set<string>, state: State)
    requires Explored(g, w, scenes) && w.queue != [] && state == w.queue[0] && state in w.seen
    requires popped == w.(queue := w.queue[1..])
    requires Grows(popped, x) && Covered(g, x, state)
    ensures Explored(g, x, scenes + {state.scene})
  {
    forall s | s in x.seen && s !in x.queue ensures Covered(g, x, s) && s.scene in scenes + {state.scene} {
      if s != state {
        assert s in w.seen && s !in popped.queue;
        assert w.queue == [state] + popped.queue;
        forall o | InGraph(g, s, o) ensures Recorded(x, s, o) {
          assert Recorded(popped, s, o);
          GrowsRecorded(popped, x, s, o);
        }
      }
    }
  }

  function Max(a: int, b: int): int { if a >= b then a else b }

  lemma PoppedSound(g: Graph, w: Search, limit: nat)
    requires Sound(g, w, limit) && w.queue != []
    ensures Sound(g, w.(queue := w.queue[1..]), limit) && w.queue[0] in w.seen && w.queue[0] in g.reach
  {
    assert w.queue[0] in w.queue;
    assert forall s :: s in w.queue[1..] ==> s in w.queue;
  }

  // One round of the main loop of _explore
  method Visit(d: Definition, limit: nat, ghost g: Graph, w: Search, scenes: set<string>)
    returns (x: Search, visited: set<string>)
    requires g == GraphOf(d) && Regular(g) && Sound(g, w, limit)
    requires w.queue != [] && !w.exhausted && Explored(g, w, scenes)
    ensures Sound(g, x, limit) && w.seen <= x.seen
    ensures visited == scenes + {w.queue[0].scene}
    ensures !x.exhausted ==> Explored(g, x, visited)
    ensures |x.seen| >= |w.seen| && |x.queue| - |w.queue| == |x.seen| - |w.seen| - 1
  {
    var state := w.queue[0];
    PoppedSound(g, w, limit);
    assert Placed(d, state);
    var scene := FindScene(d.scenes, state.scene).value;
    var popped := w.(queue := w.queue[1..]);
    x := Expand(d, scene, state, limit, popped, g);
    if !x.exhausted { ExploredStep(g, w, popped, x, scenes, state); }
    visited := scenes + {state.scene};
  }

  ghost predicate Seen(w: Search, scenes: set<string>) {
    forall r :: r in scenes ==> exists s :: s in w.seen && s.scene == r
  }

  lemma StartSound(g: Graph, start: State, limit: nat)
    requires start in g.reach
    ensures Sound(g, Search([start], {start}, map[], {}, {}, false), limit)
    ensures Explored(g, Search([start], {start}, map[], {}, {}, false), {})
  {
  }

  // The main loop of _explore
  method Forward(d: Definition, limit: nat, ghost g: Graph) returns (w: Search, scenes: set<string>)
    requires g == GraphOf(d) && Regular(g) && StartState(d) in g.reach
    ensures Sound(g, w, limit) && StartState(d) in w.seen
    ensures forall r :: r in scenes ==> exists s :: s in w.seen && s.scene == r
    ensures !w.exhausted ==> forall s :: s in w.seen ==> Covered(g, w, s) && s.scene in scenes
  {
    var start := StartState(d);
    w := Search([start], {start}, map[], {}, {}, false);
    scenes := {};
    StartSound(g, start, limit);
    while w.queue != [] && !w.exhausted
      invariant Sound(g, w, limit) && start in w.seen && Seen(w, scenes)
      invariant !w.exhausted ==> Explored(g, w, scenes)
      decreases Max(limit, 1) - |w.seen|, |w.queue|
    {
      assert w.queue[0] in w.queue;
      w, scenes := Visit(d, limit, g, w, scenes);
    }
  }

  // ---- the states that can still end ----

  ghost predicate Backward(g: Graph, w: Search, winning: set<State>) {
    && w.canEnd <= winning <= w.seen
    && forall s :: s in winning ==> s in g.win
  }

  // The worklist of _explore that walks the recorded moves backwards from the ending states
  method WinningStates(w: Search, ghost g: Graph, ghost limit: nat) returns (winning: set<State>)
    requires Sound(g, w, limit) && Regular(g)
    ensures Backward(g, w, winning)
    ensures forall t, s :: t in winning && s in Sources(w.reverse, t) ==> s in winning
  {
    winning := w.canEnd;
    var pending := w.canEnd;
    while pending != {}
      invariant Backward(g, w, winning) && pending <= winning
      invariant forall t, s :: t in winning && t !in pending && s in Sources(w.reverse, t) ==> s in winning
      decreases w.seen - winning, pending
    {
      var t :| t in pending;
      pending := pending - {t};
      var sources := Sources(w.reverse, t);
      ghost var before, rest := winning, pending;
      while sources != {}
        invariant sources <= Sources(w.reverse, t)
        invariant Backward(g, w, winning) && pending <= winning && before <= winning && t in winning
        invariant before == winning ==> pending == rest
        invariant forall s :: s in Sources(w.reverse, t) && s !in sources ==> s in winning
        invariant forall u, s :: u in winning && u !in pending && u != t && s in Sources(w.reverse, u) ==> s in winning
        decreases sources
      {
        var previous :| previous in sources;
        sources := sources - {previous};
        if previous !in winning {
          winning := winning + {previous};
          pending := pending + {previous};
        }
      }
    }
  }

  // ---- a complete search has seen exactly the reachable states ----

  lemma {:induction false} RunSeen(d: Definition, w: Search, run: seq<State>, i: nat)
    requires Run(d, run) && i < |run| && run[0] in w.seen
    requires forall s :: s in w.seen ==> Covered(GraphOf(d), w, s)
    ensures run[i] in w.seen
    ensures i > 0 ==> run[i - 1] in Sources(w.reverse, run[i])
  {
    if i > 0 {
      RunSeen(d, w, run, i - 1);
      assert Leads(d, run[i - 1], Moves(run[i - 1 + 1]));
      assert InGraph(GraphOf(d), run[i - 1], Moves(run[i]));
    }
  }

  lemma SeenIsReachable(d: Definition, w: Search, limit: nat)
    requires Sound(GraphOf(d), w, limit) && StartState(d) in w.seen
    requires forall s :: s in w.seen ==> Covered(GraphOf(d), w, s)
    ensures forall s :: s in w.seen <==> Reachable(d, s)
  {
    forall s | Reachable(d, s) ensures s in w.seen {
      var run :| Run(d, run) && run[0] == StartState(d) && run[|run| - 1] == s;
      RunSeen(d, w, run, |run| - 1);
    }
    forall s | s in w.seen ensures Reachable(d, s) {
      assert s in GraphOf(d).reach;
    }
  }

  lemma {:induction false} RunWins(d: Definition, w: Search, winning: set<State>, run: seq<State>, i: nat)
    requires Run(d, run) && i < |run| && run[0] in w.seen && run[|run| - 1] in winning
    requires forall s :: s in w.seen ==> Covered(GraphOf(d), w, s)
    requires forall t, s :: t in winning && s in Sources(w.reverse, t) ==> s in winning
    ensures run[i] in winning
    decreases |run| - i
  {
    if i < |run| - 1 {
      RunWins(d, w, winning, run, i + 1);
      RunSeen(d, w, run, i + 1);
    }
  }

  lemma WinningIsWinnable(d: Definition, w: Search, winning: set<State>)
    requires Backward(GraphOf(d), w, winning)
    requires forall s :: s in w.seen ==> Covered(GraphOf(d), w, s)
    requires forall t, s :: t in winning && s in Sources(w.reverse, t) ==> s in winning
    ensures forall s :: s in w.seen ==> (s in winning <==> Winnable(d, s))
  {
    forall s | s in w.seen && Winnable(d, s) ensures s in winning {
      var t :| Reaches(d, s, t) && CanEnd(d, t);
      var run :| Run(d, run) && run[0] == s && run[|run| - 1] == t;
      RunSeen(d, w, run, |run| - 1);
      var e :| Leads(d, t, Ends(e));
      assert InGraph(GraphOf(d), t, Ends(e));
      RunWins(d, w, winning, run, 0);
    }
    forall s | s in winning ensures Winnable(d, s) {
      assert s in GraphOf(d).win;
    }
  }

  // ---- the report ----

  datatype Verdict = CombatUnverified | ExplorationLimit | RegisteredPathDeadEnd | UnreachableEnding | UnreachedContent

  datatype Report = Report(
    statesExplored: nat, scenes: set<string>, endings: set<string>, exhausted: bool,
    errors: set<Verdict>, warnings: set<Verdict>)

  predicate HasCombat(d: Definition) {
    exists i :: 0 <= i < |d.scenes| && d.scenes[i].combat.Some?
  }

  // Some scene has a combat.
  ghost predicate Fights(d: Definition) {
    !forall scene :: scene in d.scenes ==> scene.combat.None?
  }

  lemma CombatIsFight(d: Definition)
    ensures HasCombat(d) <==> Fights(d)
  {
    if HasCombat(d) {
      var i :| 0 <= i < |d.scenes| && d.scenes[i].combat.Some?;
      assert d.scenes[i] in d.scenes;
    }
  }

  ghost predicate Obtainable(d: Definition, ending: string) {
    exists s :: Reachable(d, s) && Leads(d, s, Ends(ending))
  }

  // Some reachable state has no way to any ending, or no ending can be obtained at all.
  ghost predicate DeadEnd(d: Definition) {
    (forall e :: !Obtainable(d, e)) || exists s :: Reachable(d, s) && !Winnable(d, s)
  }

  ghost predicate ReachedScene(d: Definition, ref: string) {
    exists s :: Reachable(d, s) && s.scene == ref
  }

  // Some scene or ending of the definition is out of reach.
  ghost predicate Unreached(d: Definition) {
    || (exists i :: 0 <= i < |d.scenes| && !ReachedScene(d, d.scenes[i].ref))
    || (exists i :: 0 <= i < |d.endings| && !Obtainable(d, d.endings[i].ref))
  }

  ghost predicate ReachableSet(d: Definition, states: set<State>) {
    forall s :: s in states ==> Reachable(d, s)
  }

  // More states are reachable than the budget allows to store.
  ghost predicate OverBudget(d: Definition, limit: nat) {
    exists states :: |states| > Max(limit, 1) && ReachableSet(d, states)
  }

  // Endings and scenes found are obtainable, and a complete traversal has found them all.
  ghost predicate Exact(d: Definition, endings: set<string>, scenes: set<string>, complete: bool) {
    && (forall e :: e in endings ==> Obtainable(d, e))
    && (forall ref :: ref in scenes ==> ReachedScene(d, ref))
    && (complete ==> forall e :: Obtainable(d, e) ==> e in endings)
    && (complete ==> forall ref :: ReachedScene(d, ref) ==> ref in scenes)
  }

  // The exploration ran out of budget exactly when more states are reachable than it may store.
  lemma BudgetExact(d: Definition, w: Search, limit: nat)
    requires Sound(GraphOf(d), w, limit) && StartState(d) in w.seen
    requires !w.exhausted ==> forall s :: s in w.seen <==> Reachable(d, s)
    ensures w.exhausted <==> OverBudget(d, limit)
  {
    assert ReachableSet(d, w.seen) by {
      forall s | s in w.seen ensures Reachable(d, s) { assert s in GraphOf(d).reach; }
    }
    if w.exhausted {
      var t :| t !in w.seen && t in GraphOf(d).reach;
      var more := w.seen + {t};
      assert |more| == |w.seen| + 1;
      SubsetSize({StartState(d)}, w.seen);
      assert ReachableSet(d, more);
    } else {
      forall states: set<State> | ReachableSet(d, states) ensures |states| <= Max(limit, 1) {
        assert states <= w.seen;
        SubsetSize(states, w.seen);
      }
    }
  }

  lemma {:induction false} SubsetSize(a: set<State>, b: set<State>)
    requires a <= b
    ensures |a| <= |b|
  {
    if a != {} {
      var x :| x in a;
      SubsetSize(a - {x}, b - {x});
    }
  }

  lemma EndingsExact(d: Definition, w: Search, limit: nat)
    requires Sound(GraphOf(d), w, limit)
    ensures forall e :: e in w.endings ==> Obtainable(d, e)
    ensures (forall s ::
      s in w.seen <==> Reachable(d, s)) && (forall s :: s in w.seen ==> Covered(GraphOf(d), w, s)) ==>
      forall e :: e in w.endings <==> Obtainable(d, e)
  {
    forall e | e in w.endings ensures Obtainable(d, e) {
      var s :| s in w.seen && (s, e) in GraphOf(d).ends;
      assert s in GraphOf(d).reach;
      assert Leads(d, s, Ends(e));
    }
    if (forall s :: s in w.seen <==> Reachable(d, s)) && (forall s :: s in w.seen ==> Covered(GraphOf(d), w, s)) {
      forall e | Obtainable(d, e) ensures e in w.endings {
        var s :| Reachable(d, s) && Leads(d, s, Ends(e));
        assert InGraph(GraphOf(d), s, Ends(e));
      }
    }
  }

  lemma SearchExact(d: Definition, w: Search, limit: nat, scenes: set<string>)
    requires Sound(GraphOf(d), w, limit) && StartState(d) in w.seen
    requires forall r :: r in scenes ==> exists s :: s in w.seen && s.scene == r
    requires !w.exhausted ==> forall s :: s in w.seen ==> Covered(GraphOf(d), w, s) && s.scene in scenes
    ensures w.exhausted <==> OverBudget(d, limit)
    ensures Exact(d, w.endings, scenes, !w.exhausted)
    ensures !w.exhausted ==> forall s :: s in w.seen <==> Reachable(d, s)
  {
    if !w.exhausted { SeenIsReachable(d, w, limit); }
    BudgetExact(d, w, limit);
    EndingsExact(d, w, limit);
    ScenesExact(d, w, scenes);
  }

  // The backward pass over a complete traversal
  method DeadEnds(d: Definition, w: Search, ghost limit: nat) returns (dead: bool)
    requires Sound(GraphOf(d), w, limit) && Regular(GraphOf(d))
    requires forall s :: s in w.seen <==> Reachable(d, s)
    requires forall s :: s in w.seen ==> Covered(GraphOf(d), w, s)
    requires forall e :: e in w.endings <==> Obtainable(d, e)
    ensures dead <==> DeadEnd(d)
  {
    var winning := WinningStates(w, GraphOf(d), limit);
    WinningIsWinnable(d, w, winning);
    DeadExact(d, w, winning);
    dead := w.endings == {} || w.seen - winning != {};
  }

  // The traversal and, when it was complete, the backward pass
  method Survey(d: Definition, limit: nat)
    returns (states: nat, scenes: set<string>, endings: set<string>, exhausted: bool, dead: bool)
    requires ValidGraph(d)
    ensures states <= Max(limit, 1)
    ensures exhausted <==> OverBudget(d, limit)
    ensures Exact(d, endings, scenes, !exhausted)
    ensures dead <==> !exhausted && DeadEnd(d)
  {
    assert Regular(GraphOf(d)) && StartState(d) in GraphOf(d).reach by {
      ValidClosed(d);
      GraphRegular(d);
      ReachesSelf(d, StartState(d));
    }
    var w, reached := Forward(d, limit, GraphOf(d));
    SearchExact(d, w, limit, reached);
    states, scenes, endings, exhausted, dead := |w.seen|, reached, w.endings, w.exhausted, false;
    if !w.exhausted { dead := DeadEnds(d, w, limit); }
  }

  lemma ScenesExact(d: Definition, w: Search, scenes: set<string>)
    requires forall s :: s in w.seen ==> s in GraphOf(d).reach
    requires forall r :: r in scenes ==> exists s :: s in w.seen && s.scene == r
    ensures forall ref :: ref in scenes ==> ReachedScene(d, ref)
    ensures (forall s :: s in w.seen ==> s.scene in scenes) && (forall s :: s in w.seen <==> Reachable(d, s)) ==>
      forall ref :: ref in scenes <==> ReachedScene(d, ref)
  {
    forall ref | ref in scenes ensures ReachedScene(d, ref) {
      var s :| s in w.seen && s.scene == ref;
      assert s in GraphOf(d).reach;
    }
  }

  lemma UnreachedExact(d: Definition, endings: set<string>, scenes: set<string>)
    requires Exact(d, endings, scenes, true)
    ensures Missing(d, endings, scenes) <==> Unreached(d)
  {
  }

  // Some scene or ending of the definition was not found.
  predicate Missing(d: Definition, endings: set<string>, scenes: set<string>) {
    || (exists i :: 0 <= i < |d.scenes| && d.scenes[i].ref !in scenes)
    || (exists i :: 0 <= i < |d.endings| && d.endings[i].ref !in endings)
  }

  // The findings of _explore
  method Findings(d: Definition, endings: set<string>, scenes: set<string>, exhausted: bool, dead: bool)
    returns (errors: set<Verdict>, warnings: set<Verdict>)
    requires Exact(d, endings, scenes, !exhausted)
    requires dead <==> !exhausted && DeadEnd(d)
    ensures errors == if !exhausted && DeadEnd(d) && d.world.None? && !Fights(d) then {UnreachableEnding} else {}
    ensures RegisteredPathDeadEnd in warnings <==> !exhausted && DeadEnd(d) && (d.world.Some? || Fights(d))
    ensures UnreachedContent in warnings <==> !exhausted && Unreached(d)
    ensures ExplorationLimit in warnings <==> exhausted
    ensures CombatUnverified in warnings <==> Fights(d)
  {
    CombatIsFight(d);
    var combat := HasCombat(d);
    errors, warnings := {}, if combat then {CombatUnverified} else {};
    if exhausted {
      warnings := warnings + {ExplorationLimit};
      return;
    }
    if dead {
      if d.world.Some? || combat {
        warnings := warnings + {RegisteredPathDeadEnd};
      } else {
        errors := {UnreachableEnding};
      }
    }
    UnreachedExact(d, endings, scenes);
    if Missing(d, endings, scenes) {
      warnings := warnings + {UnreachedContent};
    }
  }

  // _explore
  method Explore(d: Definition, limit: nat) returns (r: Report)
    requires ValidGraph(d)
    ensures r.statesExplored <= Max(limit, 1)
    ensures r.exhausted <==> OverBudget(d, limit)
    ensures Exact(d, r.endings, r.scenes, !r.exhausted)
    ensures r.errors == if !r.exhausted && DeadEnd(d) && d.world.None? && !Fights(d) then {UnreachableEnding} else {}
    ensures RegisteredPathDeadEnd in r.warnings <==> !r.exhausted && DeadEnd(d) && (d.world.Some? || Fights(d))
    ensures UnreachedContent in r.warnings <==> !r.exhausted && Unreached(d)
    ensures ExplorationLimit in r.warnings <==> r.exhausted
    ensures CombatUnverified in r.warnings <==> Fights(d)
  {
    var states, scenes, endings, exhausted, dead := Survey(d, limit);
    var errors, warnings := Findings(d, endings, scenes, exhausted, dead);
    r := Report(states, scenes, endings, exhausted, errors, warnings);
  }

  lemma DeadExact(d: Definition, w: Search, winning: set<State>)
    requires forall s :: s in w.seen <==> Reachable(d, s)
    requires forall s :: s in w.seen ==> (s in winning <==> Winnable(d, s))
    requires forall e :: e in w.endings <==> Obtainable(d, e)
    ensures w.endings == {} || w.seen - winning != {} <==> DeadEnd(d)
  {
    if w.seen - winning != {} {
      var s :| s in w.seen - winning;
      assert Reachable(d, s) && !Winnable(d, s);
    }
    if s :| Reachable(d, s) && !Winnable(d, s) {
      assert s in w.seen - winning;
    }
    if w.endings != {} {
      var e :| e in w.endings;
      assert Obtainable(d, e);
    }
  }
}
