/**
 All interleavings of the turn operations: workers that claim, read, route, reserve, commit, fail
 or crash at any point, while the clock moves on. One invariant holds in every reachable state.
 */
module TurnProtocol {
  import opened Outcomes
  import opened Turns

  datatype Policy = Policy(resolution: Limits, narrating: Limits)

  ghost predicate Sane(p: Policy) {
    && p.resolution.attempts >= 1 && p.resolution.lease >= 1 && p.resolution.deadline >= 1
    && p.narrating.attempts >= 1 && p.narrating.lease >= 1 && p.narrating.deadline >= 1
  }

  // What a resolution worker holds after reading its work: the campaign version of its snapshot
  // and whether the turn's route is known to it.
  datatype Work = Work(turn: nat, epoch: nat, base: nat, expected: nat, routed: bool)

  // What a narration worker holds after reading its work.
  datatype Narrating = Narrating(turn: nat, epoch: nat, grounded: bool)

  // A worker that stops taking steps has crashed, so the works are never removed.
  datatype System = System(store: Store, works: set<Work>, narrators: set<Narrating>)

  datatype Step =
    | Tick(to: int)
    | AcceptTurn(expected: nat, budget: nat, admitted: bool)
    | ClaimTurn(blocked: bool)
    | ReadWork(turn: nat, epoch: nat)
    | RouteTurn(work: Work, routing: Routing)
    | PromoteTurn(work: Work)
    | ReserveForResolution(work: Work, admitted: bool, later: int)
    | FailResolution(turn: nat, epoch: nat)
    | CloseNotApplied(turn: nat, epoch: nat, text: string)
    | CommitTurn(work: Work, bundle: Bundle)
    | CommitStory(work: Work, authorized: bool, text: string)
    | ClaimForNarration(blocked: bool)
    | ReadNarration(turn: nat, epoch: nat)
    | ReserveForNarration(narrating: Narrating, admitted: bool, later: int)
    | FailNarration(turn: nat, epoch: nat)
    | SaveText(turn: nat, epoch: nat, text: string, fallback: Option<string>)

  predicate Enabled(s: System, step: Step) {
    var n := |s.store.turns|;
    match step
    case Tick(to) => to > s.store.now
    case AcceptTurn(_, budget, _) => 1 <= budget <= 3
    case ClaimTurn(_) => true
    case ReadWork(id, epoch) => id < n && Resolver(s.store.turns[id], epoch) && Held(s.store.turns[id].res, s.store.now)
    case RouteTurn(w, _) => w in s.works && w.turn < n && !w.routed
    case PromoteTurn(w) => w in s.works && w.turn < n
    case ReserveForResolution(w, _, _) => w in s.works && w.turn < n && w.routed
    case FailResolution(id, _) => id < n
    case CloseNotApplied(id, _, _) => id < n
    case CommitTurn(w, _) => w in s.works && w.turn < n && w.routed
    case CommitStory(w, _, _) => w in s.works && w.turn < n && w.routed
    case ClaimForNarration(_) => true
    case ReadNarration(id, epoch) => id < n && Narrator(s.store.turns[id], epoch)
      && Held(s.store.turns[id].nar, s.store.now)
    case ReserveForNarration(w, _, _) => w in s.narrators && w.turn < n && w.grounded
    case FailNarration(id, _) => id < n
    case SaveText(id, _, _, _) => id < n
  }

  // The store after a step, and the operation's reply
  function StoreStep(p: Policy, s: System, step: Step): (Store, Reply)
    requires Enabled(s, step)
  {
    var c := s.store;
    match step
    case Tick(to) => (c.(now := to), Done)
    case AcceptTurn(expected, budget, admitted) => Accept(c, expected, budget, admitted)
    case ClaimTurn(blocked) => Claim(c, p.resolution, blocked)
    case ReadWork(_, _) => (c, Done)
    case RouteTurn(w, r) => RecordRoute(c, w.turn, w.epoch, r)
    case PromoteTurn(w) => Promote(c, w.turn, w.epoch)
    case ReserveForResolution(w, admitted, later) => Reserve(c, w.turn, false, w.epoch, admitted, later)
    case FailResolution(id, epoch) => RecordFailure(c, id, false, epoch, p.resolution)
    case CloseNotApplied(id, epoch, text) => FinalizeNotApplied(c, id, epoch, text)
    case CommitTurn(w, b) => CommitResolution(c, w.turn, w.epoch, b.(base := w.base))
    case CommitStory(w, authorized, text) => CommitNarrative(c, w.turn, w.epoch, w.base, authorized, text)
    case ClaimForNarration(blocked) => ClaimNarration(c, p.narrating, blocked)
    case ReadNarration(_, _) => (c, Done)
    case ReserveForNarration(w, admitted, later) => Reserve(c, w.turn, true, w.epoch, admitted, later)
    case FailNarration(id, epoch) => RecordFailure(c, id, true, epoch, p.narrating)
    case SaveText(id, epoch, text, fallback) => SaveNarration(c, id, epoch, text, fallback)
  }

  function Perform(p: Policy, s: System, step: Step): System
    requires Enabled(s, step)
  {
    var (store, reply) := StoreStep(p, s, step);
    match step
    case ReadWork(id, epoch) =>
      var t := store.turns[id];
      s.(works := s.works + {Work(id, epoch, store.version, t.expected, t.route.Some?)})
    case RouteTurn(w, _) => System(store, if reply.Done? then s.works + {w.(routed := true)} else s.works, s.narrators)
    case ReadNarration(id, epoch) => s.(narrators := s.narrators + {Narrating(id, epoch, store.turns[id].input.Some?)})
    case _ => s.(store := store)
  }

  // ---- the invariant ----

  ghost predicate PhaseOk(p: Phase, now: int, limits: Limits) {
    && (p.started <==> p.deadline.Some?) && (p.started <==> p.attempts > 0) && (p.started <==> p.epoch > 0)
    && p.attempts <= limits.attempts
    && (p.next.Some? ==> p.next.value <= now)
  }

  ghost predicate CallsOk(t: Turn) {
    && 1 <= t.budget <= 3 && t.calls <= t.budget
    && (t.route == Some(Narrative) ==> t.calls <= 1) && (t.route.None? ==> t.calls == 0)
  }

  ghost predicate TextOk(t: Turn) {
    && (Narrated(t) <==> t.text.Some?) && (t.narration.Fallback? <==> t.recovery.Some?)
    && (t.input.Some? ==> t.resolution.Committed? && t.route == Some(Mechanical))
    && (t.resolution.Committed? && !Narrated(t) ==> t.input.Some?)
  }

  ghost predicate StatusOk(t: Turn) {
    && (t.committed.Some? <==> t.resolution.Committed?)
    && (t.committed.Some? ==> t.expected <= t.committed.value <= t.expected + 1 && t.route.Some?)
    && (t.resolution.Resolving? ==> t.res.lease.Some?) && (t.resolution.Pending? ==> t.res.lease.None?)
    && (!Resolved(t) ==> t.narration.Waiting? && t.nar == FRESH)
    && (t.narration.Generating? ==> t.nar.lease.Some?) && (t.narration.Waiting? ==> t.nar.lease.None?)
    && (t.resolution.NotApplied? ==> t.narration.Completed?)
  }

  ghost predicate RowOk(p: Policy, t: Turn, now: int) {
    PhaseOk(t.res, now, p.resolution) && PhaseOk(t.nar, now, p.narrating) && CallsOk(t) && TextOk(t) && StatusOk(t)
  }

  // The campaign's version once this turn is closed
  function VersionAfter(t: Turn): nat {
    if t.committed.Some? then t.committed.value else t.expected
  }

  // Only the newest turn may be open.
  ghost predicate OneOpen(turns: seq<Turn>) {
    forall i :: 0 <= i < |turns| - 1 ==> !Open(turns[i])
  }

  // Every turn starts from the version the turn before it left behind.
  ghost predicate Lineage(turns: seq<Turn>, version: nat) {
    && (forall i, j :: 0 <= i && j == i + 1 && j < |turns| ==> turns[j].expected == VersionAfter(turns[i]))
    && (turns != [] ==> version == VersionAfter(turns[|turns| - 1]))
  }

  function NarrationEvents(events: seq<Event>, id: nat): nat {
    if events == [] then 0
    else
      var last := events[|events| - 1];
      NarrationEvents(events[..|events| - 1], id) + (if last.narration && last.turn == id then 1 else 0)
  }

  // Sequences run from 1 without gaps, and a turn has one narration event exactly when it is narrated.
  ghost predicate LogOk(s: Store) {
    && |s.events| == s.sequence
    && (forall k :: 0 <= k < |s.events| ==> s.events[k].sequence == k + 1 && s.events[k].turn < |s.turns|)
    && (forall i :: 0 <= i < |s.turns| ==> NarrationEvents(s.events, i) == if Narrated(s.turns[i]) then 1 else 0)
  }

  ghost predicate LedgerOk(ledger: set<(nat, nat)>, turns: seq<Turn>) {
    forall i: nat, n: nat :: (i, n) in ledger <==> i < |turns| && 1 <= n <= turns[i].calls
  }

  ghost predicate RowsOk(p: Policy, s: Store) {
    forall i :: 0 <= i < |s.turns| ==> RowOk(p, s.turns[i], s.now)
  }

  ghost predicate StoreOk(p: Policy, s: Store) {
    RowsOk(p, s) && OneOpen(s.turns) && Lineage(s.turns, s.version) && LogOk(s) && LedgerOk(s.ledger, s.turns)
  }

  ghost predicate WorkOk(s: Store, w: Work) {
    && w.turn < |s.turns| && w.epoch <= s.turns[w.turn].res.epoch
    && w.base == w.expected == s.turns[w.turn].expected
    && (w.routed ==> s.turns[w.turn].route.Some?)
  }

  ghost predicate NarratingOk(s: Store, n: Narrating) {
    n.turn < |s.turns| && n.epoch <= s.turns[n.turn].nar.epoch && (n.grounded ==> s.turns[n.turn].input.Some?)
  }

  ghost predicate Invariant(p: Policy, s: System) {
    && StoreOk(p, s.store)
    && (forall w :: w in s.works ==> WorkOk(s.store, w))
    && (forall n :: n in s.narrators ==> NarratingOk(s.store, n))
  }

  // ---- how rows and stores evolve ----

  ghost predicate SameResolution(t: Turn, u: Turn) {
    t.resolution == u.resolution && t.committed == u.committed && t.route == u.route && t.routing == u.routing
      && t.input == u.input && t.res == u.res
  }

  ghost predicate RowEvolves(t: Turn, u: Turn) {
    && u.expected == t.expected && u.budget == t.budget && t.calls <= u.calls
    && t.res.epoch <= u.res.epoch && t.nar.epoch <= u.nar.epoch
    && t.res.attempts <= u.res.attempts && t.nar.attempts <= u.nar.attempts
    && (t.route.Some? ==> u.route.Some?) && (t.routing.Some? ==> u.routing == t.routing)
    && (Resolved(t) ==> SameResolution(t, u))
    && (!Open(t) ==> u == t)
  }

  ghost predicate Evolves(s: Store, t: Store) {
    && s.now <= t.now && s.version <= t.version
    && |s.turns| <= |t.turns| && s.events <= t.events && s.ledger <= t.ledger
    && forall i :: 0 <= i < |s.turns| ==> RowEvolves(s.turns[i], t.turns[i])
  }

  lemma EvolvesSelf(s: Store)
    ensures Evolves(s, s)
  {
  }

  lemma EvolvesOn(a: Store, b: Store, c: Store)
    requires Evolves(a, b) && Evolves(b, c)
    ensures Evolves(a, c)
  {
    forall i | 0 <= i < |a.turns| ensures RowEvolves(a.turns[i], c.turns[i]) {
      assert RowEvolves(a.turns[i], b.turns[i]) && RowEvolves(b.turns[i], c.turns[i]);
    }
    assert forall k :: 0 <= k < |a.events| ==> a.events[k] == b.events[k] == c.events[k];
  }

  // ---- the event log ----

  lemma {:induction false} CountOne(events: seq<Event>, e: Event, id: nat)
    ensures NarrationEvents(events + [e], id) ==
      NarrationEvents(events, id) + (if e.narration && e.turn == id then 1 else 0)
  {
    assert (events + [e])[..|events|] == events;
  }

  lemma {:induction false} CountSilent(events: seq<Event>, more: seq<Event>, id: nat)
    requires forall k :: 0 <= k < |more| ==> !more[k].narration
    ensures NarrationEvents(events + more, id) == NarrationEvents(events, id)
  {
    if more == [] {
      assert events + more == events;
    } else {
      var init, last := more[..|more| - 1], more[|more| - 1];
      CountSilent(events, init, id);
      assert events + more == (events + init) + [last];
      CountOne(events + init, last, id);
    }
  }

  lemma {:induction false} CountUnknown(events: seq<Event>, id: nat)
    requires forall k :: 0 <= k < |events| ==> events[k].turn < id
    ensures NarrationEvents(events, id) == 0
  {
    if events != [] { CountUnknown(events[..|events| - 1], id); }
  }

  // What an operation appends to the log
  function Entries(s: Store, id: nat, count: nat, version: nat, narration: bool): seq<Event> {
    seq(count, k requires 0 <= k < count => Event(id, s.sequence + 1 + k, version, narration))
  }

  lemma LogKept(s: Store, t: Store, id: nat, u: Turn, count: nat, version: nat, narration: bool)
    requires LogOk(s) && id < |s.turns| && t.turns == s.turns[id := u]
    requires t.sequence == s.sequence + count && t.events == s.events + Entries(s, id, count, version, narration)
    requires if Narrated(u) && !Narrated(s.turns[id]) then narration && count == 1
      else (Narrated(u) == Narrated(s.turns[id]) && (!narration || count == 0))
    ensures LogOk(t)
  {
    var more := Entries(s, id, count, version, narration);
    forall i | 0 <= i < |t.turns| ensures NarrationEvents(t.events, i) == if Narrated(t.turns[i]) then 1 else 0 {
      if narration && count == 1 {
        assert more == [Event(id, s.sequence + 1, version, true)];
        CountOne(s.events, more[0], i);
      } else {
        CountSilent(s.events, more, i);
      }
    }
  }

  // ---- one row changes ----

  // The effect of one operation on the open turn `id`
  ghost predicate Changes(p: Policy, s: Store, t: Store, id: nat, u: Turn) {
    && id < |s.turns| && Open(s.turns[id]) && t.turns == s.turns[id := u]
    && s.now <= t.now && RowOk(p, u, t.now) && RowEvolves(s.turns[id], u)
    && t.version == VersionAfter(u)
    && s.turns[id].calls <= u.calls <= s.turns[id].calls + 1
    && t.ledger == (if u.calls == s.turns[id].calls then s.ledger else s.ledger + {(id, u.calls)})
  }

  lemma ChangeKeeps(p: Policy, s: Store, t: Store, id: nat, u: Turn, count: nat, version: nat, narration: bool)
    requires StoreOk(p, s) && Changes(p, s, t, id, u)
    requires t.sequence == s.sequence + count && t.events == s.events + Entries(s, id, count, version, narration)
    requires if Narrated(u) && !Narrated(s.turns[id]) then narration && count == 1
      else (Narrated(u) == Narrated(s.turns[id]) && (!narration || count == 0))
    ensures StoreOk(p, t) && Evolves(s, t)
  {
    assert id == |s.turns| - 1;
    LogKept(s, t, id, u, count, version, narration);
    assert OneOpen(t.turns);
    LineageKept(p, s, t, id, u);
    LedgerKept(s, t, id, u);
    forall i | 0 <= i < |t.turns| ensures RowOk(p, t.turns[i], t.now) && RowEvolves(s.turns[i], t.turns[i]) {
      if i != id { assert RowOk(p, s.turns[i], s.now); }
    }
  }

  lemma LineageKept(p: Policy, s: Store, t: Store, id: nat, u: Turn)
    requires Lineage(s.turns, s.version) && Changes(p, s, t, id, u) && id == |s.turns| - 1
    requires RowOk(p, s.turns[id], s.now)
    ensures Lineage(t.turns, t.version) && s.version <= t.version
  {
    assert VersionAfter(s.turns[id]) <= VersionAfter(u);
  }

  lemma LedgerKept(s: Store, t: Store, id: nat, u: Turn)
    requires LedgerOk(s.ledger, s.turns) && id < |s.turns| && t.turns == s.turns[id := u]
    requires s.turns[id].calls <= u.calls <= s.turns[id].calls + 1
    requires t.ledger == (if u.calls == s.turns[id].calls then s.ledger else s.ledger + {(id, u.calls)})
    ensures LedgerOk(t.ledger, t.turns)
  {
  }

  // A change that logs nothing
  lemma QuietKeeps(p: Policy, s: Store, t: Store, id: nat, u: Turn)
    requires StoreOk(p, s) && Changes(p, s, t, id, u)
    requires t.sequence == s.sequence && t.events == s.events && Narrated(u) == Narrated(s.turns[id])
    ensures StoreOk(p, t) && Evolves(s, t)
  {
    assert s.events + Entries(s, id, 0, 0, false) == s.events;
    ChangeKeeps(p, s, t, id, u, 0, 0, false);
  }

  // An operation that logs events of its turn
  lemma LoggedKeeps(p: Policy, s: Store, id: nat, u: Turn, v: nat, count: nat, version: nat, narration: bool)
    requires StoreOk(p, s) && id < |s.turns|
      && Changes(p, s, Logged(Put(s, id, u).(version := v), id, count, version, narration), id, u)
    requires if Narrated(u) && !Narrated(s.turns[id]) then narration && count == 1
      else (Narrated(u) == Narrated(s.turns[id]) && (!narration || count == 0))
    ensures StoreOk(p, Logged(Put(s, id, u).(version := v), id, count, version, narration))
    ensures Evolves(s, Logged(Put(s, id, u).(version := v), id, count, version, narration))
  {
    var t := Logged(Put(s, id, u).(version := v), id, count, version, narration);
    assert t.events == s.events + Entries(s, id, count, version, narration);
    ChangeKeeps(p, s, t, id, u, count, version, narration);
  }

  lemma OpenIsCurrent(p: Policy, s: Store, id: nat)
    requires StoreOk(p, s) && id < |s.turns| && Open(s.turns[id])
    ensures id == |s.turns| - 1 && RowOk(p, s.turns[id], s.now) && s.version == VersionAfter(s.turns[id])
  {
  }

  // ---- every operation keeps the store ----

  lemma TickKeeps(p: Policy, s: Store, to: int)
    requires StoreOk(p, s) && s.now <= to
    ensures StoreOk(p, s.(now := to)) && Evolves(s, s.(now := to))
  {
    forall i | 0 <= i < |s.turns| ensures RowOk(p, s.turns[i], to) { assert RowOk(p, s.turns[i], s.now); }
  }

  lemma AcceptedLog(s: Store, t: Store, u: Turn)
    requires LogOk(s) && t == s.(turns := s.turns + [u]) && !Narrated(u)
    ensures LogOk(t)
  {
    CountUnknown(s.events, |s.turns|);
  }

  lemma AcceptedRows(p: Policy, s: Store, expected: nat, budget: nat)
    requires RowsOk(p, s) && 1 <= budget <= 3
    ensures RowsOk(p, s.(turns := s.turns + [NewTurn(expected, budget)]))
  {
    assert RowOk(p, NewTurn(expected, budget), s.now);
  }

  lemma AcceptKeeps(p: Policy, s: Store, expected: nat, budget: nat, admitted: bool)
    requires StoreOk(p, s) && 1 <= budget <= 3
    ensures StoreOk(p, Accept(s, expected, budget, admitted).0) && Evolves(s, Accept(s, expected, budget, admitted).0)
  {
    var t := Accept(s, expected, budget, admitted).0;
    if t != s {
      AcceptedLog(s, t, NewTurn(expected, budget));
      AcceptedRows(p, s, expected, budget);
      assert OneOpen(t.turns) by {
        forall i | 0 <= i < |t.turns| - 1 ensures !Open(t.turns[i]) { assert !Open(s.turns[i]); }
      }
    }
  }

  lemma ClaimKeeps(p: Policy, s: Store, blocked: bool)
    requires StoreOk(p, s)
    ensures StoreOk(p, Claim(s, p.resolution, blocked).0) && Evolves(s, Claim(s, p.resolution, blocked).0)
  {
    var t := Claim(s, p.resolution, blocked).0;
    if t != s {
      var id := FirstClaimable(s, p.resolution, false, 0);
      OpenIsCurrent(p, s, id);
      QuietKeeps(p, s, t, id, t.turns[id]);
    }
  }

  lemma ClaimNarrationKeeps(p: Policy, s: Store, blocked: bool)
    requires StoreOk(p, s)
    ensures StoreOk(p, ClaimNarration(s, p.narrating, blocked).0)
      && Evolves(s, ClaimNarration(s, p.narrating, blocked).0)
  {
    var t := ClaimNarration(s, p.narrating, blocked).0;
    if t != s {
      var id := FirstClaimable(s, p.narrating, true, 0);
      OpenIsCurrent(p, s, id);
      QuietKeeps(p, s, t, id, t.turns[id]);
    }
  }

  lemma RouteKeeps(p: Policy, s: Store, id: nat, epoch: nat, r: Routing)
    requires StoreOk(p, s) && id < |s.turns|
    ensures StoreOk(p, RecordRoute(s, id, epoch, r).0) && Evolves(s, RecordRoute(s, id, epoch, r).0)
    ensures RecordRoute(s, id, epoch, r).1.Done? ==> RecordRoute(s, id, epoch, r).0.turns[id].route.Some?
  {
    if AcceptsRoute(s.turns[id], epoch, s.now, r) {
      OpenIsCurrent(p, s, id);
      QuietKeeps(p, s, RecordRoute(s, id, epoch, r).0, id, Routed(s.turns[id], r));
    }
  }

  lemma PromoteKeeps(p: Policy, s: Store, id: nat, epoch: nat)
    requires StoreOk(p, s) && id < |s.turns|
    ensures StoreOk(p, Promote(s, id, epoch).0) && Evolves(s, Promote(s, id, epoch).0)
  {
    var t := Promote(s, id, epoch).0;
    if t != s {
      OpenIsCurrent(p, s, id);
      QuietKeeps(p, s, t, id, t.turns[id]);
    }
  }

  lemma ReserveKeeps(p: Policy, s: Store, id: nat, narration: bool, epoch: nat, admitted: bool, later: int)
    requires StoreOk(p, s) && id < |s.turns| && s.turns[id].route.Some?
    ensures StoreOk(p, Reserve(s, id, narration, epoch, admitted, later).0)
      && Evolves(s, Reserve(s, id, narration, epoch, admitted, later).0)
  {
    var (t, reply) := Reserve(s, id, narration, epoch, admitted, later);
    if reply.Done? {
      assert Open(s.turns[id]) by { assert RowOk(p, s.turns[id], s.now); }
      OpenIsCurrent(p, s, id);
      QuietKeeps(p, s, t, id, t.turns[id]);
    } else {
      TickKeeps(p, s, t.now);
    }
  }

  lemma FailureKeeps(p: Policy, s: Store, id: nat, epoch: nat)
    requires StoreOk(p, s) && id < |s.turns|
    ensures StoreOk(p, RecordFailure(s, id, false, epoch, p.resolution).0)
      && Evolves(s, RecordFailure(s, id, false, epoch, p.resolution).0)
  {
    var (t, reply) := RecordFailure(s, id, false, epoch, p.resolution);
    if reply != Refused {
      OpenIsCurrent(p, s, id);
      QuietKeeps(p, s, t, id, ResolutionFailed(s.turns[id], s.now, p.resolution));
    }
  }

  lemma NarrationFailureKeeps(p: Policy, s: Store, id: nat, epoch: nat)
    requires StoreOk(p, s) && id < |s.turns|
    ensures StoreOk(p, RecordFailure(s, id, true, epoch, p.narrating).0)
      && Evolves(s, RecordFailure(s, id, true, epoch, p.narrating).0)
  {
    var (t, reply) := RecordFailure(s, id, true, epoch, p.narrating);
    if reply != Refused {
      OpenIsCurrent(p, s, id);
      QuietKeeps(p, s, t, id, NarrationFailed(s.turns[id], s.now, p.narrating));
    }
  }

  lemma NotAppliedKeeps(p: Policy, s: Store, id: nat, epoch: nat, text: string)
    requires StoreOk(p, s) && id < |s.turns|
    ensures StoreOk(p, FinalizeNotApplied(s, id, epoch, text).0) && Evolves(s, FinalizeNotApplied(s, id, epoch, text).0)
  {
    var t := FinalizeNotApplied(s, id, epoch, text).0;
    if t != s {
      OpenIsCurrent(p, s, id);
      assert Put(s, id, t.turns[id]).(version := s.version) == Put(s, id, t.turns[id]);
      LoggedKeeps(p, s, id, t.turns[id], s.version, 1, s.version, true);
    }
  }

  lemma CommitKeeps(p: Policy, s: Store, id: nat, epoch: nat, b: Bundle)
    requires StoreOk(p, s) && id < |s.turns|
    ensures StoreOk(p, CommitResolution(s, id, epoch, b).0) && Evolves(s, CommitResolution(s, id, epoch, b).0)
  {
    var t := CommitResolution(s, id, epoch, b).0;
    if t != s {
      OpenIsCurrent(p, s, id);
      CommitChanges(p, s, id, epoch, b);
      LoggedKeeps(p, s, id, t.turns[id], t.version, b.events, t.version, false);
    }
  }

  lemma CommitChanges(p: Policy, s: Store, id: nat, epoch: nat, b: Bundle)
    requires id < |s.turns| && Open(s.turns[id]) && RowOk(p, s.turns[id], s.now)
    requires s.version == VersionAfter(s.turns[id]) && CommitResolution(s, id, epoch, b).0 != s
    ensures var t := CommitResolution(s, id, epoch, b).0;
      && Changes(p, s, t, id, t.turns[id]) && Narrated(t.turns[id]) == Narrated(s.turns[id])
      && t == Logged(Put(s, id, t.turns[id]).(version := t.version), id, b.events, t.version, false)
  {
  }

  lemma CommitNarrativeKeeps(p: Policy, s: Store, id: nat, epoch: nat, base: nat, authorized: bool, text: string)
    requires StoreOk(p, s) && id < |s.turns|
    ensures StoreOk(p, CommitNarrative(s, id, epoch, base, authorized, text).0)
      && Evolves(s, CommitNarrative(s, id, epoch, base, authorized, text).0)
  {
    var t := CommitNarrative(s, id, epoch, base, authorized, text).0;
    if t != s {
      OpenIsCurrent(p, s, id);
      assert Put(s, id, t.turns[id]).(version := s.version) == Put(s, id, t.turns[id]);
      LoggedKeeps(p, s, id, t.turns[id], s.version, 1, s.version, true);
    }
  }

  lemma SaveKeeps(p: Policy, s: Store, id: nat, epoch: nat, text: string, fallback: Option<string>)
    requires StoreOk(p, s) && id < |s.turns|
    ensures StoreOk(p, SaveNarration(s, id, epoch, text, fallback).0)
      && Evolves(s, SaveNarration(s, id, epoch, text, fallback).0)
  {
    var t := SaveNarration(s, id, epoch, text, fallback).0;
    if t != s {
      OpenIsCurrent(p, s, id);
      assert Put(s, id, t.turns[id]).(version := s.version) == Put(s, id, t.turns[id]);
      LoggedKeeps(p, s, id, t.turns[id], s.version, 1,
          if t.turns[id].committed.Some? then t.turns[id].committed.value else s.version, true);
    }
  }

  lemma StoreStepKeeps(p: Policy, s: System, step: Step)
    requires Invariant(p, s) && Enabled(s, step)
    ensures StoreOk(p, StoreStep(p, s, step).0) && Evolves(s.store, StoreStep(p, s, step).0)
  {
    var c := s.store;
    match step
    case Tick(to) => TickKeeps(p, c, to);
    case AcceptTurn(expected, budget, admitted) => AcceptKeeps(p, c, expected, budget, admitted);
    case ClaimTurn(blocked) => ClaimKeeps(p, c, blocked);
    case ReadWork(_, _) => EvolvesSelf(c);
    case RouteTurn(w, r) => RouteKeeps(p, c, w.turn, w.epoch, r);
    case PromoteTurn(w) => PromoteKeeps(p, c, w.turn, w.epoch);
    case ReserveForResolution(w, admitted, later) => ReserveKeeps(p, c, w.turn, false, w.epoch, admitted, later);
    case FailResolution(id, epoch) => FailureKeeps(p, c, id, epoch);
    case CloseNotApplied(id, epoch, text) => NotAppliedKeeps(p, c, id, epoch, text);
    case CommitTurn(w, b) => CommitKeeps(p, c, w.turn, w.epoch, b.(base := w.base));
    case CommitStory(w, authorized, text) => CommitNarrativeKeeps(p, c, w.turn, w.epoch, w.base, authorized, text);
    case ClaimForNarration(blocked) => ClaimNarrationKeeps(p, c, blocked);
    case ReadNarration(_, _) => EvolvesSelf(c);
    case ReserveForNarration(w, admitted, later) =>
      assert RowOk(p, c.turns[w.turn], c.now);
      ReserveKeeps(p, c, w.turn, true, w.epoch, admitted, later);
    case FailNarration(id, epoch) => NarrationFailureKeeps(p, c, id, epoch);
    case SaveText(id, epoch, text, fallback) => SaveKeeps(p, c, id, epoch, text, fallback);
  }

  lemma WorkersKept(s: Store, t: Store, works: set<Work>, narrators: set<Narrating>)
    requires Evolves(s, t)
    requires (forall w :: w in works ==> WorkOk(s, w)) && (forall n :: n in narrators ==> NarratingOk(s, n))
    requires forall i :: 0 <= i < |s.turns| && s.turns[i].input.Some? ==> Resolved(s.turns[i])
    ensures (forall w :: w in works ==> WorkOk(t, w)) && (forall n :: n in narrators ==> NarratingOk(t, n))
  {
    forall w | w in works ensures WorkOk(t, w) {
      assert WorkOk(s, w) && RowEvolves(s.turns[w.turn], t.turns[w.turn]);
    }
    forall n | n in narrators ensures NarratingOk(t, n) {
      assert NarratingOk(s, n) && RowEvolves(s.turns[n.turn], t.turns[n.turn]);
    }
  }

  // Every step of every worker keeps the invariant.
  lemma StepKeeps(p: Policy, s: System, step: Step)
    requires Invariant(p, s) && Enabled(s, step)
    ensures Invariant(p, Perform(p, s, step)) && Evolves(s.store, Perform(p, s, step).store)
  {
    var t := Perform(p, s, step);
    StoreStepKeeps(p, s, step);
    forall i | 0 <= i < |s.store.turns| && s.store.turns[i].input.Some? ensures Resolved(s.store.turns[i]) {
      assert RowOk(p, s.store.turns[i], s.store.now);
    }
    WorkersKept(s.store, t.store, s.works, s.narrators);
    match step
    case ReadWork(id, epoch) => OpenIsCurrent(p, s.store, id);
    case RouteTurn(w, r) => RouteKeeps(p, s.store, w.turn, w.epoch, r);
    case _ =>
  }
}
