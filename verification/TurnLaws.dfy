/** What the turn protocol guarantees over whole runs. */
module TurnLaws {
  import opened Outcomes
  import opened Turns
  import opened TurnProtocol

  // ---- runs ----

  function Initial(now: int, version: nat): System {
    System(Store(now, version, 0, [], [], {}), {}, {})
  }

  ghost predicate Next(p: Policy, s: System, t: System) {
    exists step :: Enabled(s, step) && t == Perform(p, s, step)
  }

  ghost predicate Behavior(p: Policy, run: seq<System>) {
    && run != [] && (exists now, version :: run[0] == Initial(now, version))
    && forall i, j :: 0 <= i && j == i + 1 && j < |run| ==> Next(p, run[i], run[j])
  }

  lemma NextKeeps(p: Policy, s: System, t: System)
    requires Invariant(p, s) && Next(p, s, t)
    ensures Invariant(p, t) && Evolves(s.store, t.store)
  {
    var step :| Enabled(s, step) && t == Perform(p, s, step);
    StepKeeps(p, s, step);
  }

  // The invariant holds in every state of every run.
  lemma {:induction false} AlwaysInvariant(p: Policy, run: seq<System>, i: nat)
    requires Behavior(p, run) && i < |run|
    ensures Invariant(p, run[i])
    ensures i > 0 ==> Evolves(run[i - 1].store, run[i].store)
  {
    if i > 0 {
      AlwaysInvariant(p, run, i - 1);
      assert Next(p, run[i - 1], run[i]);
      NextKeeps(p, run[i - 1], run[i]);
    }
  }

  lemma EachStepEvolves(p: Policy, run: seq<System>)
    requires Behavior(p, run)
    ensures forall a, b :: 0 <= a && b == a + 1 && b < |run| ==> Evolves(run[a].store, run[b].store)
  {
    forall a, b | 0 <= a && b == a + 1 && b < |run| ensures Evolves(run[a].store, run[b].store) {
      AlwaysInvariant(p, run, b);
    }
  }

  lemma {:induction false} EvolvesChain(run: seq<System>, i: nat, j: nat)
    requires forall a, b :: 0 <= a && b == a + 1 && b < |run| ==> Evolves(run[a].store, run[b].store)
    requires i <= j < |run|
    ensures Evolves(run[i].store, run[j].store)
  {
    if i == j {
      EvolvesSelf(run[i].store);
    } else {
      EvolvesChain(run, i, j - 1);
      EvolvesOn(run[i].store, run[j - 1].store, run[j].store);
    }
  }

  // Terminal statuses, committed versions and results never change, epochs and the event log only grow.
  lemma AlwaysEvolves(p: Policy, run: seq<System>, i: nat, j: nat)
    requires Behavior(p, run) && i <= j < |run|
    ensures Evolves(run[i].store, run[j].store)
  {
    EachStepEvolves(p, run);
    EvolvesChain(run, i, j);
  }

  // ---- one open turn at the current version ----

  // At most one turn is open, and an unresolved turn was accepted at the campaign's version.
  lemma OpenTurnIsCurrent(p: Policy, run: seq<System>, k: nat, a: nat, b: nat)
    requires Behavior(p, run) && k < |run| && a < |run[k].store.turns| && b < |run[k].store.turns|
    ensures Open(run[k].store.turns[a]) && Open(run[k].store.turns[b]) ==> a == b
    ensures !Resolved(run[k].store.turns[a]) ==> run[k].store.turns[a].expected == run[k].store.version
  {
    AlwaysInvariant(p, run, k);
    OneTurnAtVersion(p, run[k].store, a, b);
  }

  lemma OneTurnAtVersion(p: Policy, s: Store, a: nat, b: nat)
    requires StoreOk(p, s) && a < |s.turns| && b < |s.turns|
    ensures Open(s.turns[a]) && Open(s.turns[b]) ==> a == b
    ensures !Resolved(s.turns[a]) ==> s.turns[a].expected == s.version
  {
    assert RowOk(p, s.turns[a], s.now);
  }

  // No commit of a worker ever finds that the campaign's version has moved on.
  lemma NoVersionConflict(p: Policy, run: seq<System>, k: nat, w: Work, b: Bundle, authorized: bool, text: string)
    requires Behavior(p, run) && k < |run| && w in run[k].works
    ensures w.turn < |run[k].store.turns| && w.base == w.expected
    ensures CommitResolution(run[k].store, w.turn, w.epoch, b.(base := w.base)).1 != Conflict
    ensures CommitNarrative(run[k].store, w.turn, w.epoch, w.base, authorized, text).1 != Conflict
  {
    AlwaysInvariant(p, run, k);
    assert WorkOk(run[k].store, w);
    OpenTurnIsCurrent(p, run, k, w.turn, w.turn);
  }

  // ---- fencing ----

  // A worker whose epoch is not the latest, or whose lease has run out, changes nothing.
  ghost predicate Fenced(s: Store, id: nat, epoch: nat) {
    id < |s.turns| && !(Resolver(s.turns[id], epoch) && Held(s.turns[id].res, s.now))
  }

  ghost predicate NarrationFenced(s: Store, id: nat, epoch: nat) {
    id < |s.turns| && !(Narrator(s.turns[id], epoch) && Held(s.turns[id].nar, s.now))
  }

  lemma FencedResolution(p: Policy, s: Store, id: nat, epoch: nat)
    requires Fenced(s, id, epoch)
    ensures forall r :: RecordRoute(s, id, epoch, r).0 == s
    ensures Promote(s, id, epoch).0 == s
    ensures forall admitted, later :: Reserve(s, id, false, epoch, admitted, later).0 == s
    ensures RecordFailure(s, id, false, epoch, p.resolution).0 == s
    ensures forall text :: FinalizeNotApplied(s, id, epoch, text).0 == s
    ensures forall b :: CommitResolution(s, id, epoch, b).0 == s
    ensures forall base, authorized, text :: CommitNarrative(s, id, epoch, base, authorized, text).0 == s
  {
  }

  lemma FencedNarration(p: Policy, s: Store, id: nat, epoch: nat)
    requires NarrationFenced(s, id, epoch)
    ensures forall admitted, later :: Reserve(s, id, true, epoch, admitted, later).0 == s
    ensures RecordFailure(s, id, true, epoch, p.narrating).0 == s
    ensures forall text, fallback :: SaveNarration(s, id, epoch, text, fallback).0 == s
  {
  }

  // Step i of the run leases the turn for its resolution.
  ghost predicate ClaimsAt(p: Policy, run: seq<System>, i: nat, id: nat) {
    && i + 1 < |run| && id < |run[i].store.turns|
    && exists blocked ::
      && run[i + 1] == Perform(p, run[i], ClaimTurn(blocked))
      && Claim(run[i].store, p.resolution, blocked).1.Leased? && Claim(run[i].store, p.resolution, blocked).1.turn == id
  }

  // Step i of the run leases the turn for its narration.
  ghost predicate ClaimsNarrationAt(p: Policy, run: seq<System>, i: nat, id: nat) {
    && i + 1 < |run| && id < |run[i].store.turns|
    && exists blocked ::
      && run[i + 1] == Perform(p, run[i], ClaimForNarration(blocked))
      && ClaimNarration(run[i].store, p.narrating, blocked).1.Leased?
        && ClaimNarration(run[i].store, p.narrating, blocked).1.turn == id
  }

  // A claim gives out an epoch that no worker has held, so every earlier worker of the turn is
  // fenced from then on, whatever steps follow.
  lemma ClaimFencesForever(p: Policy, run: seq<System>, i: nat, j: nat, id: nat, epoch: nat)
    requires Behavior(p, run) && i < j < |run| && ClaimsAt(p, run, i, id)
    requires epoch <= run[i].store.turns[id].res.epoch
    ensures Fenced(run[j].store, id, epoch)
  {
    AlwaysEvolves(p, run, i + 1, j);
    assert RowEvolves(run[i + 1].store.turns[id], run[j].store.turns[id]);
  }

  lemma NarrationClaimFencesForever(p: Policy, run: seq<System>, i: nat, j: nat, id: nat, epoch: nat)
    requires Behavior(p, run) && i < j < |run| && ClaimsNarrationAt(p, run, i, id)
    requires epoch <= run[i].store.turns[id].nar.epoch
    ensures NarrationFenced(run[j].store, id, epoch)
  {
    AlwaysEvolves(p, run, i + 1, j);
    assert RowEvolves(run[i + 1].store.turns[id], run[j].store.turns[id]);
  }

  // Works hold epochs that were given out before.
  lemma WorksAreOlder(p: Policy, run: seq<System>, i: nat)
    requires Behavior(p, run) && i < |run|
    ensures forall w :: w in run[i].works ==>
      w.turn < |run[i].store.turns| && w.epoch <= run[i].store.turns[w.turn].res.epoch
    ensures forall n :: n in run[i].narrators ==>
      n.turn < |run[i].store.turns| && n.epoch <= run[i].store.turns[n.turn].nar.epoch
  {
    AlwaysInvariant(p, run, i);
    forall w | w in run[i].works
      ensures w.turn < |run[i].store.turns| && w.epoch <= run[i].store.turns[w.turn].res.epoch
    {
      assert WorkOk(run[i].store, w);
    }
    forall n | n in run[i].narrators
      ensures n.turn < |run[i].store.turns| && n.epoch <= run[i].store.turns[n.turn].nar.epoch
    {
      assert NarratingOk(run[i].store, n);
    }
  }

  // The turn and the epoch a step of a resolution worker is done under
  function ResolverOf(step: Step): Option<(nat, nat)> {
    match step
    case RouteTurn(w, _) => Some((w.turn, w.epoch))
    case PromoteTurn(w) => Some((w.turn, w.epoch))
    case ReserveForResolution(w, _, _) => Some((w.turn, w.epoch))
    case FailResolution(id, epoch) => Some((id, epoch))
    case CloseNotApplied(id, epoch, _) => Some((id, epoch))
    case CommitTurn(w, _) => Some((w.turn, w.epoch))
    case CommitStory(w, _, _) => Some((w.turn, w.epoch))
    case _ => None
  }

  // The turn and the epoch a step of a narration worker is done under
  function NarratorOf(step: Step): Option<(nat, nat)> {
    match step
    case ReserveForNarration(n, _, _) => Some((n.turn, n.epoch))
    case FailNarration(id, epoch) => Some((id, epoch))
    case SaveText(id, epoch, _, _) => Some((id, epoch))
    case _ => None
  }

  // Once a turn has been claimed again, no step done under an earlier epoch changes the store.
  lemma StaleWorkIsInert(p: Policy, run: seq<System>, i: nat, j: nat, step: Step, id: nat, epoch: nat)
    requires Behavior(p, run) && i < j < |run| && ClaimsAt(p, run, i, id)
    requires Enabled(run[j], step) && ResolverOf(step) == Some((id, epoch)) && epoch <= run[i].store.turns[id].res.epoch
    ensures Perform(p, run[j], step).store == run[j].store
  {
    ClaimFencesForever(p, run, i, j, id, epoch);
    FencedResolution(p, run[j].store, id, epoch);
  }

  lemma StaleNarrationIsInert(p: Policy, run: seq<System>, i: nat, j: nat, step: Step, id: nat, epoch: nat)
    requires Behavior(p, run) && i < j < |run| && ClaimsNarrationAt(p, run, i, id)
    requires Enabled(run[j], step) && NarratorOf(step) == Some((id, epoch)) && epoch <= run[i].store.turns[id].nar.epoch
    ensures Perform(p, run[j], step).store == run[j].store
  {
    NarrationClaimFencesForever(p, run, i, j, id, epoch);
    FencedNarration(p, run[j].store, id, epoch);
  }

  // A worker that read a turn before it was claimed again, and has not stopped, changes nothing any more.
  lemma SupersededWorker(p: Policy, run: seq<System>, i: nat, j: nat, step: Step, w: Work)
    requires Behavior(p, run) && i < j < |run| && w in run[i].works
    requires Enabled(run[j], step) && ResolverOf(step) == Some((w.turn, w.epoch)) && ClaimsAt(p, run, i, w.turn)
    ensures Perform(p, run[j], step).store == run[j].store
  {
    WorksAreOlder(p, run, i);
    StaleWorkIsInert(p, run, i, j, step, w.turn, w.epoch);
  }

  lemma SupersededNarrator(p: Policy, run: seq<System>, i: nat, j: nat, step: Step, n: Narrating)
    requires Behavior(p, run) && i < j < |run| && n in run[i].narrators
    requires Enabled(run[j], step) && NarratorOf(step) == Some((n.turn, n.epoch))
      && ClaimsNarrationAt(p, run, i, n.turn)
    ensures Perform(p, run[j], step).store == run[j].store
  {
    WorksAreOlder(p, run, i);
    StaleNarrationIsInert(p, run, i, j, step, n.turn, n.epoch);
  }

  // A commit replayed on a committed turn answers the version committed first, at any later time.
  lemma ReplayedCommit(p: Policy, run: seq<System>, i: nat, j: nat, id: nat, epoch: nat, b: Bundle)
    requires Behavior(p, run) && i <= j < |run| && id < |run[i].store.turns|
      && run[i].store.turns[id].resolution.Committed?
    ensures id < |run[j].store.turns|
    ensures run[i].store.turns[id].committed.Some?
    ensures CommitResolution(run[j].store, id, epoch, b) ==
      (run[j].store, AtVersion(run[i].store.turns[id].committed.value))
  {
    AlwaysInvariant(p, run, i);
    AlwaysEvolves(p, run, i, j);
    assert RowOk(p, run[i].store.turns[id], run[i].store.now);
    assert RowEvolves(run[i].store.turns[id], run[j].store.turns[id]);
  }

  // ---- the call budget ----

  // The table's check that a narrative turn has made at most one call
  predicate NarrativeCheck(t: Turn) {
    t.route == Some(Narrative) ==> t.calls <= 1
  }

  // Recording a route breaks that check exactly when a narrative route comes after two calls.
  lemma RouteAfterCalls(t: Turn, r: Routing)
    requires NarrativeCheck(t)
    ensures NarrativeCheck(Routed(t, r)) <==> !(t.route.None? && r.route.Narrative? && t.calls >= 2)
  {
  }

  // Such a row needs a worker that reserves calls before it has recorded a route.
  lemma ReservingBeforeRouting(r: Routing, limits: Limits)
    requires r.route.Narrative? && limits.lease >= 1 && limits.deadline >= 1 && limits.attempts >= 1
    ensures
      var s0 := Store(0, 0, 0, [NewTurn(0, 3)], [], {});
      var s1 := Claim(s0, limits, false).0;
      |s1.turns| == 1 &&
      var s2 := Reserve(s1, 0, false, 1, true, 0).0;
      |s2.turns| == 1 &&
      var s3 := Reserve(s2, 0, false, 1, true, 0).0;
      |s3.turns| == 1 &&
      var s4 := RecordRoute(s3, 0, 1, r).0;
      |s4.turns| == 1 && s4.turns[0].calls == 2 && !NarrativeCheck(s4.turns[0])
  {
    var s0 := Store(0, 0, 0, [NewTurn(0, 3)], [], {});
    assert FirstClaimable(s0, limits, false, 0) == 0;
    var s1 := Claim(s0, limits, false).0;
    var s2 := Reserve(s1, 0, false, 1, true, 0).0;
    assert s2.turns[0].calls == 1;
  }

  // In every run of workers: calls stay within the budget, at most one while the route is
  // narrative, and the ledger holds exactly the keys 1..calls of every turn.
  lemma CallsAreBudgeted(p: Policy, run: seq<System>, k: nat, id: nat, n: nat)
    requires Behavior(p, run) && k < |run| && id < |run[k].store.turns|
    ensures run[k].store.turns[id].calls <= run[k].store.turns[id].budget <= 3 && NarrativeCheck(run[k].store.turns[id])
    ensures (id, n) in run[k].store.ledger <==> 1 <= n <= run[k].store.turns[id].calls
  {
    AlwaysInvariant(p, run, k);
    assert RowOk(p, run[k].store.turns[id], run[k].store.now);
  }

  // ---- the event log ----

  // Events are numbered 1..sequence, are never rewritten, and a turn has one narration event when
  // it is narrated and none before.
  lemma {:induction false} EventLog(p: Policy, run: seq<System>, i: nat, j: nat, id: nat)
    requires Behavior(p, run) && i <= j < |run| && id < |run[j].store.turns|
    ensures |run[j].store.events| == run[j].store.sequence
    ensures forall k :: 0 <= k < run[j].store.sequence ==> run[j].store.events[k].sequence == k + 1
    ensures run[i].store.events <= run[j].store.events
    ensures NarrationEvents(run[j].store.events, id) == if Narrated(run[j].store.turns[id]) then 1 else 0
  {
    AlwaysInvariant(p, run, j);
    AlwaysEvolves(p, run, i, j);
  }

  // Versions are handed on from turn to turn.
  lemma VersionsHandedOn(p: Policy, run: seq<System>, k: nat, id: nat)
    requires Behavior(p, run) && k < |run| && id + 1 < |run[k].store.turns|
    ensures run[k].store.turns[id + 1].expected == VersionAfter(run[k].store.turns[id])
    ensures run[k].store.turns[id].committed.Some? ==>
      run[k].store.turns[id].expected <= run[k].store.turns[id].committed.value <= run[k].store.turns[id].expected + 1
  {
    AlwaysInvariant(p, run, k);
    assert RowOk(p, run[k].store.turns[id], run[k].store.now);
  }

  // ---- no turn is stuck ----

  // Once the clock has passed the lease, an open turn can be claimed for the phase it is in.
  lemma ClaimIsEnabled(p: Policy, s: Store, id: nat)
    requires StoreOk(p, s) && Sane(p) && id < |s.turns| && Open(s.turns[id])
    requires s.turns[id].resolution.Resolving? ==> LeaseOver(s.turns[id].res, s.now)
    requires s.turns[id].narration.Generating? ==> LeaseOver(s.turns[id].nar, s.now)
    ensures !Resolved(s.turns[id]) ==>
      Claimable(s.turns[id], s.now, p.resolution) && Claim(s, p.resolution, false).1.Leased?
        && Claim(s, p.resolution, false).1.turn == id
    ensures Resolved(s.turns[id]) ==>
      NarrationClaimable(s.turns[id], s.now, p.narrating) && ClaimNarration(s, p.narrating, false).1.Leased?
        && ClaimNarration(s, p.narrating, false).1.turn == id
  {
    OpenIsCurrent(p, s, id);
    if !Resolved(s.turns[id]) {
      assert Claimable(s.turns[id], s.now, p.resolution);
      OnlyClaimable(p, s, id, false, p.resolution, 0);
    } else {
      assert NarrationClaimable(s.turns[id], s.now, p.narrating);
      OnlyClaimable(p, s, id, true, p.narrating, 0);
    }
  }

  lemma {:induction false} OnlyClaimable(p: Policy, s: Store, id: nat, narration: bool, limits: Limits, i: nat)
    requires OneOpen(s.turns) && id == |s.turns| - 1 && i <= id
    requires if narration then NarrationClaimable(s.turns[id], s.now, limits) else Claimable(s.turns[id], s.now, limits)
    ensures FirstClaimable(s, limits, narration, i) == id
  {
    var r := FirstClaimable(s, limits, narration, i);
    assert r < id ==> !Open(s.turns[r]);
  }

  // Claims that are not cleanups are counted, and never exceed the limit of their phase.
  lemma AttemptsAreLimited(p: Policy, s: Store, blocked: bool)
    requires StoreOk(p, s)
    ensures var (t, reply) := Claim(s, p.resolution, blocked);
      reply.Leased? ==>
        reply.turn < |s.turns| && t.turns[reply.turn].res.attempts ==
          s.turns[reply.turn].res.attempts + (if reply.cleanup then 0 else 1) <= p.resolution.attempts
    ensures var (t, reply) := ClaimNarration(s, p.narrating, blocked);
      reply.Leased? ==>
        reply.turn < |s.turns| && t.turns[reply.turn].nar.attempts ==
          s.turns[reply.turn].nar.attempts + (if reply.cleanup then 0 else 1) <= p.narrating.attempts
  {
    ClaimKeeps(p, s, blocked);
    ClaimNarrationKeeps(p, s, blocked);
    var (t, reply) := Claim(s, p.resolution, blocked);
    if reply.Leased? { assert RowOk(p, t.turns[reply.turn], t.now); }
    var (u, answer) := ClaimNarration(s, p.narrating, blocked);
    if answer.Leased? { assert RowOk(p, u.turns[answer.turn], u.now); }
  }

  function At(s: Store, now: int): Store {
    s.(now := if now > s.now then now else s.now)
  }

  // The narration half of a cleanup: a fallback saved within the new lease closes the turn.
  lemma FallbackCloses(p: Policy, s: Store, id: nat, epoch: nat, now: int, text: string, code: string)
    requires StoreOk(p, s) && id < |s.turns| && Resolved(s.turns[id])
    requires Narrator(s.turns[id], epoch) && s.turns[id].nar.lease.Some? && s.now <= now < s.turns[id].nar.lease.value
    ensures SaveNarration(At(s, now), id, epoch, text, Some(code)).1.Done?
    ensures !Open(SaveNarration(At(s, now), id, epoch, text, Some(code)).0.turns[id])
  {
  }

  // A terminal cleanup of the resolution: the failure it records is final, the narration it then
  // claims is fresh, and the fallback it saves closes the turn.
  lemma ResolutionCleanupCloses(p: Policy, s: Store, t1: int, t2: int, t3: int, text: string, code: string)
    requires StoreOk(p, s) && Sane(p)
    requires Claim(s, p.resolution, false).1.Leased? && Claim(s, p.resolution, false).1.cleanup
    requires s.now <= t1 < s.now + p.resolution.lease && t1 <= t2 <= t3 < t2 + p.narrating.lease
    ensures
      var (s1, claim) := Claim(s, p.resolution, false);
      var id := claim.turn;
      id < |s1.turns| &&
      var (s2, failed) := RecordFailure(At(s1, t1), id, false, claim.epoch, p.resolution);
      failed.Terminal? && id < |s2.turns| &&
      var (s3, lease) := ClaimNarration(At(s2, t2), p.narrating, false);
      lease.Leased? && lease.turn == id && id < |s3.turns| &&
      var (s4, saved) := SaveNarration(At(s3, t3), id, lease.epoch, text, Some(code));
      saved.Done? && id < |s4.turns| && s4.turns[id].resolution.Failed? && !Open(s4.turns[id])
  {
    var (s1, claim) := Claim(s, p.resolution, false);
    CleanupFails(p, s, t1);
    var s2 := RecordFailure(At(s1, t1), claim.turn, false, claim.epoch, p.resolution).0;
    FailedIsNarrated(p, s2, claim.turn, t2, t3, text, code);
  }

  // A cleanup that records its failure within its lease fails the turn for good.
  lemma CleanupFails(p: Policy, s: Store, t1: int)
    requires StoreOk(p, s) && Sane(p)
    requires Claim(s, p.resolution, false).1.Leased? && Claim(s, p.resolution, false).1.cleanup
    requires s.now <= t1 < s.now + p.resolution.lease
    ensures
      var (s1, claim) := Claim(s, p.resolution, false);
      var id := claim.turn;
      id < |s1.turns| &&
      var (s2, failed) := RecordFailure(At(s1, t1), id, false, claim.epoch, p.resolution);
      && failed.Terminal? && id < |s2.turns| && s2.turns[id].resolution.Failed? && Open(s2.turns[id])
      && !s2.turns[id].narration.Generating? && StoreOk(p, s2) && s2.now == t1
  {
    var (s1, claim) := Claim(s, p.resolution, false);
    ClaimKeeps(p, s, false);
    OpenIsCurrent(p, s, claim.turn);
    TickKeeps(p, s1, At(s1, t1).now);
    FailureKeeps(p, At(s1, t1), claim.turn, claim.epoch);
  }

  // A failed turn is claimed for its narration, and a fallback saved within the lease closes it.
  lemma FailedIsNarrated(p: Policy, s: Store, id: nat, t2: int, t3: int, text: string, code: string)
    requires StoreOk(p, s) && Sane(p) && s.now <= t2 <= t3 < t2 + p.narrating.lease
    requires id < |s.turns| && s.turns[id].resolution.Failed? && Open(s.turns[id])
      && !s.turns[id].narration.Generating?
    ensures
      var (s3, lease) := ClaimNarration(At(s, t2), p.narrating, false);
      lease.Leased? && lease.turn == id && id < |s3.turns| &&
      var (s4, saved) := SaveNarration(At(s3, t3), id, lease.epoch, text, Some(code));
      saved.Done? && id < |s4.turns| && s4.turns[id].resolution.Failed? && !Open(s4.turns[id])
  {
    TickKeeps(p, s, At(s, t2).now);
    OpenIsCurrent(p, s, id);
    ClaimIsEnabled(p, At(s, t2), id);
    var (s3, lease) := ClaimNarration(At(s, t2), p.narrating, false);
    ClaimNarrationKeeps(p, At(s, t2), false);
    FallbackCloses(p, s3, id, lease.epoch, At(s3, t3).now, text, code);
  }

  // A cleanup whose actor has lost its authorization closes the turn at once, or is late and
  // leaves everything to the recorded failure.
  lemma UnauthorizedCleanup(p: Policy, s: Store, t1: int, text: string)
    requires StoreOk(p, s) && Sane(p)
    requires Claim(s, p.resolution, false).1.Leased? && s.now <= t1 < s.now + p.resolution.lease
    ensures
      var (s1, claim) := Claim(s, p.resolution, false);
      var id := claim.turn;
      id < |s1.turns| &&
      var (s2, reply) := FinalizeNotApplied(At(s1, t1), id, claim.epoch, text);
      if InTime(s1.turns[id].res, t1) then reply.Done? && id < |s2.turns| && s2.turns[id].resolution.NotApplied?
        && !Open(s2.turns[id])
      else reply.Late? && s2 == At(s1, t1)
  {
    ClaimKeeps(p, s, false);
  }

  // A terminal cleanup of the narration: the failure it records is final and keeps the lease, and
  // the fallback saved under it closes the turn without touching its resolution.
  lemma NarrationCleanupCloses(p: Policy, s: Store, t1: int, t2: int, text: string, code: string)
    requires StoreOk(p, s) && Sane(p)
    requires ClaimNarration(s, p.narrating, false).1.Leased? && ClaimNarration(s, p.narrating, false).1.cleanup
    requires s.now <= t1 <= t2 < s.now + p.narrating.lease
    ensures
      var (s1, claim) := ClaimNarration(s, p.narrating, false);
      var id := claim.turn;
      id < |s1.turns| &&
      var (s2, failed) := RecordFailure(At(s1, t1), id, true, claim.epoch, p.narrating);
      failed.Terminal? && id < |s2.turns| &&
      var (s3, saved) := SaveNarration(At(s2, t2), id, claim.epoch, text, Some(code));
      saved.Done? && id < |s3.turns| && !Open(s3.turns[id]) && SameResolution(s.turns[id], s3.turns[id])
  {
    var (s1, claim) := ClaimNarration(s, p.narrating, false);
    var id := claim.turn;
    ClaimNarrationKeeps(p, s, false);
    OpenIsCurrent(p, s, id);
    TickKeeps(p, s1, At(s1, t1).now);
    var (s2, failed) := RecordFailure(At(s1, t1), id, true, claim.epoch, p.narrating);
    NarrationFailureKeeps(p, At(s1, t1), id, claim.epoch);
    assert failed.Terminal?;
    FallbackCloses(p, s2, id, claim.epoch, At(s2, t2).now, text, code);
  }
}
