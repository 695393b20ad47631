/**
 What each operation on a turn answers and leaves behind, in terms of the row's own statuses, lease
 and deadline, and what follows from it for the campaign's version and the texts of a whole run.
 */
module TurnAnswers {
  import opened Outcomes
  import opened Turns
  import opened TurnProtocol
  import opened TurnLaws

  // ---- good standing ----

  // The worker's epoch is the latest, its lease lasts and the deadline has not passed.
  ghost predicate Leads(p: Phase, epoch: nat, now: int) {
    p.epoch == epoch && p.lease.Some? && now < p.lease.value
  }

  ghost predicate Timely(p: Phase, now: int) {
    p.deadline.Some? && now < p.deadline.value
  }

  ghost predicate Resolves(t: Turn, epoch: nat, now: int) {
    t.resolution == Resolving && Leads(t.res, epoch, now)
  }

  ghost predicate Narrates(t: Turn, epoch: nat, now: int) {
    t.narration == Generating && Leads(t.nar, epoch, now)
  }

  // Everything but the one row, the version and the log is as before.
  ghost predicate OnlyRow(s: Store, u: Store, id: nat, t: Turn) {
    && u.now == s.now && u.ledger == s.ledger && id < |s.turns| == |u.turns| && u.turns[id] == t
    && forall i :: 0 <= i < |s.turns| && i != id ==> u.turns[i] == s.turns[i]
  }

  ghost predicate Logs(s: Store, u: Store, id: nat, count: nat, version: nat, narration: bool) {
    && s.events <= u.events && |u.events| == |s.events| + count && u.sequence == s.sequence + count
    && forall k :: |s.events| <= k < |u.events| ==>
      u.events[k] == Event(id, s.sequence + 1 + (k - |s.events|), version, narration)
  }

  // ---- closing a resolution ----

  // A first commit succeeds exactly for a worker in good standing with a valid bundle made from the current
  // version, and raises that version exactly if the bundle changes the canonical state.
  lemma CommitAnswer(s: Store, id: nat, epoch: nat, b: Bundle)
    requires id < |s.turns| && s.turns[id].resolution != Committed
    ensures var t := s.turns[id];
      var (u, reply) := CommitResolution(s, id, epoch, b);
      var version := if b.changed then s.version + 1 else s.version;
      if Resolves(t, epoch, s.now) && Timely(t.res, s.now) && b.valid && b.base == s.version then
        && reply == AtVersion(version) && u.version == version
        && OnlyRow(s, u, id, t.(resolution := Committed, route := Some(Mechanical), committed := Some(version),
            input := Some(b.input)))
        && Logs(s, u, id, b.events, version, false)
      else u == s && reply in {Stale, Invalid, Conflict, Late}
  {
  }

  // A narrative turn is committed and told at once, and never raises the version.
  lemma NarrativeAnswer(s: Store, id: nat, epoch: nat, base: nat, authorized: bool, text: string)
    requires id < |s.turns| && s.turns[id].resolution != Committed
    ensures var t := s.turns[id];
      var (u, reply) := CommitNarrative(s, id, epoch, base, authorized, text);
      if Resolves(t, epoch, s.now) && Timely(t.res, s.now) && t.route == Some(Narrative) && authorized
        && base == s.version then
        && reply == AtVersion(s.version) && u.version == s.version
        && OnlyRow(s, u, id, t.(resolution := Committed, narration := Completed, committed := Some(s.version),
            text := Some(text), res := t.res.(lease := None)))
        && Logs(s, u, id, 1, s.version, true)
      else u == s && reply in {Stale, Invalid, Conflict, Late}
  {
  }

  lemma NotAppliedAnswer(s: Store, id: nat, epoch: nat, text: string)
    requires id < |s.turns| && s.turns[id].resolution != NotApplied
    ensures var t := s.turns[id];
      var (u, reply) := FinalizeNotApplied(s, id, epoch, text);
      if Resolves(t, epoch, s.now) && Timely(t.res, s.now) then
        && reply == Done && u.version == s.version
        && OnlyRow(s, u, id, t.(resolution := NotApplied, narration := Completed, text := Some(text),
            res := t.res.(lease := None)))
        && Logs(s, u, id, 1, s.version, true)
      else u == s && reply in {Refused, Stale, Late}
  {
  }

  // The text given is the text stored; a fallback may be late for the deadline and is marked as one.
  lemma SaveAnswer(s: Store, id: nat, epoch: nat, text: string, fallback: Option<string>)
    requires id < |s.turns|
    ensures var t := s.turns[id];
      var (u, reply) := SaveNarration(s, id, epoch, text, fallback);
      if Narrates(t, epoch, s.now) && (fallback.Some? || Timely(t.nar, s.now)) then
        && reply == Done && u.version == s.version
        && OnlyRow(s, u, id, t.(narration := if fallback.None? then Completed else Fallback, text := Some(text),
            recovery := fallback, nar := t.nar.(lease := None)))
        && Logs(s, u, id, 1, if t.committed.Some? then t.committed.value else s.version, true)
      else u == s && reply == Refused
  {
  }

  // ---- failures ----

  // Attempts, time and calls are left for another try.
  ghost predicate Retriable(t: Turn, phase: Phase, now: int, limits: Limits) {
    && phase.attempts < limits.attempts && Timely(phase, now)
    && t.calls < t.budget && (t.route == Some(Narrative) ==> t.calls == 0)
  }

  lemma FailureAnswer(s: Store, id: nat, epoch: nat, limits: Limits)
    requires id < |s.turns|
    ensures var t := s.turns[id];
      var (u, reply) := RecordFailure(s, id, false, epoch, limits);
      if !Resolves(t, epoch, s.now) then u == s && reply == Refused
      else
        && u == s.(turns := u.turns) && (reply == Retry <==> Retriable(t, t.res, s.now, limits))
        && (reply == Retry ==>
              OnlyRow(s, u, id, t.(resolution := Pending, res := t.res.(lease := None, next := Some(s.now)))))
        && (reply != Retry ==>
              reply == Terminal
                && OnlyRow(s, u, id, t.(resolution := Failed, res := t.res.(lease := None, next := None))))
  {
  }

  // A narration keeps its lease over a final failure, for the fallback to be saved under.
  lemma NarrationFailureAnswer(s: Store, id: nat, epoch: nat, limits: Limits)
    requires id < |s.turns|
    ensures var t := s.turns[id];
      var (u, reply) := RecordFailure(s, id, true, epoch, limits);
      if !Narrates(t, epoch, s.now) then u == s && reply == Refused
      else
        && u == s.(turns := u.turns) && (reply == Retry <==> Retriable(t, t.nar, s.now, limits))
        && (reply == Retry ==>
              OnlyRow(s, u, id, t.(narration := Waiting, nar := t.nar.(lease := None, next := Some(s.now)))))
        && (reply != Retry ==> reply == Terminal && OnlyRow(s, u, id, t.(nar := t.nar.(next := None))))
  {
  }

  // A turn that is to be retried is handed to the next worker that asks, as a further attempt.
  lemma RetriedIsClaimed(p: Policy, s: Store, id: nat, epoch: nat)
    requires StoreOk(p, s) && Sane(p) && id < |s.turns|
    requires RecordFailure(s, id, false, epoch, p.resolution).1 == Retry
    ensures var u := RecordFailure(s, id, false, epoch, p.resolution).0;
      Claim(u, p.resolution, false).1 == Leased(id, epoch + 1, false)
  {
    FailureAnswer(s, id, epoch, p.resolution);
    FailureKeeps(p, s, id, epoch);
    ClaimIsEnabled(p, RecordFailure(s, id, false, epoch, p.resolution).0, id);
  }

  lemma RetriedIsNarrated(p: Policy, s: Store, id: nat, epoch: nat)
    requires StoreOk(p, s) && Sane(p) && id < |s.turns| && Resolved(s.turns[id])
    requires RecordFailure(s, id, true, epoch, p.narrating).1 == Retry
    ensures var u := RecordFailure(s, id, true, epoch, p.narrating).0;
      ClaimNarration(u, p.narrating, false).1 == Leased(id, epoch + 1, false)
  {
    NarrationFailureAnswer(s, id, epoch, p.narrating);
    NarrationFailureKeeps(p, s, id, epoch);
    ClaimIsEnabled(p, RecordFailure(s, id, true, epoch, p.narrating).0, id);
  }

  // ---- accepting, claiming, routing, reserving ----

  ghost predicate Over(t: Turn) {
    t.resolution in {Committed, NotApplied, Failed} && t.narration in {Completed, Fallback}
  }

  lemma AcceptAnswer(s: Store, expected: nat, budget: nat, admitted: bool)
    ensures var (u, reply) := Accept(s, expected, budget, admitted);
      if admitted && expected == s.version && forall i :: 0 <= i < |s.turns| ==> Over(s.turns[i]) then
        && reply == Done && u == s.(turns := u.turns) && |u.turns| == |s.turns| + 1 && s.turns <= u.turns
        && var t := u.turns[|s.turns|];
           && t.expected == expected && t.budget == budget && t.calls == 0 && t.resolution == Pending
           && t.narration == Waiting && t.route.None? && t.routing.None? && t.committed.None? && t.text.None?
           && t.input.None? && t.recovery.None? && t.res == t.nar == Phase(0, None, 0, false, None, None)
      else u == s && reply in {Refused, Conflict}
  {
    assert forall i :: 0 <= i < |s.turns| ==> (Over(s.turns[i]) <==> !Open(s.turns[i]));
  }

  // No attempt or no time is left, so the phase is only to be closed.
  ghost predicate Exhausted(phase: Phase, now: int, limits: Limits) {
    phase.started && (limits.attempts <= phase.attempts || (phase.deadline.Some? && phase.deadline.value <= now))
  }

  ghost predicate Due(phase: Phase, now: int, limits: Limits) {
    || Exhausted(phase, now, limits)
    || (phase.attempts < limits.attempts && (phase.deadline.Some? ==> now < phase.deadline.value)
        && (phase.next.Some? ==> phase.next.value <= now))
  }

  ghost predicate Lapsed(phase: Phase, now: int) {
    phase.lease.Some? && phase.lease.value < now
  }

  ghost predicate Claims(t: Turn, now: int, limits: Limits) {
    && t.resolution in {Pending, Resolving} && (t.resolution == Resolving ==> Lapsed(t.res, now))
    && Due(t.res, now, limits)
  }

  ghost predicate ClaimsNarration(t: Turn, now: int, limits: Limits) {
    && t.resolution in {Committed, NotApplied, Failed} && t.narration in {Waiting, Generating}
    && (t.narration == Generating ==> Lapsed(t.nar, now)) && Due(t.nar, now, limits)
  }

  // A claim counts an attempt unless it only closes, and sets the deadline once.
  ghost predicate LeasedPhase(a: Phase, b: Phase, now: int, limits: Limits) {
    && b.epoch == a.epoch + 1 && b.lease == Some(now + limits.lease) && b.started && b.next == a.next
    && b.attempts == (if Exhausted(a, now, limits) then a.attempts else a.attempts + 1)
    && b.deadline == if a.deadline.Some? then a.deadline else Some(now + limits.deadline)
  }

  // The oldest turn that can be claimed is leased.
  lemma ClaimAnswer(s: Store, limits: Limits, blocked: bool, id: nat)
    requires id < |s.turns| && Claims(s.turns[id], s.now, limits)
    requires forall i :: 0 <= i < id ==> !Claims(s.turns[i], s.now, limits)
    ensures var (u, reply) := Claim(s, limits, blocked);
      if blocked then u == s && reply == Refused
      else
        && reply == Leased(id, s.turns[id].res.epoch + 1, Exhausted(s.turns[id].res, s.now, limits))
        && u == s.(turns := u.turns) && id < |u.turns| && LeasedPhase(s.turns[id].res, u.turns[id].res, s.now, limits)
        && OnlyRow(s, u, id, s.turns[id].(resolution := Resolving, res := u.turns[id].res))
  {
    assert forall i :: 0 <= i < |s.turns| ==>
      (Claims(s.turns[i], s.now, limits) <==> Claimable(s.turns[i], s.now, limits));
    assert FirstClaimable(s, limits, false, 0) == id;
  }

  lemma NoClaimAnswer(s: Store, limits: Limits, blocked: bool)
    requires forall i :: 0 <= i < |s.turns| ==> !Claims(s.turns[i], s.now, limits)
    ensures Claim(s, limits, blocked) == (s, Refused)
  {
    assert forall i :: 0 <= i < |s.turns| ==>
      !Claimable(s.turns[i], s.now, limits) || Claims(s.turns[i], s.now, limits);
  }

  lemma NarrationClaimAnswer(s: Store, limits: Limits, blocked: bool, id: nat)
    requires id < |s.turns| && ClaimsNarration(s.turns[id], s.now, limits)
    requires forall i :: 0 <= i < id ==> !ClaimsNarration(s.turns[i], s.now, limits)
    ensures var (u, reply) := ClaimNarration(s, limits, blocked);
      if blocked then u == s && reply == Refused
      else
        && reply == Leased(id, s.turns[id].nar.epoch + 1, Exhausted(s.turns[id].nar, s.now, limits))
        && u == s.(turns := u.turns) && id < |u.turns| && LeasedPhase(s.turns[id].nar, u.turns[id].nar, s.now, limits)
        && OnlyRow(s, u, id, s.turns[id].(narration := Generating, nar := u.turns[id].nar))
  {
    assert forall i :: 0 <= i < |s.turns| ==>
      (ClaimsNarration(s.turns[i], s.now, limits) <==> NarrationClaimable(s.turns[i], s.now, limits));
    assert FirstClaimable(s, limits, true, 0) == id;
  }

  // A first routing sets the route unless there is one, and only the same routing can be recorded again.
  lemma RouteAnswer(s: Store, id: nat, epoch: nat, r: Routing)
    requires id < |s.turns|
    ensures var t := s.turns[id];
      var (u, reply) := RecordRoute(s, id, epoch, r);
      if Resolves(t, epoch, s.now) && (t.routing.Some? ==> t.routing.value == r) then
        && reply == Done && u == s.(turns := u.turns)
        && OnlyRow(s, u, id, t.(routing := Some(r), route := if t.route.Some? then t.route else Some(r.route)))
      else u == s && reply == Refused
  {
  }

  lemma PromoteAnswer(s: Store, id: nat, epoch: nat)
    requires id < |s.turns|
    ensures var t := s.turns[id];
      var (u, reply) := Promote(s, id, epoch);
      if Resolves(t, epoch, s.now) && t.route == Some(Narrative) then
        reply == Done && u == s.(turns := u.turns) && OnlyRow(s, u, id, t.(route := Some(Mechanical)))
      else u == s && reply == Refused
  {
  }

  // A call is reserved for a worker in good standing before and after waiting, while the turn has one left
  // and the ledger lets it through or knows it already.
  lemma ReserveAnswer(s: Store, id: nat, narration: bool, epoch: nat, admitted: bool, later: int)
    requires id < |s.turns|
    ensures var t := s.turns[id];
      var phase := if narration then t.nar else t.res;
      var clock := if s.now < later then later else s.now;
      var (u, reply) := Reserve(s, id, narration, epoch, admitted, later);
      && u == s.(now := u.now, turns := u.turns, ledger := u.ledger)
      && if (if narration then Narrates(t, epoch, clock) else Resolves(t, epoch, clock)) && Timely(phase, clock)
           && t.calls < t.budget && (t.route == Some(Narrative) ==> t.calls == 0)
           && (admitted || (id, t.calls + 1) in s.ledger) then
           && reply == Done && u.now == clock && u.ledger == s.ledger + {(id, t.calls + 1)}
           && u.turns == s.turns[id := t.(calls := t.calls + 1)]
         else reply == Refused && u.turns == s.turns && u.ledger == s.ledger
  {
  }

  // ---- the campaign's version ----

  ghost predicate Does(p: Policy, s: System, step: Step, t: System) {
    Enabled(s, step) && t == Perform(p, s, step)
  }

  // A run together with its steps
  ghost predicate Trace(p: Policy, run: seq<System>, steps: seq<Step>) {
    && |run| == |steps| + 1 && (exists now, version :: run[0] == Initial(now, version))
    && forall i, j :: 0 <= i && j == i + 1 && j < |run| ==> Does(p, run[i], steps[i], run[j])
  }

  // Every run has its steps.
  lemma {:induction false} Traced(p: Policy, run: seq<System>) returns (steps: seq<Step>)
    requires Behavior(p, run)
    ensures Trace(p, run, steps)
  {
    var last := |run| - 1;
    if last == 0 {
      steps := [];
    } else {
      assert forall i, j :: 0 <= i && j == i + 1 && j < last ==> Next(p, run[i], run[j]);
      var before := Traced(p, run[..last]);
      assert Next(p, run[last - 1], run[last - 1 + 1]);
      var step :| Enabled(run[last - 1], step) && run[last] == Perform(p, run[last - 1], step);
      steps := before + [step];
      TraceOn(p, run, before, step);
    }
  }

  lemma {:induction false} TraceOn(p: Policy, run: seq<System>, steps: seq<Step>, step: Step)
    requires |run| >= 2 && Trace(p, run[..|run| - 1], steps)
    requires Enabled(run[|run| - 2], step) && run[|run| - 1] == Perform(p, run[|run| - 2], step)
    ensures Trace(p, run, steps + [step])
  {
    var all, before := steps + [step], run[..|run| - 1];
    forall i, j | 0 <= i && j == i + 1 && j < |run| ensures Does(p, run[i], all[i], run[j]) {
      if j < |before| { assert Does(p, before[i], steps[i], before[j]); }
    }
  }

  lemma {:induction false} TraceRuns(p: Policy, run: seq<System>, steps: seq<Step>)
    requires Trace(p, run, steps)
    ensures Behavior(p, run)
  {
    forall i, j | 0 <= i && j == i + 1 && j < |run| ensures Next(p, run[i], run[j]) {
      assert Does(p, run[i], steps[i], run[j]);
    }
  }

  // The step commits, for the first time, a bundle that changes the canonical state.
  ghost predicate ChangesState(p: Policy, s: System, step: Step) {
    && step.CommitTurn? && Enabled(s, step) && s.store.turns[step.work.turn].resolution != Committed
    && step.bundle.changed && StoreStep(p, s, step).1.AtVersion?
  }

  ghost function Changes(p: Policy, run: seq<System>, steps: seq<Step>, k: nat): nat
    requires k <= |steps| < |run|
  {
    if k == 0 then 0 else Changes(p, run, steps, k - 1) + (if ChangesState(p, run[k - 1], steps[k - 1]) then 1 else 0)
  }

  lemma StepVersion(p: Policy, s: System, step: Step)
    requires Enabled(s, step)
    ensures Perform(p, s, step).store.version == s.store.version + (if ChangesState(p, s, step) then 1 else 0)
  {
    match step
    case CommitTurn(w, b) =>
      if s.store.turns[w.turn].resolution != Committed {
        CommitAnswer(s.store, w.turn, w.epoch, b.(base := w.base));
      }
    case CommitStory(w, authorized, text) =>
      if s.store.turns[w.turn].resolution != Committed {
        NarrativeAnswer(s.store, w.turn, w.epoch, w.base, authorized, text);
      }
    case _ =>
  }

  // In every run the campaign's version is the initial one and one more for each first commit of a
  // bundle that changed the canonical state.
  lemma {:induction false} VersionCounts(p: Policy, run: seq<System>, steps: seq<Step>, k: nat)
    requires Trace(p, run, steps) && k < |run|
    ensures run[k].store.version == run[0].store.version + Changes(p, run, steps, k)
  {
    if k > 0 {
      VersionCounts(p, run, steps, k - 1);
      assert Does(p, run[k - 1], steps[k - 1], run[k - 1 + 1]);
      StepVersion(p, run[k - 1], steps[k - 1]);
    }
  }

  // The turns whose commit raised the version
  function Raised(turns: seq<Turn>): nat {
    if turns == [] then 0
    else
      var t := turns[|turns| - 1];
      Raised(turns[..|turns| - 1]) + (if t.committed == Some(t.expected + 1) then 1 else 0)
  }

  lemma {:induction false} RaisedInLine(turns: seq<Turn>, version: nat)
    requires turns != [] && Lineage(turns, version)
    requires forall i :: 0 <= i < |turns| && turns[i].committed.Some? ==>
      turns[i].expected <= turns[i].committed.value <= turns[i].expected + 1
    ensures version == turns[0].expected + Raised(turns)
  {
    var last := |turns| - 1;
    if last > 0 {
      var before := turns[..last];
      assert turns[last - 1 + 1].expected == VersionAfter(turns[last - 1]);
      assert forall i, j :: 0 <= i && j == i + 1 && j < last ==> before[j].expected == VersionAfter(before[i]);
      RaisedInLine(before, turns[last].expected);
    }
  }

  // The first turn starts from the initial version.
  lemma {:induction false} FirstTurn(p: Policy, run: seq<System>, steps: seq<Step>, k: nat)
    requires Trace(p, run, steps) && k < |run|
    ensures var s := run[k].store;
      if s.turns == [] then s.version == run[0].store.version else s.turns[0].expected == run[0].store.version
  {
    if k > 0 {
      FirstTurn(p, run, steps, k - 1);
      TraceRuns(p, run, steps);
      AlwaysInvariant(p, run, k);
      assert Does(p, run[k - 1], steps[k - 1], run[k - 1 + 1]);
      FirstTurnStep(p, run[k - 1], steps[k - 1]);
    }
  }

  lemma FirstTurnStep(p: Policy, s: System, step: Step)
    requires Enabled(s, step) && Evolves(s.store, Perform(p, s, step).store)
    ensures var u := Perform(p, s, step).store;
      && (s.store.turns != [] ==> u.turns != [] && u.turns[0].expected == s.store.turns[0].expected)
      && (s.store.turns == [] ==>
            if u.turns == [] then u.version == s.store.version else u.turns[0].expected == s.store.version)
  {
    var u := Perform(p, s, step).store;
    if s.store.turns != [] {
      assert RowEvolves(s.store.turns[0], u.turns[0]);
    } else {
      match step
      case AcceptTurn(expected, budget, admitted) => AcceptAnswer(s.store, expected, budget, admitted);
      case _ => assert u.turns == [] && u.version == s.store.version;
    }
  }

  // So the version of every state is the initial one plus the number of its turns that raised it.
  lemma VersionIsRaised(p: Policy, run: seq<System>, k: nat)
    requires Behavior(p, run) && k < |run|
    ensures run[k].store.version == run[0].store.version + Raised(run[k].store.turns)
  {
    var steps := Traced(p, run);
    FirstTurn(p, run, steps, k);
    AlwaysInvariant(p, run, k);
    var s := run[k].store;
    if s.turns != [] {
      forall i | 0 <= i < |s.turns| && s.turns[i].committed.Some?
        ensures s.turns[i].expected <= s.turns[i].committed.value <= s.turns[i].expected + 1
      {
        assert RowOk(p, s.turns[i], s.now);
      }
      RaisedInLine(s.turns, s.version);
    }
  }

  // ---- texts ----

  // The text a step tells for a turn
  function TextOf(step: Step): Option<(nat, string)> {
    match step
    case CloseNotApplied(id, _, text) => Some((id, text))
    case CommitStory(w, _, text) => Some((w.turn, text))
    case SaveText(id, _, text, _) => Some((id, text))
    case _ => None
  }

  ghost predicate Told(s: Store, id: nat, text: string) {
    id < |s.turns| && s.turns[id].text == Some(text)
  }

  lemma StepTells(p: Policy, s: System, step: Step, id: nat, text: string)
    requires Enabled(s, step) && TextOf(step) == Some((id, text)) && Perform(p, s, step).store != s.store
    ensures Told(Perform(p, s, step).store, id, text) && Narrated(Perform(p, s, step).store.turns[id])
      && Resolved(Perform(p, s, step).store.turns[id]) == (!step.SaveText? || Resolved(s.store.turns[id]))
  {
  }

  // A text that a step told is the turn's text for good, whoever tries to tell it again.
  lemma ToldForever(p: Policy, run: seq<System>, steps: seq<Step>, i: nat, j: nat, id: nat, text: string)
    requires Trace(p, run, steps) && i < j < |run| && TextOf(steps[i]) == Some((id, text))
    requires run[i + 1].store != run[i].store
    ensures Told(run[j].store, id, text)
  {
    TraceRuns(p, run, steps);
    assert Does(p, run[i], steps[i], run[i + 1]);
    StepTells(p, run[i], steps[i], id, text);
    AlwaysInvariant(p, run, i + 1);
    AlwaysEvolves(p, run, i + 1, j);
    assert RowOk(p, run[i + 1].store.turns[id], run[i + 1].store.now);
    assert RowEvolves(run[i + 1].store.turns[id], run[j].store.turns[id]);
  }
}
