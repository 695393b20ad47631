/** No turn is stuck: whatever its workers did or left undone, a few steps of the next ones close it. */
module TurnRecovery {
  import opened Outcomes
  import opened Turns
  import opened TurnProtocol
  import opened TurnLaws

  // The steps of workers that take over from others: they wait, claim, record a failure and save a
  // fallback narration.
  predicate Cleaning(step: Step) {
    match step
    case Tick(_) => true
    case ClaimTurn(blocked) => !blocked
    case FailResolution(_, _) => true
    case ClaimForNarration(blocked) => !blocked
    case FailNarration(_, _) => true
    case SaveText(_, _, _, fallback) => fallback.Some?
    case _ => false
  }

  // What a worker does after a step of its own that was answered with `reply`: a terminal cleanup
  // records a failure, and a fallback is saved after a terminal failure or when there is nothing to narrate.
  predicate Follows(s: System, step: Step, last: Step, reply: Reply) {
    match step
    case FailResolution(id, epoch) => last == ClaimTurn(false) && reply == Leased(id, epoch, true)
    case FailNarration(id, epoch) => last == ClaimForNarration(false) && reply == Leased(id, epoch, true)
    case SaveText(id, epoch, _, _) =>
      || (last == FailNarration(id, epoch) && reply.Terminal?)
      || (last == ClaimForNarration(false) && reply.Leased? && reply.turn == id && reply.epoch == epoch
          && id < |s.store.turns| && s.store.turns[id].input.None?)
    case _ => true
  }

  predicate NeedsReply(step: Step) {
    step.FailResolution? || step.FailNarration? || step.SaveText?
  }

  // States and the steps between them
  datatype Trail = Trail(states: seq<System>, steps: seq<Step>)

  ghost predicate Leads(p: Policy, t: Trail, i: nat)
    requires |t.states| == |t.steps| + 1 && i < |t.steps|
  {
    Cleaning(t.steps[i]) && Enabled(t.states[i], t.steps[i]) && t.states[i + 1] == Perform(p, t.states[i], t.steps[i])
  }

  ghost predicate Answered(p: Policy, t: Trail, i: nat)
    requires |t.states| == |t.steps| + 1 && i < |t.steps|
  {
    NeedsReply(t.steps[i]) ==>
      i > 0 && Enabled(t.states[i - 1], t.steps[i - 1])
      && Follows(t.states[i], t.steps[i], t.steps[i - 1], StoreStep(p, t.states[i - 1], t.steps[i - 1]).1)
  }

  // A trail of cleaning steps, each of them what the workers do
  ghost predicate Cleanup(p: Policy, t: Trail) {
    && |t.states| == |t.steps| + 1 && Invariant(p, t.states[|t.steps|])
    && forall i :: 0 <= i < |t.steps| ==> Leads(p, t, i) && Answered(p, t, i)
  }

  function Last(t: Trail): System
    requires |t.states| == |t.steps| + 1
  {
    t.states[|t.steps|]
  }

  // The trail goes on by some steps, the last of which was answered with `reply`.
  ghost predicate Extends(p: Policy, t: Trail, longer: Trail, count: nat) {
    && Cleanup(p, longer) && t.states != [] && longer.states[0] == t.states[0]
    && |longer.steps| == |t.steps| + count
  }

  // The last step of a trail and its answer
  ghost predicate Ended(p: Policy, t: Trail, step: Step, reply: Reply) {
    && |t.states| == |t.steps| + 1 && t.steps != [] && t.steps[|t.steps| - 1] == step
    && Enabled(t.states[|t.steps| - 1], step) && StoreStep(p, t.states[|t.steps| - 1], step).1 == reply
  }

  lemma Take(p: Policy, t: Trail, step: Step) returns (longer: Trail)
    requires Cleanup(p, t) && Cleaning(step) && Enabled(Last(t), step)
    requires NeedsReply(step) ==> exists last, reply :: Ended(p, t, last, reply) && Follows(Last(t), step, last, reply)
    ensures Extends(p, t, longer, 1) && Last(longer) == Perform(p, Last(t), step)
    ensures Ended(p, longer, step, StoreStep(p, Last(t), step).1)
  {
    StepKeeps(p, Last(t), step);
    longer := Trail(t.states + [Perform(p, Last(t), step)], t.steps + [step]);
    forall i | 0 <= i < |longer.steps| ensures Leads(p, longer, i) && Answered(p, longer, i) {
      if i < |t.steps| {
        assert Leads(p, t, i) && Answered(p, t, i);
      }
    }
  }

  // A time at which the leases and deadlines of a turn have run out
  function Beyond(now: int, phase: Phase): (r: int)
    ensures r > now && (phase.lease.Some? ==> r > phase.lease.value)
      && (phase.deadline.Some? ==> r > phase.deadline.value)
  {
    var lease := if phase.lease.Some? then phase.lease.value else now;
    var deadline := if phase.deadline.Some? then phase.deadline.value else now;
    var later := if lease > deadline then lease else deadline;
    1 + if later > now then later else now
  }

  // ---- the narration of a resolved turn ----

  // The turn is resolved and leased for narration under this epoch.
  ghost predicate Narrates(s: System, id: nat, epoch: nat) {
    && id < |s.store.turns| && Open(s.store.turns[id]) && Resolved(s.store.turns[id])
    && Narrator(s.store.turns[id], epoch) && Held(s.store.turns[id].nar, s.store.now)
  }

  // A claim hands out a new epoch, as a cleanup once the deadline has passed.
  lemma ClaimNarrationNext(p: Policy, t: Trail, id: nat) returns (longer: Trail, epoch: nat, cleanup: bool)
    requires Cleanup(p, t) && Sane(p) && id < |Last(t).store.turns|
    requires Open(Last(t).store.turns[id]) && Resolved(Last(t).store.turns[id])
    requires Last(t).store.turns[id].narration.Generating? ==> LeaseOver(Last(t).store.turns[id].nar, Last(t).store.now)
    ensures Extends(p, t, longer, 1) && Narrates(Last(longer), id, epoch)
    ensures Ended(p, longer, ClaimForNarration(false), Leased(id, epoch, cleanup))
    ensures Last(longer).store.turns[id].input == Last(t).store.turns[id].input
    ensures Last(longer).store.turns[id].nar.started
    ensures var nar := Last(t).store.turns[id].nar;
      cleanup == Spent(nar, Last(t).store.now, p.narrating)
      && (nar.started && !InTime(nar, Last(t).store.now) ==>
            !InTime(Last(longer).store.turns[id].nar, Last(t).store.now))
    ensures Last(longer).store.now == Last(t).store.now
  {
    var s := Last(t).store;
    assert RowOk(p, s.turns[id], s.now);
    ClaimIsEnabled(p, s, id);
    longer := Take(p, t, ClaimForNarration(false));
    epoch, cleanup := s.turns[id].nar.epoch + 1, Spent(s.turns[id].nar, s.now, p.narrating);
  }

  // A fallback saved under the lease closes the turn.
  lemma SaveFallback(p: Policy, t: Trail, id: nat, epoch: nat, text: string, code: string) returns (longer: Trail)
    requires Cleanup(p, t) && Narrates(Last(t), id, epoch)
    requires exists last, reply ::
      Ended(p, t, last, reply) && Follows(Last(t), SaveText(id, epoch, text, Some(code)), last, reply)
    ensures Extends(p, t, longer, 1) && id < |Last(longer).store.turns| && !Open(Last(longer).store.turns[id])
  {
    var s := Last(t).store;
    longer := Take(p, t, SaveText(id, epoch, text, Some(code)));
    assert At(s, s.now) == s;
    FallbackCloses(p, s, id, epoch, s.now, text, code);
  }

  // Without an input there is nothing to narrate, and the first claim saves the fallback.
  lemma CloseUnnarratable(p: Policy, t: Trail, id: nat, text: string, code: string) returns (longer: Trail)
    requires Cleanup(p, t) && Sane(p) && id < |Last(t).store.turns|
    requires Open(Last(t).store.turns[id]) && Resolved(Last(t).store.turns[id]) && Last(t).store.turns[id].input.None?
    requires Last(t).store.turns[id].narration.Generating? ==> LeaseOver(Last(t).store.turns[id].nar, Last(t).store.now)
    ensures Extends(p, t, longer, 2) && id < |Last(longer).store.turns| && !Open(Last(longer).store.turns[id])
  {
    var claimed, epoch, cleanup := ClaimNarrationNext(p, t, id);
    assert Follows(Last(claimed), SaveText(id, epoch, text, Some(code)), ClaimForNarration(false),
        Leased(id, epoch, cleanup));
    longer := SaveFallback(p, claimed, id, epoch, text, code);
  }

  // Waiting out a lease and a deadline
  lemma WaitNarration(p: Policy, t: Trail, id: nat) returns (longer: Trail)
    requires Cleanup(p, t) && id < |Last(t).store.turns|
    ensures Extends(p, t, longer, 1) && Last(longer).store.turns == Last(t).store.turns
    ensures Last(t).store.turns[id].narration.Generating? ==>
      LeaseOver(Last(longer).store.turns[id].nar, Last(longer).store.now)
    ensures !InTime(Last(longer).store.turns[id].nar, Last(longer).store.now)
  {
    var s := Last(t).store;
    assert RowOk(p, s.turns[id], s.now);
    longer := Take(p, t, Tick(Beyond(s.now, s.turns[id].nar)));
  }

  // A cleanup of the narration records a failure that is final and keeps the lease.
  lemma FailNarrationFinally(p: Policy, t: Trail, id: nat, epoch: nat) returns (longer: Trail)
    requires Cleanup(p, t) && Narrates(Last(t), id, epoch) && !InTime(Last(t).store.turns[id].nar, Last(t).store.now)
    requires Ended(p, t, ClaimForNarration(false), Leased(id, epoch, true))
    ensures Extends(p, t, longer, 1) && Narrates(Last(longer), id, epoch)
    ensures Ended(p, longer, FailNarration(id, epoch), Terminal)
  {
    assert Follows(Last(t), FailNarration(id, epoch), ClaimForNarration(false), Leased(id, epoch, true));
    longer := Take(p, t, FailNarration(id, epoch));
  }

  // The claim after the deadline is a cleanup, whose failure is terminal and whose fallback closes the turn.
  lemma CloseSpent(p: Policy, t: Trail, id: nat, text: string, code: string) returns (longer: Trail)
    requires Cleanup(p, t) && Sane(p) && id < |Last(t).store.turns|
    requires Open(Last(t).store.turns[id]) && Resolved(Last(t).store.turns[id]) && Last(t).store.turns[id].nar.started
    ensures Extends(p, t, longer, 4) && id < |Last(longer).store.turns| && !Open(Last(longer).store.turns[id])
  {
    var waited := WaitNarration(p, t, id);
    assert RowOk(p, Last(waited).store.turns[id], Last(waited).store.now);
    var claimed, epoch, cleanup := ClaimNarrationNext(p, waited, id);
    var failed := FailNarrationFinally(p, claimed, id, epoch);
    assert Follows(Last(failed), SaveText(id, epoch, text, Some(code)), FailNarration(id, epoch), Terminal);
    longer := SaveFallback(p, failed, id, epoch, text, code);
  }

  lemma CloseResolved(p: Policy, t: Trail, id: nat, text: string, code: string) returns (longer: Trail)
    requires Cleanup(p, t) && Sane(p) && id < |Last(t).store.turns|
    requires Open(Last(t).store.turns[id]) && Resolved(Last(t).store.turns[id])
    ensures exists count :: count <= 6 && Extends(p, t, longer, count)
    ensures id < |Last(longer).store.turns| && !Open(Last(longer).store.turns[id])
  {
    var waited := WaitNarration(p, t, id);
    if Last(waited).store.turns[id].input.None? {
      longer := CloseUnnarratable(p, waited, id, text, code);
      assert Extends(p, t, longer, 3);
    } else {
      var claimed, epoch, cleanup := ClaimNarrationNext(p, waited, id);
      longer := CloseSpent(p, claimed, id, text, code);
      assert Extends(p, t, longer, 6);
    }
  }

  // ---- the resolution ----

  // Waiting out a lease and a deadline and claiming the turn
  lemma WaitAndClaim(p: Policy, t: Trail, id: nat) returns (longer: Trail)
    requires Cleanup(p, t) && Sane(p) && id < |Last(t).store.turns| && !Resolved(Last(t).store.turns[id])
    ensures Extends(p, t, longer, 2) && id < |Last(longer).store.turns|
    ensures var (s, u) := (Last(t).store, Last(longer).store);
      && u.turns[id].resolution.Resolving? && Held(u.turns[id].res, u.now) && u.turns[id].res.started
      && (s.turns[id].res.started ==>
            !InTime(u.turns[id].res, u.now)
            && Ended(p, longer, ClaimTurn(false), Leased(id, u.turns[id].res.epoch, true)))
  {
    var s := Last(t).store;
    assert RowOk(p, s.turns[id], s.now);
    var waited := Take(p, t, Tick(Beyond(s.now, s.turns[id].res)));
    ClaimIsEnabled(p, Last(waited).store, id);
    longer := Take(p, waited, ClaimTurn(false));
  }

  // A failure recorded after the deadline is final.
  lemma FailFinally(p: Policy, t: Trail, id: nat) returns (longer: Trail)
    requires Cleanup(p, t) && id < |Last(t).store.turns|
    requires var (s, row) := (Last(t).store, Last(t).store.turns[id]);
      && row.resolution.Resolving? && Held(row.res, s.now) && !InTime(row.res, s.now)
      && Ended(p, t, ClaimTurn(false), Leased(id, row.res.epoch, true))
    ensures Extends(p, t, longer, 1) && id < |Last(longer).store.turns|
    ensures Last(longer).store.turns[id].resolution.Failed? && Open(Last(longer).store.turns[id])
    ensures !Last(longer).store.turns[id].narration.Generating? && Last(longer).store.turns[id].input.None?
  {
    var s := Last(t).store;
    assert RowOk(p, s.turns[id], s.now);
    var epoch := s.turns[id].res.epoch;
    assert Follows(Last(t), FailResolution(id, epoch), ClaimTurn(false), Leased(id, epoch, true));
    longer := Take(p, t, FailResolution(id, epoch));
  }

  lemma CloseUnresolved(p: Policy, t: Trail, id: nat, text: string, code: string) returns (longer: Trail)
    requires Cleanup(p, t) && Sane(p) && id < |Last(t).store.turns| && !Resolved(Last(t).store.turns[id])
    ensures Extends(p, t, longer, 7) && id < |Last(longer).store.turns| && !Open(Last(longer).store.turns[id])
  {
    var first := WaitAndClaim(p, t, id);
    var second := WaitAndClaim(p, first, id);
    var failed := FailFinally(p, second, id);
    longer := CloseUnnarratable(p, failed, id, text, code);
  }

  // From every state in which the invariant holds, an open turn of a story that is not blocked is
  // closed by at most seven steps, in which workers do nothing but what they do when they take over.
  lemma NoTurnIsStuck(p: Policy, s: System, id: nat, text: string, code: string) returns (t: Trail)
    requires Invariant(p, s) && Sane(p) && id < |s.store.turns|
    ensures Cleanup(p, t) && t.states[0] == s && |t.steps| <= 7
    ensures id < |Last(t).store.turns| && !Open(Last(t).store.turns[id])
  {
    t := Trail([s], []);
    if !Resolved(s.store.turns[id]) {
      t := CloseUnresolved(p, t, id, text, code);
    } else if Open(s.store.turns[id]) {
      t := CloseResolved(p, t, id, text, code);
    }
  }

  lemma LeadsIsNext(p: Policy, t: Trail, i: nat)
    requires |t.states| == |t.steps| + 1 && i < |t.steps| && Leads(p, t, i)
    ensures Next(p, t.states[i], t.states[i + 1])
  {
  }

  lemma Continued(p: Policy, run: seq<System>, more: seq<System>)
    requires Behavior(p, run) && more != [] && more[0] == run[|run| - 1]
    requires forall i, j :: 0 <= i && j == i + 1 && j < |more| ==> Next(p, more[i], more[j])
    ensures Behavior(p, run + more[1..])
  {
    var longer, base := run + more[1..], |run| - 1;
    assert forall i :: base <= i < |longer| ==> longer[i] == more[i - base];
    forall i, j | 0 <= i && j == i + 1 && j < |longer| ensures Next(p, longer[i], longer[j]) {
      if j < |run| {
        assert Next(p, run[i], run[j]);
      } else {
        assert Next(p, more[i - base], more[j - base]);
      }
    }
  }

  // Every run of the protocol can be continued in that way to one that closes the turn.
  lemma EveryRunCloses(p: Policy, run: seq<System>, id: nat, text: string, code: string) returns (t: Trail)
    requires Behavior(p, run) && Sane(p) && id < |run[|run| - 1].store.turns|
    ensures Cleanup(p, t) && t.states[0] == run[|run| - 1] && |t.steps| <= 7
    ensures Behavior(p, run + t.states[1..])
    ensures id < |Last(t).store.turns| && !Open(Last(t).store.turns[id])
  {
    AlwaysInvariant(p, run, |run| - 1);
    t := NoTurnIsStuck(p, run[|run| - 1], id, text, code);
    forall i, j | 0 <= i && j == i + 1 && j < |t.states| ensures Next(p, t.states[i], t.states[j]) {
      LeadsIsNext(p, t, i);
    }
    Continued(p, run, t.states);
  }
}
