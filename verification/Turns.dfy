/**
 The turn rows of one campaign and the repository operations on them. Every operation is one
 atomic step under the campaign's row lock; `now` is the database clock it reads.
 */
module Turns {
  import opened Outcomes

  datatype Route = Narrative | Mechanical

  datatype Routing = Routing(route: Route, version: string, reasons: seq<string>)

  datatype ResolutionStatus = Pending | Resolving | Committed | NotApplied | Failed

  datatype NarrationStatus = Waiting | Generating | Completed | Fallback

  // Epoch, lease, attempts and deadline of one of the two phases of a turn.
  datatype Phase = Phase(epoch: nat, lease: Option<int>, attempts: nat, started: bool, deadline: Option<int>,
      next: Option<int>)

  datatype Turn = Turn(
    expected: nat, resolution: ResolutionStatus, narration: NarrationStatus,
    route: Option<Route>, routing: Option<Routing>, committed: Option<nat>, calls: nat, budget: nat,
    res: Phase, nar: Phase, input: Option<string>, text: Option<string>, recovery: Option<string>)

  datatype Event = Event(turn: nat, sequence: nat, version: nat, narration: bool)

  datatype Store = Store(now: int, version: nat, sequence: nat, turns: seq<Turn>, events: seq<Event>,
      ledger: set<(nat, nat)>)

  // Limits of a worker phase.
  datatype Limits = Limits(lease: nat, attempts: nat, deadline: nat)

  datatype Reply =
    | Refused               // nothing was done
    | Stale                 // the worker lost its lease
    | Late                  // the phase deadline has passed
    | Conflict              // the campaign's version has moved on
    | Invalid               // the operation's own checks failed
    | Done
    | Retry | Terminal      // what follows a recorded failure
    | AtVersion(version: nat)
    | Leased(turn: nat, epoch: nat, cleanup: bool)

  // ---- leases and deadlines ----

  const FRESH := Phase(0, None, 0, false, None, None)

  predicate Held(p: Phase, now: int) {
    p.lease.Some? && p.lease.value > now
  }

  predicate LeaseOver(p: Phase, now: int) {
    p.lease.Some? && p.lease.value < now
  }

  predicate InTime(p: Phase, now: int) {
    p.deadline.Some? && p.deadline.value > now
  }

  // terminal_cleanup: nothing is left but to close the phase
  predicate Spent(p: Phase, now: int, limits: Limits) {
    p.started && (p.attempts >= limits.attempts || (p.deadline.Some? && p.deadline.value <= now))
  }

  predicate Ready(p: Phase, now: int, limits: Limits) {
    && p.attempts < limits.attempts
    && (p.deadline.None? || p.deadline.value > now)
    && (p.next.None? || p.next.value <= now)
  }

  function Claimed(p: Phase, now: int, limits: Limits): Phase {
    p.(epoch := p.epoch + 1, lease := Some(now + limits.lease),
        attempts := if Spent(p, now, limits) then p.attempts else p.attempts + 1,
       started := true, deadline := if p.deadline.Some? then p.deadline else Some(now + limits.deadline))
  }

  // ---- rows ----

  predicate Resolved(t: Turn) {
    t.resolution.Committed? || t.resolution.NotApplied? || t.resolution.Failed?
  }

  predicate Narrated(t: Turn) {
    t.narration.Completed? || t.narration.Fallback?
  }

  predicate Open(t: Turn) {
    !Resolved(t) || !Narrated(t)
  }

  function NewTurn(expected: nat, budget: nat): Turn {
    Turn(expected, Pending, Waiting, None, None, None, 0, budget, FRESH, FRESH, None, None, None)
  }

  // The calls a turn may still reserve
  predicate CallsLeft(t: Turn) {
    t.calls < t.budget && (t.route == Some(Narrative) ==> t.calls < 1)
  }

  predicate Resolver(t: Turn, epoch: nat) {
    t.resolution.Resolving? && t.res.epoch == epoch
  }

  predicate Narrator(t: Turn, epoch: nat) {
    t.narration.Generating? && t.nar.epoch == epoch
  }

  predicate Claimable(t: Turn, now: int, limits: Limits) {
    && !Resolved(t)
    && (t.resolution.Pending? || LeaseOver(t.res, now))
    && (Ready(t.res, now, limits) || Spent(t.res, now, limits))
  }

  predicate NarrationClaimable(t: Turn, now: int, limits: Limits) {
    && Resolved(t) && !Narrated(t)
    && (t.narration.Waiting? || LeaseOver(t.nar, now))
    && (Ready(t.nar, now, limits) || Spent(t.nar, now, limits))
  }

  predicate AcceptsRoute(t: Turn, epoch: nat, now: int, r: Routing) {
    Resolver(t, epoch) && Held(t.res, now) && (t.routing.None? || t.routing == Some(r))
  }

  function Routed(t: Turn, r: Routing): Turn {
    t.(route := if t.route.Some? then t.route else Some(r.route),
        routing := if t.routing.Some? then t.routing else Some(r))
  }

  function ResolutionFailed(t: Turn, now: int, limits: Limits): Turn {
    if t.res.attempts < limits.attempts && InTime(t.res, now) && CallsLeft(t) then
      t.(resolution := Pending, res := t.res.(lease := None, next := Some(now)))
    else
      t.(resolution := Failed, res := t.res.(lease := None, next := None))
  }

  function NarrationFailed(t: Turn, now: int, limits: Limits): Turn {
    if t.nar.attempts < limits.attempts && InTime(t.nar, now) && CallsLeft(t) then
      t.(narration := Waiting, nar := t.nar.(lease := None, next := Some(now)))
    else
      t.(nar := t.nar.(next := None))
  }

  // ---- the campaign ----

  function Put(s: Store, id: nat, t: Turn): Store
    requires id < |s.turns|
  {
    s.(turns := s.turns[id := t])
  }

  // Appends events of one turn, numbered on from the campaign's sequence
  function Logged(s: Store, id: nat, count: nat, version: nat, narration: bool): (r: Store)
    ensures r.sequence == s.sequence + count && |r.events| == |s.events| + count
    ensures r == s.(sequence := r.sequence, events := r.events)
    ensures forall k :: 0 <= k < |s.events| ==> r.events[k] == s.events[k]
    ensures forall k :: |s.events| <= k < |r.events| ==>
      r.events[k] == Event(id, s.sequence + 1 + k - |s.events|, version, narration)
  {
    s.(sequence := s.sequence + count,
        events := s.events + seq(count, k requires 0 <= k < count => Event(id, s.sequence + 1 + k, version, narration)))
  }

  predicate AnyOpen(s: Store) {
    exists i :: 0 <= i < |s.turns| && Open(s.turns[i])
  }

  // accept_pending; `admitted` stands for authorization, request replay, availability and usage limits
  function Accept(s: Store, expected: nat, budget: nat, admitted: bool): (Store, Reply) {
    if !admitted || AnyOpen(s) then (s, Refused)
    else if expected != s.version then (s, Conflict)
    else (s.(turns := s.turns + [NewTurn(expected, budget)]), Done)
  }

  function FirstClaimable(s: Store, limits: Limits, narration: bool, i: nat): (r: nat)
    requires i <= |s.turns|
    ensures i <= r <= |s.turns|
    ensures r < |s.turns| ==> if narration then NarrationClaimable(s.turns[r], s.now, limits)
      else Claimable(s.turns[r], s.now, limits)
    ensures forall j :: i <= j < r ==>
      !(if narration then NarrationClaimable(s.turns[j], s.now, limits) else Claimable(s.turns[j], s.now, limits))
    decreases |s.turns| - i
  {
    if i == |s.turns| || (if narration then NarrationClaimable(s.turns[i], s.now, limits)
        else Claimable(s.turns[i], s.now, limits)) then i
    else FirstClaimable(s, limits, narration, i + 1)
  }

  // acquire_lease of the turn repository: the oldest claimable turn of a story that is not blocked
  function Claim(s: Store, limits: Limits, blocked: bool): (Store, Reply) {
    var id := FirstClaimable(s, limits, false, 0);
    if blocked || id == |s.turns| then (s, Refused)
    else
      var t := s.turns[id];
      (Put(s, id, t.(resolution := Resolving, res := Claimed(t.res, s.now, limits))),
          Leased(id, t.res.epoch + 1, Spent(t.res, s.now, limits)))
  }

  function RecordRoute(s: Store, id: nat, epoch: nat, r: Routing): (Store, Reply)
    requires id < |s.turns|
  {
    if AcceptsRoute(s.turns[id], epoch, s.now, r) then (Put(s, id, Routed(s.turns[id], r)), Done) else (s, Refused)
  }

  function Promote(s: Store, id: nat, epoch: nat): (Store, Reply)
    requires id < |s.turns|
  {
    var t := s.turns[id];
    if Resolver(t, epoch) && Held(t.res, s.now)
      && t.route == Some(Narrative) then (Put(s, id, t.(route := Some(Mechanical))), Done)
    else (s, Refused)
  }

  predicate Owns(t: Turn, narration: bool, epoch: nat, now: int) {
    if narration then Narrator(t, epoch) && Held(t.nar, now) && InTime(t.nar, now)
    else Resolver(t, epoch) && Held(t.res, now) && InTime(t.res, now)
  }

  // reserve; `admitted` is the usage ledger's answer and `later` the clock once its lock is held
  function Reserve(s: Store, id: nat, narration: bool, epoch: nat, admitted: bool, later: int): (Store, Reply)
    requires id < |s.turns|
  {
    var t := s.turns[id];
    var clock := if later > s.now then later else s.now;
    if !Owns(t, narration, epoch, s.now) || !CallsLeft(t) then (s, Refused)
    else if ((id, t.calls + 1) !in s.ledger && !admitted)
      || !Owns(t, narration, epoch, clock) then (s.(now := clock), Refused)
    else (Put(s, id, t.(calls := t.calls + 1)).(now := clock, ledger := s.ledger + {(id, t.calls + 1)}), Done)
  }

  function RecordFailure(s: Store, id: nat, narration: bool, epoch: nat, limits: Limits): (Store, Reply)
    requires id < |s.turns|
  {
    var t := s.turns[id];
    if narration then
      if !Narrator(t, epoch) || !Held(t.nar, s.now) then (s, Refused)
      else (Put(s, id, NarrationFailed(t, s.now, limits)),
          if NarrationFailed(t, s.now, limits).narration.Waiting? then Retry else Terminal)
    else
      if !Resolver(t, epoch) || !Held(t.res, s.now) then (s, Refused)
      else (Put(s, id, ResolutionFailed(t, s.now, limits)),
          if ResolutionFailed(t, s.now, limits).resolution.Pending? then Retry else Terminal)
  }

  function FinalizeNotApplied(s: Store, id: nat, epoch: nat, text: string): (Store, Reply)
    requires id < |s.turns|
  {
    var t := s.turns[id];
    if t.resolution.NotApplied? && t.narration.Completed? then (s, Done)
    else if !Resolver(t, epoch) then (s, Refused)
    else if !Held(t.res, s.now) then (s, Stale)
    else if !InTime(t.res, s.now) then (s, Late)
    else
      (Logged(Put(s, id, t.(resolution := NotApplied, narration := Completed, text := Some(text),
          res := t.res.(lease := None))), id, 1, s.version, true), Done)
  }

  // What a worker asks to commit: `valid` stands for authorization and the scenario, projection
  // and canonical-value checks, `changed` for a change of the canonical state.
  datatype Bundle = Bundle(base: nat, valid: bool, changed: bool, events: nat, input: string)

  function CommitResolution(s: Store, id: nat, epoch: nat, b: Bundle): (Store, Reply)
    requires id < |s.turns|
  {
    var t := s.turns[id];
    if t.resolution.Committed? then (s, if t.committed.Some? then AtVersion(t.committed.value) else Invalid)
    else if !Resolver(t, epoch) then (s, Stale)
    else if !b.valid then (s, Invalid)
    else if s.version != b.base then (s, Conflict)
    else if !Held(t.res, s.now) then (s, Stale)
    else if !InTime(t.res, s.now) then (s, Late)
    else
      var version := b.base + (if b.changed then 1 else 0);
      (Logged(Put(s, id, t.(resolution := Committed, route := Some(Mechanical), committed := Some(version),
          input := Some(b.input))).(version := version),
              id, b.events, version, false),
       AtVersion(version))
  }

  function CommitNarrative(s: Store, id: nat, epoch: nat, base: nat, authorized: bool, text: string): (Store, Reply)
    requires id < |s.turns|
  {
    var t := s.turns[id];
    if t.resolution.Committed?
      && t.narration.Completed? then (s, if t.committed.Some? then AtVersion(t.committed.value) else Invalid)
    else if !Resolver(t, epoch) || t.route != Some(Narrative) then (s, Stale)
    else if !authorized then (s, Invalid)
    else if s.version != base then (s, Conflict)
    else if !Held(t.res, s.now) then (s, Stale)
    else if !InTime(t.res, s.now) then (s, Late)
    else
      (Logged(Put(s, id, t.(resolution := Committed, narration := Completed, committed := Some(s.version),
          text := Some(text), res := t.res.(lease := None))),
              id, 1, s.version, true),
       AtVersion(s.version))
  }

  // acquire_lease of the narration repository
  function ClaimNarration(s: Store, limits: Limits, blocked: bool): (Store, Reply) {
    var id := FirstClaimable(s, limits, true, 0);
    if blocked || id == |s.turns| then (s, Refused)
    else
      var t := s.turns[id];
      (Put(s, id, t.(narration := Generating, nar := Claimed(t.nar, s.now, limits))),
          Leased(id, t.nar.epoch + 1, Spent(t.nar, s.now, limits)))
  }

  // save_conditionally
  function SaveNarration(s: Store, id: nat, epoch: nat, text: string, fallback: Option<string>): (Store, Reply)
    requires id < |s.turns|
  {
    var t := s.turns[id];
    if !Narrator(t, epoch) || !Held(t.nar, s.now) || (fallback.None? && !InTime(t.nar, s.now)) then (s, Refused)
    else
      (Logged(Put(s, id, t.(narration := if fallback.Some? then Fallback else Completed, text := Some(text),
          recovery := fallback, nar := t.nar.(lease := None))),
              id, 1, if t.committed.Some? then t.committed.value else s.version, true),
       Done)
  }

  // ---- the repository, whose methods update the rows in place ----

  class TurnRepository {
    var now: int
    var version: nat
    var sequence: nat
    var turns: seq<Turn>
    var events: seq<Event>
    var ledger: set<(nat, nat)>

    ghost function Contents(): Store reads this {
      Store(now, version, sequence, turns, events, ledger)
    }

    constructor (initial: nat)
      ensures Contents() == Store(0, initial, 0, [], [], {})
    {
      now, version, sequence := 0, initial, 0;
      turns, events, ledger := [], [], {};
    }

    method AcceptPending(expected: nat, budget: nat, admitted: bool) returns (r: Reply)
      modifies this`turns
      ensures (Contents(), r) == Accept(old(Contents()), expected, budget, admitted)
    {
      if !admitted { return Refused; }
      var i := 0;
      while i < |turns|
        invariant 0 <= i <= |turns| && Contents() == old(Contents())
        invariant forall j :: 0 <= j < i ==> !Open(turns[j])
      {
        if Open(turns[i]) { return Refused; }
        i := i + 1;
      }
      if expected != version { return Conflict; }
      turns := turns + [NewTurn(expected, budget)];
      r := Done;
    }

    method AcquireLease(limits: Limits, blocked: bool) returns (r: Reply)
      modifies this`turns
      ensures (Contents(), r) == Claim(old(Contents()), limits, blocked)
    {
      var id := 0;
      while id < |turns| && !Claimable(turns[id], now, limits)
        invariant 0 <= id <= |turns| && Contents() == old(Contents())
        invariant FirstClaimable(Contents(), limits, false, 0) == FirstClaimable(Contents(), limits, false, id)
      {
        id := id + 1;
      }
      if blocked || id == |turns| { return Refused; }
      var t := turns[id];
      var cleanup := Spent(t.res, now, limits);
      turns := turns[id := t.(resolution := Resolving, res := Claimed(t.res, now, limits))];
      r := Leased(id, t.res.epoch + 1, cleanup);
    }

    method RecordInitialRoute(id: nat, epoch: nat, routing: Routing) returns (r: Reply)
      requires id < |turns|
      modifies this`turns
      ensures (Contents(), r) == RecordRoute(old(Contents()), id, epoch, routing)
    {
      var t := turns[id];
      if !AcceptsRoute(t, epoch, now, routing) { return Refused; }
      if t.route.None? { t := t.(route := Some(routing.route)); }
      if t.routing.None? { t := t.(routing := Some(routing)); }
      turns := turns[id := t];
      r := Done;
    }

    method PromoteToMechanical(id: nat, epoch: nat) returns (r: Reply)
      requires id < |turns|
      modifies this`turns
      ensures (Contents(), r) == Promote(old(Contents()), id, epoch)
    {
      var t := turns[id];
      if !Resolver(t, epoch) || !Held(t.res, now) || t.route != Some(Narrative) { return Refused; }
      turns := turns[id := t.(route := Some(Mechanical))];
      r := Done;
    }

    // The count is raised inside a savepoint that is rolled back when the ledger refuses the call
    // or the lease or the deadline has passed meanwhile.
    method ReserveCall(id: nat, narration: bool, epoch: nat, admitted: bool, later: int) returns (r: Reply)
      requires id < |turns|
      modifies this`now, this`turns, this`ledger
      ensures (Contents(), r) == Reserve(old(Contents()), id, narration, epoch, admitted, later)
    {
      var t := turns[id];
      if !Owns(t, narration, epoch, now) || !CallsLeft(t) { return Refused; }
      var savepoint := (turns, ledger);
      turns := turns[id := t.(calls := t.calls + 1)];
      if later > now { now := later; }
      if (id, t.calls + 1) !in ledger {
        if !admitted {
          turns, ledger := savepoint.0, savepoint.1;
          return Refused;
        }
        ledger := ledger + {(id, t.calls + 1)};
      } else {
        assert ledger + {(id, t.calls + 1)} == ledger;
      }
      if !Owns(turns[id], narration, epoch, now) {
        turns, ledger := savepoint.0, savepoint.1;
        return Refused;
      }
      r := Done;
    }

    method RecordTurnFailure(id: nat, narration: bool, epoch: nat, limits: Limits) returns (r: Reply)
      requires id < |turns|
      modifies this`turns
      ensures (Contents(), r) == RecordFailure(old(Contents()), id, narration, epoch, limits)
    {
      var t := turns[id];
      var p := if narration then t.nar else t.res;
      if !(if narration then Narrator(t, epoch) else Resolver(t, epoch)) || !Held(p, now) { return Refused; }
      var retry := p.attempts < limits.attempts && InTime(p, now) && CallsLeft(t);
      if narration {
        if retry { t := t.(narration := Waiting, nar := p.(lease := None, next := Some(now))); }
        else { t := t.(nar := p.(next := None)); }
      } else {
        t := t.(resolution := if retry then Pending else Failed,
            res := p.(lease := None, next := if retry then Some(now) else None));
      }
      turns := turns[id := t];
      r := if retry then Retry else Terminal;
    }

    method Log(id: nat, count: nat, atVersion: nat, narration: bool)
      modifies this`sequence, this`events
      ensures Contents() == Logged(old(Contents()), id, count, atVersion, narration)
    {
      var first := sequence + 1;
      ghost var before := events;
      sequence := sequence + count;
      for k := 0 to count
        invariant sequence == first - 1 + count
        invariant events == before + seq(k, i requires 0 <= i < k => Event(id, first + i, atVersion, narration))
      {
        events := events + [Event(id, first + k, atVersion, narration)];
      }
      ghost var logged := Logged(old(Contents()), id, count, atVersion, narration);
      assert events == logged.events && sequence == logged.sequence;
    }

    method CloseNotApplied(id: nat, epoch: nat, text: string) returns (r: Reply)
      requires id < |turns|
      modifies this`turns, this`sequence, this`events
      ensures (Contents(), r) == FinalizeNotApplied(old(Contents()), id, epoch, text)
    {
      var t := turns[id];
      if t.resolution.NotApplied? && t.narration.Completed? { return Done; }
      if !Resolver(t, epoch) { return Refused; }
      if !Held(t.res, now) { return Stale; }
      if !InTime(t.res, now) { return Late; }
      turns := turns[id := t.(resolution := NotApplied, narration := Completed, text := Some(text),
          res := t.res.(lease := None))];
      Log(id, 1, version, true);
      r := Done;
    }

    method Commit(id: nat, epoch: nat, b: Bundle) returns (r: Reply)
      requires id < |turns|
      modifies this`version, this`turns, this`sequence, this`events
      ensures (Contents(), r) == CommitResolution(old(Contents()), id, epoch, b)
    {
      var t := turns[id];
      if t.resolution.Committed? { return if t.committed.Some? then AtVersion(t.committed.value) else Invalid; }
      if !Resolver(t, epoch) { return Stale; }
      if !b.valid { return Invalid; }
      if version != b.base { return Conflict; }
      if !Held(t.res, now) { return Stale; }
      if !InTime(t.res, now) { return Late; }
      version := b.base + if b.changed then 1 else 0;
      turns := turns[id := t.(resolution := Committed, route := Some(Mechanical), committed := Some(version),
          input := Some(b.input))];
      Log(id, b.events, version, false);
      r := AtVersion(version);
    }

    method CommitNarration(id: nat, epoch: nat, base: nat, authorized: bool, text: string) returns (r: Reply)
      requires id < |turns|
      modifies this`turns, this`sequence, this`events
      ensures (Contents(), r) == CommitNarrative(old(Contents()), id, epoch, base, authorized, text)
    {
      var t := turns[id];
      if t.resolution.Committed? && t.narration.Completed? {
        return if t.committed.Some? then AtVersion(t.committed.value) else Invalid;
      }
      if !Resolver(t, epoch) || t.route != Some(Narrative) { return Stale; }
      if !authorized { return Invalid; }
      if version != base { return Conflict; }
      if !Held(t.res, now) { return Stale; }
      if !InTime(t.res, now) { return Late; }
      turns := turns[id := t.(resolution := Committed, narration := Completed, committed := Some(version),
          text := Some(text), res := t.res.(lease := None))];
      Log(id, 1, version, true);
      r := AtVersion(version);
    }

    method AcquireNarrationLease(limits: Limits, blocked: bool) returns (r: Reply)
      modifies this`turns
      ensures (Contents(), r) == ClaimNarration(old(Contents()), limits, blocked)
    {
      var id := 0;
      while id < |turns| && !NarrationClaimable(turns[id], now, limits)
        invariant 0 <= id <= |turns| && Contents() == old(Contents())
        invariant FirstClaimable(Contents(), limits, true, 0) == FirstClaimable(Contents(), limits, true, id)
      {
        id := id + 1;
      }
      if blocked || id == |turns| { return Refused; }
      var t := turns[id];
      var cleanup := Spent(t.nar, now, limits);
      turns := turns[id := t.(narration := Generating, nar := Claimed(t.nar, now, limits))];
      r := Leased(id, t.nar.epoch + 1, cleanup);
    }

    method SaveConditionally(id: nat, epoch: nat, text: string, fallback: Option<string>) returns (r: Reply)
      requires id < |turns|
      modifies this`turns, this`sequence, this`events
      ensures (Contents(), r) == SaveNarration(old(Contents()), id, epoch, text, fallback)
    {
      var t := turns[id];
      if !Narrator(t, epoch) || !Held(t.nar, now) || (fallback.None? && !InTime(t.nar, now)) { return Refused; }
      turns := turns[id := t.(narration := if fallback.Some? then Fallback else Completed, text := Some(text),
          recovery := fallback, nar := t.nar.(lease := None))];
      Log(id, 1, if t.committed.Some? then t.committed.value else version, true);
      r := Done;
    }
  }
}
