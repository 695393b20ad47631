/**
 AI proposals over an authoring draft: policies bind to entities, generated changes are expanded
 into guarded field-level changes, and an author adopts any selection of them.
 */
module Proposals {
  import opened Outcomes
  import opened JsonValues
  import opened Paths
  import opened Patch
  import opened Differences

  datatype Policy = Fillable | Undecided | Fixed

  datatype Draft = Draft(scenario: map<string, Json>, metadata: Json, policies: seq<(string, Policy)>, notes: string)

  function PolicyText(p: Policy): Json {
    Str(match p case Fillable => "fillable" case Undecided => "undecided" case Fixed => "fixed")
  }

  function PolicyFields(items: seq<(string, Policy)>): map<string, Json> {
    if items == [] then map[]
    else PolicyFields(items[..|items| - 1])[items[|items| - 1].0 := PolicyText(items[|items| - 1].1)]
  }

  // draft.model_dump(mode="json")
  function Dump(d: Draft): Json {
    Obj(map[
      "authoring_schema_version" := Num(1), "scenario" := Obj(d.scenario), "metadata" := d.metadata,
      "field_policies" := Obj(PolicyFields(d.policies)), "notes" := Str(d.notes)])
  }

  function ReadText(payload: Json, path: string): Result<Option<Json>> {
    var parts :- Parse(path);
    Ok(ReadAt(payload, parts))
  }

  function WriteText(payload: Json, path: string, value: Option<Json>): Result<Json> {
    var parts :- Parse(path);
    if parts == [] then Err(InvalidPath) else WriteAt(payload, parts, value)
  }

  // ---- policies ----

  predicate Digits(s: string) {
    s != "" && forall i :: 0 <= i < |s| ==> '0' <= s[i] <= '9'
  }

  function Decimal(s: string): nat
    requires forall i :: 0 <= i < |s| ==> '0' <= s[i] <= '9'
  {
    if s == "" then 0 else 10 * Decimal(s[..|s| - 1]) + (s[|s| - 1] - '0') as nat
  }

  function CollectionRef(row: Json, done: Path): RefView {
    match if done == [] then None else CollectionKey(Escape(done[|done| - 1]))
    case None => NoRef
    case Some(key) => RefOf(row, key)
  }

  // The entity segment a positional segment stands for; None for a row that is no entity.
  function Rebind(node: Option<Json>, part: string, done: Path): Result<Option<string>> {
    if node.Some? && node.value.Arr? && Digits(part) then
      var index := Decimal(part);
      if index >= |node.value.rows| then Ok(None)
      else
        match CollectionRef(node.value.rows[index], done)
        case NoRef => Ok(None)
        case BadRef => Err(InvalidRef)
        case Ref(segment) => Ok(Some(segment))
    else Ok(Some(part))
  }

  function Step(node: Option<Json>, part: string): Option<Json> {
    match node
    case None => None
    case Some(v) => if Child(v, part).Ok? then Some(Child(v, part).value) else None
  }

  // _canonical_policy over parsed segments
  function BindPolicy(node: Option<Json>, parts: Path, done: Path): Result<Path>
    decreases |parts|
  {
    if parts == [] then Ok(done)
    else
      match Rebind(node, parts[0], done)
      case Err(e) => Err(e)
      case Ok(None) => Ok(done)
      case Ok(Some(part)) => BindPolicy(Step(node, part), parts[1..], done + [part])
  }

  function CanonicalPolicy(payload: Json, path: string): Result<string> {
    var parts :- Parse(path);
    var bound :- BindPolicy(Some(payload), parts, []);
    Ok(Print(bound))
  }

  method BindPolicyPath(payload: Json, path: string) returns (r: Result<string>)
    ensures r == CanonicalPolicy(payload, path)
  {
    var parsed := Parse(path);
    if parsed.Err? { return Err(parsed.code); }
    var parts := parsed.value;
    var node, done := Some(payload), [];
    for i := 0 to |parts|
      invariant BindPolicy(Some(payload), parts, []) == BindPolicy(node, parts[i..], done)
    {
      assert parts[i..][1..] == parts[i + 1..];
      var bound := Rebind(node, parts[i], done);
      if bound.Err? { return Err(bound.code); }
      if bound.value.None? { return Ok(Print(done)); }
      done := done + [bound.value.value];
      node := Step(node, bound.value.value);
    }
    return Ok(Print(done));
  }

  function Priority(p: Policy): nat {
    match p case Fillable => 0 case Undecided => 1 case Fixed => 2
  }

  function Strengthen(m: map<string, Policy>, path: string, p: Policy): map<string, Policy> {
    if Priority(p) >= Priority(if path in m then m[path] else Fillable) then m[path := p] else m
  }

  // _policies
  function Policies(payload: Json, items: seq<(string, Policy)>, m: map<string, Policy>): Result<map<string, Policy>> {
    if items == [] then Ok(m)
    else
      var path :- CanonicalPolicy(payload, items[0].0);
      Policies(payload, items[1..], Strengthen(m, path, items[0].1))
  }

  method CollectPolicies(draft: Draft) returns (r: Result<map<string, Policy>>)
    ensures r == Policies(Dump(draft), draft.policies, map[])
  {
    var payload := Dump(draft);
    var policies := map[];
    for i := 0 to |draft.policies|
      invariant Policies(payload, draft.policies, map[]) == Policies(payload, draft.policies[i..], policies)
    {
      assert draft.policies[i..][1..] == draft.policies[i + 1..];
      var path := BindPolicyPath(payload, draft.policies[i].0);
      if path.Err? { return Err(path.code); }
      policies := Strengthen(policies, path.value, draft.policies[i].1);
    }
    return Ok(policies);
  }

  function FixedPaths(policies: map<string, Policy>): set<string> {
    set p | p in policies && policies[p].Fixed?
  }

  // any(policy == "fixed" and _overlap(path, protected) ...)
  predicate Protected(policies: map<string, Policy>, path: string) {
    exists p :: p in FixedPaths(policies) && Overlap(path, p)
  }

  // No fixed path reads differently in the two payloads.
  predicate FixedKept(policies: map<string, Policy>, original: Json, payload: Json) {
    forall p :: p in FixedPaths(policies) ==> ReadText(original, p) == ReadText(payload, p)
  }

  // ---- what a model may touch ----

  const IDENTITY: set<string> := {"scenario_ref", "version", "schema_version"}

  // A part that is a runtime identifier, or the ref field of the row just entered.
  predicate Forbidden(parts: Path, i: nat)
    requires 1 <= i < |parts|
  {
    parts[i] in IDENTITY || (parts[i] in REFS && "@" + parts[i] + "=" <= parts[i - 1])
  }

  predicate Writable(parts: Path) {
    && |parts| >= 2
    && (parts[0] == "metadata" || parts[0] == "scenario")
    && forall i :: 1 <= i < |parts| ==> !Forbidden(parts, i)
  }

  // _allowed
  function Allowed(path: string): Result<bool> {
    var parts :- Parse(path);
    Ok(Writable(parts))
  }

  // ---- preparing a proposal ----

  datatype Generated = Generated(fieldPath: string, remove: bool, value: Option<Json>, reason: string)

  datatype Change = Change(
    id: nat, fieldPath: string, remove: bool, beforeExists: bool, before: Json, after: Json,
    reason: string, undecided: bool)
  {
    function Before(): Option<Json> { if beforeExists then Some(before) else None }
    function After(): Option<Json> { if remove then None else Some(after) }
  }

  datatype FindingCode = ModelFinding | ProtectedField | FixedFieldChange

  datatype Finding = Finding(code: FindingCode, fieldPath: string)

  datatype Preparation = Preparation(candidate: Json, changes: seq<Change>, findings: seq<Finding>)

  datatype Proposal = Proposal(changes: seq<Change>, findings: seq<Finding>)

  const SCHEMA_PATH: string := "/" + "scenario" + "/" + "schema_version"

  function OrNull(v: Option<Json>): Json {
    match v case None => Null case Some(j) => j
  }

  function ChangeFor(policies: map<string, Policy>, id: nat, path: string, e: Entry, reason: string): Change {
    Change(id, path, e.after.None?, e.before.Some?, OrNull(e.before), OrNull(e.after), reason,
           exists p :: p in policies && policies[p].Undecided? && Overlap(path, p))
  }

  // The body of the loop over _diff(candidate, tentative)
  function AcceptEntry(original: Json, policies: map<string, Policy>, reason: string, st: Preparation,
          e: Entry): Result<Preparation>
  {
    var path := Print(e.path);
    var allowed :- Allowed(path);
    if !allowed || Protected(policies, path) then
      Ok(st.(findings := st.findings + [Finding(FixedFieldChange, path)]))
    else
      var trial :- WriteText(st.candidate, path, e.after);
      if !FixedKept(policies, original, trial) then
        Ok(st.(findings := st.findings + [Finding(FixedFieldChange, path)]))
      else
        Ok(st.(candidate := trial, changes := st.changes + [ChangeFor(policies, |st.changes|, path, e, reason)]))
  }

  function AcceptEntries(original: Json, policies: map<string, Policy>, reason: string, st: Preparation,
          es: seq<Entry>): Result<Preparation>
    decreases |es|
  {
    if es == [] then Ok(st)
    else
      var next :- AcceptEntry(original, policies, reason, st, es[0]);
      AcceptEntries(original, policies, reason, next, es[1..])
  }

  // The entries a generated change expands to; None when it is rejected as a whole.
  function Expand(checkOnly: bool, candidate: Json, g: Generated): Result<Option<seq<Entry>>> {
    if checkOnly then Ok(None)
    else
      var container := g.fieldPath == "/scenario" || g.fieldPath == "/metadata";
      var allowed :- if container then Ok(true) else Allowed(g.fieldPath);
      if !allowed then Ok(None)
      else if g.value.None? then Err(InvalidJson)
      else
        var tentative :- WriteText(candidate, g.fieldPath, if g.remove then None else g.value);
        var es :- Diff("", candidate, tentative);
        Ok(Some(es))
  }

  function AcceptGenerated(original: Json, policies: map<string, Policy>, checkOnly: bool, st: Preparation,
          gs: seq<Generated>): Result<Preparation>
    decreases |gs|
  {
    if gs == [] then Ok(st)
    else
      var es :- Expand(checkOnly, st.candidate, gs[0]);
      var next :- if es.None? then Ok(st.(findings := st.findings + [Finding(ProtectedField, gs[0].fieldPath)]))
                  else AcceptEntries(original, policies, gs[0].reason, st, es.value);
      AcceptGenerated(original, policies, checkOnly, next, gs[1..])
  }

  // The supported schema is supplied by the server when a draft is made concrete.
  predicate InitializesSchema(base: Draft, policies: map<string, Policy>, concretize: bool) {
    concretize && "schema_version" !in base.scenario && !Protected(policies, SCHEMA_PATH)
  }

  function Start(base: Draft, policies: map<string, Policy>, concretize: bool, findings: seq<Finding>): Preparation {
    var original := Dump(base);
    if InitializesSchema(base, policies, concretize) then
      Preparation(
        Obj(original.fields["scenario" := Obj(base.scenario["schema_version" := Num(2)])]),
        [Change(0, SCHEMA_PATH, false, false, Null, Num(2),
            "Initialize the server-supported authored scenario schema.", false)],
        findings)
    else Preparation(original, [], findings)
  }

  predicate SomeOverlap(changes: seq<Change>) {
    exists i, j :: 0 <= i < j < |changes| && Overlap(changes[i].fieldPath, changes[j].fieldPath)
  }

  // prepare_proposal. `validate` is AuthoringDraft.model_validate.
  function Prepare(base: Draft, gs: seq<Generated>, findings: seq<Finding>, checkOnly: bool, concretize: bool,
          validate: Json -> Option<Draft>): Result<(Proposal, Draft)>
  {
    var policies :- Policies(Dump(base), base.policies, map[]);
    var st :- AcceptGenerated(Dump(base), policies, checkOnly, Start(base, policies, concretize, findings), gs);
    if SomeOverlap(st.changes) then Err(OverlappingChanges)
    else if validate(st.candidate).None? then Err(InvalidDraft)
    else Ok((Proposal(st.changes, st.findings), validate(st.candidate).value))
  }

  method PrepareProposal(base: Draft, gs: seq<Generated>, findings: seq<Finding>, checkOnly: bool, concretize: bool,
          validate: Json -> Option<Draft>)
    returns (r: Result<(Proposal, Draft)>)
    ensures r == Prepare(base, gs, findings, checkOnly, concretize, validate)
  {
    var original := Dump(base);
    var collected := CollectPolicies(base);
    if collected.Err? { return Err(collected.code); }
    var policies := collected.value;
    var st := Start(base, policies, concretize, findings);
    for i := 0 to |gs|
      invariant AcceptGenerated(original, policies, checkOnly, Start(base, policies, concretize, findings), gs)
             == AcceptGenerated(original, policies, checkOnly, st, gs[i..])
    {
      assert gs[i..][1..] == gs[i + 1..];
      var expanded := Expand(checkOnly, st.candidate, gs[i]);
      if expanded.Err? { return Err(expanded.code); }
      if expanded.value.None? {
        st := st.(findings := st.findings + [Finding(ProtectedField, gs[i].fieldPath)]);
        continue;
      }
      var es, before := expanded.value.value, st;
      for k := 0 to |es|
        invariant AcceptEntries(original, policies, gs[i].reason, before, es)
               == AcceptEntries(original, policies, gs[i].reason, st, es[k..])
      {
        assert es[k..][1..] == es[k + 1..];
        var next := AcceptEntry(original, policies, gs[i].reason, st, es[k]);
        if next.Err? { return Err(next.code); }
        st := next.value;
      }
    }
    if SomeOverlap(st.changes) { return Err(OverlappingChanges); }
    var draft := validate(st.candidate);
    if draft.None? { return Err(InvalidDraft); }
    return Ok((Proposal(st.changes, st.findings), draft.value));
  }

  // ---- adopting changes ----

  predicate SchemaInitialization(base: Draft, c: Change) {
    && c.fieldPath == SCHEMA_PATH && !c.beforeExists && !c.remove && c.after == Num(2)
    && "schema_version" !in base.scenario
  }

  // The body of the loop of adopt_changes
  function AdoptChange(base: Draft, policies: map<string, Policy>, payload: Json, c: Change): Result<Json> {
    var allowed :- Allowed(c.fieldPath);
    if (!allowed && !SchemaInitialization(base, c)) || Protected(policies, c.fieldPath) then Err(FixedField)
    else
      var found :- ReadText(payload, c.fieldPath);
      if found.Some? != c.beforeExists || (c.beforeExists && found.value != c.before) then Err(BaseConflict)
      else WriteText(payload, c.fieldPath, c.After())
  }

  function AdoptLoop(base: Draft, policies: map<string, Policy>, payload: Json, changes: seq<Change>,
          ids: set<nat>): Result<Json>
    decreases |changes|
  {
    if changes == [] then Ok(payload)
    else if changes[0].id !in ids then AdoptLoop(base, policies, payload, changes[1..], ids)
    else
      var next :- AdoptChange(base, policies, payload, changes[0]);
      AdoptLoop(base, policies, next, changes[1..], ids)
  }

  function Ids(changes: seq<Change>): set<nat> {
    set c | c in changes :: c.id
  }

  // adopt_changes
  function Adopt(base: Draft, changes: seq<Change>, ids: set<nat>, validate: Json -> Option<Draft>): Result<Draft> {
    if !(ids <= Ids(changes)) then Err(UnknownChange)
    else
      var policies :- Policies(Dump(base), base.policies, map[]);
      var payload :- AdoptLoop(base, policies, Dump(base), changes, ids);
      if !FixedKept(policies, Dump(base), payload) then Err(FixedField)
      else if validate(payload).None? then Err(InvalidDraft)
      else Ok(validate(payload).value)
  }

  method AdoptChanges(base: Draft, changes: seq<Change>, ids: set<nat>, validate: Json -> Option<Draft>)
    returns (r: Result<Draft>)
    ensures r == Adopt(base, changes, ids, validate)
  {
    if !(ids <= Ids(changes)) { return Err(UnknownChange); }
    var payload := Dump(base);
    var collected := CollectPolicies(base);
    if collected.Err? { return Err(collected.code); }
    var policies := collected.value;
    for i := 0 to |changes|
      invariant AdoptLoop(base, policies, Dump(base), changes, ids) ==
        AdoptLoop(base, policies, payload, changes[i..], ids)
    {
      assert changes[i..][1..] == changes[i + 1..];
      if changes[i].id !in ids { continue; }
      var next := AdoptChange(base, policies, payload, changes[i]);
      if next.Err? { return Err(next.code); }
      payload := next.value;
    }
    if !FixedKept(policies, Dump(base), payload) { return Err(FixedField); }
    var draft := validate(payload);
    if draft.None? { return Err(InvalidDraft); }
    return Ok(draft.value);
  }
}
