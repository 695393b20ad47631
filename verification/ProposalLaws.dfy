/**
 What preparing and adopting a proposal guarantee together: all changes of a prepared proposal
 rebuild the validated candidate, any selection of them adopts without a conflict, and whatever
 a proposal contains, protected and identifying parts of the draft are kept.
 */
module ProposalLaws {
  import opened Outcomes
  import opened JsonValues
  import opened Paths
  import opened Patch
  import opened Differences
  import opened RoundTrip
  import opened Proposals

  // ---- the recorded changes replay the preparation ----

  ghost function Parts(c: Change): Path
    requires Parse(c.fieldPath).Ok?
  {
    Parse(c.fieldPath).value
  }

  // The change can be written at `payload`, and its recorded `before` is what is there.
  ghost predicate Ready(payload: Json, c: Change) {
    && Parse(c.fieldPath).Ok?
    && Parts(c) != []
    && Fits(payload, "", Parts(c))
    && ReadAt(payload, Parts(c)) == c.Before()
    && WriteAt(payload, Parts(c), c.After()).Ok?
  }

  // Ready, and below arrays whose rows are told apart by their refs: expansions enter no others.
  ghost predicate Steady(payload: Json, c: Change) {
    Ready(payload, c) && KeyedAlong(payload, "", Parts(c))
  }

  // The change sets another value than the one that is there.
  ghost predicate Alters(c: Change) {
    c.Before() != c.After()
  }

  // The payload after writing the changes in order.
  ghost function Written(original: Json, changes: seq<Change>): Result<Json> {
    if changes == [] then Ok(original)
    else
      var payload :- Written(original, changes[..|changes| - 1]);
      WriteText(payload, changes[|changes| - 1].fieldPath, changes[|changes| - 1].After())
  }

  ghost predicate Linked(original: Json, changes: seq<Change>) {
    forall j :: 0 <= j < |changes| ==>
      Written(original, changes[..j]).Ok? && Steady(Written(original, changes[..j]).value, changes[j])
        && Alters(changes[j])
  }

  ghost predicate Permitted(base: Draft, policies: map<string, Policy>, c: Change) {
    (Allowed(c.fieldPath) == Ok(true) || SchemaInitialization(base, c)) && !Protected(policies, c.fieldPath)
  }

  ghost predicate Built(base: Draft, policies: map<string, Policy>, st: Preparation) {
    && Linked(Dump(base), st.changes)
    && Written(Dump(base), st.changes) == Ok(st.candidate)
    && FixedKept(policies, Dump(base), st.candidate)
    && (forall c :: c in st.changes ==> Permitted(base, policies, c))
    && (forall j :: 0 <= j < |st.changes| ==> st.changes[j].id == j)
  }

  lemma BuiltStep(base: Draft, policies: map<string, Policy>, st: Preparation, c: Change, payload: Json)
    requires Built(base, policies, st) && Steady(st.candidate, c) && Alters(c) && Permitted(base, policies, c)
    requires WriteAt(st.candidate, Parts(c), c.After()) == Ok(payload)
    requires FixedKept(policies, Dump(base), payload) && c.id == |st.changes|
    ensures Built(base, policies, st.(candidate := payload, changes := st.changes + [c]))
  {
    LinkedStep(Dump(base), st.changes, c, st.candidate);
  }

  lemma {:induction false} LinkedStep(doc: Json, changes: seq<Change>, c: Change, candidate: Json)
    requires Linked(doc, changes) && Written(doc, changes) == Ok(candidate) && Steady(candidate, c) && Alters(c)
    ensures Linked(doc, changes + [c])
    ensures Written(doc, changes + [c]) == WriteAt(candidate, Parts(c), c.After())
  {
    var more := changes + [c];
    assert more[..|changes|] == changes;
    forall j | 0 <= j < |more|
      ensures Written(doc, more[..j]).Ok? && Steady(Written(doc, more[..j]).value, more[j]) && Alters(more[j])
    {
      assert more[..j] == changes[..j];
      assert j == |changes| ==> changes[..j] == changes;
    }
  }

  // An entry of a difference can still be written where it was found.
  ghost predicate Pending(payload: Json, e: Entry) {
    && e.before != e.after
    && (e.path != [] ==>
          Fits(payload, "", e.path) && ReadAt(payload, e.path) == e.before && WriteAt(payload, e.path, e.after).Ok?)
    && KeyedAlong(payload, "", e.path)
  }

  // One entry is either left out or written as a recorded change.
  lemma AcceptBuilt(base: Draft, policies: map<string, Policy>, reason: string, st: Preparation, e: Entry)
    requires Built(base, policies, st) && Pending(st.candidate, e)
    requires AcceptEntry(Dump(base), policies, reason, st, e).Ok?
    ensures Built(base, policies, AcceptEntry(Dump(base), policies, reason, st, e).value)
    ensures e.path != []
    ensures AcceptEntry(Dump(base), policies, reason, st, e).value.candidate == st.candidate ||
      WriteAt(st.candidate, e.path, e.after) == Ok(AcceptEntry(Dump(base), policies, reason, st, e).value.candidate)
  {
    var path := Print(e.path);
    assert Allowed(path).Ok?;
    if e.path != [] { ParsePrint(e.path); }
    assert Parse(path) == Ok(e.path);
    var next := AcceptEntry(Dump(base), policies, reason, st, e).value;
    if next.changes != st.changes {
      var c := ChangeFor(policies, |st.changes|, path, e, reason);
      assert c.Before() == e.before && c.After() == e.after;
      BuiltStep(base, policies, st, c, next.candidate);
    } else {
      assert next == st.(findings := next.findings);
    }
  }

  lemma {:induction false} PendingKept(payload: Json, e: Entry, r: Entry)
    requires e.path != [] && Pending(payload, e) && Pending(payload, r) && !Comparable(e.path, r.path)
    ensures Pending(WriteAt(payload, e.path, e.after).value, r)
  {
    if r.path != [] {
      FitsAligned(payload, "", r.path);
      Frame(payload, "", e.path, e.after, r.path, r.after);
      KeyedFrame(payload, "", e.path, e.after, r.path);
    }
  }

  lemma ApartTail(es: seq<Entry>)
    requires es != [] && Apart(es)
    ensures Apart(es[1..])
    ensures forall r :: r in es[1..] ==> r in es && !Comparable(es[0].path, r.path)
  {
    assert forall i :: 0 <= i < |es[1..]| ==> es[1..][i] == es[i + 1];
  }

  lemma {:induction false} EntriesBuilt(base: Draft, policies: map<string, Policy>, reason: string, st: Preparation,
          es: seq<Entry>)
    requires Built(base, policies, st) && Apart(es)
    requires forall e :: e in es ==> Pending(st.candidate, e)
    requires AcceptEntries(Dump(base), policies, reason, st, es).Ok?
    ensures Built(base, policies, AcceptEntries(Dump(base), policies, reason, st, es).value)
    decreases |es|
  {
    if es != [] {
      ApartTail(es);
      assert es[0] in es;
      AcceptBuilt(base, policies, reason, st, es[0]);
      var next := AcceptEntry(Dump(base), policies, reason, st, es[0]).value;
      forall r | r in es[1..] ensures Pending(next.candidate, r) {
        PendingKept(st.candidate, es[0], r);
      }
      EntriesBuilt(base, policies, reason, next, es[1..]);
    }
  }

  lemma {:induction false} GeneratedBuilt(base: Draft, policies: map<string, Policy>, checkOnly: bool,
          st: Preparation, gs: seq<Generated>)
    requires Built(base, policies, st)
    requires AcceptGenerated(Dump(base), policies, checkOnly, st, gs).Ok?
    ensures Built(base, policies, AcceptGenerated(Dump(base), policies, checkOnly, st, gs).value)
    decreases |gs|
  {
    if gs != [] {
      var es := Expand(checkOnly, st.candidate, gs[0]).value;
      if es.Some? {
        var tentative := WriteText(st.candidate, gs[0].fieldPath, if gs[0].remove then None else gs[0].value).value;
        DiffExact("", st.candidate, tentative);
        EntriesBuilt(base, policies, gs[0].reason, st, es.value);
        GeneratedBuilt(base, policies, checkOnly,
            AcceptEntries(Dump(base), policies, gs[0].reason, st, es.value).value, gs[1..]);
      } else {
        GeneratedBuilt(base, policies, checkOnly,
            st.(findings := st.findings + [Finding(ProtectedField, gs[0].fieldPath)]), gs[1..]);
      }
    }
  }

  // ---- writes inside objects do not need alignment ----

  // In an object two different fields are independent, at the root and one level below.
  lemma {:induction false} ObjectFrame(payload: Json, p: Path, value: Option<Json>, q: Path)
    requires payload.Obj? && p != [] && q != [] && WriteAt(payload, p, value).Ok?
    requires p[0] != q[0] || (|p| >= 2 && |q| >= 2 && p[1] != q[1] && p[0] in payload.fields
        && payload.fields[p[0]].Obj?)
    ensures ReadAt(WriteAt(payload, p, value).value, q) == ReadAt(payload, q)
    ensures WriteAt(payload, p, value).value.Obj?
  {
    var changed := WriteAt(payload, p, value).value;
    if p[0] == q[0] {
      var child := payload.fields[p[0]];
      var inner := WriteAt(child, p[1..], value).value;
      assert p[1..][0] == p[1] && q[1..][0] == q[1];
      assert ReadAt(inner, q[1..]) == ReadAt(child, q[1..]);
      assert changed.fields[p[0]] == inner;
    }
  }

  lemma {:induction false} EscapePlain(s: string)
    requires '~' !in s && '/' !in s
    ensures Escape(s) == s
  {
    if s != "" {
      EscapeStep(s);
      EscapePlain(s[1..]);
      assert s == [s[0]] + s[1..];
    }
  }

  lemma PrintTwo(a: string, b: string)
    requires '~' !in a && '/' !in a && '~' !in b && '/' !in b
    ensures Print([a, b]) == "/" + a + "/" + b
  {
    EscapePlain(a);
    EscapePlain(b);
    assert [a, b][1..] == [b] && [b][1..] == [];
    assert Print([b]) == "/" + b + Print([]) == "/" + b;
    assert "/" + a + ("/" + b) == "/" + a + "/" + b;
  }

  const SCHEMA_PARTS: Path := ["scenario", "schema_version"]

  lemma SchemaPathParts()
    ensures Parse(SCHEMA_PATH) == Ok(SCHEMA_PARTS)
  {
    TwoParts("scenario", "schema_version");
  }

  lemma TwoParts(a: string, b: string)
    requires a != "" && b != "" && '~' !in a && '/' !in a && '~' !in b && '/' !in b
    ensures Parse("/" + a + "/" + b) == Ok([a, b])
  {
    PrintTwo(a, b);
    ParsePrint([a, b]);
  }

  lemma StartBuilt(base: Draft, policies: map<string, Policy>, concretize: bool, findings: seq<Finding>)
    ensures Built(base, policies, Start(base, policies, concretize, findings))
  {
    var original := Dump(base);
    var empty := Preparation(original, [], findings);
    assert Built(base, policies, empty);
    if InitializesSchema(base, policies, concretize) {
      var st := Start(base, policies, concretize, findings);
      SchemaPathParts();
      SchemaWrite(base);
      forall f | f in FixedPaths(policies) ensures ReadText(original, f) == ReadText(st.candidate, f) {
        if Parse(f).Ok? {
          OverlapIsComparable(SCHEMA_PATH, f);
          PrintParse(f);
          SchemaFrame(base, Parse(f).value);
        }
      }
      BuiltStep(base, policies, empty, st.changes[0], st.candidate);
      assert empty.changes + [st.changes[0]] == st.changes;
    }
  }

  // Initializing the schema is the write recorded for it.
  lemma SchemaWrite(base: Draft)
    requires "schema_version" !in base.scenario
    ensures WriteAt(Dump(base), SCHEMA_PARTS, Some(Num(2))) ==
      Ok(Obj(Dump(base).fields["scenario" := Obj(base.scenario["schema_version" := Num(2)])]))
    ensures Fits(Dump(base), "", SCHEMA_PARTS)
    ensures KeyedAlong(Dump(base), "", SCHEMA_PARTS) && ReadAt(Dump(base), SCHEMA_PARTS) == None
  {
    var original, inner, p := Dump(base), Obj(base.scenario), SCHEMA_PARTS;
    assert p[1..] == ["schema_version"] && p[1..][1..] == [];
    assert Child(original, "scenario") == Ok(inner) && See(original, "scenario") == Present(inner);
    assert WriteAt(inner, p[1..], Some(Num(2))) == Ok(Obj(base.scenario["schema_version" := Num(2)]));
    assert Fits(inner, "scenario", p[1..]) && KeyedAlong(inner, "scenario", p[1..]);
  }

  lemma {:induction false} SchemaFrame(base: Draft, q: Path)
    requires q != [] && !Comparable(SCHEMA_PARTS, q)
    requires WriteAt(Dump(base), SCHEMA_PARTS, Some(Num(2))).Ok?
    ensures ReadAt(WriteAt(Dump(base), SCHEMA_PARTS, Some(Num(2))).value, q) == ReadAt(Dump(base), q)
  {
    assert |q| == 1 ==> q == [q[0]];
    assert |q| >= 2 && q[0] == "scenario" && q[1] == "schema_version" ==> SCHEMA_PARTS <= q;
    ObjectFrame(Dump(base), SCHEMA_PARTS, Some(Num(2)), q);
  }

  lemma PreparedBuilt(base: Draft, gs: seq<Generated>, findings: seq<Finding>, checkOnly: bool, concretize: bool,
          validate: Json -> Option<Draft>)
    requires Prepare(base, gs, findings, checkOnly, concretize, validate).Ok?
    ensures Policies(Dump(base), base.policies, map[]).Ok?
    ensures exists candidate ::
      (Prepared(base, Prepare(base, gs, findings, checkOnly, concretize, validate).value.0.changes, candidate) &&
      validate(candidate) == Some(Prepare(base, gs, findings, checkOnly, concretize, validate).value.1))
  {
    var policies := Policies(Dump(base), base.policies, map[]).value;
    var start := Start(base, policies, concretize, findings);
    StartBuilt(base, policies, concretize, findings);
    GeneratedBuilt(base, policies, checkOnly, start, gs);
    var st := AcceptGenerated(Dump(base), policies, checkOnly, start, gs).value;
    assert Prepared(base, st.changes, st.candidate);
  }

  // The changes of a proposal prepared from `base`, and the candidate they build.
  ghost predicate Prepared(base: Draft, changes: seq<Change>, candidate: Json) {
    && Policies(Dump(base), base.policies, map[]).Ok?
    && Built(base, Policies(Dump(base), base.policies, map[]).value, Preparation(candidate, changes, []))
    && !SomeOverlap(changes)
  }

  // ---- adopting everything ----

  // A ready, permitted change adopts as exactly its write.
  lemma {:induction false} AdoptReady(base: Draft, policies: map<string, Policy>, payload: Json, c: Change)
    requires Ready(payload, c) && Permitted(base, policies, c)
    ensures AdoptChange(base, policies, payload, c) == WriteAt(payload, Parts(c), c.After())
    ensures AdoptChange(base, policies, payload, c) == WriteText(payload, c.fieldPath, c.After())
  {
  }

  lemma {:induction false} AdoptAllLoop(base: Draft, policies: map<string, Policy>, changes: seq<Change>, j: nat)
    requires j <= |changes| && Linked(Dump(base), changes) && Written(Dump(base), changes).Ok?
    requires forall c :: c in changes ==> Permitted(base, policies, c)
    requires Written(Dump(base), changes[..j]).Ok?
    ensures AdoptLoop(base, policies, Written(Dump(base), changes[..j]).value, changes[j..], Ids(changes)) ==
      Written(Dump(base), changes)
    decreases |changes| - j
  {
    if j == |changes| {
      assert changes[..j] == changes;
    } else {
      var c, payload, rest := changes[j], Written(Dump(base), changes[..j]).value, changes[j..];
      assert Ready(payload, c) && c in changes && c.id in Ids(changes);
      AdoptReady(base, policies, payload, c);
      WrittenStep(Dump(base), changes, j);
      AdoptAllLoop(base, policies, changes, j + 1);
      assert rest[0] == c && rest[1..] == changes[j + 1..];
    }
  }

  lemma {:induction false} WrittenStep(original: Json, changes: seq<Change>, j: nat)
    requires j < |changes| && Written(original, changes[..j]).Ok?
    ensures Written(original, changes[..j + 1]) ==
      WriteText(Written(original, changes[..j]).value, changes[j].fieldPath, changes[j].After())
  {
    assert changes[..j + 1][..j] == changes[..j] && changes[..j + 1][j] == changes[j];
  }

  // Adopting all changes of a prepared proposal passes every check and yields the validated draft.
  lemma AdoptAllYieldsCandidate(base: Draft, gs: seq<Generated>, findings: seq<Finding>, checkOnly: bool,
          concretize: bool, validate: Json -> Option<Draft>)
    requires Prepare(base, gs, findings, checkOnly, concretize, validate).Ok?
    ensures var (proposal, draft) := Prepare(base, gs, findings, checkOnly, concretize, validate).value;
      Adopt(base, proposal.changes, Ids(proposal.changes), validate) == Ok(draft)
  {
    var (proposal, draft) := Prepare(base, gs, findings, checkOnly, concretize, validate).value;
    PreparedBuilt(base, gs, findings, checkOnly, concretize, validate);
    var candidate :| Prepared(base, proposal.changes, candidate) && validate(candidate) == Some(draft);
    var policies := Policies(Dump(base), base.policies, map[]).value;
    assert proposal.changes[..0] == [] && proposal.changes[0..] == proposal.changes;
    AdoptAllLoop(base, policies, proposal.changes, 0);
  }

  // ---- adopting a selection ----

  ghost predicate ApartChanges(changes: seq<Change>) {
    && (forall c :: c in changes ==> Parse(c.fieldPath).Ok?)
    && forall i, j :: 0 <= i < j < |changes| ==> !Comparable(Parts(changes[i]), Parts(changes[j]))
  }

  lemma PreparedApart(base: Draft, changes: seq<Change>, candidate: Json)
    requires Prepared(base, changes, candidate)
    ensures ApartChanges(changes)
  {
    forall c | c in changes ensures Parse(c.fieldPath).Ok? {
      var j :| 0 <= j < |changes| && changes[j] == c;
      assert Ready(Written(Dump(base), changes[..j]).value, changes[j]);
    }
    forall i, j | 0 <= i < j < |changes| ensures !Comparable(Parts(changes[i]), Parts(changes[j])) {
      assert changes[i] in changes && changes[j] in changes;
      OverlapIsComparable(changes[i].fieldPath, changes[j].fieldPath);
    }
  }

  lemma {:induction false} ReadyWithout(payload: Json, c: Change, q: Change)
    requires Ready(payload, c) && Ready(WriteAt(payload, Parts(c), c.After()).value, q)
      && !Comparable(Parts(c), Parts(q))
    ensures Ready(payload, q)
  {
    FitsAligned(WriteAt(payload, Parts(c), c.After()).value, "", Parts(q));
    Frame(payload, "", Parts(c), c.After(), Parts(q), q.After());
  }

  // Every change is ready on the untouched base: earlier changes do not bear on it.
  lemma {:induction false} ReadyBefore(original: Json, changes: seq<Change>, i: nat, j: nat)
    requires i <= j < |changes| && Linked(original, changes) && ApartChanges(changes)
    ensures Written(original, changes[..i]).Ok? && Ready(Written(original, changes[..i]).value, changes[j])
    decreases j - i
  {
    if i < j {
      ReadyBefore(original, changes, i + 1, j);
      var c, q := changes[i], changes[j];
      assert changes[..i + 1][..i] == changes[..i] && changes[..i + 1][i] == c;
      ReadyWithout(Written(original, changes[..i]).value, c, q);
    }
  }

  ghost predicate AllReady(payload: Json, changes: seq<Change>) {
    forall c :: c in changes ==> Ready(payload, c)
  }

  lemma ReadyAtBase(base: Draft, changes: seq<Change>, candidate: Json)
    requires Prepared(base, changes, candidate)
    ensures ApartChanges(changes) && AllReady(Dump(base), changes)
  {
    PreparedApart(base, changes, candidate);
    forall c | c in changes ensures Ready(Dump(base), c) {
      var j :| 0 <= j < |changes| && changes[j] == c;
      ReadyBefore(Dump(base), changes, 0, j);
      assert changes[..0] == [];
    }
  }

  lemma {:induction false} ReadyAfter(payload: Json, c: Change, r: Change)
    requires Ready(payload, c) && Ready(payload, r) && !Comparable(Parts(c), Parts(r))
    ensures Ready(WriteAt(payload, Parts(c), c.After()).value, r)
  {
    FitsAligned(payload, "", Parts(r));
    Frame(payload, "", Parts(c), c.After(), Parts(r), r.After());
  }

  lemma TailApart(changes: seq<Change>)
    requires changes != [] && ApartChanges(changes)
    ensures changes[0] in changes && ApartChanges(changes[1..])
    ensures forall c :: c in changes[1..] ==> c in changes && !Comparable(Parts(changes[0]), Parts(c))
  {
    forall c | c in changes[1..] ensures c in changes && !Comparable(Parts(changes[0]), Parts(c)) {
      var i :| 0 <= i < |changes[1..]| && changes[1..][i] == c;
      assert c == changes[i + 1];
    }
  }

  lemma {:induction false} ReadyStep(payload: Json, changes: seq<Change>)
    requires changes != [] && AllReady(payload, changes) && ApartChanges(changes)
    ensures ApartChanges(changes[1..])
    ensures AllReady(payload, changes[1..])
    ensures AllReady(WriteAt(payload, Parts(changes[0]), changes[0].After()).value, changes[1..])
    ensures forall c :: c in changes[1..] ==> c in changes && !Comparable(Parts(changes[0]), Parts(c))
  {
    TailApart(changes);
    forall r | r in changes[1..] ensures Ready(WriteAt(payload, Parts(changes[0]), changes[0].After()).value, r) {
      ReadyAfter(payload, changes[0], r);
    }
  }

  // The payload after the first change, when it is selected
  ghost function AfterFirst(payload: Json, changes: seq<Change>, ids: set<nat>): Json
    requires changes != [] && AllReady(payload, changes)
  {
    assert changes[0] in changes;
    if changes[0].id in ids then WriteAt(payload, Parts(changes[0]), changes[0].After()).value else payload
  }

  lemma {:induction false} AdoptAdvances(base: Draft, policies: map<string, Policy>, payload: Json,
          changes: seq<Change>, ids: set<nat>)
    requires changes != [] && AllReady(payload, changes) && ApartChanges(changes)
    requires forall c :: c in changes ==> Permitted(base, policies, c)
    ensures ApartChanges(changes[1..]) && AllReady(AfterFirst(payload, changes, ids), changes[1..])
    ensures forall c :: c in changes[1..] ==> c in changes
    ensures AdoptLoop(base, policies, payload, changes, ids) ==
      AdoptLoop(base, policies, AfterFirst(payload, changes, ids), changes[1..], ids)
  {
    ReadyStep(payload, changes);
    assert changes[0] in changes;
    if changes[0].id in ids { AdoptReady(base, policies, payload, changes[0]); }
  }

  // What a path reads is kept by adopting changes not comparable with it.
  lemma {:induction false} SelectionFrame(base: Draft, policies: map<string, Policy>, payload: Json,
          changes: seq<Change>, ids: set<nat>, q: Path)
    requires AllReady(payload, changes) && ApartChanges(changes)
    requires forall c :: c in changes ==> Permitted(base, policies, c)
    requires q != [] && Aligned(payload, "", q)
    requires forall c :: c in changes && c.id in ids ==> !Comparable(Parts(c), q)
    ensures AdoptLoop(base, policies, payload, changes, ids).Ok?
    ensures ReadAt(AdoptLoop(base, policies, payload, changes, ids).value, q) == ReadAt(payload, q)
    decreases |changes|
  {
    if changes != [] {
      var c, next := changes[0], AfterFirst(payload, changes, ids);
      assert c in changes;
      AdoptAdvances(base, policies, payload, changes, ids);
      if c.id in ids { Frame(payload, "", Parts(c), c.After(), q, None); }
      SelectionFrame(base, policies, next, changes[1..], ids, q);
    }
  }

  // Each selected path reads its new value, each other its old one.
  lemma {:induction false} SelectionReads(base: Draft, policies: map<string, Policy>, payload: Json,
          changes: seq<Change>, ids: set<nat>)
    requires AllReady(payload, changes) && ApartChanges(changes)
    requires forall c :: c in changes ==> Permitted(base, policies, c)
    ensures AdoptLoop(base, policies, payload, changes, ids).Ok?
    ensures forall c :: c in changes ==>
      ReadText(AdoptLoop(base, policies, payload, changes, ids).value, c.fieldPath) ==
        Ok(if c.id in ids then c.After() else c.Before())
    decreases |changes|
  {
    if changes != [] {
      ReadyStep(payload, changes);
      var c, rest := changes[0], changes[1..];
      assert c in changes;
      var next := if c.id in ids then WriteAt(payload, Parts(c), c.After()).value else payload;
      assert AdoptLoop(base, policies, payload, changes, ids) == AdoptLoop(base, policies, next, rest, ids);
      if c.id in ids { ReadAfterWrite(payload, "", Parts(c), c.After()); } else { FitsAligned(payload, "", Parts(c)); }
      forall r | r in rest && r.id in ids ensures !Comparable(Parts(r), Parts(c)) {
        assert !Comparable(Parts(c), Parts(r));
      }
      SelectionFrame(base, policies, next, rest, ids, Parts(c));
      SelectionReads(base, policies, next, rest, ids);
      assert forall d :: d in changes ==> d == c || d in rest;
    }
  }

  lemma {:induction false} SelectionKeepsPath(base: Draft, policies: map<string, Policy>, payload: Json,
          changes: seq<Change>, ids: set<nat>, q: Path)
    requires AllReady(payload, changes) && ApartChanges(changes)
    requires forall c :: c in changes ==> Permitted(base, policies, c)
    requires Aligned(payload, "", q) && ReadAt(payload, q).Some?
    requires forall c :: c in changes && c.id in ids ==> !(Parts(c) <= q)
    ensures AdoptLoop(base, policies, payload, changes, ids).Ok?
    ensures ReadAt(AdoptLoop(base, policies, payload, changes, ids).value, q).Some?
    decreases |changes|
  {
    if changes != [] {
      var c, next := changes[0], AfterFirst(payload, changes, ids);
      assert c in changes;
      AdoptAdvances(base, policies, payload, changes, ids);
      if c.id in ids { PathSurvives(payload, "", Parts(c), c.After(), q); }
      SelectionKeepsPath(base, policies, next, changes[1..], ids, q);
    }
  }

  // No selection removes or renames an entity row of the base, or loses any other path of it,
  // unless a selected change is at or above it.
  lemma {:induction false} SelectionKeepsRows(base: Draft, gs: seq<Generated>, findings: seq<Finding>,
          checkOnly: bool, concretize: bool, validate: Json -> Option<Draft>, ids: set<nat>, row: Path)
    requires Prepare(base, gs, findings, checkOnly, concretize, validate).Ok?
    requires Aligned(Dump(base), "", row) && ReadAt(Dump(base), row).Some?
    requires forall c ::
      c in Prepare(base, gs, findings, checkOnly, concretize, validate).value.0.changes && c.id in ids ==>
      Parse(c.fieldPath).Ok? ==> !(Parse(c.fieldPath).value <= row)
    ensures var changes := Prepare(base, gs, findings, checkOnly, concretize, validate).value.0.changes;
      var result := AdoptLoop(base, Policies(Dump(base), base.policies, map[]).value, Dump(base), changes, ids);
      result.Ok? && ReadAt(result.value, row).Some?
  {
    var changes := Prepare(base, gs, findings, checkOnly, concretize, validate).value.0.changes;
    PreparedBuilt(base, gs, findings, checkOnly, concretize, validate);
    var candidate :| Prepared(base, changes, candidate);
    ReadyAtBase(base, changes, candidate);
    SelectionKeepsPath(base, Policies(Dump(base), base.policies, map[]).value, Dump(base), changes, ids, row);
  }

  // ---- what any proposal, however obtained, leaves alone ----

  ghost predicate DraftShape(payload: Json) {
    payload.Obj? && "scenario" in payload.fields && payload.fields["scenario"].Obj?
  }

  // Outside "scenario" and "metadata", and for the identifiers of the scenario, `later` reads as `payload`.
  ghost predicate IdentityKept(payload: Json, later: Json) {
    && (forall key :: key != "scenario" && key != "metadata" ==> ReadAt(later, [key]) == ReadAt(payload, [key]))
    && (forall key :: key in IDENTITY && key != "schema_version" ==>
          ReadAt(later, ["scenario", key]) == ReadAt(payload, ["scenario", key]))
    && (ReadAt(later, SCHEMA_PARTS) == ReadAt(payload, SCHEMA_PARTS) || ReadAt(later, SCHEMA_PARTS) == Some(Num(2)))
  }

  // A write below "scenario" leaves the scenario an object.
  lemma {:induction false} ScenarioStays(payload: Json, p: Path, value: Option<Json>)
    requires DraftShape(payload) && |p| >= 2 && WriteAt(payload, p, value).Ok?
    ensures DraftShape(WriteAt(payload, p, value).value)
  {
    if p[0] == "scenario" {
      var child := payload.fields["scenario"];
      assert WriteAt(child, p[1..], value).Ok? && p[1..] != [];
    }
  }

  lemma AdoptStepKeeps(base: Draft, policies: map<string, Policy>, payload: Json, c: Change)
    requires DraftShape(payload) && AdoptChange(base, policies, payload, c).Ok?
    ensures DraftShape(AdoptChange(base, policies, payload, c).value)
    ensures IdentityKept(payload, AdoptChange(base, policies, payload, c).value)
  {
    var p, later := Parts(c), AdoptChange(base, policies, payload, c).value;
    SchemaPathParts();
    ScenarioStays(payload, p, c.After());
    forall key | key != "scenario" && key != "metadata" ensures ReadAt(later, [key]) == ReadAt(payload, [key]) {
      ObjectFrame(payload, p, c.After(), [key]);
    }
    forall key | key in IDENTITY && (key != "schema_version" || Writable(p))
      ensures ReadAt(later, ["scenario", key]) == ReadAt(payload, ["scenario", key])
    {
      assert Writable(p) ==> !Forbidden(p, 1);
      ObjectFrame(payload, p, c.After(), ["scenario", key]);
    }
    if !Writable(p) {
      SchemaStored(payload);
    }
  }

  lemma {:induction false} SchemaStored(payload: Json)
    requires DraftShape(payload)
    ensures WriteAt(payload, SCHEMA_PARTS, Some(Num(2))).Ok?
    ensures ReadAt(WriteAt(payload, SCHEMA_PARTS, Some(Num(2))).value, SCHEMA_PARTS) == Some(Num(2))
  {
    var p, child := SCHEMA_PARTS, payload.fields["scenario"];
    assert p[1..] == ["schema_version"] && p[1..][1..] == [];
    var inner := Obj(child.fields["schema_version" := Num(2)]);
    assert WriteAt(child, p[1..], Some(Num(2))) == Ok(inner);
    var later := Obj(payload.fields["scenario" := inner]);
    assert WriteAt(payload, p, Some(Num(2))) == Ok(later);
    assert Child(later, p[0]) == Ok(inner) && Child(inner, p[1]) == Ok(Num(2));
    assert ReadAt(inner, p[1..]) == Some(Num(2));
  }

  lemma {:induction false} AdoptLoopKeeps(base: Draft, policies: map<string, Policy>, payload: Json,
          changes: seq<Change>, ids: set<nat>)
    requires DraftShape(payload) && AdoptLoop(base, policies, payload, changes, ids).Ok?
    ensures DraftShape(AdoptLoop(base, policies, payload, changes, ids).value)
    ensures IdentityKept(payload, AdoptLoop(base, policies, payload, changes, ids).value)
    decreases |changes|
  {
    if changes != [] {
      if changes[0].id in ids {
        AdoptStepKeeps(base, policies, payload, changes[0]);
        AdoptLoopKeeps(base, policies, AdoptChange(base, policies, payload, changes[0]).value, changes[1..], ids);
      } else {
        AdoptLoopKeeps(base, policies, payload, changes[1..], ids);
      }
    }
  }

  // Whatever changes are offered, an adopted payload keeps the draft's notes, policies and scenario
  // identifiers, initializes at most the schema version, and reads every fixed path as the base does.
  lemma AdoptionProtects(base: Draft, changes: seq<Change>, ids: set<nat>, validate: Json -> Option<Draft>)
    requires Adopt(base, changes, ids, validate).Ok?
    ensures exists payload :: (validate(payload) == Some(Adopt(base, changes, ids, validate).value) &&
      IdentityKept(Dump(base), payload) &&
      FixedKept(Policies(Dump(base), base.policies, map[]).value, Dump(base), payload))
  {
    var policies := Policies(Dump(base), base.policies, map[]).value;
    AdoptLoopKeeps(base, policies, Dump(base), changes, ids);
  }
}
