/**
 What becomes of a generated change: which paths a model may write, which entries of a difference are
 taken over and which are held back, and when an adopted change is written; stated on the segments of
 the paths and on the draft's own policies.
 */
module Acceptance {
  import opened Outcomes
  import opened JsonValues
  import opened Paths
  import opened Patch
  import opened Differences
  import opened Proposals
  import opened ProposalLaws
  import opened Expansion
  import opened AdoptionOrder
  import opened WrittenDifference

  // ---- paths a model may write ----

  // The segment is the ref field of the row that the segment before it names.
  ghost predicate RefField(before: string, part: string) {
    part in {"scene_ref", "action_ref", "flag_ref", "ending_ref", "fact_ref", "ref"} && "@" + part + "=" <= before
  }

  // Inside the metadata or the scenario, and neither an identifier nor the ref of a row on the way
  ghost predicate Open(p: Path) {
    && |p| >= 2 && p[0] in {"metadata", "scenario"}
    && forall i :: 1 <= i < |p| ==> !Identifier(p[i]) && !RefField(p[i - 1], p[i])
  }

  ghost predicate Container(p: Path) {
    p == ["scenario"] || p == ["metadata"]
  }

  ghost predicate Identifier(part: string) {
    part in {"scenario_ref", "version", "schema_version"}
  }

  lemma ForbiddenAnswer(p: Path, i: nat)
    requires 1 <= i < |p|
    ensures Forbidden(p, i) <==> Identifier(p[i]) || RefField(p[i - 1], p[i])
  {
  }

  lemma OpenIsWritable(p: Path)
    ensures Open(p) <==> Writable(p)
  {
    if Writable(p) {
      forall i | 1 <= i < |p| ensures !Identifier(p[i]) && !RefField(p[i - 1], p[i]) {
        assert !Forbidden(p, i);
        ForbiddenAnswer(p, i);
      }
    }
    if Open(p) {
      forall i | 1 <= i < |p| ensures !Forbidden(p, i) { ForbiddenAnswer(p, i); }
    }
  }

  lemma Single(name: string)
    requires name != "" && '~' !in name && '/' !in name
    ensures Parse("/" + name) == Ok([name])
  {
    EscapePlain(name);
    ParsePrint([name]);
    assert [name][1..] == [];
    assert Print([name]) == "/" + name + Print([]) == "/" + name;
  }

  lemma TextOfOne(text: string, p: Path, name: string)
    requires Parse(text) == Ok(p) && name != "" && '~' !in name && '/' !in name
    ensures text == "/" + name <==> p == [name]
  {
    Single(name);
    PrintParse(text);
    PrintParse("/" + name);
  }

  lemma ContainerText(text: string, p: Path)
    requires Parse(text) == Ok(p)
    ensures text == "/scenario" || text == "/metadata" <==> Container(p)
  {
    var scenario, metadata := "scenario", "metadata";
    TextOfOne(text, p, scenario);
    TextOfOne(text, p, metadata);
    assert "/" + scenario == "/scenario" && "/" + metadata == "/metadata";
  }

  // ---- the draft's policies, as paths ----

  // A policy of this strength is bound to the path.
  ghost predicate Has(base: Draft, p: Policy, f: Path) {
    exists item :: item in base.policies && BindsTo(base, item, p, f)
  }

  ghost predicate BindsTo(base: Draft, item: (string, Policy), p: Policy, f: Path) {
    && item.1 == p && Parse(item.0).Ok?
    && BindPolicy(Some(Dump(base)), Parse(item.0).value, []) == Ok(f)
  }

  lemma {:induction false} BoundIsNamed(node: Option<Json>, parts: Path, done: Path)
    requires forall i :: 0 <= i < |parts| ==> parts[i] != ""
    requires forall i :: 0 <= i < |done| ==> done[i] != ""
    requires BindPolicy(node, parts, done).Ok?
    ensures var f := BindPolicy(node, parts, done).value; done <= f && forall i :: 0 <= i < |f| ==> f[i] != ""
    decreases |parts|
  {
    if parts != [] && Rebind(node, parts[0], done).value.Some? {
      var part := Rebind(node, parts[0], done).value.value;
      assert part != "" by {
        if node.Some? && node.value.Arr? && Digits(parts[0]) {
          var row := node.value.rows[Decimal(parts[0])];
          RefSegmentKey(row, CollectionKey(Escape(done[|done| - 1])).value);
        }
      }
      BoundIsNamed(Step(node, part), parts[1..], done + [part]);
    }
  }

  lemma {:induction false} BindsNamed(base: Draft, item: (string, Policy), p: Policy, f: Path)
    requires BindsTo(base, item, p, f)
    ensures Named(f) && Parse(Print(f)) == Ok(f) && Binds(Dump(base), item, Print(f), p)
  {
    var parts := Parse(item.0).value;
    PrintParse(item.0);
    assert parts[0] != "" && Rebind(Some(Dump(base)), parts[0], []) == Ok(Some(parts[0]));
    BoundIsNamed(Step(Some(Dump(base)), parts[0]), parts[1..], [] + [parts[0]]);
    ParsePrint(f);
  }

  lemma HasIsBound(base: Draft, p: Policy)
    ensures forall f: Path :: Has(base, p, f) ==>
      Named(f) && Parse(Print(f)) == Ok(f) && Bound(Dump(base), base.policies, Print(f), p)
    ensures forall text :: Bound(Dump(base), base.policies, text, p) ==>
      Parse(text).Ok? && Has(base, p, Parse(text).value)
  {
    forall f: Path | Has(base, p, f) ensures Named(f) && Parse(Print(f)) == Ok(f)
      && Bound(Dump(base), base.policies, Print(f), p)
    {
      var item :| item in base.policies && BindsTo(base, item, p, f);
      BindsNamed(base, item, p, f);
    }
    forall text | Bound(Dump(base), base.policies, text, p) ensures Parse(text).Ok? && Has(base, p, Parse(text).value) {
      var item :| item in base.policies && Binds(Dump(base), item, text, p);
      var f := BindPolicy(Some(Dump(base)), Parse(item.0).value, []).value;
      assert BindsTo(base, item, p, f);
      BindsNamed(base, item, p, f);
    }
  }

  // A fixed path addresses the path's value, or something inside it, or something around it.
  ghost predicate Touched(base: Draft, p: Path) {
    exists f: Path :: Has(base, Fixed, f) && Comparable(f, p)
  }

  // An undecided path, with no fixed policy bound to it as well, does.
  ghost predicate Pondered(base: Draft, p: Path) {
    exists f: Path :: Has(base, Undecided, f) && !Has(base, Fixed, f) && Comparable(f, p)
  }

  // Every fixed path reads in the two documents alike.
  ghost predicate Unmoved(base: Draft, original: Json, payload: Json) {
    forall f: Path :: Has(base, Fixed, f) ==> ReadAt(original, f) == ReadAt(payload, f)
  }

  ghost predicate BoundTo(base: Draft, policies: map<string, Policy>) {
    Policies(Dump(base), base.policies, map[]) == Ok(policies)
  }

  lemma FixedAnswer(base: Draft, policies: map<string, Policy>)
    requires BoundTo(base, policies)
    ensures forall f: Path :: Has(base, Fixed, f) ==> Print(f) in FixedPaths(policies) && Parse(Print(f)) == Ok(f)
    ensures forall text :: text in FixedPaths(policies) ==> Parse(text).Ok? && Has(base, Fixed, Parse(text).value)
  {
    HasIsBound(base, Fixed);
    forall text ensures text in FixedPaths(policies) <==> Bound(Dump(base), base.policies, text, Fixed) {
      StrongestPolicyWins(Dump(base), base.policies, map[], text);
    }
  }

  lemma TouchedAnswer(base: Draft, policies: map<string, Policy>, p: Path, path: string)
    requires BoundTo(base, policies) && Parse(path) == Ok(p)
    ensures Protected(policies, path) <==> Touched(base, p)
  {
    FixedAnswer(base, policies);
    forall text | text in FixedPaths(policies) ensures Overlap(path, text) <==> Comparable(Parse(text).value, p) {
      OverlapIsComparable(path, text);
    }
    if f: Path :| Has(base, Fixed, f) && Comparable(f, p) { assert Print(f) in FixedPaths(policies); }
  }

  lemma UnmovedAnswer(base: Draft, policies: map<string, Policy>, original: Json, payload: Json)
    requires BoundTo(base, policies)
    ensures FixedKept(policies, original, payload) <==> Unmoved(base, original, payload)
  {
    FixedAnswer(base, policies);
    if FixedKept(policies, original, payload) { KeptIsUnmoved(base, policies, original, payload); }
    if Unmoved(base, original, payload) { UnmovedIsKept(base, policies, original, payload); }
  }

  lemma UnmovedIsKept(base: Draft, policies: map<string, Policy>, original: Json, payload: Json)
    requires Unmoved(base, original, payload)
    requires forall text :: text in FixedPaths(policies) ==> Parse(text).Ok? && Has(base, Fixed, Parse(text).value)
    ensures FixedKept(policies, original, payload)
  {
    forall text | text in FixedPaths(policies) ensures ReadText(original, text) == ReadText(payload, text) {
      assert Has(base, Fixed, Parse(text).value);
    }
  }

  lemma KeptIsUnmoved(base: Draft, policies: map<string, Policy>, original: Json, payload: Json)
    requires FixedKept(policies, original, payload)
    requires forall f: Path :: Has(base, Fixed, f) ==> Print(f) in FixedPaths(policies) && Parse(Print(f)) == Ok(f)
    ensures Unmoved(base, original, payload)
  {
    forall f: Path | Has(base, Fixed, f) ensures ReadAt(original, f) == ReadAt(payload, f) {
      assert ReadText(original, Print(f)) == ReadText(payload, Print(f));
    }
  }

  lemma PonderedAnswer(base: Draft, policies: map<string, Policy>, p: Path, path: string)
    requires BoundTo(base, policies) && Parse(path) == Ok(p)
    ensures (exists q :: q in policies && policies[q].Undecided? && Overlap(path, q)) <==> Pondered(base, p)
  {
    HasIsBound(base, Undecided);
    HasIsBound(base, Fixed);
    forall text
      ensures text in policies && policies[text].Undecided? <==>
        Bound(Dump(base), base.policies, text, Undecided) && !Bound(Dump(base), base.policies, text, Fixed)
    {
      StrongestPolicyWins(Dump(base), base.policies, map[], text);
    }
    forall q | q in policies && policies[q].Undecided? && Overlap(path, q) ensures Pondered(base, p) {
      OverlapIsComparable(path, q);
      PrintParse(q);
    }
    if f: Path :| Has(base, Undecided, f) && !Has(base, Fixed, f) && Comparable(f, p) {
      assert !Bound(Dump(base), base.policies, Print(f), Fixed);
      OverlapIsComparable(path, Print(f));
    }
  }

  // ---- one entry of a difference ----

  // The change that records an entry
  ghost predicate Records(base: Draft, c: Change, id: nat, e: Entry, reason: string) {
    && c.id == id && Parse(c.fieldPath) == Ok(e.path) && c.reason == reason
    && c.Before() == e.before && c.After() == e.after && (c.undecided <==> Pondered(base, e.path))
  }

  ghost predicate HeldBack(f: Finding, e: Entry) {
    f.code == FixedFieldChange && Parse(f.fieldPath) == Ok(e.path)
  }

  // The entry's path is open, no fixed path touches it, and writing it moves none.
  ghost predicate Takes(base: Draft, e: Entry, after: Json) {
    Open(e.path) && !Touched(base, e.path) && Unmoved(base, Dump(base), after)
  }

  lemma EntryAnswer(base: Draft, policies: map<string, Policy>, reason: string, st: Preparation, e: Entry, after: Json)
    requires BoundTo(base, policies) && Named(e.path) && WriteAt(st.candidate, e.path, e.after) == Ok(after)
    ensures var r := AcceptEntry(Dump(base), policies, reason, st, e);
      && r.Ok?
      && if Takes(base, e, after) then
           && |r.value.changes| == |st.changes| + 1
           && r.value == Preparation(after, st.changes + [r.value.changes[|st.changes|]], st.findings)
           && Records(base, r.value.changes[|st.changes|], |st.changes|, e, reason)
         else
           && |r.value.findings| == |st.findings| + 1
           && r.value == st.(findings := st.findings + [r.value.findings[|st.findings|]])
           && HeldBack(r.value.findings[|st.findings|], e)
  {
    var path := Print(e.path);
    ParsePrint(e.path);
    TakesAnswer(base, policies, e, path, after);
    EntryCases(Dump(base), policies, reason, st, e, path, after);
    ChangeRecords(base, policies, |st.changes|, path, e, reason);
  }

  lemma TakesAnswer(base: Draft, policies: map<string, Policy>, e: Entry, path: string, after: Json)
    requires BoundTo(base, policies) && Parse(path) == Ok(e.path)
    ensures Takes(base, e, after) <==>
      Writable(e.path) && !Protected(policies, path) && FixedKept(policies, Dump(base), after)
  {
    OpenIsWritable(e.path);
    TouchedAnswer(base, policies, e.path, path);
    UnmovedAnswer(base, policies, Dump(base), after);
  }

  lemma EntryCases(original: Json, policies: map<string, Policy>, reason: string, st: Preparation, e: Entry,
          path: string, after: Json)
    requires path == Print(e.path) && Parse(path) == Ok(e.path) && e.path != []
    requires WriteAt(st.candidate, e.path, e.after) == Ok(after)
    ensures AcceptEntry(original, policies, reason, st, e) ==
      Ok(if Writable(e.path) && !Protected(policies, path) && FixedKept(policies, original, after) then
          Preparation(after, st.changes + [ChangeFor(policies, |st.changes|, path, e, reason)], st.findings)
        else st.(findings := st.findings + [Finding(FixedFieldChange, path)]))
  {
  }

  lemma ChangeRecords(base: Draft, policies: map<string, Policy>, id: nat, path: string, e: Entry, reason: string)
    requires BoundTo(base, policies) && Parse(path) == Ok(e.path)
    ensures Records(base, ChangeFor(policies, id, path, e, reason), id, e, reason)
  {
    PonderedAnswer(base, policies, e.path, path);
  }

  // ---- what a generated change expands to ----

  // Whatever is no open path and no container is rejected as a whole, and so is everything in a check.
  lemma {:induction false} ExpandAnswer(checkOnly: bool, candidate: Json, g: Generated, p: Path)
    requires Parse(g.fieldPath) == Ok(p)
    ensures var r := Expand(checkOnly, candidate, g);
      if checkOnly || !(Open(p) || Container(p)) then r == Ok(None)
      else
        && (g.value.None? ==> r == Err(InvalidJson))
        && (g.value.Some? ==>
              var tentative := WriteAt(candidate, p, if g.remove then None else g.value);
              && (tentative.Err? ==> r.Err?)
              && (tentative.Ok? ==>
                    match Diff("", candidate, tentative.value)
                    case Ok(es) => r == Ok(Some(es))
                    case Err(_) => r.Err?))
  {
    OpenIsWritable(p);
    ContainerText(g.fieldPath, p);
  }

  lemma {:induction false} OneGenerated(original: Json, policies: map<string, Policy>, checkOnly: bool,
          st: Preparation, g: Generated)
    ensures AcceptGenerated(original, policies, checkOnly, st, [g]) ==
      match Expand(checkOnly, st.candidate, g)
      case Err(code) => Err(code)
      case Ok(None) => Ok(st.(findings := st.findings + [Finding(ProtectedField, g.fieldPath)]))
      case Ok(Some(es)) => AcceptEntries(original, policies, g.reason, st, es)
  {
    assert [g][1..] == [];
    forall next ensures AcceptGenerated(original, policies, checkOnly, next, []) == Ok(next) {
    }
  }

  // A rejected change leaves one finding and nothing else.
  lemma {:induction false} RejectAnswer(base: Draft, policies: map<string, Policy>, checkOnly: bool, st: Preparation,
          g: Generated, p: Path)
    requires Parse(g.fieldPath) == Ok(p) && (checkOnly || !(Open(p) || Container(p)))
    ensures AcceptGenerated(Dump(base), policies, checkOnly, st, [g]) ==
      Ok(st.(findings := st.findings + [Finding(ProtectedField, g.fieldPath)]))
  {
    ExpandAnswer(checkOnly, st.candidate, g, p);
    OneGenerated(Dump(base), policies, checkOnly, st, g);
  }

  // A write of one value as a whole, below keyed collections only, is taken over or held back as a whole:
  // taken exactly if its path is open, no fixed path touches it and none is moved by it.
  lemma {:induction false} WriteAnswer(base: Draft, policies: map<string, Policy>, st: Preparation, g: Generated,
          p: Path, value: Option<Json>, after: Json)
    requires BoundTo(base, policies) && Parse(g.fieldPath) == Ok(p) && g.value.Some?
    requires value == (if g.remove then None else g.value) && Clear(st.candidate, "", p, value)
    requires Whole(ReadAt(st.candidate, p), value) && WriteAt(st.candidate, p, value) == Ok(after)
    ensures var r := AcceptGenerated(Dump(base), policies, false, st, [g]);
      var e := Entry(p, ReadAt(st.candidate, p), value);
      && r.Ok?
      && if Takes(base, e, after) then
           && |r.value.changes| == |st.changes| + 1
           && r.value == Preparation(after, st.changes + [r.value.changes[|st.changes|]], st.findings)
           && Records(base, r.value.changes[|st.changes|], |st.changes|, e, g.reason)
         else
           && |r.value.findings| == |st.findings| + 1
           && r.value == st.(findings := st.findings + [r.value.findings[|st.findings|]])
           && (if Open(p) || Container(p) then HeldBack(r.value.findings[|st.findings|], e)
               else r.value.findings[|st.findings|] == Finding(ProtectedField, g.fieldPath))
  {
    var e := Entry(p, ReadAt(st.candidate, p), value);
    PrintParse(g.fieldPath);
    if Open(p) || Container(p) {
      DiffOfWrite(st.candidate, "", p, value);
      ExpandAnswer(false, st.candidate, g, p);
      OneGenerated(Dump(base), policies, false, st, g);
      EntryAnswer(base, policies, g.reason, st, e, after);
      OneAccepted(Dump(base), policies, g.reason, st, e);
    } else {
      RejectAnswer(base, policies, false, st, g, p);
    }
  }

  lemma {:induction false} OneAccepted(original: Json, policies: map<string, Policy>, reason: string, st: Preparation,
          e: Entry)
    ensures AcceptEntries(original, policies, reason, st, [e]) == AcceptEntry(original, policies, reason, st, e)
  {
    assert [e][1..] == [];
  }

  // ---- proposals of one write ----

  // What is prepared from one generated write of a value as a whole
  lemma {:induction false} PrepareAnswer(base: Draft, policies: map<string, Policy>, g: Generated,
          findings: seq<Finding>, p: Path, value: Option<Json>, after: Json, validate: Json -> Option<Draft>)
    requires BoundTo(base, policies) && Parse(g.fieldPath) == Ok(p) && g.value.Some?
    requires value == (if g.remove then None else g.value) && Clear(Dump(base), "", p, value)
    requires Whole(ReadAt(Dump(base), p), value) && WriteAt(Dump(base), p, value) == Ok(after)
    ensures var r := Prepare(base, [g], findings, false, false, validate);
      var e := Entry(p, ReadAt(Dump(base), p), value);
      if validate(if Takes(base, e, after) then after else Dump(base)).None? then r == Err(InvalidDraft)
      else
        && r.Ok?
        && var (proposal, draft) := r.value;
           if Takes(base, e, after) then
             && |proposal.changes| == 1 && Records(base, proposal.changes[0], 0, e, g.reason)
             && proposal.findings == findings && validate(after) == Some(draft)
           else
             && proposal.changes == [] && |proposal.findings| == |findings| + 1 && findings <= proposal.findings
             && validate(Dump(base)) == Some(draft)
             && if Open(p) || Container(p) then HeldBack(proposal.findings[|findings|], e)
                else proposal.findings[|findings|] == Finding(ProtectedField, g.fieldPath)
  {
    var st := Preparation(Dump(base), [], findings);
    assert Start(base, policies, false, findings) == st;
    WriteAnswer(base, policies, st, g, p, value, after);
    var next := AcceptGenerated(Dump(base), policies, false, st, [g]).value;
    assert |next.changes| <= 1;
  }

  // One finding for each generated change
  function Refusals(gs: seq<Generated>): seq<Finding> {
    if gs == [] then [] else [Finding(ProtectedField, gs[0].fieldPath)] + Refusals(gs[1..])
  }

  // Nothing is proposed in a check: each change leaves one finding.
  lemma {:induction false} CheckAnswer(base: Draft, policies: map<string, Policy>, st: Preparation, gs: seq<Generated>)
    ensures AcceptGenerated(Dump(base), policies, true, st, gs) == Ok(st.(findings := st.findings + Refusals(gs)))
    decreases |gs|
  {
    if gs == [] {
      assert st.findings + [] == st.findings;
    } else {
      var own := [Finding(ProtectedField, gs[0].fieldPath)];
      CheckAnswer(base, policies, st.(findings := st.findings + own), gs[1..]);
      assert st.findings + own + Refusals(gs[1..]) == st.findings + (own + Refusals(gs[1..]));
    }
  }

  // ---- whole differences ----

  ghost predicate Passes(base: Draft, e: Entry) {
    Open(e.path) && !Touched(base, e.path)
  }

  ghost function TakenOf(base: Draft, es: seq<Entry>): seq<Entry> {
    if es == [] then [] else (if Passes(base, es[0]) then [es[0]] else []) + TakenOf(base, es[1..])
  }

  ghost function HeldOf(base: Draft, es: seq<Entry>): seq<Entry> {
    if es == [] then [] else (if Passes(base, es[0]) then [] else [es[0]]) + HeldOf(base, es[1..])
  }

  // One change for each entry taken and one finding for each held back, in their order
  ghost predicate Sieved(base: Draft, st: Preparation, next: Preparation, taken: seq<Entry>, held: seq<Entry>,
          reason: string)
  {
    && |next.changes| == |st.changes| + |taken| && st.changes <= next.changes
    && (forall k :: |st.changes| <= k < |next.changes| ==>
          Records(base, next.changes[k], k, taken[k - |st.changes|], reason))
    && |next.findings| == |st.findings| + |held| && st.findings <= next.findings
    && forall k :: |st.findings| <= k < |next.findings| ==> HeldBack(next.findings[k], held[k - |st.findings|])
  }

  // Every fixed path enters the document's collections through their own ref fields, and reads as in the base.
  ghost predicate Framed(base: Draft, doc: Json) {
    Unmoved(base, Dump(base), doc) && forall f: Path :: Has(base, Fixed, f) ==> f != [] && Aligned(doc, "", f)
  }

  lemma {:induction false} FramedAfter(base: Draft, doc: Json, e: Entry, after: Json)
    requires Framed(base, doc) && Pending(doc, e) && e.path != [] && !Touched(base, e.path)
    requires WriteAt(doc, e.path, e.after) == Ok(after)
    ensures Framed(base, after)
  {
    forall f: Path | Has(base, Fixed, f) ensures ReadAt(after, f) == ReadAt(Dump(base), f) && Aligned(after, "", f) {
      assert !Comparable(f, e.path);
      Frame(doc, "", e.path, e.after, f, None);
    }
  }

  lemma {:induction false} SievedOn(base: Draft, st: Preparation, mid: Preparation, next: Preparation, e: Entry,
          taken: seq<Entry>, held: seq<Entry>, reason: string)
    requires if Passes(base, e) then Sieved(base, st, mid, [e], [], reason) else Sieved(base, st, mid, [], [e], reason)
    requires Sieved(base, mid, next, taken, held, reason)
    ensures Sieved(base, st, next, (if Passes(base, e) then [e] else []) + taken,
        (if Passes(base, e) then [] else [e]) + held, reason)
  {
    var allTaken, allHeld := (if Passes(base, e) then [e] else []) + taken,
      (if Passes(base, e) then [] else [e]) + held;
    forall k | |st.changes| <= k < |next.changes|
      ensures Records(base, next.changes[k], k, allTaken[k - |st.changes|], reason)
    {
      if k < |mid.changes| { assert next.changes[k] == mid.changes[k]; }
    }
    forall k | |st.findings| <= k < |next.findings| ensures HeldBack(next.findings[k], allHeld[k - |st.findings|]) {
      if k < |mid.findings| { assert next.findings[k] == mid.findings[k]; }
    }
  }

  lemma EntryTaken(base: Draft, policies: map<string, Policy>, reason: string, st: Preparation, e: Entry, after: Json)
    requires BoundTo(base, policies) && Named(e.path) && WriteAt(st.candidate, e.path, e.after) == Ok(after)
    requires Takes(base, e, after)
    ensures var r := AcceptEntry(Dump(base), policies, reason, st, e);
      r.Ok? && r.value.candidate == after && Sieved(base, st, r.value, [e], [], reason)
  {
    EntryAnswer(base, policies, reason, st, e, after);
  }

  lemma EntryHeld(base: Draft, policies: map<string, Policy>, reason: string, st: Preparation, e: Entry, after: Json)
    requires BoundTo(base, policies) && Named(e.path) && WriteAt(st.candidate, e.path, e.after) == Ok(after)
    requires !Takes(base, e, after)
    ensures var r := AcceptEntry(Dump(base), policies, reason, st, e);
      r.Ok? && r.value.candidate == st.candidate && Sieved(base, st, r.value, [], [e], reason)
  {
    EntryAnswer(base, policies, reason, st, e, after);
  }

  lemma EntryIsSieved(base: Draft, policies: map<string, Policy>, reason: string, st: Preparation, e: Entry)
    requires BoundTo(base, policies) && Framed(base, st.candidate) && Pending(st.candidate, e) && Named(e.path)
    ensures var r := AcceptEntry(Dump(base), policies, reason, st, e);
      && r.Ok? && Framed(base, r.value.candidate)
      && r.value.candidate == (if Passes(base, e) then WriteAt(st.candidate, e.path, e.after).value else st.candidate)
      && if Passes(base, e) then Sieved(base, st, r.value, [e], [], reason)
         else Sieved(base, st, r.value, [], [e], reason)
  {
    var after := WriteAt(st.candidate, e.path, e.after).value;
    if Passes(base, e) {
      FramedAfter(base, st.candidate, e, after);
      EntryTaken(base, policies, reason, st, e, after);
    } else {
      EntryHeld(base, policies, reason, st, e, after);
    }
  }

  // The entries of a difference whose path is open and touches no fixed path are taken over, each as its own
  // change, and the others are held back, each with its own finding.
  lemma {:induction false} SieveAnswer(base: Draft, policies: map<string, Policy>, reason: string, st: Preparation,
          es: seq<Entry>)
    requires BoundTo(base, policies) && Framed(base, st.candidate) && Apart(es)
    requires forall e :: e in es ==> Pending(st.candidate, e) && Named(e.path)
    ensures var r := AcceptEntries(Dump(base), policies, reason, st, es);
      r.Ok? && Sieved(base, st, r.value, TakenOf(base, es), HeldOf(base, es), reason)
    decreases |es|
  {
    if es != [] {
      var e, rest := es[0], es[1..];
      assert e in es;
      ApartTail(es);
      EntryIsSieved(base, policies, reason, st, e);
      var mid := AcceptEntry(Dump(base), policies, reason, st, e).value;
      forall r | r in rest ensures Pending(mid.candidate, r) && Named(r.path) {
        if Passes(base, e) { PendingKept(st.candidate, e, r); }
      }
      SieveAnswer(base, policies, reason, mid, rest);
      SievedOn(base, st, mid, AcceptEntries(Dump(base), policies, reason, mid, rest).value, e, TakenOf(base, rest),
          HeldOf(base, rest), reason);
    }
  }

  // So is the whole of a generated change, for an open path or for a container, when fixed paths enter
  // collections by their own refs: its changes are the entries of the difference it makes.
  lemma {:induction false} GeneratedAnswer(base: Draft, policies: map<string, Policy>, st: Preparation, g: Generated,
          p: Path, tentative: Json, es: seq<Entry>)
    requires BoundTo(base, policies) && Framed(base, st.candidate)
    requires Parse(g.fieldPath) == Ok(p) && (Open(p) || Container(p)) && g.value.Some?
    requires WriteAt(st.candidate, p, if g.remove then None else g.value) == Ok(tentative)
    requires Diff("", st.candidate, tentative) == Ok(es) && forall e :: e in es ==> Named(e.path)
    ensures var r := AcceptGenerated(Dump(base), policies, false, st, [g]);
      r.Ok? && Sieved(base, st, r.value, TakenOf(base, es), HeldOf(base, es), g.reason)
  {
    ExpandAnswer(false, st.candidate, g, p);
    OneGenerated(Dump(base), policies, false, st, g);
    DiffExact("", st.candidate, tentative);
    forall e | e in es ensures Pending(st.candidate, e) { assert Exact("", st.candidate, tentative, e); }
    SieveAnswer(base, policies, g.reason, st, es);
  }

  // The difference of a replaced container is the one of its values, below its name.
  lemma {:induction false} ContainerAnswer(candidate: Json, name: string, value: Json, es: seq<Entry>)
    requires candidate.Obj? && name in candidate.fields && value != candidate.fields[name]
    requires Diff(name, candidate.fields[name], value) == Ok(es)
    ensures WriteAt(candidate, [name], Some(value)) == Ok(Obj(candidate.fields[name := value]))
    ensures Diff("", candidate, Obj(candidate.fields[name := value])) == Ok(Under(name, es))
  {
    var after := Obj(candidate.fields[name := value]);
    assert after.fields[name] == value;
    DiffByOneKid("", candidate, after, name, es);
  }

  // ---- the schema that the server supplies ----

  // Making a draft concrete sets its schema version first, unless it has one or a fixed path is in the way.
  lemma SchemaAnswer(base: Draft, policies: map<string, Policy>, concretize: bool, findings: seq<Finding>)
    requires BoundTo(base, policies)
    ensures var st := Start(base, policies, concretize, findings);
      && st.findings == findings
      && if concretize && "schema_version" !in base.scenario && !Touched(base, ["scenario", "schema_version"]) then
           && |st.changes| == 1 && st.changes[0].id == 0
           && Parse(st.changes[0].fieldPath) == Ok(["scenario", "schema_version"])
           && st.changes[0].Before() == None && st.changes[0].After() == Some(Num(2))
           && WriteAt(Dump(base), ["scenario", "schema_version"], Some(Num(2))) == Ok(st.candidate)
         else st.changes == [] && st.candidate == Dump(base)
  {
    SchemaPathParts();
    TouchedAnswer(base, policies, SCHEMA_PARTS, SCHEMA_PATH);
    if "schema_version" !in base.scenario { SchemaWrite(base); }
  }

  // ---- adopting one change ----

  // The change is the one that supplies the schema version.
  ghost predicate SuppliesSchema(base: Draft, c: Change, p: Path) {
    && p == ["scenario", "schema_version"] && c.Before() == None && c.After() == Some(Num(2))
    && "schema_version" !in base.scenario
  }

  lemma SuppliesAnswer(base: Draft, c: Change, p: Path)
    requires Parse(c.fieldPath) == Ok(p)
    ensures SuppliesSchema(base, c, p) <==> SchemaInitialization(base, c)
  {
    SchemaPathParts();
    PrintParse(c.fieldPath);
    PrintParse(SCHEMA_PATH);
  }

  // A change is refused for a path that is not open or that a fixed one touches, then for a value that is not
  // the one it was made from, and is written otherwise.
  lemma {:induction false} AdoptAnswer(base: Draft, policies: map<string, Policy>, payload: Json, c: Change, p: Path)
    requires BoundTo(base, policies) && Parse(c.fieldPath) == Ok(p)
    ensures var r := AdoptChange(base, policies, payload, c);
      if !(Open(p) || SuppliesSchema(base, c, p)) || Touched(base, p) then r == Err(FixedField)
      else if ReadAt(payload, p) != c.Before() then r == Err(BaseConflict)
      else r == WriteAt(payload, p, c.After())
  {
    OpenIsWritable(p);
    TouchedAnswer(base, policies, p, c.fieldPath);
    SuppliesAnswer(base, c, p);
    AdoptCases(base, policies, payload, c, p);
  }

  lemma {:induction false} AdoptCases(base: Draft, policies: map<string, Policy>, payload: Json, c: Change, p: Path)
    requires Parse(c.fieldPath) == Ok(p)
    ensures AdoptChange(base, policies, payload, c) ==
      if (!Writable(p) && !SchemaInitialization(base, c)) || Protected(policies, c.fieldPath) then Err(FixedField)
      else if ReadAt(payload, p) != c.Before() then Err(BaseConflict)
      else WriteAt(payload, p, c.After())
  {
  }

  // A selection is unknown exactly if it names a change that the proposal does not have, and then nothing else
  // is looked at; otherwise it is what the loop makes of it, unless a fixed path moves or the model refuses it.
  lemma {:induction false} SelectionAnswer(base: Draft, policies: map<string, Policy>, changes: seq<Change>,
          ids: set<nat>, validate: Json -> Option<Draft>)
    requires BoundTo(base, policies)
    ensures var r := Adopt(base, changes, ids, validate);
      var run := AdoptLoop(base, policies, Dump(base), changes, ids);
      if exists id :: id in ids && forall c :: c in changes ==> c.id != id then r == Err(UnknownChange)
      else if run.Err? then r == Err(run.code)
      else if !Unmoved(base, Dump(base), run.value) then r == Err(FixedField)
      else r == if validate(run.value).Some? then Ok(validate(run.value).value) else Err(InvalidDraft)
  {
    var run := AdoptLoop(base, policies, Dump(base), changes, ids);
    if run.Ok? { UnmovedAnswer(base, policies, Dump(base), run.value); }
    assert ids <= Ids(changes) <==> forall id :: id in ids ==> exists c :: c in changes && c.id == id;
  }
}
