/**
 How expanding and guarding fit the difference algebra: an expansion accepted as a whole reaches the
 model's value, and bindings only ever get stronger.
 */
module Expansion {
  import opened Outcomes
  import opened JsonValues
  import opened Paths
  import opened Patch
  import opened Differences
  import opened RoundTrip
  import opened Proposals

  // ---- an expansion accepted as a whole ----

  lemma AcceptKeepsFindings(original: Json, policies: map<string, Policy>, reason: string, st: Preparation, e: Entry)
    requires AcceptEntry(original, policies, reason, st, e).Ok?
    ensures var next := AcceptEntry(original, policies, reason, st, e).value;
      if |next.findings| == |st.findings| then e.path != []
        && WriteAt(st.candidate, e.path, e.after) == Ok(next.candidate)
      else |next.findings| == |st.findings| + 1
  {
    if e.path != [] { ParsePrint(e.path); }
  }

  lemma {:induction false} AcceptAllReplays(original: Json, policies: map<string, Policy>, reason: string,
          st: Preparation, es: seq<Entry>)
    requires AcceptEntries(original, policies, reason, st, es).Ok?
    ensures |AcceptEntries(original, policies, reason, st, es).value.findings| >= |st.findings|
    ensures |AcceptEntries(original, policies, reason, st, es).value.findings| == |st.findings| ==>
      Replay(st.candidate, es) == Ok(AcceptEntries(original, policies, reason, st, es).value.candidate)
    decreases |es|
  {
    if es != [] {
      AcceptKeepsFindings(original, policies, reason, st, es[0]);
      AcceptAllReplays(original, policies, reason, AcceptEntry(original, policies, reason, st, es[0]).value, es[1..]);
    }
  }

  // When no entry of an expansion is held back, the candidate becomes the model's value up to the
  // order of rows in keyed collections, and nothing remains to be changed.
  lemma {:induction false} FullyAcceptedReachesModel(original: Json, policies: map<string, Policy>, reason: string,
          st: Preparation, tentative: Json)
    requires Diff("", st.candidate, tentative).Ok?
    requires AcceptEntries(original, policies, reason, st, Diff("", st.candidate, tentative).value).Ok?
    requires |AcceptEntries(original, policies, reason, st,
        Diff("", st.candidate, tentative).value).value.findings| == |st.findings|
    ensures var next := AcceptEntries(original, policies, reason, st, Diff("", st.candidate, tentative).value).value;
      Same("", next.candidate, tentative) && Diff("", next.candidate, tentative) == Ok([])
  {
    AcceptAllReplays(original, policies, reason, st, Diff("", st.candidate, tentative).value);
    RoundTripAt("", st.candidate, tentative);
  }

  // ---- the strongest policy wins ----

  // Some binding of the given strength is bound to this path.
  ghost predicate Binds(payload: Json, item: (string, Policy), path: string, p: Policy) {
    item.1 == p && CanonicalPolicy(payload, item.0) == Ok(path)
  }

  ghost predicate Bound(payload: Json, items: seq<(string, Policy)>, path: string, p: Policy) {
    exists item :: item in items && Binds(payload, item, path, p)
  }

  lemma BoundStep(payload: Json, items: seq<(string, Policy)>, path: string, p: Policy)
    requires items != []
    ensures Bound(payload, items, path, p) <==>
      Binds(payload, items[0], path, p) || Bound(payload, items[1..], path, p)
  {
    assert forall item :: item in items <==> item == items[0] || item in items[1..];
  }

  // A path is fixed exactly when one of its bindings is, in whatever order and spelling the
  // bindings come; and it is undecided only when none of them is fixed.
  lemma {:induction false} StrongestPolicyWins(payload: Json, items: seq<(string, Policy)>, m: map<string, Policy>,
          path: string)
    requires Policies(payload, items, m).Ok?
    ensures var r := Policies(payload, items, m).value;
      && (path in FixedPaths(r) <==> path in FixedPaths(m) || Bound(payload, items, path, Fixed))
      && (path in r && r[path].Undecided? <==>
            path !in FixedPaths(m) && !Bound(payload, items, path, Fixed)
              && ((path in m && m[path].Undecided?) || Bound(payload, items, path, Undecided)))
    decreases |items|
  {
    if items != [] {
      BoundStep(payload, items, path, Fixed);
      BoundStep(payload, items, path, Undecided);
      StrongestPolicyWins(payload, items[1..], Strengthen(m, CanonicalPolicy(payload, items[0].0).value, items[0].1),
          path);
    }
  }

  // ---- what a bound policy names ----

  // What a path with list positions names
  ghost function Positional(node: Json, parts: Path): Option<Json>
    decreases |parts|
  {
    if parts == [] then Some(node)
    else if node.Arr? && Digits(parts[0]) then
      if Decimal(parts[0]) < |node.rows| then Positional(node.rows[Decimal(parts[0])], parts[1..]) else None
    else if Child(node, parts[0]).Ok? then Positional(Child(node, parts[0]).value, parts[1..])
    else None
  }

  // An entity segment that resolves at all resolves to the row it was taken from.
  lemma EntityResolves(rows: seq<Json>, index: nat, key: string)
    requires key in REFS && index < |rows| && RefOf(rows[index], key).Ref?
    ensures Child(Arr(rows), RefOf(rows[index], key).segment).Ok? ==>
      Child(Arr(rows), RefOf(rows[index], key).segment).value == rows[index]
  {
    var part := RefOf(rows[index], key).segment;
    RefSegmentKey(rows[index], key);
    ChildIsSee(Arr(rows), part);
    if !AnyBad(rows, key) {
      SeeArr(rows, part);
      assert Match(rows, key, part, index);
    }
  }

  // Binding a whole path to entities keeps what it names: if the bound path reads anything, it reads
  // the value at the given positions, and it will go on doing so when rows are moved.
  lemma {:induction false} BindingKeepsTarget(node: Json, parts: Path, done: Path)
    requires BindPolicy(Some(node), parts, done).Ok? && |BindPolicy(Some(node), parts, done).value| == |done| + |parts|
    ensures var bound := BindPolicy(Some(node), parts, done).value;
      && done <= bound
      && (ReadAt(node, bound[|done|..]).Some? ==> ReadAt(node, bound[|done|..]) == Positional(node, parts))
    decreases |parts|
  {
    if parts != [] {
      var rebound := Rebind(Some(node), parts[0], done);
      BindingLength(Some(node), parts, done);
      var part := rebound.value.value;
      var bound := BindPolicy(Some(node), parts, done).value;
      BindingExtends(Step(Some(node), part), parts[1..], done + [part]);
      assert bound[|done|..][0] == bound[|done|] == (done + [part])[|done|] == part;
      assert bound[|done|..][1..] == bound[|done + [part]|..];
      if Child(node, part).Ok? {
        if part != parts[0] {
          EntityResolves(node.rows, Decimal(parts[0]), CollectionKey(Escape(done[|done| - 1])).value);
        }
        BindingKeepsTarget(Child(node, part).value, parts[1..], done + [part]);
        DigitsAreNoEntity(node, parts[0], done, part);
      }
    }
  }

  // A list position is always rebound to an entity segment.
  lemma {:induction false} DigitsAreNoEntity(node: Json, part: string, done: Path, bound: string)
    requires Rebind(Some(node), part, done) == Ok(Some(bound))
    ensures node.Arr? && Digits(part) ==>
      Decimal(part) < |node.rows| && done != [] && IsRowSegment(bound) && bound != part
  {
    if node.Arr? && Digits(part) {
      var row := node.rows[Decimal(part)];
      RefSegmentKey(row, CollectionKey(Escape(done[|done| - 1])).value);
      assert part[0] != '@';
    }
  }

  lemma {:induction false} BindingExtends(node: Option<Json>, parts: Path, done: Path)
    requires BindPolicy(node, parts, done).Ok?
    ensures done <= BindPolicy(node, parts, done).value && |BindPolicy(node, parts, done).value| <= |done| + |parts|
    decreases |parts|
  {
    if parts != [] && Rebind(node, parts[0], done).value.Some? {
      var part := Rebind(node, parts[0], done).value.value;
      BindingExtends(Step(node, part), parts[1..], done + [part]);
      assert done <= done + [part];
    }
  }

  lemma {:induction false} BindingLength(node: Option<Json>, parts: Path, done: Path)
    requires parts != [] && BindPolicy(node, parts, done).Ok?
      && |BindPolicy(node, parts, done).value| == |done| + |parts|
    ensures Rebind(node, parts[0], done).Ok? && Rebind(node, parts[0], done).value.Some?
  {
  }

  // ---- one step of a binding ----

  // A position in a collection is bound to the row's ref; where the row has none, or there is no row, the
  // policy stops at the collection. Any other segment is kept.
  lemma {:induction false} BindingStep(node: Json, parts: Path, done: Path, name: string)
    requires parts != [] && done != [] && Escape(done[|done| - 1]) == name
    ensures var (part, r) := (parts[0], BindPolicy(Some(node), parts, done));
      if node.Arr? && Digits(part) then
        var i := Decimal(part);
        if i < |node.rows| && CollectionKey(name).Some? then
          match RefOf(node.rows[i], CollectionKey(name).value)
          case NoRef => r == Ok(done)
          case BadRef => r == Err(InvalidRef)
          case Ref(seg) => r == BindPolicy(Step(Some(node), seg), parts[1..], done + [seg])
        else r == Ok(done)
      else r == BindPolicy(Step(Some(node), part), parts[1..], done + [part])
  {
  }
}
