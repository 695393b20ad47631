/**
 A draft whose fixed path enters the scenes through a second ref field that two of them share, and
 a proposal for it that is prepared and adopted as a whole while one selection is refused.
 */
module AliasWitness {
  import opened Outcomes
  import opened JsonValues
  import opened Paths
  import opened Patch
  import opened Differences
  import opened Proposals
  import opened ProposalLaws
  import opened AdoptionOrder
  import opened SelectionLaws
  import opened WrittenDifference
  import opened Acceptance

  // ---- the draft ----

  function Row(scene: string, ref: string, title: Option<Json>): Json {
    var fields := map["scene_ref" := Str(scene), "ref" := Str(ref)];
    Obj(if title.Some? then fields["title" := title.value] else fields)
  }

  function DraftOf(rows: seq<Json>, fixed: string): Draft {
    Draft(map["scenes" := Arr(rows)], Obj(map[]), [(fixed, Fixed)], "")
  }

  function Path4(segment: string, field: string): Path {
    ["scenario", "scenes", segment, field]
  }

  lemma SegmentsDiffer(key: string, v: string, w: string)
    requires v != w
    ensures RowSegment(key, v) != RowSegment(key, w)
  {
    var n := 2 + |key|;
    assert RowSegment(key, v)[n..] == v && RowSegment(key, w)[n..] == w;
  }

  lemma RowRefs(scene: string, ref: string, title: Option<Json>)
    requires ValidRef(scene) && ValidRef(ref)
    ensures RefOf(Row(scene, ref, title), "scene_ref") == Ref(RowSegment("scene_ref", scene))
    ensures RefOf(Row(scene, ref, title), "ref") == Ref(RowSegment("ref", ref))
  {
  }

  // ---- reading and writing the draft ----

  lemma DocRead(rows: seq<Json>, fixed: string, segment: string, field: string)
    ensures ReadAt(Dump(DraftOf(rows, fixed)), Path4(segment, field)) == ReadAt(Arr(rows), [segment, field])
  {
    var p := Path4(segment, field);
    assert p[1..] == ["scenes", segment, field] && p[1..][1..] == [segment, field];
  }

  // A write below the field of an object
  lemma {:induction false} FieldWrite(node: Json, name: string, p: Path, value: Option<Json>, child: Json, after: Json)
    requires node.Obj? && |p| >= 2 && p[0] in node.fields && node.fields[p[0]] == child
    requires Clear(child, p[0], p[1..], value) && WriteAt(child, p[1..], value) == Ok(after)
    ensures Clear(node, name, p, value) && WriteAt(node, p, value) == Ok(Obj(node.fields[p[0] := after]))
  {
  }

  lemma {:induction false} DocWrite(rows: seq<Json>, fixed: string, segment: string, field: string,
          value: Option<Json>, after: seq<Json>)
    requires Clear(Arr(rows), "scenes", [segment, field], value)
    requires WriteAt(Arr(rows), [segment, field], value) == Ok(Arr(after))
    ensures Clear(Dump(DraftOf(rows, fixed)), "", Path4(segment, field), value)
    ensures WriteAt(Dump(DraftOf(rows, fixed)), Path4(segment, field), value) == Ok(Dump(DraftOf(after, fixed)))
  {
    var doc, p, scenario := Dump(DraftOf(rows, fixed)), Path4(segment, field), Obj(map["scenes" := Arr(rows)]);
    var changed := Obj(map["scenes" := Arr(after)]);
    assert p[1..] == ["scenes", segment, field] && p[1..][1..] == [segment, field];
    FieldWrite(scenario, "scenario", p[1..], value, Arr(rows), Arr(after));
    assert scenario.fields["scenes" := Arr(after)] == changed.fields;
    FieldWrite(doc, "", p, value, scenario, changed);
    assert doc.fields["scenario" := changed] == Dump(DraftOf(after, fixed)).fields;
  }

  // What a path through a segment of a two-row collection reads
  lemma PairRead(first: Json, second: Json, key: string, part: string, field: string)
    requires key in REFS && IsRowSegment(part) && SegmentKey(part) == key && first.Obj? && second.Obj?
    requires RefOf(first, key).Ref? && RefOf(second, key).Ref?
    ensures RefOf(first, key) == Ref(part) == RefOf(second, key) ==> ReadAt(Arr([first, second]), [part, field]) == None
    ensures RefOf(first, key) != Ref(part) == RefOf(second, key) ==>
      ReadAt(Arr([first, second]), [part, field]) == if field in second.fields then Some(second.fields[field]) else None
  {
    var rows := [first, second];
    assert !AnyBad(rows, key);
    SeeArr(rows, part);
    ChildIsSee(Arr(rows), part);
    assert [part, field][1..] == [field];
    if RefOf(first, key) == Ref(part) == RefOf(second, key) {
      assert Match(rows, key, part, 0) && Match(rows, key, part, 1);
    } else if RefOf(second, key) == Ref(part) {
      assert Only(rows, key, part, 1);
      ReadField(second, field);
    }
  }

  // Writing a field of one of two scenes
  lemma {:induction false} PairWrite(rows: seq<Json>, i: nat, part: string, field: string, value: Option<Json>,
          after: Json)
    requires |rows| == 2 && i < 2 && rows[0].Obj? && rows[1].Obj? && Keyed(rows, "scene_ref")
    requires RefOf(rows[i], "scene_ref") == Ref(part) && field != "scene_ref"
    requires WriteAt(rows[i], [field], value) == Ok(after)
    ensures Clear(Arr(rows), "scenes", [part, field], value)
      && WriteAt(Arr(rows), [part, field], value) == Ok(Arr(rows[i := after]))
    ensures ReadAt(Arr(rows), [part, field]) == ReadAt(rows[i], [field])
  {
    RefSegmentKey(rows[i], "scene_ref");
    assert !AnyBad(rows, "scene_ref");
    assert Only(rows, "scene_ref", part, i) by {
      forall j | Match(rows, "scene_ref", part, j)
        ensures j == i
      {
        assert RefOf(rows[i], "scene_ref") == RefOf(rows[j], "scene_ref");
      }
    }
    SeeArr(rows, part);
    ChildIsSee(Arr(rows), part);
    assert [part, field][1..] == [field] && [field][1..] == [];
    assert Fits(rows[i], part, [field]) && KeyedAlong(rows[i], part, [field]);
  }

  lemma TwoScenes(a: string, b: string, x: string, y: string, title: Option<Json>)
    requires ValidRef(a) && ValidRef(b) && ValidRef(x) && ValidRef(y) && a != b
    ensures Keyed([Row(a, y, None), Row(b, x, title)], "scene_ref")
  {
    RowRefs(a, y, None);
    RowRefs(b, x, title);
    SegmentsDiffer("scene_ref", a, b);
  }

  // Setting the second ref of the first scene
  lemma SetRef(a: string, b: string, x: string, y: string, title: Option<Json>)
    requires ValidRef(a) && ValidRef(b) && ValidRef(x) && ValidRef(y) && a != b
    ensures var rows, p := [Row(a, x, None), Row(b, x, title)], [RowSegment("scene_ref", a), "ref"];
      && Clear(Arr(rows), "scenes", p, Some(Str(y))) && ReadAt(Arr(rows), p) == Some(Str(x))
      && WriteAt(Arr(rows), p, Some(Str(y))) == Ok(Arr([Row(a, y, None), Row(b, x, title)]))
  {
    var rows := [Row(a, x, None), Row(b, x, title)];
    TwoScenes(a, b, x, x, title);
    RowRefs(a, x, None);
    assert Row(a, x, None).fields["ref" := Str(y)] == Row(a, y, None).fields;
    assert WriteAt(rows[0], ["ref"], Some(Str(y))) == Ok(Row(a, y, None));
    PairWrite(rows, 0, RowSegment("scene_ref", a), "ref", Some(Str(y)), Row(a, y, None));
    ReadField(rows[0], "ref");
    assert rows[0 := Row(a, y, None)] == [Row(a, y, None), Row(b, x, title)];
  }

  // Removing the title of the second scene
  lemma DropTitle(a: string, b: string, x: string, title: Json)
    requires ValidRef(a) && ValidRef(b) && ValidRef(x) && a != b
    ensures var rows, p := [Row(a, x, None), Row(b, x, Some(title))], [RowSegment("scene_ref", b), "title"];
      && Clear(Arr(rows), "scenes", p, None) && ReadAt(Arr(rows), p) == Some(title)
      && WriteAt(Arr(rows), p, None) == Ok(Arr([Row(a, x, None), Row(b, x, None)]))
  {
    var rows := [Row(a, x, None), Row(b, x, Some(title))];
    TwoScenes(a, b, x, x, Some(title));
    RowRefs(b, x, Some(title));
    assert Row(b, x, Some(title)).fields - {"title"} == Row(b, x, None).fields;
    assert WriteAt(rows[1], ["title"], None) == Ok(Row(b, x, None));
    PairWrite(rows, 1, RowSegment("scene_ref", b), "title", None, Row(b, x, None));
    ReadField(rows[1], "title");
    assert rows[1 := Row(b, x, None)] == [Row(a, x, None), Row(b, x, None)];
  }

  // What the shared ref reads: nothing while both scenes carry it, and then the second one's title.
  lemma AliasReads(a: string, b: string, x: string, y: string, title: Option<Json>)
    requires ValidRef(a) && ValidRef(b) && ValidRef(x) && ValidRef(y) && x != y
    ensures ReadAt(Arr([Row(a, x, None), Row(b, x, title)]), [RowSegment("ref", x), "title"]) == None
    ensures ReadAt(Arr([Row(a, y, None), Row(b, x, title)]), [RowSegment("ref", x), "title"]) == title
  {
    RowSegmentKey("ref", x);
    SegmentsDiffer("ref", x, y);
    RowRefs(a, x, None);
    RowRefs(a, y, None);
    RowRefs(b, x, title);
    PairRead(Row(a, x, None), Row(b, x, title), "ref", RowSegment("ref", x), "title");
    PairRead(Row(a, y, None), Row(b, x, title), "ref", RowSegment("ref", x), "title");
  }

  // ---- preparing ----

  function AliasOf(x: string): Path { Path4(RowSegment("ref", x), "title") }

  function RefOfScene(a: string): Path { Path4(RowSegment("scene_ref", a), "ref") }

  function TitleOf(b: string): Path { Path4(RowSegment("scene_ref", b), "title") }

  lemma {:induction false} BindPlain(node: Option<Json>, parts: Path, done: Path)
    requires forall i :: 0 <= i < |parts| ==> !Digits(parts[i])
    ensures BindPolicy(node, parts, done) == Ok(done + parts)
    decreases |parts|
  {
    if parts == [] {
      assert done + parts == done;
    } else {
      BindPlain(Step(node, parts[0]), parts[1..], done + [parts[0]]);
      assert done + [parts[0]] + parts[1..] == done + parts;
    }
  }

  lemma NotDigits(s: string)
    requires s != "" && !('0' <= s[0] <= '9')
    ensures !Digits(s)
  {
  }

  // A path of the draft, its text, and what the text is not
  ghost predicate Spelled(p: Path, text: string) {
    p != [] && Print(p) == text && Parse(text) == Ok(p) && forall i :: 0 <= i < |p| ==> !Digits(p[i])
  }

  lemma {:induction false} SpellNamed(p: Path)
    requires Named(p) && forall i :: 0 <= i < |p| ==> !Digits(p[i])
    ensures Spelled(p, Print(p))
  {
    ParsePrint(p);
  }

  lemma Spell(segment: string, field: string) returns (text: string)
    requires segment != "" && segment[0] == '@' && field in {"ref", "title"}
    ensures Spelled(Path4(segment, field), text)
  {
    var p := Path4(segment, field);
    forall i | 0 <= i < |p| ensures p[i] != "" && !Digits(p[i]) { NotDigits(p[i]); }
    SpellNamed(p);
    text := Print(p);
  }

  lemma WritablePath(segment: string, field: string)
    requires field in {"ref", "title"} && IsRowSegment(segment) && segment !in IDENTITY && segment !in REFS
    requires field == "ref" ==> !("@" + "ref" + "=" <= segment)
    ensures Writable(Path4(segment, field))
  {
    var p := Path4(segment, field);
    forall i | 1 <= i < |p| ensures !Forbidden(p, i) { assert i == 1 || i == 2 || i == 3; }
  }

  lemma CanonicalSpelled(payload: Json, p: Path, text: string)
    requires Spelled(p, text)
    ensures CanonicalPolicy(payload, text) == Ok(text)
  {
    BindPlain(Some(payload), p, []);
    assert [] + p == p;
  }

  // A single policy spelled with refs is bound as it is.
  lemma {:induction false} OnePolicy(payload: Json, p: Path, text: string)
    requires Spelled(p, text)
    ensures Policies(payload, [(text, Fixed)], map[]) == Ok(map[text := Fixed])
  {
    CanonicalSpelled(payload, p, text);
    var items := [(text, Fixed)];
    assert items[1..] == [];
    assert Strengthen(map[], text, Fixed) == map[text := Fixed];
  }

  lemma {:induction false} ExpandOne(candidate: Json, g: Generated, p: Path, es: seq<Entry>, tentative: Json)
    requires Spelled(p, g.fieldPath) && |p| >= 2 && Writable(p) && g.value.Some?
    requires WriteAt(candidate, p, if g.remove then None else g.value) == Ok(tentative)
      && Diff("", candidate, tentative) == Ok(es)
    ensures Expand(false, candidate, g) == Ok(Some(es))
  {
    assert Allowed(g.fieldPath) == Ok(true);
    ContainerText(g.fieldPath, p);
  }

  lemma {:induction false} AcceptOne(original: Json, policies: map<string, Policy>, reason: string, st: Preparation,
          e: Entry, text: string, after: Json)
    requires Spelled(e.path, text) && Writable(e.path) && !Protected(policies, text)
    requires WriteAt(st.candidate, e.path, e.after) == Ok(after) && FixedKept(policies, original, after)
    ensures AcceptEntries(original, policies, reason, st, [e]) ==
      Ok(st.(candidate := after, changes := st.changes + [ChangeFor(policies, |st.changes|, text, e, reason)]))
  {
    assert Allowed(text) == Ok(true) && WriteText(st.candidate, text, e.after) == Ok(after);
    var next := AcceptEntry(original, policies, reason, st, e).value;
    assert [e][1..] == [];
    assert AcceptEntries(original, policies, reason, next, []) == Ok(next);
  }

  // Only this path is fixed.
  ghost predicate OnlyFixed(policies: map<string, Policy>, fixed: Path, text: string) {
    policies == map[text := Fixed] && Spelled(fixed, text)
  }

  lemma {:induction false} OneFixed(policies: map<string, Policy>, fixed: Path, text: string, p: Path, path: string,
          original: Json, after: Json)
    requires OnlyFixed(policies, fixed, text) && Spelled(p, path)
    ensures Protected(policies, path) <==> Comparable(p, fixed)
    ensures FixedKept(policies, original, after) <==> ReadAt(original, fixed) == ReadAt(after, fixed)
  {
    assert FixedPaths(policies) == {text};
    OverlapIsComparable(path, text);
  }

  // One generated change that is not protected and keeps the fixed path becomes one change.
  lemma {:induction false} TakeOne(original: Json, policies: map<string, Policy>, fixed: Path, text: string,
          st: Preparation, p: Path, g: Generated, after: Json)
    requires OnlyFixed(policies, fixed, text) && Spelled(p, g.fieldPath) && |p| >= 2 && Writable(p)
      && !Comparable(p, fixed) && g.value.Some?
    requires var value := if g.remove then None else g.value;
      Clear(st.candidate, "", p, value) && Whole(ReadAt(st.candidate, p), value)
        && WriteAt(st.candidate, p, value) == Ok(after)
    requires ReadAt(original, fixed) == ReadAt(after, fixed)
    ensures var value := if g.remove then None else g.value;
      AcceptGenerated(original, policies, false, st, [g]) == Ok(st.(candidate := after,
        changes := st.changes + [ChangeFor(policies, |st.changes|, g.fieldPath,
            Entry(p, ReadAt(st.candidate, p), value), g.reason)]))
  {
    var value := if g.remove then None else g.value;
    var e := Entry(p, ReadAt(st.candidate, p), value);
    DiffOfWrite(st.candidate, "", p, value);
    ExpandOne(st.candidate, g, p, [e], after);
    OneFixed(policies, fixed, text, p, g.fieldPath, original, after);
    AcceptOne(original, policies, g.reason, st, e, g.fieldPath, after);
    TakeLast(original, policies, st, g, [e]);
  }

  lemma {:induction false} TakeLast(original: Json, policies: map<string, Policy>, st: Preparation, g: Generated,
          es: seq<Entry>)
    requires Expand(false, st.candidate, g) == Ok(Some(es)) && AcceptEntries(original, policies, g.reason, st, es).Ok?
    ensures AcceptGenerated(original, policies, false, st, [g]) == AcceptEntries(original, policies, g.reason, st, es)
  {
    assert [g][1..] == [];
    var next := AcceptEntries(original, policies, g.reason, st, es).value;
    assert AcceptGenerated(original, policies, false, next, []) == Ok(next);
  }

  lemma {:induction false} GeneratedConcat(original: Json, policies: map<string, Policy>, st: Preparation,
          g: Generated, more: seq<Generated>)
    requires AcceptGenerated(original, policies, false, st, [g]).Ok?
    ensures AcceptGenerated(original, policies, false, st, [g] + more) ==
      AcceptGenerated(original, policies, false, AcceptGenerated(original, policies, false, st, [g]).value, more)
  {
    assert ([g] + more)[0] == g && ([g] + more)[1..] == more && [g][1..] == [];
  }

  // ---- the proposal ----

  ghost predicate Names(a: string, b: string, x: string, y: string) {
    ValidRef(a) && ValidRef(b) && ValidRef(x) && ValidRef(y) && a != b && x != y
  }

  // Three states of the draft: as it is, with the title removed, with the second ref set as well
  function Rows(a: string, b: string, ref: string, x: string, title: Option<Json>): seq<Json> {
    [Row(a, ref, None), Row(b, x, title)]
  }

  lemma Drops(a: string, b: string, x: string, y: string, title: Json, fixed: string)
    requires Names(a, b, x, y)
    ensures var before, after :=
      Dump(DraftOf(Rows(a, b, x, x, Some(title)), fixed)), Dump(DraftOf(Rows(a, b, x, x, None), fixed));
      Clear(before, "", TitleOf(b), None) && ReadAt(before, TitleOf(b)) == Some(title)
        && WriteAt(before, TitleOf(b), None) == Ok(after)
  {
    var rows := Rows(a, b, x, x, Some(title));
    DropTitle(a, b, x, title);
    DocRead(rows, fixed, RowSegment("scene_ref", b), "title");
    DocWrite(rows, fixed, RowSegment("scene_ref", b), "title", None, Rows(a, b, x, x, None));
  }

  lemma Sets(a: string, b: string, x: string, y: string, title: Option<Json>, fixed: string)
    requires Names(a, b, x, y)
    ensures var before, after :=
      Dump(DraftOf(Rows(a, b, x, x, title), fixed)), Dump(DraftOf(Rows(a, b, y, x, title), fixed));
      && Clear(before, "", RefOfScene(a), Some(Str(y))) && ReadAt(before, RefOfScene(a)) == Some(Str(x))
      && WriteAt(before, RefOfScene(a), Some(Str(y))) == Ok(after)
  {
    var rows := Rows(a, b, x, x, title);
    SetRef(a, b, x, y, title);
    DocRead(rows, fixed, RowSegment("scene_ref", a), "ref");
    DocWrite(rows, fixed, RowSegment("scene_ref", a), "ref", Some(Str(y)), Rows(a, b, y, x, title));
  }

  lemma Reads(a: string, b: string, x: string, y: string, title: Option<Json>, fixed: string)
    requires Names(a, b, x, y)
    ensures ReadAt(Dump(DraftOf(Rows(a, b, x, x, title), fixed)), AliasOf(x)) == None
    ensures ReadAt(Dump(DraftOf(Rows(a, b, y, x, title), fixed)), AliasOf(x)) == title
  {
    AliasReads(a, b, x, y, title);
    DocRead(Rows(a, b, x, x, title), fixed, RowSegment("ref", x), "title");
    DocRead(Rows(a, b, y, x, title), fixed, RowSegment("ref", x), "title");
  }

  lemma PathsApart(a: string, b: string, x: string)
    requires ValidRef(a) && ValidRef(b) && a != b
    ensures !Comparable(TitleOf(b), AliasOf(x)) && !Comparable(RefOfScene(a), AliasOf(x))
      && !Comparable(TitleOf(b), RefOfScene(a))
    ensures Writable(TitleOf(b)) && Writable(RefOfScene(a))
  {
    SegmentsDiffer("scene_ref", a, b);
    var p, q, r := RowSegment("scene_ref", b), RowSegment("scene_ref", a), RowSegment("ref", x);
    assert p[1] == 's' && q[1] == 's' && r[1] == 'r';
    assert TitleOf(b)[2] == p && RefOfScene(a)[2] == q && AliasOf(x)[2] == r;
    assert ("@" + "ref" + "=")[1] == 'r';
    assert forall word :: word in IDENTITY + REFS ==> word[0] != '@';
    WritablePath(p, "title");
    WritablePath(q, "ref");
  }

  // One write of a leaf
  ghost predicate Wrote(doc: Json, p: Path, before: Json, value: Option<Json>, after: Json) {
    Clear(doc, "", p, value) && ReadAt(doc, p) == Some(before) && Whole(Some(before), value)
      && WriteAt(doc, p, value) == Ok(after)
  }

  // A draft that fixes one path, and two changes that neither overlap it nor each other. The
  // path reads nothing in the draft, after the first change and after both, but does after the second alone.
  datatype Case = Case(
    base: Draft, middle: Json, last: Json, moved: Json, alias: Path, first: Path, second: Path,
    fixed: string, firstText: string, secondText: string, title: Json, previous: Json, value: Json)

  ghost predicate Allowed3(k: Case) {
    && Spelled(k.alias, k.fixed) && Spelled(k.first, k.firstText) && Spelled(k.second, k.secondText)
    && |k.first| >= 2 && |k.second| >= 2 && Writable(k.first) && Writable(k.second)
    && !Comparable(k.first, k.alias) && !Comparable(k.second, k.alias) && !Comparable(k.first, k.second)
  }

  ghost predicate Documents(k: Case) {
    && k.base.policies == [(k.fixed, Fixed)]
    && Wrote(Dump(k.base), k.first, k.title, None, k.middle)
    && Wrote(k.middle, k.second, k.previous, Some(k.value), k.last)
      && Wrote(Dump(k.base), k.second, k.previous, Some(k.value), k.moved)
    && ReadAt(Dump(k.base), k.alias) == None && ReadAt(k.middle, k.alias) == None && ReadAt(k.last, k.alias) == None
    && ReadAt(k.moved, k.alias).Some?
  }

  function Dropping(k: Case): Generated { Generated(k.firstText, true, Some(Null), "") }

  function Setting(k: Case): Generated { Generated(k.secondText, false, Some(k.value), "") }

  function DropChange(k: Case): Change { Change(0, k.firstText, true, true, k.title, Null, "", false) }

  function SetChange(k: Case): Change { Change(1, k.secondText, false, true, k.previous, k.value, "", false) }

  lemma ChangeOfFixed(policies: map<string, Policy>, text: string, id: nat, path: string, e: Entry, reason: string)
    requires policies == map[text := Fixed]
    ensures ChangeFor(policies, id, path, e, reason) ==
      Change(id, path, e.after.None?, e.before.Some?, OrNull(e.before), OrNull(e.after), reason, false)
  {
  }

  // One generated change becomes the change `c`.
  lemma {:induction false} Taken(original: Json, policies: map<string, Policy>, fixed: Path, text: string,
          st: Preparation, p: Path, g: Generated, before: Json, value: Option<Json>, after: Json, c: Change)
    requires OnlyFixed(policies, fixed, text) && Spelled(p, g.fieldPath) && |p| >= 2 && Writable(p)
      && !Comparable(p, fixed)
    requires g.value.Some? && value == (if g.remove then None else g.value)
      && Wrote(st.candidate, p, before, value, after)
    requires ReadAt(original, fixed) == ReadAt(after, fixed)
    requires c == Change(|st.changes|, g.fieldPath, value.None?, true, before, OrNull(value), g.reason, false)
    ensures AcceptGenerated(original, policies, false, st, [g]) ==
      Ok(st.(candidate := after, changes := st.changes + [c]))
  {
    ChangeOfFixed(policies, text, |st.changes|, g.fieldPath, Entry(p, Some(before), value), g.reason);
    TakeOne(original, policies, fixed, text, st, p, g, after);
  }

  // Two generated changes, one after the other
  lemma {:induction false} TakenInTurn(original: Json, policies: map<string, Policy>, st: Preparation, g: Generated,
          middle: Preparation, h: Generated, last: Preparation)
    requires AcceptGenerated(original, policies, false, st, [g]) == Ok(middle)
    requires AcceptGenerated(original, policies, false, middle, [h]) == Ok(last)
    ensures AcceptGenerated(original, policies, false, st, [g, h]) == Ok(last)
  {
    GeneratedConcat(original, policies, st, g, [h]);
    assert [g] + [h] == [g, h];
  }

  lemma {:induction false} FirstTaken(k: Case, original: Json, policies: map<string, Policy>, st: Preparation,
          middle: Preparation)
    requires Allowed3(k) && policies == map[k.fixed := Fixed] && st == Preparation(original, [], [])
    requires Wrote(original, k.first, k.title, None, k.middle) && ReadAt(original, k.alias) == ReadAt(k.middle, k.alias)
    requires middle == Preparation(k.middle, [DropChange(k)], [])
    ensures AcceptGenerated(original, policies, false, st, [Dropping(k)]) == Ok(middle)
  {
    Taken(original, policies, k.alias, k.fixed, st, k.first, Dropping(k), k.title, None, k.middle, DropChange(k));
    assert st.(candidate := k.middle, changes := st.changes + [DropChange(k)]) == middle;
  }

  lemma {:induction false} SecondTaken(k: Case, original: Json, policies: map<string, Policy>, middle: Preparation,
          last: Preparation)
    requires Allowed3(k) && policies == map[k.fixed := Fixed]
    requires Wrote(k.middle, k.second, k.previous, Some(k.value), k.last)
    requires ReadAt(original, k.alias) == ReadAt(k.last, k.alias)
    requires middle == Preparation(k.middle, [DropChange(k)], [])
    requires last == Preparation(k.last, [DropChange(k), SetChange(k)], [])
    ensures AcceptGenerated(original, policies, false, middle, [Setting(k)]) == Ok(last)
  {
    Taken(original, policies, k.alias, k.fixed, middle, k.second, Setting(k), k.previous, Some(k.value), k.last,
        SetChange(k));
    assert middle.(candidate := k.last, changes := middle.changes + [SetChange(k)]) == last;
  }

  lemma {:induction false} ByPreparation(base: Draft, gs: seq<Generated>, policies: map<string, Policy>,
          last: Preparation, validate: Json -> Option<Draft>)
    requires Policies(Dump(base), base.policies, map[]) == Ok(policies)
    requires AcceptGenerated(Dump(base), policies, false, Preparation(Dump(base), [], []), gs) == Ok(last)
    requires !SomeOverlap(last.changes) && validate(last.candidate).Some?
    ensures Prepare(base, gs, [], false, false, validate) ==
      Ok((Proposal(last.changes, last.findings), validate(last.candidate).value))
  {
    assert Start(base, policies, false, []) == Preparation(Dump(base), [], []);
  }

  lemma NoOverlap(c: Change, d: Change, p: Path, q: Path)
    requires Spelled(p, c.fieldPath) && Spelled(q, d.fieldPath) && !Comparable(p, q)
    ensures !SomeOverlap([c, d])
  {
    OverlapIsComparable(c.fieldPath, d.fieldPath);
  }

  // The whole proposal is prepared.
  lemma IsPrepared(k: Case, validate: Json -> Option<Draft>)
    requires Allowed3(k) && Documents(k) && validate(k.last).Some?
    ensures Prepare(k.base, [Dropping(k), Setting(k)], [], false, false, validate) ==
      Ok((Proposal([DropChange(k), SetChange(k)], []), validate(k.last).value))
  {
    var original, policies, last :=
      Dump(k.base), map[k.fixed := Fixed], Preparation(k.last, [DropChange(k), SetChange(k)], []);
    OnePolicy(original, k.alias, k.fixed);
    var middle := Preparation(k.middle, [DropChange(k)], []);
    FirstTaken(k, original, policies, Preparation(original, [], []), middle);
    SecondTaken(k, original, policies, middle, last);
    TakenInTurn(original, policies, Preparation(original, [], []), Dropping(k), middle, Setting(k), last);
    NoOverlap(DropChange(k), SetChange(k), k.first, k.second);
    ByPreparation(k.base, [Dropping(k), Setting(k)], policies, last, validate);
  }

  lemma {:induction false} AdoptsOne(base: Draft, policies: map<string, Policy>, doc: Json, d: Change, p: Path,
          moved: Json)
    requires Spelled(p, d.fieldPath) && Writable(p) && !Protected(policies, d.fieldPath)
    requires ReadAt(doc, p) == d.Before() && WriteAt(doc, p, d.After()) == Ok(moved)
    ensures AdoptChange(base, policies, doc, d) == Ok(moved)
  {
    assert Allowed(d.fieldPath) == Ok(true);
  }

  lemma {:induction false} OnlySecond(base: Draft, policies: map<string, Policy>, doc: Json, c: Change, d: Change,
          moved: Json)
    requires c.id == 0 && d.id == 1 && AdoptChange(base, policies, doc, d) == Ok(moved)
    ensures AdoptLoop(base, policies, doc, [c, d], {1}) == Ok(moved) && {1} <= Ids([c, d])
  {
    assert [c, d][1..] == [d] && [d][1..] == [];
    assert AdoptLoop(base, policies, moved, [], {1}) == Ok(moved);
    assert AdoptLoop(base, policies, doc, [d], {1}) == Ok(moved);
    assert d in [c, d] && d.id in Ids([c, d]);
  }

  // The second change alone gives the fixed path a value.
  lemma IsRefused(k: Case, validate: Json -> Option<Draft>)
    requires Allowed3(k) && Documents(k)
    ensures Adopt(k.base, [DropChange(k), SetChange(k)], {1}, validate) == Err(FixedField)
  {
    var policies := map[k.fixed := Fixed];
    OnePolicy(Dump(k.base), k.alias, k.fixed);
    OneFixed(policies, k.alias, k.fixed, k.second, k.secondText, Dump(k.base), k.moved);
    AdoptsOne(k.base, policies, Dump(k.base), SetChange(k), k.second, k.moved);
    OnlySecond(k.base, policies, Dump(k.base), DropChange(k), SetChange(k), k.moved);
  }

  // A proposal of two changes that is prepared, while the second change alone is refused
  lemma SplitsProposal(base: Draft, gs: seq<Generated>, changes: seq<Change>, final: Draft,
          validate: Json -> Option<Draft>)
    requires Prepare(base, gs, [], false, false, validate) == Ok((Proposal(changes, []), final))
    requires |changes| == 2 && changes[0].id == 0 && changes[1].id == 1
    requires Adopt(base, changes, {1}, validate) == Err(FixedField)
    ensures Ids(changes) == {0, 1} && Adopt(base, changes, {0, 1}, validate) == Ok(final) && !FixedStays(base, changes)
  {
    assert Ids(changes) == {0, 1} by { assert changes[0] in changes && changes[1] in changes; }
    AdoptAllYieldsCandidate(base, gs, [], false, false, validate);
    SelectionsPass(base, gs, [], false, false, validate);
    assert SomeRefused(base, changes, validate);
  }

  // The proposal is adopted as a whole, and the selection of its second change alone is refused.
  lemma WholeButNotPart(k: Case, validate: Json -> Option<Draft>)
    requires Allowed3(k) && Documents(k) && validate(k.last).Some?
    ensures var r := Prepare(k.base, [Dropping(k), Setting(k)], [], false, false, validate);
      && r.Ok? && Ids(r.value.0.changes) == {0, 1}
      && Adopt(k.base, r.value.0.changes, {0, 1}, validate) == Ok(r.value.1)
      && Adopt(k.base, r.value.0.changes, {1}, validate) == Err(FixedField)
      && !FixedStays(k.base, r.value.0.changes)
  {
    IsPrepared(k, validate);
    IsRefused(k, validate);
    SplitsProposal(k.base, [Dropping(k), Setting(k)], [DropChange(k), SetChange(k)], validate(k.last).value, validate);
  }

  // ---- the case of a shared second ref ----

  lemma SharedPaths(a: string, b: string, x: string) returns (fixed: string, dropText: string, setText: string)
    requires ValidRef(a) && ValidRef(b) && a != b
    ensures Spelled(AliasOf(x), fixed) && Spelled(TitleOf(b), dropText) && Spelled(RefOfScene(a), setText)
  {
    fixed := Spell(RowSegment("ref", x), "title");
    dropText := Spell(RowSegment("scene_ref", b), "title");
    setText := Spell(RowSegment("scene_ref", a), "ref");
  }

  function SharedCase(a: string, b: string, x: string, y: string, title: Json, fixed: string, dropText: string,
          setText: string): Case
  {
    Case(DraftOf(Rows(a, b, x, x, Some(title)), fixed), Dump(DraftOf(Rows(a, b, x, x, None), fixed)),
      Dump(DraftOf(Rows(a, b, y, x, None), fixed)), Dump(DraftOf(Rows(a, b, y, x, Some(title)), fixed)),
      AliasOf(x), TitleOf(b), RefOfScene(a), fixed, dropText, setText, title, Str(x), Str(y))
  }

  lemma SharedDocuments(a: string, b: string, x: string, y: string, title: Json, fixed: string, dropText: string,
          setText: string)
    requires Names(a, b, x, y)
    ensures Documents(SharedCase(a, b, x, y, title, fixed, dropText, setText))
  {
    Drops(a, b, x, y, title, fixed);
    Sets(a, b, x, y, None, fixed);
    Sets(a, b, x, y, Some(title), fixed);
    Reads(a, b, x, y, Some(title), fixed);
    Reads(a, b, x, y, None, fixed);
  }

  // Two scenes carry the same second ref `x` and the path through it is fixed; one change removes
  // the title of the one scene, the other gives the other scene another second ref.
  lemma SharedRefCase(a: string, b: string, x: string, y: string, title: Json) returns (k: Case)
    requires Names(a, b, x, y)
    ensures Allowed3(k) && Documents(k) && k.base == DraftOf(Rows(a, b, x, x, Some(title)), k.fixed)
    ensures k.alias == AliasOf(x) && k.first == TitleOf(b) && k.second == RefOfScene(a) && k.value == Str(y)
    ensures k.last == Dump(DraftOf(Rows(a, b, y, x, None), k.fixed))
  {
    var fixed, dropText, setText := SharedPaths(a, b, x);
    PathsApart(a, b, x);
    SharedDocuments(a, b, x, y, title, fixed, dropText, setText);
    k := SharedCase(a, b, x, y, title, fixed, dropText, setText);
  }

  // Such a proposal is prepared and adopted as a whole, and not with its second change alone.
  ghost predicate Splits(k: Case, validate: Json -> Option<Draft>) {
    var r := Prepare(k.base, [Dropping(k), Setting(k)], [], false, false, validate);
    && r.Ok? && Ids(r.value.0.changes) == {0, 1}
    && Adopt(k.base, r.value.0.changes, {0, 1}, validate) == Ok(r.value.1)
    && Adopt(k.base, r.value.0.changes, {1}, validate) == Err(FixedField)
  }

  // For all refs and titles, and every draft model that takes the adopted draft
  lemma SharedRefSplits(a: string, b: string, x: string, y: string, title: Json, validate: Json -> Option<Draft>)
    returns (k: Case)
    requires Names(a, b, x, y)
    ensures k.base == DraftOf(Rows(a, b, x, x, Some(title)), k.fixed) && k.alias == AliasOf(x)
    ensures k.first == TitleOf(b) && k.second == RefOfScene(a) && k.value == Str(y)
    ensures k.last == Dump(DraftOf(Rows(a, b, y, x, None), k.fixed))
    ensures validate(k.last).Some? ==> Splits(k, validate)
  {
    k := SharedRefCase(a, b, x, y, title);
    if validate(k.last).Some? { WholeButNotPart(k, validate); }
  }

  const TAKES_ALL: Json -> Option<Draft> := payload => Some(Draft(map[], Null, [], ""))

  lemma Letters() returns (a: string, b: string, x: string, y: string)
    ensures a == "a" && b == "b" && x == "x" && y == "y" && Names(a, b, x, y)
  {
    a, b, x, y := "a", "b", "x", "y";
  }

  // Two scenes "a" and "b" share the ref "x", and the first one's is set to "y".
  lemma SomeProposalSplits() returns (k: Case)
    ensures k.base == DraftOf(Rows("a", "b", "x", "x", Some(Str("title"))), k.fixed)
    ensures k.alias == AliasOf("x") && k.first == TitleOf("b") && k.second == RefOfScene("a") && k.value == Str("y")
    ensures Splits(k, TAKES_ALL)
  {
    var a, b, x, y := Letters();
    k := SharedRefSplits(a, b, x, y, Str("title"), TAKES_ALL);
  }
}
