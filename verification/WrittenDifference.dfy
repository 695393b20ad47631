/** The difference that one write makes to a document: the written part, and nothing else. */
module WrittenDifference {
  import opened Outcomes
  import opened JsonValues
  import opened Paths
  import opened Patch
  import opened SortedKeys
  import opened Differences
  import opened RoundTrip
  import opened AdoptionOrder

  lemma {:induction false} DiffKidsOne(parent: Json, segs: seq<string>, ka: map<string, Json>, kb: map<string, Json>,
          seg: string, es: seq<Entry>)
    requires forall s :: s in ka ==> ka[s] < parent
    requires Differences.Distinct(segs) && DiffKid(parent, seg, ka, kb) == Ok(es)
    requires forall s :: s in segs && s != seg ==> s in ka && s in kb && ka[s] == kb[s]
    ensures DiffKids(parent, segs, ka, kb) == Ok(if seg in segs then Under(seg, es) else [])
    decreases |segs|
  {
    if segs != [] {
      var rest := segs[1..];
      assert forall s :: s in segs <==> s == segs[0] || s in rest;
      DiffKidsOne(parent, rest, ka, kb, seg, es);
      if segs[0] == seg {
        assert seg !in rest;
        assert Under(seg, es) + [] == Under(seg, es);
      } else {
        assert DiffKid(parent, segs[0], ka, kb) == Ok([]);
        assert forall r: seq<Entry> :: Under(segs[0], []) + r == r;
      }
    }
  }

  // Two values that differ in one child differ by the difference of that child.
  lemma {:induction false} DiffByOneKid(name: string, a: Json, b: Json, seg: string, es: seq<Entry>)
    requires a != b && SameKind(a, b) && HasKids(a, name) && HasKids(b, name)
    requires seg in Kids(a, name) || seg in Kids(b, name)
    requires DiffKid(a, seg, Kids(a, name), Kids(b, name)) == Ok(es)
    requires forall s :: s != seg && (s in Kids(a, name) || s in Kids(b, name)) ==>
      s in Kids(a, name) && s in Kids(b, name) && Kids(a, name)[s] == Kids(b, name)[s]
    ensures Diff(name, a, b) == Ok(Under(seg, es))
  {
    DiffOfKids(name, a, b);
    DiffKidsOne(a, Sorted(Kids(a, name).Keys + Kids(b, name).Keys), Kids(a, name), Kids(b, name), seg, es);
  }

  // The two have no parts in common that a difference would look into.
  ghost predicate Whole(before: Option<Json>, after: Option<Json>) {
    before != after && (before.Some? && after.Some? ==>
        !(before.value.Obj? && after.value.Obj?) && !(before.value.Arr? && after.value.Arr?))
  }

  lemma {:induction false} ReadHead(node: Json, p: Path)
    requires p != []
    ensures See(node, p[0]).Present? ==> ReadAt(node, p) == ReadAt(See(node, p[0]).value, p[1..])
    ensures !See(node, p[0]).Present? ==> ReadAt(node, p) == None
  {
    ChildIsSee(node, p[0]);
  }

  // The child the path enters, when the difference below it is the one entry
  lemma {:induction false} EnteredKid(node: Json, name: string, p: Path, value: Option<Json>)
    requires Clear(node, name, p, value) && Whole(ReadAt(node, p), value)
    requires |p| >= 2 && See(node, p[0]).Present? && WriteAt(See(node, p[0]).value, p[1..], value).Ok? ==>
      Diff(p[0], See(node, p[0]).value, WriteAt(See(node, p[0]).value, p[1..], value).value) ==
        Ok([Entry(p[1..], ReadAt(node, p), value)])
    ensures HasKids(WriteAt(node, p, value).value, name)
    ensures DiffKid(node, p[0], Kids(node, name), Kids(WriteAt(node, p, value).value, name)) ==
      Ok([Entry(p[1..], ReadAt(node, p), value)])
  {
    var after := WriteAt(node, p, value).value;
    ClearSee(node, name, p, value, p[0]);
    KidsSee(node, name, p[0]);
    KidsSee(after, name, p[0]);
    ReadHead(node, p);
    if |p| == 1 { assert p == [p[0]] && p[1..] == []; }
  }

  lemma {:induction false} OtherKid(node: Json, name: string, p: Path, value: Option<Json>, s: string)
    requires Clear(node, name, p, value) && s != p[0] && HasKids(WriteAt(node, p, value).value, name)
    requires s in Kids(node, name) || s in Kids(WriteAt(node, p, value).value, name)
    ensures var kb := Kids(WriteAt(node, p, value).value, name);
      s in Kids(node, name) && s in kb && Kids(node, name)[s] == kb[s]
  {
    var after := WriteAt(node, p, value).value;
    ClearSee(node, name, p, value, p[0]);
    if s in Kids(node, name) { KidsSee(node, name, s); } else { KidsSee(after, name, s); }
    ClearSee(node, name, p, value, s);
    KidsSee(node, name, s);
    KidsSee(after, name, s);
  }

  lemma {:induction false} EnteredKnown(node: Json, name: string, p: Path, value: Option<Json>)
    requires Clear(node, name, p, value) && ReadAt(node, p) != value && HasKids(WriteAt(node, p, value).value, name)
    ensures node != WriteAt(node, p, value).value && SameKind(node, WriteAt(node, p, value).value)
    ensures p[0] in Kids(node, name) || p[0] in Kids(WriteAt(node, p, value).value, name)
  {
    var after := WriteAt(node, p, value).value;
    ReadAfterWrite(node, name, p, value);
    ClearSee(node, name, p, value, p[0]);
    KidsSee(node, name, p[0]);
    KidsSee(after, name, p[0]);
    ReadHead(node, p);
    ReadHead(after, p);
  }

  lemma {:induction false} OthersSame(node: Json, name: string, p: Path, value: Option<Json>)
    requires Clear(node, name, p, value) && HasKids(WriteAt(node, p, value).value, name)
    ensures var ka, kb := Kids(node, name), Kids(WriteAt(node, p, value).value, name);
      forall s :: s != p[0] && (s in ka || s in kb) ==> s in ka && s in kb && ka[s] == kb[s]
  {
    var ka, kb := Kids(node, name), Kids(WriteAt(node, p, value).value, name);
    forall s | s != p[0] && (s in ka || s in kb)
      ensures s in ka && s in kb && ka[s] == kb[s]
    {
      OtherKid(node, name, p, value, s);
    }
  }

  lemma UnderOne(p: Path, before: Option<Json>, after: Option<Json>)
    requires p != []
    ensures Under(p[0], [Entry(p[1..], before, after)]) == [Entry(p, before, after)]
  {
    assert p == [p[0]] + p[1..];
  }

  lemma {:induction false} OneEntry(node: Json, name: string, p: Path, value: Option<Json>, after: Json)
    requires Clear(node, name, p, value) && after == WriteAt(node, p, value).value && ReadAt(node, p) != value
      && HasKids(after, name)
    requires DiffKid(node, p[0], Kids(node, name), Kids(after, name)) == Ok([Entry(p[1..], ReadAt(node, p), value)])
    ensures Diff(name, node, after) == Ok(Under(p[0], [Entry(p[1..], ReadAt(node, p), value)]))
  {
    EnteredKnown(node, name, p, value);
    OthersSame(node, name, p, value);
    DiffByOneKid(name, node, after, p[0], [Entry(p[1..], ReadAt(node, p), value)]);
  }

  lemma LeafBelow(node: Json, name: string, p: Path, value: Option<Json>) returns (child: Json)
    requires |p| >= 2 && Clear(node, name, p, value) && Whole(ReadAt(node, p), value)
    ensures See(node, p[0]) == Present(child) && child < node && ReadAt(child, p[1..]) == ReadAt(node, p)
    ensures Clear(child, p[0], p[1..], value) && Whole(ReadAt(child, p[1..]), value)
  {
    ReadHead(node, p);
    ChildIsSee(node, p[0]);
    ClearSee(node, name, p, value, p[0]);
    child := See(node, p[0]).value;
  }

  // A write that changes a leaf as a whole is found again as the only difference.
  lemma {:induction false} DiffOfWrite(node: Json, name: string, p: Path, value: Option<Json>)
    requires Clear(node, name, p, value) && Whole(ReadAt(node, p), value)
    ensures Diff(name, node, WriteAt(node, p, value).value) == Ok([Entry(p, ReadAt(node, p), value)])
    decreases p
  {
    if |p| >= 2 {
      var child := LeafBelow(node, name, p, value);
      DiffOfWrite(child, p[0], p[1..], value);
    }
    EnteredKid(node, name, p, value);
    OneEntry(node, name, p, value, WriteAt(node, p, value).value);
    UnderOne(p, ReadAt(node, p), value);
  }
}
