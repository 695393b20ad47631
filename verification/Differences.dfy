/**
 The structural difference of two JSON values, and what replaying it does. Rows of a collection
 are matched by their ref, so a difference says nothing about row order.
 */
module Differences {
  import opened Outcomes
  import opened JsonValues
  import opened Paths
  import opened Patch
  import opened SortedKeys

  // Paths are relative to the compared values; None stands for a value that is not there.
  datatype Entry = Entry(path: Path, before: Option<Json>, after: Option<Json>)

  predicate AllRefs(rows: seq<Json>, key: string) {
    forall i :: 0 <= i < |rows| ==> RefOf(rows[i], key).Ref?
  }

  predicate DistinctRefs(rows: seq<Json>, key: string) {
    forall i, j :: 0 <= i < j < |rows| ==> RefOf(rows[i], key) != RefOf(rows[j], key)
  }

  predicate Keyed(rows: seq<Json>, key: string) {
    AllRefs(rows, key) && DistinctRefs(rows, key)
  }

  // {ref: row}
  function RowMap(rows: seq<Json>, key: string): (m: map<string, Json>)
    requires AllRefs(rows, key)
    ensures forall s :: s in m ==> m[s] in rows && RefOf(m[s], key) == Ref(s)
    ensures forall row :: row in rows ==> RefOf(row, key).Ref? && RefOf(row, key).segment in m
  {
    if rows == [] then map[]
    else
      var n := |rows| - 1;
      var m := RowMap(rows[..n], key);
      assert forall row :: row in rows ==> row in rows[..n] || row == rows[n];
      m[RefOf(rows[n], key).segment := rows[n]]
  }

  // The children of an object, or of a collection whose rows all carry distinct refs.
  function Kids(node: Json, name: string): (m: map<string, Json>)
    requires HasKids(node, name)
    ensures forall s :: s in m ==> m[s] < node
  {
    if node.Obj? then node.fields else RowMap(node.rows, CollectionKey(name).value)
  }

  predicate HasKids(node: Json, name: string) {
    node.Obj? || (node.Arr? && CollectionKey(name).Some? && Keyed(node.rows, CollectionKey(name).value))
  }

  function Under(seg: string, es: seq<Entry>): (r: seq<Entry>)
    ensures |r| == |es|
    ensures forall i :: 0 <= i < |es| ==> r[i] == Entry([seg] + es[i].path, es[i].before, es[i].after)
  {
    if es == [] then []
    else [Entry([seg] + es[0].path, es[0].before, es[0].after)] + Under(seg, es[1..])
  }

  // _diff. `name` is the last segment of the path of `a` and `b`.
  function Diff(name: string, a: Json, b: Json): Result<seq<Entry>>
    decreases a, 1, 0
  {
    if a == b then Ok([])
    else if a.Obj? && b.Obj? then
      DiffKids(a, Sorted(a.fields.Keys + b.fields.Keys), a.fields, b.fields)
    else if a.Arr? && b.Arr? && CollectionKey(name).Some? then
      var key := CollectionKey(name).value;
      if AnyBad(a.rows, key) || AnyBad(b.rows, key) then Err(InvalidRef)
      else if AllRefs(a.rows, key) && AllRefs(b.rows, key) then
        if !DistinctRefs(a.rows, key) || !DistinctRefs(b.rows, key) then Err(DuplicateRef)
        else
          var ka, kb := RowMap(a.rows, key), RowMap(b.rows, key);
          DiffKids(a, Sorted(ka.Keys + kb.Keys), ka, kb)
      else Ok([Entry([], Some(a), Some(b))])
    else Ok([Entry([], Some(a), Some(b))])
  }

  function DiffKids(ghost parent: Json, segs: seq<string>, ka: map<string, Json>,
          kb: map<string, Json>): Result<seq<Entry>>
    requires forall s :: s in ka ==> ka[s] < parent
    decreases parent, 0, |segs|
  {
    if segs == [] then Ok([])
    else
      var first :- DiffKid(parent, segs[0], ka, kb);
      var rest :- DiffKids(parent, segs[1..], ka, kb);
      Ok(Under(segs[0], first) + rest)
  }

  function DiffKid(ghost parent: Json, seg: string, ka: map<string, Json>, kb: map<string, Json>): Result<seq<Entry>>
    requires forall s :: s in ka ==> ka[s] < parent
    decreases parent, 0, 0
  {
    if seg in ka && seg in kb then Diff(seg, ka[seg], kb[seg])
    else if seg in ka then Ok([Entry([], Some(ka[seg]), None)])
    else if seg in kb then Ok([Entry([], None, Some(kb[seg]))])
    else Ok([])
  }

  // ---- children and segments ----

  // Segments that can name a child of this node.
  ghost predicate NamesKid(node: Json, name: string, seg: string) {
    node.Arr? ==> CollectionKey(name).Some? && IsRowSegment(seg) && SegmentKey(seg) == CollectionKey(name).value
  }

  lemma KidsSee(node: Json, name: string, seg: string)
    requires HasKids(node, name) && (NamesKid(node, name, seg) || seg in Kids(node, name))
    ensures NamesKid(node, name, seg)
    ensures See(node, seg) == if seg in Kids(node, name) then Present(Kids(node, name)[seg]) else Absent
    ensures node.Arr? && seg in Kids(node, name) ==> RefOf(Kids(node, name)[seg], SegmentKey(seg)) == Ref(seg)
  {
    if node.Arr? {
      var key, kids := CollectionKey(name).value, Kids(node, name);
      if seg in kids {
        RefSegmentKey(kids[seg], key);
        var i :| 0 <= i < |node.rows| && node.rows[i] == kids[seg];
        assert Only(node.rows, key, seg, i) by {
          forall j | Match(node.rows, key, seg, j) ensures j == i {
            assert RefOf(node.rows[i], key) == RefOf(node.rows[j], key);
          }
        }
      } else {
        assert forall i :: 0 <= i < |node.rows| ==> node.rows[i] in node.rows;
        assert forall i :: !Match(node.rows, key, seg, i);
      }
      SeeArr(node.rows, seg);
    }
  }

  lemma {:induction false} DiffByKids(name: string, a: Json, b: Json)
    requires a != b && Diff(name, a, b).Ok?
    ensures Diff(name, a, b).value == [Entry([], Some(a), Some(b))] ||
      (SameKind(a, b) && HasKids(a, name) && HasKids(b, name) &&
       Diff(name, a, b) == DiffKids(a, Sorted(Kids(a, name).Keys + Kids(b, name).Keys), Kids(a, name), Kids(b, name)))
  {
  }

  // ---- every entry of a difference is exact and can be written ----

  // Every array the path enters is a collection whose rows all carry distinct refs.
  ghost predicate KeyedAlong(node: Json, name: string, path: Path)
    decreases path
  {
    path != [] ==>
      HasKids(node, name) && (See(node, path[0]).Present? ==> KeyedAlong(See(node, path[0]).value, path[0], path[1..]))
  }

  ghost predicate Exact(name: string, a: Json, b: Json, e: Entry) {
    && e.before != e.after
    && ReadAt(a, e.path) == e.before
    && ReadAt(b, e.path) == e.after
    && Fits(a, name, e.path) && KeyedAlong(a, name, e.path)
    && (e.path != [] ==> WriteAt(a, e.path, e.after).Ok?)
  }

  ghost predicate Apart(es: seq<Entry>) {
    forall i, j :: 0 <= i < j < |es| ==> !Comparable(es[i].path, es[j].path)
  }

  lemma {:induction false} DiffExact(name: string, a: Json, b: Json)
    requires Diff(name, a, b).Ok?
    ensures forall e :: e in Diff(name, a, b).value ==> Exact(name, a, b, e)
    ensures Apart(Diff(name, a, b).value)
    decreases a, 1, 0
  {
    if a != b {
      DiffByKids(name, a, b);
      if Diff(name, a, b).value != [Entry([], Some(a), Some(b))] {
        DiffKidsExact(name, a, b, Sorted(Kids(a, name).Keys + Kids(b, name).Keys));
      }
    }
  }

  ghost predicate Distinct(segs: seq<string>) {
    forall i, j :: 0 <= i < j < |segs| ==> segs[i] != segs[j]
  }

  // The entries of one child, given that those of a child on both sides are exact below it
  lemma {:induction false} KidExact(name: string, a: Json, b: Json, seg: string)
    requires SameKind(a, b) && HasKids(a, name) && HasKids(b, name)
    requires DiffKid(a, seg, Kids(a, name), Kids(b, name)).Ok?
    requires seg in Kids(a, name) && seg in Kids(b, name) ==>
      Apart(DiffKid(a, seg, Kids(a, name), Kids(b, name)).value) &&
      forall e :: e in DiffKid(a, seg, Kids(a, name), Kids(b, name)).value ==>
        Exact(seg, Kids(a, name)[seg], Kids(b, name)[seg], e)
    ensures Apart(DiffKid(a, seg, Kids(a, name), Kids(b, name)).value)
    ensures forall e :: e in DiffKid(a, seg, Kids(a, name), Kids(b, name)).value ==>
      Exact(name, a, b, Entry([seg] + e.path, e.before, e.after))
  {
    forall e | e in DiffKid(a, seg, Kids(a, name), Kids(b, name)).value
      ensures Exact(name, a, b, Entry([seg] + e.path, e.before, e.after))
    {
      if seg in Kids(a, name) && seg in Kids(b, name) {
        LiftExact(name, a, b, seg, e);
      } else {
        OneSided(name, a, b, seg);
        assert [seg] + [] == [seg];
      }
    }
  }

  lemma {:induction false} DiffKidsExact(name: string, a: Json, b: Json, segs: seq<string>)
    requires SameKind(a, b) && HasKids(a, name) && HasKids(b, name) && Distinct(segs)
    requires DiffKids(a, segs, Kids(a, name), Kids(b, name)).Ok?
    ensures forall e :: e in DiffKids(a, segs, Kids(a, name), Kids(b, name)).value ==>
      e.path != [] && e.path[0] in segs && Exact(name, a, b, e)
    ensures Apart(DiffKids(a, segs, Kids(a, name), Kids(b, name)).value)
    decreases a, 0, |segs|
  {
    if segs != [] {
      var ka, kb, seg := Kids(a, name), Kids(b, name), segs[0];
      var first, rest := DiffKid(a, seg, ka, kb).value, DiffKids(a, segs[1..], ka, kb).value;
      DiffKidsExact(name, a, b, segs[1..]);
      if seg in ka && seg in kb { DiffExact(seg, ka[seg], kb[seg]); }
      KidExact(name, a, b, seg);
      ExactUnder(name, a, b, segs, first, rest);
      ApartUnder(seg, first, rest);
    }
  }

  lemma {:induction false} ExactUnder(name: string, a: Json, b: Json, segs: seq<string>, first: seq<Entry>,
          rest: seq<Entry>)
    requires SameKind(a, b) && segs != []
    requires forall e :: e in first ==> Exact(name, a, b, Entry([segs[0]] + e.path, e.before, e.after))
    requires forall e :: e in rest ==> e.path != [] && e.path[0] in segs[1..] && Exact(name, a, b, e)
    ensures forall e :: e in Under(segs[0], first) + rest ==> e.path != [] && e.path[0] in segs && Exact(name, a, b, e)
  {
    var up := Under(segs[0], first);
    forall e | e in up ensures e.path != [] && e.path[0] == segs[0] && Exact(name, a, b, e) {
      var i :| 0 <= i < |up| && up[i] == e;
      assert first[i] in first;
    }
  }

  lemma ComparableHeads(p: Path, q: Path)
    requires p != [] && q != []
    ensures Comparable(p, q) ==> p[0] == q[0]
  {
  }

  lemma ComparableTails(seg: string, p: Path, q: Path)
    ensures Comparable([seg] + p, [seg] + q) <==> Comparable(p, q)
  {
    assert ([seg] + p)[1..] == p && ([seg] + q)[1..] == q;
  }

  lemma {:induction false} ApartUnder(seg: string, first: seq<Entry>, rest: seq<Entry>)
    requires Apart(first) && Apart(rest)
    requires forall e :: e in rest ==> e.path != [] && e.path[0] != seg
    ensures Apart(Under(seg, first) + rest)
  {
    var up := Under(seg, first);
    var es := up + rest;
    forall i, j | 0 <= i < j < |es| ensures !Comparable(es[i].path, es[j].path) {
      if j < |up| {
        ComparableTails(seg, first[i].path, first[j].path);
      } else {
        assert es[j] == rest[j - |up|] && rest[j - |up|] in rest;
        if i >= |up| { assert es[i] == rest[i - |up|]; } else { ComparableHeads(es[i].path, es[j].path); }
      }
    }
  }

  // An exact entry of a child is exact for the parent.
  lemma LiftExact(name: string, a: Json, b: Json, seg: string, e: Entry)
    requires SameKind(a, b) && HasKids(a, name) && HasKids(b, name)
    requires seg in Kids(a, name) && seg in Kids(b, name) && Exact(seg, Kids(a, name)[seg], Kids(b, name)[seg], e)
    ensures Exact(name, a, b, Entry([seg] + e.path, e.before, e.after))
  {
    var p := [seg] + e.path;
    assert p[1..] == e.path;
    KidsSee(a, name, seg);
    KidsSee(b, name, seg);
    ChildIsSee(a, seg);
    ChildIsSee(b, seg);
    StoreOk(a, seg);
    if a.Arr? {
      RefFieldSame(Kids(a, name)[seg], Kids(b, name)[seg], SegmentKey(seg));
      assert |p| == 2 ==> e.path == [p[1]];
    }
  }

  // A child on one side only is one entry of the parent.
  lemma OneSided(name: string, a: Json, b: Json, seg: string)
    requires SameKind(a, b) && HasKids(a, name) && HasKids(b, name)
    ensures seg in Kids(a, name) && seg !in Kids(b, name) ==>
      Exact(name, a, b, Entry([seg], Some(Kids(a, name)[seg]), None))
    ensures seg in Kids(b, name) && seg !in Kids(a, name) ==>
      Exact(name, a, b, Entry([seg], None, Some(Kids(b, name)[seg])))
  {
    if seg in Kids(a, name) || seg in Kids(b, name) {
      if seg in Kids(a, name) { KidsSee(a, name, seg); } else { KidsSee(b, name, seg); }
      KidsSee(a, name, seg);
      KidsSee(b, name, seg);
      ChildIsSee(a, seg);
      ChildIsSee(b, seg);
      StoreOk(a, seg);
      assert [seg][1..] == [];
    }
  }

  // Rows with the same ref agree on the ref field, so it never shows up in their difference.
  lemma {:induction false} RefFieldSame(row: Json, other: Json, key: string)
    requires RefOf(row, key).Ref? && RefOf(row, key) == RefOf(other, key)
    ensures ReadAt(row, [key]) == ReadAt(other, [key])
  {
    var v, w := row.fields[key].s, other.fields[key].s;
    var n := |"@" + key + "="|;
    assert RowSegment(key, v)[n..] == v && RowSegment(key, w)[n..] == w;
  }

  // ---- differences go as deep as they can ----

  function LastName(name: string, path: Path): string {
    if path == [] then name else path[|path| - 1]
  }

  // The two values have no parts that could be compared one by one.
  ghost predicate Indivisible(name: string, before: Option<Json>, after: Option<Json>) {
    before.Some? && after.Some? ==>
      && !(before.value.Obj? && after.value.Obj?)
      && !(before.value.Arr? && after.value.Arr? && CollectionKey(name).Some?
           && AllRefs(before.value.rows, CollectionKey(name).value)
             && AllRefs(after.value.rows, CollectionKey(name).value))
  }

  ghost predicate FineEntry(name: string, e: Entry) {
    Indivisible(LastName(name, e.path), e.before, e.after)
  }

  lemma FineUnder(name: string, seg: string, e: Entry)
    requires FineEntry(seg, e)
    ensures FineEntry(name, Entry([seg] + e.path, e.before, e.after))
  {
    assert LastName(name, [seg] + e.path) == LastName(seg, e.path);
  }

  ghost predicate Finest(name: string, es: seq<Entry>) {
    forall e :: e in es ==> FineEntry(name, e)
  }

  lemma {:induction false} FinestUnder(name: string, seg: string, es: seq<Entry>)
    requires Finest(seg, es)
    ensures Finest(name, Under(seg, es))
  {
    var up := Under(seg, es);
    forall e | e in up ensures FineEntry(name, e) {
      var i :| 0 <= i < |up| && up[i] == e;
      assert es[i] in es;
      FineUnder(name, seg, es[i]);
    }
  }

  // No entry of a difference sets a whole object, or a whole keyed collection, against another one.
  lemma {:induction false} DiffFinest(name: string, a: Json, b: Json)
    requires Diff(name, a, b).Ok?
    ensures Finest(name, Diff(name, a, b).value)
    decreases a, 1, 0
  {
    if a != b {
      DiffByKids(name, a, b);
      if Diff(name, a, b).value != [Entry([], Some(a), Some(b))] {
        DiffKidsFinest(name, a, Sorted(Kids(a, name).Keys + Kids(b, name).Keys), Kids(a, name), Kids(b, name));
      } else {
        WholeIsIndivisible(name, a, b);
      }
    }
  }

  lemma {:induction false} WholeIsIndivisible(name: string, a: Json, b: Json)
    requires a != b && Diff(name, a, b) == Ok([Entry([], Some(a), Some(b))])
    ensures Indivisible(name, Some(a), Some(b))
  {
    if a.Obj? && b.Obj? {
      NotOfKids(a, Sorted(a.fields.Keys + b.fields.Keys), a.fields, b.fields, Entry([], Some(a), Some(b)));
    }
    if a.Arr? && b.Arr? && CollectionKey(name).Some? { RowsAreDivided(name, CollectionKey(name).value, a, b); }
  }

  lemma {:induction false} RowsAreDivided(name: string, key: string, a: Json, b: Json)
    requires a.Arr? && b.Arr? && a != b && CollectionKey(name) == Some(key)
    requires Diff(name, a, b) == Ok([Entry([], Some(a), Some(b))])
    ensures !(AllRefs(a.rows, key) && AllRefs(b.rows, key))
  {
    if AllRefs(a.rows, key) && AllRefs(b.rows, key) {
      assert !AnyBad(a.rows, key) && !AnyBad(b.rows, key);
      assert Keyed(a.rows, key) && Keyed(b.rows, key);
      var ka, kb := Kids(a, name), Kids(b, name);
      NotOfKids(a, Sorted(ka.Keys + kb.Keys), ka, kb, Entry([], Some(a), Some(b)));
    }
  }

  lemma {:induction false} NotOfKids(parent: Json, segs: seq<string>, ka: map<string, Json>, kb: map<string, Json>,
          e: Entry)
    requires (forall s :: s in ka ==> ka[s] < parent) && e.path == []
    ensures DiffKids(parent, segs, ka, kb) != Ok([e])
  {
    if DiffKids(parent, segs, ka, kb).Ok? { KidsGoDown(parent, segs, ka, kb); }
    assert e in [e];
  }

  // Below children every entry has a path.
  lemma {:induction false} KidsGoDown(parent: Json, segs: seq<string>, ka: map<string, Json>, kb: map<string, Json>)
    requires (forall s :: s in ka ==> ka[s] < parent) && DiffKids(parent, segs, ka, kb).Ok?
    ensures forall e :: e in DiffKids(parent, segs, ka, kb).value ==> e.path != []
    decreases |segs|
  {
    if segs != [] { KidsGoDown(parent, segs[1..], ka, kb); }
  }

  lemma {:induction false} DiffKidsFinest(name: string, parent: Json, segs: seq<string>, ka: map<string, Json>,
          kb: map<string, Json>)
    requires (forall s :: s in ka ==> ka[s] < parent) && DiffKids(parent, segs, ka, kb).Ok?
    ensures Finest(name, DiffKids(parent, segs, ka, kb).value)
    decreases parent, 0, |segs|
  {
    if segs != [] {
      var seg := segs[0];
      if seg in ka && seg in kb { DiffFinest(seg, ka[seg], kb[seg]); }
      FinestUnder(name, seg, DiffKid(parent, seg, ka, kb).value);
      DiffKidsFinest(name, parent, segs[1..], ka, kb);
    }
  }
}
