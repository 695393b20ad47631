/** Replaying a difference reconstructs the other value up to the order of collection rows. */
module RoundTrip {
  import opened Outcomes
  import opened JsonValues
  import opened Paths
  import opened Patch
  import opened SortedKeys
  import opened Differences

  // Equal up to the order of rows in collections whose rows all carry distinct refs.
  ghost predicate Same(name: string, a: Json, b: Json)
    decreases a
  {
    a == b ||
    (SameKind(a, b) && HasKids(a, name) && HasKids(b, name) && Kids(a, name).Keys == Kids(b, name).Keys &&
     forall s :: s in Kids(a, name) ==> Same(s, Kids(a, name)[s], Kids(b, name)[s]))
  }

  // Writes the entries one after the other. An entry of the whole value replaces it.
  ghost function Replay(doc: Json, es: seq<Entry>): Result<Json>
    decreases |es|
  {
    if es == [] then Ok(doc)
    else if es[0].path == [] then
      if es[0].after.Some? then Replay(es[0].after.value, es[1..]) else Err(InvalidPath)
    else
      var next :- WriteAt(doc, es[0].path, es[0].after);
      Replay(next, es[1..])
  }

  lemma {:induction false} ReplayConcat(doc: Json, es: seq<Entry>, more: seq<Entry>)
    requires Replay(doc, es).Ok?
    ensures Replay(doc, es + more) == Replay(Replay(doc, es).value, more)
    decreases |es|
  {
    if es == [] {
      assert es + more == more;
    } else {
      assert (es + more)[1..] == es[1..] + more;
      var next := if es[0].path == [] then es[0].after.value else WriteAt(doc, es[0].path, es[0].after).value;
      ReplayConcat(next, es[1..], more);
    }
  }

  // ---- an empty difference is sameness ----

  lemma {:induction false} EmptyIsSame(name: string, a: Json, b: Json)
    ensures Diff(name, a, b) == Ok([]) <==> Same(name, a, b)
    decreases a, 1, 0
  {
    if a == b {
    } else if SameKind(a, b) && HasKids(a, name) && HasKids(b, name) {
      var ka, kb := Kids(a, name), Kids(b, name);
      var segs := Sorted(ka.Keys + kb.Keys);
      DiffOfKids(name, a, b);
      EmptyKids(a, segs, ka, kb);
      SameByKids(name, a, b, segs);
    } else {
      DiffOtherwise(name, a, b);
    }
  }

  lemma {:induction false} SameByKids(name: string, a: Json, b: Json, segs: seq<string>)
    requires a != b && SameKind(a, b) && HasKids(a, name) && HasKids(b, name)
    requires forall s :: s in segs <==> s in Kids(a, name) || s in Kids(b, name)
    ensures Same(name, a, b) <==>
      forall s :: s in segs ==>
        (s in Kids(a, name) <==> s in Kids(b, name))
          && (s in Kids(a, name) ==> Same(s, Kids(a, name)[s], Kids(b, name)[s]))
  {
    assert Kids(a, name).Keys == Kids(b, name).Keys <==>
      forall s :: s in segs ==> (s in Kids(a, name) <==> s in Kids(b, name));
  }

  lemma {:induction false} DiffOfKids(name: string, a: Json, b: Json)
    requires a != b && SameKind(a, b) && HasKids(a, name) && HasKids(b, name)
    ensures Diff(name, a, b) ==
      DiffKids(a, Sorted(Kids(a, name).Keys + Kids(b, name).Keys), Kids(a, name), Kids(b, name))
  {
    if a.Arr? {
      var key := CollectionKey(name).value;
      assert !AnyBad(a.rows, key) && !AnyBad(b.rows, key);
    }
  }

  lemma {:induction false} DiffOtherwise(name: string, a: Json, b: Json)
    requires a != b && !(SameKind(a, b) && HasKids(a, name) && HasKids(b, name))
    ensures Diff(name, a, b) != Ok([])
  {
  }

  lemma {:induction false} EmptyKids(parent: Json, segs: seq<string>, ka: map<string, Json>, kb: map<string, Json>)
    requires forall s :: s in ka ==> ka[s] < parent
    ensures DiffKids(parent, segs, ka, kb) == Ok([]) <==>
      forall s :: s in segs ==> (s in ka <==> s in kb) && (s in ka ==> Same(s, ka[s], kb[s]))
    decreases parent, 0, |segs|
  {
    if segs != [] {
      var s := segs[0];
      EmptyKids(parent, segs[1..], ka, kb);
      if s in ka && s in kb { EmptyIsSame(s, ka[s], kb[s]); }
      var first, rest := DiffKid(parent, s, ka, kb), DiffKids(parent, segs[1..], ka, kb);
      assert first == Ok([]) <==> (s in ka <==> s in kb) && (s in ka ==> Same(s, ka[s], kb[s]));
      if first.Ok? && rest.Ok? {
        assert |DiffKids(parent, segs, ka, kb).value| == |first.value| + |rest.value|;
      }
      assert DiffKids(parent, segs, ka, kb) == Ok([]) <==> first == Ok([]) && rest == Ok([]);
      assert forall t :: t in segs <==> t == s || t in segs[1..];
    }
  }

  // ---- replaying below one child ----

  lemma {:induction false} DeepReplay(node: Json, seg: string, es: seq<Entry>)
    requires See(node, seg).Present? && Replay(See(node, seg).value, es).Ok?
    requires node.Arr? ==> IsRowSegment(seg)
    requires forall e :: e in es ==> e.path != []
    requires node.Arr? ==> forall e :: e in es ==> e.path != [SegmentKey(seg)]
    ensures Replay(node, Under(seg, es)) == Ok(Swap(node, seg, Replay(See(node, seg).value, es).value))
    ensures node.Arr? ==>
      RefOf(Replay(See(node, seg).value, es).value, SegmentKey(seg)) == RefOf(See(node, seg).value, SegmentKey(seg))
    decreases |es|
  {
    ChildIsSee(node, seg);
    if node.Arr? { SeeArr(node.rows, seg); }
    if es == [] {
      SwapSelf(node, seg);
    } else {
      var child := See(node, seg).value;
      var next := WriteAt(child, es[0].path, es[0].after).value;
      var p := [seg] + es[0].path;
      assert p[1..] == es[0].path && es[0] in es;
      assert WriteAt(node, p, es[0].after) == Ok(Swap(node, seg, next));
      if node.Arr? { WriteKeepsRef(child, es[0].path, es[0].after, SegmentKey(seg)); }
      SwapSee(node, seg, next, seg);
      DeepReplay(Swap(node, seg, next), seg, es[1..]);
      SwapSwap(node, seg, next, Replay(child, es).value);
    }
  }

  lemma SwapSelf(node: Json, seg: string)
    requires See(node, seg).Present?
    ensures Swap(node, seg, See(node, seg).value) == node
  {
    if node.Arr? { SeeArr(node.rows, seg); }
  }

  // ---- every update keeps a collection keyed ----

  lemma KeyedStore(rows: seq<Json>, part: string, value: Json)
    requires IsRowSegment(part) && Keyed(rows, SegmentKey(part)) && Store(Arr(rows), part, value).Ok?
    ensures Keyed(Store(Arr(rows), part, value).value.rows, SegmentKey(part))
  {
    var key, after := SegmentKey(part), Store(Arr(rows), part, value).value.rows;
    SeeArr(rows, part);
    var slot := Key(Arr(rows), part, true).value;
    if slot.At? {
      assert forall j :: 0 <= j < |after| ==> RefOf(after[j], key) == RefOf(rows[j], key);
    } else {
      assert forall j :: 0 <= j < |rows| ==> after[j] == rows[j] && !Match(rows, key, part, j);
    }
  }

  lemma KeyedDelete(rows: seq<Json>, part: string)
    requires IsRowSegment(part) && Keyed(rows, SegmentKey(part)) && Delete(Arr(rows), part).Ok?
    ensures Keyed(Delete(Arr(rows), part).value.rows, SegmentKey(part))
  {
    var key, after := SegmentKey(part), Delete(Arr(rows), part).value.rows;
    var i := Key(Arr(rows), part, false).value.index;
    SeeArr(rows, part);
    StoreOk(Arr(rows), part);
    RemovalOf(rows, i);
    KeyedRemoval(rows, key, i, after);
  }

  lemma KeyedRemoval(rows: seq<Json>, key: string, i: int, after: seq<Json>)
    requires Keyed(rows, key) && Removal(rows, i, after)
    ensures Keyed(after, key)
  {
    forall j | 0 <= j < |after| ensures RefOf(after[j], key).Ref? {
      assert after[j] == rows[Up(j, i)];
    }
    forall j, k | 0 <= j < k < |after| ensures RefOf(after[j], key) != RefOf(after[k], key) {
      assert after[j] == rows[Up(j, i)] && after[k] == rows[Up(k, i)];
    }
  }

  lemma KeyedSwap(rows: seq<Json>, part: string, child: Json)
    requires IsRowSegment(part) && Keyed(rows, SegmentKey(part)) && See(Arr(rows), part).Present?
    requires RefOf(child, SegmentKey(part)) == RefOf(See(Arr(rows), part).value, SegmentKey(part))
    ensures Keyed(Swap(Arr(rows), part, child).rows, SegmentKey(part))
  {
    var key, after := SegmentKey(part), Swap(Arr(rows), part, child).rows;
    SeeArr(rows, part);
    assert forall j :: 0 <= j < |after| ==> RefOf(after[j], key) == RefOf(rows[j], key);
  }

  // ---- writes and keyed paths ----

  // A write below keyed collections leaves the one it starts in keyed.
  lemma {:induction false} WriteKeepsKids(node: Json, name: string, path: Path, value: Option<Json>)
    requires path != [] && HasKids(node, name) && Fits(node, name, path) && WriteAt(node, path, value).Ok?
    ensures HasKids(WriteAt(node, path, value).value, name)
  {
    if node.Arr? {
      if |path| == 1 {
        if value.Some? { KeyedStore(node.rows, path[0], value.value); } else { KeyedDelete(node.rows, path[0]); }
      } else {
        WriteStep(node, name, path, value);
        KeyedSwap(node.rows, path[0], WriteAt(See(node, path[0]).value, path[1..], value).value);
      }
    } else {
      WriteSee(node, name, path, value, path[0]);
    }
  }

  // The frame law for keyed paths
  lemma {:induction false} KeyedFrame(node: Json, name: string, p: Path, value: Option<Json>, q: Path)
    requires p != [] && q != [] && !Comparable(p, q)
    requires Fits(node, name, p) && KeyedAlong(node, name, p) && WriteAt(node, p, value).Ok?
    requires Aligned(node, name, q)
    requires KeyedAlong(node, name, q) || KeyedAlong(WriteAt(node, p, value).value, name, q)
    ensures KeyedAlong(node, name, q) && KeyedAlong(WriteAt(node, p, value).value, name, q)
    decreases p
  {
    WriteKeepsKids(node, name, p, value);
    WriteSee(node, name, p, value, p[0]);
    WriteSee(node, name, p, value, q[0]);
    if p[0] == q[0] {
      assert |p| >= 2 && |q| >= 2 && !Comparable(p[1..], q[1..]) by {
        assert p == [p[0]] + p[1..] && q == [q[0]] + q[1..];
      }
      KeyedFrame(See(node, p[0]).value, p[0], p[1..], value, q[1..]);
    }
  }

  // ---- replaying the entries of one child, then of all children ----

  ghost predicate SameView(seg: string, v: View, w: View) {
    (v.Present? <==> w.Present?) && (v.Present? && w.Present? ==> Same(seg, v.value, w.value))
  }

  // `next` is `node` with the child at `seg` brought to `b`'s, and nothing else changed.
  ghost predicate KidDone(node: Json, name: string, b: Json, seg: string, next: Json) {
    && SameKind(node, next)
    && HasKids(next, name)
    && SameView(seg, See(next, seg), See(b, seg))
    && forall other :: other != seg && NamesKid(node, name, other) ==> See(next, other) == See(node, other)
  }

  lemma StoreKid(node: Json, name: string, b: Json, seg: string)
    requires SameKind(node, b) && HasKids(node, name) && HasKids(b, name) && seg in Kids(b, name)
    ensures Store(node, seg, Kids(b, name)[seg]).Ok?
      && KidDone(node, name, b, seg, Store(node, seg, Kids(b, name)[seg]).value)
  {
    var value := Kids(b, name)[seg];
    KidsSee(b, name, seg);
    KidsSee(node, name, seg);
    StoreOk(node, seg);
    forall other | NamesKid(node, name, other) { StoreSee(node, seg, value, other); }
    StoreSee(node, seg, value, seg);
    if node.Arr? { KeyedStore(node.rows, seg, value); }
  }

  lemma DeleteKid(node: Json, name: string, b: Json, seg: string)
    requires SameKind(node, b) && HasKids(node, name) && HasKids(b, name) && seg !in Kids(b, name)
    requires NamesKid(node, name, seg) && See(node, seg).Present?
    ensures Delete(node, seg).Ok? && KidDone(node, name, b, seg, Delete(node, seg).value)
  {
    KidsSee(b, name, seg);
    StoreOk(node, seg);
    forall other | NamesKid(node, name, other) { DeleteSee(node, seg, other); }
    DeleteSee(node, seg, seg);
    if node.Arr? { KeyedDelete(node.rows, seg); }
  }

  lemma SwapKid(node: Json, name: string, b: Json, seg: string, child: Json)
    requires SameKind(node, b) && HasKids(node, name) && HasKids(b, name)
    requires NamesKid(node, name, seg) && See(node, seg).Present?
    requires node.Arr? ==> RefOf(child, SegmentKey(seg)) == RefOf(See(node, seg).value, SegmentKey(seg))
    requires SameView(seg, Present(child), See(b, seg))
    ensures KidDone(node, name, b, seg, Swap(node, seg, child))
  {
    forall other | NamesKid(node, name, other) { SwapSee(node, seg, child, other); }
    SwapSee(node, seg, child, seg);
    if node.Arr? { KeyedSwap(node.rows, seg, child); }
  }

  lemma {:induction false} ReplayKid(node: Json, name: string, a: Json, b: Json, seg: string)
    requires SameKind(a, b) && SameKind(node, a)
    requires HasKids(node, name) && HasKids(a, name) && HasKids(b, name)
    requires seg in Kids(a, name) || seg in Kids(b, name)
    requires See(node, seg) == See(a, seg)
    requires DiffKid(a, seg, Kids(a, name), Kids(b, name)).Ok?
    ensures Replay(node, Under(seg, DiffKid(a, seg, Kids(a, name), Kids(b, name)).value)).Ok?
    ensures KidDone(node, name, b, seg,
        Replay(node, Under(seg, DiffKid(a, seg, Kids(a, name), Kids(b, name)).value)).value)
    decreases a, 0, 0
  {
    var ka, kb := Kids(a, name), Kids(b, name);
    var es := DiffKid(a, seg, ka, kb).value;
    if seg in ka { KidsSee(a, name, seg); } else { KidsSee(b, name, seg); }
    KidsSee(a, name, seg);
    KidsSee(b, name, seg);
    if seg in ka && seg in kb && es != [Entry([], Some(ka[seg]), Some(kb[seg]))] {
      RoundTripAt(seg, ka[seg], kb[seg]);
      InnerEntries(seg, ka[seg], kb[seg]);
      if node.Arr? { NoRefEntry(seg, ka[seg], kb[seg], SegmentKey(seg)); }
      InnerKid(node, name, b, seg, es);
    } else {
      WholeKid(node, name, b, seg, es[0]);
      assert es == [es[0]];
    }
  }

  lemma {:induction false} InnerKid(node: Json, name: string, b: Json, seg: string, es: seq<Entry>)
    requires SameKind(node, b) && HasKids(node, name) && HasKids(b, name)
    requires NamesKid(node, name, seg) && See(node, seg).Present? && See(b, seg).Present?
    requires Replay(See(node, seg).value, es).Ok?
      && Same(seg, Replay(See(node, seg).value, es).value, See(b, seg).value)
    requires forall e :: e in es ==> e.path != []
    requires node.Arr? ==> forall e :: e in es ==> e.path != [SegmentKey(seg)]
    ensures Replay(node, Under(seg, es)).Ok? && KidDone(node, name, b, seg, Replay(node, Under(seg, es)).value)
  {
    DeepReplay(node, seg, es);
    SwapKid(node, name, b, seg, Replay(See(node, seg).value, es).value);
  }

  // One entry that sets or removes the whole child.
  lemma {:induction false} WholeKid(node: Json, name: string, b: Json, seg: string, e: Entry)
    requires SameKind(node, b) && HasKids(node, name) && HasKids(b, name)
    requires NamesKid(node, name, seg) && e.path == []
    requires e.after == if seg in Kids(b, name) then Some(Kids(b, name)[seg]) else None
    requires seg !in Kids(b, name) ==> See(node, seg).Present?
    ensures Replay(node, Under(seg, [e])).Ok? && KidDone(node, name, b, seg, Replay(node, Under(seg, [e])).value)
  {
    ReplaySingle(node, seg, e);
    if seg in Kids(b, name) { StoreKid(node, name, b, seg); } else { DeleteKid(node, name, b, seg); }
  }

  lemma {:induction false} ReplaySingle(node: Json, seg: string, e: Entry)
    requires e.path == []
    ensures Replay(node, Under(seg, [e])) == WriteAt(node, [seg], e.after)
  {
    var up := Under(seg, [e]);
    assert [seg] + [] == [seg];
    assert up == [Entry([seg], e.before, e.after)] && up[1..] == [];
  }

  // Unless the difference is one replacement of the whole value, its entries lie inside.
  lemma {:induction false} InnerEntries(name: string, a: Json, b: Json)
    requires Diff(name, a, b).Ok? && Diff(name, a, b).value != [Entry([], Some(a), Some(b))]
    ensures forall e :: e in Diff(name, a, b).value ==> e.path != []
  {
    if a != b {
      DiffByKids(name, a, b);
      DiffKidsExact(name, a, b, Sorted(Kids(a, name).Keys + Kids(b, name).Keys));
    }
  }

  // Rows with the same ref have no entry for their ref field.
  lemma {:induction false} NoRefEntry(name: string, a: Json, b: Json, key: string)
    requires Diff(name, a, b).Ok? && RefOf(a, key).Ref? && RefOf(a, key) == RefOf(b, key)
    ensures forall e :: e in Diff(name, a, b).value ==> e.path != [key]
  {
    DiffExact(name, a, b);
    RefFieldSame(a, b, key);
  }

  lemma {:induction false} ReplayKids(node: Json, name: string, a: Json, b: Json, segs: seq<string>)
    requires SameKind(a, b) && SameKind(node, a)
    requires HasKids(node, name) && HasKids(a, name) && HasKids(b, name) && Distinct(segs)
    requires forall s :: s in segs ==> (s in Kids(a, name) || s in Kids(b, name)) && See(node, s) == See(a, s)
    requires DiffKids(a, segs, Kids(a, name), Kids(b, name)).Ok?
    ensures Replay(node, DiffKids(a, segs, Kids(a, name), Kids(b, name)).value).Ok?
    ensures var r := Replay(node, DiffKids(a, segs, Kids(a, name), Kids(b, name)).value).value;
      && SameKind(node, r) && HasKids(r, name)
      && (forall s :: s in segs ==> SameView(s, See(r, s), See(b, s)))
      && (forall s :: s !in segs && NamesKid(node, name, s) ==> See(r, s) == See(node, s))
    decreases a, 0, 1 + |segs|
  {
    if segs != [] {
      var ka, kb, seg, rest := Kids(a, name), Kids(b, name), segs[0], segs[1..];
      forall s | s in segs ensures NamesKid(node, name, s) {
        if s in ka { KidsSee(a, name, s); } else { KidsSee(b, name, s); }
      }
      ReplayKid(node, name, a, b, seg);
      var first := Under(seg, DiffKid(a, seg, ka, kb).value);
      var next := Replay(node, first).value;
      forall s | s in rest ensures See(next, s) == See(a, s) {
        assert s in segs && s != seg;
      }
      ReplayKids(next, name, a, b, rest);
      ReplayConcat(node, first, DiffKids(a, rest, ka, kb).value);
      assert forall s :: s in segs <==> s == seg || s in rest;
      assert seg !in rest;
    }
  }

  // Replaying all entries of a difference never fails and reaches the other value up to row order;
  // the remaining difference is then empty.
  lemma {:induction false} RoundTripAt(name: string, a: Json, b: Json)
    requires Diff(name, a, b).Ok?
    ensures Replay(a, Diff(name, a, b).value).Ok?
    ensures Same(name, Replay(a, Diff(name, a, b).value).value, b)
    ensures Diff(name, Replay(a, Diff(name, a, b).value).value, b) == Ok([])
    decreases a, 1, 0
  {
    if a == b {
      EmptyIsSame(name, a, b);
    } else {
      DiffByKids(name, a, b);
      var es := Diff(name, a, b).value;
      if es == [Entry([], Some(a), Some(b))] {
        assert es[1..] == [];
        assert Replay(a, es) == Replay(b, []) == Ok(b);
        EmptyIsSame(name, b, b);
      } else {
        var segs := Sorted(Kids(a, name).Keys + Kids(b, name).Keys);
        ReplayKids(a, name, a, b, segs);
        var r := Replay(a, es).value;
        SameByViews(name, a, r, b, segs);
        EmptyIsSame(name, r, b);
      }
    }
  }

  lemma {:induction false} SameByViews(name: string, a: Json, r: Json, b: Json, segs: seq<string>)
    requires SameKind(a, b) && SameKind(a, r) && HasKids(a, name) && HasKids(r, name) && HasKids(b, name)
    requires forall s :: s in Kids(a, name) || s in Kids(b, name) ==> s in segs
    requires forall s :: s in segs ==> SameView(s, See(r, s), See(b, s))
    requires forall s :: s !in segs && NamesKid(a, name, s) ==> See(r, s) == See(a, s)
    ensures Same(name, r, b)
  {
    forall s | s in Kids(r, name) || s in Kids(b, name)
      ensures s in Kids(r, name) && s in Kids(b, name) && Same(s, Kids(r, name)[s], Kids(b, name)[s])
    {
      if s in Kids(r, name) { KidsSee(r, name, s); } else { KidsSee(b, name, s); }
      KidsSee(r, name, s);
      KidsSee(b, name, s);
      KidsSee(a, name, s);
    }
  }
}
