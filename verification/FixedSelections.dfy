/**
 Fixed paths under selections: what a path reads after some of the changes of a prepared proposal,
 row by row where it enters a collection through another ref field than the collection's own. A
 path that reads something is moved by a selection exactly if a single change moves it.
 */
module FixedSelections {
  import opened Outcomes
  import opened JsonValues
  import opened Paths
  import opened Patch
  import opened Differences
  import opened Proposals
  import opened ProposalLaws
  import opened AdoptionOrder
  import opened RowOrder

  // ---- selections as documents ----

  ghost predicate Settled(doc: Json, changes: seq<Change>) {
    AllSteady(doc, changes) && ApartChanges(changes)
  }

  // The document after the selected changes
  ghost function Pick(doc: Json, changes: seq<Change>, ids: set<nat>): Json
    requires Settled(doc, changes)
  {
    SelectedApart(doc, changes, ids);
    WritesSucceed(doc, Selected(changes, ids));
    WriteAll(doc, Selected(changes, ids)).value
  }

  ghost function Next(doc: Json, c: Change, ids: set<nat>): Json
    requires Steady(doc, c)
  {
    if c.id in ids then Put(doc, c) else doc
  }

  lemma PickStep(doc: Json, changes: seq<Change>, ids: set<nat>)
    requires Settled(doc, changes) && changes != []
    ensures Steady(doc, changes[0]) && Settled(Next(doc, changes[0], ids), changes[1..])
    ensures Pick(doc, changes, ids) == Pick(Next(doc, changes[0], ids), changes[1..], ids)
  {
    SteadyTail(doc, changes);
    assert forall c :: c in changes[1..] ==> c in changes;
    if changes[0].id in ids {
      SelectedApart(doc, changes, ids);
      SteadyTail(doc, Selected(changes, ids));
      assert Selected(changes, ids)[1..] == Selected(changes[1..], ids);
    }
  }

  // ---- reading above, at and beside a written path ----

  lemma {:induction false} AlignedPrefix(node: Json, name: string, g: Path, p: Path)
    requires Aligned(node, name, p) && g <= p
    ensures Aligned(node, name, g)
    decreases p
  {
    if g != [] {
      assert g[0] == p[0] && g[1..] <= p[1..];
      if See(node, g[0]).Present? { AlignedPrefix(See(node, g[0]).value, g[0], g[1..], p[1..]); }
    }
  }

  // What is read above a written path was read there before, with the write made to it.
  lemma {:induction false} ReadAbove(node: Json, name: string, p: Path, value: Option<Json>, g: Path)
    requires g < p && Fits(node, name, p) && WriteAt(node, p, value).Ok?
    ensures ReadAt(node, g).Some? && WriteAt(ReadAt(node, g).value, p[|g|..], value).Ok?
    ensures ReadAt(WriteAt(node, p, value).value, g) == Some(WriteAt(ReadAt(node, g).value, p[|g|..], value).value)
    decreases g
  {
    if g == [] {
      assert p[|g|..] == p;
    } else {
      assert g[0] == p[0] && g[1..] < p[1..] && p[1..][|g[1..]|..] == p[|g|..];
      WriteSee(node, name, p, value, p[0]);
      ChildIsSee(node, p[0]);
      ChildIsSee(WriteAt(node, p, value).value, p[0]);
      ReadAbove(See(node, p[0]).value, p[0], p[1..], value, g[1..]);
    }
  }

  // No change lies strictly above the path.
  ghost predicate NoneAbove(changes: seq<Change>, g: Path) {
    forall c :: c in changes && Parse(c.fieldPath).Ok? ==> !(Parts(c) < g)
  }

  // A change at, below or beside an aligned path keeps it aligned, and makes equal readings of equal ones.
  lemma {:induction false} PutLocal(a: Json, b: Json, c: Change, g: Path)
    requires Steady(a, c) && Steady(b, c) && !(Parts(c) < g) && Aligned(a, "", g) && Aligned(b, "", g)
      && ReadAt(a, g) == ReadAt(b, g)
    ensures Aligned(Put(a, c), "", g) && Aligned(Put(b, c), "", g)
    ensures ReadAt(Put(a, c), g) == ReadAt(Put(b, c), g)
    ensures !Comparable(Parts(c), g) ==> ReadAt(Put(a, c), g) == ReadAt(a, g)
  {
    var p := Parts(c);
    ReadAfterWrite(a, "", p, c.After());
    ReadAfterWrite(b, "", p, c.After());
    if g <= p {
      AlignedPrefix(Put(a, c), "", g, p);
      AlignedPrefix(Put(b, c), "", g, p);
      if g != p {
        ReadAbove(a, "", p, c.After(), g);
        ReadAbove(b, "", p, c.After(), g);
      }
    } else {
      Frame(a, "", p, c.After(), g, None);
      Frame(b, "", p, c.After(), g, None);
    }
  }

  lemma {:induction false} NextLocal(a: Json, b: Json, c: Change, ids: set<nat>, more: set<nat>, g: Path)
    requires Steady(a, c) && Steady(b, c) && !(Parts(c) < g) && Aligned(a, "", g) && Aligned(b, "", g)
      && ReadAt(a, g) == ReadAt(b, g)
    requires Comparable(Parts(c), g) ==> (c.id in ids <==> c.id in more)
    ensures Aligned(Next(a, c, ids), "", g) && Aligned(Next(b, c, more), "", g)
    ensures ReadAt(Next(a, c, ids), g) == ReadAt(Next(b, c, more), g)
  {
    PutLocal(a, b, c, g);
    PutLocal(b, a, c, g);
  }

  // Selections that agree on the changes bearing on an aligned path read the same there.
  lemma {:induction false} Local(a: Json, b: Json, changes: seq<Change>, ids: set<nat>, more: set<nat>, g: Path)
    requires Settled(a, changes) && Settled(b, changes) && NoneAbove(changes, g)
    requires Aligned(a, "", g) && Aligned(b, "", g) && ReadAt(a, g) == ReadAt(b, g)
    requires forall c :: c in changes && Comparable(Parts(c), g) ==> (c.id in ids <==> c.id in more)
    ensures ReadAt(Pick(a, changes, ids), g) == ReadAt(Pick(b, changes, more), g)
    decreases |changes|
  {
    if changes != [] {
      var c := changes[0];
      assert c in changes && forall d :: d in changes[1..] ==> d in changes;
      PickStep(a, changes, ids);
      PickStep(b, changes, more);
      NextLocal(a, b, c, ids, more, g);
      Local(Next(a, c, ids), Next(b, c, more), changes[1..], ids, more, g);
    }
  }

  // ---- the rows of a collection that no change is above ----

  ghost predicate Entered(doc: Json, changes: seq<Change>, q: Path, rows: seq<Json>) {
    && Settled(doc, changes) && Aligned(doc, "", q) && Collection(doc, "", q, rows)
    && forall c :: c in changes ==> !(Parts(c) <= q)
  }

  // A segment that can name a row by the collection's own ref field
  ghost predicate NamesRow(q: Path, r: string) {
    CollectionKey(NameAt("", q)).Some? && IsRowSegment(r) && SegmentKey(r) == KeyAt("", q)
  }

  lemma PickCollection(doc: Json, changes: seq<Change>, ids: set<nat>, q: Path, rows: seq<Json>)
    returns (after: seq<Json>)
    requires Entered(doc, changes, q, rows)
    ensures Collection(Pick(doc, changes, ids), "", q, after)
  {
    SelectedApart(doc, changes, ids);
    InOrderSelf(rows, KeyAt("", q));
    after := WritesInOrder(doc, doc, Selected(changes, ids), q, rows, rows);
  }

  lemma {:induction false} RowAligned(node: Json, name: string, q: Path, rows: seq<Json>, r: string)
    requires Aligned(node, name, q) && Collection(node, name, q, rows)
    requires IsRowSegment(r) && SegmentKey(r) == KeyAt(name, q)
    ensures Aligned(node, name, q + [r])
    decreases q
  {
    if q == [] {
      assert q + [r] == [r] && [r][1..] == [];
    } else {
      assert (q + [r])[0] == q[0] && (q + [r])[1..] == q[1..] + [r];
      ChildIsSee(node, q[0]);
      RowAligned(See(node, q[0]).value, q[0], q[1..], rows, r);
    }
  }

  lemma Shorter(p: Path, q: Path, r: string)
    ensures p < q + [r] ==> p <= q
  {
    assert p < q + [r] ==> p == (q + [r])[..|p|] == q[..|p|];
  }

  // Two selections that agree on the changes of one row give it the same value.
  lemma {:induction false} RowIsOwn(doc: Json, changes: seq<Change>, q: Path, rows: seq<Json>, r: string,
          ids: set<nat>, more: set<nat>)
    requires Entered(doc, changes, q, rows) && NamesRow(q, r)
    requires forall c :: c in changes && q + [r] <= Parts(c) ==> (c.id in ids <==> c.id in more)
    ensures ReadAt(Pick(doc, changes, ids), q + [r]) == ReadAt(Pick(doc, changes, more), q + [r])
  {
    RowAligned(doc, "", q, rows, r);
    forall c | c in changes ensures !(Parts(c) < q + [r]) { Shorter(Parts(c), q, r); }
    Local(doc, doc, changes, ids, more, q + [r]);
  }

  // ---- reading a row through another ref field ----

  // The row is there and the segment names it; below it the path reads `x`.
  ghost predicate Shows(doc: Json, q: Path, r: string, s: string, rest: Path, x: Json)
    requires IsRowSegment(s)
  {
    var row := ReadAt(doc, q + [r]);
    row.Some? && RefOf(row.value, SegmentKey(s)) == Ref(s) && ReadAt(row.value, rest) == Some(x)
  }

  // The row is not there, or the segment passes over it.
  ghost predicate Hides(doc: Json, q: Path, r: string, s: string)
    requires IsRowSegment(s)
  {
    var row := ReadAt(doc, q + [r]);
    row.Some? ==> RefOf(row.value, SegmentKey(s)) != Ref(s) && !RefOf(row.value, SegmentKey(s)).BadRef?
  }

  // The only row the segment names
  ghost predicate ShowsAlone(doc: Json, q: Path, r: string, s: string, rest: Path, x: Json)
    requires IsRowSegment(s)
  {
    NamesRow(q, r) && Shows(doc, q, r, s, rest, x) && forall o :: NamesRow(q, o) && o != r ==> Hides(doc, q, o, s)
  }

  lemma NameOfRow(rows: seq<Json>, q: Path, doc: Json, i: nat) returns (r: string)
    requires Collection(doc, "", q, rows) && i < |rows|
    ensures NamesRow(q, r) && RefOf(rows[i], KeyAt("", q)) == Ref(r) && ReadAt(doc, q + [r]) == Some(rows[i])
  {
    var key := KeyAt("", q);
    r := RefOf(rows[i], key).segment;
    RefSegmentKey(rows[i], key);
    RowRead(doc, "", q, rows, r);
    assert Match(rows, key, r, i);
  }

  lemma RowNamed(rows: seq<Json>, q: Path, doc: Json, r: string) returns (i: nat)
    requires Collection(doc, "", q, rows) && NamesRow(q, r) && ReadAt(doc, q + [r]).Some?
    ensures i < |rows| && RefOf(rows[i], KeyAt("", q)) == Ref(r) && ReadAt(doc, q + [r]) == Some(rows[i])
  {
    RowRead(doc, "", q, rows, r);
    i :| Match(rows, KeyAt("", q), r, i);
  }

  lemma AliasFound(doc: Json, q: Path, rows: seq<Json>, s: string, rest: Path, x: Json) returns (r: string)
    requires Collection(doc, "", q, rows) && IsRowSegment(s) && SegmentKey(s) in REFS
    requires ReadAt(doc, q + ([s] + rest)) == Some(x)
    ensures ShowsAlone(doc, q, r, s, rest, x)
  {
    ReadOn(doc, q, [s] + rest);
    assert ([s] + rest)[1..] == rest;
    ChildIsSee(Arr(rows), s);
    SeeArr(rows, s);
    var i :| Only(rows, SegmentKey(s), s, i) && See(Arr(rows), s) == Present(rows[i]);
    r := NameOfRow(rows, q, doc, i);
    forall o | NamesRow(q, o) && o != r ensures Hides(doc, q, o, s) {
      if ReadAt(doc, q + [o]).Some? {
        var j := RowNamed(rows, q, doc, o);
        assert i != j && !Match(rows, SegmentKey(s), s, j);
      }
    }
  }

  lemma {:induction false} AliasRead(doc: Json, q: Path, rows: seq<Json>, r: string, s: string, rest: Path, x: Json)
    requires Collection(doc, "", q, rows) && IsRowSegment(s) && SegmentKey(s) in REFS
      && ShowsAlone(doc, q, r, s, rest, x)
    ensures ReadAt(doc, q + ([s] + rest)) == Some(x)
  {
    var key := SegmentKey(s);
    var i := RowNamed(rows, q, doc, r);
    forall j | 0 <= j < |rows| && j != i ensures !RefOf(rows[j], key).BadRef? && !Match(rows, key, s, j) {
      var o := NameOfRow(rows, q, doc, j);
      assert o != r by { assert RefOf(rows[i], KeyAt("", q)) != RefOf(rows[j], KeyAt("", q)); }
      assert Hides(doc, q, o, s);
    }
    assert Only(rows, key, s, i) && !AnyBad(rows, key);
    SeeArr(rows, s);
    ChildIsSee(Arr(rows), s);
    ReadOn(doc, q, [s] + rest);
    assert ([s] + rest)[1..] == rest;
  }

  // ---- single changes ----

  ghost predicate UniqueIds(changes: seq<Change>) {
    forall c, d :: c in changes && d in changes && c.id == d.id ==> c == d
  }

  lemma {:induction false} SelectNone(changes: seq<Change>, ids: set<nat>)
    requires forall c :: c in changes ==> c.id !in ids
    ensures Selected(changes, ids) == []
  {
    if changes != [] {
      assert changes[0] in changes && forall c :: c in changes[1..] ==> c in changes;
      SelectNone(changes[1..], ids);
    }
  }

  lemma PickNone(doc: Json, changes: seq<Change>, ids: set<nat>)
    requires Settled(doc, changes) && forall c :: c in changes ==> c.id !in ids
    ensures Pick(doc, changes, ids) == doc
  {
    SelectNone(changes, ids);
  }

  lemma {:induction false} PickOne(doc: Json, changes: seq<Change>, c: Change)
    requires Settled(doc, changes) && UniqueIds(changes) && c in changes
    ensures Pick(doc, changes, {c.id}) == Put(doc, c)
    decreases |changes|
  {
    var rest := changes[1..];
    assert forall d :: d in changes <==> d == changes[0] || d in rest;
    PickStep(doc, changes, {c.id});
    if changes[0] == c {
      forall d | d in rest ensures d.id != c.id {
        var i :| 0 <= i < |rest| && rest[i] == d;
        assert !Comparable(Parts(changes[0]), Parts(changes[i + 1]));
      }
      PickNone(Put(doc, c), rest, {c.id});
    } else {
      PickOne(doc, rest, c);
    }
  }

  lemma {:induction false} PickAll(doc: Json, changes: seq<Change>)
    requires Settled(doc, changes)
    ensures Selected(changes, Ids(changes)) == changes
    ensures WriteAll(doc, changes) == Ok(Pick(doc, changes, Ids(changes)))
  {
    SelectAll(changes, Ids(changes));
    WritesSucceed(doc, changes);
  }

  lemma {:induction false} SelectAll(changes: seq<Change>, ids: set<nat>)
    requires Ids(changes) <= ids
    ensures Selected(changes, ids) == changes
  {
    if changes != [] {
      assert changes[0] in changes && changes[0].id in Ids(changes);
      assert forall c :: c in changes[1..] ==> c in changes && c.id in Ids(changes);
      SelectAll(changes[1..], ids);
      assert changes == [changes[0]] + changes[1..];
    }
  }

  // A value that no selected change is at or above stays, and stays what kind of value it is.
  lemma {:induction false} PickKeeps(doc: Json, changes: seq<Change>, ids: set<nat>, g: Path)
    requires Settled(doc, changes) && Aligned(doc, "", g) && ReadAt(doc, g).Some?
    requires forall c :: c in changes && c.id in ids ==> !(Parts(c) <= g)
    ensures ReadAt(Pick(doc, changes, ids), g).Some?
      && SameKind(ReadAt(doc, g).value, ReadAt(Pick(doc, changes, ids), g).value)
    decreases |changes|
  {
    if changes != [] {
      var c := changes[0];
      assert c in changes && forall d :: d in changes[1..] ==> d in changes;
      PickStep(doc, changes, ids);
      if c.id in ids {
        PathSurvives(doc, "", Parts(c), c.After(), g);
        PutKind(doc, c, g);
      }
      PickKeeps(Next(doc, c, ids), changes[1..], ids, g);
    }
  }

  lemma {:induction false} PutKind(doc: Json, c: Change, g: Path)
    requires Steady(doc, c) && Aligned(doc, "", g) && ReadAt(doc, g).Some? && !(Parts(c) <= g)
    ensures ReadAt(Put(doc, c), g).Some? && SameKind(ReadAt(doc, g).value, ReadAt(Put(doc, c), g).value)
  {
    var p := Parts(c);
    if g < p {
      ReadAbove(doc, "", p, c.After(), g);
      WriteKind(ReadAt(doc, g).value, p[|g|..], c.After());
    } else {
      Frame(doc, "", p, c.After(), g, None);
    }
  }

  lemma {:induction false} WriteKind(node: Json, p: Path, value: Option<Json>)
    requires p != [] && WriteAt(node, p, value).Ok?
    ensures SameKind(node, WriteAt(node, p, value).value) && (node.Obj? || node.Arr?)
  {
  }

  // What a row shows of itself under a ref field; nothing when it is not there
  ghost function Tag(row: Option<Json>, key: string): Option<RefView> {
    if row.None? then None else Some(RefOf(row.value, key))
  }

  lemma {:induction false} TagByField(a: Json, b: Json, key: string)
    requires a.Obj? && b.Obj?
    requires ReadAt(a, [key]) == ReadAt(b, [key]) ||
      (ReadAt(a, [key]).Some? && !ReadAt(a, [key]).value.Str? && ReadAt(b, [key]).Some? && !ReadAt(b, [key]).value.Str?)
    ensures RefOf(a, key) == RefOf(b, key)
  {
    ReadField(a, key);
    ReadField(b, key);
  }

  lemma {:induction false} FieldAligned(node: Json, name: string, q: Path, rows: seq<Json>, r: string, key: string)
    requires Aligned(node, name, q) && Collection(node, name, q, rows)
    requires IsRowSegment(r) && SegmentKey(r) == KeyAt(name, q)
    ensures Aligned(node, name, q + [r, key])
    decreases q
  {
    if q == [] {
      assert q + [r, key] == [r, key] && [r, key][1..] == [key] && [key][1..] == [];
      if See(node, r).Present? {
        assert !AnyBad(rows, SegmentKey(r));
        SeeArr(rows, r);
      }
    } else {
      assert (q + [r, key])[0] == q[0] && (q + [r, key])[1..] == q[1..] + [r, key];
      ChildIsSee(node, q[0]);
      FieldAligned(See(node, q[0]).value, q[0], q[1..], rows, r, key);
    }
  }

  // A row that no change replaces as a whole is there after the selection exactly if it was before.
  lemma {:induction false} RowStays(doc: Json, changes: seq<Change>, q: Path, rows: seq<Json>, r: string, ids: set<nat>)
    requires Entered(doc, changes, q, rows) && NamesRow(q, r) && forall c :: c in changes ==> Parts(c) != q + [r]
    ensures ReadAt(Pick(doc, changes, ids), q + [r]).Some? <==> ReadAt(doc, q + [r]).Some?
  {
    RowAligned(doc, "", q, rows, r);
    if ReadAt(doc, q + [r]).Some? {
      forall c | c in changes ensures !(Parts(c) <= q + [r]) { Shorter(Parts(c), q, r); }
      PickKeeps(doc, changes, ids, q + [r]);
    } else {
      forall c | c in changes ensures !(q + [r] <= Parts(c)) {
        if q + [r] < Parts(c) { ReadAbove(doc, "", Parts(c), c.After(), q + [r]); }
      }
      RowIsOwn(doc, changes, q, rows, r, ids, {});
      PickNone(doc, changes, {});
    }
  }

  lemma {:induction false} RowIsObject(doc: Json, changes: seq<Change>, q: Path, rows: seq<Json>, r: string,
          ids: set<nat>, key: string)
    requires Entered(doc, changes, q, rows) && NamesRow(q, r) && ReadAt(Pick(doc, changes, ids), q + [r]).Some?
    ensures ReadAt(Pick(doc, changes, ids), q + [r]).value.Obj?
    ensures ReadAt(Pick(doc, changes, ids), q + [r, key]) ==
      ReadAt(ReadAt(Pick(doc, changes, ids), q + [r]).value, [key])
  {
    var after := PickCollection(doc, changes, ids, q, rows);
    var i := RowNamed(after, q, Pick(doc, changes, ids), r);
    assert q + [r, key] == (q + [r]) + [key];
    ReadOn(Pick(doc, changes, ids), q + [r], [key]);
  }

  // One change below a keyed row makes its ref what a selection makes of it, or none is needed.
  ghost predicate TagBySingle(doc: Json, changes: seq<Change>, q: Path, r: string, key: string)
    requires Settled(doc, changes)
  {
    var tag := Tag(ReadAt(Pick(doc, changes, Ids(changes)), q + [r]), key);
    || tag == Tag(ReadAt(doc, q + [r]), key)
    || exists c :: c in changes && q + [r] <= Parts(c) && Tag(ReadAt(Put(doc, c), q + [r]), key) == tag
  }

  // The change replaces, adds or removes the whole row.
  lemma TagByRow(doc: Json, changes: seq<Change>, q: Path, rows: seq<Json>, r: string, key: string, c: Change)
    requires Entered(doc, changes, q, rows) && UniqueIds(changes) && NamesRow(q, r) && c in changes
      && Parts(c) == q + [r]
    ensures TagBySingle(doc, changes, q, r, key)
  {
    forall d | d in changes && q + [r] <= Parts(d) ensures d.id in Ids(changes) <==> d.id in {c.id} {
      if d != c { ApartPair(changes, c, d); }
    }
    RowIsOwn(doc, changes, q, rows, r, Ids(changes), {c.id});
    PickOne(doc, changes, c);
  }

  // Two selections under which the row's ref field reads the same give it the same ref.
  lemma {:induction false} TagBySelection(doc: Json, changes: seq<Change>, q: Path, rows: seq<Json>, r: string,
          key: string, ids: set<nat>, more: set<nat>)
    requires Entered(doc, changes, q, rows) && NamesRow(q, r) && forall c :: c in changes ==> Parts(c) != q + [r]
    requires var a, b := ReadAt(Pick(doc, changes, ids), q + [r, key]), ReadAt(Pick(doc, changes, more), q + [r, key]);
      a == b || (a.Some? && !a.value.Str? && b.Some? && !b.value.Str?)
    ensures Tag(ReadAt(Pick(doc, changes, ids), q + [r]), key) == Tag(ReadAt(Pick(doc, changes, more), q + [r]), key)
  {
    RowStays(doc, changes, q, rows, r, ids);
    RowStays(doc, changes, q, rows, r, more);
    if ReadAt(Pick(doc, changes, ids), q + [r]).Some? {
      RowIsObject(doc, changes, q, rows, r, ids, key);
      RowIsObject(doc, changes, q, rows, r, more, key);
      TagByField(ReadAt(Pick(doc, changes, ids), q + [r]).value, ReadAt(Pick(doc, changes, more), q + [r]).value, key);
    }
  }

  lemma NoneAboveField(doc: Json, changes: seq<Change>, q: Path, rows: seq<Json>, r: string, key: string)
    requires Entered(doc, changes, q, rows) && forall c :: c in changes ==> Parts(c) != q + [r]
    ensures NoneAbove(changes, q + [r, key])
  {
    forall c | c in changes ensures !(Parts(c) < q + [r, key]) {
      assert q + [r, key] == (q + [r]) + [key];
      Shorter(Parts(c), q + [r], key);
      Shorter(Parts(c), q, r);
    }
  }

  // The change sets the ref field.
  lemma TagByFieldChange(doc: Json, changes: seq<Change>, q: Path, rows: seq<Json>, r: string, key: string, c: Change)
    requires Entered(doc, changes, q, rows) && UniqueIds(changes) && NamesRow(q, r) && forall d :: d in changes ==>
      Parts(d) != q + [r]
    requires c in changes && Parts(c) == q + [r, key]
    ensures TagBySingle(doc, changes, q, r, key)
  {
    NoneAboveField(doc, changes, q, rows, r, key);
    FieldAligned(doc, "", q, rows, r, key);
    forall d | d in changes && Comparable(Parts(d), q + [r, key]) ensures d.id in Ids(changes) <==> d.id in {c.id} {
      if d != c { ApartPair(changes, d, c); }
    }
    Local(doc, doc, changes, Ids(changes), {c.id}, q + [r, key]);
    TagBySelection(doc, changes, q, rows, r, key, Ids(changes), {c.id});
    PickOne(doc, changes, c);
    assert q + [r, key] == (q + [r]) + [key];
  }

  // No change is at the ref field or above it.
  lemma TagByNone(doc: Json, changes: seq<Change>, q: Path, rows: seq<Json>, r: string, key: string)
    requires Entered(doc, changes, q, rows) && NamesRow(q, r)
    requires forall d :: d in changes ==> Parts(d) != q + [r] && Parts(d) != q + [r, key]
    ensures TagBySingle(doc, changes, q, r, key)
  {
    var g := q + [r, key];
    NoneAboveField(doc, changes, q, rows, r, key);
    FieldAligned(doc, "", q, rows, r, key);
    PickNone(doc, changes, {});
    if c :| c in changes && g < Parts(c) {
      ReadAbove(doc, "", Parts(c), c.After(), g);
      WriteKind(ReadAt(doc, g).value, Parts(c)[|g|..], c.After());
      forall d | d in changes ensures !(Parts(d) <= g) { assert !(Parts(d) < g); }
      PickKeeps(doc, changes, Ids(changes), g);
    } else {
      forall d | d in changes ensures !Comparable(Parts(d), g) { assert !(Parts(d) < g); }
      Local(doc, doc, changes, Ids(changes), {}, g);
    }
    TagBySelection(doc, changes, q, rows, r, key, Ids(changes), {});
  }

  lemma SingleTag(doc: Json, changes: seq<Change>, q: Path, rows: seq<Json>, r: string, key: string)
    requires Entered(doc, changes, q, rows) && UniqueIds(changes) && NamesRow(q, r)
    ensures TagBySingle(doc, changes, q, r, key)
  {
    if c :| c in changes && Parts(c) == q + [r] {
      TagByRow(doc, changes, q, rows, r, key, c);
    } else if c :| c in changes && Parts(c) == q + [r, key] {
      TagByFieldChange(doc, changes, q, rows, r, key, c);
    } else {
      TagByNone(doc, changes, q, rows, r, key);
    }
  }

  // ---- how far a path is aligned ----

  ghost predicate Proper(node: Json, name: string, seg: string) {
    node.Arr? ==> CollectionKey(name).Some? && IsRowSegment(seg) && SegmentKey(seg) == CollectionKey(name).value
  }

  // The length of the longest aligned prefix
  ghost function Reach(node: Json, name: string, f: Path): (k: nat)
    ensures k <= |f|
    decreases f
  {
    if f == [] || !Proper(node, name, f[0]) then 0
    else if See(node, f[0]).Present? then 1 + Reach(See(node, f[0]).value, f[0], f[1..])
    else |f|
  }

  lemma {:induction false} ReachAligned(node: Json, name: string, f: Path)
    ensures Aligned(node, name, f[..Reach(node, name, f)])
    ensures Reach(node, name, f) < |f| ==>
      var q := f[..Reach(node, name, f)];
      ReadAt(node, q).Some? && ReadAt(node, q).value.Arr? && !Proper(ReadAt(node, q).value, NameAt(name, q), f[|q|])
    decreases f
  {
    if f != [] && Proper(node, name, f[0]) && See(node, f[0]).Present? {
      var k := Reach(node, name, f);
      ChildIsSee(node, f[0]);
      ReachAligned(See(node, f[0]).value, f[0], f[1..]);
      assert f[..k][1..] == f[1..][..k - 1] && f[..k][0] == f[0];
    }
  }

  lemma {:induction false} ReachMost(node: Json, name: string, f: Path, g: Path)
    requires Aligned(node, name, g) && g <= f
    ensures |g| <= Reach(node, name, f)
    decreases f
  {
    if g != [] {
      assert g[0] == f[0] && g[1..] <= f[1..];
      if See(node, f[0]).Present? { ReachMost(See(node, f[0]).value, f[0], f[1..], g[1..]); }
    }
  }

  lemma {:induction false} ReadSame(a: Json, b: Json, g: Path, f: Path)
    requires g <= f && ReadAt(a, g) == ReadAt(b, g)
    ensures ReadAt(a, f) == ReadAt(b, f)
  {
    assert f == g + f[|g|..];
    ReadOn(a, g, f[|g|..]);
    ReadOn(b, g, f[|g|..]);
  }

  // A collection that a change enters is keyed.
  lemma {:induction false} KeyedAt(node: Json, name: string, p: Path, q: Path)
    requires KeyedAlong(node, name, p) && q < p && ReadAt(node, q).Some?
    ensures HasKids(ReadAt(node, q).value, NameAt(name, q))
    decreases q
  {
    if q != [] {
      assert p[0] == q[0] && q[1..] < p[1..];
      ChildIsSee(node, q[0]);
      KeyedAt(See(node, q[0]).value, q[0], p[1..], q[1..]);
    }
  }

  // ---- a path that reads something ----

  // The change of one row decides what the alias reads.
  lemma {:induction false} AliasBroken(doc: Json, changes: seq<Change>, q: Path, rows: seq<Json>, s: string,
          rest: Path, x: Json, r: string, o: string, c: Change)
    requires Entered(doc, changes, q, rows) && UniqueIds(changes) && IsRowSegment(s) && SegmentKey(s) in REFS
    requires ShowsAlone(doc, q, r, s, rest, x) && NamesRow(q, o) && c in changes && q + [o] <= Parts(c)
    requires if o == r then !Shows(Put(doc, c), q, r, s, rest, x) else !Hides(Put(doc, c), q, o, s)
    ensures ReadAt(Put(doc, c), q + ([s] + rest)) != Some(x)
  {
    PickOne(doc, changes, c);
    PickNone(doc, changes, {});
    var after := PickCollection(doc, changes, {c.id}, q, rows);
    forall t | NamesRow(q, t) && t != o ensures ReadAt(Put(doc, c), q + [t]) == ReadAt(doc, q + [t]) {
      assert (q + [o])[|q|] == Parts(c)[|q|];
      forall d | d in changes && q + [t] <= Parts(d) ensures d.id in {c.id} <==> d.id in {} {
        assert (q + [t])[|q|] == Parts(d)[|q|];
      }
      RowIsOwn(doc, changes, q, rows, t, {c.id}, {});
    }
    assert forall t :: NamesRow(q, t) && t != r ==> Hides(doc, q, t, s);
    if ReadAt(Put(doc, c), q + ([s] + rest)) == Some(x) {
      var t := AliasFound(Put(doc, c), q, after, s, rest, x);
    }
  }

  // Another row comes to bear the alias.
  lemma BrokenByOther(doc: Json, changes: seq<Change>, q: Path, rows: seq<Json>, s: string, rest: Path, x: Json,
          r: string, o: string) returns (c: Change)
    requires Entered(doc, changes, q, rows) && UniqueIds(changes) && IsRowSegment(s) && SegmentKey(s) in REFS
    requires ShowsAlone(doc, q, r, s, rest, x) && NamesRow(q, o) && o != r
      && !Hides(Pick(doc, changes, Ids(changes)), q, o, s)
    ensures c in changes && ReadAt(Put(doc, c), q + ([s] + rest)) != Some(x)
  {
    var key := SegmentKey(s);
    SingleTag(doc, changes, q, rows, o, key);
    var tag := Tag(ReadAt(Pick(doc, changes, Ids(changes)), q + [o]), key);
    assert Hides(doc, q, o, s);
    assert tag != Tag(ReadAt(doc, q + [o]), key);
    c :| c in changes && q + [o] <= Parts(c) && Tag(ReadAt(Put(doc, c), q + [o]), key) == tag;
    AliasBroken(doc, changes, q, rows, s, rest, x, r, o, c);
  }

  // The row loses the alias.
  lemma BrokenByRow(doc: Json, changes: seq<Change>, q: Path, rows: seq<Json>, s: string, rest: Path, x: Json,
          r: string) returns (c: Change)
    requires Entered(doc, changes, q, rows) && UniqueIds(changes) && IsRowSegment(s) && SegmentKey(s) in REFS
    requires ShowsAlone(doc, q, r, s, rest, x)
    requires Tag(ReadAt(Pick(doc, changes, Ids(changes)), q + [r]), SegmentKey(s)) != Some(Ref(s))
    ensures c in changes && ReadAt(Put(doc, c), q + ([s] + rest)) != Some(x)
  {
    var key := SegmentKey(s);
    SingleTag(doc, changes, q, rows, r, key);
    var tag := Tag(ReadAt(Pick(doc, changes, Ids(changes)), q + [r]), key);
    assert Tag(ReadAt(doc, q + [r]), key) == Some(Ref(s));
    c :| c in changes && q + [r] <= Parts(c) && Tag(ReadAt(Put(doc, c), q + [r]), key) == tag;
    AliasBroken(doc, changes, q, rows, s, rest, x, r, r, c);
  }

  // What the path reads below the row changes.
  lemma {:induction false} BrokenBelow(doc: Json, changes: seq<Change>, q: Path, rows: seq<Json>, s: string,
          rest: Path, x: Json, r: string, c: Change)
    requires Entered(doc, changes, q, rows) && UniqueIds(changes) && IsRowSegment(s) && SegmentKey(s) in REFS
    requires ShowsAlone(doc, q, r, s, rest, x) && c in changes
    requires ReadAt(Put(doc, c), q + ([r] + rest)) != Some(x)
    ensures ReadAt(Put(doc, c), q + ([s] + rest)) != Some(x)
  {
    assert q + ([r] + rest) == (q + [r]) + rest;
    ReadOn(doc, q + [r], rest);
    ReadOn(Put(doc, c), q + [r], rest);
    if q + [r] <= Parts(c) {
      AliasBroken(doc, changes, q, rows, s, rest, x, r, r, c);
    } else {
      PickOne(doc, changes, c);
      PickNone(doc, changes, {});
      forall d | d in changes && q + [r] <= Parts(d)
        ensures d.id in {c.id} <==> d.id in {}
      {
        assert d.id == c.id ==> d == c;
      }
      RowIsOwn(doc, changes, q, rows, r, {c.id}, {});
    }
  }

  ghost predicate AllAlter(changes: seq<Change>) {
    forall c :: c in changes ==> Alters(c)
  }

  ghost predicate Breaks(doc: Json, changes: seq<Change>, f: Path, x: Json, c: Change)
    requires AllSteady(doc, changes)
  {
    c in changes && ReadAt(Put(doc, c), f) != Some(x)
  }

  // A change at or above the aligned part of the path decides what it reads.
  lemma {:induction false} BreaksAbove(doc: Json, changes: seq<Change>, f: Path, x: Json, c: Change)
    requires Settled(doc, changes) && UniqueIds(changes) && c in changes && Parts(c) <= f
    requires ReadAt(Pick(doc, changes, Ids(changes)), f) != Some(x)
    ensures Breaks(doc, changes, f, x, c)
  {
    var g := Parts(c);
    FitsAligned(doc, "", g);
    forall d | d in changes ensures !(Parts(d) < g) && (Comparable(Parts(d), g) ==> d == c) {
      if d != c { ApartPair(changes, d, c); }
    }
    Local(doc, doc, changes, Ids(changes), {c.id}, g);
    PickOne(doc, changes, c);
    ReadSame(Pick(doc, changes, Ids(changes)), Put(doc, c), g, f);
  }

  // A change below an aligned path changes what it reads.
  lemma {:induction false} BreaksBelow(doc: Json, changes: seq<Change>, f: Path, x: Json, c: Change)
    requires Settled(doc, changes) && AllAlter(changes) && c in changes && f <= Parts(c) && ReadAt(doc, f) == Some(x)
    ensures Breaks(doc, changes, f, x, c)
  {
    ReadAfterWrite(doc, "", Parts(c), c.After());
    if ReadAt(Put(doc, c), f) == Some(x) { ReadSame(Put(doc, c), doc, f, Parts(c)); }
  }

  // Without a change at, above or below an aligned path, it reads the same.
  lemma {:induction false} ApartKeeps(doc: Json, changes: seq<Change>, q: Path, ids: set<nat>)
    requires Settled(doc, changes) && Aligned(doc, "", q) && forall c :: c in changes ==> !Comparable(Parts(c), q)
    ensures ReadAt(Pick(doc, changes, ids), q) == ReadAt(doc, q)
  {
    Local(doc, doc, changes, ids, {}, q);
    PickNone(doc, changes, {});
  }

  // What a segment that is no ref segment reads in a collection: nothing.
  lemma {:induction false} NoAlias(doc: Json, q: Path, rows: seq<Json>, s: string, rest: Path)
    requires ReadAt(doc, q) == Some(Arr(rows)) && !(IsRowSegment(s) && SegmentKey(s) in REFS)
    ensures ReadAt(doc, q + ([s] + rest)) == None
  {
    ReadOn(doc, q, [s] + rest);
  }

  // The collection in which an unaligned path leaves its aligned part, when a change enters it
  lemma EnteredBy(doc: Json, changes: seq<Change>, q: Path, c: Change) returns (rows: seq<Json>)
    requires Settled(doc, changes) && Aligned(doc, "", q) && ReadAt(doc, q).Some? && ReadAt(doc, q).value.Arr?
    requires (forall d :: d in changes ==> !(Parts(d) <= q)) && c in changes && q < Parts(c)
    ensures Entered(doc, changes, q, rows)
  {
    rows := ReadAt(doc, q).value.rows;
    KeyedAt(doc, "", Parts(c), q);
  }

  lemma SingleAligned(doc: Json, changes: seq<Change>, f: Path, x: Json) returns (c: Change)
    requires Settled(doc, changes) && UniqueIds(changes) && AllAlter(changes) && Aligned(doc, "", f)
    requires ReadAt(doc, f) == Some(x) && ReadAt(Pick(doc, changes, Ids(changes)), f) != Some(x)
    ensures Breaks(doc, changes, f, x, c)
  {
    if d :| d in changes && Parts(d) <= f {
      c := d;
      BreaksAbove(doc, changes, f, x, c);
    } else if d :| d in changes && f <= Parts(d) {
      c := d;
      BreaksBelow(doc, changes, f, x, c);
    } else {
      ApartKeeps(doc, changes, f, Ids(changes));
      assert false;
    }
  }

  // Some change is at or below the point where the path leaves its aligned part, or at or above it.
  lemma {:induction false} SingleEnters(doc: Json, changes: seq<Change>, q: Path, f: Path, x: Json)
    requires Settled(doc, changes) && Aligned(doc, "", q) && q <= f
    requires ReadAt(doc, f) == Some(x) && ReadAt(Pick(doc, changes, Ids(changes)), f) != Some(x)
    ensures exists c :: c in changes && Comparable(Parts(c), q)
  {
    if forall c :: c in changes ==> !Comparable(Parts(c), q) {
      ApartKeeps(doc, changes, q, Ids(changes));
      ReadSame(Pick(doc, changes, Ids(changes)), doc, q, f);
      assert false;
    }
  }

  // A path that reads something and reads something else after a selection does so already after
  // one of its changes alone, wherever the path leads.
  lemma {:induction false} SingleSuffices(doc: Json, changes: seq<Change>, f: Path, x: Json) returns (c: Change)
    requires Settled(doc, changes) && UniqueIds(changes) && AllAlter(changes)
    requires ReadAt(doc, f) == Some(x) && ReadAt(Pick(doc, changes, Ids(changes)), f) != Some(x)
    ensures Breaks(doc, changes, f, x, c)
    decreases |f| - Reach(doc, "", f), 2
  {
    var k := Reach(doc, "", f);
    ReachAligned(doc, "", f);
    if k == |f| {
      assert f[..k] == f;
      c := SingleAligned(doc, changes, f, x);
    } else {
      assert f == f[..k] + ([f[k]] + f[k + 1..]);
      c := SingleUnaligned(doc, changes, f[..k], f[k], f[k + 1..], x);
    }
  }

  lemma {:induction false} SingleUnaligned(doc: Json, changes: seq<Change>, q: Path, s: string, rest: Path, x: Json)
    returns (c: Change)
    requires Settled(doc, changes) && UniqueIds(changes) && AllAlter(changes)
    requires ReadAt(doc, q + ([s] + rest)) == Some(x)
      && ReadAt(Pick(doc, changes, Ids(changes)), q + ([s] + rest)) != Some(x)
    requires Aligned(doc, "", q) && ReadAt(doc, q).Some? && ReadAt(doc, q).value.Arr?
    requires Reach(doc, "", q + ([s] + rest)) == |q|
    ensures Breaks(doc, changes, q + ([s] + rest), x, c)
    decreases 1 + |rest|, 1
  {
    var f := q + ([s] + rest);
    if d :| d in changes && Parts(d) <= q {
      c := d;
      assert Parts(c) <= f;
      BreaksAbove(doc, changes, f, x, c);
    } else {
      SingleEnters(doc, changes, q, f, x);
      var d :| d in changes && Comparable(Parts(d), q);
      var rows := EnteredBy(doc, changes, q, d);
      c := SingleAlias(doc, changes, q, rows, s, rest, x);
    }
  }

  lemma {:induction false} ReadThrough(node: Json, q: Path, r: string, rest: Path)
    ensures ReadAt(node, q + ([r] + rest)) ==
      match ReadAt(node, q + [r]) case None => None case Some(row) => ReadAt(row, rest)
  {
    assert q + ([r] + rest) == (q + [r]) + rest;
    ReadOn(node, q + [r], rest);
  }

  lemma {:induction false} ThroughReaches(doc: Json, q: Path, rows: seq<Json>, r: string, rest: Path)
    requires Aligned(doc, "", q) && Collection(doc, "", q, rows) && NamesRow(q, r)
    ensures Reach(doc, "", q + ([r] + rest)) > |q|
  {
    RowAligned(doc, "", q, rows, r);
    assert q + ([r] + rest) == (q + [r]) + rest;
    ReachMost(doc, "", q + ([r] + rest), q + [r]);
  }

  // The row the alias named goes on being the only one, so what changes is read below it.
  lemma {:induction false} ThroughRow(picked: Json, q: Path, after: seq<Json>, s: string, rest: Path, x: Json,
          r: string)
    requires Collection(picked, "", q, after) && IsRowSegment(s) && SegmentKey(s) in REFS && NamesRow(q, r)
    requires ReadAt(picked, q + ([s] + rest)) != Some(x) && Tag(ReadAt(picked, q + [r]), SegmentKey(s)) == Some(Ref(s))
    requires forall o :: NamesRow(q, o) && o != r ==> Hides(picked, q, o, s)
    ensures ReadAt(picked, q + ([r] + rest)) != Some(x)
  {
    ReadThrough(picked, q, r, rest);
    if ReadAt(picked, q + ([r] + rest)) == Some(x) { AliasRead(picked, q, after, r, s, rest, x); }
  }

  lemma {:induction false} SingleAlias(doc: Json, changes: seq<Change>, q: Path, rows: seq<Json>, s: string,
          rest: Path, x: Json) returns (c: Change)
    requires Entered(doc, changes, q, rows) && UniqueIds(changes) && AllAlter(changes)
    requires ReadAt(doc, q + ([s] + rest)) == Some(x)
      && ReadAt(Pick(doc, changes, Ids(changes)), q + ([s] + rest)) != Some(x)
    requires Reach(doc, "", q + ([s] + rest)) == |q|
    ensures Breaks(doc, changes, q + ([s] + rest), x, c)
    decreases 1 + |rest|, 0
  {
    var picked := Pick(doc, changes, Ids(changes));
    if !(IsRowSegment(s) && SegmentKey(s) in REFS) { NoAlias(doc, q, rows, s, rest); }
    var r := AliasFound(doc, q, rows, s, rest, x);
    if o :| NamesRow(q, o) && o != r && !Hides(picked, q, o, s) {
      c := BrokenByOther(doc, changes, q, rows, s, rest, x, r, o);
    } else if Tag(ReadAt(picked, q + [r]), SegmentKey(s)) != Some(Ref(s)) {
      c := BrokenByRow(doc, changes, q, rows, s, rest, x, r);
    } else {
      var after := PickCollection(doc, changes, Ids(changes), q, rows);
      ThroughRow(picked, q, after, s, rest, x, r);
      ReadThrough(doc, q, r, rest);
      ThroughReaches(doc, q, rows, r, rest);
      c := SingleSuffices(doc, changes, q + ([r] + rest), x);
      BrokenBelow(doc, changes, q, rows, s, rest, x, r, c);
    }
  }
}
