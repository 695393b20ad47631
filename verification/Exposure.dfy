/**
 Paths that read nothing before any change: some selection makes such a path read something exactly
 if the rows of the collections it enters, each by at most one change of its ref and by what can be
 read below one of them, can be brought to it.
 */
module Exposure {
  import opened Outcomes
  import opened JsonValues
  import opened Paths
  import opened Patch
  import opened Proposals
  import opened ProposalLaws
  import opened AdoptionOrder
  import opened RowOrder
  import opened FixedSelections

  // ---- row by row ----

  // Some selection of the row's changes makes it bear the alias and hold something below.
  ghost predicate CanShow(doc: Json, changes: seq<Change>, q: Path, r: string, s: string, rest: Path)
    requires Settled(doc, changes) && IsRowSegment(s)
  {
    exists ids, x :: Shows(Pick(doc, changes, ids), q, r, s, rest, x)
  }

  // The change makes the alias pass over its row.
  ghost predicate PutsAside(doc: Json, changes: seq<Change>, q: Path, o: string, s: string, c: Change)
    requires AllSteady(doc, changes) && IsRowSegment(s)
  {
    c in changes && q + [o] <= Parts(c) && Hides(Put(doc, c), q, o, s)
  }

  // The alias passes over the row, as it is or after one change of it.
  ghost predicate CanHide(doc: Json, changes: seq<Change>, q: Path, o: string, s: string)
    requires AllSteady(doc, changes) && IsRowSegment(s)
  {
    Hides(doc, q, o, s) || exists c :: PutsAside(doc, changes, q, o, s, c)
  }

  // One row can be brought to show and every other one, by itself, to step aside.
  ghost predicate RowsExpose(doc: Json, changes: seq<Change>, q: Path, s: string, rest: Path)
    requires Settled(doc, changes) && IsRowSegment(s)
  {
    exists r :: NamesRow(q, r) && CanShow(doc, changes, q, r, s, rest) && forall o :: NamesRow(q, o) && o != r ==>
      CanHide(doc, changes, q, o, s)
  }

  // A row that some selection hides is hidden as it is or by a single change.
  lemma HideBySingle(doc: Json, changes: seq<Change>, q: Path, rows: seq<Json>, o: string, s: string, ids: set<nat>)
    requires Entered(doc, changes, q, rows) && UniqueIds(changes) && IsRowSegment(s) && NamesRow(q, o)
    requires Hides(Pick(doc, changes, ids), q, o, s)
    ensures CanHide(doc, changes, q, o, s)
  {
    var chosen, key := Selected(changes, ids), SegmentKey(s);
    SelectedApart(doc, changes, ids);
    PickAll(doc, chosen);
    assert Entered(doc, chosen, q, rows) && UniqueIds(chosen);
    SingleTag(doc, chosen, q, rows, o, key);
    var tag := Tag(ReadAt(Pick(doc, changes, ids), q + [o]), key);
    if tag != Tag(ReadAt(doc, q + [o]), key) {
      var c :| c in chosen && q + [o] <= Parts(c) && Tag(ReadAt(Put(doc, c), q + [o]), key) == tag;
      assert PutsAside(doc, changes, q, o, s, c);
    }
  }

  // The changes taken for one row when `ids` is taken for row `r` and every other one is put aside
  ghost function Choice(doc: Json, changes: seq<Change>, q: Path, r: string, s: string, ids: set<nat>,
          o: string): set<nat>
    requires AllSteady(doc, changes) && IsRowSegment(s)
  {
    if o == r then ids
    else if Hides(doc, q, o, s) then {}
    else if exists c :: PutsAside(doc, changes, q, o, s, c) then
      var c :| PutsAside(doc, changes, q, o, s, c);
      {c.id}
    else {}
  }

  ghost function Glued(doc: Json, changes: seq<Change>, q: Path, r: string, s: string, ids: set<nat>): set<nat>
    requires AllSteady(doc, changes) && IsRowSegment(s)
  {
    set c | c in changes && q < Parts(c) && c.id in Choice(doc, changes, q, r, s, ids, Parts(c)[|q|]) :: c.id
  }

  lemma {:induction false} GluedAt(doc: Json, changes: seq<Change>, q: Path, rows: seq<Json>, r: string, s: string,
          ids: set<nat>, o: string)
    requires Entered(doc, changes, q, rows) && UniqueIds(changes) && IsRowSegment(s) && NamesRow(q, o)
    ensures ReadAt(Pick(doc, changes, Glued(doc, changes, q, r, s, ids)), q + [o])
      == ReadAt(Pick(doc, changes, Choice(doc, changes, q, r, s, ids, o)), q + [o])
  {
    var glued, own := Glued(doc, changes, q, r, s, ids), Choice(doc, changes, q, r, s, ids, o);
    forall c | c in changes && q + [o] <= Parts(c) ensures c.id in glued <==> c.id in own {
      assert (q + [o])[|q|] == Parts(c)[|q|] && q < Parts(c);
    }
    RowIsOwn(doc, changes, q, rows, o, glued, own);
  }

  lemma {:induction false} GluedExposes(doc: Json, changes: seq<Change>, q: Path, rows: seq<Json>, r: string,
          s: string, rest: Path, x: Json, ids: set<nat>)
    requires Entered(doc, changes, q, rows) && UniqueIds(changes) && IsRowSegment(s) && SegmentKey(s) in REFS
      && NamesRow(q, r)
    requires Shows(Pick(doc, changes, ids), q, r, s, rest, x) && forall o :: NamesRow(q, o) && o != r ==>
      CanHide(doc, changes, q, o, s)
    ensures ReadAt(Pick(doc, changes, Glued(doc, changes, q, r, s, ids)), q + ([s] + rest)) == Some(x)
  {
    var glued := Glued(doc, changes, q, r, s, ids);
    GluedAt(doc, changes, q, rows, r, s, ids, r);
    forall o | NamesRow(q, o) && o != r ensures Hides(Pick(doc, changes, glued), q, o, s) {
      GluedAt(doc, changes, q, rows, r, s, ids, o);
      if Hides(doc, q, o, s) {
        PickNone(doc, changes, {});
      } else {
        var c :| PutsAside(doc, changes, q, o, s, c) && Choice(doc, changes, q, r, s, ids, o) == {c.id};
        PickOne(doc, changes, c);
      }
    }
    var after := PickCollection(doc, changes, glued, q, rows);
    AliasRead(Pick(doc, changes, glued), q, after, r, s, rest, x);
  }

  // Some selection makes the alias read something exactly if the rows can be brought to it one by one.
  lemma {:induction false} ExposedByRows(doc: Json, changes: seq<Change>, q: Path, rows: seq<Json>, s: string,
          rest: Path)
    requires Entered(doc, changes, q, rows) && UniqueIds(changes) && IsRowSegment(s) && SegmentKey(s) in REFS
    ensures (exists ids :: ReadAt(Pick(doc, changes, ids), q + ([s] + rest)).Some?) <==>
      RowsExpose(doc, changes, q, s, rest)
  {
    if ids :| ReadAt(Pick(doc, changes, ids), q + ([s] + rest)).Some? {
      var picked := Pick(doc, changes, ids);
      var x := ReadAt(picked, q + ([s] + rest)).value;
      var after := PickCollection(doc, changes, ids, q, rows);
      var r := AliasFound(picked, q, after, s, rest, x);
      forall o | NamesRow(q, o) && o != r
        ensures CanHide(doc, changes, q, o, s)
      {
        HideBySingle(doc, changes, q, rows, o, s, ids);
      }
      assert CanShow(doc, changes, q, r, s, rest);
    }
    if RowsExpose(doc, changes, q, s, rest) {
      var r :| NamesRow(q, r) && CanShow(doc, changes, q, r, s, rest) && forall o :: NamesRow(q, o) && o != r ==>
        CanHide(doc, changes, q, o, s);
      var ids, x :| Shows(Pick(doc, changes, ids), q, r, s, rest, x);
      GluedExposes(doc, changes, q, rows, r, s, rest, x, ids);
    }
  }

  // ---- one row, without selections ----

  // The row is there and its ref is the one the segment names.
  ghost predicate Bears(doc: Json, q: Path, r: string, s: string)
    requires IsRowSegment(s)
  {
    Tag(ReadAt(doc, q + [r]), SegmentKey(s)) == Some(Ref(s))
  }

  ghost predicate BearsAndReads(doc: Json, q: Path, r: string, s: string, rest: Path)
    requires IsRowSegment(s)
  {
    Bears(doc, q, r, s) && ReadAt(doc, q + ([r] + rest)).Some?
  }

  ghost predicate WholeRow(changes: seq<Change>, q: Path, r: string) {
    exists c :: c in changes && Parse(c.fieldPath).Ok? && Parts(c) == q + [r]
  }

  // The row's ref is the one the segment names as it is or after one change.
  ghost predicate CanBear(doc: Json, changes: seq<Change>, q: Path, r: string, s: string)
    requires AllSteady(doc, changes) && IsRowSegment(s)
  {
    Bears(doc, q, r, s) || exists c :: c in changes && Bears(Put(doc, c), q, r, s)
  }

  // As CanBear, and the rest of the path reads something below the row then
  ghost predicate CanBearAndRead(doc: Json, changes: seq<Change>, q: Path, r: string, s: string, rest: Path)
    requires AllSteady(doc, changes) && IsRowSegment(s)
  {
    BearsAndReads(doc, q, r, s, rest) || exists c :: c in changes && BearsAndReads(Put(doc, c), q, r, s, rest)
  }

  // The segment names rows of a collection that changes enter.
  ghost predicate Enters(doc: Json, changes: seq<Change>, q: Path, rows: seq<Json>, s: string) {
    Entered(doc, changes, q, rows) && IsRowSegment(s) && SegmentKey(s) in REFS
  }

  // One row can be read through the segment: as a whole with at most one change, or by its ref and
  // by what the path reads below it, which are changed apart from each other.
  ghost predicate RowReads(doc: Json, changes: seq<Change>, q: Path, rows: seq<Json>, r: string, s: string, rest: Path)
    requires Enters(doc, changes, q, rows, s) && NamesRow(q, r)
    decreases 1 + |rest|, 0
  {
    if WholeRow(changes, q, r) then CanBearAndRead(doc, changes, q, r, s, rest)
    else
      && CanBear(doc, changes, q, r, s)
      && (rest == [] ||
          if rest[0] == SegmentKey(s) then |rest| == 1
          else (ThroughReaches(doc, q, rows, r, rest); Readable(doc, changes, q + ([r] + rest))))
  }

  ghost predicate OneRowReads(doc: Json, changes: seq<Change>, q: Path, rows: seq<Json>, s: string, rest: Path)
    requires Enters(doc, changes, q, rows, s)
    decreases 1 + |rest|, 1
  {
    exists r :: NamesRow(q, r) && RowReads(doc, changes, q, rows, r, s, rest)
      && forall o :: NamesRow(q, o) && o != r ==> CanHide(doc, changes, q, o, s)
  }

  // The path enters a collection by another way than its own refs, and is read through one of its rows.
  ghost predicate ReadableByRows(doc: Json, changes: seq<Change>, f: Path)
    requires Settled(doc, changes) && Reach(doc, "", f) < |f|
    decreases |f| - Reach(doc, "", f), 2
  {
    var k := Reach(doc, "", f);
    exists rows ::
      Enters(doc, changes, f[..k], rows, f[k]) && OneRowReads(doc, changes, f[..k], rows, f[k], f[k + 1..])
  }

  // The path reads something as it is, or after one change, or through the rows of a collection.
  ghost predicate Readable(doc: Json, changes: seq<Change>, f: Path)
    requires Settled(doc, changes)
    decreases |f| - Reach(doc, "", f), 3
  {
    || ReadAt(doc, f).Some?
    || (exists c :: c in changes && ReadAt(Put(doc, c), f).Some?)
    || (Reach(doc, "", f) < |f| && ReadableByRows(doc, changes, f))
  }

  // ---- what selections come to at one place ----

  lemma PickOneOrNone(doc: Json, changes: seq<Change>, c: Change, ids: set<nat>)
    requires Settled(doc, changes) && UniqueIds(changes) && c in changes
    ensures Pick(doc, changes, ids * {c.id}) == if c.id in ids then Put(doc, c) else doc
  {
    if c.id in ids {
      assert ids * {c.id} == {c.id};
      PickOne(doc, changes, c);
    } else {
      assert ids * {c.id} == {};
      PickNone(doc, changes, {});
    }
  }

  // At and below a changed path, a selection comes to that change or to none.
  lemma {:induction false} AtChange(doc: Json, changes: seq<Change>, c: Change, f: Path, ids: set<nat>)
    requires Settled(doc, changes) && UniqueIds(changes) && c in changes && Parts(c) <= f
    ensures ReadAt(Pick(doc, changes, ids), f) == ReadAt(if c.id in ids then Put(doc, c) else doc, f)
  {
    var g := Parts(c);
    FitsAligned(doc, "", g);
    forall d | d in changes ensures !(Parts(d) < g) && (Comparable(Parts(d), g) ==> d == c) {
      if d != c { ApartPair(changes, d, c); }
    }
    Local(doc, doc, changes, ids, ids * {c.id}, g);
    PickOneOrNone(doc, changes, c, ids);
    ReadSame(Pick(doc, changes, ids), Pick(doc, changes, ids * {c.id}), g, f);
  }

  lemma {:induction false} AlignedReadable(doc: Json, changes: seq<Change>, f: Path, ids: set<nat>)
    requires Settled(doc, changes) && UniqueIds(changes) && Aligned(doc, "", f)
    requires ReadAt(Pick(doc, changes, ids), f).Some?
    ensures Readable(doc, changes, f)
  {
    if c :| c in changes && Parts(c) <= f {
      AtChange(doc, changes, c, f, ids);
    } else if c :| c in changes && f < Parts(c) {
      ReadAbove(doc, "", Parts(c), c.After(), f);
    } else {
      ApartKeeps(doc, changes, f, ids);
    }
  }

  // The ref that a selection gives the row is its own or that of one change.
  lemma BearsBySingle(doc: Json, changes: seq<Change>, q: Path, rows: seq<Json>, r: string, s: string, ids: set<nat>)
    requires Enters(doc, changes, q, rows, s) && UniqueIds(changes) && NamesRow(q, r)
    requires Bears(Pick(doc, changes, ids), q, r, s)
    ensures CanBear(doc, changes, q, r, s)
  {
    var chosen := Selected(changes, ids);
    SelectedApart(doc, changes, ids);
    PickAll(doc, chosen);
    assert Entered(doc, chosen, q, rows) && UniqueIds(chosen);
    SingleTag(doc, chosen, q, rows, r, SegmentKey(s));
  }

  // The selection that takes `own` at and below a path and `other` elsewhere
  ghost function Joint(changes: seq<Change>, g: Path, own: set<nat>, other: set<nat>): set<nat> {
    set c | c in changes && c.id in (if Under(c, g) then own else other) :: c.id
  }

  ghost predicate Under(c: Change, g: Path) {
    Parse(c.fieldPath).Ok? && g <= Parts(c)
  }

  lemma JointAt(changes: seq<Change>, g: Path, own: set<nat>, other: set<nat>, c: Change)
    requires UniqueIds(changes) && c in changes
    ensures c.id in Joint(changes, g, own, other) <==> c.id in (if Under(c, g) then own else other)
  {
  }

  lemma FieldsApart(q: Path, r: string, a: string, b: string, p: Path)
    requires a != b && q + [r, a] <= p
    ensures !(q + [r, b] <= p)
  {
    assert (q + [r, a])[|q| + 1] == p[|q| + 1] && (q + [r, b])[|q| + 1] == b;
  }

  // A row's ref field and another field of it are changed apart from each other.
  lemma JointBears(doc: Json, changes: seq<Change>, q: Path, rows: seq<Json>, r: string, s: string, own: set<nat>,
          other: set<nat>)
    requires Enters(doc, changes, q, rows, s) && UniqueIds(changes) && NamesRow(q, r) && !WholeRow(changes, q, r)
    requires Bears(Pick(doc, changes, own), q, r, s)
    ensures Bears(Pick(doc, changes, Joint(changes, q + [r, SegmentKey(s)], own, other)), q, r, s)
  {
    var key := SegmentKey(s);
    var g := q + [r, key];
    var joint := Joint(changes, g, own, other);
    NoneAboveField(doc, changes, q, rows, r, key);
    FieldAligned(doc, "", q, rows, r, key);
    forall c | c in changes && Comparable(Parts(c), g) ensures c.id in joint <==> c.id in own {
      assert !(Parts(c) < g);
      JointAt(changes, g, own, other, c);
    }
    Local(doc, doc, changes, joint, own, g);
    TagBySelection(doc, changes, q, rows, r, key, joint, own);
  }

  lemma {:induction false} JointReads(doc: Json, changes: seq<Change>, q: Path, rows: seq<Json>, r: string, s: string,
          rest: Path, own: set<nat>, other: set<nat>)
    requires Enters(doc, changes, q, rows, s) && UniqueIds(changes) && NamesRow(q, r) && !WholeRow(changes, q, r)
    requires rest != [] && rest[0] != SegmentKey(s)
    ensures ReadAt(Pick(doc, changes, Joint(changes, q + [r, SegmentKey(s)], own, other)), q + ([r] + rest))
      == ReadAt(Pick(doc, changes, other), q + ([r] + rest))
  {
    var g, h := q + [r, SegmentKey(s)], q + [r, rest[0]];
    var joint := Joint(changes, g, own, other);
    NoneAboveField(doc, changes, q, rows, r, rest[0]);
    FieldAligned(doc, "", q, rows, r, rest[0]);
    forall c | c in changes && Comparable(Parts(c), h) ensures c.id in joint <==> c.id in other {
      assert h <= Parts(c);
      FieldsApart(q, r, rest[0], SegmentKey(s), Parts(c));
      JointAt(changes, g, own, other, c);
    }
    Local(doc, doc, changes, joint, other, h);
    assert h <= q + ([r] + rest);
    ReadSame(Pick(doc, changes, joint), Pick(doc, changes, other), h, q + ([r] + rest));
  }

  // ---- the row's condition is exact ----

  lemma ShowsIsRead(doc: Json, q: Path, r: string, s: string, rest: Path)
    requires IsRowSegment(s)
    ensures (exists x :: Shows(doc, q, r, s, rest, x)) <==> BearsAndReads(doc, q, r, s, rest)
  {
    ReadThrough(doc, q, r, rest);
    if BearsAndReads(doc, q, r, s, rest) {
      assert Shows(doc, q, r, s, rest, ReadAt(doc, q + ([r] + rest)).value);
    }
  }

  lemma CanShowIsRead(doc: Json, changes: seq<Change>, q: Path, r: string, s: string, rest: Path)
    requires Settled(doc, changes) && IsRowSegment(s)
    ensures CanShow(doc, changes, q, r, s, rest) <==>
      exists ids :: BearsAndReads(Pick(doc, changes, ids), q, r, s, rest)
  {
    forall ids ensures (exists x :: Shows(Pick(doc, changes, ids), q, r, s, rest, x)) <==>
      BearsAndReads(Pick(doc, changes, ids), q, r, s, rest)
    {
      ShowsIsRead(Pick(doc, changes, ids), q, r, s, rest);
    }
  }

  lemma WholeRowExact(doc: Json, changes: seq<Change>, q: Path, r: string, s: string, rest: Path)
    requires Settled(doc, changes) && UniqueIds(changes) && IsRowSegment(s) && WholeRow(changes, q, r)
    ensures (exists ids :: BearsAndReads(Pick(doc, changes, ids), q, r, s, rest)) <==>
      CanBearAndRead(doc, changes, q, r, s, rest)
  {
    if ids :| BearsAndReads(Pick(doc, changes, ids), q, r, s, rest) {
      var c :| c in changes && Parts(c) == q + [r];
      AtChange(doc, changes, c, q + [r], ids);
      AtChange(doc, changes, c, q + ([r] + rest), ids);
    }
    if BearsAndReads(doc, q, r, s, rest) {
      PickNone(doc, changes, {});
      assert BearsAndReads(Pick(doc, changes, {}), q, r, s, rest);
    }
    if c :| c in changes && BearsAndReads(Put(doc, c), q, r, s, rest) {
      PickOne(doc, changes, c);
      assert BearsAndReads(Pick(doc, changes, {c.id}), q, r, s, rest);
    }
  }

  // Of a row that the segment names, the ref field itself reads a text and nothing is below it.
  lemma {:induction false} RefReads(doc: Json, q: Path, r: string, s: string, rest: Path)
    requires IsRowSegment(s) && Bears(doc, q, r, s) && (rest == [] || rest[0] == SegmentKey(s))
    ensures ReadAt(doc, q + ([r] + rest)).Some? <==> |rest| <= 1
  {
    ReadThrough(doc, q, r, rest);
    var row := ReadAt(doc, q + [r]).value;
    if rest != [] {
      ReadField(row, rest[0]);
      assert rest == [rest[0]] + rest[1..];
      ReadOn(row, [rest[0]], rest[1..]);
    }
  }

  lemma BearsByIds(doc: Json, changes: seq<Change>, q: Path, r: string, s: string) returns (ids: set<nat>)
    requires Settled(doc, changes) && UniqueIds(changes) && IsRowSegment(s) && CanBear(doc, changes, q, r, s)
    ensures Bears(Pick(doc, changes, ids), q, r, s)
  {
    if Bears(doc, q, r, s) {
      PickNone(doc, changes, {});
      ids := {};
    } else {
      var c :| c in changes && Bears(Put(doc, c), q, r, s);
      PickOne(doc, changes, c);
      ids := {c.id};
    }
  }

  // A row can be read through the segment under some selection exactly if it can by its parts.
  lemma {:induction false} RowExact(doc: Json, changes: seq<Change>, q: Path, rows: seq<Json>, r: string, s: string,
          rest: Path)
    requires Enters(doc, changes, q, rows, s) && UniqueIds(changes) && NamesRow(q, r)
    ensures CanShow(doc, changes, q, r, s, rest) <==> RowReads(doc, changes, q, rows, r, s, rest)
    decreases 1 + |rest|, 0
  {
    CanShowIsRead(doc, changes, q, r, s, rest);
    if WholeRow(changes, q, r) {
      WholeRowExact(doc, changes, q, r, s, rest);
    } else if rest == [] || rest[0] == SegmentKey(s) {
      RefRowExact(doc, changes, q, rows, r, s, rest);
    } else {
      ThroughReaches(doc, q, rows, r, rest);
      ReadableExact(doc, changes, q + ([r] + rest));
      PartsExact(doc, changes, q, rows, r, s, rest);
    }
  }

  lemma RefRowExact(doc: Json, changes: seq<Change>, q: Path, rows: seq<Json>, r: string, s: string, rest: Path)
    requires Enters(doc, changes, q, rows, s) && UniqueIds(changes) && NamesRow(q, r)
    requires rest == [] || rest[0] == SegmentKey(s)
    ensures (exists ids :: BearsAndReads(Pick(doc, changes, ids), q, r, s, rest)) <==>
      CanBear(doc, changes, q, r, s) && |rest| <= 1
  {
    if ids :| BearsAndReads(Pick(doc, changes, ids), q, r, s, rest) {
      BearsBySingle(doc, changes, q, rows, r, s, ids);
      RefReads(Pick(doc, changes, ids), q, r, s, rest);
    }
    if CanBear(doc, changes, q, r, s) && |rest| <= 1 {
      var ids := BearsByIds(doc, changes, q, r, s);
      RefReads(Pick(doc, changes, ids), q, r, s, rest);
    }
  }

  lemma {:induction false} PartsExact(doc: Json, changes: seq<Change>, q: Path, rows: seq<Json>, r: string, s: string,
          rest: Path)
    requires Enters(doc, changes, q, rows, s) && UniqueIds(changes) && NamesRow(q, r) && !WholeRow(changes, q, r)
    requires rest != [] && rest[0] != SegmentKey(s)
    ensures (exists ids :: BearsAndReads(Pick(doc, changes, ids), q, r, s, rest)) <==>
      CanBear(doc, changes, q, r, s) && exists ids :: ReadAt(Pick(doc, changes, ids), q + ([r] + rest)).Some?
  {
    if ids :| BearsAndReads(Pick(doc, changes, ids), q, r, s, rest) {
      BearsBySingle(doc, changes, q, rows, r, s, ids);
    }
    if CanBear(doc, changes, q, r, s) {
      if other :| ReadAt(Pick(doc, changes, other), q + ([r] + rest)).Some? {
        var own := BearsByIds(doc, changes, q, r, s);
        JointBears(doc, changes, q, rows, r, s, own, other);
        JointReads(doc, changes, q, rows, r, s, rest, own, other);
        var joint := Joint(changes, q + [r, SegmentKey(s)], own, other);
        assert BearsAndReads(Pick(doc, changes, joint), q, r, s, rest);
      }
    }
  }

  // ---- the path's condition is exact ----

  lemma {:induction false} RowsExact(doc: Json, changes: seq<Change>, q: Path, rows: seq<Json>, s: string, rest: Path)
    requires Enters(doc, changes, q, rows, s) && UniqueIds(changes)
    ensures RowsExpose(doc, changes, q, s, rest) <==> OneRowReads(doc, changes, q, rows, s, rest)
    decreases 1 + |rest|, 1
  {
    forall r | NamesRow(q, r)
      ensures CanShow(doc, changes, q, r, s, rest) <==> RowReads(doc, changes, q, rows, r, s, rest)
    {
      RowExact(doc, changes, q, rows, r, s, rest);
    }
  }

  lemma {:induction false} ByRowsExact(doc: Json, changes: seq<Change>, f: Path, rows: seq<Json>)
    requires Settled(doc, changes) && UniqueIds(changes) && Reach(doc, "", f) < |f|
    requires var k := Reach(doc, "", f); Enters(doc, changes, f[..k], rows, f[k])
    ensures (exists ids :: ReadAt(Pick(doc, changes, ids), f).Some?) <==> ReadableByRows(doc, changes, f)
    decreases |f| - Reach(doc, "", f), 2
  {
    var k := Reach(doc, "", f);
    var q, s, rest := f[..k], f[k], f[k + 1..];
    assert f == q + ([s] + rest);
    RowsExact(doc, changes, q, rows, s, rest);
    ExposedByRows(doc, changes, q, rows, s, rest);
  }

  // Some selection makes the path read something exactly if it is readable.
  lemma {:induction false} ReadableExact(doc: Json, changes: seq<Change>, f: Path)
    requires Settled(doc, changes) && UniqueIds(changes)
    ensures (exists ids :: ReadAt(Pick(doc, changes, ids), f).Some?) <==> Readable(doc, changes, f)
    decreases |f| - Reach(doc, "", f), 4
  {
    if ids :| ReadAt(Pick(doc, changes, ids), f).Some? { BecomesReadable(doc, changes, f, ids); }
    if ReadAt(doc, f).Some? {
      PickNone(doc, changes, {});
      assert ReadAt(Pick(doc, changes, {}), f).Some?;
    } else if c :| c in changes && ReadAt(Put(doc, c), f).Some? {
      PickOne(doc, changes, c);
      assert ReadAt(Pick(doc, changes, {c.id}), f).Some?;
    } else if Reach(doc, "", f) < |f| && ReadableByRows(doc, changes, f) {
      var k := Reach(doc, "", f);
      var rows :| Enters(doc, changes, f[..k], rows, f[k]);
      ByRowsExact(doc, changes, f, rows);
    }
  }

  lemma {:induction false} BecomesReadable(doc: Json, changes: seq<Change>, f: Path, ids: set<nat>)
    requires Settled(doc, changes) && UniqueIds(changes) && ReadAt(Pick(doc, changes, ids), f).Some?
    ensures Readable(doc, changes, f)
    decreases |f| - Reach(doc, "", f), 3
  {
    if c :| c in changes && Parts(c) <= f {
      AtChange(doc, changes, c, f, ids);
    } else if Reach(doc, "", f) == |f| {
      ReachAligned(doc, "", f);
      assert f[..|f|] == f;
      AlignedReadable(doc, changes, f, ids);
    } else if c :| c in changes && f[..Reach(doc, "", f)] < Parts(c) {
      var rows := EntersBy(doc, changes, f, c, ids);
      ByRowsExact(doc, changes, f, rows);
    } else {
      NothingEnters(doc, changes, f, ids);
    }
  }

  // No change is above the path or enters the collection in which it leaves its aligned part.
  lemma {:induction false} NothingEnters(doc: Json, changes: seq<Change>, f: Path, ids: set<nat>)
    requires Settled(doc, changes) && Reach(doc, "", f) < |f|
    requires forall c :: c in changes ==> !(Parts(c) <= f) && !(f[..Reach(doc, "", f)] < Parts(c))
    ensures ReadAt(Pick(doc, changes, ids), f) == ReadAt(doc, f)
  {
    var q := f[..Reach(doc, "", f)];
    ReachAligned(doc, "", f);
    ApartKeeps(doc, changes, q, ids);
    ReadSame(Pick(doc, changes, ids), doc, q, f);
  }

  // Where the path leaves its aligned part it names a row by a ref field, or it reads nothing.
  lemma EntersBy(doc: Json, changes: seq<Change>, f: Path, c: Change, ids: set<nat>) returns (rows: seq<Json>)
    requires Settled(doc, changes) && ReadAt(Pick(doc, changes, ids), f).Some? && Reach(doc, "", f) < |f|
    requires c in changes && f[..Reach(doc, "", f)] < Parts(c) && forall d :: d in changes ==> !(Parts(d) <= f)
    ensures var k := Reach(doc, "", f); Enters(doc, changes, f[..k], rows, f[k])
  {
    var k := Reach(doc, "", f);
    var q, s, rest := f[..k], f[k], f[k + 1..];
    ReachAligned(doc, "", f);
    assert f == q + ([s] + rest);
    rows := EnteredBy(doc, changes, q, c);
    NamesRows(doc, changes, q, rows, s, rest, ids);
  }

  lemma {:induction false} NamesRows(doc: Json, changes: seq<Change>, q: Path, rows: seq<Json>, s: string, rest: Path,
          ids: set<nat>)
    requires Entered(doc, changes, q, rows) && ReadAt(Pick(doc, changes, ids), q + ([s] + rest)).Some?
    ensures IsRowSegment(s) && SegmentKey(s) in REFS
  {
    var after := PickCollection(doc, changes, ids, q, rows);
    if !(IsRowSegment(s) && SegmentKey(s) in REFS) { NoAlias(Pick(doc, changes, ids), q, after, s, rest); }
  }
}
