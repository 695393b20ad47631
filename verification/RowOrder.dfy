/**
 Where the rows of a collection stand after an adoption: the rows of the base come first, in the
 order they had, and rows a proposal adds follow them.
 */
module RowOrder {
  import opened Outcomes
  import opened JsonValues
  import opened Paths
  import opened Patch
  import opened Differences
  import opened RoundTrip
  import opened Proposals
  import opened ProposalLaws
  import opened AdoptionOrder

  // ---- reading further ----

  lemma {:induction false} ReadOn(node: Json, q: Path, r: Path)
    ensures ReadAt(node, q + r) == match ReadAt(node, q) case None => None case Some(v) => ReadAt(v, r)
    decreases q
  {
    if q == [] {
      assert q + r == r;
    } else {
      assert (q + r)[0] == q[0] && (q + r)[1..] == q[1..] + r;
      if Child(node, q[0]).Ok? { ReadOn(Child(node, q[0]).value, q[1..], r); }
    }
  }

  // The name under which a path's last value is held
  ghost function NameAt(name: string, q: Path): string {
    if q == [] then name else q[|q| - 1]
  }

  // The path leads to a collection with these rows, which are told apart by their refs.
  ghost predicate Collection(node: Json, name: string, q: Path, rows: seq<Json>) {
    ReadAt(node, q) == Some(Arr(rows)) && HasKids(Arr(rows), NameAt(name, q))
  }

  ghost function KeyAt(name: string, q: Path): string
    requires CollectionKey(NameAt(name, q)).Some?
  {
    CollectionKey(NameAt(name, q)).value
  }

  lemma {:induction false} RowRead(node: Json, name: string, q: Path, rows: seq<Json>, seg: string)
    requires Collection(node, name, q, rows) && IsRowSegment(seg) && SegmentKey(seg) == KeyAt(name, q)
    ensures forall i :: Match(rows, KeyAt(name, q), seg, i) ==> ReadAt(node, q + [seg]) == Some(rows[i])
    ensures (forall i :: !Match(rows, KeyAt(name, q), seg, i)) ==> ReadAt(node, q + [seg]) == None
  {
    ReadOn(node, q, [seg]);
    var key := KeyAt(name, q);
    assert !AnyBad(rows, key);
    SeeArr(rows, seg);
    ChildIsSee(Arr(rows), seg);
    assert [seg][1..] == [];
    forall i | Match(rows, key, seg, i) ensures Only(rows, key, seg, i) {
      forall j | Match(rows, key, seg, j) ensures j == i { assert RefOf(rows[i], key) == RefOf(rows[j], key); }
    }
  }

  // ---- what one write does to the rows of a collection ----

  ghost predicate SameRefs(rows: seq<Json>, after: seq<Json>, key: string) {
    |after| == |rows| && forall i :: 0 <= i < |rows| ==> RefOf(after[i], key) == RefOf(rows[i], key)
  }

  ghost predicate Appended(rows: seq<Json>, after: seq<Json>, key: string, seg: string) {
    |after| == |rows| + 1 && after[..|rows|] == rows && RefOf(after[|rows|], key) == Ref(seg)
      && forall i :: !Match(rows, key, seg, i)
  }

  ghost predicate RowStep(rows: seq<Json>, after: seq<Json>, key: string, p: Path, q: Path) {
    || SameRefs(rows, after, key)
    || (exists i :: Removal(rows, i, after))
    || (q < p && |p| == |q| + 1 && IsRowSegment(p[|q|]) && SegmentKey(p[|q|]) == key
          && Appended(rows, after, key, p[|q|]))
  }

  lemma {:induction false} WriteHere(rows: seq<Json>, name: string, p: Path, value: Option<Json>)
    requires Clear(Arr(rows), name, p, value)
    ensures WriteAt(Arr(rows), p, value).value.Arr? && HasKids(WriteAt(Arr(rows), p, value).value, name)
    ensures RowStep(rows, WriteAt(Arr(rows), p, value).value.rows, CollectionKey(name).value, p, [])
  {
    var node, key := Arr(rows), CollectionKey(name).value;
    WriteKeepsKids(node, name, p, value);
    SeeArr(rows, p[0]);
    ChildIsSee(node, p[0]);
    if |p| == 1 {
      if value.None? { RemovalOf(rows, Key(node, p[0], false).value.index); }
    } else {
      WriteStep(node, name, p, value);
    }
  }

  lemma CollectionBelow(node: Json, name: string, q: Path, rows: seq<Json>)
    requires q != [] && See(node, q[0]).Present?
    ensures Collection(node, name, q, rows) <==> Collection(See(node, q[0]).value, q[0], q[1..], rows)
    ensures NameAt(name, q) == NameAt(q[0], q[1..])
  {
    ChildIsSee(node, q[0]);
  }

  lemma CollectionBeside(node: Json, changed: Json, name: string, q: Path, rows: seq<Json>)
    requires q != [] && See(changed, q[0]) == See(node, q[0]) && Collection(node, name, q, rows)
    ensures Collection(changed, name, q, rows)
  {
    ChildIsSee(node, q[0]);
    ChildIsSee(changed, q[0]);
  }

  lemma StepBelow(rows: seq<Json>, after: seq<Json>, key: string, p: Path, q: Path)
    requires p != [] && q != [] && p[0] == q[0] && RowStep(rows, after, key, p[1..], q[1..])
    ensures RowStep(rows, after, key, p, q)
  {
    assert p == [p[0]] + p[1..] && q == [q[0]] + q[1..];
    assert q[1..] < p[1..] ==> q < p && p[1..][|q[1..]|] == p[|q|];
  }

  lemma {:induction false} WriteRows(node: Json, name: string, p: Path, value: Option<Json>, q: Path, rows: seq<Json>)
    returns (after: seq<Json>)
    requires Clear(node, name, p, value) && Collection(node, name, q, rows) && !(p <= q) && Aligned(node, name, q)
    ensures Collection(WriteAt(node, p, value).value, name, q, after)
    ensures RowStep(rows, after, KeyAt(name, q), p, q)
    decreases q
  {
    var changed := WriteAt(node, p, value).value;
    if q == [] {
      WriteHere(rows, name, p, value);
      after := changed.rows;
    } else {
      ChildIsSee(node, q[0]);
      ClearSee(node, name, p, value, q[0]);
      if p[0] != q[0] {
        after := rows;
        CollectionBeside(node, changed, name, q, rows);
      } else {
        assert p == [p[0]] + p[1..] && q == [q[0]] + q[1..];
        CollectionBelow(node, name, q, rows);
        after := WriteRows(See(node, q[0]).value, q[0], p[1..], value, q[1..], rows);
        CollectionBelow(changed, name, q, after);
        StepBelow(rows, after, KeyAt(name, q), p, q);
      }
    }
  }

  // ---- order ----

  // The row carries the ref of a base row before row `y`.
  ghost predicate Earlier(base: seq<Json>, key: string, row: Json, y: int) {
    exists x :: 0 <= x < y && x < |base| && RefOf(row, key) == RefOf(base[x], key)
  }

  // Rows that carry a ref of the base stand before all others, in the order of the base.
  ghost predicate InOrder(base: seq<Json>, rows: seq<Json>, key: string) {
    forall i, j, y :: 0 <= i < j < |rows| && 0 <= y < |base| && RefOf(rows[j], key) == RefOf(base[y], key) ==>
      Earlier(base, key, rows[i], y)
  }

  lemma InOrderSelf(rows: seq<Json>, key: string)
    requires Keyed(rows, key)
    ensures InOrder(rows, rows, key)
  {
    forall i, j, y | 0 <= i < j < |rows| && 0 <= y < |rows| && RefOf(rows[j], key) == RefOf(rows[y], key)
      ensures Earlier(rows, key, rows[i], y)
    {
      assert j == y;
    }
  }

  lemma RemovedInOrder(base: seq<Json>, rows: seq<Json>, after: seq<Json>, key: string, k: int)
    requires InOrder(base, rows, key) && Removal(rows, k, after)
    ensures InOrder(base, after, key)
  {
    forall i, j, y | 0 <= i < j < |after| && 0 <= y < |base| && RefOf(after[j], key) == RefOf(base[y], key)
      ensures Earlier(base, key, after[i], y)
    {
      assert after[i] == rows[Up(i, k)] && after[j] == rows[Up(j, k)];
    }
  }

  lemma AppendedInOrder(base: seq<Json>, rows: seq<Json>, after: seq<Json>, key: string, seg: string)
    requires InOrder(base, rows, key) && Appended(rows, after, key, seg) && forall y :: !Match(base, key, seg, y)
    ensures InOrder(base, after, key)
  {
    forall i, j, y | 0 <= i < j < |after| && 0 <= y < |base| && RefOf(after[j], key) == RefOf(base[y], key)
      ensures Earlier(base, key, after[i], y)
    {
      assert j == |rows| ==> Match(base, key, seg, y);
      assert after[i] == after[..|rows|][i] && after[j] == after[..|rows|][j];
    }
  }

  // ---- sequences of writes ----

  // A row that a change appends has a ref the base has not.
  lemma AppendsNew(original: Json, payload: Json, c: Change, q: Path, base: seq<Json>, rows: seq<Json>,
          after: seq<Json>)
    requires Steady(original, c) && Steady(payload, c) && q < Parts(c) && |Parts(c)| == |q| + 1
    requires Collection(original, "", q, base) && Collection(payload, "", q, rows)
    requires IsRowSegment(Parts(c)[|q|]) && SegmentKey(Parts(c)[|q|]) == KeyAt("", q)
    requires Appended(rows, after, KeyAt("", q), Parts(c)[|q|])
    ensures forall y :: !Match(base, KeyAt("", q), Parts(c)[|q|], y)
  {
    var seg := Parts(c)[|q|];
    assert Parts(c) == q + [seg];
    RowRead(payload, "", q, rows, seg);
    RowRead(original, "", q, base, seg);
  }

  lemma PutInOrder(original: Json, payload: Json, c: Change, q: Path, base: seq<Json>, rows: seq<Json>)
    returns (after: seq<Json>)
    requires Steady(original, c) && Steady(payload, c) && !(Parts(c) <= q) && Aligned(payload, "", q)
    requires Collection(original, "", q, base) && Collection(payload, "", q, rows) && InOrder(base, rows, KeyAt("", q))
    ensures Aligned(Put(payload, c), "", q) && Collection(Put(payload, c), "", q, after)
      && InOrder(base, after, KeyAt("", q))
  {
    var p, key := Parts(c), KeyAt("", q);
    PathSurvives(payload, "", p, c.After(), q);
    after := WriteRows(payload, "", p, c.After(), q, rows);
    if SameRefs(rows, after, key) {
    } else if k :| Removal(rows, k, after) {
      RemovedInOrder(base, rows, after, key, k);
    } else {
      assert RowStep(rows, after, key, p, q);
      assert q < p && |p| == |q| + 1;
      AppendsNew(original, payload, c, q, base, rows, after);
      AppendedInOrder(base, rows, after, key, p[|q|]);
    }
  }

  lemma {:induction false} WritesInOrder(original: Json, payload: Json, changes: seq<Change>, q: Path,
          base: seq<Json>, rows: seq<Json>)
    returns (after: seq<Json>)
    requires AllSteady(original, changes) && AllSteady(payload, changes) && ApartChanges(changes)
      && Aligned(payload, "", q)
    requires forall c :: c in changes ==> !(Parts(c) <= q)
    requires Collection(original, "", q, base) && Collection(payload, "", q, rows) && InOrder(base, rows, KeyAt("", q))
    ensures WriteAll(payload, changes).Ok? && Collection(WriteAll(payload, changes).value, "", q, after)
    ensures InOrder(base, after, KeyAt("", q))
    decreases |changes|
  {
    after := rows;
    if changes != [] {
      assert changes[0] in changes && forall c :: c in changes[1..] ==> c in changes;
      after := PutInOrder(original, payload, changes[0], q, base, rows);
      SteadyTail(payload, changes);
      after := WritesInOrder(original, Put(payload, changes[0]), changes[1..], q, base, after);
    }
  }

  // Whatever selection of a prepared proposal is adopted, in whatever order: in every collection of
  // the base that no selected change replaces as a whole, the rows of the base that stay are first
  // and in the order they had, so that orders of adoption differ in the place of new rows only.
  lemma {:induction false} BaseRowsComeFirst(base: Draft, gs: seq<Generated>, findings: seq<Finding>, checkOnly: bool,
          concretize: bool, validate: Json -> Option<Draft>, order: seq<Change>, ids: set<nat>, q: Path,
            rows: seq<Json>)
    requires Prepare(base, gs, findings, checkOnly, concretize, validate).Ok?
    requires multiset(order) == multiset(Prepare(base, gs, findings, checkOnly, concretize, validate).value.0.changes)
    requires Aligned(Dump(base), "", q) && Collection(Dump(base), "", q, rows)
    requires forall c :: c in order && c.id in ids && Parse(c.fieldPath).Ok? ==> !(Parse(c.fieldPath).value <= q)
    ensures Policies(Dump(base), base.policies, map[]).Ok?
    ensures var result := AdoptLoop(base, Policies(Dump(base), base.policies, map[]).value, Dump(base), order, ids);
      result.Ok? && exists after :: Collection(result.value, "", q, after) && InOrder(rows, after, KeyAt("", q))
  {
    var changes := Prepare(base, gs, findings, checkOnly, concretize, validate).value.0.changes;
    PreparedBuilt(base, gs, findings, checkOnly, concretize, validate);
    var candidate :| Prepared(base, changes, candidate);
    var policies := Policies(Dump(base), base.policies, map[]).value;
    SteadyAtBase(base, changes, candidate);
    assert Rearranged(changes, order);
    RearrangedSteady(Dump(base), changes, order);
    RearrangedApart(changes, order);
    AdoptIsWrite(base, policies, Dump(base), order, ids);
    SelectedApart(Dump(base), order, ids);
    InOrderSelf(rows, KeyAt("", q));
    var after := WritesInOrder(Dump(base), Dump(base), Selected(order, ids), q, rows, rows);
  }
}
