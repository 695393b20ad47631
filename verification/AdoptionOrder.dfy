/**
 The order in which the changes of a proposal are written does not matter: any order of any
 selection gives the same draft up to the position of newly appended rows.
 */
module AdoptionOrder {
  import opened Outcomes
  import opened JsonValues
  import opened Paths
  import opened Patch
  import opened Differences
  import opened RoundTrip
  import opened Proposals
  import opened ProposalLaws

  // ---- sameness by views ----

  lemma {:induction false} SameOn(name: string, a: Json, b: Json, c: Json)
    requires Same(name, a, b) && Same(name, b, c)
    ensures Same(name, a, c)
    decreases a
  {
    if a != b && b != c {
      forall s | s in Kids(a, name) ensures Same(s, Kids(a, name)[s], Kids(c, name)[s]) {
        SameOn(s, Kids(a, name)[s], Kids(b, name)[s], Kids(c, name)[s]);
      }
    }
  }

  lemma {:induction false} SameKids(name: string, a: Json, b: Json, seg: string)
    requires Same(name, a, b) && HasKids(a, name) && NamesKid(a, name, seg)
    ensures SameKind(a, b) && HasKids(b, name) && SameView(seg, See(a, seg), See(b, seg))
  {
    KidsSee(a, name, seg);
    if a != b { KidsSee(b, name, seg); }
  }

  lemma {:induction false} SameBySees(name: string, a: Json, b: Json)
    requires SameKind(a, b) && HasKids(a, name) && HasKids(b, name)
    requires forall s :: NamesKid(a, name, s) ==> SameView(s, See(a, s), See(b, s))
    ensures Same(name, a, b)
  {
    forall s | s in Kids(a, name) || s in Kids(b, name)
      ensures s in Kids(a, name) && s in Kids(b, name) && Same(s, Kids(a, name)[s], Kids(b, name)[s])
    {
      if s in Kids(a, name) { KidsSee(a, name, s); } else { KidsSee(b, name, s); }
      KidsSee(a, name, s);
      KidsSee(b, name, s);
    }
  }

  // ---- two writes ----

  // A path that can be written below keyed collections
  ghost predicate Clear(node: Json, name: string, p: Path, value: Option<Json>) {
    p != [] && Fits(node, name, p) && KeyedAlong(node, name, p) && WriteAt(node, p, value).Ok?
  }

  lemma {:induction false} ClearKept(node: Json, name: string, p: Path, value: Option<Json>, q: Path,
          later: Option<Json>)
    requires Clear(node, name, p, value) && Clear(node, name, q, later) && !Comparable(p, q)
    ensures Clear(WriteAt(node, p, value).value, name, q, later)
  {
    FitsAligned(node, name, q);
    Frame(node, name, p, value, q, later);
    KeyedFrame(node, name, p, value, q);
  }

  // What a write makes of the child it enters
  ghost function KidAfter(node: Json, p: Path, value: Option<Json>): View
    requires p != [] && (|p| >= 2 ==> See(node, p[0]).Present? && WriteAt(See(node, p[0]).value, p[1..], value).Ok?)
  {
    if |p| >= 2 then Present(WriteAt(See(node, p[0]).value, p[1..], value).value)
    else if value.Some? then Present(value.value) else Absent
  }

  lemma {:induction false} ClearSee(node: Json, name: string, p: Path, value: Option<Json>, s: string)
    requires Clear(node, name, p, value) && NamesKid(node, name, s)
    ensures |p| >= 2 ==> See(node, p[0]).Present? && Clear(See(node, p[0]).value, p[0], p[1..], value)
    ensures SameKind(node, WriteAt(node, p, value).value) && HasKids(WriteAt(node, p, value).value, name)
    ensures See(WriteAt(node, p, value).value, s) == if s == p[0] then KidAfter(node, p, value) else See(node, s)
  {
    WriteKeepsKids(node, name, p, value);
    WriteSee(node, name, p, value, s);
    WriteSee(node, name, p, value, p[0]);
  }

  lemma ApartTails(p: Path, q: Path)
    requires p != [] && q != [] && !Comparable(p, q) && p[0] == q[0]
    ensures |p| >= 2 && |q| >= 2 && !Comparable(p[1..], q[1..])
  {
    assert p == [p[0]] + p[1..] && q == [q[0]] + q[1..];
  }

  // One child after two writes, the second of which is given last
  lemma {:induction false} TwoSee(node: Json, name: string, p: Path, v: Option<Json>, q: Path, w: Option<Json>,
          s: string)
    requires Clear(node, name, p, v) && Clear(node, name, q, w) && !Comparable(p, q) && NamesKid(node, name, s)
    ensures Clear(WriteAt(node, p, v).value, name, q, w)
    ensures var after := WriteAt(WriteAt(node, p, v).value, q, w).value;
      && SameKind(node, after) && HasKids(after, name)
      && (s != p[0] && s != q[0] ==> See(after, s) == See(node, s))
      && (p[0] != q[0] && s == p[0] ==> See(after, s) == KidAfter(node, p, v))
      && (p[0] != q[0] && s == q[0] ==> See(after, s) == KidAfter(node, q, w))
      && (p[0] == q[0] && s == p[0] ==>
            && |p| >= 2 && |q| >= 2 && See(node, p[0]).Present?
            && Clear(See(node, p[0]).value, p[0], p[1..], v)
              && Clear(WriteAt(See(node, p[0]).value, p[1..], v).value, p[0], q[1..], w)
            && See(after, s) == Present(WriteAt(WriteAt(See(node, p[0]).value, p[1..], v).value, q[1..], w).value))
  {
    ClearKept(node, name, p, v, q, w);
    var first := WriteAt(node, p, v).value;
    ClearSee(node, name, p, v, s);
    ClearSee(node, name, p, v, q[0]);
    ClearSee(node, name, q, w, s);
    ClearSee(first, name, q, w, s);
    if p[0] == q[0] { ApartTails(p, q); }
  }

  // Two writes that do not bear on each other can be exchanged.
  lemma {:induction false} Exchange(node: Json, name: string, p: Path, v: Option<Json>, q: Path, w: Option<Json>)
    requires Clear(node, name, p, v) && Clear(node, name, q, w) && !Comparable(p, q)
    ensures Clear(WriteAt(node, p, v).value, name, q, w) && Clear(WriteAt(node, q, w).value, name, p, v)
    ensures Same(name, WriteAt(WriteAt(node, p, v).value, q, w).value, WriteAt(WriteAt(node, q, w).value, p, v).value)
    decreases p
  {
    TwoSee(node, name, p, v, q, w, p[0]);
    TwoSee(node, name, q, w, p, v, p[0]);
    var a, b := WriteAt(WriteAt(node, p, v).value, q, w).value, WriteAt(WriteAt(node, q, w).value, p, v).value;
    if p[0] == q[0] {
      ApartTails(p, q);
      Exchange(See(node, p[0]).value, p[0], p[1..], v, q[1..], w);
    }
    forall s | NamesKid(node, name, s) ensures SameView(s, See(a, s), See(b, s)) {
      TwoSee(node, name, p, v, q, w, s);
      TwoSee(node, name, q, w, p, v, s);
    }
    SameBySees(name, a, b);
  }

  // The same write made to the same value gives the same value.
  lemma {:induction false} Congruence(a: Json, b: Json, name: string, p: Path, v: Option<Json>)
    requires Same(name, a, b) && Clear(a, name, p, v) && Clear(b, name, p, v)
    ensures Same(name, WriteAt(a, p, v).value, WriteAt(b, p, v).value)
    decreases p
  {
    WriteKeepsKids(a, name, p, v);
    WriteKeepsKids(b, name, p, v);
    SameKids(name, a, b, p[0]);
    WriteSee(a, name, p, v, p[0]);
    WriteSee(b, name, p, v, p[0]);
    if |p| >= 2 { Congruence(See(a, p[0]).value, See(b, p[0]).value, p[0], p[1..], v); }
    forall s | NamesKid(a, name, s)
      ensures SameView(s, See(WriteAt(a, p, v).value, s), See(WriteAt(b, p, v).value, s))
    {
      SameKids(name, a, b, s);
      WriteSee(a, name, p, v, s);
      WriteSee(b, name, p, v, s);
    }
    SameBySees(name, WriteAt(a, p, v).value, WriteAt(b, p, v).value);
  }

  // ---- a collection with a row that carries no ref ----

  function Scene(ref: string): Json {
    Obj(map["scene_ref" := Str(ref)])
  }

  const UNNAMED := Obj(map[])

  lemma AppendScene(rows: seq<Json>, ref: string)
    requires ValidRef(ref) && forall i :: 0 <= i < |rows| ==>
      rows[i] == UNNAMED || exists other :: other != ref && ValidRef(other) && rows[i] == Scene(other)
    ensures Fits(Arr(rows), "scenes", [RowSegment("scene_ref", ref)])
    ensures WriteAt(Arr(rows), [RowSegment("scene_ref", ref)], Some(Scene(ref))) == Ok(Arr(rows + [Scene(ref)]))
  {
    var seg, key := RowSegment("scene_ref", ref), "scene_ref";
    RowSegmentKey(key, ref);
    assert !AnyBad(rows, key);
    forall i ensures !Match(rows, key, seg, i) {
      if 0 <= i < |rows| && rows[i] != UNNAMED {
        var other :| other != ref && ValidRef(other) && rows[i] == Scene(other);
        var n := 2 + |key|;
        assert RowSegment(key, other)[n..] == other && seg[n..] == ref;
      }
    }
    SeeArr(rows, seg);
  }

  // Without that row's ref the rows are compared by position, so there the order of two appends
  // shows; no expansion enters such a collection.
  lemma UnkeyedOrderMatters(a: string, b: string)
    requires ValidRef(a) && ValidRef(b) && a != b
    ensures
      var rows, p, q := [UNNAMED], [RowSegment("scene_ref", a)], [RowSegment("scene_ref", b)];
      var ab, ba := Arr(rows + [Scene(a)] + [Scene(b)]), Arr(rows + [Scene(b)] + [Scene(a)]);
      && WriteAt(Arr(rows), p, Some(Scene(a))).Ok?
        && WriteAt(WriteAt(Arr(rows), p, Some(Scene(a))).value, q, Some(Scene(b))) == Ok(ab)
      && WriteAt(Arr(rows), q, Some(Scene(b))).Ok?
        && WriteAt(WriteAt(Arr(rows), q, Some(Scene(b))).value, p, Some(Scene(a))) == Ok(ba)
      && !Same("scenes", ab, ba)
  {
    var rows := [UNNAMED];
    AppendScene(rows, a);
    AppendScene(rows, b);
    AppendScene(rows + [Scene(a)], b);
    AppendScene(rows + [Scene(b)], a);
    var ab, ba := rows + [Scene(a)] + [Scene(b)], rows + [Scene(b)] + [Scene(a)];
    assert ab[1] == Scene(a) && ba[1] == Scene(b) && Scene(a).fields["scene_ref"] != Scene(b).fields["scene_ref"];
    assert !AllRefs(ab, "scene_ref") by { assert ab[0] == UNNAMED; }
  }

  // ---- sequences of writes ----

  ghost predicate AllSteady(payload: Json, changes: seq<Change>) {
    forall c :: c in changes ==> Steady(payload, c)
  }

  ghost function Put(payload: Json, c: Change): Json
    requires Steady(payload, c)
  {
    WriteAt(payload, Parts(c), c.After()).value
  }

  // The payload after writing the changes in their order
  ghost function WriteAll(payload: Json, changes: seq<Change>): Result<Json>
    decreases |changes|
  {
    if changes == [] then Ok(payload)
    else
      var next :- WriteText(payload, changes[0].fieldPath, changes[0].After());
      WriteAll(next, changes[1..])
  }

  lemma SteadyKept(payload: Json, c: Change, d: Change)
    requires Steady(payload, c) && Steady(payload, d) && !Comparable(Parts(c), Parts(d))
    ensures Steady(Put(payload, c), d)
  {
    FitsAligned(payload, "", Parts(d));
    Frame(payload, "", Parts(c), c.After(), Parts(d), d.After());
    KeyedFrame(payload, "", Parts(c), c.After(), Parts(d));
  }

  lemma {:induction false} SteadyTail(payload: Json, changes: seq<Change>)
    requires changes != [] && AllSteady(payload, changes) && ApartChanges(changes)
    ensures Steady(payload, changes[0]) && AllSteady(Put(payload, changes[0]), changes[1..])
      && ApartChanges(changes[1..])
    ensures WriteAll(payload, changes) == WriteAll(Put(payload, changes[0]), changes[1..])
  {
    var rest := changes[1..];
    assert changes[0] in changes && forall i :: 0 <= i < |rest| ==> rest[i] == changes[i + 1] && rest[i] in changes;
    forall c | c in rest ensures Steady(Put(payload, changes[0]), c) {
      var i :| 0 <= i < |rest| && rest[i] == c;
      assert !Comparable(Parts(changes[0]), Parts(changes[i + 1]));
      SteadyKept(payload, changes[0], c);
    }
  }

  lemma {:induction false} WritesSucceed(payload: Json, changes: seq<Change>)
    requires AllSteady(payload, changes) && ApartChanges(changes)
    ensures WriteAll(payload, changes).Ok?
    decreases |changes|
  {
    if changes != [] {
      SteadyTail(payload, changes);
      WritesSucceed(Put(payload, changes[0]), changes[1..]);
    }
  }

  // The same changes written to the same payload give the same payload.
  lemma {:induction false} SameWrites(a: Json, b: Json, changes: seq<Change>)
    requires Same("", a, b) && AllSteady(a, changes) && AllSteady(b, changes) && ApartChanges(changes)
    ensures WriteAll(a, changes).Ok? && WriteAll(b, changes).Ok?
      && Same("", WriteAll(a, changes).value, WriteAll(b, changes).value)
    decreases |changes|
  {
    if changes != [] {
      var c := changes[0];
      SteadyTail(a, changes);
      SteadyTail(b, changes);
      Congruence(a, b, "", Parts(c), c.After());
      SameWrites(Put(a, c), Put(b, c), changes[1..]);
    }
  }

  ghost predicate Rearranged(a: seq<Change>, b: seq<Change>) {
    multiset(a) == multiset(b)
  }

  // A sequence repeats nothing exactly when its multiset counts nothing twice.
  lemma {:induction false} CountedOnce<T>(s: seq<T>)
    ensures (forall i, j :: 0 <= i < j < |s| ==> s[i] != s[j]) <==> forall x :: multiset(s)[x] <= 1
  {
    if s != [] {
      var init, last := s[..|s| - 1], s[|s| - 1];
      CountedOnce(init);
      assert s == init + [last];
      assert forall x :: multiset(s)[x] == multiset(init)[x] + (if x == last then 1 else 0);
      assert last in init <==> multiset(init)[last] >= 1;
      if i, j :| 0 <= i < j < |s| && s[i] == s[j] {
        assert j < |init| ==> init[i] == init[j];
        assert j == |init| ==> init[i] == last;
      }
      if last in init {
        var k :| 0 <= k < |init| && init[k] == last;
        assert s[k] == s[|s| - 1];
      }
      if i, j :| 0 <= i < j < |init| && init[i] == init[j] { assert s[i] == s[j]; }
    }
  }

  // What being apart says of the changes, wherever they stand
  lemma ApartPair(changes: seq<Change>, c: Change, d: Change)
    requires ApartChanges(changes) && c in changes && d in changes && c != d
    ensures !Comparable(Parts(c), Parts(d))
  {
    var k :| 0 <= k < |changes| && changes[k] == c;
    var l :| 0 <= l < |changes| && changes[l] == d;
    if k < l {
      assert !Comparable(Parts(changes[k]), Parts(changes[l]));
    } else {
      assert !Comparable(Parts(changes[l]), Parts(changes[k]));
    }
  }

  lemma ApartOnce(changes: seq<Change>)
    requires ApartChanges(changes)
    ensures forall c :: multiset(changes)[c] <= 1
  {
    CountedOnce(changes);
    assert forall i, j :: 0 <= i < j < |changes| ==> !Comparable(Parts(changes[i]), Parts(changes[j]));
  }

  lemma RearrangedApart(a: seq<Change>, b: seq<Change>)
    requires Rearranged(a, b) && ApartChanges(a)
    ensures ApartChanges(b) && forall c :: c in a <==> c in b
  {
    assert forall c :: c in a <==> c in multiset(a);
    assert forall c :: c in b <==> c in multiset(b);
    ApartOnce(a);
    CountedOnce(b);
    forall i, j | 0 <= i < j < |b| ensures !Comparable(Parts(b[i]), Parts(b[j])) { ApartPair(a, b[i], b[j]); }
  }

  lemma RearrangedSteady(payload: Json, a: seq<Change>, b: seq<Change>)
    requires Rearranged(a, b) && AllSteady(payload, a) && ApartChanges(a)
    ensures AllSteady(payload, b) && ApartChanges(b)
  {
    RearrangedApart(a, b);
  }

  // The first two of the changes are exchanged.
  lemma {:induction false} ExchangeFirst(payload: Json, d: Change, c: Change, more: seq<Change>)
    requires AllSteady(payload, [d, c] + more) && ApartChanges([d, c] + more)
    ensures AllSteady(payload, [c, d] + more) && ApartChanges([c, d] + more)
    ensures WriteAll(payload, [d, c] + more).Ok? && WriteAll(payload, [c, d] + more).Ok?
    ensures Same("", WriteAll(payload, [d, c] + more).value, WriteAll(payload, [c, d] + more).value)
  {
    var given, front := [d, c] + more, [c, d] + more;
    assert Rearranged(given, front);
    RearrangedSteady(payload, given, front);
    assert given[0] == d && given[1..] == [c] + more && ([c] + more)[0] == c && ([c] + more)[1..] == more;
    assert front[0] == c && front[1..] == [d] + more && ([d] + more)[0] == d && ([d] + more)[1..] == more;
    SteadyTail(payload, given);
    SteadyTail(Put(payload, d), [c] + more);
    SteadyTail(payload, front);
    SteadyTail(Put(payload, c), [d] + more);
    assert !Comparable(Parts(given[0]), Parts(given[1]));
    Exchange(payload, "", Parts(d), d.After(), Parts(c), c.After());
    SameWrites(Put(Put(payload, d), c), Put(Put(payload, c), d), more);
  }

  ghost function Front(changes: seq<Change>, i: nat): seq<Change>
    requires i < |changes|
  {
    [changes[i]] + changes[..i] + changes[i + 1..]
  }

  lemma FrontShape(changes: seq<Change>, i: nat)
    requires 0 < i < |changes|
    ensures [changes[0]] + Front(changes[1..], i - 1) == [changes[0], changes[i]] + (changes[1..i] + changes[i + 1..])
    ensures Front(changes, i) == [changes[i], changes[0]] + (changes[1..i] + changes[i + 1..])
  {
    assert changes[1..][i - 1] == changes[i] && changes[1..][..i - 1] == changes[1..i]
      && changes[1..][i..] == changes[i + 1..];
    assert changes[..i] == [changes[0]] + changes[1..i];
  }

  lemma FrontRearranged(changes: seq<Change>, i: nat)
    requires i < |changes|
    ensures Rearranged(changes, Front(changes, i))
  {
    assert changes == changes[..i] + [changes[i]] + changes[i + 1..];
  }

  lemma SecondRearranged(changes: seq<Change>, i: nat)
    requires 0 < i < |changes|
    ensures Rearranged(changes, [changes[0]] + Front(changes[1..], i - 1))
  {
    FrontRearranged(changes[1..], i - 1);
    assert changes == [changes[0]] + changes[1..];
  }

  // The change moved to the second place is exchanged with the first.
  lemma {:induction false} FrontBySecond(payload: Json, changes: seq<Change>, i: nat)
    requires 0 < i < |changes| && AllSteady(payload, changes) && ApartChanges(changes)
    ensures var second := [changes[0]] + Front(changes[1..], i - 1);
      && AllSteady(payload, second) && ApartChanges(second)
      && WriteAll(payload, second).Ok? && WriteAll(payload, Front(changes, i)).Ok?
      && Same("", WriteAll(payload, second).value, WriteAll(payload, Front(changes, i)).value)
  {
    SecondRearranged(changes, i);
    RearrangedSteady(payload, changes, [changes[0]] + Front(changes[1..], i - 1));
    FrontShape(changes, i);
    ExchangeFirst(payload, changes[0], changes[i], changes[1..i] + changes[i + 1..]);
  }

  // A change can be moved before the changes written ahead of it.
  lemma {:induction false} MoveToFront(payload: Json, changes: seq<Change>, i: nat)
    requires i < |changes| && AllSteady(payload, changes) && ApartChanges(changes)
    ensures WriteAll(payload, changes).Ok? && WriteAll(payload, Front(changes, i)).Ok?
    ensures Same("", WriteAll(payload, changes).value, WriteAll(payload, Front(changes, i)).value)
    decreases i
  {
    WritesSucceed(payload, changes);
    if i == 0 {
      assert Front(changes, i) == changes;
    } else {
      var d, rest := changes[0], Front(changes[1..], i - 1);
      SteadyTail(payload, changes);
      MoveToFront(Put(payload, d), changes[1..], i - 1);
      FrontBySecond(payload, changes, i);
      assert ([d] + rest)[0] == d && ([d] + rest)[1..] == rest;
      SteadyTail(payload, [d] + rest);
      SameOn("", WriteAll(payload, changes).value, WriteAll(payload, [d] + rest).value,
          WriteAll(payload, Front(changes, i)).value);
    }
  }

  lemma SameRest<T>(x: T, a: seq<T>, b: seq<T>)
    requires multiset([x] + a) == multiset([x] + b)
    ensures multiset(a) == multiset(b)
  {
    assert multiset(a) == multiset([x] + a) - multiset{x};
    assert multiset(b) == multiset([x] + b) - multiset{x};
  }

  // What is left once the first change of one order is taken out of the other
  lemma RearrangedRest(a: seq<Change>, b: seq<Change>, i: nat)
    requires Rearranged(a, b) && i < |a| && b != [] && a[i] == b[0]
    ensures Rearranged(Front(a, i)[1..], b[1..])
  {
    FrontRearranged(a, i);
    assert Front(a, i) == [b[0]] + Front(a, i)[1..] && b == [b[0]] + b[1..];
    SameRest(b[0], Front(a, i)[1..], b[1..]);
  }

  lemma {:induction false} FrontSteady(payload: Json, a: seq<Change>, i: nat)
    requires i < |a| && AllSteady(payload, a) && ApartChanges(a)
    ensures Steady(payload, a[i]) && AllSteady(Put(payload, a[i]), Front(a, i)[1..]) && ApartChanges(Front(a, i)[1..])
    ensures WriteAll(payload, Front(a, i)) == WriteAll(Put(payload, a[i]), Front(a, i)[1..])
  {
    FrontRearranged(a, i);
    RearrangedSteady(payload, a, Front(a, i));
    SteadyTail(payload, Front(a, i));
  }

  lemma TakeFirst(payload: Json, a: seq<Change>, b: seq<Change>) returns (i: nat)
    requires AllSteady(payload, a) && ApartChanges(a) && Rearranged(a, b) && b != []
    ensures i < |a| && a[i] == b[0] && Rearranged(Front(a, i)[1..], b[1..])
    ensures Steady(payload, b[0]) && AllSteady(Put(payload, b[0]), Front(a, i)[1..]) && ApartChanges(Front(a, i)[1..])
    ensures WriteAll(payload, Front(a, i)) == WriteAll(Put(payload, b[0]), Front(a, i)[1..])
    ensures WriteAll(payload, b) == WriteAll(Put(payload, b[0]), b[1..])
    ensures WriteAll(payload, a).Ok? && WriteAll(payload, Front(a, i)).Ok?
    ensures Same("", WriteAll(payload, a).value, WriteAll(payload, Front(a, i)).value)
  {
    RearrangedApart(a, b);
    assert b[0] in b;
    i :| 0 <= i < |a| && a[i] == b[0];
    RearrangedRest(a, b, i);
    FrontSteady(payload, a, i);
    RearrangedSteady(payload, a, b);
    SteadyTail(payload, b);
    MoveToFront(payload, a, i);
  }

  // Any order of writing changes that are ready and do not overlap succeeds, and all orders give
  // the same payload up to the order of rows in keyed collections.
  lemma {:induction false} AnyOrderSame(payload: Json, a: seq<Change>, b: seq<Change>)
    requires AllSteady(payload, a) && ApartChanges(a) && Rearranged(a, b)
    ensures WriteAll(payload, a).Ok? && WriteAll(payload, b).Ok?
      && Same("", WriteAll(payload, a).value, WriteAll(payload, b).value)
    decreases |b|
  {
    if b == [] {
      assert |multiset(a)| == |a| && a == [];
    } else {
      var i := TakeFirst(payload, a, b);
      AnyOrderSame(Put(payload, b[0]), Front(a, i)[1..], b[1..]);
      SameOn("", WriteAll(payload, a).value, WriteAll(payload, Front(a, i)).value, WriteAll(payload, b).value);
    }
  }

  // ---- proposals ----

  // Every change of a prepared proposal lies below keyed collections of the base.
  lemma {:induction false} SteadyBefore(original: Json, changes: seq<Change>, i: nat, j: nat)
    requires i <= j < |changes| && Linked(original, changes) && ApartChanges(changes)
    ensures Written(original, changes[..i]).Ok? && Steady(Written(original, changes[..i]).value, changes[j])
    decreases j - i
  {
    if i < j {
      SteadyBefore(original, changes, i + 1, j);
      ReadyBefore(original, changes, i, j);
      var c, q := changes[i], changes[j];
      assert changes[..i + 1][..i] == changes[..i] && changes[..i + 1][i] == c;
      var payload, next := Written(original, changes[..i]).value, Written(original, changes[..i + 1]).value;
      assert Steady(payload, c) && WriteAt(payload, Parts(c), c.After()) == Ok(next);
      FitsAligned(payload, "", Parts(q));
      KeyedFrame(payload, "", Parts(c), c.After(), Parts(q));
    }
  }

  lemma SteadyAtBase(base: Draft, changes: seq<Change>, candidate: Json)
    requires Prepared(base, changes, candidate)
    ensures ApartChanges(changes) && AllSteady(Dump(base), changes)
  {
    ReadyAtBase(base, changes, candidate);
    forall c | c in changes ensures Steady(Dump(base), c) {
      var j :| 0 <= j < |changes| && changes[j] == c;
      SteadyBefore(Dump(base), changes, 0, j);
      assert changes[..0] == [];
    }
  }

  function Selected(changes: seq<Change>, ids: set<nat>): (r: seq<Change>)
    ensures forall c :: c in r <==> c in changes && c.id in ids
  {
    if changes == [] then []
    else
      assert forall c :: c in changes <==> c == changes[0] || c in changes[1..];
      if changes[0].id in ids then [changes[0]] + Selected(changes[1..], ids) else Selected(changes[1..], ids)
  }

  lemma {:induction false} SelectedCount(changes: seq<Change>, ids: set<nat>, c: Change)
    ensures multiset(Selected(changes, ids))[c] == if c.id in ids then multiset(changes)[c] else 0
  {
    if changes != [] {
      SelectedCount(changes[1..], ids, c);
      assert changes == [changes[0]] + changes[1..];
      assert multiset(changes)[c] == (if c == changes[0] then 1 else 0) + multiset(changes[1..])[c];
    }
  }

  lemma {:induction false} SelectedRearranged(a: seq<Change>, b: seq<Change>, ids: set<nat>)
    requires Rearranged(a, b)
    ensures Rearranged(Selected(a, ids), Selected(b, ids))
  {
    forall c ensures multiset(Selected(a, ids))[c] == multiset(Selected(b, ids))[c] {
      SelectedCount(a, ids, c);
      SelectedCount(b, ids, c);
    }
  }

  // Adopting is writing the selected changes.
  lemma {:induction false} AdoptIsWrite(base: Draft, policies: map<string, Policy>, payload: Json,
          changes: seq<Change>, ids: set<nat>)
    requires AllSteady(payload, changes) && ApartChanges(changes)
    requires forall c :: c in changes ==> Permitted(base, policies, c)
    ensures AdoptLoop(base, policies, payload, changes, ids) == WriteAll(payload, Selected(changes, ids))
    decreases |changes|
  {
    if changes != [] {
      var c, rest := changes[0], changes[1..];
      assert c in changes && forall d :: d in rest ==> d in changes;
      SteadyTail(payload, changes);
      if c.id in ids {
        AdoptReady(base, policies, payload, c);
        AdoptIsWrite(base, policies, Put(payload, c), rest, ids);
        assert Selected(changes, ids)[1..] == Selected(rest, ids);
      } else {
        AdoptIsWrite(base, policies, payload, rest, ids);
      }
    }
  }

  lemma {:induction false} SelectedApart(payload: Json, changes: seq<Change>, ids: set<nat>)
    requires AllSteady(payload, changes) && ApartChanges(changes)
    ensures AllSteady(payload, Selected(changes, ids)) && ApartChanges(Selected(changes, ids))
  {
    var chosen := Selected(changes, ids);
    ApartOnce(changes);
    forall c ensures multiset(chosen)[c] <= 1 { SelectedCount(changes, ids, c); }
    CountedOnce(chosen);
    forall i, j | 0 <= i < j < |chosen| ensures !Comparable(Parts(chosen[i]), Parts(chosen[j])) {
      ApartPair(changes, chosen[i], chosen[j]);
    }
  }

  // Whatever order the changes of a prepared proposal are adopted in, every selection of them goes
  // through without a conflict and leads to the same draft up to the order of collection rows.
  lemma {:induction false} AdoptionOrderIsFree(base: Draft, gs: seq<Generated>, findings: seq<Finding>,
          checkOnly: bool, concretize: bool, validate: Json -> Option<Draft>, order: seq<Change>, ids: set<nat>)
    requires Prepare(base, gs, findings, checkOnly, concretize, validate).Ok?
    requires multiset(order) == multiset(Prepare(base, gs, findings, checkOnly, concretize, validate).value.0.changes)
    ensures Policies(Dump(base), base.policies, map[]).Ok?
    ensures var changes := Prepare(base, gs, findings, checkOnly, concretize, validate).value.0.changes;
      var policies := Policies(Dump(base), base.policies, map[]).value;
      var result, other := AdoptLoop(base, policies, Dump(base), changes, ids),
        AdoptLoop(base, policies, Dump(base), order, ids);
      result.Ok? && other.Ok? && Same("", result.value, other.value)
  {
    var changes := Prepare(base, gs, findings, checkOnly, concretize, validate).value.0.changes;
    PreparedBuilt(base, gs, findings, checkOnly, concretize, validate);
    var candidate :| Prepared(base, changes, candidate);
    var policies := Policies(Dump(base), base.policies, map[]).value;
    SteadyAtBase(base, changes, candidate);
    assert Rearranged(changes, order);
    RearrangedSteady(Dump(base), changes, order);
    RearrangedApart(changes, order);
    AdoptIsWrite(base, policies, Dump(base), changes, ids);
    AdoptIsWrite(base, policies, Dump(base), order, ids);
    SelectedRearranged(changes, order, ids);
    SelectedApart(Dump(base), changes, ids);
    AnyOrderSame(Dump(base), Selected(changes, ids), Selected(order, ids));
  }
}
