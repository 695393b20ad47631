/**
 Reading and writing one JSON value through a parsed path, and the frame law of that pair:
 a write is invisible through every path that is not comparable with the written one.
 */
module Patch {
  import opened Outcomes
  import opened JsonValues
  import opened Paths

  // ---- reading ----

  // _read; None is the _MISSING sentinel
  function ReadAt(node: Json, path: Path): Option<Json> {
    if path == [] then Some(node)
    else
      match Child(node, path[0])
      case Ok(child) => ReadAt(child, path[1..])
      case Err(_) => None
  }

  lemma {:induction false} ReadField(node: Json, key: string)
    requires node.Obj?
    ensures ReadAt(node, [key]) == if key in node.fields then Some(node.fields[key]) else None
  {
    ChildIsSee(node, key);
    assert [key][1..] == [];
  }

  // The loop of _read over the parts of a path.
  method Read(payload: Json, path: Path) returns (found: Option<Json>)
    ensures found == ReadAt(payload, path)
  {
    var node := payload;
    for i := 0 to |path|
      invariant ReadAt(payload, path) == ReadAt(node, path[i..])
    {
      var child := Child(node, path[i]);
      assert path[i..][1..] == path[i + 1..];
      if child.Err? { return None; }
      node := child.value;
    }
    return Some(node);
  }

  // ---- writing ----

  // node[key] = value, or node.append(value) for a row that is not there yet
  function Store(node: Json, part: string, value: Json): Result<Json> {
    match Key(node, part, true)
    case Err(e) => Err(e)
    case Ok(slot) =>
      if node.Obj? then Ok(Obj(node.fields[part := value]))
      else if !node.Arr? || !IsRowSegment(part) then Err(InvalidPath)
      else
        match RefOf(value, SegmentKey(part))
        case BadRef => Err(InvalidRef)
        case NoRef => Err(ImmutableRef)
        case Ref(segment) =>
          if segment != part then Err(ImmutableRef)
          else if slot.At? && slot.index < |node.rows| then Ok(Arr(node.rows[slot.index := value]))
          else Ok(Arr(node.rows + [value]))
  }

  // del node[key]
  function Delete(node: Json, part: string): Result<Json> {
    match Key(node, part, false)
    case Err(e) => Err(e)
    case Ok(Field(name)) =>
      if node.Obj? && name in node.fields then Ok(Obj(node.fields - {name})) else Err(InvalidPath)
    case Ok(At(i)) =>
      if node.Arr? && i < |node.rows| then Ok(Arr(node.rows[..i] + node.rows[i + 1..])) else Err(InvalidPath)
    case Ok(End) => Err(InvalidPath)
  }

  // The parent after the child a segment addresses was changed in place.
  function Swap(node: Json, part: string, child: Json): Json {
    match Key(node, part, false)
    case Ok(Field(name)) => if node.Obj? then Obj(node.fields[name := child]) else node
    case Ok(At(i)) => if node.Arr? && i < |node.rows| then Arr(node.rows[i := child]) else node
    case _ => node
  }

  // _write; `value` None is remove=True
  function WriteAt(node: Json, path: Path, value: Option<Json>): Result<Json>
    requires path != []
  {
    if |path| == 1 then
      if value.Some? then Store(node, path[0], value.value) else Delete(node, path[0])
    else
      var child :- Child(node, path[0]);
      var changed :- WriteAt(child, path[1..], value);
      Ok(Swap(node, path[0], changed))
  }

  // ---- one segment: what an update shows through every other segment ----

  // Two segments resolved at the same array use the same ref field.
  ghost predicate SameKey(node: Json, part: string, other: string) {
    node.Arr? ==> IsRowSegment(part) && IsRowSegment(other) && SegmentKey(part) == SegmentKey(other)
  }

  ghost predicate SameKind(node: Json, changed: Json) {
    node.Obj? == changed.Obj? && node.Arr? == changed.Arr?
  }

  lemma ReplaceRow(rows: seq<Json>, part: string, i: nat, row: Json, other: string)
    requires IsRowSegment(part) && IsRowSegment(other) && SegmentKey(part) == SegmentKey(other)
      && SegmentKey(part) in REFS
    requires Only(rows, SegmentKey(part), part, i) && !AnyBad(rows, SegmentKey(part))
    requires RefOf(row, SegmentKey(part)) == Ref(part)
    ensures !AnyBad(rows[i := row], SegmentKey(part))
    ensures See(Arr(rows[i := row]), part) == Present(row)
    ensures other != part ==> See(Arr(rows[i := row]), other) == See(Arr(rows), other)
  {
    var key, after := SegmentKey(part), rows[i := row];
    assert !AnyBad(after, key);
    assert forall j, s :: Match(after, key, s, j) <==> Match(rows, key, s, j);
    assert Only(after, key, part, i);
    SeeArr(after, part);
    SeeArr(after, other);
    SeeArr(rows, other);
    if other != part {
      assert forall j :: Only(after, key, other, j) <==> Only(rows, key, other, j);
      assert forall j :: Only(rows, key, other, j) ==> j != i;
    }
  }

  lemma AppendRow(rows: seq<Json>, part: string, row: Json, other: string)
    requires IsRowSegment(part) && IsRowSegment(other) && SegmentKey(part) == SegmentKey(other)
      && SegmentKey(part) in REFS
    requires !AnyBad(rows, SegmentKey(part)) && forall j :: !Match(rows, SegmentKey(part), part, j)
    requires RefOf(row, SegmentKey(part)) == Ref(part)
    ensures !AnyBad(rows + [row], SegmentKey(part))
    ensures See(Arr(rows + [row]), part) == Present(row)
    ensures other != part ==> See(Arr(rows + [row]), other) == See(Arr(rows), other)
  {
    var key, after := SegmentKey(part), rows + [row];
    assert !AnyBad(after, key);
    assert forall j, s :: j != |rows| ==> (Match(after, key, s, j) <==> Match(rows, key, s, j));
    assert Only(after, key, part, |rows|);
    SeeArr(after, part);
    SeeArr(after, other);
    SeeArr(rows, other);
    if other != part {
      assert !Match(after, key, other, |rows|);
      assert forall j :: Match(after, key, other, j) <==> Match(rows, key, other, j);
      assert forall j :: Only(after, key, other, j) <==> Only(rows, key, other, j);
    }
  }

  // Positions before and after the removal of row `i`.
  ghost function Up(j: int, i: int): int { if j < i then j else j + 1 }

  ghost function Down(j: int, i: int): int { if j < i then j else j - 1 }

  ghost predicate Removal(rows: seq<Json>, i: int, after: seq<Json>) {
    && 0 <= i < |rows|
    && |after| == |rows| - 1
    && (forall j :: 0 <= j < |after| ==> after[j] == rows[Up(j, i)])
    && (forall j :: 0 <= j < |rows| && j != i ==> rows[j] == after[Down(j, i)])
  }

  lemma RemovedAt(rows: seq<Json>, i: nat, j: nat)
    requires i < |rows| && j < |rows| - 1
    ensures (rows[..i] + rows[i + 1..])[j] == rows[Up(j, i)]
  {
  }

  lemma RemovalOf(rows: seq<Json>, i: nat)
    requires i < |rows|
    ensures Removal(rows, i, rows[..i] + rows[i + 1..])
  {
    var after := rows[..i] + rows[i + 1..];
    forall j | 0 <= j < |after| ensures after[j] == rows[Up(j, i)] { RemovedAt(rows, i, j); }
    forall j | 0 <= j < |rows| && j != i ensures rows[j] == after[Down(j, i)] { RemovedAt(rows, i, Down(j, i)); }
  }

  // Removing a row that does not match keeps whether there is none, one or several matches.
  lemma RemovedView(rows: seq<Json>, key: string, i: nat, after: seq<Json>, other: string)
    requires Removal(rows, i, after) && !Match(rows, key, other, i)
    ensures forall j :: Only(rows, key, other, j) ==>
      Only(after, key, other, Down(j, i)) && after[Down(j, i)] == rows[j]
    ensures forall j :: Only(after, key, other, j) ==> Only(rows, key, other, Up(j, i)) && rows[Up(j, i)] == after[j]
    ensures (exists j :: Match(rows, key, other, j)) <==> exists j :: Match(after, key, other, j)
  {
    forall j | Match(rows, key, other, j) ensures Match(after, key, other, Down(j, i)) {
    }
    forall j | Match(after, key, other, j) ensures Match(rows, key, other, Up(j, i)) {
    }
    forall j | Only(rows, key, other, j) ensures Only(after, key, other, Down(j, i)) {
      assert Match(after, key, other, Down(j, i));
      forall k | Match(after, key, other, k) ensures k == Down(j, i) {
        assert Match(rows, key, other, Up(k, i));
      }
    }
    forall j | Only(after, key, other, j) ensures Only(rows, key, other, Up(j, i)) {
      assert Match(rows, key, other, Up(j, i));
      forall k | Match(rows, key, other, k) ensures k == Up(j, i) {
        assert Match(after, key, other, Down(k, i));
      }
    }
  }

  lemma RemoveRow(rows: seq<Json>, part: string, i: nat, after: seq<Json>, other: string)
    requires IsRowSegment(part) && IsRowSegment(other) && SegmentKey(part) == SegmentKey(other)
      && SegmentKey(part) in REFS
    requires Only(rows, SegmentKey(part), part, i) && !AnyBad(rows, SegmentKey(part))
    requires Removal(rows, i, after)
    ensures !AnyBad(after, SegmentKey(part))
    ensures See(Arr(after), part) == Absent
    ensures other != part ==> See(Arr(after), other) == See(Arr(rows), other)
  {
    var key := SegmentKey(part);
    forall j | 0 <= j < |after| ensures !RefOf(after[j], key).BadRef? && !Match(after, key, part, j) {
      assert after[j] == rows[Up(j, i)];
      assert Match(after, key, part, j) ==> Match(rows, key, part, Up(j, i));
    }
    SeeArr(after, part);
    SeeArr(after, other);
    SeeArr(rows, other);
    if other != part {
      assert !Match(rows, key, other, i);
      RemovedView(rows, key, i, after, other);
    }
  }

  lemma StoreSee(node: Json, part: string, value: Json, other: string)
    requires Store(node, part, value).Ok? && SameKey(node, part, other)
    ensures SameKind(node, Store(node, part, value).value)
    ensures See(Store(node, part, value).value, part) == Present(value)
    ensures other != part ==> See(Store(node, part, value).value, other) == See(node, other)
  {
    if node.Arr? {
      SeeArr(node.rows, part);
      var slot := Key(node, part, true).value;
      if slot.At? {
        ReplaceRow(node.rows, part, slot.index, value, other);
      } else {
        AppendRow(node.rows, part, value, other);
      }
    }
  }

  lemma DeleteSee(node: Json, part: string, other: string)
    requires Delete(node, part).Ok? && SameKey(node, part, other)
    ensures SameKind(node, Delete(node, part).value)
    ensures See(node, part).Present?
    ensures See(Delete(node, part).value, part) == Absent
    ensures other != part ==> See(Delete(node, part).value, other) == See(node, other)
  {
    if node.Arr? {
      SeeArr(node.rows, part);
      var i := Key(node, part, false).value.index;
      RemovalOf(node.rows, i);
      RemoveRow(node.rows, part, i, Delete(node, part).value.rows, other);
    }
  }

  // Changing a child in place keeps the parent's other children if a row keeps its ref.
  lemma SwapSee(node: Json, part: string, child: Json, other: string)
    requires See(node, part).Present? && SameKey(node, part, other)
    requires node.Arr? ==> RefOf(child, SegmentKey(part)) == RefOf(See(node, part).value, SegmentKey(part))
    ensures SameKind(node, Swap(node, part, child))
    ensures See(Swap(node, part, child), part) == Present(child)
    ensures other != part ==> See(Swap(node, part, child), other) == See(node, other)
  {
    if node.Arr? {
      SeeArr(node.rows, part);
      var i := Key(node, part, false).value.index;
      ReplaceRow(node.rows, part, i, child, other);
    }
  }

  // Swapping twice at one segment keeps only the second child.
  lemma SwapSwap(node: Json, part: string, child: Json, again: Json)
    requires See(node, part).Present?
    requires node.Arr? ==>
      IsRowSegment(part) && RefOf(child, SegmentKey(part)) == RefOf(See(node, part).value, SegmentKey(part))
    ensures Swap(Swap(node, part, child), part, again) == Swap(node, part, again)
  {
    SwapSee(node, part, child, part);
    if node.Arr? {
      SeeArr(node.rows, part);
      var i := Key(node, part, false).value.index;
      var after := node.rows[i := child];
      assert Only(after, SegmentKey(part), part, i) by {
        assert forall j :: Match(after, SegmentKey(part), part, j) <==> Match(node.rows, SegmentKey(part), part, j);
      }
      ReplaceRow(node.rows, part, i, child, part);
      SeeArr(after, part);
    }
  }

  // ---- paths that use each collection's own ref field ----

  // Every array the path enters is a collection entered through its own ref field.
  ghost predicate Aligned(node: Json, name: string, path: Path)
    decreases path
  {
    path != [] ==>
    && (node.Arr? ==>
          CollectionKey(name).Some? && IsRowSegment(path[0]) && SegmentKey(path[0]) == CollectionKey(name).value)
    && (See(node, path[0]).Present? ==> Aligned(See(node, path[0]).value, path[0], path[1..]))
  }

  // Aligned, and the path does not address the ref field of a row it entered.
  ghost predicate Fits(node: Json, name: string, path: Path)
    decreases path
  {
    path != [] ==>
    && (node.Arr? ==>
          CollectionKey(name).Some? && IsRowSegment(path[0]) && SegmentKey(path[0]) == CollectionKey(name).value)
    && (node.Arr? && |path| == 2 ==> path[1] != SegmentKey(path[0]))
    && (See(node, path[0]).Present? ==> Fits(See(node, path[0]).value, path[0], path[1..]))
  }

  lemma {:induction false} FitsAligned(node: Json, name: string, path: Path)
    requires Fits(node, name, path)
    ensures Aligned(node, name, path)
    decreases path
  {
    if path != [] && See(node, path[0]).Present? {
      FitsAligned(See(node, path[0]).value, path[0], path[1..]);
    }
  }

  // A write below a row that does not address its ref field keeps the row's ref.
  lemma {:induction false} WriteKeepsRef(row: Json, path: Path, value: Option<Json>, key: string)
    requires path != [] && WriteAt(row, path, value).Ok? && RefOf(row, key).Ref?
    requires path != [key]
    ensures RefOf(WriteAt(row, path, value).value, key) == RefOf(row, key)
  {
    ChildIsSee(row, path[0]);
    if |path| == 1 {
      assert path == [path[0]];
    }
  }

  // One step of a deep write: the child is there and the written row keeps its ref.
  lemma {:induction false} WriteStep(node: Json, name: string, path: Path, value: Option<Json>)
    requires |path| >= 2 && Fits(node, name, path) && WriteAt(node, path, value).Ok?
    ensures See(node, path[0]).Present?
    ensures WriteAt(See(node, path[0]).value, path[1..], value).Ok?
    ensures WriteAt(node, path, value).value ==
      Swap(node, path[0], WriteAt(See(node, path[0]).value, path[1..], value).value)
    ensures node.Arr? ==>
      RefOf(WriteAt(See(node, path[0]).value, path[1..], value).value, SegmentKey(path[0])) ==
        RefOf(See(node, path[0]).value, SegmentKey(path[0]))
  {
    ChildIsSee(node, path[0]);
    if node.Arr? {
      SeeArr(node.rows, path[0]);
      assert |path| == 2 ==> path[1..] == [path[1]];
      WriteKeepsRef(See(node, path[0]).value, path[1..], value, SegmentKey(path[0]));
    }
  }

  // What a write shows at its own first segment and at any other.
  lemma {:induction false} WriteSee(node: Json, name: string, path: Path, value: Option<Json>, other: string)
    requires path != [] && Fits(node, name, path) && WriteAt(node, path, value).Ok?
    requires SameKey(node, path[0], other)
    ensures SameKind(node, WriteAt(node, path, value).value)
    ensures other != path[0] ==> See(WriteAt(node, path, value).value, other) == See(node, other)
    ensures |path| >= 2 ==> See(node, path[0]).Present? && WriteAt(See(node, path[0]).value, path[1..], value).Ok?
    ensures |path| >= 2 ==>
      See(WriteAt(node, path, value).value, path[0]) ==
        Present(WriteAt(See(node, path[0]).value, path[1..], value).value)
    ensures |path| == 1 ==>
      See(WriteAt(node, path, value).value, path[0]) == (if value.Some? then Present(value.value) else Absent)
  {
    if |path| == 1 {
      if value.Some? { StoreSee(node, path[0], value.value, other); } else { DeleteSee(node, path[0], other); }
    } else {
      WriteStep(node, name, path, value);
      SwapSee(node, path[0], WriteAt(See(node, path[0]).value, path[1..], value).value, other);
    }
  }

  // Reading back a written path gives what was written.
  lemma {:induction false} ReadAfterWrite(node: Json, name: string, path: Path, value: Option<Json>)
    requires path != [] && Fits(node, name, path) && WriteAt(node, path, value).Ok?
    ensures ReadAt(WriteAt(node, path, value).value, path) == value
    ensures Aligned(WriteAt(node, path, value).value, name, path)
    decreases path
  {
    WriteSee(node, name, path, value, path[0]);
    ChildIsSee(WriteAt(node, path, value).value, path[0]);
    if |path| >= 2 {
      ReadAfterWrite(See(node, path[0]).value, path[0], path[1..], value);
    }
  }

  // Whether a write succeeds depends on the target's parents, not on the rest of the document.
  lemma {:induction false} WriteOkBySee(node: Json, changed: Json, path: Path, value: Option<Json>)
    requires path != [] && SameKind(node, changed) && See(node, path[0]) == See(changed, path[0])
    ensures WriteAt(node, path, value).Ok? == WriteAt(changed, path, value).Ok?
  {
    ChildIsSee(node, path[0]);
    ChildIsSee(changed, path[0]);
    if |path| == 1 {
      StoreOk(node, path[0]);
      StoreOk(changed, path[0]);
    }
  }

  lemma StoreOk(node: Json, part: string)
    ensures Delete(node, part).Ok? <==> See(node, part).Present?
    ensures forall value :: Store(node, part, value).Ok? <==>
      !See(node, part).Broken? && (node.Arr? ==> IsRowSegment(part) && RefOf(value, SegmentKey(part)) == Ref(part))
  {
    ChildIsSee(node, part);
    if node.Arr? && IsRowSegment(part) && SegmentKey(part) in REFS && !AnyBad(node.rows, SegmentKey(part)) {
      SeeArr(node.rows, part);
    }
  }

  // The frame law. Whether `q` is aligned, what it reads, and whether a write through it would
  // succeed are all unchanged by a write to a path not comparable with it.
  lemma {:induction false} Frame(node: Json, name: string, p: Path, value: Option<Json>, q: Path, later: Option<Json>)
    requires p != [] && q != [] && !Comparable(p, q)
    requires Fits(node, name, p) && WriteAt(node, p, value).Ok?
    requires Aligned(node, name, q) || Aligned(WriteAt(node, p, value).value, name, q)
    ensures Aligned(node, name, q) && Aligned(WriteAt(node, p, value).value, name, q)
    ensures Fits(WriteAt(node, p, value).value, name, q) == Fits(node, name, q)
    ensures ReadAt(WriteAt(node, p, value).value, q) == ReadAt(node, q)
    ensures WriteAt(WriteAt(node, p, value).value, q, later).Ok? == WriteAt(node, q, later).Ok?
    decreases p
  {
    var changed := WriteAt(node, p, value).value;
    WriteSee(node, name, p, value, p[0]);
    WriteSee(node, name, p, value, q[0]);
    ChildIsSee(node, q[0]);
    ChildIsSee(changed, q[0]);
    if p[0] != q[0] {
      WriteOkBySee(node, changed, q, later);
    } else {
      assert |p| >= 2 && |q| >= 2 && !Comparable(p[1..], q[1..]) by {
        assert p == [p[0]] + p[1..] && q == [q[0]] + q[1..];
      }
      Frame(See(node, p[0]).value, p[0], p[1..], value, q[1..], later);
    }
  }

  // A path that was there stays there, whatever is written anywhere but at or above it.
  lemma {:induction false} PathSurvives(node: Json, name: string, p: Path, value: Option<Json>, q: Path)
    requires p != [] && !(p <= q)
    requires Fits(node, name, p) && WriteAt(node, p, value).Ok?
    requires Aligned(node, name, q) && ReadAt(node, q).Some?
    ensures Aligned(WriteAt(node, p, value).value, name, q)
    ensures ReadAt(WriteAt(node, p, value).value, q).Some?
    decreases p
  {
    if q != [] {
      if !(q <= p) {
        Frame(node, name, p, value, q, None);
      } else {
        var changed := WriteAt(node, p, value).value;
        WriteSee(node, name, p, value, p[0]);
        ChildIsSee(node, q[0]);
        ChildIsSee(changed, q[0]);
        assert p == [p[0]] + p[1..] && q == [q[0]] + q[1..];
        PathSurvives(See(node, p[0]).value, p[0], p[1..], value, q[1..]);
      }
    }
  }
}
