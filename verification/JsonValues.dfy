/**
 JSON values and the rule that resolves one path segment against a node: a plain segment names
 a field of an object, "@key=value" names the row of an array whose `key` field holds `value`.
 */
module JsonValues {
  import opened Outcomes

  datatype Json =
    | Null
    | Bool(b: bool)
    | Num(n: int)
    | Str(s: string)
    | Arr(rows: seq<Json>)
    | Obj(fields: map<string, Json>)

  const REFS: set<string> := {"scene_ref", "action_ref", "flag_ref", "ending_ref", "fact_ref", "ref"}

  // _COLLECTION_REFS: the ref field that identifies the rows of a collection
  function CollectionKey(name: string): (k: Option<string>)
    ensures k.Some? ==> k.value in REFS
  {
    if name == "scenes" then Some("scene_ref")
    else if name == "actions" then Some("action_ref")
    else if name == "flags" then Some("flag_ref")
    else if name == "endings" then Some("ending_ref")
    else if name == "protected_facts" then Some("fact_ref")
    else if name == "characters" then Some("ref")
    else if name == "items" then Some("ref")
    else None
  }

  // ---- entity refs ----

  predicate RefStart(c: char) { 'a' <= c <= 'z' }

  predicate RefChar(c: char) { 'a' <= c <= 'z' || '0' <= c <= '9' || c == '_' }

  // [a-z][a-z0-9_]{0,63}
  predicate ValidRef(v: string) {
    1 <= |v| <= 64 && RefStart(v[0]) && forall i :: 0 <= i < |v| ==> RefChar(v[i])
  }

  datatype RefView = NoRef | BadRef | Ref(segment: string)

  function RowSegment(key: string, v: string): string {
    "@" + key + "=" + v
  }

  // _ref: a row without a string under `key` has no ref; a malformed ref raises invalid_entity_ref
  function RefOf(row: Json, key: string): RefView {
    if !row.Obj? || key !in row.fields || !row.fields[key].Str? then NoRef
    else if !ValidRef(row.fields[key].s) then BadRef
    else Ref(RowSegment(key, row.fields[key].s))
  }

  // part[1:].partition("=")[0]
  function BeforeEquals(s: string): string {
    if s == "" || s[0] == '=' then "" else [s[0]] + BeforeEquals(s[1..])
  }

  predicate IsRowSegment(part: string) { part != "" && part[0] == '@' }

  function SegmentKey(part: string): string
    requires IsRowSegment(part)
  {
    BeforeEquals(part[1..])
  }

  lemma {:induction false} BeforeEqualsOf(key: string, v: string)
    requires '=' !in key
    ensures BeforeEquals(key + "=" + v) == key
  {
    if key != "" {
      assert (key + "=" + v)[1..] == key[1..] + "=" + v;
      BeforeEqualsOf(key[1..], v);
      assert key == [key[0]] + key[1..];
    }
  }

  lemma RowSegmentKey(key: string, v: string)
    requires key in REFS
    ensures IsRowSegment(RowSegment(key, v)) && SegmentKey(RowSegment(key, v)) == key
  {
    assert RowSegment(key, v)[1..] == key + "=" + v;
    BeforeEqualsOf(key, v);
  }

  lemma RefSegmentKey(row: Json, key: string)
    requires key in REFS && RefOf(row, key).Ref?
    ensures IsRowSegment(RefOf(row, key).segment) && SegmentKey(RefOf(row, key).segment) == key
  {
    RowSegmentKey(key, row.fields[key].s);
  }

  // ---- resolving one segment ----

  // [i for i, row in enumerate(node) if _ref(row, key) == part]
  function Found(rows: seq<Json>, key: string, part: string): (r: seq<nat>)
    ensures forall i :: i in r ==> i < |rows| && RefOf(rows[i], key) == Ref(part)
    ensures forall i: nat :: i < |rows| && RefOf(rows[i], key) == Ref(part) ==> i in r
    ensures forall j, k :: 0 <= j < k < |r| ==> r[j] < r[k]
  {
    if rows == [] then []
    else
      var n := |rows| - 1;
      var r := Found(rows[..n], key, part);
      if RefOf(rows[n], key) == Ref(part) then
        assert forall i: nat :: i < |rows| && RefOf(rows[i], key) == Ref(part) ==> i < n || i == n;
        assert forall j :: 0 <= j < |r| ==> r[j] in r;
        r + [n]
      else r
  }

  predicate AnyBad(rows: seq<Json>, key: string) {
    exists i :: 0 <= i < |rows| && RefOf(rows[i], key).BadRef?
  }

  datatype Slot = Field(name: string) | At(index: nat) | End

  // _key
  function Key(node: Json, part: string, missing: bool): Result<Slot> {
    if node.Obj? then Ok(Field(part))
    else if node.Arr? && IsRowSegment(part) then
      var key := SegmentKey(part);
      if key !in REFS then Err(InvalidPath)
      else if AnyBad(node.rows, key) then Err(InvalidRef)
      else
        var found := Found(node.rows, key, part);
        if |found| == 1 then Ok(At(found[0]))
        else if |found| == 0 && missing then Ok(End)
        else Err(InvalidPath)
    else Err(InvalidPath)
  }

  // node[_key(node, part)], with the KeyError of an absent field reported as invalid_proposal_path
  function Child(node: Json, part: string): (r: Result<Json>)
    ensures r.Ok? ==> r.value < node
  {
    match Key(node, part, false)
    case Err(e) => Err(e)
    case Ok(Field(name)) => if name in node.fields then Ok(node.fields[name]) else Err(InvalidPath)
    case Ok(At(i)) => if node.Arr? && i < |node.rows| then Ok(node.rows[i]) else Err(InvalidPath)
    case Ok(End) => Err(InvalidPath)
  }

  // ---- what a segment resolves to, forgetting positions ----

  datatype View = Broken(code: Code) | Absent | Present(value: Json)

  ghost predicate Match(rows: seq<Json>, key: string, part: string, i: int) {
    0 <= i < |rows| && RefOf(rows[i], key) == Ref(part)
  }

  ghost predicate Only(rows: seq<Json>, key: string, part: string, i: int) {
    Match(rows, key, part, i) && forall j :: Match(rows, key, part, j) ==> j == i
  }

  ghost function See(node: Json, part: string): View {
    if node.Obj? then if part in node.fields then Present(node.fields[part]) else Absent
    else
      match Key(node, part, true)
      case Err(e) => Broken(e)
      case Ok(At(i)) => if node.Arr? && i < |node.rows| then Present(node.rows[i]) else Absent
      case Ok(_) => Absent
  }

  // The array behaviour of See, in terms of matching rows.
  lemma SeeArr(rows: seq<Json>, part: string)
    requires IsRowSegment(part) && SegmentKey(part) in REFS && !AnyBad(rows, SegmentKey(part))
    ensures forall i :: Only(rows, SegmentKey(part), part, i) ==>
      See(Arr(rows), part) == Present(rows[i]) && Key(Arr(rows), part, true) == Key(Arr(rows), part, false) == Ok(At(i))
    ensures (forall i :: !Match(rows, SegmentKey(part), part, i)) ==>
      See(Arr(rows), part) == Absent && Key(Arr(rows), part, true) == Ok(End)
    ensures See(Arr(rows), part).Present? ==>
      exists i :: Only(rows, SegmentKey(part), part, i) && See(Arr(rows), part) == Present(rows[i])
    ensures See(Arr(rows), part).Absent? ==> forall i :: !Match(rows, SegmentKey(part), part, i)
    ensures See(Arr(rows), part).Broken? ==> See(Arr(rows), part).code == InvalidPath
  {
    var key := SegmentKey(part);
    var found := Found(rows, key, part);
    forall i | Match(rows, key, part, i) ensures i in found {
    }
    if |found| == 1 {
      assert found[0] in found;
      assert Only(rows, key, part, found[0]);
    } else if |found| == 0 {
    } else {
      assert found[0] in found && found[1] in found;
      assert Match(rows, key, part, found[0]) && Match(rows, key, part, found[1]);
    }
    forall i | Only(rows, key, part, i) ensures found == [i] {
      assert i in found;
      assert forall j :: 0 <= j < |found| ==> found[j] in found && Match(rows, key, part, found[j]);
    }
  }

  // Child is what See presents.
  lemma ChildIsSee(node: Json, part: string)
    ensures See(node, part).Present? <==> Child(node, part).Ok?
    ensures See(node, part).Present? ==> Child(node, part) == Ok(See(node, part).value)
    ensures See(node, part).Broken? ==> Child(node, part) == Err(See(node, part).code)
    ensures See(node, part).Absent? ==> Child(node, part) == Err(InvalidPath)
  {
    if node.Arr? && IsRowSegment(part) && SegmentKey(part) in REFS && !AnyBad(node.rows, SegmentKey(part)) {
      SeeArr(node.rows, part);
    }
  }
}
