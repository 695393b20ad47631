/**
 Filling in the missing refs of a draft: every row of the draft's collections gets a generated ref
 unless it has one, and nothing else changes.
 */
module References {
  import opened Outcomes
  import opened JsonValues
  import opened Differences

  // What Python takes for false
  predicate Falsy(value: Json) {
    match value
    case Null => true
    case Bool(b) => !b
    case Num(n) => n == 0
    case Str(s) => s == ""
    case Arr(rows) => rows == []
    case Obj(fields) => fields == map[]
  }

  predicate Lacks(row: Json, field: string) {
    row.Obj? && (field !in row.fields || Falsy(row.fields[field]))
  }

  function Missing(rows: seq<Json>, field: string): nat {
    if rows == [] then 0
    else Missing(rows[..|rows| - 1], field) + (if Lacks(rows[|rows| - 1], field) then 1 else 0)
  }

  function FillRow(row: Json, field: string, ref: string): Json {
    if Lacks(row, field) then Obj(row.fields[field := Str(ref)]) else row
  }

  // The generated refs differ in what they draw from a supply.
  function NewRef(supply: nat -> string, k: nat): string {
    "ref_" + supply(k)
  }

  // The rows draw refs one after the other when the first `n` of the supply are used up.
  function FillRows(rows: seq<Json>, field: string, supply: nat -> string, n: nat): (r: seq<Json>)
    ensures |r| == |rows|
  {
    if rows == [] then []
    else
      var last := |rows| - 1;
      FillRows(rows[..last], field, supply, n)
        + [FillRow(rows[last], field, NewRef(supply, n + Missing(rows[..last], field)))]
  }

  // A map of fields together with the number of refs drawn so far
  datatype Filling = Filling(fields: map<string, Json>, drawn: nat)

  // The rows of a collection, when there is a list of them
  function FillField(f: Filling, name: string, supply: nat -> string): Filling
    requires CollectionKey(name).Some?
  {
    if name in f.fields && f.fields[name].Arr? then
      var rows, key := f.fields[name].rows, CollectionKey(name).value;
      Filling(f.fields[name := Arr(FillRows(rows, key, supply, f.drawn))], f.drawn + Missing(rows, key))
    else f
  }

  // The actions of every scene
  function FillActions(rows: seq<Json>, supply: nat -> string, n: nat): (r: (seq<Json>, nat))
    ensures |r.0| == |rows|
  {
    if rows == [] then ([], n)
    else
      var (done, drawn) := FillActions(rows[..|rows| - 1], supply, n);
      var row := rows[|rows| - 1];
      if !row.Obj? then (done + [row], drawn)
      else
        var filled := FillField(Filling(row.fields, drawn), "actions", supply);
        (done + [Obj(filled.fields)], filled.drawn)
  }

  function FillScenes(f: Filling, supply: nat -> string): Filling {
    if "scenes" in f.fields && f.fields["scenes"].Arr? then
      var (rows, drawn) := FillActions(f.fields["scenes"].rows, supply, f.drawn);
      Filling(f.fields["scenes" := Arr(rows)], drawn)
    else f
  }

  function FillInitialization(f: Filling, supply: nat -> string): Filling {
    if "initialization" in f.fields && f.fields["initialization"].Obj? then
      var people := FillField(Filling(f.fields["initialization"].fields, f.drawn), "characters", supply);
      var filled := FillField(people, "items", supply);
      Filling(f.fields["initialization" := Obj(filled.fields)], filled.drawn)
    else f
  }

  function FillWorld(f: Filling, supply: nat -> string): Filling {
    if "world" in f.fields && f.fields["world"].Obj? then
      var filled := FillField(Filling(f.fields["world"].fields, f.drawn), "protected_facts", supply);
      Filling(f.fields["world" := Obj(filled.fields)], filled.drawn)
    else f
  }

  function FillTop(f: Filling, supply: nat -> string): Filling {
    FillField(FillField(FillField(f, "scenes", supply), "flags", supply), "endings", supply)
  }

  // assign_missing_refs, on the draft's scenario
  function FillScenario(scenario: map<string, Json>, supply: nat -> string): map<string, Json> {
    FillWorld(FillInitialization(FillScenes(FillTop(Filling(scenario, 0), supply), supply), supply), supply).fields
  }

  // ---- the loops ----

  method FillList(list: seq<Json>, field: string, supply: nat -> string, n: nat) returns (rows: seq<Json>, drawn: nat)
    ensures rows == FillRows(list, field, supply, n) && drawn == n + Missing(list, field)
  {
    rows, drawn := [], n;
    for i := 0 to |list|
      invariant rows == FillRows(list[..i], field, supply, n) && drawn == n + Missing(list[..i], field)
    {
      assert list[..i + 1][..i] == list[..i];
      var row := list[i];
      if row.Obj? && (field !in row.fields || Falsy(row.fields[field])) {
        row := Obj(row.fields[field := Str(NewRef(supply, drawn))]);
        drawn := drawn + 1;
      }
      rows := rows + [row];
    }
    assert list[..|list|] == list;
  }

  method FillGroup(f: Filling, name: string, supply: nat -> string) returns (r: Filling)
    requires CollectionKey(name).Some?
    ensures r == FillField(f, name, supply)
  {
    r := f;
    if name in f.fields && f.fields[name].Arr? {
      var rows, drawn := FillList(f.fields[name].rows, CollectionKey(name).value, supply, f.drawn);
      r := Filling(f.fields[name := Arr(rows)], drawn);
    }
  }

  method FillSceneActions(list: seq<Json>, supply: nat -> string, n: nat) returns (rows: seq<Json>, drawn: nat)
    ensures (rows, drawn) == FillActions(list, supply, n)
  {
    rows, drawn := [], n;
    for i := 0 to |list|
      invariant (rows, drawn) == FillActions(list[..i], supply, n)
    {
      assert list[..i + 1][..i] == list[..i];
      var row := list[i];
      if row.Obj? {
        var filled := FillGroup(Filling(row.fields, drawn), "actions", supply);
        row, drawn := Obj(filled.fields), filled.drawn;
      }
      rows := rows + [row];
    }
    assert list[..|list|] == list;
  }

  method FillSceneGroups(f: Filling, supply: nat -> string) returns (r: Filling)
    ensures r == FillScenes(f, supply)
  {
    r := f;
    if "scenes" in f.fields && f.fields["scenes"].Arr? {
      var rows, drawn := FillSceneActions(f.fields["scenes"].rows, supply, f.drawn);
      r := Filling(f.fields["scenes" := Arr(rows)], drawn);
    }
  }

  method FillInitial(f: Filling, supply: nat -> string) returns (r: Filling)
    ensures r == FillInitialization(f, supply)
  {
    r := f;
    if "initialization" in f.fields && f.fields["initialization"].Obj? {
      var inner := FillGroup(Filling(f.fields["initialization"].fields, f.drawn), "characters", supply);
      inner := FillGroup(inner, "items", supply);
      r := Filling(f.fields["initialization" := Obj(inner.fields)], inner.drawn);
    }
  }

  method FillFacts(f: Filling, supply: nat -> string) returns (r: Filling)
    ensures r == FillWorld(f, supply)
  {
    r := f;
    if "world" in f.fields && f.fields["world"].Obj? {
      var inner := FillGroup(Filling(f.fields["world"].fields, f.drawn), "protected_facts", supply);
      r := Filling(f.fields["world" := Obj(inner.fields)], inner.drawn);
    }
  }

  // The groups in the order in which their rows draw refs
  method AssignMissingRefs(scenario: map<string, Json>, supply: nat -> string) returns (r: map<string, Json>)
    ensures r == FillScenario(scenario, supply)
  {
    var f := Filling(scenario, 0);
    f := FillGroup(f, "scenes", supply);
    f := FillGroup(f, "flags", supply);
    f := FillGroup(f, "endings", supply);
    f := FillSceneGroups(f, supply);
    f := FillInitial(f, supply);
    f := FillFacts(f, supply);
    r := f.fields;
  }

  // ---- rows ----

  lemma {:induction false} FillRowsAt(rows: seq<Json>, field: string, supply: nat -> string, n: nat, i: nat)
    requires i < |rows|
    ensures FillRows(rows, field, supply, n)[i] ==
      FillRow(rows[i], field, NewRef(supply, n + Missing(rows[..i], field)))
  {
    var last := |rows| - 1;
    if i < last {
      FillRowsAt(rows[..last], field, supply, n, i);
      assert rows[..last][..i] == rows[..i];
    }
  }

  lemma {:induction false} MissingGrows(rows: seq<Json>, field: string, i: nat, j: nat)
    requires i < j <= |rows|
    ensures Missing(rows[..i], field) + (if Lacks(rows[i], field) then 1 else 0) <= Missing(rows[..j], field)
  {
    assert rows[..j][..j - 1] == rows[..j - 1];
    if i < j - 1 { MissingGrows(rows, field, i, j - 1); }
  }

  // Refs that are well formed, pairwise distinct and borne by no row
  ghost predicate Fresh(rows: seq<Json>, field: string, supply: nat -> string) {
    && (forall k :: ValidRef(NewRef(supply, k)))
    && (forall k, l :: NewRef(supply, k) == NewRef(supply, l) ==> k == l)
    && (forall i, k :: 0 <= i < |rows| ==> RefOf(rows[i], field) != Ref(RowSegment(field, NewRef(supply, k))))
  }

  // Every row is an object, and the refs that are there are well formed and distinct.
  ghost predicate Keyable(rows: seq<Json>, field: string) {
    && (forall i :: 0 <= i < |rows| ==> rows[i].Obj? && (Lacks(rows[i], field) || RefOf(rows[i], field).Ref?))
    && (forall i, j :: 0 <= i < j < |rows| && !Lacks(rows[i], field) && !Lacks(rows[j], field) ==>
          RefOf(rows[i], field) != RefOf(rows[j], field))
  }

  lemma SameSegment(key: string, v: string, w: string)
    requires RowSegment(key, v) == RowSegment(key, w)
    ensures v == w
  {
    var n := |"@" + key + "="|;
    assert RowSegment(key, v)[n..] == v && RowSegment(key, w)[n..] == w;
  }

  lemma {:induction false} FilledRef(rows: seq<Json>, field: string, supply: nat -> string, n: nat, i: nat)
    requires i < |rows| && Fresh(rows, field, supply)
    ensures var after := FillRows(rows, field, supply, n)[i];
      RefOf(after, field) == if Lacks(rows[i], field)
        then Ref(RowSegment(field, NewRef(supply, n + Missing(rows[..i], field)))) else RefOf(rows[i], field)
  {
    FillRowsAt(rows, field, supply, n, i);
  }

  lemma {:induction false} FilledRefsDiffer(rows: seq<Json>, field: string, supply: nat -> string, n: nat, i: nat,
          j: nat)
    requires i < j < |rows| && Fresh(rows, field, supply)
    requires Lacks(rows[i], field) || Lacks(rows[j], field)
    ensures RefOf(FillRows(rows, field, supply, n)[i], field) != RefOf(FillRows(rows, field, supply, n)[j], field)
  {
    FilledRef(rows, field, supply, n, i);
    FilledRef(rows, field, supply, n, j);
    var a, b := n + Missing(rows[..i], field), n + Missing(rows[..j], field);
    MissingGrows(rows, field, i, j);
    if Lacks(rows[i], field) && Lacks(rows[j], field)
      && RowSegment(field, NewRef(supply, a)) == RowSegment(field, NewRef(supply, b)) {
      SameSegment(field, NewRef(supply, a), NewRef(supply, b));
    }
  }

  // With fresh refs, the filled rows are told apart by their refs exactly if the given ones could be.
  lemma {:induction false} FilledIsKeyed(rows: seq<Json>, field: string, supply: nat -> string, n: nat)
    requires Fresh(rows, field, supply)
    ensures Keyed(FillRows(rows, field, supply, n), field) <==> Keyable(rows, field)
  {
    var after := FillRows(rows, field, supply, n);
    forall i | 0 <= i < |rows|
      ensures RefOf(after[i], field).Ref? <==> rows[i].Obj? && (Lacks(rows[i], field) || RefOf(rows[i], field).Ref?)
      ensures !Lacks(rows[i], field) ==> RefOf(after[i], field) == RefOf(rows[i], field)
    {
      FilledRef(rows, field, supply, n, i);
    }
    forall i, j | 0 <= i < j < |rows| && (Lacks(rows[i], field) || Lacks(rows[j], field))
      ensures RefOf(after[i], field) != RefOf(after[j], field)
    {
      FilledRefsDiffer(rows, field, supply, n, i, j);
    }
  }

  // ---- complete drafts ----

  ghost predicate RowsComplete(rows: seq<Json>, field: string) {
    forall i :: 0 <= i < |rows| ==> !Lacks(rows[i], field)
  }

  ghost predicate CompleteAt(fields: map<string, Json>, name: string)
    requires CollectionKey(name).Some?
  {
    name in fields && fields[name].Arr? ==> RowsComplete(fields[name].rows, CollectionKey(name).value)
  }

  ghost predicate ActionsComplete(rows: seq<Json>) {
    forall i :: 0 <= i < |rows| && rows[i].Obj? ==> CompleteAt(rows[i].fields, "actions")
  }

  ghost predicate ScenesComplete(s: map<string, Json>) {
    "scenes" in s && s["scenes"].Arr? ==> ActionsComplete(s["scenes"].rows)
  }

  ghost predicate InitializationComplete(s: map<string, Json>) {
    "initialization" in s && s["initialization"].Obj? ==>
      CompleteAt(s["initialization"].fields, "characters") && CompleteAt(s["initialization"].fields, "items")
  }

  ghost predicate WorldComplete(s: map<string, Json>) {
    "world" in s && s["world"].Obj? ==> CompleteAt(s["world"].fields, "protected_facts")
  }

  ghost predicate TopComplete(s: map<string, Json>) {
    CompleteAt(s, "scenes") && CompleteAt(s, "flags") && CompleteAt(s, "endings")
  }

  // No row of the draft's collections lacks its ref.
  ghost predicate Complete(s: map<string, Json>) {
    TopComplete(s) && ScenesComplete(s) && InitializationComplete(s) && WorldComplete(s)
  }

  // Only the field `name` may differ.
  ghost predicate SameBut(a: map<string, Json>, b: map<string, Json>, name: string) {
    forall key :: key != name ==> (key in a <==> key in b) && (key in a ==> a[key] == b[key])
  }

  lemma {:induction false} RowsFilled(rows: seq<Json>, field: string, supply: nat -> string, n: nat)
    ensures RowsComplete(FillRows(rows, field, supply, n), field)
  {
    forall i | 0 <= i < |rows| ensures !Lacks(FillRows(rows, field, supply, n)[i], field) {
      FillRowsAt(rows, field, supply, n, i);
    }
  }

  lemma {:induction false} CompleteRowsStay(rows: seq<Json>, field: string, supply: nat -> string, n: nat)
    requires RowsComplete(rows, field)
    ensures FillRows(rows, field, supply, n) == rows && Missing(rows, field) == 0
  {
    if rows != [] {
      CompleteRowsStay(rows[..|rows| - 1], field, supply, n);
      assert rows == rows[..|rows| - 1] + [rows[|rows| - 1]];
    }
  }

  lemma FieldFilled(f: Filling, name: string, supply: nat -> string)
    requires CollectionKey(name).Some?
    ensures CompleteAt(FillField(f, name, supply).fields, name)
    ensures SameBut(f.fields, FillField(f, name, supply).fields, name)
    ensures CompleteAt(f.fields, name) ==> FillField(f, name, supply) == f
  {
    if name in f.fields && f.fields[name].Arr? {
      var rows, key := f.fields[name].rows, CollectionKey(name).value;
      RowsFilled(rows, key, supply, f.drawn);
      if CompleteAt(f.fields, name) {
        CompleteRowsStay(rows, key, supply, f.drawn);
        assert f.fields[name := Arr(rows)] == f.fields;
      }
    }
  }

  ghost predicate ActionsApart(a: Json, b: Json) {
    a == b || (a.Obj? && b.Obj? && SameBut(a.fields, b.fields, "actions"))
  }

  // Filling in the actions of a scene leaves its other fields alone.
  lemma {:induction false} ActionsFilled(rows: seq<Json>, supply: nat -> string, n: nat)
    ensures var after := FillActions(rows, supply, n).0;
      && ActionsComplete(after)
      && (forall i :: 0 <= i < |rows| ==> ActionsApart(rows[i], after[i]))
    ensures ActionsComplete(rows) ==> FillActions(rows, supply, n) == (rows, n)
  {
    if rows != [] {
      var init, row := rows[..|rows| - 1], rows[|rows| - 1];
      ActionsFilled(init, supply, n);
      if row.Obj? { FieldFilled(Filling(row.fields, FillActions(init, supply, n).1), "actions", supply); }
      assert rows == init + [row];
    }
  }

  lemma TopFilled(f: Filling, supply: nat -> string)
    ensures TopComplete(FillTop(f, supply).fields)
    ensures TopComplete(f.fields) ==> FillTop(f, supply) == f
    ensures forall key :: key !in {"scenes", "flags", "endings"} ==>
      (key in f.fields <==> key in FillTop(f, supply).fields)
        && (key in f.fields ==> f.fields[key] == FillTop(f, supply).fields[key])
  {
    var a := FillField(f, "scenes", supply);
    var b := FillField(a, "flags", supply);
    FieldFilled(f, "scenes", supply);
    FieldFilled(a, "flags", supply);
    FieldFilled(b, "endings", supply);
  }

  lemma ScenesFilled(f: Filling, supply: nat -> string)
    requires TopComplete(f.fields)
    ensures var after := FillScenes(f, supply).fields;
      TopComplete(after) && ScenesComplete(after) && SameBut(f.fields, after, "scenes")
    ensures ScenesComplete(f.fields) ==> FillScenes(f, supply) == f
  {
    if "scenes" in f.fields && f.fields["scenes"].Arr? {
      var rows := f.fields["scenes"].rows;
      var after := FillActions(rows, supply, f.drawn).0;
      ActionsFilled(rows, supply, f.drawn);
      forall i | 0 <= i < |rows| ensures !Lacks(after[i], "scene_ref") { assert !Lacks(rows[i], "scene_ref"); }
      assert f.fields["scenes" := Arr(rows)] == f.fields;
    }
  }

  lemma InitializationFilled(f: Filling, supply: nat -> string)
    ensures InitializationComplete(FillInitialization(f, supply).fields)
    ensures SameBut(f.fields, FillInitialization(f, supply).fields, "initialization")
    ensures InitializationComplete(f.fields) ==> FillInitialization(f, supply) == f
  {
    if "initialization" in f.fields && f.fields["initialization"].Obj? {
      var inner := Filling(f.fields["initialization"].fields, f.drawn);
      FieldFilled(inner, "characters", supply);
      FieldFilled(FillField(inner, "characters", supply), "items", supply);
      assert f.fields["initialization" := Obj(inner.fields)] == f.fields;
    }
  }

  lemma WorldFilled(f: Filling, supply: nat -> string)
    ensures WorldComplete(FillWorld(f, supply).fields)
    ensures SameBut(f.fields, FillWorld(f, supply).fields, "world")
    ensures WorldComplete(f.fields) ==> FillWorld(f, supply) == f
  {
    if "world" in f.fields && f.fields["world"].Obj? {
      var inner := Filling(f.fields["world"].fields, f.drawn);
      FieldFilled(inner, "protected_facts", supply);
      assert f.fields["world" := Obj(inner.fields)] == f.fields;
    }
  }

  const FILLED: set<string> := {"scenes", "flags", "endings", "initialization", "world"}

  lemma ResultIsComplete(scenario: map<string, Json>, supply: nat -> string)
    ensures Complete(FillScenario(scenario, supply))
  {
    var top := FillTop(Filling(scenario, 0), supply);
    var scenes := FillScenes(top, supply);
    TopFilled(Filling(scenario, 0), supply);
    ScenesFilled(top, supply);
    InitializationFilled(scenes, supply);
    WorldFilled(FillInitialization(scenes, supply), supply);
  }

  lemma CompleteStays(scenario: map<string, Json>, supply: nat -> string)
    requires Complete(scenario)
    ensures FillScenario(scenario, supply) == scenario
  {
    var f := Filling(scenario, 0);
    TopFilled(f, supply);
    ScenesFilled(f, supply);
    InitializationFilled(f, supply);
    WorldFilled(f, supply);
  }

  lemma OthersStay(scenario: map<string, Json>, supply: nat -> string, key: string)
    requires key !in FILLED
    ensures key in FillScenario(scenario, supply) <==> key in scenario
    ensures key in scenario ==> FillScenario(scenario, supply)[key] == scenario[key]
  {
    var top := FillTop(Filling(scenario, 0), supply);
    var scenes := FillScenes(top, supply);
    TopFilled(Filling(scenario, 0), supply);
    ScenesFilled(top, supply);
    InitializationFilled(scenes, supply);
    WorldFilled(FillInitialization(scenes, supply), supply);
  }

  // Whatever draft it is given, filling in makes it complete, and it changes a draft exactly if
  // that is not complete already. Fields that hold no collection stay.
  lemma FillCompletes(scenario: map<string, Json>, supply: nat -> string)
    ensures var after := FillScenario(scenario, supply);
      && Complete(after) && (after == scenario <==> Complete(scenario))
      && (forall key :: key !in FILLED ==>
           (key in after <==> key in scenario) && (key in scenario ==> after[key] == scenario[key]))
  {
    var after := FillScenario(scenario, supply);
    ResultIsComplete(scenario, supply);
    if Complete(scenario) { CompleteStays(scenario, supply); }
    forall key | key !in FILLED
      ensures (key in after <==> key in scenario) && (key in scenario ==> after[key] == scenario[key])
    {
      OthersStay(scenario, supply, key);
    }
  }

  lemma FillTwice(scenario: map<string, Json>, first: nat -> string, second: nat -> string)
    ensures FillScenario(FillScenario(scenario, first), second) == FillScenario(scenario, first)
  {
    FillCompletes(scenario, first);
    FillCompletes(FillScenario(scenario, first), second);
  }

  // The row has a value under the field, and not an empty one.
  ghost predicate Bears(row: Json, field: string) {
    row.Obj? ==> field in row.fields && row.fields[field] !in {Null, Bool(false), Num(0), Str(""), Arr([]), Obj(map[])}
  }

  ghost predicate AllBear(fields: map<string, Json>, name: string, field: string) {
    name in fields && fields[name].Arr? ==>
      forall i :: 0 <= i < |fields[name].rows| ==> Bears(fields[name].rows[i], field)
  }

  lemma BearsAnswer(fields: map<string, Json>, name: string, field: string)
    requires CollectionKey(name) == Some(field) && CompleteAt(fields, name)
    ensures AllBear(fields, name, field)
  {
    if name in fields && fields[name].Arr? {
      forall i | 0 <= i < |fields[name].rows| ensures Bears(fields[name].rows[i], field) {
        assert !Lacks(fields[name].rows[i], field);
      }
    }
  }

  // The collections of a draft and the refs that tell their rows apart, once filled in
  lemma FillNames(scenario: map<string, Json>, supply: nat -> string)
    ensures var s := FillScenario(scenario, supply);
      && AllBear(s, "scenes", "scene_ref") && AllBear(s, "flags", "flag_ref") && AllBear(s, "endings", "ending_ref")
      && ("scenes" in s && s["scenes"].Arr? ==> forall i :: 0 <= i < |s["scenes"].rows| && s["scenes"].rows[i].Obj? ==>
            AllBear(s["scenes"].rows[i].fields, "actions", "action_ref"))
      && ("initialization" in s && s["initialization"].Obj? ==>
            AllBear(s["initialization"].fields, "characters", "ref")
              && AllBear(s["initialization"].fields, "items", "ref"))
      && ("world" in s && s["world"].Obj? ==> AllBear(s["world"].fields, "protected_facts", "fact_ref"))
  {
    ResultIsComplete(scenario, supply);
    NamesOf(FillScenario(scenario, supply));
  }

  lemma NamesOf(s: map<string, Json>)
    requires Complete(s)
    ensures AllBear(s, "scenes", "scene_ref") && AllBear(s, "flags", "flag_ref") && AllBear(s, "endings", "ending_ref")
    ensures "scenes" in s && s["scenes"].Arr? ==>
      forall i :: 0 <= i < |s["scenes"].rows| && s["scenes"].rows[i].Obj? ==>
      AllBear(s["scenes"].rows[i].fields, "actions", "action_ref")
    ensures "initialization" in s && s["initialization"].Obj? ==>
      AllBear(s["initialization"].fields, "characters", "ref") && AllBear(s["initialization"].fields, "items", "ref")
    ensures "world" in s && s["world"].Obj? ==> AllBear(s["world"].fields, "protected_facts", "fact_ref")
  {
    BearsAnswer(s, "scenes", "scene_ref");
    BearsAnswer(s, "flags", "flag_ref");
    BearsAnswer(s, "endings", "ending_ref");
    if "scenes" in s && s["scenes"].Arr? {
      forall i | 0 <= i < |s["scenes"].rows| && s["scenes"].rows[i].Obj?
        ensures AllBear(s["scenes"].rows[i].fields, "actions", "action_ref")
      {
        BearsAnswer(s["scenes"].rows[i].fields, "actions", "action_ref");
      }
    }
    if "initialization" in s && s["initialization"].Obj? {
      BearsAnswer(s["initialization"].fields, "characters", "ref");
      BearsAnswer(s["initialization"].fields, "items", "ref");
    }
    if "world" in s && s["world"].Obj? { BearsAnswer(s["world"].fields, "protected_facts", "fact_ref"); }
  }

  // ---- what is there stays ----

  // `b` has the values of `a`, at the same positions, but for refs where `a` has none.
  ghost predicate OnlyRefsAdded(a: Json, b: Json)
    decreases a
  {
    match (a, b)
    case (Arr(rows), Arr(after)) =>
      |rows| == |after| && forall i :: 0 <= i < |rows| ==> OnlyRefsAdded(rows[i], after[i])
    case (Obj(fields), Obj(after)) =>
      && (forall key :: key in fields ==> key in after)
      && (forall key :: key in fields && !AddedRef(key, Some(fields[key]), after[key]) ==>
            OnlyRefsAdded(fields[key], after[key]))
      && (forall key :: key in after && key !in fields ==> AddedRef(key, None, after[key]))
    case _ => a == b
  }

  ghost predicate AddedRef(key: string, before: Option<Json>, after: Json) {
    key in REFS && (before.Some? ==> Falsy(before.value)) && after.Str?
  }

  lemma {:induction false} OnlyRefsSelf(a: Json)
    ensures OnlyRefsAdded(a, a)
    decreases a
  {
    match a
    case Arr(rows) => forall i | 0 <= i < |rows| ensures OnlyRefsAdded(rows[i], rows[i]) { OnlyRefsSelf(rows[i]); }
    case Obj(fields) =>
      forall key | key in fields ensures OnlyRefsAdded(fields[key], fields[key]) { OnlyRefsSelf(fields[key]); }
    case _ =>
  }

  lemma {:induction false} OnlyRefsOn(a: Json, b: Json, c: Json)
    requires OnlyRefsAdded(a, b) && OnlyRefsAdded(b, c)
    ensures OnlyRefsAdded(a, c)
    decreases a
  {
    if a.Arr? && b.Arr? {
      forall i | 0 <= i < |a.rows| ensures OnlyRefsAdded(a.rows[i], c.rows[i]) {
        OnlyRefsOn(a.rows[i], b.rows[i], c.rows[i]);
      }
    } else if a.Obj? && b.Obj? {
      forall key | key in a.fields && !AddedRef(key, Some(a.fields[key]), c.fields[key])
        ensures OnlyRefsAdded(a.fields[key], c.fields[key])
      {
        FieldOn(key, a.fields[key], b.fields[key], c.fields[key]);
        OnlyRefsOn(a.fields[key], b.fields[key], c.fields[key]);
      }
    }
  }

  // A ref once added stays a text.
  lemma {:induction false} FieldOn(key: string, a: Json, b: Json, c: Json)
    requires AddedRef(key, Some(a), b) || OnlyRefsAdded(a, b)
    requires AddedRef(key, Some(b), c) || OnlyRefsAdded(b, c)
    requires !AddedRef(key, Some(a), c)
    ensures OnlyRefsAdded(a, b) && OnlyRefsAdded(b, c)
  {
  }

  lemma {:induction false} FieldReplaced(fields: map<string, Json>, name: string, value: Json)
    requires name in fields && OnlyRefsAdded(fields[name], value)
    ensures OnlyRefsAdded(Obj(fields), Obj(fields[name := value]))
  {
    forall key | key in fields ensures OnlyRefsAdded(fields[key], fields[name := value][key]) {
      if key != name { OnlyRefsSelf(fields[key]); }
    }
  }

  lemma {:induction false} RowAdded(row: Json, field: string, ref: string)
    requires field in REFS
    ensures OnlyRefsAdded(row, FillRow(row, field, ref))
  {
    OnlyRefsSelf(row);
    if Lacks(row, field) {
      forall key | key in row.fields ensures OnlyRefsAdded(row.fields[key], row.fields[key]) {
        OnlyRefsSelf(row.fields[key]);
      }
    }
  }

  lemma FieldAdded(f: Filling, name: string, supply: nat -> string)
    requires CollectionKey(name).Some?
    ensures OnlyRefsAdded(Obj(f.fields), Obj(FillField(f, name, supply).fields))
  {
    OnlyRefsSelf(Obj(f.fields));
    if name in f.fields && f.fields[name].Arr? {
      var rows, key := f.fields[name].rows, CollectionKey(name).value;
      var after := FillRows(rows, key, supply, f.drawn);
      forall i | 0 <= i < |rows| ensures OnlyRefsAdded(rows[i], after[i]) {
        FillRowsAt(rows, key, supply, f.drawn, i);
        RowAdded(rows[i], key, NewRef(supply, f.drawn + Missing(rows[..i], key)));
      }
      FieldReplaced(f.fields, name, Arr(after));
    }
  }

  lemma {:induction false} ActionsAdded(rows: seq<Json>, supply: nat -> string, n: nat)
    ensures forall i :: 0 <= i < |rows| ==> OnlyRefsAdded(rows[i], FillActions(rows, supply, n).0[i])
  {
    if rows != [] {
      var init, row := rows[..|rows| - 1], rows[|rows| - 1];
      ActionsAdded(init, supply, n);
      if row.Obj? {
        FieldAdded(Filling(row.fields, FillActions(init, supply, n).1), "actions", supply);
      } else {
        OnlyRefsSelf(row);
      }
    }
  }

  lemma ScenesAdded(f: Filling, supply: nat -> string)
    ensures OnlyRefsAdded(Obj(f.fields), Obj(FillScenes(f, supply).fields))
  {
    OnlyRefsSelf(Obj(f.fields));
    if "scenes" in f.fields && f.fields["scenes"].Arr? {
      ActionsAdded(f.fields["scenes"].rows, supply, f.drawn);
      FieldReplaced(f.fields, "scenes", Arr(FillActions(f.fields["scenes"].rows, supply, f.drawn).0));
    }
  }

  lemma InsideAdded(f: Filling, supply: nat -> string)
    ensures OnlyRefsAdded(Obj(f.fields), Obj(FillWorld(FillInitialization(f, supply), supply).fields))
  {
    OnlyRefsSelf(Obj(f.fields));
    if "initialization" in f.fields && f.fields["initialization"].Obj? {
      var inner := Filling(f.fields["initialization"].fields, f.drawn);
      var people := FillField(inner, "characters", supply);
      var items := FillField(people, "items", supply);
      FieldAdded(inner, "characters", supply);
      FieldAdded(people, "items", supply);
      OnlyRefsOn(Obj(inner.fields), Obj(people.fields), Obj(items.fields));
      FieldReplaced(f.fields, "initialization", Obj(items.fields));
    }
    var g := FillInitialization(f, supply);
    OnlyRefsSelf(Obj(g.fields));
    if "world" in g.fields && g.fields["world"].Obj? {
      var inner := Filling(g.fields["world"].fields, g.drawn);
      FieldAdded(inner, "protected_facts", supply);
      FieldReplaced(g.fields, "world", Obj(FillField(inner, "protected_facts", supply).fields));
    }
    OnlyRefsOn(Obj(f.fields), Obj(g.fields), Obj(FillWorld(g, supply).fields));
  }

  // Filling in a draft adds refs to rows that have none, and keeps every other value at its place.
  lemma FillKeeps(scenario: map<string, Json>, supply: nat -> string)
    ensures OnlyRefsAdded(Obj(scenario), Obj(FillScenario(scenario, supply)))
  {
    var f := Filling(scenario, 0);
    var a := FillField(f, "scenes", supply);
    var b := FillField(a, "flags", supply);
    var c := FillField(b, "endings", supply);
    var scenes := FillScenes(c, supply);
    FieldAdded(f, "scenes", supply);
    FieldAdded(a, "flags", supply);
    FieldAdded(b, "endings", supply);
    OnlyRefsOn(Obj(scenario), Obj(a.fields), Obj(b.fields));
    OnlyRefsOn(Obj(scenario), Obj(b.fields), Obj(c.fields));
    ScenesAdded(c, supply);
    OnlyRefsOn(Obj(scenario), Obj(c.fields), Obj(scenes.fields));
    InsideAdded(scenes, supply);
    OnlyRefsOn(Obj(scenario), Obj(scenes.fields), Obj(FillScenario(scenario, supply)));
  }
}
