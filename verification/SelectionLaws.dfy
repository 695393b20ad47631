/**
 Exactly when every selection of a prepared proposal passes the check of the fixed paths, and a
 draft with a proposal for which one selection does not.
 */
module SelectionLaws {
  import opened Outcomes
  import opened JsonValues
  import opened Paths
  import opened Patch
  import opened Proposals
  import opened ProposalLaws
  import opened AdoptionOrder
  import opened FixedSelections
  import opened Exposure

  // ---- the exact condition on one path ----

  // A path that reads something is moved by a single change; one that reads nothing is to be readable.
  ghost predicate Movable(doc: Json, changes: seq<Change>, f: Path)
    requires Settled(doc, changes)
  {
    match ReadAt(doc, f)
    case Some(x) => exists c :: Breaks(doc, changes, f, x, c)
    case None => Readable(doc, changes, f)
  }

  lemma {:induction false} MovedFromSomething(doc: Json, changes: seq<Change>, ids: set<nat>, f: Path)
    requires Settled(doc, changes) && UniqueIds(changes) && AllAlter(changes)
    requires ReadAt(doc, f).Some? && ReadAt(Pick(doc, changes, ids), f) != ReadAt(doc, f)
    ensures Movable(doc, changes, f)
  {
    var chosen := Selected(changes, ids);
    SelectedApart(doc, changes, ids);
    PickAll(doc, chosen);
    var c := SingleSuffices(doc, chosen, f, ReadAt(doc, f).value);
    assert Breaks(doc, changes, f, ReadAt(doc, f).value, c);
  }

  // A path reads differently after some selection exactly if it is movable.
  lemma {:induction false} MovedIsMovable(doc: Json, changes: seq<Change>, f: Path)
    requires Settled(doc, changes) && UniqueIds(changes) && AllAlter(changes)
    ensures (exists ids :: ReadAt(Pick(doc, changes, ids), f) != ReadAt(doc, f)) <==> Movable(doc, changes, f)
  {
    if ids :| ReadAt(Pick(doc, changes, ids), f) != ReadAt(doc, f) {
      if ReadAt(doc, f).Some? {
        MovedFromSomething(doc, changes, ids, f);
      } else {
        ReadableExact(doc, changes, f);
      }
    }
    if Movable(doc, changes, f) { MovableMoves(doc, changes, f); }
  }

  lemma {:induction false} MovableMoves(doc: Json, changes: seq<Change>, f: Path)
    requires Settled(doc, changes) && UniqueIds(changes) && Movable(doc, changes, f)
    ensures exists ids :: ReadAt(Pick(doc, changes, ids), f) != ReadAt(doc, f)
  {
    if ReadAt(doc, f).Some? {
      var c :| Breaks(doc, changes, f, ReadAt(doc, f).value, c);
      PickOne(doc, changes, c);
      assert ReadAt(Pick(doc, changes, {c.id}), f) != ReadAt(doc, f);
    } else {
      ReadableExact(doc, changes, f);
    }
  }

  // An aligned path is not movable.
  lemma {:induction false} AlignedStays(doc: Json, changes: seq<Change>, f: Path)
    requires Settled(doc, changes) && UniqueIds(changes) && AllAlter(changes) && Aligned(doc, "", f)
    requires forall c :: c in changes ==> !Comparable(Parts(c), f)
    ensures !Movable(doc, changes, f)
  {
    MovedIsMovable(doc, changes, f);
    forall ids ensures ReadAt(Pick(doc, changes, ids), f) == ReadAt(doc, f) { ApartKeeps(doc, changes, f, ids); }
  }

  // ---- prepared proposals ----

  // What the changes of a prepared proposal are to the dumped base
  ghost predicate Offered(base: Draft, policies: map<string, Policy>, changes: seq<Change>) {
    && Settled(Dump(base), changes) && UniqueIds(changes) && AllAlter(changes)
    && (forall c :: c in changes ==> Permitted(base, policies, c))
  }

  lemma PreparedOffered(base: Draft, changes: seq<Change>, candidate: Json)
    requires Prepared(base, changes, candidate)
    ensures Offered(base, Policies(Dump(base), base.policies, map[]).value, changes)
  {
    SteadyAtBase(base, changes, candidate);
    forall c, d | c in changes && d in changes && c.id == d.id ensures c == d {
      var i :| 0 <= i < |changes| && changes[i] == c;
      var j :| 0 <= j < |changes| && changes[j] == d;
      assert changes[i].id == i && changes[j].id == j;
    }
    forall c | c in changes ensures Alters(c) {
      var i :| 0 <= i < |changes| && changes[i] == c;
    }
  }

  lemma FixedIsApart(base: Draft, policies: map<string, Policy>, changes: seq<Change>, f: string)
    requires Offered(base, policies, changes) && f in FixedPaths(policies) && Parse(f).Ok?
    ensures forall c :: c in changes ==> !Comparable(Parts(c), Parse(f).value)
  {
    PrintParse(f);
    forall c | c in changes ensures !Comparable(Parts(c), Parse(f).value) { OverlapIsComparable(c.fieldPath, f); }
  }

  ghost predicate FixedMovable(doc: Json, policies: map<string, Policy>, changes: seq<Change>)
    requires Settled(doc, changes)
  {
    exists f :: f in FixedPaths(policies) && Parse(f).Ok? && Movable(doc, changes, Parse(f).value)
  }

  lemma {:induction false} AdoptIsPick(base: Draft, policies: map<string, Policy>, changes: seq<Change>, ids: set<nat>)
    requires Offered(base, policies, changes)
    ensures AdoptLoop(base, policies, Dump(base), changes, ids) == Ok(Pick(Dump(base), changes, ids))
  {
    AdoptIsWrite(base, policies, Dump(base), changes, ids);
    SelectedApart(Dump(base), changes, ids);
    WritesSucceed(Dump(base), Selected(changes, ids));
  }

  lemma {:induction false} SelectedKnown(changes: seq<Change>, ids: set<nat>, known: set<nat>)
    requires Ids(changes) <= known
    ensures Selected(changes, ids * known) == Selected(changes, ids)
  {
    if changes != [] {
      assert changes[0] in changes && changes[0].id in Ids(changes);
      assert forall c :: c in changes[1..] ==> c in changes && c.id in Ids(changes);
      SelectedKnown(changes[1..], ids, known);
    }
  }

  // Some selection is refused for a fixed path.
  ghost predicate SomeRefused(base: Draft, changes: seq<Change>, validate: Json -> Option<Draft>) {
    exists ids :: ids <= Ids(changes) && Adopt(base, changes, ids, validate) == Err(FixedField)
  }

  lemma RefusedIsMoved(base: Draft, policies: map<string, Policy>, changes: seq<Change>,
          validate: Json -> Option<Draft>, ids: set<nat>)
    requires Policies(Dump(base), base.policies, map[]) == Ok(policies) && Offered(base, policies, changes)
      && ids <= Ids(changes)
    requires Adopt(base, changes, ids, validate) == Err(FixedField)
    ensures FixedMovable(Dump(base), policies, changes)
  {
    AdoptIsPick(base, policies, changes, ids);
    var f :| f in FixedPaths(policies) && ReadText(Dump(base), f) != ReadText(Pick(Dump(base), changes, ids), f);
    MovedIsMovable(Dump(base), changes, Parse(f).value);
  }

  lemma MovedIsRefused(base: Draft, policies: map<string, Policy>, changes: seq<Change>,
          validate: Json -> Option<Draft>, f: string)
    requires Policies(Dump(base), base.policies, map[]) == Ok(policies) && Offered(base, policies, changes)
    requires f in FixedPaths(policies) && Parse(f).Ok? && Movable(Dump(base), changes, Parse(f).value)
    ensures SomeRefused(base, changes, validate)
  {
    MovableMoves(Dump(base), changes, Parse(f).value);
    var ids :| ReadAt(Pick(Dump(base), changes, ids), Parse(f).value) != ReadAt(Dump(base), Parse(f).value);
    var known := ids * Ids(changes);
    SelectedKnown(changes, ids, Ids(changes));
    AdoptIsPick(base, policies, changes, known);
    assert ReadText(Dump(base), f) != ReadText(Pick(Dump(base), changes, known), f);
    assert Adopt(base, changes, known, validate) == Err(FixedField);
  }

  // Every selection of a prepared proposal passes the check of the fixed paths exactly if none of
  // these paths is movable; no other check ever refuses one, except the final model.
  lemma SelectionsPass(base: Draft, gs: seq<Generated>, findings: seq<Finding>, checkOnly: bool, concretize: bool,
          validate: Json -> Option<Draft>)
    requires Prepare(base, gs, findings, checkOnly, concretize, validate).Ok?
    ensures Policies(Dump(base), base.policies, map[]).Ok?
    ensures var changes := Prepare(base, gs, findings, checkOnly, concretize, validate).value.0.changes;
      var policies := Policies(Dump(base), base.policies, map[]).value;
      Offered(base, policies, changes)
        && (SomeRefused(base, changes, validate) <==> FixedMovable(Dump(base), policies, changes))
  {
    var changes := Prepare(base, gs, findings, checkOnly, concretize, validate).value.0.changes;
    PreparedBuilt(base, gs, findings, checkOnly, concretize, validate);
    var candidate :| Prepared(base, changes, candidate);
    var policies := Policies(Dump(base), base.policies, map[]).value;
    PreparedOffered(base, changes, candidate);
    if SomeRefused(base, changes, validate) {
      var ids :| ids <= Ids(changes) && Adopt(base, changes, ids, validate) == Err(FixedField);
      RefusedIsMoved(base, policies, changes, validate, ids);
    }
    if FixedMovable(Dump(base), policies, changes) {
      var f :| f in FixedPaths(policies) && Parse(f).Ok? && Movable(Dump(base), changes, Parse(f).value);
      MovedIsRefused(base, policies, changes, validate, f);
    }
  }

  // No fixed path is movable by the changes.
  ghost predicate FixedStays(base: Draft, changes: seq<Change>) {
    Policies(Dump(base), base.policies, map[]).Ok? && Settled(Dump(base), changes) ==>
      !FixedMovable(Dump(base), Policies(Dump(base), base.policies, map[]).value, changes)
  }

  // A selection adopts unless the final model refuses it or a fixed path moves, and then only if
  // some fixed path is movable.
  lemma SelectionAnswers(base: Draft, gs: seq<Generated>, findings: seq<Finding>, checkOnly: bool, concretize: bool,
          validate: Json -> Option<Draft>, ids: set<nat>)
    requires Prepare(base, gs, findings, checkOnly, concretize, validate).Ok?
    requires ids <= Ids(Prepare(base, gs, findings, checkOnly, concretize, validate).value.0.changes)
    ensures var changes := Prepare(base, gs, findings, checkOnly, concretize, validate).value.0.changes;
      var adopted := Adopt(base, changes, ids, validate);
      (adopted.Err? ==> adopted.code in {InvalidDraft, FixedField})
        && (FixedStays(base, changes) ==> adopted != Err(FixedField))
  {
    var changes := Prepare(base, gs, findings, checkOnly, concretize, validate).value.0.changes;
    SelectionsPass(base, gs, findings, checkOnly, concretize, validate);
    AdoptIsPick(base, Policies(Dump(base), base.policies, map[]).value, changes, ids);
    assert Adopt(base, changes, ids, validate) == Err(FixedField) ==> SomeRefused(base, changes, validate);
  }

  // Any selection of a prepared proposal runs through the adopting loop: selected paths read as
  // proposed, all others as in the base. Unless a fixed path is movable, only the final model can refuse.
  lemma {:induction false} SelectionAdopts(base: Draft, gs: seq<Generated>, findings: seq<Finding>, checkOnly: bool,
          concretize: bool, validate: Json -> Option<Draft>, ids: set<nat>)
    requires Prepare(base, gs, findings, checkOnly, concretize, validate).Ok?
    requires ids <= Ids(Prepare(base, gs, findings, checkOnly, concretize, validate).value.0.changes)
    ensures var changes := Prepare(base, gs, findings, checkOnly, concretize, validate).value.0.changes;
      var result := AdoptLoop(base, Policies(Dump(base), base.policies, map[]).value, Dump(base), changes, ids);
      && result.Ok?
      && (forall c :: c in changes ==> ReadText(Dump(base), c.fieldPath) == Ok(c.Before()))
      && (forall c :: c in changes ==>
            ReadText(result.value, c.fieldPath) == Ok(if c.id in ids then c.After() else c.Before()))
      && (FixedStays(base, changes) ==>
          Adopt(base, changes, ids, validate) == if validate(result.value).Some? then Ok(validate(result.value).value)
            else Err(InvalidDraft))
  {
    var changes := Prepare(base, gs, findings, checkOnly, concretize, validate).value.0.changes;
    PreparedBuilt(base, gs, findings, checkOnly, concretize, validate);
    var candidate :| Prepared(base, changes, candidate);
    ReadyAtBase(base, changes, candidate);
    SelectionReads(base, Policies(Dump(base), base.policies, map[]).value, Dump(base), changes, ids);
    SelectionAnswers(base, gs, findings, checkOnly, concretize, validate, ids);
  }

  // Every fixed path enters the draft's collections through their own ref fields.
  ghost predicate FixedAligned(base: Draft) {
    Policies(Dump(base), base.policies, map[]).Ok? ==>
      forall f :: f in FixedPaths(Policies(Dump(base), base.policies, map[]).value) && Parse(f).Ok? ==>
        Aligned(Dump(base), "", Parse(f).value)
  }

  // Fixed paths that enter every collection through its own ref field always stay.
  lemma AlignedFixedStays(base: Draft, gs: seq<Generated>, findings: seq<Finding>, checkOnly: bool, concretize: bool,
          validate: Json -> Option<Draft>)
    requires Prepare(base, gs, findings, checkOnly, concretize, validate).Ok? && FixedAligned(base)
    ensures FixedStays(base, Prepare(base, gs, findings, checkOnly, concretize, validate).value.0.changes)
  {
    var changes := Prepare(base, gs, findings, checkOnly, concretize, validate).value.0.changes;
    SelectionsPass(base, gs, findings, checkOnly, concretize, validate);
    var policies := Policies(Dump(base), base.policies, map[]).value;
    forall f | f in FixedPaths(policies) && Parse(f).Ok? ensures !Movable(Dump(base), changes, Parse(f).value) {
      FixedIsApart(base, policies, changes, f);
      AlignedStays(Dump(base), changes, Parse(f).value);
    }
  }
}
