/**
 Validating, playtesting and publishing one story. Reading the draft, validating it and parsing its
 definition happen outside the story's lock; only the last step of publishing holds it.
 */
module Publishing {
  import opened Outcomes
  import opened Proposals
  import opened Scenarios

  datatype Lifecycle = Live | Archived | Blocked

  // A content hash stands for the content itself, so a report carries the draft and definition it is about.
  datatype Report = Report(revision: nat, draft: Draft, content: Option<Definition>, errors: bool,
      warnings: set<string>)

  // A playtest version has no release number.
  datatype Version = Version(release: Option<nat>, revision: nat, definition: Definition)

  datatype Playtest = Playtest(version: nat, actor: nat, member: bool, debug: bool, ending: Option<string>,
      acknowledged: bool)

  datatype Shelf = Shelf(
    owner: nat, lifecycle: Lifecycle, revision: nat, draft: Draft, history: seq<Draft>,
    reports: seq<Report>, versions: seq<Version>, playtests: seq<Playtest>, current: Option<nat>)

  // The draft-to-definition parser and the findings of compile_draft on a draft.
  datatype Compiler = Compiler(parse: Draft -> Option<Definition>, flawed: Draft -> bool, warn: Draft -> set<string>)

  datatype Request = Request(expected: nat, report: nat, acknowledged: set<string>, playtested: bool)

  datatype Verdict = Refused(why: Refusal) | Nothing | Cached(report: Report) | Added(version: nat)

  datatype Refusal =
    | StoryUnavailable | RevisionConflict | ValidationFailed | ValidationOutdated
    | WarningsNotAcknowledged | AcknowledgementRequired | PlaythroughRequired

  // compile_draft
  function Compile(c: Compiler, revision: nat, d: Draft): Report {
    Report(revision, d, c.parse(d), c.parse(d).None? || c.flawed(d), c.warn(d))
  }

  predicate Editable(s: Shelf) {
    !s.lifecycle.Blocked? && !s.lifecycle.Archived?
  }

  function LastReport(reports: seq<Report>, revision: nat): Option<Report> {
    if reports == [] then None
    else if reports[|reports| - 1].revision == revision then Some(reports[|reports| - 1])
    else LastReport(reports[..|reports| - 1], revision)
  }

  // cached_validation
  function CachedValidation(s: Shelf, revision: nat): Verdict {
    if !Editable(s) then Refused(StoryUnavailable)
    else if s.revision != revision then Refused(RevisionConflict)
    else
      match LastReport(s.reports, revision)
      case None => Nothing
      case Some(r) => Cached(r)
  }

  // save_validation
  function SaveValidation(s: Shelf, r: Report): (Shelf, Verdict) {
    if !Editable(s) then (s, Refused(StoryUnavailable))
    else if s.revision != r.revision || s.draft != r.draft then (s, Refused(RevisionConflict))
    else (s.(reports := s.reports + [r]), Cached(r))
  }

  // create_playtest_version, with the report and definition prepared outside the lock
  function CreatePlaytest(s: Shelf, expected: nat, d: Definition, r: Report): (Shelf, Verdict) {
    if !Editable(s) then (s, Refused(StoryUnavailable))
    else if s.revision != expected then (s, Refused(RevisionConflict))
    else if r.errors || s.draft != r.draft then (s, Refused(ValidationFailed))
    else (s.(versions := s.versions + [Version(None, s.revision, d)]), Added(|s.versions|))
  }

  predicate Completed(s: Shelf, p: Playtest, content: Definition) {
    && p.version < |s.versions| && s.versions[p.version].release.None? && s.versions[p.version].definition == content
    && p.actor == s.owner && p.member && !p.debug && p.ending.Some?
  }

  // The newest completed playtest by the owner of exactly this content
  function LastCompleted(s: Shelf, content: Definition, n: nat): (r: Option<nat>)
    requires n <= |s.playtests|
    ensures r.Some? ==> r.value < n && Completed(s, s.playtests[r.value], content)
    ensures r.None? ==> forall i :: 0 <= i < n ==> !Completed(s, s.playtests[i], content)
  {
    if n == 0 then None
    else if Completed(s, s.playtests[n - 1], content) then Some(n - 1)
    else LastCompleted(s, content, n - 1)
  }

  function LastRelease(versions: seq<Version>): nat {
    if versions == [] then 0
    else
      var before := LastRelease(versions[..|versions| - 1]);
      var last := versions[|versions| - 1].release;
      if last.Some? && last.value > before then last.value else before
  }

  // The locked part of publish; `checked` and `definition` were prepared outside the lock
  function Publish(s: Shelf, q: Request, checked: Report, definition: Definition): (Shelf, Verdict) {
    if !s.lifecycle.Live? then (s, Refused(StoryUnavailable))
    else if s.revision != q.expected then (s, Refused(RevisionConflict))
    else if q.report >= |s.reports| then (s, Refused(ValidationOutdated))
    else
      var stored := s.reports[q.report];
      if stored.revision != s.revision || stored.content != checked.content || stored.draft != s.draft
        || stored.draft != checked.draft then (s, Refused(ValidationOutdated))
      else if stored.errors then (s, Refused(ValidationFailed))
      else if !(stored.warnings + checked.warnings <= q.acknowledged) then (s, Refused(WarningsNotAcknowledged))
      else if !q.playtested then (s, Refused(AcknowledgementRequired))
      else if checked.content.None? then (s, Refused(PlaythroughRequired))
      else
        var played := LastCompleted(s, checked.content.value, |s.playtests|);
        if played.None? || FindEnding(definition.endings, s.playtests[played.value].ending.value).None? then
          (s, Refused(PlaythroughRequired))
        else
          (s.(playtests := s.playtests[played.value := s.playtests[played.value].(acknowledged := true)],
              versions := s.versions + [Version(Some(LastRelease(s.versions) + 1), s.revision, definition)],
              current := Some(|s.versions|)),
           Added(|s.versions|))
  }

  // ---- the store, whose methods update the rows in place ----

  class ShelfStore {
    const owner: nat
    var lifecycle: Lifecycle
    var revision: nat
    var draft: Draft
    var history: seq<Draft>
    var reports: seq<Report>
    var versions: seq<Version>
    var playtests: seq<Playtest>
    var current: Option<nat>

    ghost function Contents(): Shelf reads this {
      Shelf(owner, lifecycle, revision, draft, history, reports, versions, playtests, current)
    }

    constructor (author: nat, d: Draft)
      ensures Contents() == Shelf(author, Live, 1, d, [d], [], [], [], None)
    {
      owner, lifecycle, revision, draft, history := author, Live, 1, d, [d];
      reports, versions, playtests, current := [], [], [], None;
    }

    method FindReport(at: nat) returns (r: Option<Report>)
      ensures r == LastReport(reports, at)
    {
      var i := |reports|;
      assert reports[..i] == reports;
      while i > 0
        invariant 0 <= i <= |reports| && LastReport(reports, at) == LastReport(reports[..i], at)
      {
        assert reports[..i][..i - 1] == reports[..i - 1];
        if reports[i - 1].revision == at { return Some(reports[i - 1]); }
        i := i - 1;
      }
      r := None;
    }

    method CheckCache(at: nat) returns (r: Verdict)
      ensures r == CachedValidation(Contents(), at)
    {
      if lifecycle.Blocked? || lifecycle.Archived? { return Refused(StoryUnavailable); }
      if revision != at { return Refused(RevisionConflict); }
      var report := FindReport(at);
      r := if report.None? then Nothing else Cached(report.value);
    }

    method StoreReport(report: Report) returns (r: Verdict)
      modifies this`reports
      ensures (Contents(), r) == SaveValidation(old(Contents()), report)
    {
      if lifecycle.Blocked? || lifecycle.Archived? { return Refused(StoryUnavailable); }
      if revision != report.revision || draft != report.draft { return Refused(RevisionConflict); }
      reports := reports + [report];
      r := Cached(report);
    }

    method HighestRelease() returns (n: nat)
      ensures n == LastRelease(versions)
    {
      n := 0;
      for i := 0 to |versions|
        invariant n == LastRelease(versions[..i])
      {
        assert versions[..i + 1][..i] == versions[..i];
        if versions[i].release.Some? && versions[i].release.value > n { n := versions[i].release.value; }
      }
      assert versions[..|versions|] == versions;
    }

    method FindCompleted(content: Definition) returns (r: Option<nat>)
      ensures r == LastCompleted(Contents(), content, |playtests|)
    {
      var i := |playtests|;
      while i > 0
        invariant 0 <= i <= |playtests|
        invariant LastCompleted(Contents(), content, |playtests|) == LastCompleted(Contents(), content, i)
      {
        var p := playtests[i - 1];
        if p.version < |versions| && versions[p.version].release.None? && versions[p.version].definition == content &&
           p.actor == owner && p.member && !p.debug && p.ending.Some? {
          return Some(i - 1);
        }
        i := i - 1;
      }
      r := None;
    }

    method Release(q: Request, checked: Report, definition: Definition) returns (r: Verdict)
      modifies this`playtests, this`versions, this`current
      ensures (Contents(), r) == Publish(old(Contents()), q, checked, definition)
    {
      if !lifecycle.Live? { return Refused(StoryUnavailable); }
      if revision != q.expected { return Refused(RevisionConflict); }
      if q.report >= |reports| { return Refused(ValidationOutdated); }
      var stored := reports[q.report];
      if stored.revision != revision || stored.content != checked.content || stored.draft != draft
        || stored.draft != checked.draft {
        return Refused(ValidationOutdated);
      }
      if stored.errors { return Refused(ValidationFailed); }
      if !(stored.warnings + checked.warnings <= q.acknowledged) { return Refused(WarningsNotAcknowledged); }
      if !q.playtested { return Refused(AcknowledgementRequired); }
      if checked.content.None? { return Refused(PlaythroughRequired); }
      var played := FindCompleted(checked.content.value);
      if played.None? || FindEnding(definition.endings, playtests[played.value].ending.value).None? {
        return Refused(PlaythroughRequired);
      }
      var last := HighestRelease();
      playtests := playtests[played.value := playtests[played.value].(acknowledged := true)];
      versions := versions + [Version(Some(last + 1), revision, definition)];
      current := Some(|versions| - 1);
      r := Added(|versions| - 1);
    }
  }
}

/** All interleavings of publishing with editing, validating and playtesting. */
module PublishingLaws {
  import opened Outcomes
  import opened Proposals
  import opened Publishing

  // A publish or playtest request in flight: the draft it read, and its report once it has one.
  datatype Flight = Flight(revision: nat, draft: Draft, checked: Option<Report>)

  datatype System = System(shelf: Shelf, flights: set<Flight>)

  datatype Step =
    | ReadDraft
    | UseCache(flight: Flight)
    | Validate(flight: Flight)
    | MakePlaytest(flight: Flight, expected: nat)
    | PublishStory(flight: Flight, request: Request)
    | EditDraft(draft: Draft)
    | StartPlaytest(playtest: Playtest)
    | ChangePlaytest(index: nat, member: bool, debug: bool, ending: Option<string>)
    | SetLifecycle(lifecycle: Lifecycle)

  predicate Enabled(s: System, step: Step) {
    match step
    case UseCache(f) => f in s.flights
    case Validate(f) => f in s.flights
    case MakePlaytest(f, _) => f in s.flights && f.checked.Some?
    case PublishStory(f, q) => f in s.flights && f.checked.Some? && f.revision == q.expected && !f.checked.value.errors
    case ChangePlaytest(i, _, _, _) => i < |s.shelf.playtests|
    case StartPlaytest(p) => p.version < |s.shelf.versions|
    case _ => true
  }

  function Perform(c: Compiler, s: System, step: Step): System
    requires Enabled(s, step)
  {
    var w := s.shelf;
    match step
    case ReadDraft => s.(flights := s.flights + {Flight(w.revision, w.draft, None)})
    case UseCache(f) =>
      var v := CachedValidation(w, f.revision);
      if v.Cached? then s.(flights := s.flights + {f.(checked := Some(v.report))}) else s
    case Validate(f) =>
      var (shelf, v) := SaveValidation(w, Compile(c, f.revision, f.draft));
      if v.Cached? then System(shelf, s.flights + {f.(checked := Some(v.report))}) else s
    case MakePlaytest(f, expected) =>
      if f.checked.value.errors || f.revision != expected || c.parse(f.draft).None? then s
      else s.(shelf := CreatePlaytest(w, expected, c.parse(f.draft).value, f.checked.value).0)
    case PublishStory(f, q) =>
      if c.parse(f.draft).None? then s else s.(shelf := Publish(w, q, f.checked.value, c.parse(f.draft).value).0)
    case EditDraft(d) => s.(shelf := w.(revision := w.revision + 1, draft := d, history := w.history + [d]))
    case StartPlaytest(p) => s.(shelf := w.(playtests := w.playtests + [p]))
    case ChangePlaytest(i, member, debug, ending) =>
      s.(shelf := w.(playtests :=
          w.playtests[i := w.playtests[i].(member := member, debug := debug, ending := ending)]))
    case SetLifecycle(l) => s.(shelf := w.(lifecycle := l))
  }

  // ---- the invariant ----

  // The report is what compile_draft says about that revision.
  ghost predicate ReportOk(c: Compiler, history: seq<Draft>, r: Report) {
    1 <= r.revision <= |history| && r == Compile(c, r.revision, history[r.revision - 1])
  }

  // The version's definition is the one of its revision, which validated without errors.
  ghost predicate VersionOk(c: Compiler, history: seq<Draft>, v: Version) {
    && 1 <= v.revision <= |history| && c.parse(history[v.revision - 1]) == Some(v.definition)
    && !Compile(c, v.revision, history[v.revision - 1]).errors
  }

  ghost predicate FlightOk(c: Compiler, history: seq<Draft>, f: Flight) {
    && 1 <= f.revision <= |history| && f.draft == history[f.revision - 1]
    && (f.checked.Some? ==> f.checked.value == Compile(c, f.revision, f.draft))
  }

  function Releases(versions: seq<Version>): seq<nat> {
    if versions == [] then []
    else
      var last := versions[|versions| - 1];
      Releases(versions[..|versions| - 1]) + (if last.release.Some? then [last.release.value] else [])
  }

  // Release numbers run from 1 without gaps.
  ghost predicate Consecutive(numbers: seq<nat>) {
    forall i :: 0 <= i < |numbers| ==> numbers[i] == i + 1
  }

  ghost predicate Invariant(c: Compiler, s: System) {
    var w := s.shelf;
    && w.revision == |w.history| && w.revision >= 1 && w.draft == w.history[w.revision - 1]
    && (forall i :: 0 <= i < |w.reports| ==> ReportOk(c, w.history, w.reports[i]))
    && (forall i :: 0 <= i < |w.versions| ==> VersionOk(c, w.history, w.versions[i]))
    && Consecutive(Releases(w.versions))
    && (w.current.Some? ==>
          w.current.value < |w.versions| && w.versions[w.current.value].release == Some(|Releases(w.versions)|))
    && (forall f :: f in s.flights ==> FlightOk(c, w.history, f))
  }

  lemma {:induction false} LastOfConsecutive(versions: seq<Version>)
    requires Consecutive(Releases(versions))
    ensures LastRelease(versions) == |Releases(versions)|
  {
    if versions != [] {
      var init := versions[..|versions| - 1];
      assert forall i :: 0 <= i < |Releases(init)| ==> Releases(init)[i] == Releases(versions)[i];
      LastOfConsecutive(init);
      if versions[|versions| - 1].release.Some? {
        assert Releases(versions)[|Releases(init)|] == versions[|versions| - 1].release.value;
      }
    }
  }

  lemma {:induction false} OneMore(versions: seq<Version>, v: Version)
    ensures Releases(versions + [v]) == Releases(versions) + (if v.release.Some? then [v.release.value] else [])
  {
    assert (versions + [v])[..|versions|] == versions;
  }

  lemma {:induction false} LastReportFound(reports: seq<Report>, revision: nat)
    ensures LastReport(reports, revision).Some? ==>
      LastReport(reports, revision).value in reports && LastReport(reports, revision).value.revision == revision
  {
    if reports != [] { LastReportFound(reports[..|reports| - 1], revision); }
  }

  // A request in flight whose revision is still the current one read the current draft.
  lemma FlightIsCurrent(c: Compiler, s: System, f: Flight)
    requires Invariant(c, s) && f in s.flights && f.revision == s.shelf.revision
    ensures f.draft == s.shelf.draft
  {
  }

  lemma VersionAdded(c: Compiler, s: System, v: Version)
    requires Invariant(c, s) && VersionOk(c, s.shelf.history, v) && v.release.None?
    ensures Invariant(c, s.(shelf := s.shelf.(versions := s.shelf.versions + [v])))
  {
    OneMore(s.shelf.versions, v);
    assert Releases(s.shelf.versions) + [] == Releases(s.shelf.versions);
  }

  lemma ReleaseAdded(c: Compiler, s: System, v: Version, playtests: seq<Playtest>)
    requires Invariant(c, s) && VersionOk(c, s.shelf.history, v) && v.release == Some(LastRelease(s.shelf.versions) + 1)
    ensures Invariant(c, s.(shelf :=
        s.shelf.(playtests := playtests, versions := s.shelf.versions + [v], current := Some(|s.shelf.versions|))))
  {
    LastOfConsecutive(s.shelf.versions);
    OneMore(s.shelf.versions, v);
  }

  // A release is the definition of the locked draft revision, validated without errors, and content
  // its owner has played to an ending without debugging.
  lemma ReleaseIsLockedDraft(c: Compiler, s: System, f: Flight, q: Request)
    requires Invariant(c, s) && Enabled(s, PublishStory(f, q)) && c.parse(f.draft).Some?
    ensures var (w, v) := Publish(s.shelf, q, f.checked.value, c.parse(f.draft).value);
      v.Added? ==>
        && v.version == |s.shelf.versions| < |w.versions| && w.versions[v.version].revision == s.shelf.revision
        && c.parse(s.shelf.draft) == Some(w.versions[v.version].definition)
        && VersionOk(c, s.shelf.history, w.versions[v.version])
        && w.versions[v.version].release == Some(|Releases(s.shelf.versions)| + 1)
        && exists i ::
            0 <= i < |s.shelf.playtests| && Completed(s.shelf, s.shelf.playtests[i], w.versions[v.version].definition)
  {
    var (w, v) := Publish(s.shelf, q, f.checked.value, c.parse(f.draft).value);
    if v.Added? {
      FlightIsCurrent(c, s, f);
      LastOfConsecutive(s.shelf.versions);
      var played := LastCompleted(s.shelf, f.checked.value.content.value, |s.shelf.playtests|);
      assert Completed(s.shelf, s.shelf.playtests[played.value], f.checked.value.content.value);
    }
  }

  lemma FlightAdded(c: Compiler, s: System, f: Flight)
    requires Invariant(c, s) && FlightOk(c, s.shelf.history, f)
    ensures Invariant(c, s.(flights := s.flights + {f}))
  {
  }

  lemma CacheIsFresh(c: Compiler, s: System, f: Flight)
    requires Invariant(c, s) && f in s.flights && CachedValidation(s.shelf, f.revision).Cached?
    ensures CachedValidation(s.shelf, f.revision).report == Compile(c, f.revision, f.draft)
  {
    LastReportFound(s.shelf.reports, f.revision);
    var r := CachedValidation(s.shelf, f.revision).report;
    var i :| 0 <= i < |s.shelf.reports| && s.shelf.reports[i] == r;
    assert ReportOk(c, s.shelf.history, s.shelf.reports[i]);
  }

  lemma ReportAdded(c: Compiler, s: System, r: Report)
    requires Invariant(c, s) && ReportOk(c, s.shelf.history, r)
    ensures Invariant(c, s.(shelf := s.shelf.(reports := s.shelf.reports + [r])))
  {
  }

  lemma DraftEdited(c: Compiler, s: System, d: Draft)
    requires Invariant(c, s)
    ensures Invariant(c, s.(shelf :=
        s.shelf.(revision := s.shelf.revision + 1, draft := d, history := s.shelf.history + [d])))
  {
  }

  lemma UseCacheKeeps(c: Compiler, s: System, f: Flight)
    requires Invariant(c, s) && Enabled(s, UseCache(f))
    ensures Invariant(c, Perform(c, s, UseCache(f)))
  {
    if CachedValidation(s.shelf, f.revision).Cached? {
      CacheIsFresh(c, s, f);
      FlightAdded(c, s, f.(checked := Some(CachedValidation(s.shelf, f.revision).report)));
    }
  }

  lemma ValidateKeeps(c: Compiler, s: System, f: Flight)
    requires Invariant(c, s) && Enabled(s, Validate(f))
    ensures Invariant(c, Perform(c, s, Validate(f)))
  {
    var r := Compile(c, f.revision, f.draft);
    if SaveValidation(s.shelf, r).1.Cached? {
      ReportAdded(c, s, r);
      FlightAdded(c, s.(shelf := SaveValidation(s.shelf, r).0), f.(checked := Some(r)));
    }
  }

  lemma MakePlaytestKeeps(c: Compiler, s: System, f: Flight, expected: nat)
    requires Invariant(c, s) && Enabled(s, MakePlaytest(f, expected))
    ensures Invariant(c, Perform(c, s, MakePlaytest(f, expected)))
  {
    if !f.checked.value.errors && c.parse(f.draft).Some? && f.revision == expected
       && CreatePlaytest(s.shelf, expected, c.parse(f.draft).value, f.checked.value).1.Added? {
      FlightIsCurrent(c, s, f);
      VersionAdded(c, s, Version(None, s.shelf.revision, c.parse(f.draft).value));
    }
  }

  lemma PublishKeeps(c: Compiler, s: System, f: Flight, q: Request)
    requires Invariant(c, s) && Enabled(s, PublishStory(f, q))
    ensures Invariant(c, Perform(c, s, PublishStory(f, q)))
  {
    if c.parse(f.draft).Some? {
      var (w, v) := Publish(s.shelf, q, f.checked.value, c.parse(f.draft).value);
      if v.Added? {
        ReleaseIsLockedDraft(c, s, f, q);
        ReleaseAdded(c, s, w.versions[v.version], w.playtests);
      }
    }
  }

  lemma OtherStepKeeps(c: Compiler, s: System, step: Step)
    requires Invariant(c, s) && Enabled(s, step) && (step.StartPlaytest? || step.ChangePlaytest? || step.SetLifecycle?)
    ensures Invariant(c, Perform(c, s, step))
  {
  }

  // Every step, in any interleaving, keeps the invariant.
  lemma StepKeeps(c: Compiler, s: System, step: Step)
    requires Invariant(c, s) && Enabled(s, step)
    ensures Invariant(c, Perform(c, s, step))
  {
    match step
    case ReadDraft => FlightAdded(c, s, Flight(s.shelf.revision, s.shelf.draft, None));
    case UseCache(f) => UseCacheKeeps(c, s, f);
    case Validate(f) => ValidateKeeps(c, s, f);
    case MakePlaytest(f, expected) => MakePlaytestKeeps(c, s, f, expected);
    case PublishStory(f, q) => PublishKeeps(c, s, f, q);
    case EditDraft(d) => DraftEdited(c, s, d);
    case _ => OtherStepKeeps(c, s, step);
  }

  // Payloads of earlier revisions and versions are never changed or removed.
  lemma StepExtends(c: Compiler, s: System, step: Step)
    requires Enabled(s, step)
    ensures s.shelf.history <= Perform(c, s, step).shelf.history
      && s.shelf.versions <= Perform(c, s, step).shelf.versions
  {
  }

  ghost predicate Behavior(c: Compiler, run: seq<System>) {
    && run != [] && (exists owner, d :: run[0] == System(Shelf(owner, Live, 1, d, [d], [], [], [], None), {}))
    && forall i, j :: 0 <= i && j == i + 1 && j < |run| ==>
      exists step :: Enabled(run[i], step) && run[j] == Perform(c, run[i], step)
  }

  // In every state of every run each release is the error-free definition of its revision, and
  // release numbers are 1..n.
  lemma {:induction false} ReleasesAreValidated(c: Compiler, run: seq<System>, i: nat)
    requires Behavior(c, run) && i < |run|
    ensures Invariant(c, run[i])
    ensures i > 0 ==>
      run[i - 1].shelf.versions <= run[i].shelf.versions && run[i - 1].shelf.history <= run[i].shelf.history
  {
    if i == 0 {
      assert Releases(run[0].shelf.versions) == [];
    } else {
      ReleasesAreValidated(c, run, i - 1);
      var step :| Enabled(run[i - 1], step) && run[i] == Perform(c, run[i - 1], step);
      StepKeeps(c, run[i - 1], step);
      StepExtends(c, run[i - 1], step);
    }
  }
}
