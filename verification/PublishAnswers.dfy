/** What validating, playtesting and publishing a story answer and leave behind, in terms of the rows. */
module PublishAnswers {
  import opened Outcomes
  import opened Scenarios
  import opened Publishing
  import opened PublishingLaws

  ghost predicate Open(s: Shelf) {
    s.lifecycle !in {Archived, Blocked}
  }

  // ---- reports ----

  ghost predicate NewestReport(s: Shelf, revision: nat, n: nat) {
    && n < |s.reports| && s.reports[n].revision == revision
    && forall m :: n < m < |s.reports| ==> s.reports[m].revision != revision
  }

  lemma {:induction false} LastReportAnswer(reports: seq<Report>, revision: nat, n: nat)
    requires n < |reports| && reports[n].revision == revision
    requires forall m :: n < m < |reports| ==> reports[m].revision != revision
    ensures LastReport(reports, revision) == Some(reports[n])
  {
    var last := |reports| - 1;
    if n < last { LastReportAnswer(reports[..last], revision, n); }
  }

  lemma {:induction false} NoReport(reports: seq<Report>, revision: nat)
    requires forall m :: 0 <= m < |reports| ==> reports[m].revision != revision
    ensures LastReport(reports, revision).None?
  {
    if reports != [] { NoReport(reports[..|reports| - 1], revision); }
  }

  // The newest report of the current revision is used again; one of another revision never is.
  lemma CacheAnswer(s: Shelf, revision: nat)
    ensures var v := CachedValidation(s, revision);
      && (!Open(s) || revision != s.revision ==> v.Refused?)
      && (Open(s) && revision == s.revision ==>
            && (forall n: nat :: NewestReport(s, revision, n) ==> v == Cached(s.reports[n]))
            && ((forall m :: 0 <= m < |s.reports| ==> s.reports[m].revision != revision) ==> v == Verdict.Nothing))
  {
    forall n: nat | NewestReport(s, revision, n) ensures LastReport(s.reports, revision) == Some(s.reports[n]) {
      LastReportAnswer(s.reports, revision, n);
    }
    if forall m :: 0 <= m < |s.reports| ==> s.reports[m].revision != revision { NoReport(s.reports, revision); }
  }

  lemma SaveAnswer(s: Shelf, r: Report)
    ensures var (t, v) := SaveValidation(s, r);
      if Open(s) && r.revision == s.revision && r.draft == s.draft then v == Cached(r)
        && t == s.(reports := s.reports + [r])
      else t == s && v.Refused?
  {
  }

  // ---- playtests ----

  // A playtest version is made of the locked draft, when that is the one that validated without errors.
  lemma PlaytestAnswer(s: Shelf, expected: nat, d: Definition, r: Report)
    ensures var (t, v) := CreatePlaytest(s, expected, d, r);
      if Open(s) && expected == s.revision && !r.errors && r.draft == s.draft then
        v == Added(|s.versions|) && t == s.(versions := s.versions + [Version(None, s.revision, d)])
      else t == s && v.Refused?
  {
  }

  // The owner, still a player of it, has played this content to an ending without debugging.
  ghost predicate Played(s: Shelf, p: Playtest, content: Definition) {
    && p.actor == s.owner && p.member && !p.debug && p.ending.Some?
    && p.version < |s.versions| && s.versions[p.version].release.None? && s.versions[p.version].definition == content
  }

  ghost predicate NewestPlayed(s: Shelf, content: Definition, n: nat) {
    && n < |s.playtests| && Played(s, s.playtests[n], content)
    && forall m :: n < m < |s.playtests| ==> !Played(s, s.playtests[m], content)
  }

  lemma {:induction false} PlayedIsCompleted(s: Shelf, content: Definition, n: nat)
    requires NewestPlayed(s, content, n)
    ensures LastCompleted(s, content, |s.playtests|) == Some(n)
  {
    LastPlayed(s, content, n, |s.playtests|);
  }

  lemma {:induction false} LastPlayed(s: Shelf, content: Definition, n: nat, k: nat)
    requires NewestPlayed(s, content, n) && n < k <= |s.playtests|
    ensures LastCompleted(s, content, k) == Some(n)
    decreases k
  {
    if n < k - 1 {
      assert !Played(s, s.playtests[k - 1], content);
      LastPlayed(s, content, n, k - 1);
    }
  }

  // ---- releases ----

  // The report the author refers to is about the locked draft and about what was just validated, and has no errors.
  ghost predicate Vouched(s: Shelf, q: Request, checked: Report) {
    && q.report < |s.reports| && checked.content.Some?
    && var stored := s.reports[q.report];
       && stored.revision == s.revision && stored.draft == s.draft == checked.draft
       && stored.content == checked.content && !stored.errors
  }

  // The author has acknowledged every warning of both reports, and the playtest.
  ghost predicate Acknowledged(s: Shelf, q: Request, checked: Report)
    requires q.report < |s.reports|
  {
    && q.playtested
    && forall w :: w in s.reports[q.report].warnings || w in checked.warnings ==> w in q.acknowledged
  }

  ghost predicate KnownEnd(d: Definition, ending: string) {
    exists i :: 0 <= i < |d.endings| && d.endings[i].ref == ending
  }

  ghost predicate MayRelease(s: Shelf, q: Request, checked: Report, d: Definition, n: nat) {
    && s.lifecycle == Live && s.revision == q.expected && Vouched(s, q, checked) && Acknowledged(s, q, checked)
    && NewestPlayed(s, checked.content.value, n) && KnownEnd(d, s.playtests[n].ending.value)
  }

  lemma {:induction false} KnownIsFound(endings: seq<Ending>, ref: string)
    ensures FindEnding(endings, ref).Some? <==> exists i :: 0 <= i < |endings| && endings[i].ref == ref
  {
    if endings != [] {
      KnownIsFound(endings[1..], ref);
      assert forall i :: 1 <= i < |endings| ==> endings[i] == endings[1..][i - 1];
    }
  }

  // The next release number is above all others, and the first is 1.
  ghost predicate NextRelease(versions: seq<Version>, n: nat) {
    && n >= 1 && (forall i :: 0 <= i < |versions| && versions[i].release.Some? ==> versions[i].release.value < n)
    && (n > 1 ==> exists i :: 0 <= i < |versions| && versions[i].release == Some((n - 1) as nat))
  }

  lemma {:induction false} LastIsNext(versions: seq<Version>)
    ensures NextRelease(versions, LastRelease(versions) + 1)
  {
    if versions != [] {
      var init := versions[..|versions| - 1];
      LastIsNext(init);
      assert forall i :: 0 <= i < |init| ==> versions[i] == init[i];
      var last := versions[|versions| - 1].release;
      if last.Some? && last.value > LastRelease(init) { assert versions[|versions| - 1].release == last; }
    }
  }

  // Publishing releases the definition exactly when all of that holds.
  lemma PublishAnswer(s: Shelf, q: Request, checked: Report, d: Definition)
    ensures var (t, v) := Publish(s, q, checked, d);
      && (v.Added? <==> exists n: nat :: MayRelease(s, q, checked, d, n))
      && (!v.Added? ==> t == s && v.Refused?)
      && forall n: nat :: MayRelease(s, q, checked, d, n) ==>
        && v == Added(|s.versions|) && t.current == Some(|s.versions|) && |t.versions| == |s.versions| + 1
        && t == s.(playtests := s.playtests[n := s.playtests[n].(acknowledged := true)], versions := t.versions,
            current := t.current)
        && s.versions <= t.versions && t.versions[|s.versions|].revision == s.revision
        && t.versions[|s.versions|].definition == d && t.versions[|s.versions|].release.Some?
        && NextRelease(s.versions, t.versions[|s.versions|].release.value)
  {
    LastIsNext(s.versions);
    forall n: nat | MayRelease(s, q, checked, d, n)
      ensures LastCompleted(s, checked.content.value, |s.playtests|) == Some(n)
        && FindEnding(d.endings, s.playtests[n].ending.value).Some?
    {
      PlayedIsCompleted(s, checked.content.value, n);
      KnownIsFound(d.endings, s.playtests[n].ending.value);
    }
    if Publish(s, q, checked, d).1.Added? { ReleasedMay(s, q, checked, d); }
  }

  lemma ReleasedMay(s: Shelf, q: Request, checked: Report, d: Definition)
    requires Publish(s, q, checked, d).1.Added?
    ensures exists n: nat :: MayRelease(s, q, checked, d, n)
  {
    var content := checked.content.value;
    var n := LastCompleted(s, content, |s.playtests|).value;
    LastIsNewest(s, content, |s.playtests|);
    KnownIsFound(d.endings, s.playtests[n].ending.value);
    assert MayRelease(s, q, checked, d, n);
  }

  lemma {:induction false} LastIsNewest(s: Shelf, content: Definition, k: nat)
    requires k <= |s.playtests| && LastCompleted(s, content, k).Some?
    ensures var n := LastCompleted(s, content, k).value;
      n < k && Played(s, s.playtests[n], content) && forall m :: n < m < k ==> !Played(s, s.playtests[m], content)
    decreases k
  {
    if !Completed(s, s.playtests[k - 1], content) { LastIsNewest(s, content, k - 1); }
  }

  // In every state of every run, a release has all warnings of the locked draft acknowledged.
  lemma WarningsAreAcknowledged(c: Compiler, run: seq<System>, k: nat, f: Flight, q: Request)
    requires Behavior(c, run) && k < |run| && Enabled(run[k], PublishStory(f, q)) && c.parse(f.draft).Some?
    requires Publish(run[k].shelf, q, f.checked.value, c.parse(f.draft).value).1.Added?
    ensures q.playtested && forall w :: w in c.warn(run[k].shelf.draft) ==> w in q.acknowledged
  {
    ReleasesAreValidated(c, run, k);
    var s := run[k].shelf;
    PublishAnswer(s, q, f.checked.value, c.parse(f.draft).value);
    var n: nat :| MayRelease(s, q, f.checked.value, c.parse(f.draft).value, n);
    assert ReportOk(c, s.history, s.reports[q.report]);
  }

  // Every version there is was made from a draft that parsed to it and in which nothing was found wrong.
  lemma VersionsAreSound(c: Compiler, run: seq<System>, k: nat, i: nat)
    requires Behavior(c, run) && k < |run| && i < |run[k].shelf.versions|
    ensures var (s, v) := (run[k].shelf, run[k].shelf.versions[i]);
      && 1 <= v.revision <= |s.history|
      && c.parse(s.history[v.revision - 1]) == Some(v.definition) && !c.flawed(s.history[v.revision - 1])
  {
    ReleasesAreValidated(c, run, k);
    assert VersionOk(c, run[k].shelf.history, run[k].shelf.versions[i]);
  }
}
