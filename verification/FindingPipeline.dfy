/** The pipeline of validate_and_rank_findings around the checks of one finding: deduplication,
    ranking and the report, for any such check. */
module FindingPipeline {
  import opened Text
  import opened Schemas
  import opened Sorting
  import opened Lists
  import opened ReviewQuality
  import opened FindingChecks

  /** The checks of one finding, continuing the given counters. */
  type CheckOne = (Finding, multiset<Counter>) -> Verdict

  type FindingKey = (string, Option<int>, string, string)

  function KeptBy(check: CheckOne): Finding -> Option<Finding> {
    f => check(f, multiset{}).kept
  }

  /** The findings that pass, without later ones that repeat a key. */
  function UniqueBy(check: CheckOne, key: Finding -> FindingKey, findings: seq<Finding>): seq<Finding> {
    FirstPerKey(key, Passing(KeptBy(check), findings))
  }

  // ---------------------------------------------------------------- the report

  datatype Report = Report(
    received: nat, accepted: nat, overLimit: nat, counters: multiset<Counter>, invalidCardIds: seq<string>)

  function FreshReport(received: nat): Report {
    Report(received, 0, 0, multiset{}, [])
  }

  /** The report after the checks of one more finding gave their verdict. */
  function Noted(r: Report, f: Finding, v: Verdict): Report {
    r.(counters := v.counters, invalidCardIds := r.invalidCardIds + InventedIds(f, v, r.counters))
  }

  function NotedDuplicate(r: Report, duplicate: bool): Report {
    r.(counters := Raised(r.counters, Duplicate, duplicate))
  }

  /** The report when the loop has read `findings` of `received`. */
  function TallyBy(check: CheckOne, key: Finding -> FindingKey, findings: seq<Finding>, received: nat): Report {
    if findings == [] then FreshReport(received)
    else
      var before, last := findings[..|findings| - 1], findings[|findings| - 1];
      var r := TallyBy(check, key, before, received);
      var v := check(last, r.counters);
      NotedDuplicate(Noted(r, last, v), v.kept.Some? && HasKey(key, UniqueBy(check, key, before), key(v.kept.value)))
  }

  /** The sum of the nine *_dropped counters. */
  function TotalDropped(r: Report): nat {
    DroppedAlone(r.counters) + r.counters[Duplicate] + r.overLimit
  }

  // ---------------------------------------------------------------- one step of the loop

  /** What is kept does not depend on the counters, and every verdict counts once. */
  ghost predicate GoodCheck(check: CheckOne) {
    forall f, c :: check(f, c).kept == check(f, multiset{}).kept && CountsOnce(check(f, c), c)
  }

  lemma UniqueNext(check: CheckOne, key: Finding -> FindingKey, findings: seq<Finding>, i: nat)
    requires i < |findings|
    ensures var g := check(findings[i], multiset{}).kept;
            var before := UniqueBy(check, key, findings[..i]);
            UniqueBy(check, key, findings[..i + 1])
            == if g.None? || HasKey(key, before, key(g.value)) then before else before + [g.value]
  {
    var g := check(findings[i], multiset{}).kept;
    var kept, before := Passing(KeptBy(check), findings[..i + 1]), Passing(KeptBy(check), findings[..i]);
    assert findings[..i + 1][..i] == findings[..i];
    if g.Some? {
      assert kept == before + [g.value];
      assert kept[..|kept| - 1] == before;
    } else {
      assert kept == before;
    }
  }

  /** How the loop's two variables move when it reads findings[i]. */
  lemma LoopStep(check: CheckOne, key: Finding -> FindingKey, findings: seq<Finding>, i: nat, received: nat)
    requires i < |findings| && GoodCheck(check)
    ensures var before, r := UniqueBy(check, key, findings[..i]), TallyBy(check, key, findings[..i], received);
            var v := check(findings[i], r.counters);
            var duplicate := v.kept.Some? && HasKey(key, before, key(v.kept.value));
            && UniqueBy(check, key, findings[..i + 1])
               == (if v.kept.None? || duplicate then before else before + [v.kept.value])
            && TallyBy(check, key, findings[..i + 1], received) == NotedDuplicate(Noted(r, findings[i], v), duplicate)
  {
    UniqueNext(check, key, findings, i);
    assert findings[..i + 1][..i] == findings[..i];
  }

  /** Each finding read so far is still unique or is counted as dropped exactly once. */
  lemma {:induction false} TallyConserves(
      check: CheckOne, key: Finding -> FindingKey, findings: seq<Finding>, received: nat)
    requires GoodCheck(check)
    ensures var r := TallyBy(check, key, findings, received);
            && r.received == received && r.accepted == 0 && r.overLimit == 0
            && |findings| == |UniqueBy(check, key, findings)| + TotalDropped(r)
  {
    if findings != [] {
      var i := |findings| - 1;
      TallyConserves(check, key, findings[..i], received);
      LoopStep(check, key, findings, i, received);
      assert findings[..i + 1] == findings;
      var r := TallyBy(check, key, findings[..i], received);
      CountsAfter(check(findings[i], r.counters).counters, Duplicate);
    }
  }

  // ---------------------------------------------------------------- ranking

  function LineOrZero(f: Finding): int {
    if f.lineStart.None? then 0 else f.lineStart.value
  }

  predicate PlaceLeq(a: Finding, b: Finding) {
    if a.filePath == b.filePath then LineOrZero(a) <= LineOrZero(b) else StringLeq(a.filePath, b.filePath)
  }

  /** The sort key: severity, then confidence from high to low, then path, then line. */
  predicate RankLeq(a: Finding, b: Finding) {
    || SeverityOrder(a.severity) < SeverityOrder(b.severity)
    || (SeverityOrder(a.severity) == SeverityOrder(b.severity)
        && (a.confidence > b.confidence || (a.confidence == b.confidence && PlaceLeq(a, b))))
  }

  function MaxFindings(route: string): nat {
    if route == SIMPLE_FAILURE_REVIEW then 3
    else if route == POLICY_CONTEXT_REVIEW then 6
    else if route == DEEP_QUALITY_REVIEW then 8
    else 6
  }

  lemma PlaceIsPreorder()
    ensures TotalPreorder(PlaceLeq)
  {
    forall a, b
      ensures PlaceLeq(a, b) || PlaceLeq(b, a)
    {
      StringLeqTotal(a.filePath, b.filePath);
    }
    forall a, b, c | PlaceLeq(a, b) && PlaceLeq(b, c)
      ensures PlaceLeq(a, c)
    {
      if a.filePath != b.filePath && b.filePath != c.filePath {
        StringLeqTransitive(a.filePath, b.filePath, c.filePath);
        if a.filePath == c.filePath {
          StringLeqAntisymmetric(a.filePath, b.filePath);
        }
      }
    }
  }

  lemma RankIsPreorder()
    ensures TotalPreorder(RankLeq)
  {
    PlaceIsPreorder();
    forall a, b
      ensures RankLeq(a, b) || RankLeq(b, a)
    {
      assert PlaceLeq(a, b) || PlaceLeq(b, a);
    }
    forall a, b, c | RankLeq(a, b) && RankLeq(b, c)
      ensures RankLeq(a, c)
    {
      assert PlaceLeq(a, b) && PlaceLeq(b, c) ==> PlaceLeq(a, c);
    }
  }

  /** High before everything else, everything else before low. */
  predicate Graver(a: string, b: string) {
    (a == "high" && b != "high") || (a != "low" && b == "low")
  }

  lemma GraverMeans(a: Finding, b: Finding)
    ensures Graver(a.severity, b.severity) <==> SeverityOrder(a.severity) < SeverityOrder(b.severity)
  {
  }

  /** The graver first; among equally grave ones the surer, then by path and by line, where no line is
      line 0. */
  lemma RankMeans(a: Finding, b: Finding)
    ensures Graver(a.severity, b.severity) ==> RankLeq(a, b) && !RankLeq(b, a)
    ensures a.severity == b.severity ==>
              (a.confidence > b.confidence ==> RankLeq(a, b) && !RankLeq(b, a))
              && (a.confidence == b.confidence && a.filePath != b.filePath ==>
                    (RankLeq(a, b) <==> FirstInAlphabet(a.filePath, b.filePath)))
              && (a.confidence == b.confidence && a.filePath == b.filePath ==>
                    (a.lineStart == b.lineStart ==> RankLeq(a, b))
                    && (a.lineStart.Some? && b.lineStart.Some? ==>
                          (RankLeq(a, b) <==> a.lineStart.value <= b.lineStart.value))
                    && (a.lineStart.None? && b.lineStart.Some? ==> (RankLeq(a, b) <==> 0 <= b.lineStart.value))
                    && (a.lineStart.Some? && b.lineStart.None? ==> (RankLeq(a, b) <==> a.lineStart.value <= 0)))
  {
    GraverMeans(a, b);
    StringLeqMeans(a.filePath, b.filePath);
    StringLeqMeans(b.filePath, a.filePath);
  }

  /** At most three findings in a simple review, six in a review by policies, eight in a deep one. */
  lemma LimitIs(route: string)
    ensures route == "simple_failure_review" ==> MaxFindings(route) == 3
    ensures route == "policy_context_review" ==> MaxFindings(route) == 6
    ensures route == "deep_quality_review" ==> MaxFindings(route) == 8
    ensures route !in {"simple_failure_review", "policy_context_review", "deep_quality_review"} ==>
              MaxFindings(route) == 6
  {
  }

  // ---------------------------------------------------------------- running the pipeline on its output

  lemma QuietStep(check: CheckOne, key: Finding -> FindingKey, before: seq<Finding>, last: Finding, received: nat)
    requires check(last, multiset{}) == Verdict(Some(last), multiset{}) && !HasKey(key, before, key(last))
    requires UniqueBy(check, key, before) == before && TallyBy(check, key, before, received) == FreshReport(received)
    ensures TallyBy(check, key, before + [last], received) == FreshReport(received)
  {
    assert (before + [last])[..|before|] == before;
  }

  lemma QuietUnique(check: CheckOne, key: Finding -> FindingKey, fs: seq<Finding>)
    requires DistinctBy(key, fs) && forall g :: g in fs ==> check(g, multiset{}).kept == Some(g)
    ensures UniqueBy(check, key, fs) == fs
  {
    PassingFixed(KeptBy(check), fs);
    DistinctIsFixed(key, fs);
  }

  /** When every finding passes unchanged and keys differ, nothing is dropped or counted. */
  lemma {:induction false} QuietRun(check: CheckOne, key: Finding -> FindingKey, fs: seq<Finding>, received: nat)
    requires DistinctBy(key, fs)
    requires forall g :: g in fs ==> check(g, multiset{}) == Verdict(Some(g), multiset{})
    ensures UniqueBy(check, key, fs) == fs
    ensures TallyBy(check, key, fs, received) == FreshReport(received)
  {
    QuietUnique(check, key, fs);
    if fs != [] {
      var before, last := fs[..|fs| - 1], fs[|fs| - 1];
      QuietRun(check, key, before, received);
      QuietStep(check, key, before, last, received);
      assert before + [last] == fs;
    }
  }

  /** When some finding does not pass and the others pass unchanged, fewer are left. */
  lemma LossyRun(check: CheckOne, key: Finding -> FindingKey, fs: seq<Finding>)
    requires forall g :: g in fs ==> check(g, multiset{}).kept == Some(g) || check(g, multiset{}).kept == None
    requires exists g :: g in fs && check(g, multiset{}).kept == None
    ensures |UniqueBy(check, key, fs)| < |fs|
  {
    PassingFixed(KeptBy(check), fs);
    FirstPerKeyDistinct(key, Passing(KeptBy(check), fs));
  }
}
