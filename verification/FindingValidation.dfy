/** validate_and_rank_findings: the loop, the pipeline it refines, and the pipeline's laws. */
module FindingValidation {
  import opened Text
  import opened Schemas
  import opened Sorting
  import opened Lists
  import opened ReviewQuality
  import opened FindingChecks
  import opened FindingPipeline
  import DiffReaders

  function Checks(t: TextOps, inputs: Inputs): CheckOne {
    (f, c) => Check(t, TablesOf(inputs), f, c)
  }

  /** _finding_key: file, line, category and the message up to case and spacing. */
  function KeyOf(t: TextOps): Finding -> FindingKey {
    (f: Finding) => (f.filePath, f.lineStart, t.lower(f.category), Join(" ", t.words(t.lower(f.message))))
  }

  function Unique(t: TextOps, inputs: Inputs, findings: seq<Finding>): seq<Finding> {
    UniqueBy(Checks(t, inputs), KeyOf(t), findings)
  }

  /** The whole pipeline. */
  function Accepted(t: TextOps, inputs: Inputs, findings: seq<Finding>): seq<Finding> {
    Take(StableSort(RankLeq, Unique(t, inputs, findings)), MaxFindings(inputs.route))
  }

  function FinalReport(t: TextOps, inputs: Inputs, findings: seq<Finding>): Report {
    var r := TallyBy(Checks(t, inputs), KeyOf(t), findings, |findings|);
    r.(overLimit := |Unique(t, inputs, findings)| - |Accepted(t, inputs, findings)|,
       accepted := |Accepted(t, inputs, findings)|,
       invalidCardIds := SortedSet(r.invalidCardIds))
  }

  lemma ChecksAreGood(t: TextOps, inputs: Inputs)
    ensures GoodCheck(Checks(t, inputs))
  {
    forall f, c
      ensures Check(t, TablesOf(inputs), f, c).kept == Check(t, TablesOf(inputs), f, multiset{}).kept
      ensures CountsOnce(Check(t, TablesOf(inputs), f, c), c)
    {
      CheckKeepsAlike(t, TablesOf(inputs), f, c);
      CheckCounts(t, TablesOf(inputs), f, c);
    }
  }

  // ---------------------------------------------------------------- the loop

  /** The card's checks on one finding: its guard, its cap, its measured evidence. */
  method ExamineCard(t: TextOps, tables: Tables, finding: Finding, card: KnowledgeCard,
                     severityIn: Severity, reportIn: Report)
    returns (dropped: bool, severity: Severity, evidence: seq<(string, Value)>, report: Report)
    requires finding.filePath in tables.files
    ensures CheckCard(t, tables, finding, severityIn, card, reportIn.counters)
         == if dropped then Verdict(None, report.counters)
            else Keep(t, tables, finding, severity, evidence, report.counters)
    ensures report == reportIn.(counters := report.counters)
    ensures report.counters[InvalidCard] == reportIn.counters[InvalidCard]
  {
    dropped, severity, evidence, report := false, severityIn, finding.evidence, reportIn;
    if Forbidden(t, card, finding) {
      report := report.(counters := report.counters + multiset{CardGuard});
      dropped := true;
      return;
    }
    var severityCap := Alias(t.lower(card.severityCap));
    if Rank(severity) < Rank(severityCap) {
      severity := severityCap;
      report := report.(counters := report.counters + multiset{SeverityCapped});
    }
    assert severity == Capped(severityIn, severityCap);
    assert report.counters == Raised(reportIn.counters, SeverityCapped, severity != severityIn);
    if card.cardId == COMPLEXITY_CARD_ID {
      var named := Lookup(evidence, METRIC_ID);
      var metricId := if named.Some? && named.value.Truthy() then named.value.Shown() else "";
      if metricId !in tables.metrics
         || tables.metrics[metricId].filePath != finding.filePath
         || !tables.metrics[metricId].exceededThreshold
         || tables.metrics[metricId].delta <= 0 {
        report := report.(counters := report.counters + multiset{ComplexityEvidence});
        dropped := true;
        return;
      }
      evidence := Update(evidence, Measured(tables.metrics[metricId]));
    }
  }

  /** The line repairs and the normalised copy. */
  method Normalize(t: TextOps, tables: Tables, finding: Finding, severity: Severity,
                   evidence: seq<(string, Value)>, reportIn: Report)
    returns (normalized: Finding, report: Report)
    requires finding.filePath in tables.files
    ensures Keep(t, tables, finding, severity, evidence, reportIn.counters)
         == Verdict(Some(normalized), report.counters)
    ensures report == reportIn.(counters := report.counters)
    ensures report.counters[InvalidCard] == reportIn.counters[InvalidCard]
  {
    report := reportIn;
    var lineStart, lineEnd := finding.lineStart, finding.lineEnd;
    if lineStart.Some? {
      var validLines := DiffReaders.ReadRightSideDiffLines(tables.files[finding.filePath].patch);
      if !OnRightSide(validLines, lineStart.value) {
        lineStart, lineEnd := None, None;
        report := report.(counters := report.counters + multiset{LineRemoved});
      } else if lineEnd.None? || lineEnd.value < lineStart.value || !OnRightSide(validLines, lineEnd.value) {
        lineEnd := lineStart;
      }
    }
    normalized := finding.(
      severity := Name(severity), category := RepairedCategory(t, finding.category),
      lineStart := lineStart, lineEnd := lineEnd,
      message := t.strip(finding.message), suggestion := t.strip(finding.suggestion),
      evidence := evidence, policySource := RepairedSource(tables.sources, finding.policySource),
      confidence := Clamp(finding.confidence));
  }

  /** The checks of the knowledge card and everything after them, on one finding. */
  method ExamineGrounds(t: TextOps, tables: Tables, finding: Finding, reportIn: Report)
    returns (kept: Option<Finding>, report: Report)
    requires finding.filePath in tables.files
    ensures CheckGrounds(t, tables, finding, reportIn.counters) == Verdict(kept, report.counters)
    ensures report == reportIn.(counters := report.counters,
                                invalidCardIds := reportIn.invalidCardIds
                                  + InventedIds(finding, Verdict(kept, report.counters), reportIn.counters))
    ensures report.counters[InvalidCard] >= reportIn.counters[InvalidCard]
  {
    kept, report := None, reportIn;
    var severity := Alias(t.lower(t.strip(finding.severity)));
    var evidence := finding.evidence;
    if tables.cards != map[] && !Given(finding.cardId) {
      report := report.(counters := report.counters + multiset{MissingCard});
      return;
    }
    if Given(finding.cardId) {
      if finding.cardId.value !in tables.cards {
        report := report.(counters := report.counters + multiset{InvalidCard},
                          invalidCardIds := report.invalidCardIds + [finding.cardId.value]);
        return;
      }
      var dropped;
      dropped, severity, evidence, report :=
        ExamineCard(t, tables, finding, tables.cards[finding.cardId.value], severity, report);
      if dropped {
        return;
      }
    }
    var normalized;
    normalized, report := Normalize(t, tables, finding, severity, evidence, report);
    kept := Some(normalized);
  }

  /** One finding up to the duplicate check. */
  method ExamineFinding(t: TextOps, tables: Tables, finding: Finding, reportIn: Report)
    returns (kept: Option<Finding>, report: Report)
    ensures kept == Check(t, tables, finding, reportIn.counters).kept
    ensures report == Noted(reportIn, finding, Check(t, tables, finding, reportIn.counters))
  {
    kept, report := None, reportIn;
    if finding.filePath !in tables.files {
      report := report.(counters := report.counters + multiset{UnknownFile});
      return;
    }
    if t.strip(finding.message) == "" || t.strip(finding.suggestion) == "" {
      report := report.(counters := report.counters + multiset{EmptyText});
      return;
    }
    if !t.hangul(finding.message) || !t.hangul(finding.suggestion) {
      report := report.(counters := report.counters + multiset{NotKorean});
      return;
    }
    if Given(finding.policySource) && finding.policySource.value !in tables.sources {
      report := report.(counters := report.counters + multiset{SourceRemoved});
    }
    kept, report := ExamineGrounds(t, tables, finding, report);
  }

  method CollectFindings(t: TextOps, inputs: Inputs, findings: seq<Finding>)
    returns (accepted: seq<Finding>, report: Report)
    ensures accepted == Unique(t, inputs, findings)
    ensures report == TallyBy(Checks(t, inputs), KeyOf(t), findings, |findings|)
  {
    var policySources := CanonicalPolicySources(inputs.policies);
    var tables := Tables(FilesByPath(inputs.files), MetricsById(inputs.metrics), policySources,
        CardsById(inputs.cards));
    ghost var check := Checks(t, inputs);
    ChecksAreGood(t, inputs);
    report := FreshReport(|findings|);
    accepted := [];
    var seen: set<FindingKey> := {};
    for i := 0 to |findings|
      invariant accepted == UniqueBy(check, KeyOf(t), findings[..i])
      invariant report == TallyBy(check, KeyOf(t), findings[..i], |findings|)
      invariant KeysAre(KeyOf(t), accepted, seen)
    {
      LoopStep(check, KeyOf(t), findings, i, |findings|);
      var kept;
      kept, report := ExamineFinding(t, tables, findings[i], report);
      if kept.None? {
        continue;
      }
      var key := KeyOf(t)(kept.value);
      KeysNext(KeyOf(t), accepted, seen, kept.value);
      if key in seen {
        report := report.(counters := report.counters + multiset{Duplicate});
        continue;
      }
      seen := seen + {key};
      accepted := accepted + [kept.value];
    }
    assert findings[..|findings|] == findings;
  }

  method ValidateAndRankFindings(t: TextOps, inputs: Inputs, findings: seq<Finding>)
    returns (accepted: seq<Finding>, report: Report)
    ensures accepted == Accepted(t, inputs, findings)
    ensures report == FinalReport(t, inputs, findings)
  {
    accepted, report := CollectFindings(t, inputs, findings);
    ChecksAreGood(t, inputs);
    TallyConserves(Checks(t, inputs), KeyOf(t), findings, |findings|);
    accepted := StableSort(RankLeq, accepted);
    var maxFindings := MaxFindings(inputs.route);
    if |accepted| > maxFindings {
      report := report.(overLimit := |accepted| - maxFindings);
      accepted := accepted[..maxFindings];
    }
    report := report.(accepted := |accepted|, invalidCardIds := SortedSet(report.invalidCardIds));
  }

  /** Every received finding is accepted or counted in exactly one of the nine drop counters. */
  lemma ReportConserves(t: TextOps, inputs: Inputs, findings: seq<Finding>)
    ensures var r := FinalReport(t, inputs, findings);
            r.received == |findings| && r.received == r.accepted + TotalDropped(r)
  {
    ChecksAreGood(t, inputs);
    TallyConserves(Checks(t, inputs), KeyOf(t), findings, |findings|);
  }

  // ---------------------------------------------------------------- what is accepted

  /** The accepted findings are the best of the unique ones: together with those beyond the limit
      they are a reordering of them, they are in rank order, and none beyond the limit ranks
      before an accepted one. */
  lemma AcceptedAreBest(t: TextOps, inputs: Inputs, findings: seq<Finding>)
    ensures var unique, accepted := Unique(t, inputs, findings), Accepted(t, inputs, findings);
            var beyond := StableSort(RankLeq, unique)[|accepted|..];
            && multiset(accepted + beyond) == multiset(unique)
            && Sorted(RankLeq, accepted + beyond)
            && |accepted| <= MaxFindings(inputs.route)
            && (beyond != [] ==> |accepted| == MaxFindings(inputs.route))
  {
    RankIsPreorder();
    TakeBest(RankLeq, Unique(t, inputs, findings), MaxFindings(inputs.route));
  }

  lemma AcceptedInUnique(t: TextOps, inputs: Inputs, findings: seq<Finding>)
    ensures forall g :: g in Accepted(t, inputs, findings) ==> g in Unique(t, inputs, findings)
  {
    SortPermutes(RankLeq, Unique(t, inputs, findings));
    SameElements(StableSort(RankLeq, Unique(t, inputs, findings)), Unique(t, inputs, findings));
  }

  /** Every accepted finding is the normalised form of a received one. */
  lemma AcceptedIsKept(t: TextOps, inputs: Inputs, findings: seq<Finding>, g: Finding) returns (f: Finding)
    requires g in Accepted(t, inputs, findings)
    ensures f in findings && Check(t, TablesOf(inputs), f, multiset{}).kept == Some(g)
  {
    AcceptedInUnique(t, inputs, findings);
    var check := KeptBy(Checks(t, inputs));
    var k :| 0 <= k < |Unique(t, inputs, findings)| && Unique(t, inputs, findings)[k] == g;
    var i := FirstPerKeySource(KeyOf(t), Passing(check, findings), k);
    assert g == Passing(check, findings)[i];
    PassingSource(check, findings, g);
    f :| f in findings && check(f) == Some(g);
  }

  ghost predicate AllShowable(t: TextOps, tables: Tables, fs: seq<Finding>) {
    forall g :: g in fs ==> Showable(t, tables, g)
  }

  /** Everything that is accepted is showable. */
  lemma AcceptedAreShowable(t: TextOps, inputs: Inputs, findings: seq<Finding>)
    requires TextLaws(t)
    ensures AllShowable(t, TablesOf(inputs), Accepted(t, inputs, findings))
  {
    TablesAreGood(inputs);
    forall g | g in Accepted(t, inputs, findings)
      ensures Showable(t, TablesOf(inputs), g)
    {
      var f := AcceptedIsKept(t, inputs, findings, g);
      KeptIsShowable(t, TablesOf(inputs), f, g);
    }
  }

  /** No two accepted findings have the same key, and they are in rank order. */
  lemma RankedAreDistinct(key: Finding -> FindingKey, passing: seq<Finding>)
    ensures DistinctBy(key, StableSort(RankLeq, FirstPerKey(key, passing)))
    ensures Sorted(RankLeq, StableSort(RankLeq, FirstPerKey(key, passing)))
  {
    var unique := FirstPerKey(key, passing);
    FirstPerKeyDistinct(key, passing);
    SortPermutes(RankLeq, unique);
    PermutedDistinct(key, unique, StableSort(RankLeq, unique));
    RankIsPreorder();
    SortSorted(RankLeq, unique);
  }

  lemma AcceptedAreDistinct(t: TextOps, inputs: Inputs, findings: seq<Finding>)
    ensures DistinctBy(KeyOf(t), Accepted(t, inputs, findings))
    ensures Sorted(RankLeq, Accepted(t, inputs, findings))
  {
    RankedAreDistinct(KeyOf(t), Passing(KeptBy(Checks(t, inputs)), findings));
  }

  /** How two findings of an accepted list, or an accepted one and one that the limit cuts off, stand to
      each other: b is not graver than a; and when they are equally grave, b is not surer. */
  ghost predicate NoBetter(a: Finding, b: Finding) {
    && (a.severity == "low" ==> b.severity == "low")
    && (b.severity == "high" ==> a.severity == "high")
    && (a.severity == b.severity ==> a.confidence >= b.confidence)
    && (a.severity == b.severity && a.confidence == b.confidence ==> FirstInAlphabet(a.filePath, b.filePath))
    && (a.severity == b.severity && a.confidence == b.confidence && a.filePath == b.filePath ==>
          (a.lineStart.Some? && b.lineStart.Some? ==> a.lineStart.value <= b.lineStart.value)
          && (a.lineStart.None? && b.lineStart.Some? ==> 0 <= b.lineStart.value)
          && (a.lineStart.Some? && b.lineStart.None? ==> a.lineStart.value <= 0))
  }

  lemma RankedIsNoBetter(a: Finding, b: Finding)
    requires RankLeq(a, b)
    ensures NoBetter(a, b)
  {
    RankMeans(a, b);
    RankMeans(b, a);
    StringLeqMeans(a.filePath, b.filePath);
  }

  /** The accepted findings run from grave to slight and from sure to unsure. */
  lemma AcceptedInOrder(t: TextOps, inputs: Inputs, findings: seq<Finding>, i: nat, j: nat)
    requires i < j < |Accepted(t, inputs, findings)|
    ensures NoBetter(Accepted(t, inputs, findings)[i], Accepted(t, inputs, findings)[j])
  {
    AcceptedAreDistinct(t, inputs, findings);
    RankedIsNoBetter(Accepted(t, inputs, findings)[i], Accepted(t, inputs, findings)[j]);
  }

  /** No finding that is cut off by the limit is better than an accepted one. */
  lemma CutOffIsNoBetter(t: TextOps, inputs: Inputs, findings: seq<Finding>, g: Finding, cut: Finding)
    requires g in Accepted(t, inputs, findings)
    requires cut in Unique(t, inputs, findings) && cut !in Accepted(t, inputs, findings)
    ensures NoBetter(g, cut)
  {
    RankIsPreorder();
    KeptBeforeCut(RankLeq, Unique(t, inputs, findings), MaxFindings(inputs.route), g, cut);
    RankedIsNoBetter(g, cut);
  }

  /** Two findings say the same of the same place: the category in any case, the message in any case and
      with any white space between its words. */
  predicate SameClaim(t: TextOps, a: Finding, b: Finding) {
    && a.filePath == b.filePath && a.lineStart == b.lineStart && t.lower(a.category) == t.lower(b.category)
    && Join(" ", t.words(t.lower(a.message))) == Join(" ", t.words(t.lower(b.message)))
  }

  /** No two of the unique findings say the same. */
  lemma ClaimsDiffer(t: TextOps, inputs: Inputs, findings: seq<Finding>, i: nat, j: nat)
    requires i < j < |Unique(t, inputs, findings)|
    ensures !SameClaim(t, Unique(t, inputs, findings)[i], Unique(t, inputs, findings)[j])
  {
    FirstPerKeyDistinct(KeyOf(t), Passing(KeptBy(Checks(t, inputs)), findings));
    assert KeyOf(t)(Unique(t, inputs, findings)[i]) != KeyOf(t)(Unique(t, inputs, findings)[j]);
  }

  /** What passes is among them, or one that says the same. */
  lemma ClaimIsKept(t: TextOps, inputs: Inputs, findings: seq<Finding>, f: Finding, g: Finding)
    requires f in findings && Check(t, TablesOf(inputs), f, multiset{}).kept == Some(g)
    ensures exists h :: h in Unique(t, inputs, findings) && SameClaim(t, h, g)
  {
    var check, key := KeptBy(Checks(t, inputs)), KeyOf(t);
    var passing, unique := Passing(check, findings), Unique(t, inputs, findings);
    PassingHas(check, findings, f);
    var i :| 0 <= i < |passing| && passing[i] == g;
    FirstPerKeyCovers(key, passing, i);
    var k :| 0 <= k < |unique| && key(unique[k]) == key(g);
    assert SameClaim(t, unique[k], g);
  }

  // ---------------------------------------------------------------- validation is a fixpoint

  ghost predicate NoGuard(t: TextOps, tables: Tables, fs: seq<Finding>) {
    forall g :: g in fs ==> !GuardFires(t, tables, g)
  }

  ghost predicate Unchanged(t: TextOps, inputs: Inputs, fs: seq<Finding>) {
    && Accepted(t, inputs, fs) == fs
    && FinalReport(t, inputs, fs) == FreshReport(|fs|).(accepted := |fs|)
  }

  lemma Rechecks(t: TextOps, inputs: Inputs, fs: seq<Finding>, g: Finding, c: multiset<Counter>)
    requires TextLaws(t) && AllShowable(t, TablesOf(inputs), fs) && g in fs
    ensures Checks(t, inputs)(g, c)
         == if GuardFires(t, TablesOf(inputs), g) then Verdict(None, c + multiset{CardGuard}) else Verdict(Some(g), c)
  {
    ShowableIsFixed(t, TablesOf(inputs), g, c);
  }

  lemma QuietRecheck(t: TextOps, inputs: Inputs, fs: seq<Finding>)
    requires TextLaws(t) && AllShowable(t, TablesOf(inputs), fs) && NoGuard(t, TablesOf(inputs), fs)
    requires DistinctBy(KeyOf(t), fs) && Sorted(RankLeq, fs) && |fs| <= MaxFindings(inputs.route)
    ensures Unchanged(t, inputs, fs)
  {
    var check := Checks(t, inputs);
    forall g, c | g in fs
      ensures check(g, c) == Verdict(Some(g), c)
    {
      Rechecks(t, inputs, fs, g, c);
    }
    QuietRun(check, KeyOf(t), fs, |fs|);
    SortedIsFixed(RankLeq, fs);
  }

  lemma RecheckKeepsOrDrops(t: TextOps, inputs: Inputs, fs: seq<Finding>)
    requires TextLaws(t) && AllShowable(t, TablesOf(inputs), fs)
    ensures forall g :: g in fs ==>
              Checks(t, inputs)(g, multiset{}).kept == Some(g) || Checks(t, inputs)(g, multiset{}).kept == None
  {
    forall g | g in fs
      ensures Checks(t, inputs)(g, multiset{}).kept == Some(g) || Checks(t, inputs)(g, multiset{}).kept == None
    {
      Rechecks(t, inputs, fs, g, multiset{});
    }
  }

  lemma AcceptedAtMost(t: TextOps, inputs: Inputs, fs: seq<Finding>)
    ensures |Accepted(t, inputs, fs)| <= |UniqueBy(Checks(t, inputs), KeyOf(t), fs)|
  {
  }

  lemma LossyRecheck(t: TextOps, inputs: Inputs, fs: seq<Finding>)
    requires TextLaws(t) && AllShowable(t, TablesOf(inputs), fs) && !NoGuard(t, TablesOf(inputs), fs)
    ensures |Accepted(t, inputs, fs)| < |fs|
  {
    RecheckKeepsOrDrops(t, inputs, fs);
    LossyRun(Checks(t, inputs), KeyOf(t), fs);
    AcceptedAtMost(t, inputs, fs);
  }

  /** Validation is a fixpoint on its own output, with every counter of the second run at zero, if
      and only if no accepted finding carries a marker that its card forbids. */
  lemma ValidationFixpoint(t: TextOps, inputs: Inputs, findings: seq<Finding>)
    requires TextLaws(t)
    ensures Unchanged(t, inputs, Accepted(t, inputs, findings))
       <==> NoGuard(t, TablesOf(inputs), Accepted(t, inputs, findings))
  {
    var accepted := Accepted(t, inputs, findings);
    AcceptedAreShowable(t, inputs, findings);
    if NoGuard(t, TablesOf(inputs), accepted) {
      AcceptedAreDistinct(t, inputs, findings);
      QuietRecheck(t, inputs, accepted);
    } else {
      LossyRecheck(t, inputs, accepted);
    }
  }

  // ---------------------------------------------------------------- the condition on what is received

  /** A received finding whose normal form is accepted, and on which the guard fires once its texts
      are stripped and its evidence is measured. */
  ghost predicate IsLost(t: TextOps, inputs: Inputs, findings: seq<Finding>, f: Finding) {
    var kept := Checks(t, inputs)(f, multiset{}).kept;
    && f in findings && kept.Some? && kept.value in Accepted(t, inputs, findings)
    && TripsLater(t, TablesOf(inputs), f)
  }

  /** The same condition, told before validation from the received findings and the cards. */
  lemma FixpointOfReceived(t: TextOps, inputs: Inputs, findings: seq<Finding>)
    requires TextLaws(t)
    ensures Unchanged(t, inputs, Accepted(t, inputs, findings)) <==> !exists f :: IsLost(t, inputs, findings, f)
  {
    var tables, accepted := TablesOf(inputs), Accepted(t, inputs, findings);
    ValidationFixpoint(t, inputs, findings);
    if f :| IsLost(t, inputs, findings, f) {
      GuardIsForetold(t, tables, f, Checks(t, inputs)(f, multiset{}).kept.value);
    }
    if !NoGuard(t, tables, accepted) {
      var g :| g in accepted && GuardFires(t, tables, g);
      var f := AcceptedIsKept(t, inputs, findings, g);
      GuardIsForetold(t, tables, f, g);
      assert IsLost(t, inputs, findings, f);
    }
  }

  lemma Alone(t: TextOps, inputs: Inputs, f: Finding, g: Finding)
    requires Check(t, TablesOf(inputs), f, multiset{}).kept == Some(g)
    ensures Accepted(t, inputs, [f]) == [g]
  {
    var check := KeptBy(Checks(t, inputs));
    assert [f][..0] == [] && [g][..0] == [];
    assert Passing(check, [f]) == [] + [g];
    assert FirstPerKey(KeyOf(t), [g]) == [g];
  }

  ghost predicate AlwaysUnchanged(t: TextOps, inputs: Inputs) {
    forall findings :: Unchanged(t, inputs, Accepted(t, inputs, findings))
  }

  ghost predicate PassesAndTrips(t: TextOps, inputs: Inputs, f: Finding) {
    Check(t, TablesOf(inputs), f, multiset{}).kept.Some? && TripsLater(t, TablesOf(inputs), f)
  }

  /** For given files, metrics, policies and cards, validation is a fixpoint whatever the model says
      if and only if no finding passes the guard and trips it once it is rewritten. */
  lemma AlwaysFixpoint(t: TextOps, inputs: Inputs)
    requires TextLaws(t)
    ensures AlwaysUnchanged(t, inputs) <==> !exists f :: PassesAndTrips(t, inputs, f)
  {
    if f :| PassesAndTrips(t, inputs, f) {
      AloneIsLost(t, inputs, f);
    } else {
      forall findings
        ensures Unchanged(t, inputs, Accepted(t, inputs, findings))
      {
        NoneIsLost(t, inputs, findings);
      }
    }
  }

  lemma AloneIsLost(t: TextOps, inputs: Inputs, f: Finding)
    requires TextLaws(t) && PassesAndTrips(t, inputs, f)
    ensures !Unchanged(t, inputs, Accepted(t, inputs, [f]))
  {
    var g := Check(t, TablesOf(inputs), f, multiset{}).kept.value;
    Alone(t, inputs, f, g);
    FixpointOfReceived(t, inputs, [f]);
    assert IsLost(t, inputs, [f], f);
  }

  lemma NoneIsLost(t: TextOps, inputs: Inputs, findings: seq<Finding>)
    requires TextLaws(t) && forall f :: f in findings ==> !PassesAndTrips(t, inputs, f)
    ensures Unchanged(t, inputs, Accepted(t, inputs, findings))
  {
    FixpointOfReceived(t, inputs, findings);
    assert forall f :: IsLost(t, inputs, findings, f) ==> PassesAndTrips(t, inputs, f);
  }

  lemma {:induction false} CardsAreGiven(cards: seq<KnowledgeCard>)
    ensures forall id :: id in CardsById(cards) ==> CardsById(cards)[id] in cards
  {
    if cards != [] {
      CardsAreGiven(cards[..|cards| - 1]);
    }
  }

  /** Cards whose markers hold no white space, and a complexity card without markers: validation is
      a fixpoint whatever the model says. */
  lemma FixpointWithSteadyCards(t: TextOps, inputs: Inputs)
    requires TextLaws(t) && WordLaws(t)
    requires forall c :: c in inputs.cards ==> Steady(t, c)
    ensures AlwaysUnchanged(t, inputs)
  {
    var tables := TablesOf(inputs);
    CardsAreGiven(inputs.cards);
    forall f
      ensures !PassesAndTrips(t, inputs, f)
    {
      if Check(t, tables, f, multiset{}).kept.Some? && Given(f.cardId) && f.cardId.value in tables.cards {
        PassedGuard(t, tables, f);
        SteadyGuard(t, tables, f);
      }
    }
    AlwaysFixpoint(t, inputs);
  }

  /** Without forbidden markers on any card, validation always is a fixpoint. */
  lemma FixpointWithoutMarkers(t: TextOps, inputs: Inputs, findings: seq<Finding>)
    requires TextLaws(t)
    requires forall c :: c in inputs.cards ==> c.forbiddenClaimMarkers == []
    ensures Unchanged(t, inputs, Accepted(t, inputs, findings))
  {
    CardsAreGiven(inputs.cards);
    ValidationFixpoint(t, inputs, findings);
  }
}
