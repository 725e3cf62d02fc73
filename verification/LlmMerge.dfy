/** review_graph.py, _call_llm: how the answers to several prompt batches become one. */
module LlmMerge {
  import opened Text
  import opened Schemas
  import opened Lists

  datatype FileSummary = FileSummary(filePath: string, text: string)

  datatype Route = Route(name: string, modelTier: string)

  datatype Summary = Summary(
    route: Route, overallRisk: string, shortComment: string, changeSummary: string, fileSummaries: seq<FileSummary>)

  /** What is summed over the batches. */
  datatype Totals = Totals(promptTokens: int, completionTokens: int, costUsd: real)

  datatype Usage = Usage(
    provider: string, model: string, totals: Totals, latencyMs: int, status: string, reasoningEffort: string,
    batchCount: nat)

  /** The answer to one batch. */
  datatype Answer = Answer(summary: Summary, findings: seq<Finding>, usage: Usage)

  const SUMMARY_LIMIT: nat := 1600

  function Risk(t: TextOps, s: Summary): nat {
    var risk := t.lower(s.overallRisk);
    if risk == "low" then 0 else if risk == "high" then 2 else 1
  }

  function SummaryPath(f: FileSummary): string {
    f.filePath
  }

  // ---------------------------------------------------------------- what is merged

  function AllFindings(answers: seq<Answer>): seq<Finding> {
    if answers == [] then [] else AllFindings(answers[..|answers| - 1]) + answers[|answers| - 1].findings
  }

  function AllFileSummaries(answers: seq<Answer>): seq<FileSummary> {
    if answers == [] then []
    else AllFileSummaries(answers[..|answers| - 1]) + answers[|answers| - 1].summary.fileSummaries
  }

  function TotalUsage(answers: seq<Answer>): Totals {
    if answers == [] then Totals(0, 0, 0.0)
    else
      var before, last := TotalUsage(answers[..|answers| - 1]), answers[|answers| - 1].usage.totals;
      Totals(before.promptTokens + last.promptTokens, before.completionTokens + last.completionTokens,
             before.costUsd + last.costUsd)
  }

  /** The change summary of a batch, unless it is blank. */
  function ChangeText(t: TextOps, a: Answer): Option<string> {
    if t.strip(a.summary.changeSummary) == "" then None else Some(t.strip(a.summary.changeSummary))
  }

  function ChangeTexts(t: TextOps, answers: seq<Answer>): seq<string> {
    FirstPerKey((s: string) => s, Passing((a: Answer) => ChangeText(t, a), answers))
  }

  /** "high" is riskier than anything else, and anything else than "low", in any case. */
  predicate Riskier(t: TextOps, a: Answer, b: Answer) {
    || (t.lower(a.summary.overallRisk) == "high" && t.lower(b.summary.overallRisk) != "high")
    || (t.lower(a.summary.overallRisk) != "low" && t.lower(b.summary.overallRisk) == "low")
  }

  lemma RiskMeans(t: TextOps, a: Answer, b: Answer)
    ensures Risk(t, a.summary) > Risk(t, b.summary) <==> Riskier(t, a, b)
  {
  }

  /** Whether answer i stands for all: none is riskier, and it is riskier than all before it. */
  ghost predicate Represents(t: TextOps, answers: seq<Answer>, i: int) {
    && 0 <= i < |answers|
    && (forall j :: 0 <= j < |answers| ==> !Riskier(t, answers[j], answers[i]))
    && (forall j :: 0 <= j < i ==> Riskier(t, answers[i], answers[j]))
  }

  lemma OneRepresentative(t: TextOps, answers: seq<Answer>, i: int, k: int)
    requires Represents(t, answers, i) && Represents(t, answers, k)
    ensures i == k
  {
    NotBefore(t, answers, i, k);
    NotBefore(t, answers, k, i);
  }

  lemma NotBefore(t: TextOps, answers: seq<Answer>, i: int, k: int)
    requires Represents(t, answers, i) && Represents(t, answers, k)
    ensures i >= k
  {
    RiskMeans(t, answers[k], answers[i]);
    assert !Riskier(t, answers[k], answers[i]);
  }

  function Shortened(rstrip: string -> string, text: string): string {
    if |text| > SUMMARY_LIMIT then rstrip(text[..SUMMARY_LIMIT - 3]) + "..." else text
  }

  function ShortComment(files: nat): string {
    "변경 파일 " + Decimal(files) + "개를 검토했습니다."
  }

  /** max(...) over the summaries keeps the first of the greatest. */
  method Representative(t: TextOps, answers: seq<Answer>) returns (best: nat)
    requires answers != []
    ensures Represents(t, answers, best)
  {
    best := 0;
    for i := 1 to |answers|
      invariant Represents(t, answers[..i], best)
    {
      assert answers[..i + 1][..i] == answers[..i];
      RiskMeans(t, answers[i], answers[best]);
      if Risk(t, answers[i].summary) > Risk(t, answers[best].summary) {
        best := i;
      }
    }
    assert answers[..|answers|] == answers;
  }

  /** The file summaries of one answer, each under its path unless that path has one. */
  method KeepNewPaths(all: seq<FileSummary>, kept: seq<FileSummary>, paths: set<string>, more: seq<FileSummary>)
    returns (result: seq<FileSummary>, known: set<string>)
    requires kept == FirstPerKey(SummaryPath, all) && KeysAre(SummaryPath, kept, paths)
    ensures result == FirstPerKey(SummaryPath, all + more) && KeysAre(SummaryPath, result, known)
  {
    result, known := kept, paths;
    assert all + more[..0] == all;
    for i := 0 to |more|
      invariant result == FirstPerKey(SummaryPath, all + more[..i]) && KeysAre(SummaryPath, result, known)
    {
      assert all + more[..i + 1] == (all + more[..i]) + [more[i]];
      assert (all + more[..i + 1])[..|all| + i] == all + more[..i];
      KeysNext(SummaryPath, result, known, more[i]);
      if more[i].filePath !in known {
        result := result + [more[i]];
        known := known + {more[i].filePath};
      }
    }
    assert more[..|more|] == more;
  }

  /** The merge of _call_llm; `rstrip` drops white space at the end. One answer keeps its summary. Of
      several, the riskiest gives the risk, every summarised file is kept once and counted in the short
      comment; tokens and costs are summed, and the first answer says who gave them. */
  method MergeAnswers(t: TextOps, rstrip: string -> string, route: Route, answers: seq<Answer>, latencyMs: int)
    returns (summary: Summary, findings: seq<Finding>, usage: Usage, ghost chosen: nat)
    requires answers != []
    ensures Represents(t, answers, chosen)
    ensures findings == AllFindings(answers)
    ensures usage.totals == TotalUsage(answers) && usage.batchCount == |answers|
    ensures usage.provider == answers[0].usage.provider && usage.model == answers[0].usage.model
    ensures usage.reasoningEffort == answers[0].usage.reasoningEffort
    ensures usage.latencyMs == latencyMs && usage.status == "completed"
    ensures |answers| == 1 ==> summary == answers[0].summary
    ensures |answers| > 1 ==>
              && summary.route == route && summary.overallRisk == answers[chosen].summary.overallRisk
              && summary.changeSummary == Shortened(rstrip, Join(" ", ChangeTexts(t, answers)))
              && summary.fileSummaries == FirstPerKey(SummaryPath, AllFileSummaries(answers))
              && summary.shortComment == ShortComment(|summary.fileSummaries|)
  {
    var best := Representative(t, answers);
    chosen := best;
    var totals := Totals(0, 0, 0.0);
    findings := [];
    for i := 0 to |answers|
      invariant findings == AllFindings(answers[..i]) && totals == TotalUsage(answers[..i])
    {
      assert answers[..i + 1][..i] == answers[..i];
      findings := findings + answers[i].findings;
      var u := answers[i].usage.totals;
      totals := Totals(totals.promptTokens + u.promptTokens, totals.completionTokens + u.completionTokens,
                       totals.costUsd + u.costUsd);
    }
    assert answers[..|answers|] == answers;
    summary := answers[best].summary;
    if |answers| > 1 {
      var fileSummaries := MergeFileSummaries(answers);
      var texts := MergeChangeTexts(t, answers);
      summary := Summary(route, summary.overallRisk, ShortComment(|fileSummaries|),
                         Shortened(rstrip, Join(" ", texts)), fileSummaries);
    }
    var first := answers[0].usage;
    usage := Usage(first.provider, first.model, totals, latencyMs, "completed", first.reasoningEffort, |answers|);
  }

  method MergeFileSummaries(answers: seq<Answer>) returns (merged: seq<FileSummary>)
    ensures merged == FirstPerKey(SummaryPath, AllFileSummaries(answers))
  {
    merged := [];
    var paths: set<string> := {};
    for i := 0 to |answers|
      invariant merged == FirstPerKey(SummaryPath, AllFileSummaries(answers[..i]))
                && KeysAre(SummaryPath, merged, paths)
    {
      assert answers[..i + 1][..i] == answers[..i];
      merged, paths := KeepNewPaths(AllFileSummaries(answers[..i]), merged, paths, answers[i].summary.fileSummaries);
    }
    assert answers[..|answers|] == answers;
  }

  method MergeChangeTexts(t: TextOps, answers: seq<Answer>) returns (texts: seq<string>)
    ensures texts == ChangeTexts(t, answers)
  {
    ghost var check := (a: Answer) => ChangeText(t, a);
    var all: seq<string> := [];
    for i := 0 to |answers|
      invariant all == Passing(check, answers[..i])
    {
      PassingNext(check, answers, i);
      var text := ChangeText(t, answers[i]);
      if text.Some? {
        all := all + [text.value];
      }
    }
    assert answers[..|answers|] == answers;
    texts := FirstPerKey((s: string) => s, all);
  }

  // ---------------------------------------------------------------- what merging comes to

  function Plus(a: Totals, b: Totals): Totals {
    Totals(a.promptTokens + b.promptTokens, a.completionTokens + b.completionTokens, a.costUsd + b.costUsd)
  }

  /** One answer is merged to itself. */
  lemma MergedOne(a: Answer)
    ensures AllFindings([a]) == a.findings && AllFileSummaries([a]) == a.summary.fileSummaries
    ensures TotalUsage([a]) == a.usage.totals
  {
    assert [a][..0] == [];
  }

  lemma MergedNext(answers: seq<Answer>, last: Answer)
    ensures AllFindings(answers + [last]) == AllFindings(answers) + last.findings
    ensures AllFileSummaries(answers + [last]) == AllFileSummaries(answers) + last.summary.fileSummaries
    ensures TotalUsage(answers + [last]) == Plus(TotalUsage(answers), last.usage.totals)
  {
    assert (answers + [last])[..|answers|] == answers;
  }

  /** Merging goes on from left to right: findings and summaries one after the other, usage added up. */
  lemma {:induction false} MergedParts(first: seq<Answer>, rest: seq<Answer>)
    ensures AllFindings(first + rest) == AllFindings(first) + AllFindings(rest)
    ensures AllFileSummaries(first + rest) == AllFileSummaries(first) + AllFileSummaries(rest)
    ensures TotalUsage(first + rest) == Plus(TotalUsage(first), TotalUsage(rest))
  {
    if rest == [] {
      assert first + rest == first;
    } else {
      var before, last := rest[..|rest| - 1], rest[|rest| - 1];
      assert first + rest == (first + before) + [last];
      assert rest == before + [last];
      MergedNext(first + before, last);
      MergedNext(before, last);
      MergedParts(first, before);
    }
  }

  /** The change summaries that are not blank, stripped, each once. */
  lemma ChangeTextsAre(t: TextOps, answers: seq<Answer>, text: string)
    ensures text in ChangeTexts(t, answers)
       <==> text != "" && exists a :: a in answers && t.strip(a.summary.changeSummary) == text
    ensures forall i, j :: 0 <= i < j < |ChangeTexts(t, answers)| ==>
              ChangeTexts(t, answers)[i] != ChangeTexts(t, answers)[j]
  {
    var check, key := (a: Answer) => ChangeText(t, a), (s: string) => s;
    var all := Passing(check, answers);
    FirstPerKeyMeans(key, all);
    if text in ChangeTexts(t, answers) {
      var k :| 0 <= k < |ChangeTexts(t, answers)| && ChangeTexts(t, answers)[k] == text;
      var i :| FirstAt(key, all, i) && all[i] == ChangeTexts(t, answers)[k];
      PassingSource(check, answers, all[i]);
    }
    if a :| a in answers && t.strip(a.summary.changeSummary) == text && text != "" {
      PassingHas(check, answers, a);
      var i :| 0 <= i < |all| && all[i] == text;
      assert HasKey(key, ChangeTexts(t, answers), key(all[i]));
    }
  }

  /** A text of up to 1600 characters is left alone; a longer one is cut to its first 1597, without white
      space at their end, and three dots. */
  lemma ShortenedMeans(rstrip: string -> string, text: string)
    ensures |text| <= 1600 ==> Shortened(rstrip, text) == text
    ensures |text| > 1600 ==> Shortened(rstrip, text) == rstrip(text[..1597]) + "..."
  {
  }

  // ---------------------------------------------------------------- nothing is lost

  lemma {:induction false} FindingsKept(answers: seq<Answer>, i: int)
    requires 0 <= i < |answers|
    ensures exists before, after :: AllFindings(answers) == before + answers[i].findings + after
  {
    var init, last := answers[..|answers| - 1], answers[|answers| - 1];
    if i == |answers| - 1 {
      assert AllFindings(answers) == AllFindings(init) + last.findings + [];
    } else {
      FindingsKept(init, i);
      assert init[i] == answers[i];
      var before, after :| AllFindings(init) == before + answers[i].findings + after;
      assert AllFindings(answers) == before + answers[i].findings + (after + last.findings);
    }
  }

  /** Every file some answer summarises has exactly one merged summary, the first one given, and the
      merged text is at most the limit long. */
  lemma MergedSummaries(t: TextOps, rstrip: string -> string, answers: seq<Answer>)
    requires forall s :: rstrip(s) <= s
    ensures var merged := FirstPerKey(SummaryPath, AllFileSummaries(answers));
            && DistinctBy(SummaryPath, merged)
            && (forall i :: 0 <= i < |AllFileSummaries(answers)| ==>
                  HasKey(SummaryPath, merged, AllFileSummaries(answers)[i].filePath))
            && (forall k :: 0 <= k < |merged| ==>
                  exists i :: FirstAt(SummaryPath, AllFileSummaries(answers), i)
                    && AllFileSummaries(answers)[i] == merged[k])
    ensures |Shortened(rstrip, Join(" ", ChangeTexts(t, answers)))| <= SUMMARY_LIMIT
  {
    var all := AllFileSummaries(answers);
    FirstPerKeyMeans(SummaryPath, all);
    forall i | 0 <= i < |all|
      ensures HasKey(SummaryPath, FirstPerKey(SummaryPath, all), all[i].filePath)
    {
      assert HasKey(SummaryPath, FirstPerKey(SummaryPath, all), SummaryPath(all[i]));
    }
    var text := Join(" ", ChangeTexts(t, answers));
    if |text| > SUMMARY_LIMIT {
      assert rstrip(text[..SUMMARY_LIMIT - 3]) <= text[..SUMMARY_LIMIT - 3];
    }
  }
}
