/** What the checks of a finding come to: which findings are kept, in what form, and what is counted for
    the others. */
module FindingMeaning {
  import opened Text
  import opened Schemas
  import opened ReviewQuality
  import opened FindingChecks
  import DiffReaders

  // ---------------------------------------------------------------- the look-up tables

  /** Element i has the key, and none after it has. */
  ghost predicate LastWith<F>(key: F -> string, fs: seq<F>, k: string, i: int) {
    0 <= i < |fs| && key(fs[i]) == k && forall j :: i < j < |fs| ==> key(fs[j]) != k
  }

  /** A table has the keys of its list, each with the last element that has it. */
  ghost predicate TableOf<F>(key: F -> string, fs: seq<F>, table: map<string, F>) {
    && (forall k :: k in table <==> exists i :: LastWith(key, fs, k, i))
    && (forall k, i :: k in table && LastWith(key, fs, k, i) ==> table[k] == fs[i])
  }

  lemma TableNext<F>(key: F -> string, fs: seq<F>, table: map<string, F>, last: F)
    ensures TableOf(key, fs, table) ==> TableOf(key, fs + [last], table[key(last) := last])
  {
    var all := fs + [last];
    assert LastWith(key, all, key(last), |fs|);
    forall k, i | k != key(last)
      ensures LastWith(key, all, k, i) <==> LastWith(key, fs, k, i)
    {
      LastWithMore(key, fs, last, k, i);
    }
    assert forall i :: LastWith(key, all, key(last), i) ==> i == |fs|;
  }

  lemma LastWithMore<F>(key: F -> string, fs: seq<F>, last: F, k: string, i: int)
    requires key(last) != k
    ensures LastWith(key, fs + [last], k, i) <==> LastWith(key, fs, k, i)
  {
    var all := fs + [last];
    assert forall j :: 0 <= j < |fs| ==> all[j] == fs[j];
    assert all[|fs|] == last;
    if LastWith(key, all, k, i) {
      forall j | i < j < |fs|
        ensures key(fs[j]) != k
      {
        assert key(all[j]) != k;
      }
    }
  }

  function PathOf(f: ChangedFile): string {
    f.path
  }

  function IdOfCard(c: KnowledgeCard): string {
    c.cardId
  }

  function IdOfMetric(m: ComplexityMetric): string {
    m.metricId
  }

  lemma {:induction false} FilesTable(files: seq<ChangedFile>)
    ensures TableOf(PathOf, files, FilesByPath(files))
  {
    if files != [] {
      var before, last := files[..|files| - 1], files[|files| - 1];
      FilesTable(before);
      TableNext(PathOf, before, FilesByPath(before), last);
      assert before + [last] == files;
    }
  }

  lemma {:induction false} CardsTable(cards: seq<KnowledgeCard>)
    ensures TableOf(IdOfCard, cards, CardsById(cards))
  {
    if cards != [] {
      var before, last := cards[..|cards| - 1], cards[|cards| - 1];
      CardsTable(before);
      TableNext(IdOfCard, before, CardsById(before), last);
      assert before + [last] == cards;
    }
  }

  lemma {:induction false} MetricsTable(metrics: seq<ComplexityMetric>)
    ensures TableOf(IdOfMetric, metrics, MetricsById(metrics))
  {
    if metrics != [] {
      var before, last := metrics[..|metrics| - 1], metrics[|metrics| - 1];
      MetricsTable(before);
      TableNext(IdOfMetric, before, MetricsById(before), last);
      assert before + [last] == metrics;
    }
  }

  /** The tables hold the files, metrics and cards of the request, the last of each key. */
  lemma TablesMean(inputs: Inputs)
    ensures TableOf(PathOf, inputs.files, TablesOf(inputs).files)
    ensures TableOf(IdOfMetric, inputs.metrics, TablesOf(inputs).metrics)
    ensures TableOf(IdOfCard, inputs.cards, TablesOf(inputs).cards)
    ensures TablesOf(inputs).sources == CanonicalSources(inputs.policies)
  {
    FilesTable(inputs.files);
    MetricsTable(inputs.metrics);
    CardsTable(inputs.cards);
  }

  // ---------------------------------------------------------------- which findings are kept

  /** Some marker of the card stands in the texts and the evidence, put together and lower-cased. */
  ghost predicate ClaimsForbidden(t: TextOps, card: KnowledgeCard, f: Finding) {
    exists m :: m in card.forbiddenClaimMarkers && Contains(t.lower(Join(" ", SaidIn(f))), m)
  }

  function SaidIn(f: Finding): (said: seq<string>)
    ensures |said| == |f.evidence| + 2 && said[0] == f.message && said[1] == f.suggestion
    ensures forall i :: 0 <= i < |f.evidence| ==> said[i + 2] == f.evidence[i].1.Shown()
  {
    [f.message, f.suggestion] + Each((item: (string, Value)) => item.1.Shown(), f.evidence)
  }

  /** The measurement that the evidence names, or the one with the empty ID where it names none. */
  function NamedId(f: Finding): string {
    var named := Lookup(f.evidence, "metric_id");
    if named == None || named == Some(Str("")) || named == Some(Number(0)) then ""
    else if named.value.Other? && !named.value.truthy then ""
    else named.value.Shown()
  }

  /** The evidence names a measurement of the finding's file, over its threshold and grown. */
  ghost predicate Supported(tables: Tables, f: Finding, m: ComplexityMetric) {
    && NamedId(f) in tables.metrics && m == tables.metrics[NamedId(f)]
    && m.filePath == f.filePath && m.exceededThreshold && m.delta > 0
  }

  const COMPLEXITY := "python-cyclomatic-complexity-threshold"

  lemma SupportMeans(tables: Tables, f: Finding)
    ensures SupportingMetric(tables, f).Some? <==> exists m :: Supported(tables, f, m)
    ensures SupportingMetric(tables, f).Some? ==> Supported(tables, f, SupportingMetric(tables, f).value)
  {
    var named := Lookup(f.evidence, "metric_id");
    assert NamedId(f) == if named.Some? && named.value.Truthy() then named.value.Shown() else "";
    if SupportingMetric(tables, f).Some? {
      assert Supported(tables, f, SupportingMetric(tables, f).value);
    }
  }

  lemma ForbiddenMeans(t: TextOps, card: KnowledgeCard, f: Finding)
    ensures Forbidden(t, card, f) <==> ClaimsForbidden(t, card, f)
  {
    assert ClaimText(t, f) == t.lower(Join(" ", SaidIn(f)));
    if m :| m in card.forbiddenClaimMarkers && Contains(t.lower(Join(" ", SaidIn(f))), m) {
      var i :| 0 <= i < |card.forbiddenClaimMarkers| && card.forbiddenClaimMarkers[i] == m;
    }
  }

  /** The card that a finding cites lets it pass. */
  ghost predicate CardAllows(t: TextOps, tables: Tables, f: Finding, card: KnowledgeCard) {
    && !ClaimsForbidden(t, card, f)
    && (card.cardId == COMPLEXITY ==> exists m :: Supported(tables, f, m))
  }

  predicate Cites(f: Finding) {
    f.cardId.Some? && f.cardId.value != ""
  }

  /** A finding on a changed file, with both texts given in Korean, and with a card that is known and lets
      it pass wherever there are cards. */
  ghost predicate Acceptable(t: TextOps, tables: Tables, f: Finding) {
    && f.filePath in tables.files
    && t.strip(f.message) != "" && t.strip(f.suggestion) != "" && t.hangul(f.message) && t.hangul(f.suggestion)
    && (tables.cards != map[] ==> Cites(f))
    && (Cites(f) ==> f.cardId.value in tables.cards && CardAllows(t, tables, f, tables.cards[f.cardId.value]))
  }

  lemma CardKeepsExactly(
      t: TextOps, tables: Tables, f: Finding, severity: Severity, card: KnowledgeCard, c: multiset<Counter>)
    requires f.filePath in tables.files
    ensures CheckCard(t, tables, f, severity, card, c).kept.Some? <==> CardAllows(t, tables, f, card)
  {
    ForbiddenMeans(t, card, f);
    SupportMeans(tables, f);
  }

  /** A finding is kept if and only if it is acceptable. */
  lemma KeptExactly(t: TextOps, tables: Tables, f: Finding)
    ensures Check(t, tables, f, multiset{}).kept.Some? <==> Acceptable(t, tables, f)
  {
    if f.filePath in tables.files && Cites(f) && f.cardId.value in tables.cards {
      var severity := Alias(t.lower(t.strip(f.severity)));
      var counted := Raised(multiset{}, SourceRemoved, SourceIsUnknown(tables, f));
      CardKeepsExactly(t, tables, f, severity, tables.cards[f.cardId.value], counted);
    }
  }

  // ---------------------------------------------------------------- what is counted

  /** The counters when a finding is dropped by its card, or kept. */
  lemma CardCounters(
      t: TextOps, tables: Tables, f: Finding, severity: Severity, card: KnowledgeCard, c: multiset<Counter>)
    requires f.filePath in tables.files
    ensures var counters := CheckCard(t, tables, f, severity, card, c).counters;
            && counters[MissingCard] == c[MissingCard] && counters[InvalidCard] == c[InvalidCard]
            && counters[CardGuard] == c[CardGuard] + (if ClaimsForbidden(t, card, f) then 1 else 0)
            && counters[ComplexityEvidence] == c[ComplexityEvidence] +
                 if && !ClaimsForbidden(t, card, f) && card.cardId == COMPLEXITY
                    && !exists m :: Supported(tables, f, m) then 1 else 0
  {
    ForbiddenMeans(t, card, f);
    SupportMeans(tables, f);
    if !Forbidden(t, card, f) {
      var level := Capped(severity, Alias(t.lower(card.severityCap)));
      var counted := Raised(c, SeverityCapped, level != severity);
      KeepLeaves(t, tables, f, level, f.evidence, counted);
      if SupportingMetric(tables, f).Some? {
        KeepLeaves(t, tables, f, level, Update(f.evidence, Measured(SupportingMetric(tables, f).value)), counted);
      }
    }
  }

  lemma KeepLeaves(t: TextOps, tables: Tables, f: Finding, severity: Severity, evidence: seq<(string, Value)>,
                   c: multiset<Counter>)
    requires f.filePath in tables.files
    ensures var counters := Keep(t, tables, f, severity, evidence, c).counters;
            && counters[MissingCard] == c[MissingCard] && counters[InvalidCard] == c[InvalidCard]
            && counters[CardGuard] == c[CardGuard] && counters[ComplexityEvidence] == c[ComplexityEvidence]
  {
  }

  /** The first thing that is wrong with a finding is what it is counted as. */
  lemma DroppedAs(t: TextOps, tables: Tables, f: Finding)
    ensures var counters := Check(t, tables, f, multiset{}).counters;
            var blank := t.strip(f.message) == "" || t.strip(f.suggestion) == "";
            var foreign := !t.hangul(f.message) || !t.hangul(f.suggestion);
            && (f.filePath !in tables.files ==> counters == multiset{UnknownFile})
            && (f.filePath in tables.files && blank ==> counters == multiset{EmptyText})
            && (f.filePath in tables.files && !blank && foreign ==> counters == multiset{NotKorean})
            && (f.filePath in tables.files && !blank && !foreign ==> GroundsCounted(t, tables, f, counters))
  {
    if f.filePath in tables.files {
      GroundsAs(t, tables, f, Raised(multiset{}, SourceRemoved, SourceIsUnknown(tables, f)));
    }
  }

  /** What is counted from the card on. */
  ghost predicate GroundsCounted(t: TextOps, tables: Tables, f: Finding, counters: multiset<Counter>) {
    && (counters[MissingCard] > 0 <==> tables.cards != map[] && !Cites(f))
    && (counters[InvalidCard] > 0 <==> Cites(f) && f.cardId.value !in tables.cards)
    && (counters[CardGuard] > 0 <==>
          Cites(f) && f.cardId.value in tables.cards && ClaimsForbidden(t, tables.cards[f.cardId.value], f))
    && (counters[ComplexityEvidence] > 0 <==>
          && Cites(f) && f.cardId.value in tables.cards && !ClaimsForbidden(t, tables.cards[f.cardId.value], f)
          && tables.cards[f.cardId.value].cardId == COMPLEXITY && !exists m :: Supported(tables, f, m))
  }

  lemma GroundsAs(t: TextOps, tables: Tables, f: Finding, c: multiset<Counter>)
    requires f.filePath in tables.files
    requires c[MissingCard] == c[InvalidCard] == c[CardGuard] == c[ComplexityEvidence] == 0
    ensures GroundsCounted(t, tables, f, CheckGrounds(t, tables, f, c).counters)
  {
    if Cites(f) && f.cardId.value in tables.cards {
      CardCounters(t, tables, f, Alias(t.lower(t.strip(f.severity))), tables.cards[f.cardId.value], c);
    }
  }

  lemma CardAdds(
      t: TextOps, tables: Tables, f: Finding, severity: Severity, card: KnowledgeCard, c: multiset<Counter>,
      d: multiset<Counter>)
    requires f.filePath in tables.files
    ensures CheckCard(t, tables, f, severity, card, c + d).counters
         == c + CheckCard(t, tables, f, severity, card, d).counters
  {
    var level := Capped(severity, Alias(t.lower(card.severityCap)));
    var counted, metric := Raised(d, SeverityCapped, level != severity), SupportingMetric(tables, f);
    RaisedAdds(c, d, SeverityCapped, level != severity);
    if Forbidden(t, card, f) {
      RaisedAdds(c, d, CardGuard, true);
    } else if card.cardId != COMPLEXITY_CARD_ID {
      KeepAdds(t, tables, f, level, f.evidence, c, counted);
    } else if metric.None? {
      RaisedAdds(c, counted, ComplexityEvidence, true);
    } else {
      KeepAdds(t, tables, f, level, Update(f.evidence, Measured(metric.value)), c, counted);
    }
  }

  lemma RaisedAdds(c: multiset<Counter>, d: multiset<Counter>, kind: Counter, condition: bool)
    ensures Raised(c + d, kind, condition) == c + Raised(d, kind, condition)
  {
    assert (c + d) + multiset{kind} == c + (d + multiset{kind});
  }

  lemma KeepAdds(t: TextOps, tables: Tables, f: Finding, severity: Severity, evidence: seq<(string, Value)>,
                 c: multiset<Counter>, d: multiset<Counter>)
    requires f.filePath in tables.files
    ensures Keep(t, tables, f, severity, evidence, c + d).counters
         == c + Keep(t, tables, f, severity, evidence, d).counters
  {
    var g := Normalized(t, tables, f, severity, evidence);
    RaisedAdds(c, d, LineRemoved, f.lineStart.Some? && g.lineStart.None?);
  }

  lemma GroundsAdd(t: TextOps, tables: Tables, f: Finding, c: multiset<Counter>, d: multiset<Counter>)
    requires f.filePath in tables.files
    ensures CheckGrounds(t, tables, f, c + d).counters == c + CheckGrounds(t, tables, f, d).counters
  {
    var severity := Alias(t.lower(t.strip(f.severity)));
    RaisedAdds(c, d, MissingCard, true);
    RaisedAdds(c, d, InvalidCard, true);
    KeepAdds(t, tables, f, severity, f.evidence, c, d);
    if Cites(f) && f.cardId.value in tables.cards {
      CardAdds(t, tables, f, severity, tables.cards[f.cardId.value], c, d);
    }
  }

  /** What a finding is counted for does not depend on what was counted before. */
  lemma CountersAdd(t: TextOps, tables: Tables, f: Finding, c: multiset<Counter>)
    ensures Check(t, tables, f, c).counters == c + Check(t, tables, f, multiset{}).counters
  {
    var none: multiset<Counter> := multiset{};
    assert c + none == c;
    RaisedAdds(c, none, SourceRemoved, SourceIsUnknown(tables, f));
    RaisedAdds(c, none, UnknownFile, true);
    RaisedAdds(c, none, EmptyText, true);
    RaisedAdds(c, none, NotKorean, true);
    if f.filePath in tables.files {
      GroundsAdd(t, tables, f, c, Raised(none, SourceRemoved, SourceIsUnknown(tables, f)));
    }
  }

  // ---------------------------------------------------------------- the form in which they are kept

  /** The severity that a finding is kept with. */
  function LevelOf(t: TextOps, tables: Tables, f: Finding): Severity {
    var said := Alias(t.lower(t.strip(f.severity)));
    if Cites(f) && f.cardId.value in tables.cards then
      Capped(said, Alias(t.lower(tables.cards[f.cardId.value].severityCap)))
    else said
  }

  lemma CardKeptForm(t: TextOps, tables: Tables, f: Finding, severity: Severity, card: KnowledgeCard,
                     c: multiset<Counter>, g: Finding)
    requires f.filePath in tables.files && CheckCard(t, tables, f, severity, card, c).kept == Some(g)
    ensures var level := Capped(severity, Alias(t.lower(card.severityCap)));
            && g == Normalized(t, tables, f, level, g.evidence)
            && CheckCard(t, tables, f, severity, card, c).counters
               == Raised(Raised(c, SeverityCapped, level != severity),
                         LineRemoved, f.lineStart.Some? && g.lineStart.None?)
  {
    var level := Capped(severity, Alias(t.lower(card.severityCap)));
    var counted, metric := Raised(c, SeverityCapped, level != severity), SupportingMetric(tables, f);
    var evidence :=
      if card.cardId == COMPLEXITY_CARD_ID then Update(f.evidence, Measured(metric.value)) else f.evidence;
    assert CheckCard(t, tables, f, severity, card, c) == Keep(t, tables, f, level, evidence, counted);
    KeepForm(t, tables, f, level, evidence, counted, g);
  }

  lemma KeepForm(t: TextOps, tables: Tables, f: Finding, severity: Severity, evidence: seq<(string, Value)>,
                 c: multiset<Counter>, g: Finding)
    requires f.filePath in tables.files && Keep(t, tables, f, severity, evidence, c).kept == Some(g)
    ensures g == Normalized(t, tables, f, severity, g.evidence)
    ensures Keep(t, tables, f, severity, evidence, c).counters
         == Raised(c, LineRemoved, f.lineStart.Some? && g.lineStart.None?)
  {
  }

  /** What is kept, and what it is counted for. */
  lemma KeptForm(t: TextOps, tables: Tables, f: Finding, g: Finding)
    requires Check(t, tables, f, multiset{}).kept == Some(g)
    ensures f.filePath in tables.files && (Cites(f) ==> f.cardId.value in tables.cards)
    ensures g == Normalized(t, tables, f, LevelOf(t, tables, f), g.evidence)
    ensures Check(t, tables, f, multiset{}).counters
         == Raised(Raised(Raised(multiset{}, SourceRemoved, SourceIsUnknown(tables, f)),
                          SeverityCapped, LevelOf(t, tables, f) != Alias(t.lower(t.strip(f.severity)))),
                   LineRemoved, f.lineStart.Some? && g.lineStart.None?)
  {
    var said := Alias(t.lower(t.strip(f.severity)));
    var counted := Raised(multiset{}, SourceRemoved, SourceIsUnknown(tables, f));
    assert CheckGrounds(t, tables, f, counted).kept == Some(g);
    if Cites(f) {
      CardKeptForm(t, tables, f, said, tables.cards[f.cardId.value], counted, g);
    }
  }

  /** What a kept finding is counted for: a policy source or a line that was taken away, and a severity
      that its card has lowered. */
  lemma KeptCounted(t: TextOps, tables: Tables, f: Finding, g: Finding)
    requires Check(t, tables, f, multiset{}).kept == Some(g)
    ensures var counters := Check(t, tables, f, multiset{}).counters;
            && (counters[SourceRemoved] > 0 <==>
                  f.policySource.Some? && f.policySource.value != "" && f.policySource.value !in tables.sources)
            && (counters[LineRemoved] > 0 <==> f.lineStart.Some? && g.lineStart.None?)
            && (counters[SeverityCapped] > 0 <==> g.severity != Name(Alias(t.lower(t.strip(f.severity)))))
  {
    KeptForm(t, tables, f, g);
    AliasOfName(LevelOf(t, tables, f));
    AliasOfName(Alias(t.lower(t.strip(f.severity))));
  }

  /** A line of the new version that the diff of the file has. */
  predicate InDiff(tables: Tables, f: Finding, line: int)
    requires f.filePath in tables.files
  {
    line >= 0 && line in DiffReaders.RightSideDiffLines(tables.files[f.filePath].patch)
  }

  /** A line outside the diff is taken away, with its end; an end that does not fit becomes the start. */
  lemma KeptLines(t: TextOps, tables: Tables, f: Finding, g: Finding)
    requires Check(t, tables, f, multiset{}).kept == Some(g)
    ensures f.filePath in tables.files
    ensures f.lineStart.None? ==> g.lineStart == None && g.lineEnd == f.lineEnd
    ensures f.lineStart.Some? && !InDiff(tables, f, f.lineStart.value) ==> g.lineStart == None && g.lineEnd == None
    ensures f.lineStart.Some? && InDiff(tables, f, f.lineStart.value) ==>
              && g.lineStart == f.lineStart
              && g.lineEnd == if f.lineEnd.Some? && f.lineEnd.value >= f.lineStart.value
                                 && InDiff(tables, f, f.lineEnd.value) then f.lineEnd else f.lineStart
  {
    KeptForm(t, tables, f, g);
  }

  /** The category is in lower case, the confidence within 0 and 1, the texts without white space around
      them; a known policy source has its canonical name and an unknown one is taken away. */
  lemma KeptFields(t: TextOps, tables: Tables, f: Finding, g: Finding)
    requires Check(t, tables, f, multiset{}).kept == Some(g)
    ensures g.filePath == f.filePath && g.cardId == f.cardId
    ensures g.message == t.strip(f.message) && g.suggestion == t.strip(f.suggestion)
    ensures g.category == (if t.lower(t.strip(f.category)) == "" then "general" else t.lower(t.strip(f.category)))
    ensures f.confidence < 0.0 ==> g.confidence == 0.0
    ensures f.confidence > 1.0 ==> g.confidence == 1.0
    ensures 0.0 <= f.confidence <= 1.0 ==> g.confidence == f.confidence
    ensures f.policySource == None || f.policySource == Some("") ==> g.policySource == f.policySource
    ensures f.policySource.Some? && f.policySource.value != "" && f.policySource.value in tables.sources ==>
              g.policySource == Some(tables.sources[f.policySource.value])
    ensures f.policySource.Some? && f.policySource.value != "" && f.policySource.value !in tables.sources ==>
              g.policySource == None
  {
    KeptForm(t, tables, f, g);
  }

  predicate SaysHigh(word: string) {
    word in {"critical", "blocker", "p0", "p1", "major", "high"}
  }

  predicate SaysLow(word: string) {
    word in {"p3", "trivial", "info", "low"}
  }

  /** The severity is one of three words; a card can only lower it, and lowers it no further than to its
      cap. */
  lemma KeptSeverity(t: TextOps, tables: Tables, f: Finding, g: Finding)
    requires Check(t, tables, f, multiset{}).kept == Some(g)
    ensures var said := t.lower(t.strip(f.severity));
            && g.severity in {"high", "medium", "low"}
            && (!Cites(f) ==> (g.severity == "high" <==> SaysHigh(said)) && (g.severity == "low" <==> SaysLow(said)))
            && (Cites(f) ==>
                  && f.cardId.value in tables.cards
                  && var cap := t.lower(tables.cards[f.cardId.value].severityCap);
                  && (g.severity == "high" <==> SaysHigh(said) && SaysHigh(cap))
                  && (g.severity == "low" <==> SaysLow(said) || SaysLow(cap)))
  {
    KeptForm(t, tables, f, g);
    var said := t.lower(t.strip(f.severity));
    WordMeans(said);
    if Cites(f) {
      WordMeans(t.lower(tables.cards[f.cardId.value].severityCap));
    }
  }

  lemma WordMeans(word: string)
    ensures SaysHigh(word) <==> Alias(word) == High
    ensures SaysLow(word) <==> Alias(word) == Low
  {
  }

  // ---------------------------------------------------------------- measured evidence

  /** The nine entries of a measurement, under their keys. */
  ghost predicate Shows(evidence: seq<(string, Value)>, m: ComplexityMetric) {
    && Lookup(evidence, "metric_id") == Some(Str(m.metricId)) && Lookup(evidence, "tool") == Some(Str(m.tool))
    && Lookup(evidence, "metric") == Some(Str(m.metric)) && Lookup(evidence, "symbol") == Some(Str(m.symbol))
    && Lookup(evidence, "before") == Some(Number(m.before)) && Lookup(evidence, "after") == Some(Number(m.after))
    && Lookup(evidence, "delta") == Some(Number(m.delta))
    && Lookup(evidence, "threshold") == Some(Number(m.threshold))
    && Lookup(evidence, "trigger") == Some(Str(Trigger(m)))
  }

  lemma MeasuredShows(evidence: seq<(string, Value)>, m: ComplexityMetric)
    ensures Shows(Update(evidence, Measured(m)), m)
  {
    MeasuredKeysDiffer(m);
    forall i | 0 <= i < 9
      ensures Lookup(Update(evidence, Measured(m)), Measured(m)[i].0) == Some(Measured(m)[i].1)
    {
      UpdateLookup(evidence, Measured(m), i);
    }
    var all := Measured(m);
    assert all[0].0 == "metric_id" && all[1].0 == "tool" && all[2].0 == "metric" && all[3].0 == "symbol";
    assert all[4].0 == "before" && all[5].0 == "after" && all[6].0 == "delta" && all[7].0 == "threshold";
    assert all[8].0 == "trigger";
  }

  /** A complexity finding shows the measurement that supports it, whatever the model wrote there; every
      other entry, and every other finding's evidence, is as the model wrote it. */
  lemma KeptEvidence(t: TextOps, tables: Tables, f: Finding, g: Finding)
    requires Check(t, tables, f, multiset{}).kept == Some(g)
    ensures Cites(f) && f.cardId.value in tables.cards && tables.cards[f.cardId.value].cardId == COMPLEXITY ==>
              exists m :: Supported(tables, f, m) && Shows(g.evidence, m)
                          && forall key :: (forall i :: 0 <= i < 9 ==> Measured(m)[i].0 != key) ==>
                               Lookup(g.evidence, key) == Lookup(f.evidence, key)
    ensures !(Cites(f) && f.cardId.value in tables.cards && tables.cards[f.cardId.value].cardId == COMPLEXITY) ==>
              g.evidence == f.evidence
  {
    KeptIsRewritten(t, tables, f, g);
    if Cites(f) && f.cardId.value in tables.cards && tables.cards[f.cardId.value].cardId == COMPLEXITY {
      KeptExactly(t, tables, f);
      SupportMeans(tables, f);
      var m := SupportingMetric(tables, f).value;
      MeasuredShows(f.evidence, m);
      forall key | forall i :: 0 <= i < 9 ==> Measured(m)[i].0 != key
        ensures Lookup(g.evidence, key) == Lookup(f.evidence, key)
      {
        UpdateOther(f.evidence, Measured(m), key);
      }
    }
  }
}
