/** The checks and repairs of one finding in validate_and_rank_findings, and what a finding that
    passes them is. */
module FindingChecks {
  import opened Text
  import opened Schemas
  import opened ReviewQuality
  import DiffReaders

  /** What a validation run is given besides the findings. */
  datatype Inputs = Inputs(
    files: seq<ChangedFile>, metrics: seq<ComplexityMetric>, policies: seq<PolicyChunk>,
    cards: seq<KnowledgeCard>, route: string)

  /** The look-up tables built before the loop. */
  datatype Tables = Tables(
    files: map<string, ChangedFile>, metrics: map<string, ComplexityMetric>,
    sources: map<string, string>, cards: map<string, KnowledgeCard>)

  function TablesOf(inputs: Inputs): Tables {
    Tables(FilesByPath(inputs.files), MetricsById(inputs.metrics),
           CanonicalSources(inputs.policies), CardsById(inputs.cards))
  }

  ghost predicate GoodTables(tables: Tables) {
    && LeadsToItself(tables.sources)
    && (forall k :: k in tables.sources ==> tables.sources[k] != "")
    && (forall id :: id in tables.metrics ==> tables.metrics[id].metricId == id)
  }

  lemma TablesAreGood(inputs: Inputs)
    ensures GoodTables(TablesOf(inputs))
  {
    CanonicalIsFixed(inputs.policies);
    MetricsKeepIds(inputs.metrics);
  }

  // ---------------------------------------------------------------- repairs of one finding

  predicate Given(field: Option<string>) {
    field.Some? && field.value != ""
  }

  function RepairedSource(sources: map<string, string>, source: Option<string>): Option<string> {
    if !Given(source) then source
    else if source.value in sources then Some(sources[source.value])
    else None
  }

  function Capped(severity: Severity, cap: Severity): Severity {
    if Rank(severity) < Rank(cap) then cap else severity
  }

  predicate OnRightSide(valid: set<nat>, line: int) {
    line >= 0 && line in valid
  }

  function RepairedLines(valid: set<nat>, start: Option<int>, end: Option<int>): (Option<int>, Option<int>) {
    if start.None? then (start, end)
    else if !OnRightSide(valid, start.value) then (None, None)
    else if end.None? || end.value < start.value || !OnRightSide(valid, end.value) then (start, start)
    else (start, end)
  }

  function Clamp(confidence: real): real {
    if confidence < 0.0 then 0.0 else if confidence > 1.0 then 1.0 else confidence
  }

  const GENERAL := "general"

  function RepairedCategory(t: TextOps, category: string): string {
    var c := t.lower(t.strip(category));
    if c == "" then GENERAL else c
  }

  /** The metric a complexity finding names, if the measurement supports the finding. */
  function SupportingMetric(tables: Tables, f: Finding): Option<ComplexityMetric> {
    var named := Lookup(f.evidence, METRIC_ID);
    var id := if named.Some? && named.value.Truthy() then named.value.Shown() else "";
    if id !in tables.metrics then None
    else
      var m := tables.metrics[id];
      if m.filePath != f.filePath || !m.exceededThreshold || m.delta <= 0 then None else Some(m)
  }

  /** The text in which a card's forbidden markers are searched. */
  function ClaimText(t: TextOps, f: Finding): string {
    t.lower(Join(" ", [f.message, f.suggestion] + Each((item: (string, Value)) => item.1.Shown(), f.evidence)))
  }

  predicate Forbidden(t: TextOps, card: KnowledgeCard, f: Finding) {
    exists i :: 0 <= i < |card.forbiddenClaimMarkers| && Contains(ClaimText(t, f), card.forbiddenClaimMarkers[i])
  }

  /** The finding with every normalised field set. */
  function Normalized(
      t: TextOps, tables: Tables, f: Finding, severity: Severity, evidence: seq<(string, Value)>): Finding
    requires f.filePath in tables.files
  {
    var lines := RepairedLines(DiffReaders.RightSideDiffLines(tables.files[f.filePath].patch), f.lineStart, f.lineEnd);
    f.(severity := Name(severity), category := RepairedCategory(t, f.category),
       lineStart := lines.0, lineEnd := lines.1,
       message := t.strip(f.message), suggestion := t.strip(f.suggestion),
       evidence := evidence, policySource := RepairedSource(tables.sources, f.policySource),
       confidence := Clamp(f.confidence))
  }

  // ---------------------------------------------------------------- the verdict on one finding

  /** The counters of the report that a finding can raise. */
  datatype Counter =
    | UnknownFile | EmptyText | NotKorean | MissingCard | InvalidCard | CardGuard | ComplexityEvidence | Duplicate
    | SourceRemoved | SeverityCapped | LineRemoved

  /** The normalised finding, or none when it is dropped, and the counters so far. */
  datatype Verdict = Verdict(kept: Option<Finding>, counters: multiset<Counter>)

  function Raised(counters: multiset<Counter>, c: Counter, condition: bool): multiset<Counter> {
    if condition then counters + multiset{c} else counters
  }

  predicate SourceIsUnknown(tables: Tables, f: Finding) {
    Given(f.policySource) && f.policySource.value !in tables.sources
  }

  function Keep(t: TextOps, tables: Tables, f: Finding, severity: Severity, evidence: seq<(string, Value)>,
                counters: multiset<Counter>): Verdict
    requires f.filePath in tables.files
  {
    var g := Normalized(t, tables, f, severity, evidence);
    Verdict(Some(g), Raised(counters, LineRemoved, f.lineStart.Some? && g.lineStart.None?))
  }

  function CheckCard(t: TextOps, tables: Tables, f: Finding, severity: Severity, card: KnowledgeCard,
                     counters: multiset<Counter>): Verdict
    requires f.filePath in tables.files
  {
    if Forbidden(t, card, f) then Verdict(None, counters + multiset{CardGuard})
    else
      var level := Capped(severity, Alias(t.lower(card.severityCap)));
      var counted := Raised(counters, SeverityCapped, level != severity);
      if card.cardId != COMPLEXITY_CARD_ID then Keep(t, tables, f, level, f.evidence, counted)
      else
        var metric := SupportingMetric(tables, f);
        if metric.None? then Verdict(None, counted + multiset{ComplexityEvidence})
        else Keep(t, tables, f, level, Update(f.evidence, Measured(metric.value)), counted)
  }

  function Check(t: TextOps, tables: Tables, f: Finding, counters: multiset<Counter>): Verdict {
    if f.filePath !in tables.files then Verdict(None, counters + multiset{UnknownFile})
    else if t.strip(f.message) == "" || t.strip(f.suggestion) == "" then Verdict(None, counters + multiset{EmptyText})
    else if !t.hangul(f.message) || !t.hangul(f.suggestion) then Verdict(None, counters + multiset{NotKorean})
    else CheckGrounds(t, tables, f, Raised(counters, SourceRemoved, SourceIsUnknown(tables, f)))
  }

  /** The checks of the knowledge card and everything after them. */
  function CheckGrounds(t: TextOps, tables: Tables, f: Finding, counters: multiset<Counter>): Verdict
    requires f.filePath in tables.files
  {
    var severity := Alias(t.lower(t.strip(f.severity)));
    if tables.cards != map[] && !Given(f.cardId) then Verdict(None, counters + multiset{MissingCard})
    else if !Given(f.cardId) then Keep(t, tables, f, severity, f.evidence, counters)
    else if f.cardId.value !in tables.cards then Verdict(None, counters + multiset{InvalidCard})
    else CheckCard(t, tables, f, severity, tables.cards[f.cardId.value], counters)
  }

  /** The id that an unknown card adds to the report. */
  function InventedIds(f: Finding, v: Verdict, counters: multiset<Counter>): seq<string> {
    if v.counters[InvalidCard] > counters[InvalidCard] && f.cardId.Some? then [f.cardId.value] else []
  }

  // ---------------------------------------------------------------- what the checks count

  /** The *_dropped counters that a finding raises by itself. */
  const DROPS: seq<Counter> :=
    [UnknownFile, EmptyText, NotKorean, MissingCard, InvalidCard, CardGuard, ComplexityEvidence]

  function DroppedAlone(counters: multiset<Counter>): nat {
    SumOf(counters, DROPS)
  }

  function SumOf(counters: multiset<Counter>, kinds: seq<Counter>): nat {
    if kinds == [] then 0 else counters[kinds[0]] + SumOf(counters, kinds[1..])
  }

  lemma {:induction false} SumAfter(counters: multiset<Counter>, c: Counter, kinds: seq<Counter>)
    requires forall i, j :: 0 <= i < j < |kinds| ==> kinds[i] != kinds[j]
    ensures SumOf(counters + multiset{c}, kinds) == SumOf(counters, kinds) + (if c in kinds then 1 else 0)
  {
    if kinds != [] {
      SumAfter(counters, c, kinds[1..]);
    }
  }

  /** The counters do not influence what is kept. */
  lemma CheckKeepsAlike(t: TextOps, tables: Tables, f: Finding, counters: multiset<Counter>)
    ensures Check(t, tables, f, counters).kept == Check(t, tables, f, multiset{}).kept
  {
  }

  lemma CountsAfter(counters: multiset<Counter>, c: Counter)
    ensures DroppedAlone(counters + multiset{c}) == DroppedAlone(counters) + (if c in DROPS then 1 else 0)
    ensures c != Duplicate ==> (counters + multiset{c})[Duplicate] == counters[Duplicate]
    ensures c in DROPS <==> c !in {SourceRemoved, SeverityCapped, LineRemoved, Duplicate}
  {
    SumAfter(counters, c, DROPS);
  }

  /** What checks do to the counters: a dropped finding raises one *_dropped counter, a kept one
      raises none, and neither touches the duplicates. */
  ghost predicate CountsOnce(v: Verdict, counters: multiset<Counter>) {
    && DroppedAlone(v.counters) == DroppedAlone(counters) + (if v.kept.None? then 1 else 0)
    && v.counters[Duplicate] == counters[Duplicate]
  }

  lemma KeepCounts(t: TextOps, tables: Tables, f: Finding, severity: Severity, evidence: seq<(string, Value)>,
                   counters: multiset<Counter>)
    requires f.filePath in tables.files
    ensures CountsOnce(Keep(t, tables, f, severity, evidence, counters), counters)
  {
    var g := Normalized(t, tables, f, severity, evidence);
    CountsAfter(counters, LineRemoved);
  }

  lemma CardCounts(t: TextOps, tables: Tables, f: Finding, severity: Severity, card: KnowledgeCard,
                   counters: multiset<Counter>)
    requires f.filePath in tables.files
    ensures CountsOnce(CheckCard(t, tables, f, severity, card, counters), counters)
  {
    var level := Capped(severity, Alias(t.lower(card.severityCap)));
    var counted := Raised(counters, SeverityCapped, level != severity);
    CountsAfter(counters, SeverityCapped);
    CountsAfter(counters, CardGuard);
    CountsAfter(counted, ComplexityEvidence);
    KeepCounts(t, tables, f, level, f.evidence, counted);
    var metric := SupportingMetric(tables, f);
    if metric.Some? {
      KeepCounts(t, tables, f, level, Update(f.evidence, Measured(metric.value)), counted);
    }
  }

  lemma CheckCounts(t: TextOps, tables: Tables, f: Finding, counters: multiset<Counter>)
    ensures CountsOnce(Check(t, tables, f, counters), counters)
  {
    if f.filePath !in tables.files {
      CountsAfter(counters, UnknownFile);
    } else if t.strip(f.message) == "" || t.strip(f.suggestion) == "" {
      CountsAfter(counters, EmptyText);
    } else if !t.hangul(f.message) || !t.hangul(f.suggestion) {
      CountsAfter(counters, NotKorean);
    } else {
      var counted := Raised(counters, SourceRemoved, SourceIsUnknown(tables, f));
      CountsAfter(counters, SourceRemoved);
      GroundsCount(t, tables, f, counted);
    }
  }

  lemma GroundsCount(t: TextOps, tables: Tables, f: Finding, counters: multiset<Counter>)
    requires f.filePath in tables.files
    ensures CountsOnce(CheckGrounds(t, tables, f, counters), counters)
  {
    var severity := Alias(t.lower(t.strip(f.severity)));
    CountsAfter(counters, MissingCard);
    CountsAfter(counters, InvalidCard);
    KeepCounts(t, tables, f, severity, f.evidence, counters);
    if Given(f.cardId) && f.cardId.value in tables.cards {
      CardCounts(t, tables, f, severity, tables.cards[f.cardId.value], counters);
    }
  }

  // ---------------------------------------------------------------- what an accepted finding is

  predicate LinesInDiff(valid: set<nat>, start: Option<int>, end: Option<int>) {
    start.Some? ==>
      OnRightSide(valid, start.value) && end.Some? && end.value >= start.value && OnRightSide(valid, end.value)
  }

  /** A finding that may be shown: its file changed, its texts are stripped, not blank and Korean,
      its lines are in the diff, its policy is canonical, and its card exists, caps its severity
      and, for complexity, is backed by the measured values in its evidence. */
  ghost predicate Showable(t: TextOps, tables: Tables, g: Finding) {
    && g.filePath in tables.files
    && t.strip(g.message) == g.message != "" && t.strip(g.suggestion) == g.suggestion != ""
    && t.hangul(g.message) && t.hangul(g.suggestion)
    && (exists s :: g.severity == Name(s))
    && RepairedCategory(t, g.category) == g.category
    && 0.0 <= g.confidence <= 1.0
    && LinesInDiff(DiffReaders.RightSideDiffLines(tables.files[g.filePath].patch), g.lineStart, g.lineEnd)
    && (Given(g.policySource) ==>
          g.policySource.value in tables.sources && tables.sources[g.policySource.value] == g.policySource.value)
    && (tables.cards != map[] ==> Given(g.cardId))
    && (Given(g.cardId) ==> g.cardId.value in tables.cards && FitsCard(t, tables, g, tables.cards[g.cardId.value]))
  }

  ghost predicate FitsCard(t: TextOps, tables: Tables, g: Finding, card: KnowledgeCard) {
    && Rank(Alias(g.severity)) >= Rank(Alias(t.lower(card.severityCap)))
    && (card.cardId == COMPLEXITY_CARD_ID ==>
          SupportingMetric(tables, g).Some?
          && Update(g.evidence, Measured(SupportingMetric(tables, g).value)) == g.evidence)
  }

  lemma NameIsRead(t: TextOps, s: Severity)
    requires TextLaws(t)
    ensures Alias(t.lower(t.strip(Name(s)))) == s
  {
  }

  /** The parts of a normalised finding that do not depend on its card. */
  ghost predicate Plain(t: TextOps, tables: Tables, g: Finding) {
    && g.filePath in tables.files
    && t.strip(g.message) == g.message && t.strip(g.suggestion) == g.suggestion
    && RepairedCategory(t, g.category) == g.category
    && 0.0 <= g.confidence <= 1.0
    && LinesInDiff(DiffReaders.RightSideDiffLines(tables.files[g.filePath].patch), g.lineStart, g.lineEnd)
    && (Given(g.policySource) ==>
          g.policySource.value in tables.sources && tables.sources[g.policySource.value] == g.policySource.value)
  }

  lemma NormalizedIsPlain(t: TextOps, tables: Tables, f: Finding, severity: Severity, evidence: seq<(string, Value)>)
    requires TextLaws(t) && GoodTables(tables) && f.filePath in tables.files
    ensures Plain(t, tables, Normalized(t, tables, f, severity, evidence))
  {
  }

  /** Normalising a plain finding with its own severity and evidence changes nothing. */
  lemma PlainIsFixed(t: TextOps, tables: Tables, g: Finding, severity: Severity)
    requires Plain(t, tables, g) && g.severity == Name(severity)
    ensures Normalized(t, tables, g, severity, g.evidence) == g
    ensures !SourceIsUnknown(tables, g)
  {
  }

  /** The measured values keep naming the metric they were taken from. */
  lemma MeasuredSupports(tables: Tables, f: Finding, g: Finding)
    requires GoodTables(tables) && SupportingMetric(tables, f).Some? && g.filePath == f.filePath
    requires g.evidence == Update(f.evidence, Measured(SupportingMetric(tables, f).value))
    ensures SupportingMetric(tables, g) == SupportingMetric(tables, f)
    ensures Update(g.evidence, Measured(SupportingMetric(tables, f).value)) == g.evidence
  {
    var m := SupportingMetric(tables, f).value;
    MeasuredKeysDiffer(m);
    UpdateLookup(f.evidence, Measured(m), 0);
    UpdateTwice(f.evidence, Measured(m));
  }

  lemma KeptCardIsShowable(t: TextOps, tables: Tables, f: Finding, severity: Severity, card: KnowledgeCard, g: Finding)
    requires TextLaws(t) && GoodTables(tables) && f.filePath in tables.files
    requires CheckCard(t, tables, f, severity, card, multiset{}).kept == Some(g)
    ensures Plain(t, tables, g) && FitsCard(t, tables, g, card) && (exists s :: g.severity == Name(s))
  {
    var level := Capped(severity, Alias(t.lower(card.severityCap)));
    AliasOfName(level);
    var metric := SupportingMetric(tables, f);
    if card.cardId != COMPLEXITY_CARD_ID {
      NormalizedIsPlain(t, tables, f, level, f.evidence);
      assert g == Normalized(t, tables, f, level, f.evidence);
    } else {
      var evidence := Update(f.evidence, Measured(metric.value));
      NormalizedIsPlain(t, tables, f, level, evidence);
      assert g == Normalized(t, tables, f, level, evidence);
      MeasuredSupports(tables, f, g);
    }
    assert g.severity == Name(level);
  }

  /** Every finding that passes the checks is showable. */
  lemma KeptIsShowable(t: TextOps, tables: Tables, f: Finding, g: Finding)
    requires TextLaws(t) && GoodTables(tables)
    requires Check(t, tables, f, multiset{}).kept == Some(g)
    ensures Showable(t, tables, g)
  {
    var severity := Alias(t.lower(t.strip(f.severity)));
    var counted := Raised(multiset{}, SourceRemoved, SourceIsUnknown(tables, f));
    assert CheckGrounds(t, tables, f, counted).kept == Some(g);
    if Given(f.cardId) {
      var card := tables.cards[f.cardId.value];
      CardKeepsAlike(t, tables, f, severity, card, counted);
      KeptCardIsShowable(t, tables, f, severity, card, g);
      CardKeepsFields(t, tables, f, severity, card, g);
    } else {
      NormalizedIsPlain(t, tables, f, severity, f.evidence);
      assert g == Normalized(t, tables, f, severity, f.evidence);
    }
  }

  lemma CardKeepsAlike(t: TextOps, tables: Tables, f: Finding, severity: Severity, card: KnowledgeCard,
                       counters: multiset<Counter>)
    requires f.filePath in tables.files
    ensures CheckCard(t, tables, f, severity, card, counters).kept
         == CheckCard(t, tables, f, severity, card, multiset{}).kept
  {
  }

  lemma CardKeepsFields(t: TextOps, tables: Tables, f: Finding, severity: Severity, card: KnowledgeCard, g: Finding)
    requires f.filePath in tables.files && CheckCard(t, tables, f, severity, card, multiset{}).kept == Some(g)
    ensures g.cardId == f.cardId && g.message == t.strip(f.message) && g.suggestion == t.strip(f.suggestion)
  {
  }

  // ---------------------------------------------------------------- checking a passed finding again

  /** The guard branch, on a finding as it stands. */
  predicate GuardFires(t: TextOps, tables: Tables, g: Finding) {
    Given(g.cardId) && g.cardId.value in tables.cards && Forbidden(t, tables.cards[g.cardId.value], g)
  }

  lemma ShowableCardIsFixed(t: TextOps, tables: Tables, g: Finding, severity: Severity, card: KnowledgeCard,
                            counters: multiset<Counter>)
    requires Plain(t, tables, g) && FitsCard(t, tables, g, card) && g.severity == Name(severity)
    requires !Forbidden(t, card, g)
    ensures CheckCard(t, tables, g, severity, card, counters) == Verdict(Some(g), counters)
  {
    AliasOfName(severity);
    PlainIsFixed(t, tables, g, severity);
  }

  /** A showable finding passes unchanged and raises no counter, unless its card's guard fires. */
  lemma ShowableIsFixed(t: TextOps, tables: Tables, g: Finding, counters: multiset<Counter>)
    requires TextLaws(t) && Showable(t, tables, g)
    ensures Check(t, tables, g, counters)
         == if GuardFires(t, tables, g) then Verdict(None, counters + multiset{CardGuard})
            else Verdict(Some(g), counters)
  {
    var severity :| g.severity == Name(severity);
    NameIsRead(t, severity);
    PlainIsFixed(t, tables, g, severity);
    if Given(g.cardId) && !GuardFires(t, tables, g) {
      ShowableCardIsFixed(t, tables, g, severity, tables.cards[g.cardId.value], counters);
    }
  }

  // ---------------------------------------------------------------- where a finding points

  function Moved(f: Finding, line: int): Finding {
    f.(lineStart := Some(line), lineEnd := None)
  }

  lemma CardKeepsPlace(t: TextOps, tables: Tables, f: Finding, severity: Severity, card: KnowledgeCard, g: Finding)
    requires f.filePath in tables.files && CheckCard(t, tables, f, severity, card, multiset{}).kept == Some(g)
    ensures g.filePath == f.filePath
    ensures g.lineStart
         == RepairedLines(DiffReaders.RightSideDiffLines(tables.files[f.filePath].patch), f.lineStart, f.lineEnd).0
  {
  }

  lemma KeptIsInPlace(t: TextOps, tables: Tables, f: Finding, g: Finding)
    requires Check(t, tables, f, multiset{}).kept == Some(g)
    ensures f.filePath in tables.files && g.filePath == f.filePath
    ensures g.lineStart
         == RepairedLines(DiffReaders.RightSideDiffLines(tables.files[f.filePath].patch), f.lineStart, f.lineEnd).0
  {
    var severity := Alias(t.lower(t.strip(f.severity)));
    var counted := Raised(multiset{}, SourceRemoved, SourceIsUnknown(tables, f));
    assert CheckGrounds(t, tables, f, counted).kept == Some(g);
    if Given(f.cardId) {
      CardKeepsAlike(t, tables, f, severity, tables.cards[f.cardId.value], counted);
      CardKeepsPlace(t, tables, f, severity, tables.cards[f.cardId.value], g);
    }
  }

  lemma CardIgnoresPlace(
      t: TextOps, tables: Tables, f: Finding, line: int, severity: Severity, card: KnowledgeCard, c: multiset<Counter>)
    requires f.filePath in tables.files
    ensures CheckCard(t, tables, Moved(f, line), severity, card, c).kept.Some?
       <==> CheckCard(t, tables, f, severity, card, c).kept.Some?
  {
    assert ClaimText(t, Moved(f, line)) == ClaimText(t, f);
  }

  /** Whether a finding passes does not depend on the line it points at. */
  lemma PassingIgnoresPlace(t: TextOps, tables: Tables, f: Finding, line: int)
    ensures Check(t, tables, Moved(f, line), multiset{}).kept.Some? <==> Check(t, tables, f, multiset{}).kept.Some?
  {
    var severity := Alias(t.lower(t.strip(f.severity)));
    var counted := Raised(multiset{}, SourceRemoved, SourceIsUnknown(tables, f));
    if f.filePath in tables.files && Given(f.cardId) && f.cardId.value in tables.cards {
      CardIgnoresPlace(t, tables, f, line, severity, tables.cards[f.cardId.value], counted);
    }
  }

  // ---------------------------------------------------------------- the guard, foretold

  /** The evidence that a finding has once it has passed the checks. */
  function EvidenceAfter(tables: Tables, f: Finding): seq<(string, Value)> {
    if && Given(f.cardId) && f.cardId.value in tables.cards
       && tables.cards[f.cardId.value].cardId == COMPLEXITY_CARD_ID && SupportingMetric(tables, f).Some?
    then Update(f.evidence, Measured(SupportingMetric(tables, f).value))
    else f.evidence
  }

  /** A received finding with its texts stripped and its evidence measured. */
  function Rewritten(t: TextOps, tables: Tables, f: Finding): Finding {
    f.(message := t.strip(f.message), suggestion := t.strip(f.suggestion), evidence := EvidenceAfter(tables, f))
  }

  /** The guard of its card fires on a received finding once that is rewritten. */
  predicate TripsLater(t: TextOps, tables: Tables, f: Finding) {
    GuardFires(t, tables, Rewritten(t, tables, f))
  }

  lemma KeptIsRewritten(t: TextOps, tables: Tables, f: Finding, g: Finding)
    requires Check(t, tables, f, multiset{}).kept == Some(g)
    ensures g.cardId == f.cardId && g.evidence == EvidenceAfter(tables, f)
    ensures g.message == t.strip(f.message) && g.suggestion == t.strip(f.suggestion)
  {
    var severity := Alias(t.lower(t.strip(f.severity)));
    var counted := Raised(multiset{}, SourceRemoved, SourceIsUnknown(tables, f));
    assert CheckGrounds(t, tables, f, counted).kept == Some(g);
    if Given(f.cardId) {
      var card := tables.cards[f.cardId.value];
      CardKeepsAlike(t, tables, f, severity, card, counted);
      CardKeepsFields(t, tables, f, severity, card, g);
      assert CheckCard(t, tables, f, severity, card, multiset{}).kept == Some(g);
    }
  }

  /** Whether the guard will fire on what validation makes of a finding can be told when the finding
      is received. */
  lemma GuardIsForetold(t: TextOps, tables: Tables, f: Finding, g: Finding)
    requires Check(t, tables, f, multiset{}).kept == Some(g)
    ensures GuardFires(t, tables, g) <==> TripsLater(t, tables, f)
  {
    KeptIsRewritten(t, tables, f, g);
    assert ClaimText(t, g) == ClaimText(t, Rewritten(t, tables, f));
  }

  /** A card whose guard says the same before and after: its markers hold no white space, which
      stripping could move, and its evidence is not rewritten. */
  predicate Steady(t: TextOps, card: KnowledgeCard) {
    card.forbiddenClaimMarkers == []
    || (&& card.cardId != COMPLEXITY_CARD_ID
        && forall i :: 0 <= i < |card.forbiddenClaimMarkers| ==>
             card.forbiddenClaimMarkers[i] == "" || OneWord(t, card.forbiddenClaimMarkers[i]))
  }

  lemma {:induction false} JoinedWords(t: TextOps, a: seq<string>, b: seq<string>)
    requires WordLaws(t) && |a| == |b| && forall i :: 0 <= i < |a| ==> t.words(a[i]) == t.words(b[i])
    ensures t.words(Join(" ", a)) == t.words(Join(" ", b))
  {
    if |a| > 1 {
      JoinedWords(t, a[1..], b[1..]);
      assert Join(" ", a) == a[0] + (" " + Join(" ", a[1..])) && Join(" ", b) == b[0] + (" " + Join(" ", b[1..]));
    }
  }

  lemma StrippedClaim(t: TextOps, f: Finding, g: Finding)
    requires WordLaws(t) && g == f.(message := t.strip(f.message), suggestion := t.strip(f.suggestion))
    ensures t.words(ClaimText(t, f)) == t.words(ClaimText(t, g))
  {
    var shown := Each((item: (string, Value)) => item.1.Shown(), f.evidence);
    JoinedWords(t, [f.message, f.suggestion] + shown, [g.message, g.suggestion] + shown);
  }

  lemma SameMarker(t: TextOps, a: string, b: string, m: string)
    requires WordLaws(t) && t.words(a) == t.words(b) && (m == "" || OneWord(t, m))
    ensures Contains(a, m) <==> Contains(b, m)
  {
    if m == "" {
      assert OccursAt(a, m, 0) && OccursAt(b, m, 0);
    }
  }

  /** Stripping neither adds nor removes a marker without white space. */
  lemma SteadyGuard(t: TextOps, tables: Tables, f: Finding)
    requires WordLaws(t) && Given(f.cardId) && f.cardId.value in tables.cards
    requires Steady(t, tables.cards[f.cardId.value])
    ensures GuardFires(t, tables, f) <==> TripsLater(t, tables, f)
  {
    var card, g := tables.cards[f.cardId.value], Rewritten(t, tables, f);
    if card.forbiddenClaimMarkers != [] {
      StrippedClaim(t, f, g);
      forall i | 0 <= i < |card.forbiddenClaimMarkers|
        ensures Contains(ClaimText(t, f), card.forbiddenClaimMarkers[i])
           <==> Contains(ClaimText(t, g), card.forbiddenClaimMarkers[i])
      {
        SameMarker(t, ClaimText(t, f), ClaimText(t, g), card.forbiddenClaimMarkers[i]);
      }
    }
  }

  lemma PassedGuard(t: TextOps, tables: Tables, f: Finding)
    requires Check(t, tables, f, multiset{}).kept.Some?
    ensures !GuardFires(t, tables, f)
  {
  }
}
