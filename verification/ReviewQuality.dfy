/** review_quality.py: the model's findings are checked one by one, repaired, deduplicated, ranked
    and cut to the limit of the route. */
module ReviewQuality {
  import opened Text
  import opened Schemas
  import opened Sorting
  import DiffReaders

  // ---------------------------------------------------------------- severities

  datatype Severity = High | Medium | Low

  function Rank(s: Severity): nat {
    match s
    case High => 0
    case Medium => 1
    case Low => 2
  }

  const HIGH := "high"
  const MEDIUM := "medium"
  const LOW := "low"
  const HIGH_ALIASES: set<string> := {"critical", "blocker", "p0", "p1", "major", HIGH}
  const LOW_ALIASES: set<string> := {"p3", "trivial", "info", LOW}

  /** SEVERITY_ALIASES.get(word, "medium"). */
  function Alias(word: string): Severity {
    if word in HIGH_ALIASES then High else if word in LOW_ALIASES then Low else Medium
  }

  function Name(s: Severity): string {
    match s
    case High => HIGH
    case Medium => MEDIUM
    case Low => LOW
  }

  lemma AliasOfName(s: Severity)
    ensures Alias(Name(s)) == s && PlainWord(Name(s))
  {
  }

  /** SEVERITY_ORDER.get(severity, 1). */
  function SeverityOrder(severity: string): nat {
    if severity == HIGH then 0 else if severity == LOW then 2 else 1
  }

  // ---------------------------------------------------------------- look-ups

  function FilesByPath(files: seq<ChangedFile>): map<string, ChangedFile> {
    if files == [] then map[]
    else FilesByPath(files[..|files| - 1])[files[|files| - 1].path := files[|files| - 1]]
  }

  function CardsById(cards: seq<KnowledgeCard>): map<string, KnowledgeCard> {
    if cards == [] then map[]
    else CardsById(cards[..|cards| - 1])[cards[|cards| - 1].cardId := cards[|cards| - 1]]
  }

  function MetricsById(metrics: seq<ComplexityMetric>): map<string, ComplexityMetric> {
    if metrics == [] then map[]
    else MetricsById(metrics[..|metrics| - 1])[metrics[|metrics| - 1].metricId := metrics[|metrics| - 1]]
  }

  lemma {:induction false} MetricsKeepIds(metrics: seq<ComplexityMetric>)
    ensures forall id :: id in MetricsById(metrics) ==> MetricsById(metrics)[id].metricId == id
  {
    if metrics != [] {
      MetricsKeepIds(metrics[..|metrics| - 1]);
    }
  }

  function Canonical(policy: PolicyChunk): string {
    policy.sourcePath + "#" + policy.sectionTitle
  }

  /** _canonical_policy_sources: the canonical name always wins, the bare path only when free. */
  function CanonicalSources(policies: seq<PolicyChunk>): map<string, string> {
    if policies == [] then map[]
    else AddSource(CanonicalSources(policies[..|policies| - 1]), policies[|policies| - 1])
  }

  function AddSource(sources: map<string, string>, policy: PolicyChunk): map<string, string> {
    var named := sources[Canonical(policy) := Canonical(policy)];
    if policy.sourcePath in named then named else named[policy.sourcePath := Canonical(policy)]
  }

  method CanonicalPolicySources(policies: seq<PolicyChunk>) returns (sources: map<string, string>)
    ensures sources == CanonicalSources(policies)
  {
    sources := map[];
    for i := 0 to |policies|
      invariant sources == CanonicalSources(policies[..i])
    {
      var canonical := Canonical(policies[i]);
      sources := sources[canonical := canonical];
      if policies[i].sourcePath !in sources {
        sources := sources[policies[i].sourcePath := canonical];
      }
      assert policies[..i + 1][..i] == policies[..i];
    }
    assert policies[..|policies|] == policies;
  }

  predicate LeadsToItself(sources: map<string, string>) {
    forall k :: k in sources ==> sources[k] in sources && sources[sources[k]] == sources[k]
  }

  lemma {:induction false} CanonicalIsFixed(policies: seq<PolicyChunk>)
    ensures LeadsToItself(CanonicalSources(policies))
    ensures forall k :: k in CanonicalSources(policies) ==> CanonicalSources(policies)[k] != ""
  {
    if policies != [] {
      CanonicalIsFixed(policies[..|policies| - 1]);
    }
  }

  /** A source is accepted exactly when it is the path or the name of a provided policy, and what
      replaces it is the name of a provided policy. */
  lemma {:induction false} CanonicalSourcesMean(policies: seq<PolicyChunk>, source: string)
    ensures source in CanonicalSources(policies)
       <==> exists p :: p in policies && (source == p.sourcePath || source == Canonical(p))
    ensures source in CanonicalSources(policies) ==>
              exists p :: p in policies && CanonicalSources(policies)[source] == Canonical(p)
  {
    if policies != [] {
      var rest, last := policies[..|policies| - 1], policies[|policies| - 1];
      CanonicalSourcesMean(rest, source);
      assert policies == rest + [last];
      assert forall p :: p in policies <==> p in rest || p == last;
    }
  }

  // ---------------------------------------------------------------- evidence, an ordered dict

  function Lookup(evidence: seq<(string, Value)>, key: string): Option<Value> {
    if evidence == [] then None
    else if evidence[0].0 == key then Some(evidence[0].1)
    else Lookup(evidence[1..], key)
  }

  function Put(evidence: seq<(string, Value)>, key: string, value: Value): seq<(string, Value)> {
    if evidence == [] then [(key, value)]
    else if evidence[0].0 == key then [(key, value)] + evidence[1..]
    else [evidence[0]] + Put(evidence[1..], key, value)
  }

  /** dict.update: existing keys keep their place. */
  function Update(evidence: seq<(string, Value)>, items: seq<(string, Value)>): seq<(string, Value)>
    decreases items
  {
    if items == [] then evidence else Update(Put(evidence, items[0].0, items[0].1), items[1..])
  }

  predicate DistinctKeys(items: seq<(string, Value)>) {
    forall i, j :: 0 <= i < j < |items| ==> items[i].0 != items[j].0
  }

  lemma {:induction false} PutLookup(evidence: seq<(string, Value)>, key: string, value: Value, other: string)
    ensures Lookup(Put(evidence, key, value), other) == if other == key then Some(value) else Lookup(evidence, other)
  {
    if evidence != [] && evidence[0].0 != key {
      PutLookup(evidence[1..], key, value, other);
    }
  }

  lemma {:induction false} PutSame(evidence: seq<(string, Value)>, key: string, value: Value)
    requires Lookup(evidence, key) == Some(value)
    ensures Put(evidence, key, value) == evidence
  {
    if evidence[0].0 != key {
      PutSame(evidence[1..], key, value);
    }
  }

  lemma {:induction false} UpdateOther(evidence: seq<(string, Value)>, items: seq<(string, Value)>, key: string)
    requires forall i :: 0 <= i < |items| ==> items[i].0 != key
    ensures Lookup(Update(evidence, items), key) == Lookup(evidence, key)
    decreases items
  {
    if items != [] {
      PutLookup(evidence, items[0].0, items[0].1, key);
      UpdateOther(Put(evidence, items[0].0, items[0].1), items[1..], key);
    }
  }

  lemma {:induction false} UpdateLookup(evidence: seq<(string, Value)>, items: seq<(string, Value)>, i: nat)
    requires DistinctKeys(items) && i < |items|
    ensures Lookup(Update(evidence, items), items[i].0) == Some(items[i].1)
    decreases items
  {
    var next := Put(evidence, items[0].0, items[0].1);
    if i == 0 {
      PutLookup(evidence, items[0].0, items[0].1, items[0].0);
      UpdateOther(next, items[1..], items[0].0);
    } else {
      UpdateLookup(next, items[1..], i - 1);
    }
  }

  lemma {:induction false} UpdateSame(evidence: seq<(string, Value)>, items: seq<(string, Value)>)
    requires forall i :: 0 <= i < |items| ==> Lookup(evidence, items[i].0) == Some(items[i].1)
    ensures Update(evidence, items) == evidence
  {
    if items != [] {
      PutSame(evidence, items[0].0, items[0].1);
      UpdateSame(evidence, items[1..]);
    }
  }

  lemma UpdateTwice(evidence: seq<(string, Value)>, items: seq<(string, Value)>)
    requires DistinctKeys(items)
    ensures Update(Update(evidence, items), items) == Update(evidence, items)
  {
    forall i | 0 <= i < |items|
      ensures Lookup(Update(evidence, items), items[i].0) == Some(items[i].1)
    {
      UpdateLookup(evidence, items, i);
    }
    UpdateSame(Update(evidence, items), items);
  }

  const METRIC_ID := "metric_id"
  const COMPLEXITY_CARD_ID := "python-cyclomatic-complexity-threshold"

  function Trigger(m: ComplexityMetric): string {
    "Radon 측정에서 " + m.symbol + " 함수의 cyclomatic complexity가 " + Numeral(m.before) + "에서 "
    + Numeral(m.after) + "로 증가해 임계값 " + Numeral(m.threshold) + "를 초과했습니다."
  }

  /** The measured values that replace what the model wrote. */
  function Measured(m: ComplexityMetric): seq<(string, Value)> {
    [(METRIC_ID, Str(m.metricId)), ("tool", Str(m.tool)), ("metric", Str(m.metric)), ("symbol", Str(m.symbol)),
     ("before", Number(m.before)), ("after", Number(m.after)), ("delta", Number(m.delta)),
     ("threshold", Number(m.threshold)), ("trigger", Str(Trigger(m)))]
  }

  /** The keys differ in length or in their first two characters. */
  lemma MeasuredKeysDiffer(m: ComplexityMetric)
    ensures DistinctKeys(Measured(m))
  {
  }
}
