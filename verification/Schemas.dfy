/** The data the review pipeline passes around (backend/app/core/schemas.py), as far as the modelled
    code reads it. */
module Schemas {
  import opened Text

  const SIMPLE_FAILURE_REVIEW := "simple_failure_review"
  const POLICY_CONTEXT_REVIEW := "policy_context_review"
  const DEEP_QUALITY_REVIEW := "deep_quality_review"

  datatype ChangedFile = ChangedFile(path: string, status: string, additions: nat, deletions: nat, patch: string)

  datatype PolicyChunk = PolicyChunk(
    sourcePath: string, sectionTitle: string, content: string, policyType: string, score: real)

  datatype ComplexityMetric = ComplexityMetric(
    metricId: string, tool: string, metric: string, filePath: string, symbol: string,
    before: int, after: int, delta: int, threshold: int, exceededThreshold: bool)

  datatype KnowledgeCard = KnowledgeCard(
    cardId: string, skillId: string, severityCap: string, forbiddenClaimMarkers: seq<string>, score: int)

  /** A JSON value of a finding's evidence: what str(...) shows and whether it is truthy. */
  datatype Value = Str(text: string) | Number(n: int) | Other(shown: string, truthy: bool)
  {
    function Shown(): string {
      match this
      case Str(text) => text
      case Number(n) => Numeral(n)
      case Other(shown, _) => shown
    }

    predicate Truthy() {
      match this
      case Str(text) => text != ""
      case Number(n) => n != 0
      case Other(_, truthy) => truthy
    }
  }

  datatype Finding = Finding(
    severity: string, category: string, filePath: string,
    lineStart: Option<int>, lineEnd: Option<int>,
    message: string, suggestion: string, evidence: seq<(string, Value)>,
    policySource: Option<string>, cardId: Option<string>, confidence: real)
}
