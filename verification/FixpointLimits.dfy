/** Where the fixpoint of validation ends, for both causes: the measured evidence may bring a word
    into an accepted complexity finding that its card forbids, and stripping the texts may bring
    the parts of a forbidden phrase together. */
module FixpointLimits {
  import opened Text
  import opened AsciiText
  import opened Schemas
  import opened Sorting
  import opened Lists
  import opened ReviewQuality
  import opened FindingChecks
  import opened FindingPipeline
  import opened FindingValidation

  lemma LowerContains(text: string, word: string)
    requires PlainWord(word) && Contains(text, word)
    ensures Contains(AsciiLower(text), word)
  {
    var i :| 0 <= i <= |text| && OccursAt(text, word, i);
    forall k | 0 <= k < |word|
      ensures AsciiLower(text)[i + k] == word[k]
    {
      assert text[i..i + |word|][k] == word[k];
    }
    assert AsciiLower(text)[i..i + |word|] == word;
    assert OccursAt(AsciiLower(text), word, i);
  }

  lemma {:induction false} LookupShown(evidence: seq<(string, Value)>, key: string)
    requires Lookup(evidence, key).Some?
    ensures exists i :: 0 <= i < |evidence| && evidence[i].1 == Lookup(evidence, key).value
  {
    if evidence[0].0 != key {
      LookupShown(evidence[1..], key);
      var i :| 0 <= i < |evidence[1..]| && evidence[1..][i].1 == Lookup(evidence[1..], key).value;
      assert evidence[i + 1] == evidence[1..][i];
    }
  }

  /** Any plain word among the evidence values is found in the text the guard searches. */
  lemma EvidenceIsSearched(g: Finding, key: string, word: string)
    requires Lookup(g.evidence, key) == Some(Str(word)) && PlainWord(word)
    ensures Contains(ClaimText(ASCII, g), word)
  {
    LookupShown(g.evidence, key);
    var i :| 0 <= i < |g.evidence| && g.evidence[i].1 == Str(word);
    var parts := [g.message, g.suggestion] + Each((item: (string, Value)) => item.1.Shown(), g.evidence);
    assert parts[i + 2] == word;
    JoinContains(" ", parts, i + 2);
    LowerContains(Join(" ", parts), word);
  }

  /** An accepted complexity finding always trips a card that forbids the measuring tool's name,
      because validation itself wrote that name into the evidence. */
  lemma ForbiddenToolTrips(tables: Tables, f: Finding, g: Finding, m: ComplexityMetric, card: KnowledgeCard)
    requires GoodTables(tables) && SupportingMetric(tables, f) == Some(m) && PlainWord(m.tool)
    requires g.evidence == Update(f.evidence, Measured(m))
    requires m.tool in card.forbiddenClaimMarkers
    ensures Forbidden(ASCII, card, g)
  {
    MeasuredKeysDiffer(m);
    UpdateLookup(f.evidence, Measured(m), 1);
    EvidenceIsSearched(g, Measured(m)[1].0, m.tool);
  }

  // ---------------------------------------------------------------- a marker that measuring brings in

  // The complexity card as it is shipped has no markers; this one forbids the measuring tool.

  function ExampleMetric(): ComplexityMetric {
    ComplexityMetric("id", "radon", "cc", "m", "f", 1, 20, 19, 15, true)
  }

  function ExampleCard(): KnowledgeCard {
    KnowledgeCard(COMPLEXITY_CARD_ID, "s", HIGH, ["radon"], 0)
  }

  function ExampleInputs(): Inputs {
    Inputs([ChangedFile("m", "modified", 1, 0, "")], [ExampleMetric()], [], [ExampleCard()], DEEP_QUALITY_REVIEW)
  }

  function ExampleFinding(): Finding {
    Finding(HIGH, "c", "m", None, None, "가", "나", [(METRIC_ID, Str("id"))], None, Some(COMPLEXITY_CARD_ID), 0.5)
  }

  function ExampleTables(): Tables {
    Tables(map["m" := ChangedFile("m", "modified", 1, 0, "")], map["id" := ExampleMetric()], map[],
           map[COMPLEXITY_CARD_ID := ExampleCard()])
  }

  lemma ExampleTablesAre()
    ensures TablesOf(ExampleInputs()) == ExampleTables()
  {
  }

  /** The guard does not fire on the finding as the model wrote it. */
  lemma ExampleIsNotForbidden()
    ensures !Forbidden(ASCII, ExampleCard(), ExampleFinding())
  {
    var f := ExampleFinding();
    var shown := Each((item: (string, Value)) => item.1.Shown(), f.evidence);
    assert shown == ["id"];
    var parts := [f.message, f.suggestion] + shown;
    assert parts == ["가", "나", "id"];
    assert parts[1..] == ["나", "id"] && parts[1..][1..] == ["id"];
    assert Join(" ", parts[1..]) == "나" + " " + "id";
    assert Join(" ", parts) == "가" + " " + ("나" + " " + "id");
    var text := ClaimText(ASCII, f);
    assert |text| == 6;
    assert forall i :: 0 <= i < |text| ==> text[i] != 'r';
    FirstCharMissing(text, "radon");
  }

  /** The model's finding passes, with the measured evidence. */
  lemma ExampleIsKept() returns (g: Finding)
    ensures Check(ASCII, ExampleTables(), ExampleFinding(), multiset{}).kept == Some(g)
    ensures g.evidence == Update(ExampleFinding().evidence, Measured(ExampleMetric()))
    ensures g.cardId == Some(COMPLEXITY_CARD_ID)
    ensures SupportingMetric(ExampleTables(), ExampleFinding()) == Some(ExampleMetric())
  {
    KoreanTexts();
    ExampleIsNotForbidden();
    var f := ExampleFinding();
    assert Lookup(f.evidence, METRIC_ID) == Some(Str("id"));
    assert |COMPLEXITY_CARD_ID| > 0;
    var verdict := CheckGrounds(ASCII, ExampleTables(), f, multiset{});
    g := verdict.kept.value;
  }

  /** A lone accepted finding whose guard fires is dropped by the second run. */
  lemma LostAlone(inputs: Inputs, f: Finding, g: Finding)
    requires Accepted(ASCII, inputs, [f]) == [g] && GuardFires(ASCII, TablesOf(inputs), g)
    ensures Accepted(ASCII, inputs, [g]) == []
  {
    AsciiLaws();
    AcceptedAreShowable(ASCII, inputs, [f]);
    LossyRecheck(ASCII, inputs, [g]);
  }

  lemma RadonIsPlain()
    ensures PlainWord("radon")
  {
  }

  lemma GuardOfCard(tables: Tables, g: Finding, id: string)
    requires id != [] && id in tables.cards && g.cardId == Some(id)
    requires Forbidden(ASCII, tables.cards[id], g)
    ensures GuardFires(ASCII, tables, g)
  {
  }

  lemma ExampleTablesAreGood()
    ensures GoodTables(ExampleTables())
    ensures COMPLEXITY_CARD_ID in ExampleTables().cards
    ensures ExampleTables().cards[COMPLEXITY_CARD_ID] == ExampleCard()
  {
  }

  lemma ExampleTrips(g: Finding)
    requires g.evidence == Update(ExampleFinding().evidence, Measured(ExampleMetric()))
    requires g.cardId == Some(COMPLEXITY_CARD_ID)
    requires SupportingMetric(ExampleTables(), ExampleFinding()) == Some(ExampleMetric())
    ensures GuardFires(ASCII, ExampleTables(), g)
  {
    RadonIsPlain();
    ExampleTablesAreGood();
    ForbiddenToolTrips(ExampleTables(), ExampleFinding(), g, ExampleMetric(), ExampleCard());
    GuardOfCard(ExampleTables(), g, COMPLEXITY_CARD_ID);
  }

  /** Validation is not always a fixpoint: this accepted finding is dropped when validated again. */
  lemma FixpointCanFail()
    ensures var accepted := Accepted(ASCII, ExampleInputs(), [ExampleFinding()]);
            |accepted| == 1 && Accepted(ASCII, ExampleInputs(), accepted) == []
  {
    var g := ExampleIsKept();
    ExampleTablesAre();
    ExampleTrips(g);
    Alone(ASCII, ExampleInputs(), ExampleFinding(), g);
    LostAlone(ExampleInputs(), ExampleFinding(), g);
  }

  // ---------------------------------------------------------------- a marker that stripping brings together

  const REGRESSION_CARD_ID := "test-distinguishes-regression"

  const SPLIT_MARKER := "외부 api"

  /** The markers of that card as they are shipped. */
  const REGRESSION_MARKERS: seq<string> := [
    "기존 구현에서 실패", "변경 전에는 실패", "올바른 구현에서 통과", SPLIT_MARKER, "실제 api", "네트워크",
    "network", "flaky", "mock", "fake", "가짜 클라이언트"]

  function RegressionCard(): KnowledgeCard {
    KnowledgeCard(REGRESSION_CARD_ID, "change-correctness", MEDIUM, REGRESSION_MARKERS, 0)
  }

  function RegressionInputs(): Inputs {
    Inputs([ChangedFile("m", "modified", 1, 0, "")], [], [], [RegressionCard()], DEEP_QUALITY_REVIEW)
  }

  /** A message with a blank at its end, and a suggestion that goes on with the marker. */
  function BlankFinding(): Finding {
    Finding(HIGH, "c", "m", None, None, "외부 ", "api나", [], None, Some(REGRESSION_CARD_ID), 0.5)
  }

  function RegressionTables(): Tables {
    Tables(map["m" := ChangedFile("m", "modified", 1, 0, "")], map[], map[],
           map[REGRESSION_CARD_ID := RegressionCard()])
  }

  lemma RegressionTablesAre()
    ensures TablesOf(RegressionInputs()) == RegressionTables()
  {
  }

  lemma TwoTexts(f: Finding)
    requires f.evidence == []
    ensures ClaimText(ASCII, f) == AsciiLower(f.message + " " + f.suggestion)
  {
    var parts := [f.message, f.suggestion] + Each((item: (string, Value)) => item.1.Shown(), f.evidence);
    assert parts == [f.message, f.suggestion] && parts[1..] == [f.suggestion];
    assert Join(" ", parts[1..]) == f.suggestion;
  }

  lemma BlankTexts()
    ensures AsciiStrip("외부 ") == "외부" && AsciiStrip("api나") == "api나"
    ensures HasSyllable("외부 ") && HasSyllable("api나")
  {
    assert "외부 "[..2] == "외부";
    assert IsSyllable("외부 "[0]) && IsSyllable("api나"[3]);
  }

  const TWO_BLANKS := "외부  api나"

  /** With two blanks between its parts the marker is not found. */
  lemma SplitMarkerIsMissing()
    ensures !Contains(TWO_BLANKS, SPLIT_MARKER)
  {
    assert forall i :: 0 <= i <= |TWO_BLANKS| && OccursAt(TWO_BLANKS, SPLIT_MARKER, i) ==>
        TWO_BLANKS[i..i + 6][0] == '외' && TWO_BLANKS[i..i + 6][3] == 'a';
  }

  lemma OtherMarkersAreMissing(i: nat)
    requires i < |REGRESSION_MARKERS| && i != 3
    ensures !Contains(TWO_BLANKS, REGRESSION_MARKERS[i])
  {
    FirstCharMissing(TWO_BLANKS, REGRESSION_MARKERS[i]);
  }

  lemma BlankIsNotForbidden()
    ensures !Forbidden(ASCII, RegressionCard(), BlankFinding())
  {
    TwoTexts(BlankFinding());
    assert ClaimText(ASCII, BlankFinding()) == TWO_BLANKS;
    SplitMarkerIsMissing();
    forall i | 0 <= i < |REGRESSION_MARKERS| && i != 3
      ensures !Contains(TWO_BLANKS, REGRESSION_MARKERS[i])
    {
      OtherMarkersAreMissing(i);
    }
  }

  /** With one it is. */
  lemma MarkerIsFound(text: string)
    requires text == SPLIT_MARKER + "나"
    ensures exists i :: 0 <= i < |RegressionCard().forbiddenClaimMarkers|
                        && Contains(text, RegressionCard().forbiddenClaimMarkers[i])
  {
    assert OccursAt(text, SPLIT_MARKER, 0);
    assert RegressionCard().forbiddenClaimMarkers[3] == SPLIT_MARKER;
  }

  lemma StrippedClaim(g: Finding)
    requires g.evidence == [] && g.message == "외부" && g.suggestion == "api나"
    ensures ClaimText(ASCII, g) == SPLIT_MARKER + "나"
  {
    TwoTexts(g);
    assert "외부" + " " + "api나" == SPLIT_MARKER + "나";
  }

  lemma BlankTrips()
    ensures TripsLater(ASCII, RegressionTables(), BlankFinding())
  {
    BlankTexts();
    var g := Rewritten(ASCII, RegressionTables(), BlankFinding());
    StrippedClaim(g);
    MarkerIsFound(ClaimText(ASCII, g));
    GuardOfCard(RegressionTables(), g, REGRESSION_CARD_ID);
  }

  lemma BlankIsKept() returns (g: Finding)
    ensures Check(ASCII, RegressionTables(), BlankFinding(), multiset{}).kept == Some(g)
  {
    BlankTexts();
    BlankIsNotForbidden();
    assert |REGRESSION_CARD_ID| > 0;
    g := CheckGrounds(ASCII, RegressionTables(), BlankFinding(), multiset{}).kept.value;
  }

  /** Stripping alone ends the fixpoint too: with a card and a marker that are shipped, and without
      measured evidence, this accepted finding is dropped when validated again. */
  lemma StrippingCanFail()
    ensures var accepted := Accepted(ASCII, RegressionInputs(), [BlankFinding()]);
            |accepted| == 1 && Accepted(ASCII, RegressionInputs(), accepted) == []
  {
    var g := BlankIsKept();
    RegressionTablesAre();
    BlankTrips();
    GuardIsForetold(ASCII, RegressionTables(), BlankFinding(), g);
    Alone(ASCII, RegressionInputs(), BlankFinding(), g);
    LostAlone(RegressionInputs(), BlankFinding(), g);
  }
}
