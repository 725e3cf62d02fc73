/** A review in which validation asks for a card that no prompt has listed: what the card is chosen by lies
    in the whole patch, behind the part of it that the batch holds. */
module CitationLimits {
  import opened AsciiText
  import opened Citations
  import opened CommentLines
  import opened DiffPrefixes
  import opened DiffReaders
  import opened DiffRendering
  import opened DiffRoundTrips
  import opened Lists
  import opened PolicyHarness
  import opened Schemas
  import opened Sorting
  import opened Text
  import PromptBuilder
  import Rag

  const PATCH_LIMIT: nat := PromptBuilder.PATCH_LIMIT

  /** A card that is for patches with the word "y". */
  function LateCard(): CardItem {
    CardItem("c", "s", {}, {}, false, [], ["y"], true, false, "high", [])
  }

  function OneCardManifest(): Manifest {
    Manifest((files: seq<ChangedFile>) => {},
             [SkillItem("s", {POLICY_CONTEXT_REVIEW}, {}, {}, true, 0, [])], [LateCard()], 1, 1)
  }

  function OneCardGuidance(): PromptBuilder.Guidance {
    PromptBuilder.Guidance(
      OneCardManifest(), Rag.Scoring((s: string) => {}, (n: nat, m: nat) => 0.0, (x: real) => x),
      (files: seq<ChangedFile>) => {}, 2)
  }

  function LongRequest(): PromptBuilder.PromptInput {
    PromptBuilder.PromptInput([LongFile()], [], [], POLICY_CONTEXT_REVIEW, false)
  }

  // ---------------------------------------------------------------- what is found

  /** The whole patch has "y" as its last line. */
  lemma WholePatchText()
    ensures ReviewablePatchText(LongFile().patch) == PromptBuilder.Repeated(PATCH_LIMIT) + "\n" + "y"
  {
    var lines := [PromptBuilder.Repeated(PATCH_LIMIT), "y"];
    LongScriptIsPlain();
    LongEdits(LongScript()[0].edits);
    ReviewableRoundTrip(None, LongScript());
    assert LongScript()[1..] == [] && RightTexts([]) == [];
    assert RightTexts(LongScript()) == lines + [] == lines;
    assert lines[1..] == ["y"];
  }

  lemma PieceOfLong(header: string, lines: seq<string>)
    requires 0 < |header| < 100 && lines == [header, "+" + PromptBuilder.Repeated(PATCH_LIMIT), "+y"]
    ensures CutLine(lines, PATCH_LIMIT) == [lines[1][..PATCH_LIMIT - |header| - 1]]
  {
    assert lines[1..][0] == lines[1];
  }

  lemma PieceReads(piece: string)
    requires |piece| > 1 && piece <= "+" + PromptBuilder.Repeated(PATCH_LIMIT)
    ensures Reviewed(piece) == Some(piece[1..]) && forall c :: c in piece[1..] ==> c == 'x'
  {
    assert piece[0] == '+' && piece[1] == 'x' && piece[..1] == "+";
    assert forall i :: 0 < i < |piece| ==> piece[i] == ("+" + PromptBuilder.Repeated(PATCH_LIMIT))[i] == 'x';
    assert NEW_FILE[1] == '+' && HUNK[0] == '@' && OLD_FILE[0] == '-' && NO_NEWLINE[0] == '\\';
  }

  lemma CutTextOfLong() returns (text: string)
    ensures CutTexts(RenderLines(None, LongScript()), PATCH_LIMIT) == [text]
    ensures forall c :: c in text ==> c == 'x'
  {
    var header := LongLines();
    var lines := RenderLines(None, LongScript());
    PieceOfLong(header, lines);
    var piece := lines[1][..PATCH_LIMIT - |header| - 1];
    PieceReads(piece);
    OneText(Each(Reviewed, [piece]));
    text := piece[1..];
  }

  /** What is left of the patch has nothing but x. */
  lemma ShownPatchText()
    ensures forall c :: c in ReviewablePatchText(ShownOfLong().patch) ==> c == 'x'
  {
    var text := CutTextOfLong();
    LongScriptIsPlain();
    LongCut();
    CutIsRead(None, LongScript(), PATCH_LIMIT);
    assert ReviewableLines(ShownOfLong().patch) == [text];
  }

  lemma YIsFound()
    ensures ContainsMarker(AsciiLower(PromptBuilder.Repeated(PATCH_LIMIT) + "\n" + "y"), "y")
  {
    var text := AsciiLower(PromptBuilder.Repeated(PATCH_LIMIT) + "\n" + "y");
    assert text[PATCH_LIMIT] == '\n' && text[PATCH_LIMIT + 1] == 'y';
    assert text[PATCH_LIMIT + 1..PATCH_LIMIT + 2] == "y";
    assert WordAt(text, "y", PATCH_LIMIT + 1);
  }

  lemma YIsMissing(text: string)
    requires forall c :: c in text ==> c == 'x'
    ensures !ContainsMarker(AsciiLower(text), "y")
  {
    var lower := AsciiLower(text);
    assert forall i :: 0 <= i < |lower| ==> text[i] in text && lower[i] == 'x';
    FirstCharMissing(lower, "y");
    assert "y"[0] == 'y';
  }

  // ---------------------------------------------------------------- what is selected

  lemma OneSkill()
    ensures SelectedSkills(POLICY_CONTEXT_REVIEW, {}, OneCardManifest().skillItems, 1) == [Skill("s", 100, [])]
  {
    var items := OneCardManifest().skillItems;
    var check := (item: SkillItem) => SkillFor(POLICY_CONTEXT_REVIEW, {}, item);
    assert items[..0] == [];
    assert items[0].signals * {} == {};
    assert Passing(check, items) == [] + [Skill("s", 100, [])];
  }

  /** The card is selected for one file if and only if the reviewable text of its patch has the word. */
  lemma SelectedIfFound(file: ChangedFile)
    ensures Selection(ASCII, OneCardManifest(), POLICY_CONTEXT_REVIEW, [file], []).cards != []
       <==> ContainsMarker(AsciiLower(ReviewablePatchText(file.patch)), "y")
  {
    var m, text := OneCardManifest(), AsciiLower(ReviewablePatchText(file.patch));
    var skills := [Skill("s", 100, [])];
    assert AllSignals(m.diffSignals([file]), []) == {};
    OneSkill();
    var s := SituationFor(ASCII, POLICY_CONTEXT_REVIEW, {}, [file], skills);
    assert s.patches == [text] && Join("\n", [text]) == text;
    EligibleIfFound(s, text);
    var eligible := EligibleCards(s, m.cardItems);
    OneEligible(s, eligible);
    AllocationFillsPlaces(skills, eligible, 1);
  }

  lemma EligibleIfFound(s: Situation, text: string)
    requires |s.paths| == |s.patches| && s.skillIds == {"s"} && Join("\n", s.patches) == text
    ensures Eligible(s, LateCard()).Some? <==> ContainsMarker(text, "y")
    ensures Eligible(s, LateCard()).Some? ==> Eligible(s, LateCard()).value.skillId == "s"
  {
    assert FirstFound(text, ["y"]) == if ContainsMarker(text, "y") then Some("y") else None;
  }

  lemma OneEligible(s: Situation, eligible: seq<KnowledgeCard>)
    requires |s.paths| == |s.patches| && eligible == EligibleCards(s, [LateCard()])
    requires Eligible(s, LateCard()).Some? ==> Eligible(s, LateCard()).value.skillId == "s"
    ensures eligible == [] <==> Eligible(s, LateCard()).None?
    ensures Allocatable([Skill("s", 100, [])], eligible)
  {
    assert [LateCard()][..0] == [];
    var skills := [Skill("s", 100, [])];
    assert skills[0].skillId == "s";
  }

  // ---------------------------------------------------------------- the review

  function LongBatches(): seq<PromptBuilder.PromptBatch> {
    var input := LongRequest();
    var groups := PromptBuilder.Batches(ASCII, input.files, input.route);
    PromptBuilder.BuiltFrom(ASCII, Some(OneCardGuidance()), input, groups)
  }

  function LongHarness(): Harness {
    Selection(ASCII, OneCardManifest(), LongRequest().route, LongRequest().files, LongRequest().metrics)
  }

  lemma BuiltOne(guidance: PromptBuilder.Guidance, input: PromptBuilder.PromptInput, group: seq<ChangedFile>)
    requires input.metrics == []
    ensures var batches := PromptBuilder.BuiltFrom(ASCII, Some(guidance), input, [group]);
            |batches| == 1 && CardsOf(batches[0]) == Selection(ASCII, guidance.manifest, input.route, group, []).cards
  {
  }

  lemma NoCards(batches: seq<PromptBuilder.PromptBatch>)
    requires |batches| == 1 && CardsOf(batches[0]) == []
    ensures !AnyCardOffered(batches)
  {
  }

  /** No prompt lists a card, but one is selected for the whole request: validation drops every finding that
      does not cite it. */
  lemma UnlistedCardIsAsked()
    ensures !AnyCardOffered(LongBatches()) && LongHarness().cards != []
  {
    WholePatchText();
    YIsFound();
    SelectedIfFound(LongFile());
    NothingListed();
  }

  lemma NothingListed()
    ensures !AnyCardOffered(LongBatches())
  {
    OneGroup();
    BuiltOne(OneCardGuidance(), LongRequest(), [ShownOfLong()]);
    ShownPatchText();
    YIsMissing(ReviewablePatchText(ShownOfLong().patch));
    SelectedIfFound(ShownOfLong());
    NoCards(LongBatches());
  }

  lemma OneGroup()
    ensures PromptBuilder.Batches(ASCII, [LongFile()], POLICY_CONTEXT_REVIEW) == [[ShownOfLong()]]
  {
    LongSelection();
    var files := [ShownOfLong()];
    assert files[1..] == [] && [] + [files[0]] == files;
    assert PromptBuilder.GroupFrom([], files, PromptBuilder.BatchBudget(POLICY_CONTEXT_REVIEW)) == [files];
  }
}
