/** Where the comments of a review go: the line of a validated finding in the diff of its file, and
    in the part of that diff that the prompt showed. */
module CommentLines {
  import opened AsciiText
  import opened DiffPrefixes
  import opened DiffReaders
  import opened DiffRendering
  import opened DiffRoundTrips
  import opened FindingChecks
  import opened FindingValidation
  import opened PromptBuilder
  import opened ReviewQuality
  import opened Schemas
  import opened Sorting
  import opened Text

  // ---------------------------------------------------------------- in the diff of the file

  lemma {:induction false} FilesAreGiven(files: seq<ChangedFile>)
    ensures forall path :: path in FilesByPath(files) ==>
              FilesByPath(files)[path] in files && FilesByPath(files)[path].path == path
  {
    if files != [] {
      FilesAreGiven(files[..|files| - 1]);
    }
  }

  lemma AcceptedLine(t: TextOps, inputs: Inputs, findings: seq<Finding>, g: Finding)
    requires TextLaws(t) && g in Accepted(t, inputs, findings) && g.lineStart.Some?
    ensures g.filePath in FilesByPath(inputs.files) && g.lineStart.value >= 0
    ensures g.lineStart.value in RightSideDiffLines(FilesByPath(inputs.files)[g.filePath].patch)
  {
    AcceptedAreShowable(t, inputs, findings);
    var tables := TablesOf(inputs);
    assert Showable(t, tables, g);
    assert tables.files == FilesByPath(inputs.files);
  }

  /** Line `line` of the new file is the i-th of the new file's lines in the patch. */
  ghost predicate IsDiffLine(script: seq<Segment>, patch: string, file: seq<string>, line: int, i: nat) {
    var numbers := RightNumbers(Each(ShapeOf, script), 0);
    && i < |numbers| == |ReviewableLines(patch)| && numbers[i] == line
    && 0 < line <= |file| && ReviewableLines(patch)[i] == file[line - 1]
  }

  lemma NumberIsDiffLine(
      fileHeader: Option<(string, string)>, script: seq<Segment>, tail: seq<string>, patch: string, line: nat)
    returns (i: nat)
    requires OneLineTexts(fileHeader, script) && NoDashedDelete(script) && NoPlusedAdd(script)
    requires patch == Render(fileHeader, script) && line in RightSideDiffLines(patch)
    ensures IsDiffLine(script, patch, NewFile(script, tail), line, i)
  {
    ReadersAgree(fileHeader, script, tail);
    var numbers := RightNumbers(Each(ShapeOf, script), 0);
    i :| 0 <= i < |numbers| && numbers[i] == line;
  }

  /** All files of a path have this patch, as the files of a pull request do. */
  ghost predicate HasPatch(files: seq<ChangedFile>, path: string, patch: string) {
    forall f :: f in files && f.path == path ==> f.patch == patch
  }

  /** A validated finding with a line, in a file whose patch is the diff of two versions: its number
      is that of a line of the new version, and the text that signals are searched in has that very
      line at the same place. */
  lemma CommentsLandInDiff(
      t: TextOps, inputs: Inputs, findings: seq<Finding>, g: Finding,
      fileHeader: Option<(string, string)>, script: seq<Segment>, tail: seq<string>)
    returns (i: nat)
    requires TextLaws(t) && g in Accepted(t, inputs, findings) && g.lineStart.Some?
    requires HasPatch(inputs.files, g.filePath, Render(fileHeader, script))
    requires OneLineTexts(fileHeader, script) && NoDashedDelete(script) && NoPlusedAdd(script)
    ensures IsDiffLine(script, Render(fileHeader, script), NewFile(script, tail), g.lineStart.value, i)
  {
    AcceptedLine(t, inputs, findings, g);
    FilesAreGiven(inputs.files);
    i := NumberIsDiffLine(fileHeader, script, tail, Render(fileHeader, script), g.lineStart.value);
  }

  // ---------------------------------------------------------------- in the prompt

  lemma SelectedIsCut(t: TextOps, files: seq<ChangedFile>, route: string, shown: ChangedFile)
    returns (original: ChangedFile)
    requires shown in Selected(t, files, route)
    ensures original in files && CutOf(shown, original)
  {
    var order := StableSort(ReviewOrder(t), files);
    var candidates := Take(order, PromptBudget(route).files);
    var places := SelectionIsCut(candidates, PromptBudget(route).chars);
    var k :| 0 <= k < |Selected(t, files, route)| && Selected(t, files, route)[k] == shown;
    original := candidates[places[k]];
    SortPermutes(ReviewOrder(t), files);
    SameElements(order, files);
    assert original == order[places[k]];
  }

  /** The i-th line of the new file in the diff, when the prompt shows a beginning of the patch: its
      number is read from that beginning if and only if the line is before the cut, or the cut goes
      through the next line and what is left of it counts as this one; its text is read at its place
      if and only if the line is before the cut, or what is left gives exactly that text. */
  ghost predicate ShownUpTo(lines: seq<string>, shown: string, file: seq<string>, line: int, i: nat)
    requires 0 < line <= |file|
  {
    var whole := WholeRights(lines, |shown|);
    && (line in RightSideDiffLines(shown) <==> i < whole || (i == whole && CutCounts(lines, |shown|, line)))
    && (i < |ReviewableLines(shown)| && ReviewableLines(shown)[i] == file[line - 1]
        <==> i < whole || (i == whole && CutGives(lines, |shown|, file[line - 1])))
  }

  lemma CutShowsUpTo(
      fileHeader: Option<(string, string)>, script: seq<Segment>, tail: seq<string>, shown: string, line: int, i: nat)
    requires OneLineTexts(fileHeader, script) && NoDashedDelete(script) && NoPlusedAdd(script)
    requires shown <= Render(fileHeader, script) && 0 < line <= |NewFile(script, tail)|
    requires i < |RightNumbers(Each(ShapeOf, script), 0)| && RightNumbers(Each(ShapeOf, script), 0)[i] == line
    ensures ShownUpTo(RenderLines(fileHeader, script), shown, NewFile(script, tail), line, i)
  {
    assert shown == Render(fileHeader, script)[..|shown|];
    CutShows(fileHeader, script, tail, |shown|, i);
  }

  /** What the prompt shows of the line of a validated finding. The validator reads the patch of the
      request, the model only the selected beginning of it: lines behind the cut are accepted too. */
  lemma CommentsAndPrompt(
      t: TextOps, inputs: Inputs, findings: seq<Finding>, g: Finding, shown: ChangedFile,
      fileHeader: Option<(string, string)>, script: seq<Segment>, tail: seq<string>)
    returns (i: nat)
    requires TextLaws(t) && g in Accepted(t, inputs, findings) && g.lineStart.Some?
    requires HasPatch(inputs.files, g.filePath, Render(fileHeader, script))
    requires OneLineTexts(fileHeader, script) && NoDashedDelete(script) && NoPlusedAdd(script)
    requires shown in Selected(t, inputs.files, inputs.route) && shown.path == g.filePath
    ensures shown.patch <= Render(fileHeader, script)
    ensures IsDiffLine(script, Render(fileHeader, script), NewFile(script, tail), g.lineStart.value, i)
    ensures ShownUpTo(RenderLines(fileHeader, script), shown.patch, NewFile(script, tail), g.lineStart.value, i)
  {
    i := CommentsLandInDiff(t, inputs, findings, g, fileHeader, script, tail);
    var original := SelectedIsCut(t, inputs.files, inputs.route, shown);
    assert original.path == g.filePath;
    CutShowsUpTo(fileHeader, script, tail, shown.patch, g.lineStart.value, i);
  }

  /** Where the whole request fits its prompts, every validated finding with a line points at a line
      that a prompt showed. */
  lemma FittingRequestsShowAll(t: TextOps, inputs: Inputs, findings: seq<Finding>, g: Finding)
    returns (shown: ChangedFile)
    requires TextLaws(t) && g in Accepted(t, inputs, findings) && g.lineStart.Some?
    requires FitsWhole(inputs.files, inputs.route)
    ensures shown in Selected(t, inputs.files, inputs.route)
    ensures shown.path == g.filePath && shown in inputs.files
    ensures g.lineStart.value >= 0 && g.lineStart.value in RightSideDiffLines(shown.patch)
  {
    AcceptedLine(t, inputs, findings, g);
    FilesAreGiven(inputs.files);
    shown := FilesByPath(inputs.files)[g.filePath];
    NothingIsCut(t, inputs.files, inputs.route);
    SortPermutes(ReviewOrder(t), inputs.files);
    SameElements(StableSort(ReviewOrder(t), inputs.files), inputs.files);
  }

  // ---------------------------------------------------------------- whatever the model says

  /** A selected patch of the path has the line. */
  ghost predicate IsShown(t: TextOps, inputs: Inputs, path: string, line: int) {
    line >= 0 && exists f :: f in Selected(t, inputs.files, inputs.route)
                          && f.path == path && line in RightSideDiffLines(f.patch)
  }

  /** Some finding on a file passes validation: a text is Korean, and a card lets it through. */
  ghost predicate CanBeCommented(t: TextOps, inputs: Inputs, path: string) {
    exists f: Finding :: f.filePath == path && Check(t, TablesOf(inputs), f, multiset{}).kept.Some?
  }

  /** No line of the diff of a file that can be commented on is hidden from the model. */
  ghost predicate NothingHidden(t: TextOps, inputs: Inputs) {
    forall path: string, line: nat |
      && path in FilesByPath(inputs.files) && CanBeCommented(t, inputs, path)
      && line in RightSideDiffLines(FilesByPath(inputs.files)[path].patch)
      :: IsShown(t, inputs, path, line)
  }

  /** Whatever the model says, what is accepted points at lines that a prompt showed. */
  ghost predicate CommentsAreShown(t: TextOps, inputs: Inputs) {
    forall findings: seq<Finding>, g: Finding ::
      g in Accepted(t, inputs, findings) && g.lineStart.Some? ==> IsShown(t, inputs, g.filePath, g.lineStart.value)
  }

  /** A finding that passes does so on any line of the diff, and keeps that line. */
  lemma MovedPasses(t: TextOps, inputs: Inputs, f: Finding, line: nat) returns (g: Finding)
    requires Check(t, TablesOf(inputs), f, multiset{}).kept.Some?
    requires f.filePath in FilesByPath(inputs.files)
    requires line in RightSideDiffLines(FilesByPath(inputs.files)[f.filePath].patch)
    ensures Check(t, TablesOf(inputs), Moved(f, line), multiset{}).kept == Some(g)
    ensures g.filePath == f.filePath && g.lineStart == Some(line)
  {
    var tables := TablesOf(inputs);
    PassingIgnoresPlace(t, tables, f, line);
    g := Check(t, tables, Moved(f, line), multiset{}).kept.value;
    KeptIsInPlace(t, tables, Moved(f, line), g);
    assert tables.files == FilesByPath(inputs.files);
  }

  lemma AcceptedCanBe(t: TextOps, inputs: Inputs, findings: seq<Finding>, g: Finding)
    requires g in Accepted(t, inputs, findings)
    ensures CanBeCommented(t, inputs, g.filePath)
  {
    var f := AcceptedIsKept(t, inputs, findings, g);
    KeptIsInPlace(t, TablesOf(inputs), f, g);
  }

  /** Whatever the model says, no accepted comment points at a line it was not shown, if and only if no
      line of the diff of a file that can be commented on is hidden. */
  lemma CommentsShownExactly(t: TextOps, inputs: Inputs)
    requires TextLaws(t)
    ensures CommentsAreShown(t, inputs) <==> NothingHidden(t, inputs)
  {
    if CommentsAreShown(t, inputs) {
      forall path: string, line: nat |
        && path in FilesByPath(inputs.files) && CanBeCommented(t, inputs, path)
        && line in RightSideDiffLines(FilesByPath(inputs.files)[path].patch)
        ensures IsShown(t, inputs, path, line)
      {
        var f: Finding :| f.filePath == path && Check(t, TablesOf(inputs), f, multiset{}).kept.Some?;
        var g := MovedPasses(t, inputs, f, line);
        Alone(t, inputs, Moved(f, line), g);
        assert g in Accepted(t, inputs, [Moved(f, line)]);
      }
    }
    if NothingHidden(t, inputs) {
      forall findings: seq<Finding>, g: Finding | g in Accepted(t, inputs, findings) && g.lineStart.Some?
        ensures IsShown(t, inputs, g.filePath, g.lineStart.value)
      {
        AcceptedLine(t, inputs, findings, g);
        AcceptedCanBe(t, inputs, findings, g);
      }
    }
  }

  /** Where the whole request fits its prompts, nothing is hidden. */
  lemma FittingRequestsHideNothing(t: TextOps, inputs: Inputs)
    requires FitsWhole(inputs.files, inputs.route)
    ensures NothingHidden(t, inputs)
  {
    FilesAreGiven(inputs.files);
    NothingIsCut(t, inputs.files, inputs.route);
    SortPermutes(ReviewOrder(t), inputs.files);
    SameElements(StableSort(ReviewOrder(t), inputs.files), inputs.files);
    forall path: string, line: nat |
      && path in FilesByPath(inputs.files)
      && line in RightSideDiffLines(FilesByPath(inputs.files)[path].patch)
      ensures IsShown(t, inputs, path, line)
    {
      assert FilesByPath(inputs.files)[path] in Selected(t, inputs.files, inputs.route);
    }
  }

  // ---------------------------------------------------------------- an accepted line that no prompt showed

  /** A new file of two lines, the first of them as long as a patch in a prompt may be. */
  function LongScript(): seq<Segment> {
    [Segment([], [Add(Repeated(PATCH_LIMIT)), Add("y")], "")]
  }

  function LongFile(): ChangedFile {
    ChangedFile("a.py", "added", 2, 0, Render(None, LongScript()))
  }

  function SecondLine(): Finding {
    Finding(HIGH, "c", "a.py", Some(2), None, "가", "나", [], None, None, 0.5)
  }

  function LongInputs(): Inputs {
    Inputs([LongFile()], [], [], [], POLICY_CONTEXT_REVIEW)
  }

  lemma LongEdits(edits: seq<Edit>)
    requires edits == [Add(Repeated(PATCH_LIMIT)), Add("y")]
    ensures DashedDeletes(edits) == 0 && PlusedAdds(edits) == 0
    ensures NewTexts(edits) == [Repeated(PATCH_LIMIT), "y"] && OldTexts(edits) == []
    ensures OneLineSegment(Segment([], edits, ""))
  {
    assert edits[1..] == [Add("y")] && [Add("y")][1..] == [];
    assert Repeated(PATCH_LIMIT)[0] == 'x' && "y"[0] == 'y';
    assert OneLineEdit(edits[0]) && OneLineEdit(edits[1]);
  }

  lemma LongScriptIsPlain()
    ensures OneLineTexts(None, LongScript()) && NoDashedDelete(LongScript()) && NoPlusedAdd(LongScript())
    ensures RightNumbers(Each(ShapeOf, LongScript()), 0) == [1, 2]
  {
    LongEdits(LongScript()[0].edits);
    var shapes := Each(ShapeOf, LongScript());
    assert shapes[0] == ShapeOf(LongScript()[0]) == Shape(0, 2, 0) && shapes[1..] == [];
    assert RightNumbers([], 2) == [];
    assert Consecutive(1, 2) == [1, 2];
  }

  lemma LongHeader() returns (header: string)
    ensures header == RenderHeader(0, 0, 0, 2, "") && 0 < |header| < 100
    ensures Reviewed(header) == None
  {
    header := RenderHeader(0, 0, 0, 2, "");
    assert header[..2] == HUNK;
    assert |Decimal(0)| == 1 && |Decimal(1)| == 1 && |Decimal(2)| == 1;
    assert RenderRange('+', 0, 2, HUNK_CLOSE + "") == ['+'] + (Decimal(1) + ("," + (Decimal(2) + (HUNK_CLOSE + ""))));
  }

  lemma LongLines() returns (header: string)
    ensures RenderLines(None, LongScript()) == [header, "+" + Repeated(PATCH_LIMIT), "+y"]
    ensures 0 < |header| < 100 && Reviewed(header) == None
  {
    var s := LongScript()[0];
    LongEdits(s.edits);
    header := LongHeader();
    assert LongScript()[1..] == [];
    assert RenderEdit(s.edits[0]) == "+" + Repeated(PATCH_LIMIT) && RenderEdit(s.edits[1]) == "+y";
    assert Each(RenderEdit, s.edits) == ["+" + Repeated(PATCH_LIMIT), "+y"];
    assert RenderLines(None, LongScript()) == RenderHunk(RenderHeader, s, 0, 0, []);
  }

  /** The first characters of the patch hold its header and a part of the first line. */
  lemma LongCut()
    ensures |Render(None, LongScript())| > PATCH_LIMIT
    ensures WholeRights(RenderLines(None, LongScript()), PATCH_LIMIT) == 0
  {
    var header := LongLines();
    var lines := RenderLines(None, LongScript());
    assert lines[1..] == ["+" + Repeated(PATCH_LIMIT), "+y"];
    JoinedOpens(lines);
    JoinedOpens(lines[1..]);
    assert WholeLines(lines[1..], PATCH_LIMIT - |header| - 1) == 0;
    assert WholeLines(lines, PATCH_LIMIT) == 1;
    assert Each(Reviewed, lines[..1]) == [None];
    assert Present([None]) == [] by {
      var none: seq<Option<string>> := [None];
      assert none[1..] == [];
    }
  }

  function ShownOfLong(): ChangedFile {
    LongFile().(patch := Take(LongFile().patch, PATCH_LIMIT))
  }

  lemma LongSelection()
    ensures Selected(ASCII, [LongFile()], POLICY_CONTEXT_REVIEW) == [ShownOfLong()]
  {
    LongCut();
    assert [LongFile()][1..] == [];
    assert StableSort(ReviewOrder(ASCII), [LongFile()]) == [LongFile()];
  }

  lemma SecondLineIsKept() returns (g: Finding)
    ensures Check(ASCII, TablesOf(LongInputs()), SecondLine(), multiset{}).kept == Some(g)
    ensures g.lineStart == Some(2) && g.filePath == "a.py"
  {
    LongScriptIsPlain();
    ReadersAgree(None, LongScript(), []);
    assert 2 in RightSideDiffLines(LongFile().patch) by {
      assert [1, 2][1] == 2;
    }
    KoreanTexts();
    assert TablesOf(LongInputs()) == Tables(map["a.py" := LongFile()], map[], map[], map[]);
    g := CheckGrounds(ASCII, TablesOf(LongInputs()), SecondLine(), multiset{}).kept.value;
  }

  lemma SecondLineIsNotShown()
    ensures 2 !in RightSideDiffLines(ShownOfLong().patch) && |ReviewableLines(ShownOfLong().patch)| <= 1
  {
    LongScriptIsPlain();
    LongCut();
    CutShows(None, LongScript(), [], PATCH_LIMIT, 1);
    CutIsRead(None, LongScript(), PATCH_LIMIT);
    CutIsOne(RenderLines(None, LongScript()), PATCH_LIMIT);
    assert [1, 2][1] == 2;
  }

  /** The finding on line 2 is accepted, though the only prompt shows less than the first line: no
      line 2 is read from it, neither its number nor its text. */
  lemma AcceptedOutsidePrompt() returns (g: Finding, shown: ChangedFile)
    ensures Accepted(ASCII, LongInputs(), [SecondLine()]) == [g] && g.lineStart == Some(2)
    ensures Selected(ASCII, LongInputs().files, LongInputs().route) == [shown] && shown.path == g.filePath
    ensures 2 !in RightSideDiffLines(shown.patch) && |ReviewableLines(shown.patch)| <= 1
  {
    g := SecondLineIsKept();
    Alone(ASCII, LongInputs(), SecondLine(), g);
    shown := ShownOfLong();
    LongSelection();
    SecondLineIsNotShown();
  }
}
