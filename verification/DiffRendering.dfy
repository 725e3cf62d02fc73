/** Rendering an edit script as a unified diff, and reading its hunk headers back. */
module DiffRendering {
  import opened Text
  import opened DiffReaders

  // ---------------------------------------------------------------- edit scripts and rendering

  datatype Edit = Keep(text: string) | Add(text: string) | Delete(text: string) | NoNewline

  /** Unchanged lines that the patch leaves out, then one hunk, with the optional text that
      follows its header. */
  datatype Segment = Segment(gap: seq<string>, edits: seq<Edit>, heading: string)

  function NewTexts(edits: seq<Edit>): seq<string> {
    if edits == [] then []
    else (if edits[0].Keep? || edits[0].Add? then [edits[0].text] else []) + NewTexts(edits[1..])
  }

  function OldTexts(edits: seq<Edit>): seq<string> {
    if edits == [] then []
    else (if edits[0].Keep? || edits[0].Delete? then [edits[0].text] else []) + OldTexts(edits[1..])
  }

  /** The new file: every gap, what every hunk leaves, and the lines after the last hunk. */
  function NewFile(script: seq<Segment>, tail: seq<string>): seq<string> {
    if script == [] then tail
    else script[0].gap + NewTexts(script[0].edits) + NewFile(script[1..], tail)
  }

  function RenderEdit(e: Edit): string {
    match e
    case Keep(text) => " " + text
    case Add(text) => "+" + text
    case Delete(text) => "-" + text
    case NoNewline => NO_NEWLINE + AT_END_OF_FILE
  }

  function RangeStart(before: nat, count: nat): nat {
    if count == 0 then before else before + 1
  }

  /** A range and what follows it: a range of one line is its number; another is the first number,
      or the line before when it is empty, and a count. */
  function RenderRange(sign: char, before: nat, count: nat, rest: string): string {
    var start := Decimal(RangeStart(before, count));
    [sign] + if count == 1 then start + rest else start + ("," + (Decimal(count) + rest))
  }

  function RenderHeader(oldBefore: nat, oldCount: nat, newBefore: nat, newCount: nat, heading: string)
    : string
  {
    HUNK_OPEN + RenderRange('-', oldBefore, oldCount, " " + RenderRange('+', newBefore, newCount, HUNK_CLOSE + heading))
  }

  type HeaderRenderer = (nat, nat, nat, nat, string) -> string

  /** One hunk after the given numbers of old and new lines, and what follows it. */
  function RenderHunk(header: HeaderRenderer, segment: Segment, oldBefore: nat, newBefore: nat, rest: seq<string>)
    : seq<string>
  {
    [header(oldBefore + |segment.gap|, |OldTexts(segment.edits)|,
            newBefore + |segment.gap|, |NewTexts(segment.edits)|, segment.heading)]
    + (Each(RenderEdit, segment.edits) + rest)
  }

  function RenderHunks(header: HeaderRenderer, script: seq<Segment>, oldBefore: nat, newBefore: nat): seq<string> {
    if script == [] then []
    else
      RenderHunk(header, script[0], oldBefore, newBefore,
                 RenderHunks(header, script[1..],
                             oldBefore + |script[0].gap| + |OldTexts(script[0].edits)|,
                             newBefore + |script[0].gap| + |NewTexts(script[0].edits)|))
  }

  /** The patch of a script, with or without the two file header lines. */
  function Render(fileHeader: Option<(string, string)>, script: seq<Segment>): string {
    Join("\n", RenderLines(fileHeader, script))
  }

  function RenderLines(fileHeader: Option<(string, string)>, script: seq<Segment>): seq<string> {
    (match fileHeader
     case None => []
     case Some((oldName, newName)) => [OLD_FILE_OPEN + oldName, NEW_FILE_OPEN + newName])
    + RenderHunks(RenderHeader, script, 0, 0)
  }

  /** No text of the patch holds a line separator. */
  predicate OneLineTexts(fileHeader: Option<(string, string)>, script: seq<Segment>) {
    && (fileHeader.Some? ==> '\n' !in fileHeader.value.0 && '\n' !in fileHeader.value.1)
    && forall i :: 0 <= i < |script| ==> OneLineSegment(script[i])
  }

  predicate OneLineSegment(segment: Segment) {
    && '\n' !in segment.heading
    && forall i :: 0 <= i < |segment.edits| ==> OneLineEdit(segment.edits[i])
  }

  predicate OneLineEdit(e: Edit) {
    e.NoNewline? || '\n' !in e.text
  }

  /** Hunks are apart: between two of them at least one line is left out. */
  predicate Apart(script: seq<Segment>) {
    forall i :: 0 < i < |script| ==> script[i].gap != []
  }

  lemma HeaderIsLine(oldBefore: nat, oldCount: nat, newBefore: nat, newCount: nat, heading: string)
    requires '\n' !in heading
    ensures IsLine(RenderHeader(oldBefore, oldCount, newBefore, newCount, heading))
  {
    var newPart := RenderRange('+', newBefore, newCount, HUNK_CLOSE + heading);
    RangeIsLine('+', newBefore, newCount, HUNK_CLOSE + heading);
    RangeIsLine('-', oldBefore, oldCount, " " + newPart);
  }

  lemma RangeIsLine(sign: char, before: nat, count: nat, rest: string)
    requires sign != '\n' && '\n' !in rest
    ensures '\n' !in RenderRange(sign, before, count, rest)
  {
    var start, length := Decimal(RangeStart(before, count)), Decimal(count);
    assert '\n' !in start && '\n' !in length by {
      DecimalDigits(RangeStart(before, count));
      DecimalDigits(count);
      assert !IsDigit('\n');
    }
    assert '\n' !in "," + (length + rest);
  }

  lemma EditIsLine(e: Edit)
    requires OneLineEdit(e)
    ensures IsLine(RenderEdit(e))
  {
  }

  lemma EditsAreLines(edits: seq<Edit>)
    requires forall i :: 0 <= i < |edits| ==> OneLineEdit(edits[i])
    ensures forall l :: l in Each(RenderEdit, edits) ==> IsLine(l)
  {
    forall l | l in Each(RenderEdit, edits)
      ensures IsLine(l)
    {
      var i :| 0 <= i < |edits| && l == Each(RenderEdit, edits)[i];
      assert OneLineEdit(edits[i]);
      EditIsLine(edits[i]);
    }
  }

  lemma {:induction false} HunksAreLines(header: HeaderRenderer, script: seq<Segment>, oldBefore: nat, newBefore: nat)
    requires forall i :: 0 <= i < |script| ==> OneLineSegment(script[i])
    requires forall a, b, c, d, heading :: '\n' !in heading ==> IsLine(header(a, b, c, d, heading))
    ensures forall l :: l in RenderHunks(header, script, oldBefore, newBefore) ==> IsLine(l)
  {
    if script != [] {
      assert OneLineSegment(script[0]);
      EditsAreLines(script[0].edits);
      HunksAreLines(header, script[1..],
                    oldBefore + |script[0].gap| + |OldTexts(script[0].edits)|,
                    newBefore + |script[0].gap| + |NewTexts(script[0].edits)|);
    }
  }

  lemma RenderedAreLines(fileHeader: Option<(string, string)>, script: seq<Segment>)
    requires OneLineTexts(fileHeader, script)
    ensures forall l :: l in RenderLines(fileHeader, script) ==> IsLine(l)
  {
    forall a, b, c, d, heading | '\n' !in heading
      ensures IsLine(RenderHeader(a, b, c, d, heading))
    {
      HeaderIsLine(a, b, c, d, heading);
    }
    HunksAreLines(RenderHeader, script, 0, 0);
  }

  lemma RenderSplits(fileHeader: Option<(string, string)>, script: seq<Segment>)
    requires OneLineTexts(fileHeader, script)
    ensures SplitLines(Render(fileHeader, script)) == RenderLines(fileHeader, script)
  {
    RenderedAreLines(fileHeader, script);
    SplitJoin(RenderLines(fileHeader, script));
  }

  // ---------------------------------------------------------------- headers are read back

  lemma {:induction false} LeadingDigitsOf(digits: string, rest: string)
    requires AllDigits(digits) && (rest == "" || !IsDigit(rest[0]))
    ensures LeadingDigits(digits + rest) == digits
  {
    if digits == "" {
      assert digits + rest == rest;
    } else {
      LeadingDigitsOf(digits[1..], rest);
      assert (digits + rest)[1..] == digits[1..] + rest;
    }
  }

  lemma RangeReadBack(sign: char, before: nat, count: nat, rest: string)
    requires rest != "" && rest[0] == ' '
    ensures MatchRange(sign, RenderRange(sign, before, count, rest))
         == Some((Decimal(RangeStart(before, count)), rest))
  {
    var start := Decimal(RangeStart(before, count));
    DecimalDigits(RangeStart(before, count));
    DecimalDigits(count);
    if count == 1 {
      MatchesBare(sign, start, rest);
    } else {
      MatchesCounted(sign, start, Decimal(count), rest);
    }
  }

  lemma MatchesBare(sign: char, start: string, rest: string)
    requires start != "" && AllDigits(start) && rest != "" && rest[0] == ' '
    ensures MatchRange(sign, [sign] + (start + rest)) == Some((start, rest))
  {
    var s := [sign] + (start + rest);
    LeadingDigitsOf(start, rest);
    assert s[1..] == start + rest;
    assert s[1 + |start|..] == rest;
  }

  lemma MatchesCounted(sign: char, start: string, count: string, rest: string)
    requires start != "" && AllDigits(start) && count != "" && AllDigits(count)
    requires rest != "" && rest[0] == ' '
    ensures MatchRange(sign, [sign] + (start + ("," + (count + rest)))) == Some((start, rest))
  {
    var after := "," + (count + rest);
    var s := [sign] + (start + after);
    LeadingDigitsOf(start, after);
    LeadingDigitsOf(count, rest);
    assert s[1..] == start + after;
    assert s[1 + |start|..] == after;
    assert after[1..] == count + rest;
    assert after[1 + |count|..] == rest;
  }

  lemma OneSpace(rest: string)
    requires rest != "" && !IsSpace(rest[0])
    ensures SkipSpaces(" " + rest) == Some(rest)
  {
  }

  lemma OldRangeSkipped(before: nat, count: nat, rest: string)
    requires rest != "" && !IsSpace(rest[0])
    ensures SkipOldRange(HUNK_OPEN + RenderRange('-', before, count, " " + rest)) == Some(rest)
  {
    var range := RenderRange('-', before, count, " " + rest);
    assert (HUNK_OPEN + range)[..2] == HUNK;
    assert (HUNK_OPEN + range)[2..] == " " + range;
    OneSpace(range);
    RangeReadBack('-', before, count, " " + rest);
    OneSpace(rest);
  }

  lemma NewRangeRead(before: nat, count: nat, heading: string)
    ensures NewRangeStart(RenderRange('+', before, count, HUNK_CLOSE + heading))
         == Some(Decimal(RangeStart(before, count)))
  {
    RangeReadBack('+', before, count, HUNK_CLOSE + heading);
    OneSpace(HUNK + heading);
  }

  lemma HeaderReadBack(oldBefore: nat, oldCount: nat, newBefore: nat, newCount: nat, heading: string)
    ensures HeaderStart(RenderHeader(oldBefore, oldCount, newBefore, newCount, heading))
         == Some(Decimal(RangeStart(newBefore, newCount)))
  {
    var newPart := RenderRange('+', newBefore, newCount, HUNK_CLOSE + heading);
    OldRangeSkipped(oldBefore, oldCount, newPart);
    NewRangeRead(newBefore, newCount, heading);
  }
}
