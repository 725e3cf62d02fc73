/** The two readers of unified diffs: the right-side line numbers a finding may point at
    (review_quality.py) and the reviewable text signals are searched in (diff_signals.py),
    with the format both read: "Diff -u or -U Output Format" of the diff utility in
    IEEE Std 1003.1-2017. */
module DiffReaders {
  import opened Text

  const HUNK: string := "@@"
  const HUNK_OPEN: string := "@@ "
  const HUNK_CLOSE: string := " @@"
  const OLD_FILE: string := "---"
  const OLD_FILE_OPEN: string := "--- "
  const NEW_FILE: string := "+++"
  const NEW_FILE_OPEN: string := "+++ "
  const NO_NEWLINE: string := "\\ No newline"
  const AT_END_OF_FILE: string := " at end of file"

  // ---------------------------------------------------------------- hunk headers

  /** One or more white space characters, all of them consumed. */
  function SkipSpaces(s: string): Option<string> {
    if s == "" || !IsSpace(s[0]) then None
    else if |s| > 1 && IsSpace(s[1]) then SkipSpaces(s[1..])
    else Some(s[1..])
  }

  function LeadingDigits(s: string): (digits: string)
    ensures |digits| <= |s|
  {
    if s == "" || !IsDigit(s[0]) then "" else [s[0]] + LeadingDigits(s[1..])
  }

  /** `sign`, digits, and a count that is skipped when present: the digits and what follows. */
  function MatchRange(sign: char, s: string): Option<(string, string)> {
    if s == "" || s[0] != sign then None
    else
      var digits := LeadingDigits(s[1..]);
      if digits == "" then None
      else
        var rest := s[1 + |digits|..];
        if rest != "" && rest[0] == ',' && LeadingDigits(rest[1..]) != ""
        then Some((digits, rest[1 + |LeadingDigits(rest[1..])|..]))
        else Some((digits, rest))
  }

  /** The part of a hunk header from the right-side range on. */
  function SkipOldRange(line: string): Option<string> {
    if !StartsWith(line, HUNK) then None
    else match SkipSpaces(line[2..])
      case None => None
      case Some(s) => match MatchRange('-', s)
        case None => None
        case Some((_, after)) => SkipSpaces(after)
  }

  /** The start of the right-side range, when the closing marker follows. */
  function NewRangeStart(s: string): Option<string> {
    match MatchRange('+', s)
    case None => None
    case Some((start, after)) => match SkipSpaces(after)
      case None => None
      case Some(end) => if StartsWith(end, HUNK) then Some(start) else None
  }

  /** HUNK_HEADER_PATTERN: the right-side start of a hunk header, if the line is one. */
  function HeaderStart(line: string): Option<string> {
    match SkipOldRange(line)
    case None => None
    case Some(s) => NewRangeStart(s)
  }

  // ---------------------------------------------------------------- the readers

  /** What a raw line means to the right-side reader. */
  datatype LineKind = Header(start: nat) | Skipped | Counted

  function KindOf(line: string): LineKind {
    var header := HeaderStart(line);
    if header.Some? then Header(ParseDecimal(header.value))
    else if StartsWith(line, NO_NEWLINE) then Skipped
    else if StartsWith(line, "-") && !StartsWith(line, OLD_FILE) then Skipped
    else Counted
  }

  /** The numbers recorded when reading starts with the counter at `current`. */
  function CountedNumbers(kinds: seq<LineKind>, current: Option<nat>): set<nat> {
    if kinds == [] then {}
    else if kinds[0].Header? then CountedNumbers(kinds[1..], Some(kinds[0].start))
    else if current.None? || kinds[0].Skipped? then CountedNumbers(kinds[1..], current)
    else {current.value} + CountedNumbers(kinds[1..], Some(current.value + 1))
  }

  function RightSideDiffLines(patch: string): set<nat> {
    CountedNumbers(Each(KindOf, SplitLines(patch)), None)
  }

  method ReadRightSideDiffLines(patch: string) returns (lines: set<nat>)
    ensures lines == RightSideDiffLines(patch)
  {
    lines := {};
    var current: Option<nat> := None;
    var rawLines := SplitLines(patch);
    for i := 0 to |rawLines|
      invariant lines + CountedNumbers(Each(KindOf, rawLines)[i..], current) == RightSideDiffLines(patch)
    {
      var rawLine := rawLines[i];
      assert Each(KindOf, rawLines)[i..][0] == KindOf(rawLine)
             && Each(KindOf, rawLines)[i..][1..] == Each(KindOf, rawLines)[i + 1..];
      var header := HeaderStart(rawLine);
      if header.Some? {
        current := Some(ParseDecimal(header.value));
        continue;
      }
      if current.None? || StartsWith(rawLine, NO_NEWLINE) {
        continue;
      }
      if StartsWith(rawLine, "-") && !StartsWith(rawLine, OLD_FILE) {
        continue;
      }
      lines := lines + {current.value};
      current := Some(current.value + 1);
    }
  }

  /** What reviewable_patch_text keeps of a raw line. */
  function Reviewed(line: string): Option<string> {
    if StartsWith(line, HUNK) || StartsWith(line, NEW_FILE) || StartsWith(line, OLD_FILE)
       || StartsWith(line, NO_NEWLINE) then None
    else if StartsWith(line, "-") then None
    else if StartsWith(line, "+") || StartsWith(line, " ") then Some(line[1..])
    else Some(line)
  }

  function Present(options: seq<Option<string>>): seq<string> {
    if options == [] then []
    else (if options[0].Some? then [options[0].value] else []) + Present(options[1..])
  }

  function ReviewableLines(patch: string): seq<string> {
    Present(Each(Reviewed, SplitLines(patch)))
  }

  function ReviewablePatchText(patch: string): string {
    Join("\n", ReviewableLines(patch))
  }

  lemma {:induction false} PresentConcat(first: seq<Option<string>>, rest: seq<Option<string>>)
    ensures Present(first + rest) == Present(first) + Present(rest)
  {
    if first == [] {
      assert first + rest == rest;
    } else {
      assert (first + rest)[1..] == first[1..] + rest;
      PresentConcat(first[1..], rest);
    }
  }

  lemma PresentNext(options: seq<Option<string>>, i: nat)
    requires i < |options|
    ensures Present(options[..i + 1])
         == Present(options[..i]) + (if options[i].Some? then [options[i].value] else [])
  {
    PresentConcat(options[..i], [options[i]]);
    assert options[..i + 1] == options[..i] + [options[i]];
  }

  method ReadReviewablePatchText(patch: string) returns (text: string)
    ensures text == ReviewablePatchText(patch)
  {
    var lines: seq<string> := [];
    var rawLines := SplitLines(patch);
    ghost var reviewed := Each(Reviewed, rawLines);
    for i := 0 to |rawLines|
      invariant lines == Present(reviewed[..i])
    {
      var rawLine := rawLines[i];
      PresentNext(reviewed, i);
      if StartsWith(rawLine, HUNK) || StartsWith(rawLine, NEW_FILE) || StartsWith(rawLine, OLD_FILE)
         || StartsWith(rawLine, NO_NEWLINE) {
        assert reviewed[i] == None;
        continue;
      }
      if StartsWith(rawLine, "-") {
        assert reviewed[i] == None;
        continue;
      }
      if StartsWith(rawLine, "+") || StartsWith(rawLine, " ") {
        rawLine := rawLine[1..];
      }
      assert reviewed[i] == Some(rawLine);
      lines := lines + [rawLine];
    }
    assert reviewed[..|rawLines|] == reviewed;
    text := Join("\n", lines);
  }
}
