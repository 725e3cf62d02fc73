/** The hunk header pattern of review_quality.py: exactly the lines of this form are headers, and what is
    read of them is the start of the right-side range. */
module HunkHeaders {
  import opened Text
  import opened DiffReaders

  predicate Spaces(s: string) {
    s != "" && forall i :: 0 <= i < |s| ==> IsSpace(s[i])
  }

  predicate Digits(s: string) {
    s != "" && forall i :: 0 <= i < |s| ==> '0' <= s[i] <= '9'
  }

  /** A comma and digits, or nothing. */
  predicate Count(s: string) {
    s == "" || (s[0] == ',' && Digits(s[1..]))
  }

  /** The parts of a header: white space, old range, white space, new range, white space, closing marker,
      and whatever follows. */
  datatype Parts = Parts(
    first: string, oldStart: string, oldCount: string, second: string, newStart: string, newCount: string,
    third: string, rest: string)
  {
    predicate Fit() {
      && Spaces(first) && Digits(oldStart) && Count(oldCount) && Spaces(second)
      && Digits(newStart) && Count(newCount) && Spaces(third)
    }

    function NewRange(): string {
      "+" + (newStart + (newCount + (third + ("@@" + rest))))
    }

    function OldRange(): string {
      "-" + (oldStart + (oldCount + (second + NewRange())))
    }

    function Line(): string {
      "@@" + (first + OldRange())
    }
  }

  // ---------------------------------------------------------------- what is read

  predicate StopsSpaces(s: string) {
    s == "" || !IsSpace(s[0])
  }

  lemma {:induction false} SpacesAreSkipped(spaces: string, rest: string)
    requires Spaces(spaces) && StopsSpaces(rest)
    ensures SkipSpaces(spaces + rest) == Some(rest)
  {
    var s := spaces + rest;
    if |spaces| > 1 {
      assert s[1] == spaces[1] && s[1..] == spaces[1..] + rest;
      SpacesAreSkipped(spaces[1..], rest);
    } else {
      assert s[1..] == rest;
    }
  }

  lemma {:induction false} SkippedAreSpaces(s: string) returns (spaces: string)
    requires SkipSpaces(s).Some?
    ensures Spaces(spaces) && s == spaces + SkipSpaces(s).value
  {
    if |s| > 1 && IsSpace(s[1]) {
      var later := SkippedAreSpaces(s[1..]);
      spaces := [s[0]] + later;
      assert s == [s[0]] + s[1..];
    } else {
      spaces := s[..1];
    }
  }

  lemma {:induction false} DigitsAreLeading(digits: string, rest: string)
    requires (forall i :: 0 <= i < |digits| ==> '0' <= digits[i] <= '9') && (rest == "" || !IsDigit(rest[0]))
    ensures LeadingDigits(digits + rest) == digits
  {
    if digits == "" {
      assert digits + rest == rest;
    } else {
      assert (digits + rest)[1..] == digits[1..] + rest;
      DigitsAreLeading(digits[1..], rest);
    }
  }

  lemma {:induction false} LeadingAreDigits(s: string)
    ensures LeadingDigits(s) != "" ==> Digits(LeadingDigits(s))
    ensures LeadingDigits(s) <= s
  {
    if s != "" && IsDigit(s[0]) {
      LeadingAreDigits(s[1..]);
    }
  }

  lemma RangeMatches(sign: char, start: string, count: string, rest: string)
    requires Digits(start) && Count(count) && rest != "" && IsSpace(rest[0])
    ensures MatchRange(sign, [sign] + (start + (count + rest))) == Some((start, rest))
  {
    var s, after := [sign] + (start + (count + rest)), count + rest;
    assert s[1..] == start + after;
    DigitsAreLeading(start, after);
    assert s[1 + |start|..] == after;
    if count == "" {
      assert after == rest;
    } else {
      assert after[1..] == count[1..] + rest;
      DigitsAreLeading(count[1..], rest);
      assert after[1 + |count[1..]|..] == rest;
    }
  }

  lemma MatchedIsRange(sign: char, s: string) returns (count: string)
    requires MatchRange(sign, s).Some?
    ensures Count(count) && Digits(MatchRange(sign, s).value.0)
    ensures s == [sign] + (MatchRange(sign, s).value.0 + (count + MatchRange(sign, s).value.1))
  {
    LeadingAreDigits(s[1..]);
    var start := LeadingDigits(s[1..]);
    var after := s[1 + |start|..];
    assert s == [sign] + (start + after);
    count := LeadingCount(after);
  }

  /** The count at the beginning of s, where there is one. */
  lemma LeadingCount(s: string) returns (count: string)
    ensures Count(count)
    ensures count != "" <==> s != "" && s[0] == ',' && LeadingDigits(s[1..]) != ""
    ensures s == count + (if count == "" then s else s[1 + |LeadingDigits(s[1..])|..])
  {
    if s != "" && s[0] == ',' && LeadingDigits(s[1..]) != "" {
      LeadingAreDigits(s[1..]);
      count := [','] + LeadingDigits(s[1..]);
      CommaFirst(s, LeadingDigits(s[1..]));
    } else {
      count := "";
      assert s == "" + s;
    }
  }

  lemma CommaFirst(s: string, digits: string)
    requires s != "" && s[0] == ',' && Digits(digits) && digits <= s[1..]
    ensures Count([','] + digits) && s == ([','] + digits) + s[1 + |digits|..]
  {
    assert ([','] + digits)[1..] == digits;
    assert s[1..][..|digits|] == s[1..1 + |digits|];
  }

  // ---------------------------------------------------------------- the pattern

  lemma NewRangeMatches(p: Parts)
    requires p.Fit()
    ensures NewRangeStart(p.NewRange()) == Some(p.newStart)
  {
    var closing := "@@" + p.rest;
    assert (p.third + closing)[0] == p.third[0];
    RangeMatches('+', p.newStart, p.newCount, p.third + closing);
    SpacesAreSkipped(p.third, closing);
  }

  lemma OldRangeMatches(p: Parts)
    requires p.Fit()
    ensures SkipOldRange(p.Line()) == Some(p.NewRange())
  {
    assert p.Line()[2..] == p.first + p.OldRange();
    SpacesAreSkipped(p.first, p.OldRange());
    assert (p.second + p.NewRange())[0] == p.second[0];
    RangeMatches('-', p.oldStart, p.oldCount, p.second + p.NewRange());
    SpacesAreSkipped(p.second, p.NewRange());
  }

  lemma OldHasParts(line: string) returns (first: string, start: string, count: string, second: string)
    requires SkipOldRange(line).Some?
    ensures Spaces(first) && Digits(start) && Count(count) && Spaces(second)
    ensures line == "@@" + (first + ("-" + (start + (count + (second + SkipOldRange(line).value)))))
  {
    first := SkippedAreSpaces(line[2..]);
    var range := SkipSpaces(line[2..]).value;
    count := MatchedIsRange('-', range);
    start := MatchRange('-', range).value.0;
    second := SkippedAreSpaces(MatchRange('-', range).value.1);
    assert line == "@@" + line[2..];
  }

  lemma NewHasParts(s: string) returns (count: string, third: string, rest: string)
    requires NewRangeStart(s).Some?
    ensures Digits(NewRangeStart(s).value) && Count(count) && Spaces(third)
    ensures s == "+" + (NewRangeStart(s).value + (count + (third + ("@@" + rest))))
  {
    count := MatchedIsRange('+', s);
    var after := MatchRange('+', s).value.1;
    third := SkippedAreSpaces(after);
    var closing := SkipSpaces(after).value;
    rest := closing[2..];
    assert closing == "@@" + rest;
  }

  lemma HeaderHasParts(line: string) returns (p: Parts)
    requires HeaderStart(line).Some?
    ensures p.Fit() && line == p.Line() && p.newStart == HeaderStart(line).value
  {
    var first, oldStart, oldCount, second := OldHasParts(line);
    var newCount, third, rest := NewHasParts(SkipOldRange(line).value);
    p := Parts(first, oldStart, oldCount, second, HeaderStart(line).value, newCount, third, rest);
    assert p.NewRange() == SkipOldRange(line).value;
  }

  /** A line is a header with this start if and only if it has the form of the pattern with it. */
  lemma HeaderExactly(line: string, start: string)
    ensures HeaderStart(line) == Some(start) <==> exists p: Parts :: p.Fit() && p.Line() == line && p.newStart == start
  {
    if HeaderStart(line) == Some(start) {
      var p := HeaderHasParts(line);
    }
    if p: Parts :| p.Fit() && p.Line() == line && p.newStart == start {
      OldRangeMatches(p);
      NewRangeMatches(p);
    }
  }

  // ---------------------------------------------------------------- other lines

  /** What the readers make of a line that is no header, by how it starts. */
  lemma OtherLines(line: string)
    ensures HeaderStart(line).None? ==>
              (KindOf(line) == Skipped <==> "\\ No newline" <= line || ("-" <= line && !("---" <= line)))
    ensures KindOf(line) != Skipped && HeaderStart(line).None? ==> KindOf(line) == Counted
    ensures Reviewed(line) == None
       <==> "@@" <= line || "+++" <= line || "-" <= line || "\\ No newline" <= line
    ensures Reviewed(line) != None ==>
              Reviewed(line) == Some(if "+" <= line || " " <= line then line[1..] else line)
  {
  }
}
