/** What the two readers of unified diffs make of a patch that is cut at its end, as it is for a
    prompt. */
module DiffPrefixes {
  import opened Text
  import opened DiffReaders
  import opened DiffRendering
  import opened DiffRoundTrips

  // ---------------------------------------------------------------- lines of a cut text

  /** How many of the joined lines lie within the first n characters. */
  function WholeLines(lines: seq<string>, n: nat): (k: nat)
    ensures k <= |lines|
  {
    if lines == [] || n < |lines[0]| then 0
    else if n == |lines[0]| then 1
    else 1 + WholeLines(lines[1..], n - |lines[0]| - 1)
  }

  /** The piece of a line that the cut leaves at the end, if it leaves one. */
  function CutLine(lines: seq<string>, n: nat): (piece: seq<string>)
    ensures |piece| <= 1
  {
    if lines == [] || n == 0 || n == |lines[0]| then []
    else if n < |lines[0]| then [lines[0][..n]]
    else CutLine(lines[1..], n - |lines[0]| - 1)
  }

  lemma CutInFirst(line: string, n: nat)
    requires IsLine(line) && 0 < n <= |line|
    ensures SplitLines(line[..n]) == [line[..n]]
  {
    FirstLineIs(line[..n], "");
    assert line[..n] + "" == line[..n];
  }

  lemma CutPastFirst(line: string, rest: string)
    requires IsLine(line)
    ensures SplitLines(line + ("\n" + rest)) == [line] + SplitLines(rest)
  {
    FirstLineIs(line, "\n" + rest);
    assert (line + ("\n" + rest))[|line| + 1..] == rest;
  }

  lemma PrefixPast(first: string, rest: string, m: nat)
    requires m <= |rest|
    ensures (first + ("\n" + rest))[..|first| + 1 + m] == first + ("\n" + rest[..m])
  {
  }

  lemma WholePast(lines: seq<string>, k: nat, piece: seq<string>)
    requires lines != [] && k < |lines|
    ensures [lines[0]] + (lines[1..][..k] + piece) == lines[..1 + k] + piece
  {
  }

  lemma CutWithin(lines: seq<string>, n: nat, joined: string)
    requires lines != [] && IsLine(lines[0]) && n <= |lines[0]| && joined == Join("\n", lines) && n <= |joined|
    ensures SplitLines(joined[..n]) == lines[..WholeLines(lines, n)] + CutLine(lines, n)
  {
    var first := lines[0];
    JoinedOpens(lines);
    if n == 0 {
      assert joined[..n] == "" && lines[..0] == [];
    } else {
      assert joined[..n] == first[..n];
      CutInFirst(first, n);
      assert lines[..1] == [first] && lines[..0] == [] && first[..|first|] == first;
    }
  }

  lemma CutMore(lines: seq<string>, n: nat, joined: string, rest: string, m: nat, k: nat, piece: seq<string>)
    requires lines != [] && IsLine(lines[0]) && n == |lines[0]| + 1 + m && 0 < k <= |lines|
    requires joined == Join("\n", lines) && n <= |joined| && rest == Join("\n", lines[1..])
    requires m <= |rest| && SplitLines(rest[..m]) == lines[1..][..k - 1] + piece
    ensures SplitLines(joined[..n]) == lines[..k] + piece
  {
    CutOpens(lines, n, joined, rest, m);
    CutPastFirst(lines[0], rest[..m]);
    WholePast(lines, k - 1, piece);
  }

  lemma CutOpens(lines: seq<string>, n: nat, joined: string, rest: string, m: nat)
    requires lines != [] && n == |lines[0]| + 1 + m && m <= |rest|
    requires joined == Join("\n", lines) && n <= |joined| && rest == Join("\n", lines[1..])
    ensures joined[..n] == lines[0] + ("\n" + rest[..m])
  {
    JoinedOpens(lines);
    PrefixPast(lines[0], rest, m);
  }

  lemma {:induction false} CutSplits(lines: seq<string>, n: nat, joined: string, k: nat, piece: seq<string>)
    requires (forall l :: l in lines ==> IsLine(l)) && joined == Join("\n", lines) && n <= |joined|
    requires k == WholeLines(lines, n) && piece == CutLine(lines, n)
    ensures SplitLines(joined[..n]) == lines[..k] + piece
  {
    if lines == [] {
      assert joined[..n] == "";
    } else if n <= |lines[0]| {
      CutWithin(lines, n, joined);
    } else {
      var rest, m := Join("\n", lines[1..]), n - |lines[0]| - 1;
      JoinedOpens(lines);
      CutSplits(lines[1..], m, rest, k - 1, piece);
      CutMore(lines, n, joined, rest, m, k, piece);
    }
  }

  lemma JoinedOpens(lines: seq<string>)
    requires lines != []
    ensures Join("\n", lines) == if |lines| == 1 then lines[0] else lines[0] + ("\n" + Join("\n", lines[1..]))
  {
  }

  lemma {:induction false} NothingCut(lines: seq<string>)
    requires forall l :: l in lines ==> IsLine(l)
    ensures WholeLines(lines, |Join("\n", lines)|) == |lines| && CutLine(lines, |Join("\n", lines)|) == []
  {
    if lines != [] {
      assert IsLine(lines[0]);
    }
    if |lines| > 1 {
      NothingCut(lines[1..]);
    }
  }

  // ---------------------------------------------------------------- reading in order

  /** The counter after a line. */
  function NextCounter(kind: LineKind, current: Option<nat>): Option<nat> {
    if kind.Header? then Some(kind.start)
    else if current.None? || kind.Skipped? then current
    else Some(current.value + 1)
  }

  function CounterAfter(kinds: seq<LineKind>, current: Option<nat>): Option<nat>
    decreases kinds
  {
    if kinds == [] then current else CounterAfter(kinds[1..], NextCounter(kinds[0], current))
  }

  lemma {:induction false} CountsOn(first: seq<LineKind>, rest: seq<LineKind>, current: Option<nat>)
    ensures OrderedNumbers(first + rest, current)
         == OrderedNumbers(first, current) + OrderedNumbers(rest, CounterAfter(first, current))
    decreases first
  {
    if first == [] {
      assert first + rest == rest;
      assert [] + OrderedNumbers(rest, current) == OrderedNumbers(rest, current);
    } else {
      assert (first + rest)[1..] == first[1..] + rest && (first + rest)[0] == first[0];
      CountsOn(first[1..], rest, NextCounter(first[0], current));
    }
  }

  /** The lines that the one reader counts are those that the other keeps. */
  ghost predicate Paired(kinds: seq<LineKind>, reviews: seq<Option<string>>, current: Option<nat>)
    decreases kinds
  {
    |kinds| == |reviews|
    && (kinds == []
        || (&& (reviews[0].Some? <==> current.Some? && kinds[0].Counted?)
            && Paired(kinds[1..], reviews[1..], NextCounter(kinds[0], current))))
  }

  lemma {:induction false} PairedCounts(kinds: seq<LineKind>, reviews: seq<Option<string>>, current: Option<nat>)
    requires Paired(kinds, reviews, current)
    ensures |OrderedNumbers(kinds, current)| == |Present(reviews)|
    decreases kinds
  {
    if kinds != [] {
      PairedCounts(kinds[1..], reviews[1..], NextCounter(kinds[0], current));
    }
  }

  lemma {:induction false} PairedPrefix(
      kinds: seq<LineKind>, reviews: seq<Option<string>>, current: Option<nat>, k: nat)
    requires Paired(kinds, reviews, current) && k <= |kinds|
    ensures Paired(kinds[..k], reviews[..k], current)
    decreases kinds
  {
    if k > 0 {
      assert kinds[..k][1..] == kinds[1..][..k - 1] && reviews[..k][1..] == reviews[1..][..k - 1];
      PairedPrefix(kinds[1..], reviews[1..], NextCounter(kinds[0], current), k - 1);
    }
  }

  lemma PairedNext(
      kind: LineKind, review: Option<string>, kinds: seq<LineKind>, reviews: seq<Option<string>>, current: Option<nat>)
    requires review.Some? <==> current.Some? && kind.Counted?
    ensures Paired(kinds, reviews, NextCounter(kind, current)) ==> Paired([kind] + kinds, [review] + reviews, current)
  {
    assert ([kind] + kinds)[1..] == kinds && ([review] + reviews)[1..] == reviews;
  }

  // ---------------------------------------------------------------- rendered lines are paired

  lemma CountedIsReviewed(edits: seq<Edit>)
    requires edits != [] && DashedDeletes(edits) == 0 && PlusedAdds(edits) == 0
    ensures PlusedAdds(edits[1..]) == 0
    ensures EditReview(edits[0]).Some? <==> EditKind(edits[0]).Counted?
  {
  }

  lemma {:induction false} EditsPaired(
      edits: seq<Edit>, kinds: seq<LineKind>, reviews: seq<Option<string>>, current: nat, finish: nat)
    requires DashedDeletes(edits) == 0 && PlusedAdds(edits) == 0 && finish == current + |NewTexts(edits)|
    ensures Paired(kinds, reviews, Some(finish))
        ==> Paired(Each(EditKind, edits) + kinds, Each(EditReview, edits) + reviews, Some(current))
    decreases edits
  {
    if edits == [] {
      assert Each(EditKind, edits) + kinds == kinds && Each(EditReview, edits) + reviews == reviews;
    } else {
      var kind, review := EditKind(edits[0]), EditReview(edits[0]);
      OpenEach(EditKind, edits, kinds);
      OpenEach(EditReview, edits, reviews);
      CountedText(edits);
      CountedIsReviewed(edits);
      var next := if kind.Counted? then current + 1 else current;
      EditsPaired(edits[1..], kinds, reviews, next, finish);
      assert NextCounter(kind, Some(current)) == Some(next);
      PairedNext(kind, review, Each(EditKind, edits[1..]) + kinds, Each(EditReview, edits[1..]) + reviews,
                 Some(current));
    }
  }

  lemma FirstIsPlain(script: seq<Segment>)
    requires script != [] && NoDashedDelete(script) && NoPlusedAdd(script)
    ensures DashedDeletes(script[0].edits) == 0 && PlusedAdds(script[0].edits) == 0
    ensures NoDashedDelete(script[1..]) && NoPlusedAdd(script[1..])
  {
    assert forall i :: 0 <= i < |script[1..]| ==> script[1..][i] == script[i + 1];
  }

  lemma {:induction false} ScriptPaired(
      script: seq<Segment>, newBefore: nat, current: Option<nat>, kinds: seq<LineKind>, reviews: seq<Option<string>>)
    requires NoDashedDelete(script) && NoPlusedAdd(script)
    requires kinds == ScriptValues(HeaderKind, EditKind, script, newBefore)
    requires reviews == ScriptValues(HeaderReview, EditReview, script, newBefore)
    ensures Paired(kinds, reviews, current)
    decreases script
  {
    if script != [] {
      var edits, newAt := script[0].edits, newBefore + |script[0].gap|;
      var count := |NewTexts(edits)|;
      var next, start := newAt + count, RangeStart(newAt, count);
      var laterKinds := ScriptValues(HeaderKind, EditKind, script[1..], next);
      var laterReviews := ScriptValues(HeaderReview, EditReview, script[1..], next);
      FirstIsPlain(script);
      OpenValues(HeaderKind, EditKind, script, newBefore, newAt, count, next, laterKinds, kinds);
      OpenValues(HeaderReview, EditReview, script, newBefore, newAt, count, next, laterReviews, reviews);
      ScriptPaired(script[1..], next, Some(start + count), laterKinds, laterReviews);
      EditsPaired(edits, laterKinds, laterReviews, start, start + count);
      PairedNext(HeaderKind(newAt, count), None,
                 Each(EditKind, edits) + laterKinds, Each(EditReview, edits) + laterReviews, current);
    }
  }

  lemma PatchPaired(fileHeader: Option<(string, string)>, script: seq<Segment>)
    requires NoDashedDelete(script) && NoPlusedAdd(script)
    ensures Paired(Each(KindOf, RenderLines(fileHeader, script)), Each(Reviewed, RenderLines(fileHeader, script)), None)
  {
    var hunks := RenderHunks(RenderHeader, script, 0, 0);
    KindsOfScript(script);
    ReviewsScript(script);
    ScriptPaired(script, 0, None, Each(KindOf, hunks), Each(Reviewed, hunks));
    if fileHeader.Some? {
      FileHeaderPaired(fileHeader.value.0, fileHeader.value.1, hunks);
    } else {
      assert RenderLines(fileHeader, script) == hunks;
    }
  }

  lemma FileHeaderPaired(oldName: string, newName: string, hunks: seq<string>)
    ensures var lines := [OLD_FILE_OPEN + oldName, NEW_FILE_OPEN + newName] + hunks;
            Paired(Each(KindOf, hunks), Each(Reviewed, hunks), None)
            ==> Paired(Each(KindOf, lines), Each(Reviewed, lines), None)
  {
    var first, second := OLD_FILE_OPEN + oldName, NEW_FILE_OPEN + newName;
    FileHeaderLines(oldName, newName);
    HeaderLinePaired(second, hunks);
    HeaderLinePaired(first, [second] + hunks);
    assert [first, second] + hunks == [first] + ([second] + hunks);
  }

  lemma HeaderLinePaired(line: string, rest: seq<string>)
    requires !KindOf(line).Header? && Reviewed(line) == None
    ensures Paired(Each(KindOf, rest), Each(Reviewed, rest), None)
        ==> Paired(Each(KindOf, [line] + rest), Each(Reviewed, [line] + rest), None)
  {
    assert Each(KindOf, [line] + rest) == [KindOf(line)] + Each(KindOf, rest);
    assert Each(Reviewed, [line] + rest) == [Reviewed(line)] + Each(Reviewed, rest);
    PairedNext(KindOf(line), Reviewed(line), Each(KindOf, rest), Each(Reviewed, rest), None);
  }

  // ---------------------------------------------------------------- a cut patch

  /** How many lines of the new file the first n characters of a patch have whole. */
  function WholeRights(lines: seq<string>, n: nat): nat {
    |Present(Each(Reviewed, lines[..WholeLines(lines, n)]))|
  }

  lemma OrderedPrefix(kinds: seq<LineKind>, k: nat)
    requires k <= |kinds|
    ensures OrderedNumbers(kinds[..k], None) <= OrderedNumbers(kinds, None)
  {
    assert kinds == kinds[..k] + kinds[k..];
    CountsOn(kinds[..k], kinds[k..], None);
  }

  lemma PresentPrefix(options: seq<Option<string>>, k: nat)
    requires k <= |options|
    ensures Present(options[..k]) <= Present(options)
  {
    assert options == options[..k] + options[k..];
    PresentConcat(options[..k], options[k..]);
  }

  /** What the readers make of lines and a piece after them. */
  lemma PieceIsRead(whole: seq<string>, piece: seq<string>)
    ensures Present(Each(Reviewed, whole + piece)) == Present(Each(Reviewed, whole)) + Present(Each(Reviewed, piece))
    ensures OrderedNumbers(Each(KindOf, whole + piece), None)
         == OrderedNumbers(Each(KindOf, whole), None)
          + OrderedNumbers(Each(KindOf, piece), CounterAfter(Each(KindOf, whole), None))
  {
    assert Each(Reviewed, whole + piece) == Each(Reviewed, whole) + Each(Reviewed, piece);
    assert Each(KindOf, whole + piece) == Each(KindOf, whole) + Each(KindOf, piece);
    PresentConcat(Each(Reviewed, whole), Each(Reviewed, piece));
    CountsOn(Each(KindOf, whole), Each(KindOf, piece), None);
  }

  /** The whole lines, read in order, give the first numbers and the first texts, as many of both. */
  lemma WholeAreFirst(fileHeader: Option<(string, string)>, script: seq<Segment>, k: nat)
    requires OneLineTexts(fileHeader, script) && NoDashedDelete(script) && NoPlusedAdd(script)
    requires k <= |RenderLines(fileHeader, script)|
    ensures var whole := RenderLines(fileHeader, script)[..k];
            var numbers := RightNumbers(Each(ShapeOf, script), 0);
            var j := |Present(Each(Reviewed, whole))|;
            && j <= |numbers| == |RightTexts(script)|
            && Present(Each(Reviewed, whole)) == RightTexts(script)[..j]
            && OrderedNumbers(Each(KindOf, whole), None) == numbers[..j]
  {
    var lines := RenderLines(fileHeader, script);
    var kinds, reviews := Each(KindOf, lines), Each(Reviewed, lines);
    NumbersCount(script, 0);
    OrderedPatch(fileHeader, script);
    RenderSplits(fileHeader, script);
    ReviewableRoundTrip(fileHeader, script);
    PatchPaired(fileHeader, script);
    FirstOfBoth(kinds, reviews, k);
    assert Each(KindOf, lines[..k]) == kinds[..k] && Each(Reviewed, lines[..k]) == reviews[..k];
  }

  lemma FirstOfBoth(kinds: seq<LineKind>, reviews: seq<Option<string>>, k: nat)
    requires k <= |kinds| && Paired(kinds, reviews, None)
    ensures var j := |Present(reviews[..k])|;
            && j <= |Present(reviews)| == |OrderedNumbers(kinds, None)|
            && Present(reviews[..k]) == Present(reviews)[..j]
            && OrderedNumbers(kinds[..k], None) == OrderedNumbers(kinds, None)[..j]
  {
    PairedCounts(kinds, reviews, None);
    PairedPrefix(kinds, reviews, None, k);
    PairedCounts(kinds[..k], reviews[..k], None);
    OrderedPrefix(kinds, k);
    PresentPrefix(reviews, k);
  }

  // ---------------------------------------------------------------- the number of a cut line

  /** At every line the counter is at most the numbers that are still to come. */
  ghost predicate Ahead(kinds: seq<LineKind>, current: Option<nat>)
    decreases kinds
  {
    && (current.Some? ==> forall x :: x in OrderedNumbers(kinds, current) ==> x >= current.value)
    && (kinds == [] || Ahead(kinds[1..], NextCounter(kinds[0], current)))
  }

  lemma AheadNext(kind: LineKind, kinds: seq<LineKind>, current: Option<nat>)
    requires !kind.Header?
    ensures Ahead(kinds, NextCounter(kind, current)) ==> Ahead([kind] + kinds, current)
  {
    assert ([kind] + kinds)[1..] == kinds;
  }

  lemma {:induction false} AheadEdits(edits: seq<Edit>, kinds: seq<LineKind>, current: nat)
    requires DashedDeletes(edits) == 0
    ensures Ahead(kinds, Some(current + |NewTexts(edits)|)) ==> Ahead(Each(EditKind, edits) + kinds, Some(current))
  {
    if edits == [] {
      assert Each(EditKind, edits) + kinds == kinds;
    } else {
      var kind, later := EditKind(edits[0]), Each(EditKind, edits[1..]) + kinds;
      OpenEach(EditKind, edits, kinds);
      CountedText(edits);
      AheadEdits(edits[1..], kinds, if kind.Counted? then current + 1 else current);
      AheadNext(kind, later, Some(current));
    }
  }

  lemma AheadHeader(header: LineKind, kinds: seq<LineKind>, current: Option<nat>)
    requires header.Header?
    requires current.Some? ==> forall x :: x in OrderedNumbers([header] + kinds, current) ==> x >= current.value
    ensures Ahead(kinds, Some(header.start)) ==> Ahead([header] + kinds, current)
  {
    assert ([header] + kinds)[1..] == kinds;
  }

  lemma ScriptIsAhead(script: seq<Segment>, newBefore: nat, current: Option<nat>, kinds: seq<LineKind>)
    requires NoDashedDelete(script) && (current.Some? ==> current.value <= newBefore + 1)
    requires kinds == ScriptValues(HeaderKind, EditKind, script, newBefore)
    ensures current.Some? ==> forall x :: x in OrderedNumbers(kinds, current) ==> x >= current.value
  {
    OrderedScript(script, newBefore, current);
    NumbersIncrease(Each(ShapeOf, script), newBefore);
  }

  lemma {:induction false} AheadScript(
      script: seq<Segment>, newBefore: nat, current: Option<nat>, kinds: seq<LineKind>)
    requires NoDashedDelete(script) && (current.Some? ==> current.value <= newBefore + 1)
    requires kinds == ScriptValues(HeaderKind, EditKind, script, newBefore)
    ensures Ahead(kinds, current)
    decreases script
  {
    if script != [] {
      var edits, newAt := script[0].edits, newBefore + |script[0].gap|;
      var count := |NewTexts(edits)|;
      var next, start := newAt + count, RangeStart(newAt, count);
      var later := ScriptValues(HeaderKind, EditKind, script[1..], next);
      ScriptIsAhead(script, newBefore, current, kinds);
      NoDashedLater(script);
      OpenValues(HeaderKind, EditKind, script, newBefore, newAt, count, next, later, kinds);
      AheadScript(script[1..], next, Some(start + count), later);
      AheadEdits(edits, later, start);
      AheadHeader(HeaderKind(newAt, count), Each(EditKind, edits) + later, current);
    }
  }

  lemma PatchAhead(fileHeader: Option<(string, string)>, script: seq<Segment>)
    requires NoDashedDelete(script)
    ensures Ahead(Each(KindOf, RenderLines(fileHeader, script)), None)
  {
    var hunks := RenderHunks(RenderHeader, script, 0, 0);
    KindsOfScript(script);
    AheadScript(script, 0, None, Each(KindOf, hunks));
    if fileHeader.Some? {
      FileHeaderAhead(fileHeader.value.0, fileHeader.value.1, hunks);
    } else {
      assert RenderLines(fileHeader, script) == hunks;
    }
  }

  lemma FileHeaderAhead(oldName: string, newName: string, hunks: seq<string>)
    ensures Ahead(Each(KindOf, hunks), None)
        ==> Ahead(Each(KindOf, [OLD_FILE_OPEN + oldName, NEW_FILE_OPEN + newName] + hunks), None)
  {
    var first, second, kinds := OLD_FILE_OPEN + oldName, NEW_FILE_OPEN + newName, Each(KindOf, hunks);
    FileHeaderLines(oldName, newName);
    AheadNext(KindOf(second), kinds, None);
    AheadNext(KindOf(first), [KindOf(second)] + kinds, None);
    assert Each(KindOf, [first, second] + hunks) == [KindOf(first)] + ([KindOf(second)] + kinds);
  }

  lemma {:induction false} AheadFrom(kinds: seq<LineKind>, current: Option<nat>, k: nat)
    requires Ahead(kinds, current) && k <= |kinds|
    ensures Ahead(kinds[k..], CounterAfter(kinds[..k], current))
    decreases kinds
  {
    if k > 0 {
      assert kinds[..k][1..] == kinds[1..][..k - 1] && kinds[1..][k - 1..] == kinds[k..];
      AheadFrom(kinds[1..], NextCounter(kinds[0], current), k - 1);
    } else {
      assert kinds[0..] == kinds;
    }
  }

  lemma OneNumber(piece: seq<LineKind>, current: Option<nat>)
    requires |piece| <= 1
    ensures OrderedNumbers(piece, current)
         == if piece != [] && piece[0].Counted? && current.Some? then [current.value] else []
  {
    if piece != [] {
      assert piece[1..] == [];
      assert forall c :: OrderedNumbers([], c) == [];
    }
  }

  /** What a single line adds is at most the numbers that would have come. */
  lemma PieceIsBehind(kinds: seq<LineKind>, k: nat, piece: seq<LineKind>, numbers: seq<nat>, j: nat)
    requires k <= |kinds| && |piece| <= 1
    requires numbers == OrderedNumbers(kinds, None) && j <= |numbers|
             && OrderedNumbers(kinds[..k], None) == numbers[..j]
    ensures Ahead(kinds, None) ==>
              forall x, i :: x in OrderedNumbers(piece, CounterAfter(kinds[..k], None)) && j <= i < |numbers| ==>
                x <= numbers[i]
  {
    if Ahead(kinds, None) {
      var counter := CounterAfter(kinds[..k], None);
      AheadFrom(kinds, None, k);
      CountsOn(kinds[..k], kinds[k..], None);
      assert kinds[..k] + kinds[k..] == kinds;
      var later := OrderedNumbers(kinds[k..], counter);
      forall x, i | x in OrderedNumbers(piece, counter) && j <= i < |numbers|
        ensures x <= numbers[i]
      {
        OneNumber(piece, counter);
        assert numbers[i] == later[i - j] && later[i - j] in later;
      }
    }
  }

  /** What the text reader makes of the line that was cut. */
  function CutTexts(lines: seq<string>, n: nat): seq<string> {
    Present(Each(Reviewed, CutLine(lines, n)))
  }

  /** What the number reader makes of it, after the whole lines. */
  function CutNumbers(lines: seq<string>, n: nat): seq<nat> {
    OrderedNumbers(Each(KindOf, CutLine(lines, n)), CounterAfter(Each(KindOf, lines[..WholeLines(lines, n)]), None))
  }

  /** The line that was cut is read as a text of the new file, and this is the text. */
  ghost predicate CutGives(lines: seq<string>, n: nat, text: string) {
    CutLine(lines, n) != [] && Reviewed(CutLine(lines, n)[0]) == Some(text)
  }

  /** The line that was cut is counted, and this is its number. */
  ghost predicate CutCounts(lines: seq<string>, n: nat, number: nat) {
    && CutLine(lines, n) != [] && KindOf(CutLine(lines, n)[0]).Counted?
    && CounterAfter(Each(KindOf, lines[..WholeLines(lines, n)]), None) == Some(number)
  }

  lemma OneText(piece: seq<Option<string>>)
    requires |piece| <= 1
    ensures Present(piece) == if piece != [] && piece[0].Some? then [piece[0].value] else []
  {
    if piece != [] {
      assert piece[1..] == [] && Present([]) == [];
    }
  }

  lemma CutIsOne(lines: seq<string>, n: nat)
    ensures |CutTexts(lines, n)| <= 1 && |CutNumbers(lines, n)| <= 1
    ensures forall text :: CutGives(lines, n, text) <==> CutTexts(lines, n) == [text]
    ensures forall number: nat :: CutCounts(lines, n, number) <==> CutNumbers(lines, n) == [number]
  {
    var piece := CutLine(lines, n);
    OneNumber(Each(KindOf, piece), CounterAfter(Each(KindOf, lines[..WholeLines(lines, n)]), None));
    OneText(Each(Reviewed, piece));
  }

  /** Of a cut patch both readers return the beginning of what they return of the whole one, up to the
      same place, and what they make of the line that was cut; its number is at most the next one. */
  lemma CutIsRead(fileHeader: Option<(string, string)>, script: seq<Segment>, n: nat)
    requires OneLineTexts(fileHeader, script) && NoDashedDelete(script) && NoPlusedAdd(script)
    requires n <= |Render(fileHeader, script)|
    ensures var lines, cut := RenderLines(fileHeader, script), Render(fileHeader, script)[..n];
            var j, numbers := WholeRights(lines, n), RightNumbers(Each(ShapeOf, script), 0);
            && j <= |numbers| == |RightTexts(script)|
            && ReviewableLines(cut) == RightTexts(script)[..j] + CutTexts(lines, n)
            && RightSideDiffLines(cut) == (set x | x in numbers[..j] + CutNumbers(lines, n))
            && forall x, i :: x in CutNumbers(lines, n) && j <= i < |numbers| ==> x <= numbers[i]
  {
    var lines := RenderLines(fileHeader, script);
    var k, piece := WholeLines(lines, n), CutLine(lines, n);
    RenderedAreLines(fileHeader, script);
    CutSplits(lines, n, Render(fileHeader, script), k, piece);
    LinesAndPieceAreRead(fileHeader, script, k, piece);
    OrderedAreCounted(Each(KindOf, lines[..k] + piece), None);
  }

  lemma LinesAndPieceAreRead(
      fileHeader: Option<(string, string)>, script: seq<Segment>, k: nat, piece: seq<string>)
    requires OneLineTexts(fileHeader, script) && NoDashedDelete(script) && NoPlusedAdd(script)
    requires k <= |RenderLines(fileHeader, script)| && |piece| <= 1
    ensures var whole, numbers := RenderLines(fileHeader, script)[..k], RightNumbers(Each(ShapeOf, script), 0);
            var j := |Present(Each(Reviewed, whole))|;
            var more := OrderedNumbers(Each(KindOf, piece), CounterAfter(Each(KindOf, whole), None));
            && j <= |numbers| == |RightTexts(script)|
            && Present(Each(Reviewed, whole + piece)) == RightTexts(script)[..j] + Present(Each(Reviewed, piece))
            && OrderedNumbers(Each(KindOf, whole + piece), None) == numbers[..j] + more
            && forall x, i :: x in more && j <= i < |numbers| ==> x <= numbers[i]
  {
    var lines := RenderLines(fileHeader, script);
    var kinds, whole := Each(KindOf, lines), lines[..k];
    assert Each(KindOf, whole) == kinds[..k];
    PieceIsRead(whole, piece);
    WholeAreFirst(fileHeader, script, k);
    OrderedPatch(fileHeader, script);
    PatchAhead(fileHeader, script);
    PieceIsBehind(kinds, k, Each(KindOf, piece), OrderedNumbers(kinds, None), |Present(Each(Reviewed, whole))|);
  }

  /** Element i of a list of which the first j are known and at most one more. */
  lemma OneMoreAt<T>(first: seq<T>, more: seq<T>, i: nat, x: T)
    requires |more| <= 1
    ensures i < |first + more| && (first + more)[i] == x
       <==> (i < |first| && first[i] == x) || (i == |first| && more == [x])
  {
  }

  /** The i-th line of the new file in the diff, in a patch that was cut: the number reader finds it if
      and only if it is among the whole lines or is the next one and the line that was cut counts as
      it; the text reader has its text at its place if and only if it is among the whole lines or is
      the next one and the line that was cut gives this text. */
  lemma CutShows(fileHeader: Option<(string, string)>, script: seq<Segment>, tail: seq<string>, n: nat, i: nat)
    requires OneLineTexts(fileHeader, script) && NoDashedDelete(script) && NoPlusedAdd(script)
    requires n <= |Render(fileHeader, script)| && i < |RightNumbers(Each(ShapeOf, script), 0)|
    ensures var lines, cut := RenderLines(fileHeader, script), Render(fileHeader, script)[..n];
            var j, number := WholeRights(lines, n), RightNumbers(Each(ShapeOf, script), 0)[i];
            && 0 < number <= |NewFile(script, tail)|
            && (number in RightSideDiffLines(cut) <==> i < j || (i == j && CutCounts(lines, n, number)))
            && (i < |ReviewableLines(cut)| && ReviewableLines(cut)[i] == NewFile(script, tail)[number - 1]
                <==> i < j || (i == j && CutGives(lines, n, NewFile(script, tail)[number - 1])))
  {
    NumbersIndex(script, tail);
    CutIsRead(fileHeader, script, n);
    CutIsOne(RenderLines(fileHeader, script), n);
    var numbers, lines := RightNumbers(Each(ShapeOf, script), 0), RenderLines(fileHeader, script);
    var j, more := WholeRights(lines, n), CutNumbers(lines, n);
    OneMoreAt(RightTexts(script)[..j], CutTexts(lines, n), i, NewFile(script, tail)[numbers[i] - 1]);
    NumberInCut(numbers, j, more, i);
  }

  lemma NumberInCut(numbers: seq<nat>, j: nat, more: seq<nat>, i: nat)
    requires j <= |numbers| && i < |numbers| && |more| <= 1
    requires forall a, b :: 0 <= a < b < |numbers| ==> numbers[a] < numbers[b]
    requires forall x, b :: x in more && j <= b < |numbers| ==> x <= numbers[b]
    ensures numbers[i] in numbers[..j] + more <==> i < j || (i == j && more == [numbers[i]])
  {
    if i < j {
      assert (numbers[..j] + more)[i] == numbers[i];
    } else {
      assert numbers[i] !in numbers[..j];
      assert i > j ==> numbers[j] < numbers[i];
    }
  }
}
