/** What the two readers of unified diffs make of a rendered script: each is an inverse of rendering,
    and they agree. */
module DiffRoundTrips {
  import opened Text
  import opened DiffReaders
  import opened DiffRendering

  // ---------------------------------------------------------------- what the first reader reads

  predicate Between(n: nat, low: nat, high: nat) {
    low <= n < high
  }

  /** The numbers from low up to, not including, high. */
  function Numbers(low: nat, high: nat): set<nat> {
    set n: nat | low <= n < high && Between(n, low, high)
  }

  lemma PrefixCons(c: char, prefix: string, s: string)
    ensures StartsWith([c] + s, [c] + prefix) <==> StartsWith(s, prefix)
  {
    if StartsWith([c] + s, [c] + prefix) {
      assert s == ([c] + s)[1..] && prefix == ([c] + prefix)[1..];
    }
  }

  /** Deleted lines whose text starts with two dashes: they are rendered like a file header. */
  function DashedDeletes(edits: seq<Edit>): nat {
    if edits == [] then 0
    else (if edits[0].Delete? && StartsWith(edits[0].text, "--") then 1 else 0) + DashedDeletes(edits[1..])
  }

  predicate NoDashedDelete(script: seq<Segment>) {
    forall i :: 0 <= i < |script| ==> DashedDeletes(script[i].edits) == 0
  }

  /** What matters of a hunk to the numbers read from it. */
  datatype Shape = Shape(gap: nat, rights: nat, dashed: nat)

  function ShapeOf(segment: Segment): Shape {
    Shape(|segment.gap|, |NewTexts(segment.edits)|, DashedDeletes(segment.edits))
  }

  function Consecutive(low: nat, count: nat): (s: seq<nat>)
    ensures |s| == count && forall i :: 0 <= i < count ==> s[i] == low + i
  {
    seq(count, i requires 0 <= i < count => low + i)
  }

  /** New-file numbers of the lines that the hunks keep or add, in order. */
  function RightNumbers(shapes: seq<Shape>, newBefore: nat): seq<nat> {
    if shapes == [] then []
    else
      var newAt := newBefore + shapes[0].gap;
      Consecutive(newAt + 1, shapes[0].rights) + RightNumbers(shapes[1..], newAt + shapes[0].rights)
  }

  /** The numbers that the hunks cover. */
  function Covered(shapes: seq<Shape>, newBefore: nat): set<nat> {
    if shapes == [] then {}
    else
      var newAt := newBefore + shapes[0].gap;
      Numbers(newAt + 1, newAt + 1 + shapes[0].rights) + Covered(shapes[1..], newAt + shapes[0].rights)
  }

  /** What the reader claims: every hunk's numbers, and one more for each dashed delete. */
  function Claimed(shapes: seq<Shape>, newBefore: nat): set<nat> {
    if shapes == [] then {}
    else
      var newAt := newBefore + shapes[0].gap;
      var start := RangeStart(newAt, shapes[0].rights);
      Numbers(start, start + shapes[0].rights + shapes[0].dashed) + Claimed(shapes[1..], newAt + shapes[0].rights)
  }

  /** What a rendered edit means to the reader: a dashed delete is counted. */
  function EditKind(e: Edit): LineKind {
    match e
    case Keep(_) => Counted
    case Add(_) => Counted
    case Delete(text) => if StartsWith(text, "--") then Counted else Skipped
    case NoNewline => Skipped
  }

  /** The values of a script's lines, when headers and edits are read by themselves. */
  function ScriptValues<B>(onHeader: (nat, nat) -> B, onEdit: Edit -> B, script: seq<Segment>, newBefore: nat): seq<B> {
    if script == [] then []
    else
      var newAt := newBefore + |script[0].gap|;
      var count := |NewTexts(script[0].edits)|;
      [onHeader(newAt, count)]
      + (Each(onEdit, script[0].edits) + ScriptValues(onHeader, onEdit, script[1..], newAt + count))
  }

  lemma OpenEach<A, B>(f: A -> B, xs: seq<A>, rest: seq<B>)
    requires xs != []
    ensures Each(f, xs) + rest == [f(xs[0])] + (Each(f, xs[1..]) + rest)
  {
  }

  lemma {:induction false} EachHunk<B>(
      read: string -> B, onEdit: Edit -> B, header: string, edits: seq<Edit>, rest: seq<string>)
    requires forall e :: read(RenderEdit(e)) == onEdit(e)
    ensures Each(read, [header] + (Each(RenderEdit, edits) + rest))
         == [read(header)] + (Each(onEdit, edits) + Each(read, rest))
  {
  }

  lemma HunkValues<B>(
      read: string -> B, onHeader: (nat, nat) -> B, onEdit: Edit -> B,
      header: HeaderRenderer, s: Segment, oldBefore: nat, newBefore: nat, rest: seq<string>)
    requires forall a, b, c, d, heading :: read(header(a, b, c, d, heading)) == onHeader(c, d)
    requires forall e :: read(RenderEdit(e)) == onEdit(e)
    ensures Each(read, RenderHunk(header, s, oldBefore, newBefore, rest))
         == [onHeader(newBefore + |s.gap|, |NewTexts(s.edits)|)] + (Each(onEdit, s.edits) + Each(read, rest))
  {
    var own := header(oldBefore + |s.gap|, |OldTexts(s.edits)|, newBefore + |s.gap|, |NewTexts(s.edits)|, s.heading);
    EachHunk(read, onEdit, own, s.edits, rest);
  }

  /** The values of a script from those of its later segments. */
  lemma OpenValues<B>(
      onHeader: (nat, nat) -> B, onEdit: Edit -> B, script: seq<Segment>, newBefore: nat, newAt: nat, count: nat,
      newNext: nat, later: seq<B>, values: seq<B>)
    requires script != [] && newAt == newBefore + |script[0].gap| && count == |NewTexts(script[0].edits)|
    requires newNext == newAt + count
    requires later == ScriptValues(onHeader, onEdit, script[1..], newNext)
    requires values == ScriptValues(onHeader, onEdit, script, newBefore)
    ensures values == [onHeader(newAt, count)] + (Each(onEdit, script[0].edits) + later)
  {
  }

  lemma OpenHunks(header: HeaderRenderer, script: seq<Segment>, oldBefore: nat, newBefore: nat, oldNext: nat,
                  newNext: nat, rest: seq<string>)
    requires script != []
    requires oldNext == oldBefore + |script[0].gap| + |OldTexts(script[0].edits)|
    requires newNext == newBefore + |script[0].gap| + |NewTexts(script[0].edits)|
    requires rest == RenderHunks(header, script[1..], oldNext, newNext)
    ensures RenderHunks(header, script, oldBefore, newBefore)
         == RenderHunk(header, script[0], oldBefore, newBefore, rest)
  {
  }

  lemma {:induction false} EachHunks<B>(
      read: string -> B, onHeader: (nat, nat) -> B, onEdit: Edit -> B, header: HeaderRenderer,
      script: seq<Segment>, oldBefore: nat, newBefore: nat, lines: seq<string>, values: seq<B>)
    requires forall a, b, c, d, heading :: read(header(a, b, c, d, heading)) == onHeader(c, d)
    requires forall e :: read(RenderEdit(e)) == onEdit(e)
    requires lines == RenderHunks(header, script, oldBefore, newBefore)
    requires values == ScriptValues(onHeader, onEdit, script, newBefore)
    ensures Each(read, lines) == values
    decreases script
  {
    if script == [] {
      assert Each(read, lines) == [];
    } else {
      var s := script[0];
      var oldNext := oldBefore + |s.gap| + |OldTexts(s.edits)|;
      var newNext := newBefore + |s.gap| + |NewTexts(s.edits)|;
      var rest := RenderHunks(header, script[1..], oldNext, newNext);
      var later := ScriptValues(onHeader, onEdit, script[1..], newNext);
      EachHunks(read, onHeader, onEdit, header, script[1..], oldNext, newNext, rest, later);
      OpenHunks(header, script, oldBefore, newBefore, oldNext, newNext, rest);
      HunkValues(read, onHeader, onEdit, header, s, oldBefore, newBefore, rest);
      OpenValues(onHeader, onEdit, script, newBefore, newBefore + |s.gap|, |NewTexts(s.edits)|, newNext, later, values);
    }
  }

  function HeaderKind(newAt: nat, count: nat): LineKind {
    Header(RangeStart(newAt, count))
  }

  lemma EditIsRead(e: Edit)
    ensures KindOf(RenderEdit(e)) == EditKind(e)
  {
    if e.Delete? {
      PrefixCons('-', "--", e.text);
      assert RenderEdit(e) == ['-'] + e.text && OLD_FILE == ['-'] + "--";
      assert RenderEdit(e)[..1] == "-";
    }
    assert RenderEdit(e)[0] != '@';
  }

  lemma KindFromStart(line: string, start: nat)
    requires HeaderStart(line) == Some(Decimal(start))
    ensures KindOf(line) == Header(start)
  {
    DecimalRoundTrip(start);
  }

  lemma HeaderIsRead(oldBefore: nat, oldCount: nat, newBefore: nat, newCount: nat, heading: string)
    ensures KindOf(RenderHeader(oldBefore, oldCount, newBefore, newCount, heading))
         == Header(RangeStart(newBefore, newCount))
  {
    var line := RenderHeader(oldBefore, oldCount, newBefore, newCount, heading);
    var start := RangeStart(newBefore, newCount);
    HeaderReadBack(oldBefore, oldCount, newBefore, newCount, heading);
    KindFromStart(line, start);
  }

  lemma KindsOfScript(script: seq<Segment>)
    ensures Each(KindOf, RenderHunks(RenderHeader, script, 0, 0)) == ScriptValues(HeaderKind, EditKind, script, 0)
  {
    forall a, b, c, d, heading
      ensures KindOf(RenderHeader(a, b, c, d, heading)) == HeaderKind(c, d)
    {
      HeaderIsRead(a, b, c, d, heading);
    }
    forall e
      ensures KindOf(RenderEdit(e)) == EditKind(e)
    {
      EditIsRead(e);
    }
    EachHunks(KindOf, HeaderKind, EditKind, RenderHeader, script, 0, 0, RenderHunks(RenderHeader, script, 0, 0),
              ScriptValues(HeaderKind, EditKind, script, 0));
  }

  lemma {:induction false} CountsEdits(edits: seq<Edit>, rest: seq<LineKind>, current: nat)
    ensures CountedNumbers(Each(EditKind, edits) + rest, Some(current))
         == Numbers(current, current + |NewTexts(edits)| + DashedDeletes(edits))
          + CountedNumbers(rest, Some(current + |NewTexts(edits)| + DashedDeletes(edits)))
  {
    if edits == [] {
      assert Each(EditKind, edits) + rest == rest;
    } else {
      assert (Each(EditKind, edits) + rest)[1..] == Each(EditKind, edits[1..]) + rest;
      CountsEdits(edits[1..], rest, if EditKind(edits[0]).Counted? then current + 1 else current);
    }
  }

  /** The numbers in the order in which they are recorded. */
  function OrderedNumbers(kinds: seq<LineKind>, current: Option<nat>): seq<nat> {
    if kinds == [] then []
    else if kinds[0].Header? then OrderedNumbers(kinds[1..], Some(kinds[0].start))
    else if current.None? || kinds[0].Skipped? then OrderedNumbers(kinds[1..], current)
    else [current.value] + OrderedNumbers(kinds[1..], Some(current.value + 1))
  }

  lemma {:induction false} OrderedAreCounted(kinds: seq<LineKind>, current: Option<nat>)
    ensures CountedNumbers(kinds, current) == (set n | n in OrderedNumbers(kinds, current))
    decreases kinds
  {
    if kinds != [] {
      if kinds[0].Header? {
        OrderedAreCounted(kinds[1..], Some(kinds[0].start));
      } else if current.None? || kinds[0].Skipped? {
        OrderedAreCounted(kinds[1..], current);
      } else {
        OrderedAreCounted(kinds[1..], Some(current.value + 1));
      }
    }
  }

  lemma OrderedNext(kind: LineKind, rest: seq<LineKind>, current: nat)
    requires !kind.Header?
    ensures OrderedNumbers([kind] + rest, Some(current))
         == if kind.Counted? then [current] + OrderedNumbers(rest, Some(current + 1))
            else OrderedNumbers(rest, Some(current))
  {
    assert ([kind] + rest)[1..] == rest;
  }

  lemma ConsecutiveNext(low: nat, count: nat, rest: seq<nat>)
    ensures [low] + (Consecutive(low + 1, count) + rest) == Consecutive(low, count + 1) + rest
    ensures Consecutive(low, 0) + rest == rest
  {
  }

  /** An edit is counted exactly when it has a text of the new file. */
  lemma CountedText(edits: seq<Edit>)
    requires edits != [] && DashedDeletes(edits) == 0
    ensures DashedDeletes(edits[1..]) == 0 && !EditKind(edits[0]).Header?
    ensures |NewTexts(edits)| == |NewTexts(edits[1..])| + if EditKind(edits[0]).Counted? then 1 else 0
  {
  }

  lemma {:induction false} OrderedEdits(
      edits: seq<Edit>, rest: seq<LineKind>, current: nat, count: nat, finish: nat, later: seq<nat>)
    requires DashedDeletes(edits) == 0 && count == |NewTexts(edits)| && finish == current + count
    requires later == OrderedNumbers(rest, Some(finish))
    ensures OrderedNumbers(Each(EditKind, edits) + rest, Some(current)) == Consecutive(current, count) + later
    decreases edits
  {
    if edits == [] {
      assert Each(EditKind, edits) + rest == rest;
      ConsecutiveNext(current, 0, later);
    } else {
      var kind := EditKind(edits[0]);
      OpenEach(EditKind, edits, rest);
      CountedText(edits);
      OrderedNext(kind, Each(EditKind, edits[1..]) + rest, current);
      if kind.Counted? {
        OrderedEdits(edits[1..], rest, current + 1, count - 1, finish, later);
        ConsecutiveNext(current, count - 1, later);
      } else {
        OrderedEdits(edits[1..], rest, current, count, finish, later);
      }
    }
  }

  lemma OrderedHunk(edits: seq<Edit>, rest: seq<LineKind>, newAt: nat, current: Option<nat>)
    requires DashedDeletes(edits) == 0
    ensures OrderedNumbers([HeaderKind(newAt, |NewTexts(edits)|)] + (Each(EditKind, edits) + rest), current)
         == Consecutive(newAt + 1, |NewTexts(edits)|)
          + OrderedNumbers(rest, Some(RangeStart(newAt, |NewTexts(edits)|) + |NewTexts(edits)|))
  {
    var start, kinds := RangeStart(newAt, |NewTexts(edits)|), Each(EditKind, edits) + rest;
    assert ([Header(start)] + kinds)[1..] == kinds;
    var count := |NewTexts(edits)|;
    OrderedEdits(edits, rest, start, count, start + count, OrderedNumbers(rest, Some(start + count)));
    assert Consecutive(start, |NewTexts(edits)|) == Consecutive(newAt + 1, |NewTexts(edits)|);
  }

  lemma OpenKinds(script: seq<Segment>, newBefore: nat, newAt: nat, count: nat)
    requires script != [] && newAt == newBefore + |script[0].gap| && count == |NewTexts(script[0].edits)|
    ensures ScriptValues(HeaderKind, EditKind, script, newBefore)
         == [HeaderKind(newAt, count)]
          + (Each(EditKind, script[0].edits) + ScriptValues(HeaderKind, EditKind, script[1..], newAt + count))
  {
    OpenValues(HeaderKind, EditKind, script, newBefore, newAt, count, newAt + count,
               ScriptValues(HeaderKind, EditKind, script[1..], newAt + count),
               ScriptValues(HeaderKind, EditKind, script, newBefore));
  }

  lemma OpenNumbers(script: seq<Segment>, newBefore: nat, newAt: nat, count: nat)
    requires script != [] && newAt == newBefore + |script[0].gap| && count == |NewTexts(script[0].edits)|
    ensures RightNumbers(Each(ShapeOf, script), newBefore)
         == Consecutive(newAt + 1, count) + RightNumbers(Each(ShapeOf, script[1..]), newAt + count)
  {
    var shapes := Each(ShapeOf, script);
    assert shapes[0] == ShapeOf(script[0]) && shapes[1..] == Each(ShapeOf, script[1..]);
  }

  lemma {:induction false} OrderedScript(script: seq<Segment>, newBefore: nat, current: Option<nat>)
    requires NoDashedDelete(script)
    ensures OrderedNumbers(ScriptValues(HeaderKind, EditKind, script, newBefore), current)
         == RightNumbers(Each(ShapeOf, script), newBefore)
    decreases script
  {
    if script == [] {
      assert Each(ShapeOf, script) == [];
    } else {
      var edits, newAt := script[0].edits, newBefore + |script[0].gap|;
      var count := |NewTexts(edits)|;
      OpenKinds(script, newBefore, newAt, count);
      OpenNumbers(script, newBefore, newAt, count);
      NoDashedLater(script);
      OrderedScript(script[1..], newAt + count, Some(RangeStart(newAt, count) + count));
      OrderedHunk(edits, ScriptValues(HeaderKind, EditKind, script[1..], newAt + count), newAt, current);
    }
  }

  lemma NoDashedLater(script: seq<Segment>)
    requires script != []
    ensures NoDashedDelete(script) ==> DashedDeletes(script[0].edits) == 0 && NoDashedDelete(script[1..])
    ensures Each(ShapeOf, script)[1..] == Each(ShapeOf, script[1..])
  {
    assert forall i :: 0 <= i < |script[1..]| ==> script[1..][i] == script[i + 1];
  }

  /** Without dashed deletes the numbers are recorded in increasing order, each of them once, whether
      or not hunks are apart. */
  lemma OrderedPatch(fileHeader: Option<(string, string)>, script: seq<Segment>)
    requires OneLineTexts(fileHeader, script) && NoDashedDelete(script)
    ensures OrderedNumbers(Each(KindOf, RenderLines(fileHeader, script)), None)
         == RightNumbers(Each(ShapeOf, script), 0)
  {
    var hunks := RenderHunks(RenderHeader, script, 0, 0);
    KindsOfScript(script);
    OrderedScript(script, 0, None);
    if fileHeader.Some? {
      FileHeaderKinds(fileHeader.value.0, fileHeader.value.1, hunks);
    } else {
      assert RenderLines(fileHeader, script) == hunks;
    }
  }

  lemma FileHeaderLines(oldName: string, newName: string)
    ensures !KindOf(OLD_FILE_OPEN + oldName).Header? && !KindOf(NEW_FILE_OPEN + newName).Header?
    ensures Reviewed(OLD_FILE_OPEN + oldName) == None && Reviewed(NEW_FILE_OPEN + newName) == None
  {
    var oldLine, newLine := OLD_FILE_OPEN + oldName, NEW_FILE_OPEN + newName;
    assert oldLine[0] == '-' && newLine[0] == '+';
    assert OLD_FILE_OPEN[..3] == OLD_FILE && NEW_FILE_OPEN[..3] == NEW_FILE;
    assert oldLine[..3] == OLD_FILE && newLine[..3] == NEW_FILE;
  }

  /** On every script the reader returns exactly the claimed numbers. */
  lemma {:induction false} CountsScript(script: seq<Segment>, newBefore: nat, current: Option<nat>)
    ensures CountedNumbers(ScriptValues(HeaderKind, EditKind, script, newBefore), current)
         == Claimed(Each(ShapeOf, script), newBefore)
  {
    if script != [] {
      var edits := script[0].edits;
      var newAt := newBefore + |script[0].gap|;
      var count := |NewTexts(edits)|;
      var rest := ScriptValues(HeaderKind, EditKind, script[1..], newAt + count);
      assert ScriptValues(HeaderKind, EditKind, script, newBefore)[1..] == Each(EditKind, edits) + rest;
      assert Each(ShapeOf, script)[1..] == Each(ShapeOf, script[1..]);
      CountsEdits(edits, rest, RangeStart(newAt, count));
      CountsScript(script[1..], newAt + count, Some(RangeStart(newAt, count) + count + DashedDeletes(edits)));
    }
  }

  lemma ReadsPatch(fileHeader: Option<(string, string)>, script: seq<Segment>)
    requires OneLineTexts(fileHeader, script)
    ensures RightSideDiffLines(Render(fileHeader, script)) == Claimed(Each(ShapeOf, script), 0)
  {
    RenderSplits(fileHeader, script);
    KindsOfScript(script);
    CountsScript(script, 0, None);
    if fileHeader.Some? {
      FileHeaderKinds(fileHeader.value.0, fileHeader.value.1, RenderHunks(RenderHeader, script, 0, 0));
    } else {
      assert RenderLines(fileHeader, script) == RenderHunks(RenderHeader, script, 0, 0);
    }
  }

  lemma FileHeaderKinds(oldName: string, newName: string, hunks: seq<string>)
    ensures CountedNumbers(Each(KindOf, [OLD_FILE_OPEN + oldName, NEW_FILE_OPEN + newName] + hunks), None)
         == CountedNumbers(Each(KindOf, hunks), None)
    ensures OrderedNumbers(Each(KindOf, [OLD_FILE_OPEN + oldName, NEW_FILE_OPEN + newName] + hunks), None)
         == OrderedNumbers(Each(KindOf, hunks), None)
  {
    var lines := [OLD_FILE_OPEN + oldName, NEW_FILE_OPEN + newName] + hunks;
    assert lines[0][0] == '-' && lines[1][0] == '+';
    assert !KindOf(lines[0]).Header? && !KindOf(lines[1]).Header?;
    assert Each(KindOf, lines)[1..][1..] == Each(KindOf, hunks);
  }

  lemma {:induction false} NumbersIncrease(shapes: seq<Shape>, newBefore: nat)
    ensures forall i :: 0 <= i < |RightNumbers(shapes, newBefore)| ==> RightNumbers(shapes, newBefore)[i] > newBefore
    ensures forall i, j :: 0 <= i < j < |RightNumbers(shapes, newBefore)| ==>
              RightNumbers(shapes, newBefore)[i] < RightNumbers(shapes, newBefore)[j]
  {
    if shapes != [] {
      NumbersIncrease(shapes[1..], newBefore + shapes[0].gap + shapes[0].rights);
    }
  }

  lemma {:induction false} NumbersCount(script: seq<Segment>, newBefore: nat)
    ensures |RightNumbers(Each(ShapeOf, script), newBefore)| == |RightTexts(script)|
  {
    if script != [] {
      assert Each(ShapeOf, script)[1..] == Each(ShapeOf, script[1..]);
      NumbersCount(script[1..], newBefore + |script[0].gap| + |NewTexts(script[0].edits)|);
    }
  }

  lemma {:induction false} NumbersLookUp(
      script: seq<Segment>, tail: seq<string>, before: seq<string>, i: nat,
      numbers: seq<nat>, texts: seq<string>, file: seq<string>)
    requires numbers == RightNumbers(Each(ShapeOf, script), |before|) && texts == RightTexts(script)
    requires file == before + NewFile(script, tail) && i < |numbers| == |texts|
    ensures |before| < numbers[i] <= |file| && file[numbers[i] - 1] == texts[i]
  {
    assert script != [];
    var own := NewTexts(script[0].edits);
    var newAt, next := |before| + |script[0].gap|, before + script[0].gap + own;
    var laterNumbers := RightNumbers(Each(ShapeOf, script[1..]), |next|);
    var laterTexts, laterFile := RightTexts(script[1..]), next + NewFile(script[1..], tail);
    OpenNumbers(script, |before|, newAt, |own|);
    OpenFile(script, tail, before, next);
    NumbersCount(script[1..], |next|);
    if i < |own| {
      assert numbers[i] == newAt + 1 + i && texts[i] == own[i] && file[newAt + i] == own[i];
    } else {
      NumbersLookUp(script[1..], tail, next, i - |own|, laterNumbers, laterTexts, laterFile);
      assert numbers[i] == laterNumbers[i - |own|] && texts[i] == laterTexts[i - |own|];
    }
  }

  lemma OpenFile(script: seq<Segment>, tail: seq<string>, before: seq<string>, next: seq<string>)
    requires script != [] && next == before + script[0].gap + NewTexts(script[0].edits)
    ensures before + NewFile(script, tail) == next + NewFile(script[1..], tail)
  {
  }

  /** The new-file texts inside the hunks. */
  function RightTexts(script: seq<Segment>): seq<string> {
    if script == [] then [] else NewTexts(script[0].edits) + RightTexts(script[1..])
  }

  lemma {:induction false} CoveredIsNumbers(shapes: seq<Shape>, newBefore: nat)
    ensures forall n :: n in Covered(shapes, newBefore) <==> n in RightNumbers(shapes, newBefore)
  {
    if shapes != [] {
      CoveredIsNumbers(shapes[1..], newBefore + shapes[0].gap + shapes[0].rights);
      ConsecutiveNumbers(newBefore + shapes[0].gap + 1, shapes[0].rights);
    }
  }

  lemma ConsecutiveNumbers(low: nat, count: nat)
    ensures forall n :: n in Numbers(low, low + count) <==> n in Consecutive(low, count)
  {
    forall n | n in Numbers(low, low + count)
      ensures n in Consecutive(low, count)
    {
      assert Consecutive(low, count)[n - low] == n;
    }
  }

  lemma {:induction false} ShapeBounds(shapes: seq<Shape>, newBefore: nat)
    ensures forall n :: n in Claimed(shapes, newBefore) ==> n >= newBefore + (if shapes == [] then 0 else shapes[0].gap)
    ensures forall n :: n in Covered(shapes, newBefore) ==> n > newBefore + (if shapes == [] then 0 else shapes[0].gap)
  {
    if shapes != [] {
      ShapeBounds(shapes[1..], newBefore + shapes[0].gap + shapes[0].rights);
    }
  }

  /** One hunk: its own claim is right only without dashed deletes, because the extra number lies
      outside everything that later hunks cover. */
  lemma HunkClaim(newAt: nat, count: nat, dashed: nat, claimed: set<nat>, covered: set<nat>,
                  claims: set<nat>, covers: set<nat>)
    requires forall n :: n in claimed ==> n > newAt + count
    requires forall n :: n in covered ==> n > newAt + count + 1
    requires var start := RangeStart(newAt, count); claims == Numbers(start, start + count + dashed) + claimed
    requires covers == Numbers(newAt + 1, newAt + 1 + count) + covered
    ensures claims == covers <==> dashed == 0 && claimed == covered
  {
    var start := RangeStart(newAt, count);
    if dashed > 0 {
      assert start + count in Numbers(start, start + count + dashed);
      assert start + count !in Numbers(newAt + 1, newAt + 1 + count) + covered;
    } else {
      assert Numbers(start, start + count) == Numbers(newAt + 1, newAt + 1 + count);
      SplitsAt(Numbers(newAt + 1, newAt + 1 + count), claimed, covered, newAt + count);
    }
  }

  predicate Undashed(shapes: seq<Shape>) {
    forall i :: 0 <= i < |shapes| ==> shapes[i].dashed == 0
  }

  lemma UndashedSplits(shapes: seq<Shape>)
    requires shapes != []
    ensures Undashed(shapes) <==> shapes[0].dashed == 0 && Undashed(shapes[1..])
  {
    assert forall i :: 0 <= i < |shapes[1..]| ==> shapes[1..][i] == shapes[i + 1];
  }

  /** The first hunk and the later ones. */
  lemma OpenShapes(shapes: seq<Shape>, newBefore: nat, newAt: nat, next: nat, claimed: set<nat>, covered: set<nat>)
    requires shapes != [] && newAt == newBefore + shapes[0].gap && next == newAt + shapes[0].rights
    requires claimed == Claimed(shapes[1..], next) && covered == Covered(shapes[1..], next)
    ensures var start, count := RangeStart(newAt, shapes[0].rights), shapes[0].rights;
            && Claimed(shapes, newBefore) == Numbers(start, start + count + shapes[0].dashed) + claimed
            && Covered(shapes, newBefore) == Numbers(newAt + 1, newAt + 1 + count) + covered
  {
  }

  lemma {:induction false} ClaimedIsCovered(shapes: seq<Shape>, newBefore: nat, claims: set<nat>, covers: set<nat>)
    requires forall i :: 0 < i < |shapes| ==> shapes[i].gap > 0
    requires claims == Claimed(shapes, newBefore) && covers == Covered(shapes, newBefore)
    ensures claims == covers <==> Undashed(shapes)
    decreases shapes
  {
    if shapes != [] {
      var newAt := newBefore + shapes[0].gap;
      var next := newAt + shapes[0].rights;
      var claimed, covered := Claimed(shapes[1..], next), Covered(shapes[1..], next);
      ClaimedIsCovered(shapes[1..], next, claimed, covered);
      ShapeBounds(shapes[1..], next);
      OpenShapes(shapes, newBefore, newAt, next, claimed, covered);
      HunkClaim(newAt, shapes[0].rights, shapes[0].dashed, claimed, covered, claims, covers);
      UndashedSplits(shapes);
    }
  }

  lemma SplitsAt(low: set<nat>, a: set<nat>, b: set<nat>, at: nat)
    requires forall n :: n in low ==> n <= at
    requires forall n :: n in a + b ==> n > at
    ensures low + a == low + b <==> a == b
  {
    if low + a == low + b {
      forall n
        ensures n in a <==> n in b
      {
        assert n in low + a <==> n in low + b;
        assert n in a + b ==> n !in low;
      }
    }
  }

  /** Round trip: the reader returns exactly the new-file numbers of the kept and added lines,
      and it does so if and only if no deleted text starts with two dashes. */
  lemma RightSideRoundTrip(fileHeader: Option<(string, string)>, script: seq<Segment>)
    requires OneLineTexts(fileHeader, script) && Apart(script)
    ensures RightSideDiffLines(Render(fileHeader, script)) == (set n | n in RightNumbers(Each(ShapeOf, script), 0))
       <==> NoDashedDelete(script)
  {
    ReadsPatch(fileHeader, script);
    var shapes := Each(ShapeOf, script);
    ClaimedIsCovered(shapes, 0, Claimed(shapes, 0), Covered(shapes, 0));
    CoveredIsNumbers(shapes, 0);
    assert forall i :: 0 <= i < |script| ==> shapes[i] == ShapeOf(script[i]);
  }

  /** Deleting the second of two lines, when it starts with "--" (an SQL or Lua comment), makes the
      reader accept line 2 of a new file that has one line. */
  lemma DashedDeleteMisleads(kept: string, deleted: string)
    requires '\n' !in kept && '\n' !in deleted && StartsWith(deleted, "--")
    ensures var script := [Segment([], [Keep(kept), Delete(deleted)], "")];
            NewFile(script, []) == [kept] && 2 in RightSideDiffLines(Render(None, script))
  {
    var edits := [Keep(kept), Delete(deleted)];
    var script := [Segment([], edits, "")];
    assert OneLineEdit(edits[0]) && OneLineEdit(edits[1]);
    DashedShape(kept, deleted);
    OneSegment(Segment([], edits, ""));
    ReadsPatch(None, script);
    ClaimsTwo(Each(ShapeOf, script));
  }

  lemma DashedShape(kept: string, deleted: string)
    requires StartsWith(deleted, "--")
    ensures NewTexts([Keep(kept), Delete(deleted)]) == [kept]
    ensures DashedDeletes([Keep(kept), Delete(deleted)]) == 1
  {
    var edits := [Keep(kept), Delete(deleted)];
    assert edits[1..] == [Delete(deleted)] && [Delete(deleted)][1..] == [];
    assert NewTexts([Delete(deleted)]) == [] && DashedDeletes([Delete(deleted)]) == 1;
  }

  lemma OneSegment(s: Segment)
    requires s.gap == []
    ensures NewFile([s], []) == NewTexts(s.edits)
    ensures Each(ShapeOf, [s]) == [Shape(0, |NewTexts(s.edits)|, DashedDeletes(s.edits))]
  {
    assert [s][1..] == [] && NewFile([], []) == [];
    assert [] + NewTexts(s.edits) + [] == NewTexts(s.edits);
    assert Each(ShapeOf, [s])[0] == ShapeOf(s);
  }

  lemma ClaimsTwo(shapes: seq<Shape>)
    requires shapes == [Shape(0, 1, 1)]
    ensures 2 in Claimed(shapes, 0)
  {
    assert 2 in Numbers(1, 3);
  }

  // ---------------------------------------------------------------- what the second reader reads

  function PlusedAdds(edits: seq<Edit>): nat {
    if edits == [] then 0
    else (if edits[0].Add? && StartsWith(edits[0].text, "++") then 1 else 0) + PlusedAdds(edits[1..])
  }

  predicate NoPlusedAdd(script: seq<Segment>) {
    forall i :: 0 <= i < |script| ==> PlusedAdds(script[i].edits) == 0
  }

  function EditReview(e: Edit): Option<string> {
    match e
    case Keep(text) => Some(text)
    case Add(text) => if StartsWith(text, "++") then None else Some(text)
    case _ => None
  }

  function HeaderReview(newAt: nat, count: nat): Option<string> {
    None
  }

  lemma EditIsReviewed(e: Edit)
    ensures Reviewed(RenderEdit(e)) == EditReview(e)
  {
    var line := RenderEdit(e);
    match e {
      case Keep(text) =>
        assert line[0] == ' ' && line[..1] == " " && line[1..] == text;
      case Add(text) =>
        PrefixCons('+', "++", text);
        assert line == ['+'] + text && NEW_FILE == ['+'] + "++";
        assert line[0] == '+' && line[..1] == "+" && line[1..] == text;
      case Delete(text) =>
        assert line[..1] == "-";
      case NoNewline =>
    }
  }

  lemma ReviewsScript(script: seq<Segment>)
    ensures Each(Reviewed, RenderHunks(RenderHeader, script, 0, 0)) == ScriptValues(HeaderReview, EditReview, script, 0)
  {
    forall a, b, c, d, heading
      ensures Reviewed(RenderHeader(a, b, c, d, heading)) == None
    {
      assert HUNK_OPEN[..2] == HUNK;
    }
    forall e
      ensures Reviewed(RenderEdit(e)) == EditReview(e)
    {
      EditIsReviewed(e);
    }
    EachHunks(Reviewed, HeaderReview, EditReview, RenderHeader, script, 0, 0, RenderHunks(RenderHeader, script, 0, 0),
              ScriptValues(HeaderReview, EditReview, script, 0));
  }

  lemma {:induction false} PresentEdits(edits: seq<Edit>)
    ensures |Present(Each(EditReview, edits))| == |NewTexts(edits)| - PlusedAdds(edits)
    ensures PlusedAdds(edits) == 0 ==> Present(Each(EditReview, edits)) == NewTexts(edits)
  {
    if edits != [] {
      PresentEdits(edits[1..]);
      assert Each(EditReview, edits)[1..] == Each(EditReview, edits[1..]);
    }
  }

  lemma PresentOpens(values: seq<Option<string>>)
    ensures Present([None] + values) == Present(values)
  {
  }

  lemma PlusedSplits(script: seq<Segment>)
    requires script != []
    ensures NoPlusedAdd(script) <==> PlusedAdds(script[0].edits) == 0 && NoPlusedAdd(script[1..])
  {
    assert forall i :: 0 <= i < |script[1..]| ==> script[1..][i] == script[i + 1];
  }

  lemma {:induction false} PresentScript(script: seq<Segment>, newBefore: nat)
    ensures var texts := Present(ScriptValues(HeaderReview, EditReview, script, newBefore));
            && |texts| <= |RightTexts(script)|
            && (NoPlusedAdd(script) ==> texts == RightTexts(script))
            && (!NoPlusedAdd(script) ==> |texts| < |RightTexts(script)|)
  {
    if script != [] {
      var newAt, count := newBefore + |script[0].gap|, |NewTexts(script[0].edits)|;
      var next := newAt + count;
      var rest := ScriptValues(HeaderReview, EditReview, script[1..], next);
      var values := ScriptValues(HeaderReview, EditReview, script, newBefore);
      OpenValues(HeaderReview, EditReview, script, newBefore, newAt, count, next, rest, values);
      PresentOpens(Each(EditReview, script[0].edits) + rest);
      PresentEdits(script[0].edits);
      PresentConcat(Each(EditReview, script[0].edits), rest);
      PresentScript(script[1..], next);
      PlusedSplits(script);
    }
  }

  /** The reviewable lines are the new-file texts of the hunks if and only if no added text starts
      with two pluses. */
  lemma ReviewableRoundTrip(fileHeader: Option<(string, string)>, script: seq<Segment>)
    requires OneLineTexts(fileHeader, script)
    ensures ReviewableLines(Render(fileHeader, script)) == RightTexts(script) <==> NoPlusedAdd(script)
  {
    RenderSplits(fileHeader, script);
    ReviewsScript(script);
    PresentScript(script, 0);
    if fileHeader.Some? {
      FileHeaderReviews(fileHeader.value.0, fileHeader.value.1, RenderHunks(RenderHeader, script, 0, 0));
    } else {
      assert RenderLines(fileHeader, script) == RenderHunks(RenderHeader, script, 0, 0);
    }
  }

  /** Adding a line that starts with "++" (an increment, say): the new file has it, the reviewable text
      has not. */
  lemma PlusedAddIsDropped(kept: string, added: string)
    requires '\n' !in kept && '\n' !in added && StartsWith(added, "++")
    ensures var script := [Segment([], [Keep(kept), Add(added)], "")];
            NewFile(script, []) == [kept, added] && ReviewableLines(Render(None, script)) == [kept]
  {
    var edits := [Keep(kept), Add(added)];
    var script := [Segment([], edits, "")];
    assert OneLineEdit(edits[0]) && OneLineEdit(edits[1]);
    PlusedTexts(edits, kept, added);
    RenderSplits(None, script);
    ReviewsScript(script);
    assert RenderLines(None, script) == RenderHunks(RenderHeader, script, 0, 0);
    ReviewsOneHunk(script);
    assert NewFile(script, []) == [] + NewTexts(edits) + NewFile([], []);
  }

  lemma PlusedTexts(edits: seq<Edit>, kept: string, added: string)
    requires edits == [Keep(kept), Add(added)] && StartsWith(added, "++")
    ensures NewTexts(edits) == [kept, added] && Present(Each(EditReview, edits)) == [kept]
  {
    assert edits[1..] == [Add(added)] && [Add(added)][1..] == [];
    var reviews := Each(EditReview, edits);
    assert edits[0] == Keep(kept) && edits[1] == Add(added);
    assert NewTexts([Add(added)]) == [added];
    assert reviews[0] == EditReview(edits[0]) && reviews[1] == EditReview(edits[1]);
    assert reviews[0] == Some(kept) && reviews[1] == None;
    assert reviews[1..] == [None] && reviews[1..][1..] == [];
    assert Present(reviews[1..]) == [];
  }

  lemma ReviewsOneHunk(script: seq<Segment>)
    requires |script| == 1
    ensures Present(ScriptValues(HeaderReview, EditReview, script, 0)) == Present(Each(EditReview, script[0].edits))
  {
    var values, own := ScriptValues(HeaderReview, EditReview, script, 0), Each(EditReview, script[0].edits);
    assert script[1..] == [];
    var later := ScriptValues(HeaderReview, EditReview, script[1..], |script[0].gap| + |NewTexts(script[0].edits)|);
    assert later == [] && own + later == own;
    assert values[0] == None && values[1..] == own + later;
  }

  lemma FileHeaderReviews(oldName: string, newName: string, hunks: seq<string>)
    ensures Present(Each(Reviewed, [OLD_FILE_OPEN + oldName, NEW_FILE_OPEN + newName] + hunks))
         == Present(Each(Reviewed, hunks))
  {
    var lines := [OLD_FILE_OPEN + oldName, NEW_FILE_OPEN + newName] + hunks;
    assert OLD_FILE_OPEN[..3] == OLD_FILE && NEW_FILE_OPEN[..3] == NEW_FILE;
    assert lines[0][..3] == OLD_FILE && lines[1][..3] == NEW_FILE;
    assert Each(Reviewed, lines)[1..][1..] == Each(Reviewed, hunks);
    assert Reviewed(lines[0]) == None && Reviewed(lines[1]) == None;
  }

  /** The two readers agree: the numbers of the one, in increasing order, index in the new file
      exactly the lines of the other. */
  lemma ReadersAgree(fileHeader: Option<(string, string)>, script: seq<Segment>, tail: seq<string>)
    requires OneLineTexts(fileHeader, script)
    requires NoDashedDelete(script) && NoPlusedAdd(script)
    ensures var numbers := RightNumbers(Each(ShapeOf, script), 0);
            var lines := ReviewableLines(Render(fileHeader, script));
            && RightSideDiffLines(Render(fileHeader, script)) == (set n | n in numbers)
            && (forall i, j :: 0 <= i < j < |numbers| ==> numbers[i] < numbers[j])
            && |lines| == |numbers|
            && forall i :: 0 <= i < |numbers| ==>
                 0 < numbers[i] <= |NewFile(script, tail)| && lines[i] == NewFile(script, tail)[numbers[i] - 1]
  {
    RenderSplits(fileHeader, script);
    OrderedPatch(fileHeader, script);
    OrderedAreCounted(Each(KindOf, RenderLines(fileHeader, script)), None);
    ReviewableRoundTrip(fileHeader, script);
    NumbersIndex(script, tail);
  }

  lemma NumbersInFile(script: seq<Segment>, tail: seq<string>, i: nat)
    requires i < |RightNumbers(Each(ShapeOf, script), 0)| == |RightTexts(script)|
    ensures var number := RightNumbers(Each(ShapeOf, script), 0)[i];
            0 < number <= |NewFile(script, tail)| && RightTexts(script)[i] == NewFile(script, tail)[number - 1]
  {
    assert [] + NewFile(script, tail) == NewFile(script, tail);
    NumbersLookUp(script, tail, [], i, RightNumbers(Each(ShapeOf, script), 0), RightTexts(script),
        NewFile(script, tail));
  }

  /** The right-side numbers increase and index the right-side texts in the new file. */
  lemma NumbersIndex(script: seq<Segment>, tail: seq<string>)
    ensures var numbers := RightNumbers(Each(ShapeOf, script), 0);
            && |numbers| == |RightTexts(script)|
            && (forall i, j :: 0 <= i < j < |numbers| ==> numbers[i] < numbers[j])
            && forall i :: 0 <= i < |numbers| ==>
                 0 < numbers[i] <= |NewFile(script, tail)|
                   && RightTexts(script)[i] == NewFile(script, tail)[numbers[i] - 1]
  {
    NumbersIncrease(Each(ShapeOf, script), 0);
    NumbersCount(script, 0);
    var numbers := RightNumbers(Each(ShapeOf, script), 0);
    forall i | 0 <= i < |numbers|
      ensures 0 < numbers[i] <= |NewFile(script, tail)|
              && RightTexts(script)[i] == NewFile(script, tail)[numbers[i] - 1]
    {
      NumbersInFile(script, tail, i);
    }
  }
}
