/** The wire form of events: format_sse_event and the keep-alive comment, read back as a browser
    reads them (WHATWG HTML, section 9.2.6, "Interpreting an event stream"). */
module Sse {
  import opened Text
  import opened Events

  const ID := "id"
  const EVENT := "event"
  const DATA := "data"
  const KEEP_ALIVE := ": keepalive"

  /** What stream yields: an event whose JSON text is given, or a keep-alive. */
  datatype Chunk = Frame(sequence: nat, eventType: string, json: string) | KeepAlive

  function FieldLine(field: string, value: string): string {
    field + (": " + value)
  }

  /** Every line with its newline. */
  function Terminated(lines: seq<string>): string {
    if lines == [] then "" else lines[0] + ("\n" + Terminated(lines[1..]))
  }

  function ChunkLines(c: Chunk): seq<string> {
    match c
    case Frame(sequence, eventType, json) =>
      [FieldLine(ID, Decimal(sequence)), FieldLine(EVENT, eventType), FieldLine(DATA, json), ""]
    case KeepAlive => [KEEP_ALIVE, ""]
  }

  /** format_sse_event, and the comment sent when nothing happens. */
  function Format(c: Chunk): string {
    Terminated(ChunkLines(c))
  }

  function FormatAll(chunks: seq<Chunk>): string {
    if chunks == [] then "" else Format(chunks[0]) + FormatAll(chunks[1..])
  }

  lemma FourLines(a: string, b: string, c: string)
    ensures Terminated([a, b, c, ""]) == a + ("\n" + (b + ("\n" + (c + "\n\n"))))
  {
    assert [a, b, c, ""][1..] == [b, c, ""] && [b, c, ""][1..] == [c, ""];
    TwoLines(c);
    assert Terminated([b, c, ""]) == b + ("\n" + Terminated([c, ""]));
  }

  lemma TwoLines(a: string)
    ensures Terminated([a, ""]) == a + "\n\n"
  {
    assert [a, ""][1..] == [""] && [""][1..] == [];
    assert Terminated([""]) == "" + ("\n" + "") == "\n";
    assert a + ("\n" + "\n") == a + "\n\n";
  }

  lemma FieldIs(value: string)
    ensures FieldLine(ID, value) == "id: " + value && FieldLine(EVENT, value) == "event: " + value
    ensures FieldLine(DATA, value) == "data: " + value
  {
    assert "id" + (": " + value) == "id: " + value;
    assert "event" + (": " + value) == "event: " + value;
    assert "data" + (": " + value) == "data: " + value;
  }

  /** The text of an event on the wire, with its three fields, and that of a keep-alive. */
  lemma FormatIs(sequence: nat, eventType: string, json: string)
    ensures Format(Frame(sequence, eventType, json))
         == ("id: " + Decimal(sequence)) + ("\n" + (("event: " + eventType) + ("\n" + (("data: " + json) + "\n\n"))))
    ensures Format(KeepAlive) == ": keepalive" + "\n\n"
  {
    FieldIs(Decimal(sequence));
    FieldIs(eventType);
    FieldIs(json);
    FourLines("id: " + Decimal(sequence), "event: " + eventType, "data: " + json);
    TwoLines(KEEP_ALIVE);
  }

  // ---------------------------------------------------------------- interpreting a stream

  predicate IsBreak(c: char) {
    c == '\n' || c == '\r'
  }

  predicate Unbroken(s: string) {
    forall i :: 0 <= i < |s| ==> !IsBreak(s[i])
  }

  function LineLength(s: string): (n: nat)
    ensures n <= |s|
  {
    if s == "" || IsBreak(s[0]) then 0 else 1 + LineLength(s[1..])
  }

  /** The complete lines: each ends with CR LF, LF or CR; an unfinished last line is not one. */
  function Lines(s: string): seq<string>
    decreases |s|
  {
    var n := LineLength(s);
    if n == |s| then []
    else if s[n] == '\r' && n + 1 < |s| && s[n + 1] == '\n' then [s[..n]] + Lines(s[n + 2..])
    else [s[..n]] + Lines(s[n + 1..])
  }

  /** A dispatched message. */
  datatype Message = Message(eventType: string, data: string, lastEventId: string)

  datatype Buffers = Buffers(data: string, eventType: string, lastEventId: string)

  function ColonAt(line: string): (n: nat)
    ensures n <= |line|
  {
    if line == "" || line[0] == ':' then 0 else 1 + ColonAt(line[1..])
  }

  function WithoutSpace(value: string): string {
    if value != "" && value[0] == ' ' then value[1..] else value
  }

  function SetField(b: Buffers, field: string, value: string): Buffers {
    if field == EVENT then b.(eventType := value)
    else if field == DATA then b.(data := b.data + value + "\n")
    else if field == ID then if '\0' in value then b else b.(lastEventId := value)
    else b
  }

  function ReadLine(b: Buffers, line: string): Buffers {
    var n := ColonAt(line);
    if n == 0 then b
    else if n == |line| then SetField(b, line, "")
    else SetField(b, line[..n], WithoutSpace(line[n + 1..]))
  }

  function Dispatched(b: Buffers): seq<Message> {
    if b.data == "" then []
    else
      var data := if b.data[|b.data| - 1] == '\n' then b.data[..|b.data| - 1] else b.data;
      [Message(if b.eventType == "" then "message" else b.eventType, data, b.lastEventId)]
  }

  /** The messages and the last event id after reading complete lines. */
  function Interpret(lines: seq<string>, b: Buffers): (seq<Message>, string) {
    if lines == [] then ([], b.lastEventId)
    else if lines[0] == "" then
      var rest := Interpret(lines[1..], Buffers("", "", b.lastEventId));
      (Dispatched(b) + rest.0, rest.1)
    else if lines[0][0] == ':' then Interpret(lines[1..], b)
    else Interpret(lines[1..], ReadLine(b, lines[0]))
  }

  // ---------------------------------------------------------------- the round trip

  /** Event types are names and JSON text is one non-empty line. */
  predicate WellFormed(c: Chunk) {
    c.Frame? ==> c.eventType != "" && Unbroken(c.eventType) && c.json != "" && Unbroken(c.json)
  }

  lemma {:induction false} LineLengthOf(line: string, rest: string)
    requires Unbroken(line) && rest != "" && IsBreak(rest[0])
    ensures LineLength(line + rest) == |line|
  {
    if line == "" {
      assert line + rest == rest;
    } else {
      assert (line + rest)[1..] == line[1..] + rest;
      LineLengthOf(line[1..], rest);
    }
  }

  lemma LinesNext(line: string, rest: string)
    requires Unbroken(line)
    ensures Lines(line + ("\n" + rest)) == [line] + Lines(rest)
  {
    LineLengthOf(line, "\n" + rest);
    var s := line + ("\n" + rest);
    assert s[..|line|] == line && s[|line| + 1..] == rest;
  }

  lemma DecimalUnbroken(n: nat)
    ensures Unbroken(Decimal(n)) && '\0' !in Decimal(n) && Decimal(n) != "" && Decimal(n)[0] != ' '
  {
  }

  lemma {:induction false} ColonAfter(field: string, rest: string)
    requires ':' !in field && rest != "" && rest[0] == ':'
    ensures ColonAt(field + rest) == |field|
  {
    if field == "" {
      assert field + rest == rest;
    } else {
      assert (field + rest)[1..] == field[1..] + rest;
      ColonAfter(field[1..], rest);
    }
  }

  lemma ReadFieldLine(b: Buffers, field: string, value: string)
    requires field != "" && ':' !in field
    ensures ReadLine(b, FieldLine(field, value)) == SetField(b, field, value)
    ensures FieldLine(field, value) != "" && FieldLine(field, value)[0] != ':'
  {
    var line := FieldLine(field, value);
    ColonAfter(field, ": " + value);
    assert line[..|field|] == field;
    assert line[|field| + 1..] == " " + value;
    assert (" " + value)[1..] == value;
  }

  lemma Reassociate(a: string, b: string, c: string, d: string)
    ensures (a + (b + c)) + d == a + (b + (c + d))
  {
  }

  lemma HeadThenTail(lines: seq<string>, more: seq<string>)
    requires lines != []
    ensures [lines[0]] + (lines[1..] + more) == lines + more
  {
  }

  lemma {:induction false} LinesOfTerminated(lines: seq<string>, rest: string)
    requires forall l :: l in lines ==> Unbroken(l)
    ensures Lines(Terminated(lines) + rest) == lines + Lines(rest)
  {
    if lines == [] {
      assert Terminated(lines) + rest == rest;
    } else {
      var tail := Terminated(lines[1..]) + rest;
      var text := Terminated(lines) + rest;
      assert Lines(text) == [lines[0]] + Lines(tail) by {
        Reassociate(lines[0], "\n", Terminated(lines[1..]), rest);
        LinesNext(lines[0], tail);
      }
      assert Lines(tail) == lines[1..] + Lines(rest) by {
        LinesOfTerminated(lines[1..], rest);
      }
      HeadThenTail(lines, Lines(rest));
    }
  }

  lemma ChunkIsUnbroken(c: Chunk)
    requires WellFormed(c)
    ensures forall l :: l in ChunkLines(c) ==> Unbroken(l)
  {
    if c.Frame? {
      DecimalUnbroken(c.sequence);
    }
  }

  function MessageOf(c: Chunk): seq<Message> {
    if c.Frame? then [Message(c.eventType, c.json, Decimal(c.sequence))] else []
  }

  function MessagesOf(chunks: seq<Chunk>): seq<Message> {
    if chunks == [] then [] else MessageOf(chunks[0]) + MessagesOf(chunks[1..])
  }

  function LastIdText(chunks: seq<Chunk>, before: string): string {
    if chunks == [] then before
    else LastIdText(chunks[1..], if chunks[0].Frame? then Decimal(chunks[0].sequence) else before)
  }

  lemma FieldStep(b: Buffers, field: string, value: string, lines: seq<string>)
    requires field != "" && ':' !in field
    ensures Interpret([FieldLine(field, value)] + lines, b) == Interpret(lines, SetField(b, field, value))
  {
    ReadFieldLine(b, field, value);
    assert ([FieldLine(field, value)] + lines)[1..] == lines;
  }

  lemma ReadsFrame(c: Chunk, lines: seq<string>, id: string)
    requires c.Frame? && WellFormed(c)
    ensures var rest := Interpret(lines, Buffers("", "", Decimal(c.sequence)));
            Interpret(ChunkLines(c) + lines, Buffers("", "", id)) == (MessageOf(c) + rest.0, rest.1)
  {
    var b := Buffers(c.json + "\n", c.eventType, Decimal(c.sequence));
    FrameConcat(c, lines);
    FrameFields(c, [""] + lines, id);
    assert b.data[..|b.data| - 1] == c.json;
  }

  lemma FrameConcat(c: Chunk, lines: seq<string>)
    requires c.Frame?
    ensures ChunkLines(c) + lines
         == [FieldLine(ID, Decimal(c.sequence))]
          + ([FieldLine(EVENT, c.eventType)] + ([FieldLine(DATA, c.json)] + ([""] + lines)))
  {
  }

  lemma ReadsKeepAlive(lines: seq<string>, id: string)
    ensures Interpret(ChunkLines(KeepAlive) + lines, Buffers("", "", id)) == Interpret(lines, Buffers("", "", id))
  {
    var b, blank := Buffers("", "", id), [""] + lines;
    assert ChunkLines(KeepAlive) + lines == [KEEP_ALIVE] + blank;
    assert ([KEEP_ALIVE] + blank)[1..] == blank && KEEP_ALIVE[0] == ':';
    assert Dispatched(b) + Interpret(lines, b).0 == Interpret(lines, b).0;
  }

  lemma FrameFields(c: Chunk, rest: seq<string>, id: string)
    requires c.Frame? && WellFormed(c)
    ensures Interpret([FieldLine(ID, Decimal(c.sequence))]
                      + ([FieldLine(EVENT, c.eventType)] + ([FieldLine(DATA, c.json)] + rest)), Buffers("", "", id))
         == Interpret(rest, Buffers(c.json + "\n", c.eventType, Decimal(c.sequence)))
  {
    DecimalUnbroken(c.sequence);
    var b1 := Buffers("", "", Decimal(c.sequence));
    var b2 := Buffers("", c.eventType, Decimal(c.sequence));
    var rest2 := [FieldLine(DATA, c.json)] + rest;
    var rest1 := [FieldLine(EVENT, c.eventType)] + rest2;
    FieldStep(Buffers("", "", id), ID, Decimal(c.sequence), rest1);
    FieldStep(b1, EVENT, c.eventType, rest2);
    FieldStep(b2, DATA, c.json, rest);
    assert "" + c.json + "\n" == c.json + "\n";
  }

  lemma {:induction false} ReadsChunks(chunks: seq<Chunk>, id: string)
    requires forall c :: c in chunks ==> WellFormed(c)
    ensures Interpret(Lines(FormatAll(chunks)), Buffers("", "", id)) == (MessagesOf(chunks), LastIdText(chunks, id))
    decreases chunks
  {
    if chunks != [] {
      var rest := FormatAll(chunks[1..]);
      ChunkIsUnbroken(chunks[0]);
      LinesOfTerminated(ChunkLines(chunks[0]), rest);
      if chunks[0].Frame? {
        ReadsFrame(chunks[0], Lines(rest), id);
      } else {
        ReadsKeepAlive(Lines(rest), id);
      }
      ReadsChunks(chunks[1..], if chunks[0].Frame? then Decimal(chunks[0].sequence) else id);
    }
  }

  /** Round trip on the wire: a browser dispatches exactly the yielded events, in order, whatever
      keep-alives come between them, and the id it sends back in Last-Event-ID (section 9.2.4) is
      the number of the last one. */
  lemma WireRoundTrip(chunks: seq<Chunk>)
    requires forall c :: c in chunks ==> WellFormed(c)
    ensures Interpret(Lines(FormatAll(chunks)), Buffers("", "", "")) == (MessagesOf(chunks), LastIdText(chunks, ""))
    ensures forall i ::
              0 <= i < |chunks| && chunks[i].Frame? && (forall j :: i < j < |chunks| ==> chunks[j].KeepAlive?) ==>
              ParseDecimal(Interpret(Lines(FormatAll(chunks)), Buffers("", "", "")).1) == chunks[i].sequence
  {
    ReadsChunks(chunks, "");
    forall i | 0 <= i < |chunks| && chunks[i].Frame? && (forall j :: i < j < |chunks| ==> chunks[j].KeepAlive?)
      ensures ParseDecimal(LastIdText(chunks, "")) == chunks[i].sequence
    {
      LastIdIs(chunks, "", i);
      DecimalRoundTrip(chunks[i].sequence);
    }
  }

  lemma {:induction false} LastIdIs(chunks: seq<Chunk>, before: string, i: nat)
    requires i < |chunks| && chunks[i].Frame? && forall j :: i < j < |chunks| ==> chunks[j].KeepAlive?
    ensures LastIdText(chunks, before) == Decimal(chunks[i].sequence)
  {
    if i == 0 {
      KeepAlivesKeepId(chunks[1..], Decimal(chunks[0].sequence));
    } else {
      LastIdIs(chunks[1..], if chunks[0].Frame? then Decimal(chunks[0].sequence) else before, i - 1);
    }
  }

  lemma {:induction false} KeepAlivesKeepId(chunks: seq<Chunk>, id: string)
    requires forall j :: 0 <= j < |chunks| ==> chunks[j].KeepAlive?
    ensures LastIdText(chunks, id) == id
  {
    if chunks != [] {
      KeepAlivesKeepId(chunks[1..], id);
    }
  }
}
