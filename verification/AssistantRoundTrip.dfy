/** A server that writes events with LF or CRLF line ends, read back by the assistant client. */
module AssistantRoundTrip {
  import opened Wrappers
  import opened SseFraming
  import opened AssistantFraming
  import AssistantBlocks
  import opened AssistantStream
  import opened AssistantAnswers

  /** A non-empty, trimmed event name, and no line break inside name or data. */
  ghost predicate Plain(e: SseEvent) {
    e.event != "" && Trim(e.event) == e.event && OneLine(e.event) && OneLine(e.data)
  }

  function EventLine(e: SseEvent): string {
    "event: " + e.event
  }

  function DataLine(e: SseEvent): string {
    "data: " + e.data
  }

  function Block(e: SseEvent): string {
    EventLine(e) + "\n" + DataLine(e)
  }

  function Encoded(list: seq<SseEvent>, crlf: bool): string {
    if list == [] then ""
    else EventLine(list[0]) + Eol(crlf) + (DataLine(list[0]) + Eol(crlf) + ("" + Eol(crlf) + Encoded(list[1..], crlf)))
  }

  // ----- Line ends -----

  lemma {:induction false} LineNormalizes(line: string, crlf: bool, rest: string)
    requires OneLine(line)
    ensures Normalize(line + Eol(crlf) + rest) == line + "\n" + Normalize(rest)
  {
    if line == "" {
      var s := line + Eol(crlf) + rest;
      assert s[|Eol(crlf)|..] == rest;
    } else {
      assert (line + Eol(crlf) + rest)[1..] == line[1..] + Eol(crlf) + rest;
      LineNormalizes(line[1..], crlf, rest);
      assert line + "\n" + Normalize(rest) == [line[0]] + (line[1..] + "\n" + Normalize(rest));
    }
  }

  lemma LineIsClean(line: string, crlf: bool, rest: string)
    requires OneLine(line) && NoCrCrLf(rest)
    ensures NoCrCrLf(line + Eol(crlf) + rest)
  {
    var s := line + Eol(crlf) + rest;
    forall i | CrCrLfAt(s, i) ensures CrCrLfAt(rest, i - |line| - |Eol(crlf)|) {
    }
  }

  lemma {:induction false} EncodingNormalizes(list: seq<SseEvent>, crlf: bool)
    requires forall e | e in list :: Plain(e)
    ensures NoCrCrLf(Encoded(list, crlf))
    ensures Normalize(Encoded(list, crlf)) == Encoded(list, false)
  {
    if list != [] {
      var e := list[0];
      assert Plain(e);
      assert OneLine(EventLine(e)) && OneLine(DataLine(e)) && OneLine("");
      EncodingNormalizes(list[1..], crlf);
      var rest := Encoded(list[1..], crlf);
      var blank := "" + Eol(crlf) + rest;
      LineNormalizes("", crlf, rest);
      LineNormalizes(DataLine(e), crlf, blank);
      LineNormalizes(EventLine(e), crlf, DataLine(e) + Eol(crlf) + blank);
      LineIsClean("", crlf, rest);
      LineIsClean(DataLine(e), crlf, blank);
      LineIsClean(EventLine(e), crlf, DataLine(e) + Eol(crlf) + blank);
    }
  }

  // ----- Frames -----

  /** Text without a frame, not ending in a line feed, becomes the frame before a blank line. */
  lemma {:induction false} FrameThen(x: string, rest: string)
    requires Frames(TwoLf, x) == [] && (x == "" || x[|x| - 1] != '\n')
    ensures Frames(TwoLf, x + "\n\n" + rest) == [x] + Frames(TwoLf, rest)
    ensures Tail(TwoLf, x + "\n\n" + rest) == Tail(TwoLf, rest)
  {
    var s := x + "\n\n" + rest;
    if x == "" {
      assert s[2..] == rest;
    } else {
      assert s[1..] == x[1..] + "\n\n" + rest;
      FrameThen(x[1..], rest);
      assert [x[0]] + x[1..] == x;
      assert ([x[1..]] + Frames(TwoLf, rest))[1..] == Frames(TwoLf, rest);
    }
  }

  lemma {:induction false} NoFrameInLine(line: string)
    requires OneLine(line)
    ensures Frames(TwoLf, line) == [] && Tail(TwoLf, line) == line
  {
    if line != "" {
      NoFrameInLine(line[1..]);
    }
  }

  lemma {:induction false} NoFrameInTwoLines(a: string, b: string)
    requires OneLine(a) && OneLine(b) && b != ""
    ensures Frames(TwoLf, a + "\n" + b) == []
  {
    var s := a + "\n" + b;
    if a == "" {
      assert s[1..] == b;
      NoFrameInLine(b);
    } else {
      assert s[1..] == a[1..] + "\n" + b;
      NoFrameInTwoLines(a[1..], b);
    }
  }

  lemma BlockIsOneFrame(e: SseEvent)
    requires Plain(e)
    ensures Frames(TwoLf, Block(e)) == [] && Block(e) != "" && Block(e)[|Block(e)| - 1] != '\n'
  {
    assert OneLine(EventLine(e)) && OneLine(DataLine(e));
    NoFrameInTwoLines(EventLine(e), DataLine(e));
    assert Block(e)[|Block(e)| - 1] == DataLine(e)[|DataLine(e)| - 1];
  }

  lemma {:induction false} FramesOfEncoding(list: seq<SseEvent>)
    requires forall e | e in list :: Plain(e)
    ensures var frames := Frames(TwoLf, Encoded(list, false));
      && |frames| == |list|
      && forall i :: 0 <= i < |list| ==> frames[i] == Block(list[i])
    ensures Tail(TwoLf, Encoded(list, false)) == ""
  {
    if list != [] {
      hide Plain, EventLine, DataLine, Frames, Tail;
      var e, rest := list[0], Encoded(list[1..], false);
      assert Plain(e);
      BlockIsOneFrame(e);
      FrameThen(Block(e), rest);
      assert Encoded(list, false) == Block(e) + "\n\n" + rest;
      FramesOfEncoding(list[1..]);
    } else {
      assert Encoded(list, false) == "";
    }
  }

  // ----- Fields -----

  lemma {:induction false} LineSplits(line: string, rest: string)
    requires OneLine(line)
    ensures Lines(line) == [line]
    ensures Lines(line + "\n" + rest) == [line] + Lines(rest)
  {
    var s := line + "\n" + rest;
    if line == "" {
      assert s[1..] == rest;
    } else {
      assert s[1..] == line[1..] + "\n" + rest;
      LineSplits(line[1..], rest);
      assert [line[0]] + line[1..] == line;
      assert ([line[1..]] + Lines(rest))[1..] == Lines(rest);
    }
  }

  lemma {:induction false} NoReturnsToReplace(s: string)
    requires forall i :: 0 <= i < |s| ==> s[i] != '\r'
    ensures ReturnsToLf(s) == s
  {
    if s != "" {
      NoReturnsToReplace(s[1..]);
    }
  }

  lemma BlockParses(e: SseEvent)
    requires Plain(e)
    ensures Parsed(Block(e)) == Some(e)
  {
    var a, b := EventLine(e), DataLine(e);
    assert OneLine(a) && OneLine(b);
    assert forall i :: 0 <= i < |Block(e)| ==> Block(e)[i] != '\r';
    NormalizeIdle(Block(e));
    NoReturnsToReplace(Block(e));
    LineSplits(a, b);
    LineSplits(b, "");
    FieldsOfTwoLines(e);
  }

  lemma FieldsOfTwoLines(e: SseEvent)
    requires Trim(e.event) == e.event
    ensures Fields([EventLine(e)] + [DataLine(e)]) == e
  {
    var lines := [EventLine(e)] + [DataLine(e)];
    assert lines[..1] == [EventLine(e)] && lines[..1][..0] == [];
    assert EventLine(e)[|EVENT_FIELD|..] == e.event;
    assert DataLine(e)[|DATA_FIELD|..] == e.data;
    assert DataLine(e)[0] == 'd' && EVENT_FIELD[0] == 'e';
    assert Fields(lines[..1]) == SseEvent(e.event, "");
    assert "" + e.data == e.data;
  }

  // ----- Round trip -----

  /** Printing, cutting into any chunks, splitting and parsing gives back the list. */
  lemma RoundTrip(list: seq<SseEvent>, crlf: bool, chunks: seq<string>)
    requires forall e | e in list :: Plain(e)
    requires Joined(chunks) == Encoded(list, crlf)
    ensures var blocks := SplitBlocks(chunks);
      && |blocks| == |list|
      && forall i :: 0 <= i < |list| ==> Parsed(blocks[i]) == Some(list[i])
  {
    EncodingNormalizes(list, crlf);
    FramesAreChunkInvariant(chunks);
    FramesOfEncoding(list);
    assert TailFrame("") == [];
    forall i | 0 <= i < |list| ensures Parsed(SplitBlocks(chunks)[i]) == Some(list[i]) {
      assert Plain(list[i]);
      BlockParses(list[i]);
    }
  }

  lemma {:induction false} FramesAreEvents(blocks: seq<string>, list: seq<SseEvent>)
    requires |blocks| == |list| && forall i :: 0 <= i < |list| ==> Parsed(blocks[i]) == Some(list[i])
    ensures FramesIn(blocks) == list
  {
    if list != [] {
      FramesAreEvents(blocks[..|blocks| - 1], list[..|list| - 1]);
    }
  }

  /** End to end: the calls a submitted input gets are those the events the server wrote ask for. */
  lemma WrittenEventsAreAnswered(decode: string -> Payload, list: seq<SseEvent>, crlf: bool, chunks: seq<string>)
    requires forall e | e in list :: Plain(e)
    requires Joined(chunks) == Encoded(list, crlf)
    ensures Fits(decode, list, Calls(decode, Stream(chunks, false).Blocks()))
  {
    RoundTrip(list, crlf, chunks);
    FramesAreEvents(SplitBlocks(chunks), list);
    CallsFit(decode, SplitBlocks(chunks));
  }

  // ----- A last event without a blank line -----

  /** The end of a stream: the lines of an event, with or without a line end behind the last one. */
  function Unclosed(e: SseEvent, crlf: bool, ended: bool): string {
    EventLine(e) + Eol(crlf) + (DataLine(e) + if ended then Eol(crlf) else "")
  }

  /** What the end of the stream is once normalised. */
  function UnclosedBlock(e: SseEvent, ended: bool): string {
    Block(e) + if ended then "\n" else ""
  }

  lemma UnclosedNormalizes(e: SseEvent, crlf: bool, ended: bool)
    requires Plain(e)
    ensures NoCrCrLf(Unclosed(e, crlf, ended)) && Normalize(Unclosed(e, crlf, ended)) == UnclosedBlock(e, ended)
  {
    assert OneLine(EventLine(e)) && OneLine(DataLine(e));
    var line := DataLine(e) + if ended then Eol(crlf) else "";
    LineNormalizes(EventLine(e), crlf, line);
    if ended {
      assert line == DataLine(e) + Eol(crlf) + "";
      LineNormalizes(DataLine(e), crlf, "");
      LineIsClean(DataLine(e), crlf, "");
    } else {
      NormalizeIdle(line);
    }
    LineIsClean(EventLine(e), crlf, line);
  }

  lemma {:induction false} NoFrameInEndedLines(a: string, b: string)
    requires OneLine(a) && OneLine(b) && b != ""
    ensures Frames(TwoLf, a + "\n" + b + "\n") == []
  {
    var s := a + "\n" + b + "\n";
    if a == "" {
      assert s[1..] == b + "\n";
      NoFrameInEndedLine(b);
    } else {
      assert s[1..] == a[1..] + "\n" + b + "\n";
      NoFrameInEndedLines(a[1..], b);
    }
  }

  lemma {:induction false} NoFrameInEndedLine(line: string)
    requires OneLine(line)
    ensures Frames(TwoLf, line + "\n") == []
  {
    if line == "" {
      assert line + "\n" == "\n" && "\n"[1..] == "";
    } else {
      assert (line + "\n")[1..] == line[1..] + "\n";
      NoFrameInEndedLine(line[1..]);
    }
  }

  /** Data that ends in white space would lose it in the flush. */
  lemma UnclosedIsOneFrame(e: SseEvent, ended: bool)
    requires Plain(e) && e.data != "" && !IsSpace(e.data[|e.data| - 1])
    ensures var end := UnclosedBlock(e, ended);
      Frames(TwoLf, end) == [] && Tail(TwoLf, end) == end && TailFrame(end) == [Block(e)]
  {
    var end, block := UnclosedBlock(e, ended), Block(e);
    assert OneLine(EventLine(e)) && OneLine(DataLine(e));
    NoFrameInTwoLines(EventLine(e), DataLine(e));
    NoFrameInEndedLines(EventLine(e), DataLine(e));
    assert ended ==> end == EventLine(e) + "\n" + DataLine(e) + "\n";
    assert !ended ==> end == block;
    NoFrameIsAllTail(TwoLf, end);
    hide Frames, Tail, Trim, TrimEnd, EventLine;
    assert block[|block| - 1] == DataLine(e)[|DataLine(e)| - 1] == e.data[|e.data| - 1];
    assert end[|block| - 1] == block[|block| - 1];
    var j := TrimmedEnd(end);
    var i, k := Trimmed(end);
    assert j == |block| && end[..j] == block;
  }

  lemma {:induction false} EncodingEndsInLf(list: seq<SseEvent>, crlf: bool)
    ensures list != [] ==> Encoded(list, crlf) != "" && Encoded(list, crlf)[|Encoded(list, crlf)| - 1] == '\n'
  {
    if |list| > 1 {
      EncodingEndsInLf(list[1..], crlf);
    }
  }

  lemma UnclosedStream(list: seq<SseEvent>, last: SseEvent, crlf: bool, ended: bool)
    requires (forall e | e in list :: Plain(e)) && Plain(last) && last.data != "" && !IsSpace(last.data[|last.data| - 1])
    ensures var text := Encoded(list, crlf) + Unclosed(last, crlf, ended);
      && NoCrCrLf(text)
      && Frames(TwoLf, Normalize(text)) == Frames(TwoLf, Encoded(list, false))
      && Tail(TwoLf, Normalize(text)) == UnclosedBlock(last, ended)
  {
    hide Frames, Tail, Normalize, Encoded, Unclosed, UnclosedBlock, TailFrame, Plain, Block;
    var first, end := Encoded(list, crlf), Unclosed(last, crlf, ended);
    EncodingNormalizes(list, crlf);
    EncodingEndsInLf(list, crlf);
    UnclosedNormalizes(last, crlf, ended);
    EmptyEncoding(crlf);
    NormalizeAppend(first, end);
    AssistantBlocks.CleanTogether(first, end);
    FramesOfEncoding(list);
    FramesResume(TwoLf, Encoded(list, false), UnclosedBlock(last, ended));
    UnclosedIsOneFrame(last, ended);
    assert "" + UnclosedBlock(last, ended) == UnclosedBlock(last, ended);
    assert Frames(TwoLf, Encoded(list, false)) + [] == Frames(TwoLf, Encoded(list, false));
  }

  /** If the stream simply ends, its last event needs no blank line behind it. */
  lemma LastEventNeedsNoBlankLine(
      decode: string -> Payload, list: seq<SseEvent>, last: SseEvent, crlf: bool, ended: bool, chunks: seq<string>)
    requires (forall e | e in list :: Plain(e)) && Plain(last) && last.data != "" && !IsSpace(last.data[|last.data| - 1])
    requires Joined(chunks) == Encoded(list, crlf) + Unclosed(last, crlf, ended)
    ensures Fits(decode, list + [last], Calls(decode, Stream(chunks, false).Blocks()))
  {
    hide Frames, Tail, Normalize, Encoded, Unclosed, UnclosedBlock, TailFrame, Plain, Block, Joined, SplitBlocks, Calls, Parsed, FramesIn, Fits;
    UnclosedStream(list, last, crlf, ended);
    FramesAreChunkInvariant(chunks);
    FramesOfEncoding(list);
    UnclosedIsOneFrame(last, ended);
    var blocks, all := SplitBlocks(chunks), list + [last];
    assert blocks == Frames(TwoLf, Encoded(list, false)) + [Block(last)];
    forall i | 0 <= i < |all| ensures Parsed(blocks[i]) == Some(all[i]) {
      BlockParses(all[i]);
    }
    FramesAreEvents(blocks, all);
    CallsFit(decode, blocks);
  }

  /** If the connection breaks instead, an event without its blank line is not handled. */
  lemma BrokenStreamLosesItsTail(
      decode: string -> Payload, list: seq<SseEvent>, last: SseEvent, crlf: bool, ended: bool, chunks: seq<string>)
    requires (forall e | e in list :: Plain(e)) && Plain(last) && last.data != "" && !IsSpace(last.data[|last.data| - 1])
    requires Joined(chunks) == Encoded(list, crlf) + Unclosed(last, crlf, ended)
    ensures Fits(decode, list, Calls(decode, Stream(chunks, true).Blocks()))
  {
    hide Frames, Tail, Normalize, Encoded, Unclosed, UnclosedBlock, Plain, Block, Joined, SplitBlocks, Pushed, Calls, Parsed, FramesIn, Fits;
    UnclosedStream(list, last, crlf, ended);
    PushesAreChunkInvariant(chunks);
    FramesOfEncoding(list);
    var blocks := Pushed(chunks).0;
    forall i | 0 <= i < |list| ensures Parsed(blocks[i]) == Some(list[i]) {
      assert Plain(list[i]);
      BlockParses(list[i]);
    }
    FramesAreEvents(blocks, list);
    CallsFit(decode, blocks);
  }

  /** Without a stream there is nothing but the loss of the network. */
  lemma NoStreamNoEvents(decode: string -> Payload)
    ensures Calls(decode, FetchFails.Blocks()) == [OnNetworkLost] == Calls(decode, BadResponse.Blocks())
  {
  }

  lemma EmptyEncoding(crlf: bool)
    ensures Encoded([], crlf) == ""
  {
  }

  // ----- Frames of any lines -----

  /** Lines with one kind of line end between them. */
  function JoinedBy(lines: seq<string>, end: string): string
    requires lines != []
  {
    if |lines| == 1 then lines[0] else lines[0] + end + JoinedBy(lines[1..], end)
  }

  predicate HasEvent(lines: seq<string>) {
    exists i :: 0 <= i < |lines| && "event: " <= lines[i]
  }

  /** What follows the field name on the last event line, trimmed. */
  function EventOf(lines: seq<string>): string {
    if lines == [] then ""
    else if "event: " <= lines[0] && !HasEvent(lines[1..]) then Trim(lines[0][7..])
    else EventOf(lines[1..])
  }

  /** What follows the field name on all data lines. */
  function DataOf(lines: seq<string>): string {
    if lines == [] then ""
    else (if "data: " <= lines[0] then lines[0][6..] else "") + DataOf(lines[1..])
  }

  lemma {:induction false} LastEvent(lines: seq<string>, line: string)
    ensures EventOf(lines + [line]) == if "event: " <= line then Trim(line[7..]) else EventOf(lines)
    ensures DataOf(lines + [line]) == DataOf(lines) + if "data: " <= line then line[6..] else ""
  {
    if lines == [] {
      assert [line][1..] == [];
      assert "" + DataOf([]) == "";
    } else {
      var rest := lines[1..];
      assert (lines + [line])[1..] == rest + [line];
      LastEvent(rest, line);
      HasEventLast(rest, line);
      var first := if "data: " <= lines[0] then lines[0][6..] else "";
      var added := if "data: " <= line then line[6..] else "";
      assert first + (DataOf(rest) + added) == (first + DataOf(rest)) + added;
      if "event: " <= lines[0] && !HasEvent(rest) && "event: " <= line {
        assert EventOf(rest + [line]) == Trim(line[7..]);
      }
    }
  }

  lemma HasEventLast(lines: seq<string>, line: string)
    ensures HasEvent(lines + [line]) <==> HasEvent(lines) || "event: " <= line
  {
    if i :| 0 <= i < |lines| && "event: " <= lines[i] {
      assert (lines + [line])[i] == lines[i];
    }
    if "event: " <= line {
      assert (lines + [line])[|lines|] == line;
    }
  }

  lemma {:induction false} FieldsAre(lines: seq<string>)
    ensures Fields(lines) == SseEvent(EventOf(lines), DataOf(lines))
  {
    if lines != [] {
      var n := |lines| - 1;
      FieldsAre(lines[..n]);
      LastEvent(lines[..n], lines[n]);
      assert lines[..n] + [lines[n]] == lines;
      assert "event: "[0] == 'e' && "data: "[0] == 'd';
    }
  }

  lemma {:induction false} LinesOfJoined(lines: seq<string>)
    requires lines != [] && forall l | l in lines :: OneLine(l)
    ensures Lines(JoinedBy(lines, "\n")) == lines
    ensures forall i :: 0 <= i < |JoinedBy(lines, "\n")| ==> JoinedBy(lines, "\n")[i] != '\r'
  {
    assert OneLine(lines[0]);
    LineSplits(lines[0], "");
    if |lines| > 1 {
      LinesOfJoined(lines[1..]);
      LineSplits(lines[0], JoinedBy(lines[1..], "\n"));
    }
  }

  lemma {:induction false} JoinedNormalizes(lines: seq<string>, crlf: bool)
    requires lines != [] && forall l | l in lines :: OneLine(l)
    ensures Normalize(JoinedBy(lines, Eol(crlf))) == JoinedBy(lines, "\n")
  {
    assert OneLine(lines[0]);
    if |lines| > 1 {
      JoinedNormalizes(lines[1..], crlf);
      LineNormalizes(lines[0], crlf, JoinedBy(lines[1..], Eol(crlf)));
    } else {
      NormalizeIdle(lines[0]);
    }
  }

  lemma {:induction false} ReturnsBecomeLf(lines: seq<string>)
    requires lines != [] && forall l | l in lines :: OneLine(l)
    ensures forall i :: 0 <= i < |JoinedBy(lines, "\r")| ==> JoinedBy(lines, "\r")[i] != '\n'
    ensures ReturnsToLf(JoinedBy(lines, "\r")) == JoinedBy(lines, "\n")
  {
    assert OneLine(lines[0]);
    NoReturnsToReplace(lines[0]);
    if |lines| > 1 {
      ReturnsBecomeLf(lines[1..]);
      var rest := JoinedBy(lines[1..], "\r");
      ReturnsToLfAppend(lines[0], "\r" + rest);
      assert ("\r" + rest)[1..] == rest;
      assert lines[0] + "\r" + rest == lines[0] + ("\r" + rest);
      assert lines[0] + ("\n" + ReturnsToLf(rest)) == lines[0] + "\n" + ReturnsToLf(rest);
    }
  }

  lemma {:induction false} ReturnsToLfAppend(a: string, b: string)
    ensures ReturnsToLf(a + b) == ReturnsToLf(a) + ReturnsToLf(b)
  {
    if a == "" {
      assert a + b == b;
    } else {
      assert (a + b)[1..] == a[1..] + b;
      ReturnsToLfAppend(a[1..], b);
    }
  }

  /**
   * A frame of any lines, among them other fields and comments, with LF, CRLF or CR between them:
   * the last event line names the event, the data lines add up, and without either it is noise.
   */
  lemma FrameOfLines(lines: seq<string>, end: string)
    requires lines != [] && (forall l | l in lines :: OneLine(l)) && (end == "\n" || end == "\r\n" || end == "\r")
    ensures Parsed(JoinedBy(lines, end)) ==
      if EventOf(lines) == "" && DataOf(lines) == "" then None else Some(SseEvent(EventOf(lines), DataOf(lines)))
  {
    FieldsAre(lines);
    LinesOfJoined(lines);
    if end == "\r" {
      ReturnsBecomeLf(lines);
      NormalizeIdle(JoinedBy(lines, "\r"));
    } else {
      JoinedNormalizes(lines, end == "\r\n");
      assert Eol(end == "\r\n") == end;
      NoReturnsToReplace(JoinedBy(lines, "\n"));
    }
  }
}
