/** A server that writes agent events, with LF or CRLF line ends in any mixture, read back by the client. */
module AgentRoundTrip {
  import opened Wrappers
  import opened SseFraming
  import opened AgentStream

  /** A data line with the spaces after its colon, or a line the client does not look at. */
  datatype Field = Data(gap: string, text: string) | Other(text: string)

  datatype Line = Line(field: Field, crlf: bool)

  /** One frame as the server wrote it, with the line ends it chose. */
  datatype Written = Written(lines: seq<Line>, blankCrlf: bool)

  function TextOf(field: Field): string {
    match field
    case Data(gap, text) => "data:" + gap + text
    case Other(text) => text
  }

  /** No line break inside a line, and the text of a data line does not begin with white space. */
  ghost predicate Plain(field: Field) {
    && OneLine(TextOf(field)) && TextOf(field) != ""
    && match field
       case Data(gap, text) => (forall i :: 0 <= i < |gap| ==> gap[i] == ' ') && TrimStart(text) == text
       case Other(text) => !("data:" <= text)
  }

  ghost predicate PlainLines(lines: seq<Line>) {
    lines != [] && forall i :: 0 <= i < |lines| ==> Plain(lines[i].field)
  }

  /** A frame up to the end of its last line. */
  function Body(lines: seq<Line>): string {
    if lines == [] then ""
    else if |lines| == 1 then TextOf(lines[0].field)
    else TextOf(lines[0].field) + Eol(lines[0].crlf) + Body(lines[1..])
  }

  function Encoded(list: seq<Written>): string {
    if list == [] then ""
    else
      var w := list[0];
      var crlf := w.lines != [] && w.lines[|w.lines| - 1].crlf;
      Body(w.lines) + (Eol(crlf) + Eol(w.blankCrlf)) + Encoded(list[1..])
  }

  function Texts(lines: seq<Line>): seq<string> {
    if lines == [] then []
    else if lines[0].field.Data? then [lines[0].field.text] + Texts(lines[1..])
    else Texts(lines[1..])
  }

  /** Each text but the last with a line feed behind it. */
  function WithLineFeeds(texts: seq<string>): string {
    if texts == [] then ""
    else if |texts| == 1 then texts[0]
    else WithLineFeeds(texts[..|texts| - 1]) + "\n" + texts[|texts| - 1]
  }

  /** The texts of the data lines, joined; none if there is no data line. */
  function PayloadOf(w: Written): Option<string> {
    if Texts(w.lines) == [] then None else Some(WithLineFeeds(Texts(w.lines)))
  }

  function PayloadsOf(list: seq<Written>): seq<string> {
    if list == [] then []
    else
      var before, last := PayloadsOf(list[..|list| - 1]), PayloadOf(list[|list| - 1]);
      if last.None? then before else before + [last.value]
  }

  // ----- Frames -----

  lemma BlankAt(a: bool, b: bool, rest: string)
    ensures SeparatorLength(BlankLine, Eol(a) + Eol(b) + rest) == |Eol(a)| + |Eol(b)|
  {
    var s := Eol(a) + Eol(b) + rest;
    assert LineEnd(s) == |Eol(a)| && s[|Eol(a)|..] == Eol(b) + rest;
  }

  lemma {:induction false} LineThenBlank(x: string, a: bool, b: bool, rest: string)
    requires OneLine(x)
    ensures Frames(BlankLine, x + (Eol(a) + Eol(b)) + rest) == [x] + Frames(BlankLine, rest)
    ensures Tail(BlankLine, x + (Eol(a) + Eol(b)) + rest) == Tail(BlankLine, rest)
  {
    hide Frames, Tail;
    var s := x + (Eol(a) + Eol(b)) + rest;
    if x == "" {
      BlankAt(a, b, rest);
      assert s == Eol(a) + Eol(b) + rest && s[|Eol(a)| + |Eol(b)|..] == rest;
      AtSeparator(BlankLine, s, |Eol(a)| + |Eol(b)|);
    } else {
      LineThenBlank(x[1..], a, b, rest);
      assert s == [x[0]] + (x[1..] + (Eol(a) + Eol(b)) + rest) && [x[0]] + x[1..] == x;
      CharacterJoins(x[0], x[1..] + (Eol(a) + Eol(b)) + rest, x[1..]);
      assert ([x[1..]] + Frames(BlankLine, rest))[1..] == Frames(BlankLine, rest);
    }
  }

  /** A character that begins no separator joins the frame behind it. */
  lemma CharacterJoins(c: char, s: string, y: string)
    requires SeparatorLength(BlankLine, [c] + s) == 0
    requires Frames(BlankLine, s) != [] && Frames(BlankLine, s)[0] == y
    ensures Frames(BlankLine, [c] + s) == [[c] + y] + Frames(BlankLine, s)[1..]
    ensures Tail(BlankLine, [c] + s) == Tail(BlankLine, s)
  {
    assert ([c] + s)[1..] == s;
    AtCharacter(BlankLine, [c] + s);
  }

  /** A line joins the frame that begins behind its line end. */
  lemma {:induction false} LineJoins(x: string, crlf: bool, s: string, y: string)
    requires OneLine(x) && s != "" && LineEnd(s) == 0
    requires Frames(BlankLine, s) != [] && Frames(BlankLine, s)[0] == y
    ensures Frames(BlankLine, x + Eol(crlf) + s) == [x + Eol(crlf) + y] + Frames(BlankLine, s)[1..]
    ensures Tail(BlankLine, x + Eol(crlf) + s) == Tail(BlankLine, s)
  {
    hide Frames, Tail;
    if x != "" {
      LineJoins(x[1..], crlf, s, y);
      assert x + Eol(crlf) + s == [x[0]] + (x[1..] + Eol(crlf) + s);
      assert x + Eol(crlf) + y == [x[0]] + (x[1..] + Eol(crlf) + y);
      CharacterJoins(x[0], x[1..] + Eol(crlf) + s, x[1..] + Eol(crlf) + y);
    } else {
      assert ("\n" + s)[1..] == s;
      CharacterJoins('\n', s, y);
      if crlf {
        assert ("\r\n" + s)[2..] == s && "\r\n" + s == "\r" + ("\n" + s);
        CharacterJoins('\r', "\n" + s, "\n" + y);
        assert "\r" + ("\n" + y) == "\r\n" + y;
      }
      assert x + Eol(crlf) + s == Eol(crlf) + s && x + Eol(crlf) + y == Eol(crlf) + y;
    }
  }

  lemma {:induction false} BodyIsAFrame(lines: seq<Line>, a: bool, b: bool, rest: string)
    requires PlainLines(lines)
    ensures Frames(BlankLine, Body(lines) + (Eol(a) + Eol(b)) + rest) == [Body(lines)] + Frames(BlankLine, rest)
    ensures Tail(BlankLine, Body(lines) + (Eol(a) + Eol(b)) + rest) == Tail(BlankLine, rest)
    ensures Body(lines) != "" && Body(lines)[0] != '\r' && Body(lines)[0] != '\n'
  {
    hide Frames, Tail, Plain, TextOf, Eol;
    var first := TextOf(lines[0].field);
    PlainIsOneLine(lines[0].field);
    if |lines| == 1 {
      LineThenBlank(first, a, b, rest);
    } else {
      var crlf, more, blank := lines[0].crlf, Body(lines[1..]), Eol(a) + Eol(b);
      BodyIsAFrame(lines[1..], a, b, rest);
      LineJoins(first, crlf, more + blank + rest, more);
      FrontStays(more, Frames(BlankLine, rest));
      Regrouped(first, Eol(crlf), more, blank, rest);
    }
  }

  lemma FrontStays(x: string, rest: seq<string>)
    ensures ([x] + rest)[0] == x && ([x] + rest)[1..] == rest
  {
  }

  lemma Regrouped(a: string, b: string, c: string, d: string, e: string)
    ensures a + b + c + d + e == a + b + (c + d + e)
  {
  }

  lemma PlainIsOneLine(field: Field)
    requires Plain(field)
    ensures OneLine(TextOf(field)) && TextOf(field) != ""
  {
  }

  lemma {:induction false} FramesOfEncoding(list: seq<Written>)
    requires forall i :: 0 <= i < |list| ==> PlainLines(list[i].lines)
    ensures var frames := Frames(BlankLine, Encoded(list));
      && |frames| == |list|
      && forall i :: 0 <= i < |list| ==> frames[i] == Body(list[i].lines)
    ensures Tail(BlankLine, Encoded(list)) == ""
  {
    hide Frames, Tail, Body;
    if list == [] {
      AtLast(BlankLine, "");
    } else {
      var w := list[0];
      assert PlainLines(w.lines);
      BodyIsAFrame(w.lines, w.lines[|w.lines| - 1].crlf, w.blankCrlf, Encoded(list[1..]));
      FramesOfEncoding(list[1..]);
    }
  }

  // ----- Payloads -----

  lemma {:induction false} LinesSplit(x: string, crlf: bool, rest: string)
    requires OneLine(x)
    ensures FrameLines(x) == [x]
    ensures FrameLines(x + Eol(crlf) + rest) == [x] + FrameLines(rest)
  {
    var s := x + Eol(crlf) + rest;
    if x == "" {
      assert s[|Eol(crlf)|..] == rest;
    } else {
      assert s[1..] == x[1..] + Eol(crlf) + rest;
      LinesSplit(x[1..], crlf, rest);
      assert [x[0]] + x[1..] == x && ([x[1..]] + FrameLines(rest))[1..] == FrameLines(rest);
    }
  }

  lemma {:induction false} GapIsTrimmed(gap: string, text: string)
    requires (forall i :: 0 <= i < |gap| ==> gap[i] == ' ') && TrimStart(text) == text
    ensures TrimStart(gap + text) == text
  {
    if gap == "" {
      assert gap + text == text;
    } else {
      assert (gap + text)[1..] == gap[1..] + text;
      GapIsTrimmed(gap[1..], text);
    }
  }

  lemma DataLineGivesText(field: Field, rest: seq<string>)
    requires Plain(field)
    ensures DataLines([TextOf(field)] + rest) == (if field.Data? then [field.text] else []) + DataLines(rest)
  {
    var line := TextOf(field);
    assert ([line] + rest)[1..] == rest;
    if field.Data? {
      assert line[5..] == field.gap + field.text;
      GapIsTrimmed(field.gap, field.text);
    }
  }

  lemma {:induction false} BodyGivesTexts(lines: seq<Line>)
    requires PlainLines(lines)
    ensures DataLines(FrameLines(Body(lines))) == Texts(lines)
  {
    hide FrameLines, DataLines, Plain;
    var first := lines[0];
    assert Plain(first.field);
    PlainIsOneLine(first.field);
    if |lines| == 1 {
      LinesSplit(TextOf(first.field), true, "");
      assert [TextOf(first.field)] + [] == [TextOf(first.field)] && Texts(lines[1..]) == [];
      DataLineGivesText(first.field, []);
      NoDataLines();
    } else {
      LinesSplit(TextOf(first.field), first.crlf, Body(lines[1..]));
      DataLineGivesText(first.field, FrameLines(Body(lines[1..])));
      BodyGivesTexts(lines[1..]);
    }
  }

  lemma NoDataLines()
    ensures DataLines([]) == []
  {
  }

  lemma {:induction false} JoinedWithLineFeeds(texts: seq<string>)
    requires texts != []
    ensures JoinLines(texts) == WithLineFeeds(texts)
  {
    if |texts| > 1 {
      LineFeedsFront(texts);
      JoinedWithLineFeeds(texts[1..]);
    }
  }

  lemma {:induction false} LineFeedsFront(texts: seq<string>)
    requires |texts| > 1
    ensures WithLineFeeds(texts) == texts[0] + "\n" + WithLineFeeds(texts[1..])
  {
    var n := |texts| - 1;
    if n > 1 {
      LineFeedsFront(texts[..n]);
      assert texts[..n][1..] == texts[1..][..n - 1];
      var middle := WithLineFeeds(texts[1..][..n - 1]);
      assert (texts[0] + "\n" + middle) + "\n" + texts[n] == texts[0] + "\n" + (middle + "\n" + texts[n]);
    } else {
      assert texts[..n] == [texts[0]] && texts[1..] == [texts[1]];
    }
  }

  lemma {:induction false} PayloadsAgree(frames: seq<string>, list: seq<Written>)
    requires |frames| == |list|
    requires forall i :: 0 <= i < |list| ==> EventData(frames[i]) == PayloadOf(list[i])
    ensures Payloads(frames) == PayloadsOf(list)
  {
    hide EventData, PayloadOf;
    if frames != [] {
      PayloadsAgree(frames[..|frames| - 1], list[..|list| - 1]);
    }
  }

  lemma BodyGivesPayload(w: Written)
    requires PlainLines(w.lines)
    ensures EventData(Body(w.lines)) == PayloadOf(w)
  {
    BodyGivesTexts(w.lines);
    if Texts(w.lines) != [] {
      JoinedWithLineFeeds(Texts(w.lines));
    }
  }

  lemma EncodingGivesPayloads(list: seq<Written>)
    requires forall i :: 0 <= i < |list| ==> PlainLines(list[i].lines)
    ensures Payloads(Frames(BlankLine, Encoded(list))) == PayloadsOf(list) && Tail(BlankLine, Encoded(list)) == ""
  {
    hide Frames, Encoded, PlainLines, Payloads, PayloadsOf, Body, EventData, PayloadOf;
    FramesOfEncoding(list);
    forall i | 0 <= i < |list| ensures EventData(Frames(BlankLine, Encoded(list))[i]) == PayloadOf(list[i]) {
      BodyGivesPayload(list[i]);
    }
    PayloadsAgree(Frames(BlankLine, Encoded(list)), list);
  }

  /**
   * Whatever a server writes, spread over data lines, among other lines and with any line ends: if
   * every payload is an event and the last one, and only that, is `done`, the client delivers all
   * of them, in order, and returns; nothing written after it matters.
   */
  lemma {:induction false} WrittenEventsAreDelivered(
      parse: Parser, list: seq<Written>, events: seq<AgentEvent>, later: string, flushed: string)
    requires forall i :: 0 <= i < |list| ==> PlainLines(list[i].lines)
    requires |PayloadsOf(list)| == |events| > 0
    requires forall i :: 0 <= i < |events| ==> parse(PayloadsOf(list)[i]) == Some(events[i])
    requires events[|events| - 1].kind.Done? && NeverDone(events[..|events| - 1])
    ensures StreamOutcome(parse, Encoded(list) + later, flushed, false) == Outcome(events, Returned)
  {
    hide Frames, Encoded, AllProcessed, TextFrames, PlainLines, Payloads, PayloadsOf, Body;
    var frames := Frames(BlankLine, Encoded(list));
    FramesOfEncoding(list);
    EncodingGivesPayloads(list);
    var outcome := StreamOutcome(parse, Encoded(list), flushed, true);
    OutcomeFits(parse, Encoded(list), flushed, true);
    FittingIsUnique(parse, Payloads(frames), true, outcome, Outcome(events, Returned));
    StoppedEarly(parse, Encoded(list), later, flushed);
  }

  // ----- A last frame without a blank line -----

  /** The end of a stream: the lines of a frame, with or without a line end behind the last one. */
  function Unclosed(lines: seq<Line>, ended: bool): string {
    Body(lines) + if ended && lines != [] then Eol(lines[|lines| - 1].crlf) else ""
  }

  lemma {:induction false} UnclosedGivesTexts(lines: seq<Line>, ended: bool)
    requires PlainLines(lines)
    ensures DataLines(FrameLines(Unclosed(lines, ended))) == Texts(lines)
  {
    hide FrameLines, DataLines, Plain;
    if !ended {
      assert Unclosed(lines, ended) == Body(lines);
      BodyGivesTexts(lines);
    } else {
      var first := lines[0];
      assert Plain(first.field);
      PlainIsOneLine(first.field);
      if |lines| == 1 {
        LinesSplit(TextOf(first.field), first.crlf, "");
        assert Unclosed(lines, ended) == TextOf(first.field) + Eol(first.crlf) + "";
        DataLineGivesText(first.field, FrameLines(""));
        EmptyLineHasNoData();
        assert Texts(lines[1..]) == [];
      } else {
        var rest := Unclosed(lines[1..], ended);
        assert Unclosed(lines, ended) == TextOf(first.field) + Eol(first.crlf) + rest;
        LinesSplit(TextOf(first.field), first.crlf, rest);
        DataLineGivesText(first.field, FrameLines(rest));
        UnclosedGivesTexts(lines[1..], ended);
      }
    }
  }

  lemma EmptyLineHasNoData()
    ensures DataLines(FrameLines("")) == []
  {
    assert FrameLines("") == [""];
    assert [""][1..] == [];
  }

  /** A text without a frame, not ending in a line end, has none after one line end either. */
  lemma {:induction false} OneEndIsNoFrame(s: string, crlf: bool)
    requires s != "" && s[|s| - 1] != '\r' && s[|s| - 1] != '\n' && Frames(BlankLine, s) == []
    ensures Frames(BlankLine, s + Eol(crlf)) == []
  {
    var t := s + Eol(crlf);
    assert t[1..] == s[1..] + Eol(crlf);
    assert SeparatorLength(BlankLine, s) == 0 && Frames(BlankLine, s[1..]) == [];
    EndIsNoSeparator(s, crlf);
    if |s| > 1 {
      OneEndIsNoFrame(s[1..], crlf);
    } else {
      assert t[1..] == Eol(crlf);
      OneEndAlone(crlf);
    }
  }

  lemma OneEndAlone(crlf: bool)
    ensures Frames(BlankLine, Eol(crlf)) == []
  {
    assert "\n"[1..] == "" && "\r\n"[1..] == "\n" && "\r\n"[2..] == "";
  }

  lemma EndIsNoSeparator(s: string, crlf: bool)
    requires s != "" && s[|s| - 1] != '\r' && s[|s| - 1] != '\n' && SeparatorLength(BlankLine, s) == 0
    ensures SeparatorLength(BlankLine, s + Eol(crlf)) == 0
  {
    var t, first := s + Eol(crlf), LineEnd(s + Eol(crlf));
    if first > 0 {
      assert first < |s| && LineEnd(s) == first;
      assert t[first..] == s[first..] + Eol(crlf);
    }
  }

  lemma {:induction false} BlankLineMakesAFrame(s: string)
    ensures Frames(BlankLine, s + "\n\n") != []
  {
    if s == "" {
      assert s + "\n\n" == "\n\n" && "\n\n"[1..] == "\n";
    } else {
      assert (s + "\n\n")[1..] == s[1..] + "\n\n";
      BlankLineMakesAFrame(s[1..]);
    }
  }

  lemma {:induction false} BodyEndsInside(lines: seq<Line>)
    requires PlainLines(lines)
    ensures var body := Body(lines); body != "" && body[|body| - 1] != '\r' && body[|body| - 1] != '\n'
  {
    if |lines| > 1 {
      BodyEndsInside(lines[1..]);
    } else {
      PlainIsOneLine(lines[0].field);
    }
  }

  lemma UnclosedHasNoFrame(lines: seq<Line>, ended: bool)
    requires PlainLines(lines)
    ensures Frames(BlankLine, Unclosed(lines, ended)) == [] && Tail(BlankLine, Unclosed(lines, ended)) == Unclosed(lines, ended)
  {
    hide Frames, Tail, Plain, Body;
    var body := Body(lines);
    BodyIsAFrame(lines, false, false, "");
    AtLast(BlankLine, "");
    assert body + ("\n" + "\n") + "" == body + "\n\n";
    FramesResume(BlankLine, body, "\n\n");
    BlankLineMakesAFrame(Tail(BlankLine, body));
    BodyEndsInside(lines);
    if ended {
      OneEndIsNoFrame(body, lines[|lines| - 1].crlf);
    } else {
      assert body + "" == body;
    }
    NoFrameIsAllTail(BlankLine, Unclosed(lines, ended));
  }

  lemma {:induction false} DataIsInk(lines: seq<Line>, ended: bool)
    requires PlainLines(lines) && Texts(lines) != []
    ensures Trim(Unclosed(lines, ended)) != ""
  {
    var at := DataAt(lines);
    var i, j := Trimmed(Unclosed(lines, ended));
    assert Unclosed(lines, ended)[at] == 'd';
  }

  lemma {:induction false} DataAt(lines: seq<Line>) returns (at: nat)
    requires PlainLines(lines) && Texts(lines) != []
    ensures at < |Body(lines)| && Body(lines)[at] == 'd'
  {
    if lines[0].field.Data? {
      at := 0;
      assert TextOf(lines[0].field)[0] == 'd';
    } else {
      at := DataAt(lines[1..]);
      at := |TextOf(lines[0].field)| + |Eol(lines[0].crlf)| + at;
    }
  }

  /**
   * The last frame needs no blank line behind it: if the stream simply ends, it is processed all
   * the same, and `done` in it completes the conversation.
   */
  lemma {:induction false} LastEventNeedsNoBlankLine(
      parse: Parser, list: seq<Written>, last: Written, ended: bool, events: seq<AgentEvent>)
    requires (forall i :: 0 <= i < |list| ==> PlainLines(list[i].lines)) && PlainLines(last.lines) && Texts(last.lines) != []
    requires |PayloadsOf(list + [last])| == |events|
    requires forall i :: 0 <= i < |events| ==> parse(PayloadsOf(list + [last])[i]) == Some(events[i])
    requires events != [] && events[|events| - 1].kind.Done? && NeverDone(events[..|events| - 1])
    ensures StreamOutcome(parse, Encoded(list) + Unclosed(last.lines, ended), "", false) == Outcome(events, Returned)
  {
    hide Frames, Tail, Encoded, AllProcessed, PlainLines, Body, Unclosed, Trim, EventData, NeverDone, Texts;
    var end := Unclosed(last.lines, ended);
    EncodingGivesPayloads(list);
    FramesResume(BlankLine, Encoded(list), end);
    UnclosedHasNoFrame(last.lines, ended);
    DataIsInk(last.lines, ended);
    UnclosedGivesPayload(last, ended);
    assert "" + end == end && end + "" == end;
    var frames := Frames(BlankLine, Encoded(list));
    assert TextFrames(Encoded(list) + end, "") == frames + [end];
    assert (frames + [end])[..|frames|] == frames && (list + [last])[..|list|] == list;
    assert Payloads(frames + [end]) == PayloadsOf(list + [last]);
    hide Payloads, PayloadsOf, TextFrames;
    OutcomeFits(parse, Encoded(list) + end, "", false);
    FittingIsUnique(parse, PayloadsOf(list + [last]), false,
      StreamOutcome(parse, Encoded(list) + end, "", false), Outcome(events, Returned));
  }

  lemma UnclosedGivesPayload(w: Written, ended: bool)
    requires PlainLines(w.lines)
    ensures EventData(Unclosed(w.lines, ended)) == PayloadOf(w)
  {
    UnclosedGivesTexts(w.lines, ended);
    if Texts(w.lines) != [] {
      JoinedWithLineFeeds(Texts(w.lines));
    }
  }
}
