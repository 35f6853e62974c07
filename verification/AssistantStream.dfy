/**
 * The assistant client's side of a submit stream: the splitter, the frame parser, and the loop
 * that turns frames into handler calls.
 */
module AssistantStream {
  import opened Wrappers
  import opened SseFraming
  import opened AssistantFraming
  import opened AssistantBlocks

  // ----- The splitter -----

  /** `indexOf('\n\n')`. */
  function BlankIndex(s: string): int {
    if |s| < 2 then -1
    else if s[0] == '\n' && s[1] == '\n' then 0
    else
      var i := BlankIndex(s[1..]);
      if i < 0 then -1 else i + 1
  }

  lemma {:induction false} FirstFrame(s: string)
    ensures var i := BlankIndex(s);
      if i < 0 then Frames(TwoLf, s) == [] && Tail(TwoLf, s) == s
      else
        && i + 2 <= |s|
        && Frames(TwoLf, s) == [s[..i]] + Frames(TwoLf, s[i + 2..]) && Tail(TwoLf, s) == Tail(TwoLf, s[i + 2..])
  {
    if |s| >= 2 && SeparatorLength(TwoLf, s) == 0 {
      FirstFrame(s[1..]);
      var i := BlankIndex(s);
      if i >= 0 {
        assert s[1..][i - 1 + 2..] == s[i + 2..];
        assert s[..i] == [s[0]] + s[1..][..i - 1];
      }
    } else if |s| == 1 {
      assert s[1..] == "";
    }
  }

  /** A carriage return at the end waits: it changes no frame. */
  lemma ReturnIsHeld(body: string)
    ensures Frames(TwoLf, Normalize(body + "\r")) == Frames(TwoLf, Normalize(body))
    ensures Tail(TwoLf, Normalize(body + "\r")) == Tail(TwoLf, Normalize(body)) + "\r"
  {
    NormalizeAppend(body, "\r");
    NormalizeIdle("\r");
    var text := Normalize(body);
    FramesResume(TwoLf, text, "\r");
    TailHasNoFrame(TwoLf, text);
    HeldInTail(Tail(TwoLf, text));
  }

  lemma {:induction false} HeldInTail(t: string)
    requires Frames(TwoLf, t) == []
    ensures Frames(TwoLf, t + "\r") == [] && Tail(TwoLf, t + "\r") == t + "\r"
  {
    if t != "" {
      assert (t + "\r")[1..] == t[1..] + "\r";
      HeldInTail(t[1..]);
    }
  }

  class SseSplitter {
    var buffer: string

    constructor ()
      ensures buffer == ""
    {
      buffer := "";
    }

    /** The cutting loop of `Take`. */
    method Cut() returns (blocks: seq<string>)
      modifies this
      ensures blocks == Frames(TwoLf, old(buffer)) && buffer == Tail(TwoLf, old(buffer))
    {
      blocks := [];
      var idx := BlankIndex(buffer);
      while idx != -1
        invariant idx == BlankIndex(buffer)
        invariant blocks + Frames(TwoLf, buffer) == Frames(TwoLf, old(buffer))
        invariant Tail(TwoLf, buffer) == Tail(TwoLf, old(buffer))
        decreases |buffer|
      {
        FirstFrame(buffer);
        BlankIndexBound(buffer);
        blocks := blocks + [buffer[..idx]];
        buffer := buffer[idx + 2..];
        idx := BlankIndex(buffer);
      }
      FirstFrame(buffer);
      assert blocks + [] == blocks;
    }

    method Take(final: bool) returns (blocks: seq<string>)
      modifies this
      ensures var text := Normalize(old(buffer));
        && blocks == Frames(TwoLf, text) + (if final then TailFrame(Tail(TwoLf, text)) else [])
        && buffer == if final && Trim(Tail(TwoLf, text)) != "" then "" else Tail(TwoLf, text)
    {
      var holdCarriage := !final && buffer != "" && buffer[|buffer| - 1] == '\r';
      var body := if holdCarriage then buffer[..|buffer| - 1] else buffer;
      buffer := Normalize(body);
      blocks := Cut();
      if holdCarriage {
        buffer := buffer + "\r";
        ReturnIsHeld(body);
        assert old(buffer) == body + "\r";
      }
      if final && Trim(buffer) != "" {
        blocks := blocks + [TrimEnd(buffer)];
        buffer := "";
      }
    }

    method Push(chunk: string) returns (blocks: seq<string>)
      modifies this
      ensures var text := Normalize(old(buffer) + chunk);
        blocks == Frames(TwoLf, text) && buffer == Tail(TwoLf, text)
    {
      buffer := buffer + chunk;
      blocks := Take(false);
    }

    method Flush() returns (blocks: seq<string>)
      modifies this
      ensures var text := Normalize(old(buffer));
        && blocks == Frames(TwoLf, text) + TailFrame(Tail(TwoLf, text))
        && buffer == if Trim(Tail(TwoLf, text)) != "" then "" else Tail(TwoLf, text)
    {
      blocks := Take(true);
    }
  }

  lemma BlankIndexBound(s: string)
    ensures -1 <= BlankIndex(s)
  {
  }

  // ----- The frame parser -----

  datatype SseEvent = SseEvent(event: string, data: string)

  /** `split('\n')`. */
  function Lines(s: string): (lines: seq<string>)
    ensures lines != []
  {
    if s == "" then [""]
    else if s[0] == '\n' then [""] + Lines(s[1..])
    else
      var rest := Lines(s[1..]);
      [[s[0]] + rest[0]] + rest[1..]
  }

  function ReturnsToLf(s: string): string {
    if s == "" then "" else [if s[0] == '\r' then '\n' else s[0]] + ReturnsToLf(s[1..])
  }

  const EVENT_FIELD := "event: "
  const DATA_FIELD := "data: "

  /** The last event line wins, data lines add up. */
  function Fields(lines: seq<string>): SseEvent {
    if lines == [] then SseEvent("", "")
    else
      var before := Fields(lines[..|lines| - 1]);
      var line := lines[|lines| - 1];
      if EVENT_FIELD <= line then before.(event := Trim(line[|EVENT_FIELD|..]))
      else if DATA_FIELD <= line then before.(data := before.data + line[|DATA_FIELD|..])
      else before
  }

  function Parsed(block: string): Option<SseEvent> {
    var fields := Fields(Lines(ReturnsToLf(Normalize(block))));
    if fields == SseEvent("", "") then None else Some(fields)
  }

  method ParseSseBlock(block: string) returns (parsed: Option<SseEvent>)
    ensures parsed == Parsed(block)
  {
    var event, data := "", "";
    var lines := Lines(ReturnsToLf(Normalize(block)));
    for i := 0 to |lines|
      invariant SseEvent(event, data) == Fields(lines[..i])
    {
      var line := lines[i];
      assert lines[..i + 1][..i] == lines[..i];
      if EVENT_FIELD <= line {
        event := Trim(line[|EVENT_FIELD|..]);
      } else if DATA_FIELD <= line {
        data := data + line[|DATA_FIELD|..];
      }
    }
    assert lines[..|lines|] == lines;
    if event == "" && data == "" { return None; }
    return Some(SseEvent(event, data));
  }

  // ----- From frames to handler calls -----

  /** What `JSON.parse` and the schemas make of a data string. `null` parses but cannot be indexed. */
  datatype Payload =
    | Malformed
    | Null
    | Value(sequence: Option<real>, turnId: Option<string>, stage: Option<string>, phaseDone: bool, ms: Option<real>,
            score: Option<real>, task: TaskView, message: string, code: string, retryable: bool)

  /** A task that the schema accepts, or the paths of what is wrong with it. */
  datatype TaskView = Valid(task: string) | Invalid(issues: seq<string>)

  datatype Call =
    | OnAccepted(turnId: string, sequence: Option<real>)
    | OnStage(stage: string, done: bool, ms: Option<real>, score: Option<real>, sequence: Option<real>)
    | OnWaiting(task: string, message: string, sequence: Option<real>)
    | OnError(code: string, retryable: bool, message: string, sequence: Option<real>)
    | OnTerminalInvalid(event: string, turnId: string, sequence: Option<real>, issues: seq<string>)
    | OnNetworkLost
  {
    predicate Ends() {
      OnWaiting? || OnError? || OnNetworkLost?
    }
  }

  /** What a list of blocks leads to: it is still open, a handler has been told the end, or a frame raised. */
  datatype Progress =
    | Open(calls: seq<Call>, turn: string)
    | Told(calls: seq<Call>)
    | Raised(calls: seq<Call>)

  function Handle(decode: string -> Payload, block: string, before: Progress): Progress
    requires before.Open?
  {
    match Parsed(block)
    case None => before
    case Some(frame) => React(decode, frame, before)
  }

  function React(decode: string -> Payload, frame: SseEvent, before: Progress): Progress
    requires before.Open?
  {
    match decode(frame.data)
    case Malformed => before
    case Null => Raised(before.calls)
    case Value(sequence, turnId, stage, phaseDone, ms, score, task, message, code, retryable) =>
      if frame.event == "accepted" then
        var turn := turnId.GetOr(before.turn);
        Open(before.calls + [OnAccepted(turn, sequence)], turn)
      else if frame.event == "stage" then
        if stage.None? then before else before.(calls := before.calls + [OnStage(stage.value, phaseDone, ms, score, sequence)])
      else if frame.event == "waiting" then
        if task.Valid? && message != "" then Told(before.calls + [OnWaiting(task.task, message, sequence)])
        else
          var issues := if task.Valid? then ["message"] else task.issues;
          before.(calls := before.calls + [OnTerminalInvalid("waiting", before.turn, sequence, issues)])
      else if frame.event == "error" then
        if code == "" || message == "" then
          var issues := [if code == "" then "code" else "message"];
          before.(calls := before.calls + [OnTerminalInvalid("error", before.turn, sequence, issues)])
        else Told(before.calls + [OnError(code, retryable, message, sequence)])
      else before
  }

  function Handled(decode: string -> Payload, blocks: seq<string>): Progress {
    if blocks == [] then Open([], "")
    else
      var before := Handled(decode, blocks[..|blocks| - 1]);
      if before.Open? then Handle(decode, blocks[|blocks| - 1], before) else before
  }

  /** The handler calls of a stream that ends, or breaks, after these blocks. */
  function Calls(decode: string -> Payload, blocks: seq<string>): seq<Call> {
    var all := Handled(decode, blocks);
    if all.Told? then all.calls else all.calls + [OnNetworkLost]
  }

  datatype Connection =
    | FetchFails
    | BadResponse
    | Stream(chunks: seq<string>, broken: bool)
  {
    /** The blocks that can be handled; a broken stream is not flushed. */
    function Blocks(): seq<string> {
      match this
      case Stream(chunks, broken) => if broken then Pushed(chunks).0 else SplitBlocks(chunks)
      case _ => []
    }
  }

  lemma {:induction false} NothingFollowsTheEnd(decode: string -> Payload, a: seq<string>, b: seq<string>)
    requires !Handled(decode, a).Open?
    ensures Handled(decode, a + b) == Handled(decode, a)
  {
    hide Handle;
    if b == [] {
      assert a + b == a;
    } else {
      assert (a + b)[..|a + b| - 1] == a + b[..|b| - 1];
      NothingFollowsTheEnd(decode, a, b[..|b| - 1]);
    }
  }

  lemma {:induction false} OpenCallsDoNotEnd(decode: string -> Payload, blocks: seq<string>)
    ensures var all := Handled(decode, blocks);
      if all.Told? then
        && all.calls != [] && all.calls[|all.calls| - 1].Ends()
        && forall i :: 0 <= i < |all.calls| - 1 ==> !all.calls[i].Ends()
      else forall i :: 0 <= i < |all.calls| ==> !all.calls[i].Ends()
  {
    if blocks != [] {
      OpenCallsDoNotEnd(decode, blocks[..|blocks| - 1]);
    }
  }

  /** Whatever arrives, exactly one of waiting, error and network-lost is called, and it is the last call. */
  lemma ExactlyOneEndAndNothingAfter(decode: string -> Payload, connection: Connection)
    ensures var calls := Calls(decode, connection.Blocks());
      && calls != [] && calls[|calls| - 1].Ends()
      && forall i :: 0 <= i < |calls| - 1 ==> !calls[i].Ends()
  {
    OpenCallsDoNotEnd(decode, connection.Blocks());
  }

  /** Where the blocks do not depend on the chunks, the calls depend on the text only. */
  lemma CallsDependOnTextOnly(decode: string -> Payload, a: seq<string>, b: seq<string>)
    requires Joined(a) == Joined(b) && NoCrCrCrLf(Joined(a)) && NoBlankAfter(Joined(a))
    ensures Calls(decode, Stream(a, false).Blocks()) == Calls(decode, Stream(b, false).Blocks())
  {
    hide SplitBlocks, Calls;
    BlocksAreThoseOfTheText(a);
    BlocksAreThoseOfTheText(b);
  }

  /** More chunks never take a pushed block back. */
  lemma {:induction false} PushedGrows(chunks: seq<string>, n: nat)
    requires n <= |chunks|
    ensures Pushed(chunks[..n]).0 <= Pushed(chunks).0
  {
    if n < |chunks| {
      PushedGrows(chunks[..|chunks| - 1], n);
      assert chunks[..|chunks| - 1][..n] == chunks[..n];
    } else {
      assert chunks[..n] == chunks;
    }
  }

  lemma OneMoreBlock(decode: string -> Payload, seen: seq<string>, blocks: seq<string>, i: nat)
    requires i < |blocks| && Handled(decode, seen + blocks[..i]).Open?
    ensures var after := Handled(decode, seen + blocks[..i + 1]);
      && after == Handle(decode, blocks[i], Handled(decode, seen + blocks[..i]))
      && (!after.Open? ==> Handled(decode, seen + blocks) == after)
  {
    hide Handle;
    var some := seen + blocks[..i + 1];
    assert some[..|some| - 1] == seen + blocks[..i];
    if !Handled(decode, some).Open? {
      NothingFollowsTheEnd(decode, some, blocks[i + 1..]);
      assert some + blocks[i + 1..] == seen + blocks;
    }
  }

  lemma {:induction false} StoppedEarly(decode: string -> Payload, chunks: seq<string>, n: nat)
    requires n <= |chunks| && !Handled(decode, Pushed(chunks[..n]).0).Open?
    ensures Handled(decode, Pushed(chunks).0) == Handled(decode, Pushed(chunks[..n]).0)
  {
    PushedGrows(chunks, n);
    var done, all := Pushed(chunks[..n]).0, Pushed(chunks).0;
    assert all == done + all[|done|..];
    NothingFollowsTheEnd(decode, done, all[|done|..]);
  }

  lemma {:induction false} FlushChangesNothing(decode: string -> Payload, chunks: seq<string>)
    requires !Handled(decode, Pushed(chunks).0).Open?
    ensures Handled(decode, SplitBlocks(chunks)) == Handled(decode, Pushed(chunks).0)
  {
    var done, all := Pushed(chunks).0, SplitBlocks(chunks);
    assert all == done + all[|done|..];
    NothingFollowsTheEnd(decode, done, all[|done|..]);
  }

  class SubmitStream {
    const decode: string -> Payload
    var log: seq<Call>
    var settled: bool
    var streamTurnId: string

    constructor (decode: string -> Payload)
      ensures this.decode == decode && Now() == Open([], "")
    {
      this.decode := decode;
      log, settled, streamTurnId := [], false, "";
    }

    ghost function Now(): Progress
      reads this
    {
      if settled then Told(log) else Open(log, streamTurnId)
    }

    /** `deliver`: true stops the stream; `raised` is the exception of indexing `null`. */
    method Deliver(block: string) returns (stop: bool, raised: bool)
      requires !settled
      modifies this
      ensures var after := Handle(decode, block, old(Now()));
        && raised == after.Raised? && stop == after.Told?
        && Now() == if raised then old(Now()) else after
      ensures raised ==> log == Handle(decode, block, old(Now())).calls
    {
      stop, raised := false, false;
      var parsed := ParseSseBlock(block);
      if parsed.None? { return; }
      var event := parsed.value.event;
      var payload := decode(parsed.value.data);
      if payload.Malformed? { return; }
      if payload.Null? { raised := true; return; }
      var sequence := payload.sequence;
      if event == "accepted" {
        if payload.turnId.Some? { streamTurnId := payload.turnId.value; }
        log := log + [OnAccepted(streamTurnId, sequence)];
        return;
      }
      if event == "stage" {
        if payload.stage.Some? {
          log := log + [OnStage(payload.stage.value, payload.phaseDone, payload.ms, payload.score, sequence)];
        }
        return;
      }
      if event == "waiting" {
        if payload.task.Valid? && payload.message != "" {
          log := log + [OnWaiting(payload.task.task, payload.message, sequence)];
          settled, stop := true, true;
          return;
        }
        var issues := if payload.task.Valid? then ["message"] else payload.task.issues;
        log := log + [OnTerminalInvalid("waiting", streamTurnId, sequence, issues)];
        return;
      }
      if event == "error" {
        if payload.code == "" || payload.message == "" {
          var issues := [if payload.code == "" then "code" else "message"];
          log := log + [OnTerminalInvalid("error", streamTurnId, sequence, issues)];
          return;
        }
        log := log + [OnError(payload.code, payload.retryable, payload.message, sequence)];
        settled, stop := true, true;
      }
    }

    /** The loop over one batch of blocks, after the blocks `seen` so far. */
    method DeliverAll(blocks: seq<string>, ghost seen: seq<string>) returns (stop: bool, raised: bool)
      requires !settled && Now() == Handled(decode, seen)
      modifies this
      ensures !stop && !raised ==> !settled && Now() == Handled(decode, seen + blocks)
      ensures stop ==> settled && !raised && Now() == Handled(decode, seen + blocks)
      ensures raised ==> !settled && Handled(decode, seen + blocks) == Raised(log)
    {
      stop, raised := false, false;
      assert seen + blocks[..0] == seen;
      for i := 0 to |blocks|
        invariant !settled && Now() == Handled(decode, seen + blocks[..i])
        invariant !stop && !raised
      {
        OneMoreBlock(decode, seen, blocks, i);
        stop, raised := Deliver(blocks[i]);
        if stop || raised { return; }
      }
      assert blocks[..|blocks|] == blocks;
    }

    /** The body of the `try`; true if it raised. */
    method Read(connection: Connection) returns (raised: bool)
      requires Now() == Open([], "")
      modifies this
      ensures raised ==> !settled
      ensures Calls(decode, connection.Blocks()) == log + if raised then [OnNetworkLost] else []
    {
      hide Pushed;
      match connection {
        case FetchFails =>
          return true;
        case BadResponse =>
          log := log + [OnNetworkLost];
          settled := true;
          return false;
        case Stream(chunks, broken) =>
          var splitter := new SseSplitter();
          var stop;
          stop, raised := Pump(chunks, splitter);
          if stop || raised {
            FlushChangesNothing(decode, chunks);
            return;
          }
          if broken { return true; }
          var blocks := splitter.Flush();
          stop, raised := DeliverAll(blocks, Pushed(chunks).0);
          assert Pushed(chunks).0 + blocks == SplitBlocks(chunks);
          if stop || raised { return; }
          if !settled { log := log + [OnNetworkLost]; }
      }
    }

    /** The read loop, up to the end of the stream or the first block that stops it. */
    method Pump(chunks: seq<string>, splitter: SseSplitter) returns (stop: bool, raised: bool)
      requires Now() == Open([], "") && splitter.buffer == ""
      modifies this, splitter
      ensures var all := Handled(decode, Pushed(chunks).0);
        && stop == all.Told? && raised == all.Raised? && log == all.calls && settled == stop
        && (all.Open? ==> streamTurnId == all.turn && splitter.buffer == Pushed(chunks).1)
    {
      stop, raised := false, false;
      for i := 0 to |chunks|
        invariant splitter.buffer == Pushed(chunks[..i]).1
        invariant !stop && !raised && !settled && Now() == Handled(decode, Pushed(chunks[..i]).0)
      {
        assert chunks[..i + 1][..i] == chunks[..i];
        var blocks := splitter.Push(chunks[i]);
        stop, raised := DeliverAll(blocks, Pushed(chunks[..i]).0);
        if stop || raised {
          StoppedEarly(decode, chunks, i + 1);
          return;
        }
      }
      assert chunks[..|chunks|] == chunks;
    }

    /** For every connection the handlers get the calls of the blocks it yields. */
    method Submit(connection: Connection)
      requires Now() == Open([], "")
      modifies this
      ensures log == Calls(decode, connection.Blocks())
    {
      var raised := Read(connection);
      if raised && !settled {
        log := log + [OnNetworkLost];
      }
    }
  }
}
