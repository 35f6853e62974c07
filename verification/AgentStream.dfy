/** The agent client's side of a chat stream: what it delivers, and whether it returns or throws. */
module AgentStream {
  import opened Wrappers
  import opened SseFraming

  // ----- The data of a frame -----

  /** `split(/\r?\n/)`. */
  function FrameLines(s: string): (lines: seq<string>)
    ensures lines != []
  {
    if s == "" then [""]
    else if LineEnd(s) > 0 then [""] + FrameLines(s[LineEnd(s)..])
    else
      var rest := FrameLines(s[1..]);
      [[s[0]] + rest[0]] + rest[1..]
  }

  const DATA_FIELD := "data:"

  function DataLines(lines: seq<string>): seq<string> {
    if lines == [] then []
    else if DATA_FIELD <= lines[0] then [TrimStart(lines[0][5..])] + DataLines(lines[1..])
    else DataLines(lines[1..])
  }

  function JoinLines(lines: seq<string>): string
    requires lines != []
  {
    if |lines| == 1 then lines[0] else lines[0] + "\n" + JoinLines(lines[1..])
  }

  function EventData(frame: string): Option<string> {
    var lines := DataLines(FrameLines(frame));
    if lines == [] then None else Some(JoinLines(lines))
  }

  // ----- What a stream comes to -----

  datatype Kind = Done | TransportError | OtherKind

  datatype AgentEvent = AgentEvent(kind: Kind, body: string)

  datatype Ending = Returned | EndedBeforeDone | InvalidFrame | ReadFailed

  datatype Outcome = Outcome(events: seq<AgentEvent>, ending: Ending)

  datatype Progress =
    | Reading(events: seq<AgentEvent>, transportErrorSeen: bool)
    | Completed(events: seq<AgentEvent>)
    | Thrown(events: seq<AgentEvent>)

  /** A JSON text that is no agent event parses to `None`; the client then throws. */
  type Parser = string -> Option<AgentEvent>

  function Processed(parse: Parser, frame: string, before: Progress): Progress
    requires before.Reading?
  {
    match EventData(frame)
    case None => before
    case Some(payload) =>
      match parse(payload)
      case None => Thrown(before.events)
      case Some(event) =>
        var events := before.events + [event];
        if event.kind.Done? then Completed(events)
        else Reading(events, before.transportErrorSeen || event.kind.TransportError?)
  }

  function AllProcessed(parse: Parser, frames: seq<string>): Progress {
    if frames == [] then Reading([], false)
    else
      var before := AllProcessed(parse, frames[..|frames| - 1]);
      if before.Reading? then Processed(parse, frames[|frames| - 1], before) else before
  }

  /** The frames of a text that was read to its end; `flushed` is what the UTF-8 decoder still held. */
  function TextFrames(text: string, flushed: string): seq<string> {
    var tail := Tail(BlankLine, text) + flushed;
    Frames(BlankLine, text) + if Trim(tail) == "" then [] else [tail]
  }

  /** Depends on the text only. A read that fails leaves the tail unprocessed. */
  function StreamOutcome(parse: Parser, text: string, flushed: string, broken: bool): Outcome {
    var all := AllProcessed(parse, if broken then Frames(BlankLine, text) else TextFrames(text, flushed));
    match all
    case Completed(events) => Outcome(events, Returned)
    case Thrown(events) => Outcome(events, InvalidFrame)
    case Reading(events, seen) =>
      Outcome(events, if broken then ReadFailed else if seen then Returned else EndedBeforeDone)
  }

  /** The data of the frames that have any. */
  function Payloads(frames: seq<string>): seq<string> {
    if frames == [] then []
    else
      var before := Payloads(frames[..|frames| - 1]);
      match EventData(frames[|frames| - 1])
      case None => before
      case Some(payload) => before + [payload]
  }

  predicate DoneAt(events: seq<AgentEvent>, i: int) {
    0 <= i < |events| && events[i].kind.Done?
  }

  ghost predicate NeverDone(events: seq<AgentEvent>) {
    forall i :: !DoneAt(events, i)
  }

  ghost predicate SawTransportError(events: seq<AgentEvent>) {
    exists i :: 0 <= i < |events| && events[i].kind.TransportError?
  }

  /** The events are the first payloads, parsed. */
  ghost predicate ParsedPrefix(parse: Parser, payloads: seq<string>, events: seq<AgentEvent>) {
    |events| <= |payloads| && forall i :: 0 <= i < |events| ==> parse(payloads[i]) == Some(events[i])
  }

  /** The one outcome the payloads allow. */
  ghost predicate Fits(parse: Parser, payloads: seq<string>, broken: bool, o: Outcome) {
    && ParsedPrefix(parse, payloads, o.events)
    && var n := |o.events|;
       match o.ending
       case Returned =>
         || (n > 0 && o.events[n - 1].kind.Done? && NeverDone(o.events[..n - 1]))
         || (!broken && n == |payloads| && NeverDone(o.events) && SawTransportError(o.events))
       case InvalidFrame => n < |payloads| && parse(payloads[n]) == None && NeverDone(o.events)
       case EndedBeforeDone => !broken && n == |payloads| && NeverDone(o.events) && !SawTransportError(o.events)
       case ReadFailed => broken && n == |payloads| && NeverDone(o.events)
  }

  ghost predicate ProgressFits(parse: Parser, payloads: seq<string>, p: Progress) {
    && ParsedPrefix(parse, payloads, p.events)
    && var n := |p.events|;
       match p
       case Completed(events) => n > 0 && events[n - 1].kind.Done? && NeverDone(events[..n - 1])
       case Thrown(events) => n < |payloads| && parse(payloads[n]) == None && NeverDone(events)
       case Reading(events, seen) => n == |payloads| && NeverDone(events) && seen == SawTransportError(events)
  }

  lemma {:induction false} ProcessingFits(parse: Parser, frames: seq<string>)
    ensures ProgressFits(parse, Payloads(frames), AllProcessed(parse, frames))
  {
    if frames != [] {
      var n := |frames| - 1;
      ProcessingFits(parse, frames[..n]);
      var before := AllProcessed(parse, frames[..n]);
      if before.Reading? && EventData(frames[n]).Some? {
        OneMorePayload(parse, Payloads(frames[..n]), EventData(frames[n]).value, before);
        assert AllProcessed(parse, frames) == Processed(parse, frames[n], before);
      }
    }
  }

  lemma OneMorePayload(parse: Parser, payloads: seq<string>, payload: string, before: Progress)
    requires before.Reading? && ProgressFits(parse, payloads, before)
    ensures match parse(payload)
      case None => ProgressFits(parse, payloads + [payload], Thrown(before.events))
      case Some(event) =>
        && (event.kind.Done? ==> ProgressFits(parse, payloads + [payload], Completed(before.events + [event])))
        && (!event.kind.Done? ==>
             ProgressFits(parse, payloads + [payload],
               Reading(before.events + [event], before.transportErrorSeen || event.kind.TransportError?)))
  {
    if parse(payload).Some? {
      var event := parse(payload).value;
      var events := before.events + [event];
      assert events[..|events| - 1] == before.events;
      assert event.kind.TransportError? ==> events[|events| - 1].kind.TransportError?;
      if SawTransportError(before.events) {
        var i :| 0 <= i < |before.events| && before.events[i].kind.TransportError?;
        assert events[i].kind.TransportError?;
      }
      forall i | DoneAt(events, i) ensures i == |before.events| && event.kind.Done? {
        assert !DoneAt(before.events, i);
      }
    }
  }

  /**
   * The events are the payloads in order, up to and including the first `done`, stopping at the
   * first invalid one; "ended before done" exactly when neither `done` nor `transport_error` came.
   */
  lemma {:induction false} OutcomeFits(parse: Parser, text: string, flushed: string, broken: bool)
    ensures Fits(parse, Payloads(if broken then Frames(BlankLine, text) else TextFrames(text, flushed)), broken,
              StreamOutcome(parse, text, flushed, broken))
  {
    hide AllProcessed, Payloads, Frames, TextFrames;
    ProcessingFits(parse, if broken then Frames(BlankLine, text) else TextFrames(text, flushed));
  }

  /** No other outcome fits. */
  lemma FittingIsUnique(parse: Parser, payloads: seq<string>, broken: bool, a: Outcome, b: Outcome)
    requires Fits(parse, payloads, broken, a) && Fits(parse, payloads, broken, b)
    ensures a == b
  {
    NotShorter(parse, payloads, broken, a, b);
    NotShorter(parse, payloads, broken, b, a);
    assert a.events == b.events;
    if a.events != [] {
      assert DoneAt(a.events, |a.events| - 1) <==> a.events[|a.events| - 1].kind.Done?;
    }
  }

  lemma NotShorter(parse: Parser, payloads: seq<string>, broken: bool, a: Outcome, b: Outcome)
    requires Fits(parse, payloads, broken, a) && Fits(parse, payloads, broken, b)
    ensures |a.events| >= |b.events|
  {
    var n := |a.events|;
    if n < |b.events| {
      assert parse(payloads[n]) == Some(b.events[n]);
      assert DoneAt(a.events, n - 1);
      assert a.events[n - 1] == b.events[n - 1];
      assert DoneAt(b.events, n - 1) && DoneAt(b.events[..|b.events| - 1], n - 1);
    }
  }

  // ----- The driver -----

  lemma {:induction false} NothingAfterStop(parse: Parser, a: seq<string>, b: seq<string>)
    requires !AllProcessed(parse, a).Reading?
    ensures AllProcessed(parse, a + b) == AllProcessed(parse, a)
  {
    hide Processed;
    if b == [] {
      assert a + b == a;
    } else {
      assert (a + b)[..|a + b| - 1] == a + b[..|b| - 1];
      NothingAfterStop(parse, a, b[..|b| - 1]);
    }
  }

  lemma OneMoreFrame(parse: Parser, seen: seq<string>, frames: seq<string>, i: nat)
    requires i < |frames| && AllProcessed(parse, seen + frames[..i]).Reading?
    ensures var after := AllProcessed(parse, seen + frames[..i + 1]);
      && after == Processed(parse, frames[i], AllProcessed(parse, seen + frames[..i]))
      && (!after.Reading? ==> AllProcessed(parse, seen + frames) == after)
  {
    hide Processed;
    var some := seen + frames[..i + 1];
    assert some[..|some| - 1] == seen + frames[..i];
    if !AllProcessed(parse, some).Reading? {
      NothingAfterStop(parse, some, frames[i + 1..]);
      assert some + frames[i + 1..] == seen + frames;
    }
  }

  /** Once the loop has stopped, the rest of the text changes nothing. */
  lemma {:induction false} StoppedEarly(parse: Parser, seen: string, rest: string, flushed: string)
    requires !AllProcessed(parse, Frames(BlankLine, seen)).Reading?
    ensures var stopped := AllProcessed(parse, Frames(BlankLine, seen));
      && AllProcessed(parse, Frames(BlankLine, seen + rest)) == stopped
      && AllProcessed(parse, TextFrames(seen + rest, flushed)) == stopped
  {
    LaterTextIsIgnored(parse, seen, rest);
    TailIsIgnored(parse, seen + rest, flushed);
  }

  lemma {:induction false} LaterTextIsIgnored(parse: Parser, seen: string, rest: string)
    requires !AllProcessed(parse, Frames(BlankLine, seen)).Reading?
    ensures AllProcessed(parse, Frames(BlankLine, seen + rest)) == AllProcessed(parse, Frames(BlankLine, seen))
  {
    FramesResume(BlankLine, seen, rest);
    NothingAfterStop(parse, Frames(BlankLine, seen), Frames(BlankLine, Tail(BlankLine, seen) + rest));
  }

  lemma TailIsIgnored(parse: Parser, text: string, flushed: string)
    requires !AllProcessed(parse, Frames(BlankLine, text)).Reading?
    ensures AllProcessed(parse, TextFrames(text, flushed)) == AllProcessed(parse, Frames(BlankLine, text))
  {
    var all, frames := TextFrames(text, flushed), Frames(BlankLine, text);
    NothingAfterStop(parse, frames, all[|frames|..]);
    assert all == frames + all[|frames|..];
  }

  lemma {:induction false} JoinedGrows(chunks: seq<string>, n: nat) returns (rest: string)
    requires n <= |chunks|
    ensures Joined(chunks) == Joined(chunks[..n]) + rest
  {
    if n < |chunks| {
      rest := JoinedGrows(chunks[..|chunks| - 1], n);
      rest := rest + chunks[|chunks| - 1];
      assert chunks[..|chunks| - 1][..n] == chunks[..n];
    } else {
      rest := "";
      assert chunks[..n] == chunks;
    }
  }

  class ChatStream {
    const parse: Parser
    var delivered: seq<AgentEvent>
    var buffer: string
    var completed: bool
    var transportErrorSeen: bool

    constructor (parse: Parser)
      ensures this.parse == parse && buffer == "" && Now() == Reading([], false)
    {
      this.parse := parse;
      delivered, buffer, completed, transportErrorSeen := [], "", false, false;
    }

    ghost function Now(): Progress
      reads this
    {
      if completed then Completed(delivered) else Reading(delivered, transportErrorSeen)
    }

    method ProcessFrame(frame: string) returns (stop: bool, thrown: bool)
      requires !completed
      modifies this`delivered, this`completed, this`transportErrorSeen
      ensures var after := Processed(parse, frame, old(Now()));
        && stop == completed == after.Completed? && thrown == after.Thrown?
        && delivered == after.events && (!thrown ==> Now() == after)
    {
      stop, thrown := false, false;
      var payload := EventData(frame);
      if payload.None? { return; }
      var event := parse(payload.value);
      if event.None? { thrown := true; return; }
      delivered := delivered + [event.value];
      if event.value.kind.TransportError? { transportErrorSeen := true; }
      if event.value.kind.Done? {
        completed, stop := true, true;
      }
    }

    /** `frames.some(processFrame)`, after the frames `seen` so far. */
    method SomeFrame(frames: seq<string>, ghost seen: seq<string>) returns (stop: bool, thrown: bool)
      requires !completed && Now() == AllProcessed(parse, seen)
      modifies this`delivered, this`completed, this`transportErrorSeen
      ensures var after := AllProcessed(parse, seen + frames);
        && stop == completed == after.Completed? && thrown == after.Thrown?
        && delivered == after.events && (!thrown ==> Now() == after)
    {
      stop, thrown := false, false;
      assert seen + frames[..0] == seen;
      for i := 0 to |frames|
        invariant !stop && !thrown && !completed && Now() == AllProcessed(parse, seen + frames[..i])
      {
        OneMoreFrame(parse, seen, frames, i);
        stop, thrown := ProcessFrame(frames[i]);
        if stop || thrown { return; }
      }
      assert frames[..|frames|] == frames;
    }

    /** The `while` loop: ends with the stream, with `done`, or with an exception. */
    method ReadAll(chunks: seq<string>, ghost flushed: string) returns (thrown: bool)
      requires buffer == "" && Now() == Reading([], false)
      modifies this
      ensures var text := Joined(chunks);
              var all := AllProcessed(parse, Frames(BlankLine, text));
        && thrown == all.Thrown? && completed == all.Completed? && delivered == all.events
        && (all.Reading? ==> Now() == all && buffer == Tail(BlankLine, text))
        && (!all.Reading? ==> AllProcessed(parse, TextFrames(text, flushed)) == all)
    {
      thrown := false;
      var stop := false;
      for i := 0 to |chunks|
        invariant !stop && !thrown && !completed
        invariant buffer == Tail(BlankLine, Joined(chunks[..i]))
        invariant Now() == AllProcessed(parse, Frames(BlankLine, Joined(chunks[..i])))
      {
        assert chunks[..i + 1][..i] == chunks[..i];
        ghost var before := Joined(chunks[..i]);
        FramesResume(BlankLine, before, chunks[i]);
        buffer := buffer + chunks[i];
        var frames := Frames(BlankLine, buffer);
        buffer := Tail(BlankLine, buffer);
        stop, thrown := SomeFrame(frames, Frames(BlankLine, before));
        if stop || thrown {
          ghost var rest := JoinedGrows(chunks, i + 1);
          StoppedEarly(parse, Joined(chunks[..i + 1]), rest, flushed);
          return;
        }
      }
      assert chunks[..|chunks|] == chunks;
    }

    /** For every way of cutting the text into chunks the outcome is that of the text. */
    method Chat(chunks: seq<string>, flushed: string, broken: bool) returns (ending: Ending)
      requires buffer == "" && Now() == Reading([], false)
      modifies this
      ensures Outcome(delivered, ending) == StreamOutcome(parse, Joined(chunks), flushed, broken)
    {
      var thrown := ReadAll(chunks, flushed);
      if thrown { return InvalidFrame; }
      if broken && !completed { return ReadFailed; }
      ghost var frames := Frames(BlankLine, Joined(chunks));
      if !completed {
        buffer := buffer + flushed;
        var last := if Trim(buffer) != "" then [buffer] else [];
        var stop;
        stop, thrown := SomeFrame(last, frames);
        if thrown { return InvalidFrame; }
      }
      if !completed && !transportErrorSeen { return EndedBeforeDone; }
      return Returned;
    }
  }
}
