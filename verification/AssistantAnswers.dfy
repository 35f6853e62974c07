/**
 * Which handler calls a submit stream gets, said of the frames it carries and not of the loop that
 * handles them: what each frame means, which frame ends the turn, and in what order the calls come.
 */
module AssistantAnswers {
  import opened Wrappers
  import opened AssistantStream

  /** The frames of the blocks that are no noise, in order. */
  function FramesIn(blocks: seq<string>): seq<SseEvent> {
    if blocks == [] then []
    else
      var before := FramesIn(blocks[..|blocks| - 1]);
      match Parsed(blocks[|blocks| - 1])
      case None => before
      case Some(frame) => before + [frame]
  }

  // ----- What a frame means -----

  /** A `waiting` or an `error` with all it needs ends the turn. */
  predicate Concludes(decode: string -> Payload, frame: SseEvent) {
    var p := decode(frame.data);
    && p.Value?
    && ((frame.event == "waiting" && p.task.Valid? && p.message != "")
        || (frame.event == "error" && p.code != "" && p.message != ""))
  }

  /** Nothing is handled after a frame that ends the turn, or one whose payload is `null`. */
  predicate Stops(decode: string -> Payload, frame: SseEvent) {
    Concludes(decode, frame) || decode(frame.data).Null?
  }

  /** A handler is called, and the turn goes on. */
  predicate Notes(decode: string -> Payload, frame: SseEvent) {
    var p := decode(frame.data);
    && p.Value? && !Concludes(decode, frame)
    && (frame.event == "accepted" || (frame.event == "stage" && p.stage.Some?) || frame.event == "waiting" || frame.event == "error")
  }

  /** The call is the one this frame asks for, while `turn` is the turn in force. */
  predicate Answers(decode: string -> Payload, frame: SseEvent, turn: string, call: Call) {
    var p := decode(frame.data);
    p.Value? &&
    match call
    case OnAccepted(turnId, sequence) =>
      frame.event == "accepted" && turnId == turn && sequence == p.sequence
    case OnStage(stage, done, ms, score, sequence) =>
      frame.event == "stage" && p.stage == Some(stage) && done == p.phaseDone && ms == p.ms && score == p.score && sequence == p.sequence
    case OnWaiting(task, message, sequence) =>
      frame.event == "waiting" && p.task == Valid(task) && message == p.message != "" && sequence == p.sequence
    case OnError(code, retryable, message, sequence) =>
      frame.event == "error" && code == p.code != "" && message == p.message != "" && retryable == p.retryable && sequence == p.sequence
    case OnTerminalInvalid(event, turnId, sequence, issues) =>
      && event == frame.event && turnId == turn && sequence == p.sequence
      && ((event == "waiting" && p.task == Invalid(issues))
          || (event == "waiting" && p.task.Valid? && p.message == "" && issues == ["message"])
          || (event == "error" && p.code == "" && issues == ["code"])
          || (event == "error" && p.code != "" && p.message == "" && issues == ["message"]))
    case OnNetworkLost => false
  }

  /** The turn in force after `n` frames: the id that the last `accepted` with one gives it. */
  function TurnAt(decode: string -> Payload, frames: seq<SseEvent>, n: nat): string
    requires n <= |frames|
  {
    if n == 0 then ""
    else
      var p := decode(frames[n - 1].data);
      if frames[n - 1].event == "accepted" && p.Value? && p.turnId.Some? then p.turnId.value else TurnAt(decode, frames, n - 1)
  }

  // ----- What the calls are -----

  /** The first frame at which handling stops; if none does, the end. */
  function StopAt(decode: string -> Payload, frames: seq<SseEvent>): (n: nat)
    ensures n <= |frames| && forall i :: 0 <= i < n ==> !Stops(decode, frames[i])
    ensures n < |frames| ==> Stops(decode, frames[n])
  {
    if frames == [] then 0
    else
      var before := StopAt(decode, frames[..|frames| - 1]);
      if before == |frames| - 1 && !Stops(decode, frames[before]) then |frames| else before
  }

  /** How many of the first `n` frames get a call. */
  function Noted(decode: string -> Payload, frames: seq<SseEvent>, n: nat): nat
    requires n <= |frames|
  {
    if n == 0 then 0 else Noted(decode, frames, n - 1) + if Notes(decode, frames[n - 1]) then 1 else 0
  }

  /** The call at position `c` is the one frame `i` asks for. */
  ghost predicate IsAnswered(decode: string -> Payload, frames: seq<SseEvent>, i: nat, calls: seq<Call>, c: nat)
    requires i < |frames|
  {
    c < |calls| && Answers(decode, frames[i], TurnAt(decode, frames, i + 1), calls[c])
  }

  /** Every frame before the stop that asks for a call has one, in order. */
  ghost predicate AllAnswered(decode: string -> Payload, frames: seq<SseEvent>, n: nat, calls: seq<Call>)
    requires n <= |frames|
  {
    forall i :: 0 <= i < n && Notes(decode, frames[i]) ==> IsAnswered(decode, frames, i, calls, Noted(decode, frames, i))
  }

  /**
   * The calls for these frames: one for each frame before the stop that asks for one, and then a
   * last one, for the frame that ends the turn, or the loss of the network if none did.
   */
  ghost predicate Fits(decode: string -> Payload, frames: seq<SseEvent>, calls: seq<Call>) {
    var n := StopAt(decode, frames);
    && |calls| == Noted(decode, frames, n) + 1
    && AllAnswered(decode, frames, n, calls)
    && if n < |frames| && Concludes(decode, frames[n]) then IsAnswered(decode, frames, n, calls, |calls| - 1)
       else calls[|calls| - 1] == OnNetworkLost
  }

  // ----- The loop makes these calls -----

  /** What the client does with a list of frames. */
  function Reacted(decode: string -> Payload, frames: seq<SseEvent>): Progress {
    if frames == [] then Open([], "")
    else
      var before := Reacted(decode, frames[..|frames| - 1]);
      if before.Open? then React(decode, frames[|frames| - 1], before) else before
  }

  lemma {:induction false} HandledAsFrames(decode: string -> Payload, blocks: seq<string>)
    ensures Handled(decode, blocks) == Reacted(decode, FramesIn(blocks))
  {
    if blocks != [] {
      var n := |blocks| - 1;
      HandledAsFrames(decode, blocks[..n]);
      var before := FramesIn(blocks[..n]);
      if Parsed(blocks[n]).Some? {
        assert FramesIn(blocks)[..|before|] == before;
      }
    }
  }

  /** The progress after these frames, as the description has it. */
  ghost predicate FitsSoFar(decode: string -> Payload, frames: seq<SseEvent>, progress: Progress) {
    var n := StopAt(decode, frames);
    && AllAnswered(decode, frames, n, progress.calls)
    && if n == |frames| then
         progress == Open(progress.calls, TurnAt(decode, frames, n)) && |progress.calls| == Noted(decode, frames, n)
       else if Concludes(decode, frames[n]) then
         progress.Told? && |progress.calls| == Noted(decode, frames, n) + 1
         && IsAnswered(decode, frames, n, progress.calls, |progress.calls| - 1)
       else progress.Raised? && |progress.calls| == Noted(decode, frames, n)
  }

  /** One more frame does not change what is said of those before it. */
  lemma {:induction false} PrefixSame(decode: string -> Payload, frames: seq<SseEvent>, m: nat, n: nat)
    requires n <= m <= |frames|
    ensures Noted(decode, frames[..m], n) == Noted(decode, frames, n)
    ensures TurnAt(decode, frames[..m], n) == TurnAt(decode, frames, n)
  {
    if n > 0 {
      PrefixSame(decode, frames, m, n - 1);
    }
  }

  lemma {:induction false} NotedGrows(decode: string -> Payload, frames: seq<SseEvent>, i: nat, n: nat)
    requires i <= n <= |frames|
    ensures Noted(decode, frames, i) <= Noted(decode, frames, n)
    ensures i < n && Notes(decode, frames[i]) ==> Noted(decode, frames, i) < Noted(decode, frames, n)
  {
    if i < n {
      NotedGrows(decode, frames, i, n - 1);
    }
  }

  lemma {:induction false} StillAnswered(
      decode: string -> Payload, frames: seq<SseEvent>, m: nat, n: nat, calls: seq<Call>, more: seq<Call>)
    requires n <= m <= |frames| && AllAnswered(decode, frames[..m], n, calls)
    ensures AllAnswered(decode, frames, n, calls + more)
  {
    forall i | 0 <= i < n && Notes(decode, frames[i])
      ensures IsAnswered(decode, frames, i, calls + more, Noted(decode, frames, i))
    {
      PrefixSame(decode, frames, m, i);
      PrefixSame(decode, frames, m, i + 1);
      assert Notes(decode, frames[..m][i]);
      assert IsAnswered(decode, frames[..m], i, calls, Noted(decode, frames[..m], i));
    }
  }

  lemma {:induction false} ReactionFits(decode: string -> Payload, frames: seq<SseEvent>)
    ensures FitsSoFar(decode, frames, Reacted(decode, frames))
  {
    if frames != [] {
      var m := |frames| - 1;
      var before := Reacted(decode, frames[..m]);
      ReactionFits(decode, frames[..m]);
      OneMoreFrame(decode, frames, before);
    }
  }

  /** The turn in force after one more frame. */
  function NextTurn(decode: string -> Payload, frame: SseEvent, turn: string): string {
    var p := decode(frame.data);
    if frame.event == "accepted" && p.Value? && p.turnId.Some? then p.turnId.value else turn
  }

  /** What one frame adds, or how it stops the handling. */
  ghost predicate Adds(decode: string -> Payload, frame: SseEvent, before: Progress, after: Progress)
    requires before.Open?
  {
    var turn := NextTurn(decode, frame, before.turn);
    if Concludes(decode, frame) then
      after.Told? && |after.calls| == |before.calls| + 1 && before.calls < after.calls
      && Answers(decode, frame, turn, after.calls[|before.calls|])
    else if Stops(decode, frame) then after == Raised(before.calls)
    else if Notes(decode, frame) then
      after == Open(after.calls, turn) && |after.calls| == |before.calls| + 1 && before.calls < after.calls
      && Answers(decode, frame, turn, after.calls[|before.calls|])
    else after == Open(before.calls, turn)
  }

  lemma OneFrameAdds(decode: string -> Payload, frame: SseEvent, before: Progress)
    requires before.Open?
    ensures Adds(decode, frame, before, React(decode, frame, before))
  {
  }

  lemma {:induction false} OneMoreFrame(decode: string -> Payload, frames: seq<SseEvent>, before: Progress)
    requires frames != [] && FitsSoFar(decode, frames[..|frames| - 1], before)
    ensures FitsSoFar(decode, frames, if before.Open? then React(decode, frames[|frames| - 1], before) else before)
  {
    hide React, Answers, Concludes, Notes;
    var m := |frames| - 1;
    var n := StopAt(decode, frames[..m]);
    PrefixSame(decode, frames, m, n);
    if n < m {
      PrefixSame(decode, frames, m, n + 1);
      StillAnswered(decode, frames, m, n, before.calls, []);
      assert before.calls + [] == before.calls;
    } else {
      var after := React(decode, frames[m], before);
      OneFrameAdds(decode, frames[m], before);
      StillAnswered(decode, frames, m, m, before.calls, after.calls[|before.calls|..]);
      assert before.calls + after.calls[|before.calls|..] == after.calls;
    }
  }

  /** Whatever the blocks, the handlers get exactly the calls their frames ask for. */
  lemma CallsFit(decode: string -> Payload, blocks: seq<string>)
    ensures Fits(decode, FramesIn(blocks), Calls(decode, blocks))
  {
    var frames := FramesIn(blocks);
    HandledAsFrames(decode, blocks);
    ReactionFits(decode, frames);
    FinishedFits(decode, frames, Handled(decode, blocks));
  }

  lemma FinishedFits(decode: string -> Payload, frames: seq<SseEvent>, all: Progress)
    requires FitsSoFar(decode, frames, all)
    ensures Fits(decode, frames, if all.Told? then all.calls else all.calls + [OnNetworkLost])
  {
    var n := StopAt(decode, frames);
    assert frames[..|frames|] == frames;
    StillAnswered(decode, frames, |frames|, n, all.calls, []);
    StillAnswered(decode, frames, |frames|, n, all.calls, [OnNetworkLost]);
    assert all.calls + [] == all.calls;
  }

  // ----- And no others -----

  lemma AnswerIsUnique(decode: string -> Payload, frame: SseEvent, turn: string, a: Call, b: Call)
    requires Answers(decode, frame, turn, a) && Answers(decode, frame, turn, b)
    ensures a == b
  {
  }

  lemma {:induction false} FrameOfCall(decode: string -> Payload, frames: seq<SseEvent>, n: nat, c: nat) returns (i: nat)
    requires n <= |frames| && c < Noted(decode, frames, n)
    ensures i < n && Notes(decode, frames[i]) && Noted(decode, frames, i) == c
  {
    if c < Noted(decode, frames, n - 1) {
      i := FrameOfCall(decode, frames, n - 1, c);
    } else {
      i := n - 1;
    }
  }

  /** The description leaves no choice. */
  lemma FittingCallsAreUnique(decode: string -> Payload, frames: seq<SseEvent>, a: seq<Call>, b: seq<Call>)
    requires Fits(decode, frames, a) && Fits(decode, frames, b)
    ensures a == b
  {
    var n := StopAt(decode, frames);
    forall c | 0 <= c < |a| ensures a[c] == b[c] {
      if c < |a| - 1 {
        var i := FrameOfCall(decode, frames, n, c);
        assert IsAnswered(decode, frames, i, a, c) && IsAnswered(decode, frames, i, b, c);
        AnswerIsUnique(decode, frames[i], TurnAt(decode, frames, i + 1), a[c], b[c]);
      } else if n < |frames| && Concludes(decode, frames[n]) {
        AnswerIsUnique(decode, frames[n], TurnAt(decode, frames, n + 1), a[c], b[c]);
      }
    }
  }
}
