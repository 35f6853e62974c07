/** What the assistant client's splitter computes from the text it has been given so far. */
module AssistantFraming {
  import opened SseFraming

  /** `replace(/\r\n/g, '\n')`. */
  function Normalize(s: string): string {
    if s == "" then ""
    else if |s| >= 2 && s[0] == '\r' && s[1] == '\n' then "\n" + Normalize(s[2..])
    else [s[0]] + Normalize(s[1..])
  }

  /** The frame a flush makes of an unfinished tail. */
  function TailFrame(rest: string): seq<string> {
    if Trim(rest) == "" then [] else [TrimEnd(rest)]
  }

  /** Normalise the whole text once, cut it at blank lines, keep a non-blank tail. */
  function WholeFrames(text: string): seq<string> {
    Frames(TwoLf, Normalize(text)) + TailFrame(Tail(TwoLf, Normalize(text)))
  }

  /** What the pushes of the chunks return together, and the buffer they leave. */
  function Pushed(chunks: seq<string>): (result: (seq<string>, string)) {
    if chunks == [] then ([], "")
    else
      var (frames, buffer) := Pushed(chunks[..|chunks| - 1]);
      var text := Normalize(buffer + chunks[|chunks| - 1]);
      (frames + Frames(TwoLf, text), Tail(TwoLf, text))
  }

  /** The blocks of a whole stream: those of the pushes, then those of the flush. */
  function SplitBlocks(chunks: seq<string>): seq<string> {
    var (frames, buffer) := Pushed(chunks);
    frames + Frames(TwoLf, Normalize(buffer)) + TailFrame(Tail(TwoLf, Normalize(buffer)))
  }

  predicate CrLfAt(s: string, i: int) {
    0 <= i < |s| - 1 && s[i] == '\r' && s[i + 1] == '\n'
  }

  predicate CrCrLfAt(s: string, i: int) {
    0 <= i < |s| - 2 && s[i] == '\r' && CrLfAt(s, i + 1)
  }

  ghost predicate NoCrLf(s: string) {
    forall i :: !CrLfAt(s, i)
  }

  ghost predicate NoCrCrLf(s: string) {
    forall i :: !CrCrLfAt(s, i)
  }

  lemma SlicesStayClean(s: string, lo: nat, hi: nat)
    requires lo <= hi <= |s|
    ensures NoCrLf(s) ==> NoCrLf(s[lo..hi])
    ensures NoCrCrLf(s) ==> NoCrCrLf(s[lo..hi])
  {
    forall i | CrLfAt(s[lo..hi], i) ensures !NoCrLf(s) {
      assert CrLfAt(s, i + lo);
    }
    forall i | CrCrLfAt(s[lo..hi], i) ensures !NoCrCrLf(s) {
      assert CrCrLfAt(s, i + lo);
    }
  }

  // ----- Normalisation -----

  lemma {:induction false} NormalizeAppend(a: string, b: string)
    requires a == "" || b == "" || a[|a| - 1] != '\r' || b[0] != '\n'
    ensures Normalize(a + b) == Normalize(a) + Normalize(b)
    decreases |a|
  {
    if a == "" {
      assert a + b == b;
    } else if |a| >= 2 && a[0] == '\r' && a[1] == '\n' {
      assert (a + b)[2..] == a[2..] + b;
      NormalizeAppend(a[2..], b);
    } else {
      assert (a + b)[1..] == a[1..] + b;
      NormalizeAppend(a[1..], b);
    }
  }

  lemma {:induction false} NormalizeIdle(s: string)
    requires NoCrLf(s)
    ensures Normalize(s) == s
  {
    if s != "" {
      assert !CrLfAt(s, 0);
      SlicesStayClean(s, 1, |s|);
      assert s[1..|s|] == s[1..];
      NormalizeIdle(s[1..]);
    }
  }

  lemma {:induction false} NormalizeCleans(s: string)
    requires NoCrCrLf(s)
    ensures NoCrLf(Normalize(s))
    decreases |s|
  {
    if s != "" {
      var n := if |s| >= 2 && s[0] == '\r' && s[1] == '\n' then 2 else 1;
      SlicesStayClean(s, n, |s|);
      assert s[n..|s|] == s[n..];
      NormalizeCleans(s[n..]);
      assert !CrCrLfAt(s, 0);
      var t := Normalize(s[n..]);
      assert Normalize(s) == [Normalize(s)[0]] + t;
      forall i ensures !CrLfAt(Normalize(s), i) {
        if i > 0 && CrLfAt(Normalize(s), i) {
          assert CrLfAt(t, i - 1);
        }
      }
    }
  }

  /** Normalising what is already normalised, with more text behind it, changes nothing. */
  lemma NormalizeResumes(a: string, b: string)
    requires NoCrCrLf(a + b)
    ensures Normalize(Normalize(a) + b) == Normalize(a + b)
  {
    assert (a + b)[0..|a|] == a;
    SlicesStayClean(a + b, 0, |a|);
    NormalizeCleans(a);
    NormalizeIdle(Normalize(a));
    if a != "" && a[|a| - 1] == '\r' {
      assert a == a[..|a| - 1] + "\r";
      NormalizeResumesAfterReturn(a[..|a| - 1], b);
    } else {
      NormalizeAppend(a, b);
      LastOfNormalize(a);
      NormalizeAppend(Normalize(a), b);
    }
  }

  lemma NormalizeResumesAfterReturn(c: string, b: string)
    requires NoCrLf(Normalize(c + "\r"))
    ensures Normalize(Normalize(c + "\r") + b) == Normalize(c + "\r" + b)
  {
    var t := Normalize(c);
    NormalizeAppend(c, "\r");
    NormalizeIdle("\r");
    SlicesStayClean(t + "\r", 0, |t|);
    assert (t + "\r")[0..|t|] == t;
    NormalizeIdle(t);
    assert c + "\r" + b == c + ("\r" + b) && t + "\r" + b == t + ("\r" + b);
    NormalizeAppend(c, "\r" + b);
    NormalizeAppend(t, "\r" + b);
  }

  lemma {:induction false} LastOfNormalize(s: string)
    ensures s == "" <==> Normalize(s) == ""
    ensures s != "" ==> Normalize(s)[|Normalize(s)| - 1] == s[|s| - 1]
    decreases |s|
  {
    if s != "" {
      LastOfNormalize(s[if |s| >= 2 && s[0] == '\r' && s[1] == '\n' then 2 else 1..]);
    }
  }

  // ----- Chunk invariance -----

  /** The text before the tail ends in a line feed and holds all the frames. */
  lemma {:induction false} HeadHoldsFrames(s: string) returns (head: string)
    ensures s == head + Tail(TwoLf, s)
    ensures Frames(TwoLf, head) == Frames(TwoLf, s) && Tail(TwoLf, head) == ""
    ensures head == "" || (|head| >= 2 && head[|head| - 2] == '\n' && head[|head| - 1] == '\n')
  {
    hide Frames, Tail;
    if s == "" || (SeparatorLength(TwoLf, s) == 0 && Frames(TwoLf, s[1..]) == []) {
      head := "";
      AtLast(TwoLf, s);
      AtLast(TwoLf, head);
    } else if SeparatorLength(TwoLf, s) > 0 {
      var rest := HeadHoldsFrames(s[2..]);
      head := "\n\n" + rest;
      assert head[2..] == rest && s == "\n\n" + s[2..];
      AtSeparator(TwoLf, s, 2);
      AtSeparator(TwoLf, head, 2);
    } else {
      var rest := HeadHoldsFrames(s[1..]);
      head := [s[0]] + rest;
      AtLast(TwoLf, "");
      assert head[1..] == rest && rest[0] == s[1];
      AtCharacter(TwoLf, s);
      AtCharacter(TwoLf, head);
    }
  }

  /**
   * For every stream without CR CR LF and every way of cutting it into chunks, the pushes return
   * the frames of the text normalised as a whole, and the buffer is its tail.
   */
  lemma {:induction false} PushesAreChunkInvariant(chunks: seq<string>)
    requires NoCrCrLf(Joined(chunks))
    ensures Pushed(chunks) ==
      (Frames(TwoLf, Normalize(Joined(chunks))), Tail(TwoLf, Normalize(Joined(chunks))))
  {
    if chunks != [] {
      var n := |chunks| - 1;
      var before, chunk := Joined(chunks[..n]), chunks[n];
      assert Joined(chunks)[0..|before|] == before;
      SlicesStayClean(Joined(chunks), 0, |before|);
      PushesAreChunkInvariant(chunks[..n]);
      PushExtends(before, chunk);
    }
  }

  lemma PushExtends(before: string, chunk: string)
    requires NoCrCrLf(before + chunk)
    ensures var tail := Tail(TwoLf, Normalize(before));
      && Frames(TwoLf, Normalize(before + chunk)) ==
           Frames(TwoLf, Normalize(before)) + Frames(TwoLf, Normalize(tail + chunk))
      && Tail(TwoLf, Normalize(before + chunk)) == Tail(TwoLf, Normalize(tail + chunk))
  {
    var text := Normalize(before);
    var tail := Tail(TwoLf, text);
    var head := HeadHoldsFrames(text);
    NormalizeResumes(before, chunk);
    assert (before + chunk)[0..|before|] == before;
    SlicesStayClean(before + chunk, 0, |before|);
    NormalizeCleans(before);
    SlicesStayClean(text, 0, |head|);
    assert text[0..|head|] == head;
    NormalizeIdle(head);
    assert text + chunk == head + (tail + chunk);
    NormalizeAppend(head, tail + chunk);
    FramesResume(TwoLf, head, Normalize(tail + chunk));
    assert "" + Normalize(tail + chunk) == Normalize(tail + chunk);
  }

  /** With the flush at the end of the stream: the frames do not depend on the chunks. */
  lemma FramesAreChunkInvariant(chunks: seq<string>)
    requires NoCrCrLf(Joined(chunks))
    ensures SplitBlocks(chunks) == WholeFrames(Joined(chunks))
  {
    PushesAreChunkInvariant(chunks);
    var text := Normalize(Joined(chunks));
    var tail := Tail(TwoLf, text);
    var head := HeadHoldsFrames(text);
    NormalizeCleans(Joined(chunks));
    SlicesStayClean(text, |head|, |text|);
    assert text[|head|..|text|] == tail;
    NormalizeIdle(tail);
    TailHasNoFrame(TwoLf, text);
  }

  // ----- The hypothesis is exact -----

  function Returns(s: string): nat {
    if s == "" then 0 else (if s[0] == '\r' then 1 else 0) + Returns(s[1..])
  }

  function ReturnsIn(frames: seq<string>): nat {
    if frames == [] then 0 else Returns(frames[0]) + ReturnsIn(frames[1..])
  }

  function CrLfs(s: string): nat {
    if s == "" then 0
    else if |s| >= 2 && s[0] == '\r' && s[1] == '\n' then 1 + CrLfs(s[2..]) else CrLfs(s[1..])
  }

  lemma {:induction false} ReturnsAdd(a: string, b: string)
    ensures Returns(a + b) == Returns(a) + Returns(b)
  {
    if a == "" {
      assert a + b == b;
    } else {
      assert (a + b)[1..] == a[1..] + b;
      ReturnsAdd(a[1..], b);
    }
  }

  lemma {:induction false} ReturnsInAdd(a: seq<string>, b: seq<string>)
    ensures ReturnsIn(a + b) == ReturnsIn(a) + ReturnsIn(b)
  {
    if a == [] {
      assert a + b == b;
    } else {
      assert (a + b)[1..] == a[1..] + b;
      ReturnsInAdd(a[1..], b);
    }
  }

  /** Cutting into frames drops line feeds only. */
  lemma {:induction false} FramesKeepReturns(s: string)
    ensures ReturnsIn(Frames(TwoLf, s)) + Returns(Tail(TwoLf, s)) == Returns(s)
  {
    if s != "" {
      if SeparatorLength(TwoLf, s) > 0 {
        FramesKeepReturns(s[2..]);
        assert s == [s[0]] + ([s[1]] + s[2..]);
        assert Returns(s) == Returns(s[1..]) && s[1..][1..] == s[2..];
      } else {
        FramesKeepReturns(s[1..]);
        var later := Frames(TwoLf, s[1..]);
        if later != [] {
          ReturnsAdd([s[0]], later[0]);
          assert Returns([s[0]]) == if s[0] == '\r' then 1 else 0;
        }
      }
    }
  }

  /** Normalising drops one carriage return for each CRLF. */
  lemma {:induction false} NormalizeDropsReturns(s: string)
    ensures Returns(Normalize(s)) + CrLfs(s) == Returns(s)
    decreases |s|
  {
    if s != "" {
      if |s| >= 2 && s[0] == '\r' && s[1] == '\n' {
        NormalizeDropsReturns(s[2..]);
        assert s[1..][1..] == s[2..];
      } else {
        NormalizeDropsReturns(s[1..]);
      }
    }
  }

  lemma {:induction false} CrLfCounts(s: string, i: nat)
    requires CrLfAt(s, i)
    ensures CrLfs(s) > 0
  {
    if i > 0 && !(s[0] == '\r' && s[1] == '\n') {
      assert CrLfAt(s[1..], i - 1);
      CrLfCounts(s[1..], i - 1);
    }
  }

  /** The CRLF that a CR CR LF leaves in the buffer is rewritten by the next push. */
  lemma SecondPushLosesReturn(first: string, second: string)
    requires |first| >= 3 && CrCrLfAt(first, |first| - 3)
    ensures var buffer := Tail(TwoLf, Normalize(first));
      Returns(Normalize(buffer + second)) < Returns(buffer) + Returns(Normalize(second))
  {
    var buffer := Tail(TwoLf, Normalize(first));
    EndsInCrLf(first);
    TailEndsInCrLf(Normalize(first));
    NormalizeAppend(buffer, second);
    ReturnsAdd(Normalize(buffer), Normalize(second));
    NormalizeDropsReturns(buffer);
    CrLfCounts(buffer, |buffer| - 2);
  }

  lemma CuttingAfterCrCrLfDiffers(first: string, second: string)
    requires |first| >= 3 && CrCrLfAt(first, |first| - 3)
    ensures Pushed([first + second]) != Pushed([first, second])
  {
    PushedOnce(first + second);
    PushedOnce(first);
    PushedTwice(first, second);
    var left := Normalize(first);
    var right := Normalize(Tail(TwoLf, left) + second);
    SecondPushLosesReturn(first, second);
    NormalizeAppend(first, second);
    ReturnsAdd(left, Normalize(second));
    FramesKeepReturns(left + Normalize(second));
    FramesKeepReturns(left);
    FramesKeepReturns(right);
    ReturnsInAdd(Frames(TwoLf, left), Frames(TwoLf, right));
  }

  lemma PushedOnce(a: string)
    ensures Joined([a]) == a
    ensures Pushed([a]) == (Frames(TwoLf, Normalize(a)), Tail(TwoLf, Normalize(a)))
  {
    assert Pushed([a][..0]) == ([], "");
    assert "" + a == a;
    assert [] + Frames(TwoLf, Normalize(a)) == Frames(TwoLf, Normalize(a));
  }

  lemma PushedTwice(a: string, b: string)
    ensures Joined([a, b]) == a + b
    ensures var (frames, buffer) := Pushed([a]);
      Pushed([a, b]) == (frames + Frames(TwoLf, Normalize(buffer + b)), Tail(TwoLf, Normalize(buffer + b)))
  {
    PushedOnce(a);
    assert [a, b][..1] == [a];
  }

  lemma EndsInCrLf(s: string)
    requires |s| >= 3 && CrCrLfAt(s, |s| - 3)
    ensures var t := Normalize(s); |t| >= 2 && CrLfAt(t, |t| - 2)
  {
    var start, end := s[..|s| - 3], s[|s| - 3..];
    assert s == start + end && end[0] == '\r' && end[1] == '\r' && end[2] == '\n' && |end| == 3;
    NormalizeAppend(start, end);
    var last := end[1..];
    assert last[2..] == "" && Normalize(last) == "\n" + Normalize("");
    assert Normalize(end) == [end[0]] + Normalize(last);
    var t := Normalize(start) + Normalize(end);
    assert t[|t| - 2] == '\r' && t[|t| - 1] == '\n';
  }

  lemma {:induction false} TailEndsInCrLf(s: string)
    requires |s| >= 2 && CrLfAt(s, |s| - 2)
    ensures var t := Tail(TwoLf, s); |t| >= 2 && CrLfAt(t, |t| - 2)
  {
    assert |s| == 2 ==> s[1..][1..] == "";
    if SeparatorLength(TwoLf, s) > 0 {
      assert |s| >= 4;
      TailEndsInCrLf(s[2..]);
    } else if |s| > 2 && Frames(TwoLf, s[1..]) != [] {
      TailEndsInCrLf(s[1..]);
    }
  }

  /** Frames and buffer are the same for all ways of cutting a text exactly if it has no CR CR LF. */
  lemma ChunkInvariantIff(text: string)
    ensures NoCrCrLf(text) <==>
      (forall a: seq<string>, b: seq<string> | Joined(a) == text && Joined(b) == text :: Pushed(a) == Pushed(b))
  {
    if NoCrCrLf(text) {
      forall a: seq<string>, b: seq<string> | Joined(a) == text && Joined(b) == text ensures Pushed(a) == Pushed(b) {
        PushesAreChunkInvariant(a);
        PushesAreChunkInvariant(b);
      }
    } else {
      var i :| CrCrLfAt(text, i);
      var first, second := text[..i + 3], text[i + 3..];
      assert text == first + second && CrCrLfAt(first, |first| - 3);
      PushedOnce(text);
      PushedTwice(first, second);
      CuttingAfterCrCrLfDiffers(first, second);
    }
  }
}
