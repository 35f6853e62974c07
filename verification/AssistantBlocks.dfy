/**
 * When the blocks the assistant client's splitter returns depend on the chunks. Each push and the
 * flush normalise the buffer again, so a run of carriage returns before a line feed loses one of
 * them each time it is still in the buffer.
 */
module AssistantBlocks {
  import opened SseFraming
  import opened AssistantFraming

  /** The blocks of a text that is not normalised again: its frames, and its tail if not blank. */
  function BlocksOf(s: string): seq<string> {
    Frames(TwoLf, s) + TailFrame(Tail(TwoLf, s))
  }

  predicate CrCrCrLfAt(s: string, i: int) {
    0 <= i < |s| - 3 && s[i] == '\r' && CrCrLfAt(s, i + 1)
  }

  ghost predicate NoCrCrCrLf(s: string) {
    forall i :: !CrCrCrLfAt(s, i)
  }

  predicate LfLfAt(s: string, i: int) {
    0 <= i < |s| - 1 && s[i] == '\n' && s[i + 1] == '\n'
  }

  /** A CR CR LF at `i`, and a blank line at its end or after it. */
  predicate BlankAfterAt(s: string, i: int) {
    CrCrLfAt(s, i) && Frames(TwoLf, "\n" + Normalize(s[i + 3..])) != []
  }

  ghost predicate NoBlankAfter(s: string) {
    forall i :: !BlankAfterAt(s, i)
  }

  ghost predicate Ink(s: string) {
    exists i :: 0 <= i < |s| && !IsSpace(s[i])
  }

  predicate AllReturns(s: string) {
    forall i :: 0 <= i < |s| ==> s[i] == '\r'
  }

  predicate EndsInReturn(s: string) {
    s != "" && s[|s| - 1] == '\r'
  }

  // ----- Normalising twice -----

  lemma {:induction false} NormalizeCleansOnce(s: string)
    requires NoCrCrCrLf(s)
    ensures NoCrCrLf(Normalize(s))
    decreases |s|
  {
    if s != "" {
      var n := if |s| >= 2 && s[0] == '\r' && s[1] == '\n' then 2 else 1;
      var rest := s[n..];
      forall i ensures !CrCrCrLfAt(rest, i) {
        assert !CrCrCrLfAt(s, i + n);
      }
      NormalizeCleansOnce(rest);
      var t := Normalize(rest);
      assert Normalize(s) == [Normalize(s)[0]] + t;
      if CrLfAt(t, 0) {
        StartsWithCrLf(rest);
      }
      assert !CrCrCrLfAt(s, 0);
      forall i ensures !CrCrLfAt(Normalize(s), i) {
        if i > 0 {
          assert !CrCrLfAt(t, i - 1);
        }
      }
    }
  }

  lemma StartsWithCrLf(s: string)
    requires CrLfAt(Normalize(s), 0)
    ensures CrCrLfAt(s, 0)
  {
    assert s[0] == '\r' && Normalize(s) == ['\r'] + Normalize(s[1..]);
    assert Normalize(s[1..])[0] == '\n';
    var rest := s[1..];
    assert rest[0] == '\n' || (|rest| >= 2 && rest[0] == '\r' && rest[1] == '\n');
  }

  lemma {:induction false} SplitReturns(s: string) returns (front: string, back: string)
    ensures s == front + back && AllReturns(back) && !EndsInReturn(front)
  {
    if EndsInReturn(s) {
      front, back := SplitReturns(s[..|s| - 1]);
      back := back + "\r";
      assert s == s[..|s| - 1] + "\r";
    } else {
      front, back := s, "";
    }
  }

  lemma NormalizeKeepsReturns(back: string)
    requires AllReturns(back)
    ensures Normalize(back) == back
  {
    forall i ensures !CrLfAt(back, i) {
    }
    NormalizeIdle(back);
  }

  lemma NormalizeKeepsEnd(s: string)
    requires !EndsInReturn(s)
    ensures !EndsInReturn(Normalize(s))
  {
    LastOfNormalize(s);
  }

  /** Normalising a prefix once more does not matter to a text that is normalised twice. */
  lemma NormalizeTwiceResumes(a: string, b: string)
    requires NoCrCrCrLf(a + b)
    ensures Normalize(Normalize(Normalize(a) + b)) == Normalize(Normalize(a + b))
  {
    hide Normalize;
    var c, r := SplitReturns(a);
    var n := Normalize(c);
    NormalizeAppend(c, r);
    NormalizeKeepsReturns(r);
    NormalizeKeepsEnd(c);
    NormalizeKeepsEnd(n);
    assert a + b == c + (r + b) && Normalize(a) + b == n + (r + b);
    NormalizeAppend(c, r + b);
    NormalizeAppend(n, Normalize(r + b));
    NormalizeAppend(n, r + b);
    NormalizeAppend(Normalize(n), Normalize(r + b));
    PrefixIsClean(c, r + b);
    NormalizeCleansOnce(c);
    NormalizeCleans(n);
    NormalizeIdle(Normalize(n));
  }

  lemma PrefixIsClean(a: string, b: string)
    requires NoCrCrCrLf(a + b)
    ensures NoCrCrCrLf(a) && NoCrCrCrLf(b)
  {
    forall i ensures !CrCrCrLfAt(a, i) {
      assert !CrCrCrLfAt(a + b, i);
    }
    forall i ensures !CrCrCrLfAt(b, i) {
      assert !CrCrCrLfAt(a + b, i + |a|);
    }
  }

  /** A clean head that ends in a line feed stays as it is. */
  lemma NormalizeTwiceAfter(head: string, s: string)
    requires NoCrLf(head) && !EndsInReturn(head)
    ensures Normalize(Normalize(head + s)) == head + Normalize(Normalize(s))
  {
    NormalizeIdle(head);
    NormalizeAppend(head, s);
    NormalizeAppend(head, Normalize(s));
  }

  // ----- Blank lines -----

  lemma {:induction false} BlankLineMakesFrame(s: string, j: int)
    requires LfLfAt(s, j)
    ensures Frames(TwoLf, s) != []
  {
    if j > 0 && SeparatorLength(TwoLf, s) == 0 {
      assert LfLfAt(s[1..], j - 1);
      BlankLineMakesFrame(s[1..], j - 1);
    }
  }

  /** A CRLF in the normalised text was a CR CR LF. */
  lemma {:induction false} CrLfWasCrCrLf(s: string, i: nat) returns (k: nat)
    requires CrLfAt(Normalize(s), i)
    ensures CrCrLfAt(s, k) && Normalize(s[k + 3..]) == Normalize(s)[i + 2..]
    decreases |s|
  {
    var n := if |s| >= 2 && s[0] == '\r' && s[1] == '\n' then 2 else 1;
    var rest := s[n..];
    assert Normalize(s) == [Normalize(s)[0]] + Normalize(rest);
    if i > 0 {
      assert CrLfAt(Normalize(rest), i - 1);
      k := CrLfWasCrCrLf(rest, i - 1);
      assert rest[k + 3..] == s[k + n + 3..];
      assert Normalize(rest)[i + 1..] == Normalize(s)[i + 2..];
      k := k + n;
    } else {
      k := 0;
      StartsWithCrLf(s);
      assert s[1..][2..] == s[3..];
      assert Normalize(s) == "\r" + ("\n" + Normalize(s[3..]));
    }
  }

  /** A frame of a text in which a CRLF is left ends after it only if a blank line follows a CR CR LF. */
  lemma CrLfBeforeBlank(before: string, s: string, after: string, i: nat, j: nat)
    requires !EndsInReturn(s) && NoBlankAfter(before + s + after)
    requires CrLfAt(Normalize(s), i) && LfLfAt(Normalize(s), j)
    ensures j < i
  {
    if i < j {
      var k := CrLfWasCrCrLf(s, i);
      var t, rest := before + s + after, s[k + 3..];
      assert CrCrLfAt(t, |before| + k) && t[|before| + k + 3..] == rest + after;
      NormalizeAppend(rest, after);
      var blank := "\n" + Normalize(rest + after);
      assert Normalize(rest) == Normalize(s)[i + 2..];
      assert LfLfAt(blank, j - i - 1);
      BlankLineMakesFrame(blank, j - i - 1);
      assert BlankAfterAt(t, |before| + k);
    }
  }

  // ----- No blank line after a CR CR LF: the chunks do not matter -----

  lemma {:induction false} ReturnsHold(s: string, back: string)
    requires Frames(TwoLf, s) == [] && AllReturns(back)
    ensures Frames(TwoLf, s + back) == [] && Tail(TwoLf, s + back) == s + back
    decreases |s| + |back|
  {
    var all := s + back;
    if s != "" {
      assert all[1..] == s[1..] + back;
      ReturnsHold(s[1..], back);
    } else if back != "" {
      assert all == back && all[1..] == s + back[1..];
      ReturnsHold(s, back[1..]);
    }
  }

  lemma ReturnsChangeNoFrame(s: string, back: string)
    requires AllReturns(back)
    ensures Frames(TwoLf, s + back) == Frames(TwoLf, s) && Tail(TwoLf, s + back) == Tail(TwoLf, s) + back
  {
    hide Frames, Tail;
    FramesResume(TwoLf, s, back);
    TailHasNoFrame(TwoLf, s);
    ReturnsHold(Tail(TwoLf, s), back);
  }

  /** Clean texts that meet at no carriage return are clean together. */
  lemma CleanTogether(a: string, b: string)
    requires NoCrCrLf(a) && !EndsInReturn(a)
    ensures NoCrCrLf(b) ==> NoCrCrLf(a + b)
    ensures NoCrCrCrLf(b) ==> NoCrCrCrLf(a + b)
  {
    forall i | CrCrLfAt(a + b, i) ensures !NoCrCrLf(b) {
      assert !CrCrLfAt(a, i) && (i >= |a| ==> CrCrLfAt(b, i - |a|));
    }
    forall i | CrCrCrLfAt(a + b, i) ensures !NoCrCrCrLf(b) {
      assert !CrCrLfAt(a, i + 1) && (i >= |a| ==> CrCrCrLfAt(b, i - |a|));
    }
  }

  /**
   * What the pushes have done with the first part of a text. `emitted` is the text of the frames
   * returned, fully normalised; the buffer holds `b`, normalised at least once, and the carriage
   * returns `c` that still wait for a line feed.
   */
  ghost predicate PushedSoFar(text: string, chunks: seq<string>, rest: string, emitted: string, v: string, b: string, c: string) {
    && Joined(chunks) == v + c && Pushed(chunks).1 == b + c
    && AllReturns(c) && !EndsInReturn(v) && !EndsInReturn(b) && NoCrCrLf(b)
    && Frames(TwoLf, emitted) == Pushed(chunks).0 && Tail(TwoLf, emitted) == ""
    && Splits(text, emitted, b + (c + rest))
  }

  /** Normalised twice, the text is what has been emitted and what is still to come. */
  predicate Splits(text: string, emitted: string, later: string) {
    Normalize(Normalize(text)) == emitted + Normalize(Normalize(later))
  }

  lemma {:induction false} PushesOf(text: string, chunks: seq<string>, rest: string)
      returns (emitted: string, v: string, b: string, c: string)
    requires text == Joined(chunks) + rest && NoCrCrCrLf(text) && NoBlankAfter(text)
    ensures PushedSoFar(text, chunks, rest, emitted, v, b, c)
  {
    hide Frames, Tail, Normalize, NoBlankAfter, NoCrCrCrLf, NoCrCrLf;
    if chunks == [] {
      NothingPushed();
      emitted, v, b, c := "", "", "", "";
      assert b + (c + rest) == text;
      assert emitted + Normalize(Normalize(text)) == Normalize(Normalize(text));
    } else {
      var n := |chunks| - 1;
      var chunk := chunks[n];
      assert text == Joined(chunks[..n]) + (chunk + rest);
      var v0, b0, c0;
      emitted, v0, b0, c0 := PushesOf(text, chunks[..n], chunk + rest);
      var g;
      g, c := SplitReturns(c0 + chunk);
      v := v0 + g;
      b, emitted := OnePush(text, emitted, v0, b0, g, c, rest, c0, chunk);
      assert b0 + c0 + chunk == b0 + (c0 + chunk);
      assert Joined(chunks) == v + c by {
        assert v0 + c0 + chunk == v0 + (c0 + chunk) && v0 + (g + c) == v0 + g + c;
      }
    }
  }

  lemma NothingPushed()
    ensures Frames(TwoLf, "") == [] && Tail(TwoLf, "") == "" && NoCrCrLf("")
  {
  }

  /** One push, of a buffer `b0 + c0` that becomes `b0 + (g + c)` with the chunk. */
  lemma OnePush(text: string, emitted0: string, v0: string, b0: string, g: string, c: string, rest: string, c0: string, chunk: string)
      returns (b: string, emitted: string)
    requires g + c == c0 + chunk && AllReturns(c) && !EndsInReturn(g)
    requires text == v0 + (c0 + chunk) + rest && NoCrCrCrLf(text) && NoBlankAfter(text)
    requires NoCrCrLf(b0) && !EndsInReturn(b0) && Tail(TwoLf, emitted0) == ""
    requires Splits(text, emitted0, b0 + (c0 + (chunk + rest)))
    ensures Tail(TwoLf, Normalize(b0 + (c0 + chunk))) == b + c && !EndsInReturn(b) && NoCrCrLf(b)
    ensures Frames(TwoLf, emitted) == Frames(TwoLf, emitted0) + Frames(TwoLf, Normalize(b0 + (c0 + chunk)))
    ensures Tail(TwoLf, emitted) == "" && Splits(text, emitted, b + (c + rest))
  {
    hide Frames, Tail, Normalize, NoBlankAfter;
    var z := Normalize(b0) + Normalize(g);
    var head;
    head, b := Normalized(text, v0, b0, g, c, rest, chunk, c0);
    emitted := emitted0 + head;
    FramesResume(TwoLf, emitted0, head);
    assert "" + head == head;
    ReturnsChangeNoFrame(z, c);
    var y := z + c;
    var all := b0 + (c0 + chunk);
    assert y == head + (b + c) && all + rest == b0 + (c0 + (chunk + rest));
    assert y + rest == head + (b + (c + rest));
    NormalizeTwiceAfter(head, b + (c + rest));
    BufferIsClean(text, v0, b0, c0 + chunk, rest);
    NormalizeTwiceResumes(all, rest);
    assert emitted0 + (head + Normalize(Normalize(b + (c + rest)))) == emitted + Normalize(Normalize(b + (c + rest)));
  }

  lemma BufferIsClean(text: string, v0: string, b0: string, pushed: string, rest: string)
    requires text == v0 + pushed + rest && NoCrCrCrLf(text) && NoCrCrLf(b0) && !EndsInReturn(b0)
    ensures NoCrCrCrLf(b0 + pushed + rest)
  {
    assert text == v0 + (pushed + rest) && b0 + pushed + rest == b0 + (pushed + rest);
    PrefixIsClean(v0, pushed + rest);
    CleanTogether(b0, pushed + rest);
  }

  /** The normalised buffer: a clean head with all the frames, then what is kept. */
  lemma Normalized(text: string, v0: string, b0: string, g: string, c: string, rest: string, chunk: string, c0: string)
      returns (head: string, b: string)
    requires g + c == c0 + chunk && AllReturns(c) && !EndsInReturn(g)
    requires text == v0 + (c0 + chunk) + rest && NoCrCrCrLf(text) && NoBlankAfter(text)
    requires NoCrCrLf(b0) && !EndsInReturn(b0)
    ensures var z := Normalize(b0) + Normalize(g);
      && Normalize(b0 + (c0 + chunk)) == z + c && z == head + b && b == Tail(TwoLf, z)
      && Frames(TwoLf, head) == Frames(TwoLf, z) && Tail(TwoLf, head) == ""
      && NoCrLf(head) && !EndsInReturn(head) && !EndsInReturn(b) && NoCrCrLf(b)
  {
    hide Frames, Tail, Normalize;
    var m, n := Normalize(b0), Normalize(g);
    var z := m + n;
    NormalizeAppend(b0, g + c);
    NormalizeAppend(g, c);
    NormalizeKeepsReturns(c);
    assert m + (n + c) == z + c;
    head := HeadHoldsFrames(z);
    b := Tail(TwoLf, z);
    NormalizeKeepsEnd(b0);
    NormalizeKeepsEnd(g);
    NormalizeCleans(b0);
    assert text == v0 + (g + (c + rest));
    PrefixIsClean(v0, g + (c + rest));
    PrefixIsClean(g, c + rest);
    NormalizeCleansOnce(g);
    assert NoCrCrLf(m) by {
      forall i ensures !CrCrLfAt(m, i) {
        assert !CrLfAt(m, i + 1);
      }
    }
    CleanTogether(m, n);
    SlicesStayClean(z, |head|, |z|);
    assert z[|head|..|z|] == b;
    assert text == v0 + g + (c + rest);
    forall i ensures !CrLfAt(head, i) {
      if CrLfAt(head, i) {
        var j := |head| - 2;
        assert !CrLfAt(m, i) && z[i] == head[i] && z[i + 1] == head[i + 1] && z[j] == head[j] && z[j + 1] == head[j + 1];
        assert CrLfAt(n, i - |m|) && LfLfAt(n, j - |m|);
        CrLfBeforeBlank(v0, g, c + rest, i - |m|, j - |m|);
      }
    }
  }

  /** Every way of cutting such a text into chunks gives the blocks of the text normalised twice. */
  lemma BlocksAreThoseOfTheText(chunks: seq<string>)
    requires NoCrCrCrLf(Joined(chunks)) && NoBlankAfter(Joined(chunks))
    ensures SplitBlocks(chunks) == BlocksOf(Normalize(Normalize(Joined(chunks))))
  {
    hide Frames, Tail, Normalize, Joined, Pushed, NoBlankAfter, NoCrCrCrLf;
    var text := Joined(chunks);
    assert text == text + "";
    var emitted, v, b, c := PushesOf(text, chunks, "");
    var buffer := Normalize(b + c);
    assert b + (c + "") == b + c;
    NormalizeAppend(b, c);
    NormalizeKeepsReturns(c);
    NormalizeCleans(b);
    NormalizeKeepsEnd(b);
    forall i ensures !CrLfAt(buffer, i) {
      assert !CrLfAt(Normalize(b), i);
    }
    NormalizeIdle(buffer);
    FramesResume(TwoLf, emitted, buffer);
    assert "" + buffer == buffer;
  }

  // ----- A blank line after a CR CR LF: the chunks matter -----

  /** Text without a frame that ends in a line feed, followed by more. */
  lemma {:induction false} FramesAcross(s: string, w: string)
    requires s != "" && s[|s| - 1] == '\n' && Frames(TwoLf, s) == []
    ensures var later := Frames(TwoLf, "\n" + w);
      if later == [] then Frames(TwoLf, s + w) == [] && Tail(TwoLf, s + w) == s + w
      else Frames(TwoLf, s + w) != [] && Frames(TwoLf, s + w)[0] == s[..|s| - 1] + later[0]
  {
    hide Frames, Tail;
    if |s| == 1 {
      assert s == "\n";
      if Frames(TwoLf, "\n" + w) == [] {
        NoFrameNoCut("\n" + w);
      }
    } else {
      LaterHasNone(s);
      FramesAcross(s[1..], w);
      var later := s[1..] + w;
      assert (s + w)[1..] == later && s[1..][|s| - 2] == '\n';
      if Frames(TwoLf, later) == [] {
        AtLast(TwoLf, s + w);
      } else {
        AtCharacter(TwoLf, s + w);
        assert s[..|s| - 1] == [s[0]] + s[1..][..|s| - 2];
      }
    }
  }

  lemma LaterHasNone(s: string)
    requires |s| >= 2 && Frames(TwoLf, s) == []
    ensures Frames(TwoLf, s[1..]) == [] && !(s[0] == '\n' && s[1] == '\n')
  {
  }

  lemma NoFrameNoCut(s: string)
    requires Frames(TwoLf, s) == []
    ensures Tail(TwoLf, s) == s
  {
  }

  lemma {:induction false} InkKeepsEnd(x: string, w: string)
    requires Ink(w)
    ensures TrimEnd(x + w) == x + TrimEnd(w)
    decreases |w|
  {
    var n := |w| - 1;
    assert (x + w)[|x| + n] == w[n];
    if IsSpace(w[n]) {
      var i :| 0 <= i < |w| && !IsSpace(w[i]);
      assert !IsSpace(w[..n][i]);
      InkKeepsEnd(x, w[..n]);
      assert (x + w)[..|x| + n] == x + w[..n];
    }
  }

  lemma {:induction false} InkSurvivesTrim(s: string)
    requires Ink(s)
    ensures TrimEnd(s) != "" && Ink(TrimStart(s)) && Trim(s) != ""
    decreases |s|
  {
    var i :| 0 <= i < |s| && !IsSpace(s[i]);
    InkKeepsEnd("", s);
    if IsSpace(s[0]) {
      assert s[1..][i - 1] == s[i];
      InkSurvivesTrim(s[1..]);
    }
    EndNotEmpty(TrimStart(s));
    EndNotEmpty(s);
  }

  lemma {:induction false} EndNotEmpty(s: string)
    requires Ink(s)
    ensures TrimEnd(s) != ""
  {
    var n := |s| - 1;
    if IsSpace(s[n]) {
      var i :| 0 <= i < |s| && !IsSpace(s[i]);
      assert !IsSpace(s[..n][i]);
      EndNotEmpty(s[..n]);
    }
  }

  /** The first block across such a text: it holds all its carriage returns. */
  lemma FirstBlockAcross(s: string, w: string) returns (k: nat)
    requires s != "" && s[|s| - 1] == '\n' && Frames(TwoLf, s) == []
    requires Frames(TwoLf, "\n" + w) != [] || Ink(w)
    ensures BlocksOf(s + w) != [] && Returns(BlocksOf(s + w)[0]) == Returns(s) + k
    ensures k == if Frames(TwoLf, "\n" + w) != [] then Returns(Frames(TwoLf, "\n" + w)[0]) else Returns(TrimEnd(w))
  {
    hide Frames, Tail, TrimEnd, Trim;
    FramesAcross(s, w);
    if Frames(TwoLf, "\n" + w) != [] {
      var first := Frames(TwoLf, "\n" + w)[0];
      k := Returns(first);
      ReturnsAdd(s[..|s| - 1], first);
      ReturnsAdd(s[..|s| - 1], "\n");
      assert s == s[..|s| - 1] + "\n";
    } else {
      k := Returns(TrimEnd(w));
      var i :| 0 <= i < |w| && !IsSpace(w[i]);
      assert (s + w)[|s| + i] == w[i];
      InkSurvivesTrim(s + w);
      InkKeepsEnd(s, w);
      ReturnsAdd(s, TrimEnd(w));
    }
  }

  lemma {:induction false} FirstOfMany(frames: seq<string>)
    requires frames != []
    ensures Returns(frames[0]) <= ReturnsIn(frames)
  {
  }

  /** Normalising once more takes carriage returns from the first block. */
  lemma FirstBlockLosesReturn(s: string, w: string)
    requires |s| >= 2 && CrLfAt(s, |s| - 2) && Frames(TwoLf, s) == []
    requires Frames(TwoLf, "\n" + w) != [] || Ink(w)
    ensures BlocksOf(s + w) != [] && BlocksOf(Normalize(s) + w) != []
    ensures Returns(BlocksOf(Normalize(s) + w)[0]) < Returns(BlocksOf(s + w)[0])
  {
    hide Frames, Tail, TailFrame;
    var t := Normalize(s);
    var k := FirstBlockAcross(s, w);
    LastOfNormalize(s);
    NormalizeDropsReturns(s);
    CrLfCounts(s, |s| - 2);
    if Frames(TwoLf, t) == [] {
      var k' := FirstBlockAcross(t, w);
    } else {
      FramesResume(TwoLf, t, w);
      FramesKeepReturns(t);
      FirstOfMany(Frames(TwoLf, t));
    }
  }

  /** What the pushes returned, then the blocks of the buffer normalised once more. */
  lemma SplitBlocksAre(chunks: seq<string>)
    ensures SplitBlocks(chunks) == Pushed(chunks).0 + BlocksOf(Normalize(Pushed(chunks).1))
  {
  }

  lemma FirstDiffers(front: seq<string>, a: seq<string>, b: seq<string>)
    requires a != [] && b != [] && a[0] != b[0]
    ensures front + a != front + b
  {
    assert (front + a)[|front|] == a[0] && (front + b)[|front|] == b[0];
  }

  /** Cutting behind a CR CR LF that a blank line follows changes a block. */
  lemma {:induction false} CuttingBeforeBlankDiffers(text: string, i: nat)
    requires BlankAfterAt(text, i)
    ensures SplitBlocks([text]) != SplitBlocks([text[..i + 3], text[i + 3..]])
  {
    hide Frames, Tail, Normalize, Pushed, SplitBlocks, BlocksOf, Returns;
    var u, v := text[..i + 3], text[i + 3..];
    assert text == u + v && CrCrLfAt(u, |u| - 3);
    var done := Frames(TwoLf, Normalize(u));
    var t, w := Tail(TwoLf, Normalize(u)), Normalize(v);
    PushedOnce(text);
    PushedOnce(u);
    PushedTwice(u, v);
    SplitBlocksAre([text]);
    SplitBlocksAre([u, v]);
    EndsInCrLf(u);
    TailEndsInCrLf(Normalize(u));
    TailHasNoFrame(TwoLf, Normalize(u));
    NormalizeAppend(u, v);
    NormalizeAppend(t, v);
    FramesResume(TwoLf, Normalize(u), w);
    FirstBlockLosesReturn(t, w);
    LastOfNormalize(t);
    FramesFirst(t, w);
    FramesFirst(Normalize(t), w);
    var x, y := Frames(TwoLf, t + w), Frames(TwoLf, Normalize(t) + w);
    var f, g := BlocksOf(Normalize(Pushed([text]).1)), BlocksOf(Normalize(Pushed([u, v]).1));
    assert SplitBlocks([text]) == done + (x + f) && SplitBlocks([u, v]) == done + (y + g);
    FirstDiffers(done, x + f, y + g);
  }

  /** With a blank line behind, the first block is a frame. */
  lemma FramesFirst(s: string, w: string)
    requires s != "" && s[|s| - 1] == '\n' && Frames(TwoLf, "\n" + w) != []
    ensures Frames(TwoLf, s + w) != [] && BlocksOf(s + w)[0] == Frames(TwoLf, s + w)[0]
  {
    if Frames(TwoLf, s) == [] {
      FramesAcross(s, w);
    } else {
      FramesResume(TwoLf, s, w);
    }
  }

  // ----- Three carriage returns before a line feed -----

  lemma EndsInCrCrLf(s: string)
    requires |s| >= 4 && CrCrCrLfAt(s, |s| - 4)
    ensures var t := Normalize(s); |t| >= 3 && CrCrLfAt(t, |t| - 3)
  {
    var start, end := s[..|s| - 4], s[|s| - 4..];
    assert s == start + end && end == "\r\r\r\n";
    NormalizeAppend(start, end);
    var two, one := end[1..], end[2..];
    assert two[1..] == one && one[2..] == "";
    assert Normalize(one) == "\n" + Normalize("");
    assert Normalize(two) == ['\r'] + Normalize(one);
    assert Normalize(end) == ['\r'] + Normalize(two);
  }

  lemma TailEndsInCrCrLf(s: string)
    requires |s| >= 3 && CrCrLfAt(s, |s| - 3)
    ensures var t := Tail(TwoLf, s); |t| >= 3 && CrCrLfAt(t, |t| - 3)
  {
    hide Frames, Tail;
    var head := HeadHoldsFrames(s);
    var t := Tail(TwoLf, s);
    assert |head| >= 2 ==> s[|head| - 1] == '\n' && s[|head| - 2] == '\n';
    assert forall i :: 0 <= i < |t| ==> t[i] == s[|head| + i];
  }

  lemma {:induction false} InkStays(s: string)
    requires Ink(s)
    ensures Ink(Normalize(s))
    decreases |s|
  {
    var i :| 0 <= i < |s| && !IsSpace(s[i]);
    var n := if |s| >= 2 && s[0] == '\r' && s[1] == '\n' then 2 else 1;
    var rest := s[n..];
    assert Normalize(s) == [Normalize(s)[0]] + Normalize(rest);
    if i < n {
      assert !IsSpace(Normalize(s)[0]);
    } else {
      assert !IsSpace(rest[i - n]);
      InkStays(rest);
      var j :| 0 <= j < |Normalize(rest)| && !IsSpace(Normalize(rest)[j]);
      assert !IsSpace(Normalize(s)[j + 1]);
    }
  }

  /** The blocks of a text are those of its frames' part, then those of its tail with the rest. */
  lemma BlocksResume(s: string, w: string)
    ensures BlocksOf(s + w) == Frames(TwoLf, s) + BlocksOf(Tail(TwoLf, s) + w)
  {
    hide Frames, Tail;
    FramesResume(TwoLf, s, w);
  }

  /** The last run of carriage returns in a tail is not normalised away when ink follows it. */
  lemma {:induction false} CuttingInTailDiffers(text: string, i: nat)
    requires CrCrCrLfAt(text, i) && !BlankAfterAt(text, i + 1) && Ink(text[i + 4..])
    ensures SplitBlocks([text]) != SplitBlocks([text[..i + 4], text[i + 4..]])
  {
    hide Frames, Tail, Normalize, Pushed, SplitBlocks, BlocksOf, Returns, Ink;
    var u, v := text[..i + 4], text[i + 4..];
    assert text == u + v && CrCrCrLfAt(u, |u| - 4) && CrCrLfAt(text, i + 1) && text[i + 1 + 3..] == v;
    var nu, w := Normalize(u), Normalize(v);
    var y, t := Normalize(w), Tail(TwoLf, nu);
    var nt := Normalize(t);
    var t2 := Tail(TwoLf, nt);
    EndsInCrCrLf(u);
    TailEndsInCrCrLf(nu);
    EndsInCrLf(t);
    TailEndsInCrLf(nt);
    SinglePush(text, u, v);
    TwoPushes(u, v);
    InkStays(v);
    InkStays(w);
    TailHasNoFrame(TwoLf, nt);
    FirstBlockLosesReturn(t2, y);
    FirstDiffers(Frames(TwoLf, nu) + Frames(TwoLf, nt), BlocksOf(t2 + y), BlocksOf(Normalize(t2) + y));
  }

  lemma {:induction false} SinglePush(text: string, u: string, v: string)
    requires text == u + v && Frames(TwoLf, "\n" + Normalize(v)) == []
    requires var t := Tail(TwoLf, Normalize(u)); u != "" && t != "" && u[|u| - 1] == '\n' && t[|t| - 1] == '\n'
    ensures var nt := Normalize(Tail(TwoLf, Normalize(u)));
      SplitBlocks([text]) == Frames(TwoLf, Normalize(u)) + Frames(TwoLf, nt)
                             + BlocksOf(Tail(TwoLf, nt) + Normalize(Normalize(v)))
  {
    hide Frames, Tail, Normalize, Pushed, SplitBlocks, BlocksOf;
    var nu, w := Normalize(u), Normalize(v);
    var t := Tail(TwoLf, nu);
    PushedOnce(text);
    SplitBlocksAre([text]);
    NormalizeAppend(u, v);
    FramesResume(TwoLf, nu, w);
    TailHasNoFrame(TwoLf, nu);
    FramesAcross(t, w);
    NormalizeAppend(t, w);
    BlocksResume(Normalize(t), Normalize(w));
  }

  lemma {:induction false} TwoPushes(u: string, v: string)
    requires Frames(TwoLf, "\n" + Normalize(v)) == []
    requires var t := Tail(TwoLf, Normalize(u)); u != "" && t != "" && u[|u| - 1] == '\n' && t[|t| - 1] == '\n'
    requires var t2 := Tail(TwoLf, Normalize(Tail(TwoLf, Normalize(u)))); t2 != "" && t2[|t2| - 1] == '\n'
    ensures var nt := Normalize(Tail(TwoLf, Normalize(u)));
      SplitBlocks([u, v]) == Frames(TwoLf, Normalize(u)) + Frames(TwoLf, nt)
                             + BlocksOf(Normalize(Tail(TwoLf, nt)) + Normalize(Normalize(v)))
  {
    hide Frames, Tail, Normalize, Pushed, SplitBlocks, BlocksOf;
    var nu, w := Normalize(u), Normalize(v);
    var t := Tail(TwoLf, nu);
    var nt := Normalize(t);
    var t2 := Tail(TwoLf, nt);
    PushedOnce(u);
    PushedTwice(u, v);
    SplitBlocksAre([u, v]);
    NormalizeAppend(t, v);
    FramesResume(TwoLf, nt, w);
    TailHasNoFrame(TwoLf, nt);
    FramesAcross(t2, w);
    NormalizeAppend(t2, w);
  }

  // ----- The exact condition -----

  /** Only white space follows the first CR CR CR LF. */
  ghost predicate OnlyBlankBehind(text: string) {
    (exists i :: CrCrCrLfAt(text, i)) && forall i :: CrCrCrLfAt(text, i) ==> !Ink(text[i + 4..])
  }

  /**
   * The blocks returned are the same for all chunkings if and only if there is no CR CR CR LF and no
   * blank line after a CR CR LF. Not decided are texts without such a blank line in which only white
   * space follows the first CR CR CR LF.
   */
  lemma {:induction false} BlocksAreChunkInvariantIff(text: string)
    requires OnlyBlankBehind(text) ==> !NoBlankAfter(text)
    ensures (NoCrCrCrLf(text) && NoBlankAfter(text)) <==>
      (forall a: seq<string>, b: seq<string> | Joined(a) == text && Joined(b) == text :: SplitBlocks(a) == SplitBlocks(b))
  {
    hide SplitBlocks, BlankAfterAt, Ink, CrCrCrLfAt, OnlyBlankBehind;
    if NoCrCrCrLf(text) && NoBlankAfter(text) {
      forall a: seq<string>, b: seq<string> | Joined(a) == text && Joined(b) == text ensures SplitBlocks(a) == SplitBlocks(b) {
        BlocksAreThoseOfTheText(a);
        BlocksAreThoseOfTheText(b);
      }
    } else if i :| BlankAfterAt(text, i) {
      BlankAfterIsInside(text, i);
      CuttingBeforeBlankDiffers(text, i);
      CutIsTheText(text, i + 3);
    } else {
      var i := InkBehind(text);
      CuttingInTailDiffers(text, i);
      CutIsTheText(text, i + 4);
    }
  }

  lemma InkBehind(text: string) returns (i: nat)
    requires !NoCrCrCrLf(text) && !OnlyBlankBehind(text)
    ensures i + 4 <= |text| && CrCrCrLfAt(text, i) && Ink(text[i + 4..])
  {
    i :| CrCrCrLfAt(text, i) && Ink(text[i + 4..]);
  }

  lemma BlankAfterIsInside(text: string, i: int)
    requires BlankAfterAt(text, i)
    ensures 0 <= i < |text| - 2
  {
  }

  lemma CutIsTheText(text: string, n: nat)
    requires n <= |text|
    ensures Joined([text]) == text && Joined([text[..n], text[n..]]) == text
  {
    PushedOnce(text);
    PushedTwice(text[..n], text[n..]);
    assert text == text[..n] + text[n..];
  }

  /** Two ways of cutting one text whose blocks differ. */
  lemma BlocksCanDiffer()
    ensures var a, b := ["a\r\r\n\nb"], ["a\r\r\n", "\nb"];
      Joined(a) == Joined(b) && SplitBlocks(a) != SplitBlocks(b)
  {
    hide SplitBlocks, Joined;
    var text := "a\r\r\n\nb";
    assert text[..4] == "a\r\r\n" && text[4..] == "\nb";
    var later := "\n" + Normalize("\nb");
    assert LfLfAt(later, 0);
    BlankLineMakesFrame(later, 0);
    assert BlankAfterAt(text, 1);
    CuttingBeforeBlankDiffers(text, 1);
    CutIsTheText(text, 4);
  }
}
