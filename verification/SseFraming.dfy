/**
 * Cutting a server-sent event stream into frames while it arrives (a subset of sections 9.2.5 and
 * 9.2.6 of the WHATWG HTML Standard: only blank lines, and the line ends LF and CRLF).
 *
 * Two clients cut differently. The assistant client replaces CRLF by LF in its buffer and then
 * looks for two LFs; the agent client looks for a blank line with either line end and never
 * rewrites its buffer.
 */
module SseFraming {

  /** All the text in a list of chunks. */
  function Joined(chunks: seq<string>): string {
    if chunks == [] then "" else Joined(chunks[..|chunks| - 1]) + chunks[|chunks| - 1]
  }

  /** White space as `trim` and `\s` know it. */
  predicate IsSpace(c: char) {
    || '\t' <= c <= '\r' || c == ' ' || c == '\U{00A0}' || c == '\U{1680}' || '\U{2000}' <= c <= '\U{200A}'
    || c == '\U{2028}' || c == '\U{2029}' || c == '\U{202F}' || c == '\U{205F}' || c == '\U{3000}' || c == '\U{FEFF}'
  }

  function TrimEnd(s: string): string {
    if s != "" && IsSpace(s[|s| - 1]) then TrimEnd(s[..|s| - 1]) else s
  }

  function TrimStart(s: string): string {
    if s != "" && IsSpace(s[0]) then TrimStart(s[1..]) else s
  }

  function Trim(s: string): string {
    TrimEnd(TrimStart(s))
  }

  /** Trimming at the end takes away the white space there, and nothing else. */
  lemma {:induction false} TrimmedEnd(s: string) returns (j: nat)
    ensures j <= |s| && TrimEnd(s) == s[..j]
    ensures (forall k :: j <= k < |s| ==> IsSpace(s[k])) && (j > 0 ==> !IsSpace(s[j - 1]))
  {
    if s != "" && IsSpace(s[|s| - 1]) {
      j := TrimmedEnd(s[..|s| - 1]);
      assert s[..|s| - 1][..j] == s[..j];
    } else {
      j := |s|;
    }
  }

  lemma {:induction false} TrimmedStart(s: string) returns (i: nat)
    ensures i <= |s| && TrimStart(s) == s[i..]
    ensures (forall k :: 0 <= k < i ==> IsSpace(s[k])) && (i < |s| ==> !IsSpace(s[i]))
  {
    if s != "" && IsSpace(s[0]) {
      var n := TrimmedStart(s[1..]);
      i := n + 1;
      assert s[1..][n..] == s[i..];
      assert forall k :: 1 <= k < i ==> s[k] == s[1..][k - 1];
    } else {
      i := 0;
    }
  }

  /** Trimming takes away the white space at both ends, and nothing else. */
  lemma {:induction false} Trimmed(s: string) returns (i: nat, j: nat)
    ensures i <= j <= |s| && Trim(s) == s[i..j]
    ensures forall k :: 0 <= k < i || j <= k < |s| ==> IsSpace(s[k])
    ensures i < j ==> !IsSpace(s[i]) && !IsSpace(s[j - 1])
  {
    i := TrimmedStart(s);
    var n := TrimmedEnd(s[i..]);
    j := i + n;
    assert s[i..][..n] == s[i..j];
    assert forall k :: i <= k < |s| ==> s[k] == s[i..][k - i];
  }

  ghost predicate OneLine(s: string) {
    forall i :: 0 <= i < |s| ==> s[i] != '\r' && s[i] != '\n'
  }

  function Eol(crlf: bool): string {
    if crlf then "\r\n" else "\n"
  }

  // ----- Frames -----

  datatype Separator = TwoLf | BlankLine

  /** How many characters of a separator `s` begins with; 0 if it does not begin with one. */
  function SeparatorLength(k: Separator, s: string): nat {
    match k
    case TwoLf => if |s| >= 2 && s[0] == '\n' && s[1] == '\n' then 2 else 0
    case BlankLine =>
      var first := LineEnd(s);
      if first == 0 then 0
      else
        var second := LineEnd(s[first..]);
        if second == 0 then 0 else first + second
  }

  /** The length of the LF or CRLF at the start of `s`. */
  function LineEnd(s: string): (n: nat)
    ensures n <= |s|
  {
    if |s| >= 1 && s[0] == '\n' then 1
    else if |s| >= 2 && s[0] == '\r' && s[1] == '\n' then 2
    else 0
  }

  /** The complete frames of `s`: what comes before each separator. */
  function Frames(k: Separator, s: string): seq<string> {
    if s == "" then []
    else if SeparatorLength(k, s) > 0 then [""] + Frames(k, s[SeparatorLength(k, s)..])
    else
      var later := Frames(k, s[1..]);
      if later == [] then [] else [[s[0]] + later[0]] + later[1..]
  }

  /** What follows the last separator. */
  function Tail(k: Separator, s: string): string {
    if s == "" then ""
    else if SeparatorLength(k, s) > 0 then Tail(k, s[SeparatorLength(k, s)..])
    else if Frames(k, s[1..]) == [] then s
    else Tail(k, s[1..])
  }

  lemma DropOfAppend(a: string, b: string, n: nat)
    requires n <= |a|
    ensures (a + b)[n..] == a[n..] + b
  {
  }

  /** A separator found at the start does not change when more text arrives. */
  lemma SeparatorIsStable(k: Separator, a: string, b: string)
    requires SeparatorLength(k, a) > 0
    ensures SeparatorLength(k, a + b) == SeparatorLength(k, a) <= |a|
  {
    var first := LineEnd(a);
    assert (a + b)[first..] == a[first..] + b;
  }

  /** A separator that more text would complete leaves no room for another one after it. */
  lemma SeparatorIsLeftmost(k: Separator, a: string, b: string)
    requires a != "" && SeparatorLength(k, a) == 0 && SeparatorLength(k, a + b) > 0
    ensures Frames(k, a[1..]) == []
  {
    var first := LineEnd(a + b);
    if first <= |a| {
      DropOfAppend(a, b, first);
    }
    assert |a| <= 3;
    assert |a| > 1 ==> Frames(k, a[1..][1..]) == [];
  }

  /** Cutting `a` first and going on with what it left over gives what cutting `a + b` gives. */
  ghost predicate Resumes(k: Separator, a: string, b: string) {
    && Frames(k, a + b) == Frames(k, a) + Frames(k, Tail(k, a) + b)
    && Tail(k, a + b) == Tail(k, Tail(k, a) + b)
  }

  lemma AtSeparator(k: Separator, s: string, n: nat)
    requires 0 < n <= |s| && SeparatorLength(k, s) == n
    ensures Frames(k, s) == [""] + Frames(k, s[n..]) && Tail(k, s) == Tail(k, s[n..])
  {
  }

  lemma AtCharacter(k: Separator, s: string)
    requires s != "" && SeparatorLength(k, s) == 0 && Frames(k, s[1..]) != []
    ensures var later := Frames(k, s[1..]);
      Frames(k, s) == [[s[0]] + later[0]] + later[1..] && Tail(k, s) == Tail(k, s[1..])
  {
  }

  lemma AtLast(k: Separator, s: string)
    requires s == "" || (SeparatorLength(k, s) == 0 && Frames(k, s[1..]) == [])
    ensures Frames(k, s) == [] && Tail(k, s) == s
  {
  }

  lemma ResumesAfterSeparator(k: Separator, a: string, b: string, n: nat)
    requires 0 < n <= |a| && SeparatorLength(k, a) == n && Resumes(k, a[n..], b)
    ensures Resumes(k, a, b)
  {
    hide Frames, Tail, SeparatorLength;
    SeparatorIsStable(k, a, b);
    AtSeparator(k, a, n);
    AtSeparator(k, a + b, n);
    assert (a + b)[n..] == a[n..] + b;
    Regroup([""], Frames(k, a[n..]), Frames(k, Tail(k, a) + b));
  }

  lemma Regroup(x: seq<string>, y: seq<string>, z: seq<string>)
    ensures x + (y + z) == x + y + z
  {
  }

  lemma ResumesAfterCharacter(k: Separator, a: string, b: string)
    requires a != "" && SeparatorLength(k, a) == 0 && Frames(k, a[1..]) != []
    requires Resumes(k, a[1..], b)
    ensures Resumes(k, a, b)
  {
    hide Frames, Tail, SeparatorLength;
    if SeparatorLength(k, a + b) > 0 {
      SeparatorIsLeftmost(k, a, b);
    }
    assert (a + b)[1..] == a[1..] + b && (a + b)[0] == a[0];
    AtCharacter(k, a);
    AtCharacter(k, a + b);
    var first, rest := Frames(k, a[1..]), Frames(k, Tail(k, a) + b);
    assert (first + rest)[0] == first[0] && (first + rest)[1..] == first[1..] + rest;
    Regroup([[a[0]] + first[0]], first[1..], rest);
  }

  /** Cutting can stop anywhere and go on with what was left over. */
  lemma {:induction false} FramesResume(k: Separator, a: string, b: string)
    ensures Resumes(k, a, b)
    decreases |a|
  {
    hide Frames, Tail, SeparatorLength;
    if a == "" {
      AtLast(k, a);
      assert a + b == b;
    } else if SeparatorLength(k, a) > 0 {
      SeparatorIsStable(k, a, "");
      FramesResume(k, a[SeparatorLength(k, a)..], b);
      ResumesAfterSeparator(k, a, b, SeparatorLength(k, a));
    } else if Frames(k, a[1..]) != [] {
      FramesResume(k, a[1..], b);
      ResumesAfterCharacter(k, a, b);
    } else {
      AtLast(k, a);
    }
  }

  lemma NoFrameIsAllTail(k: Separator, s: string)
    requires Frames(k, s) == []
    ensures Tail(k, s) == s
  {
  }

  lemma {:induction false} TailHasNoFrame(k: Separator, s: string)
    ensures Frames(k, Tail(k, s)) == [] && Tail(k, Tail(k, s)) == Tail(k, s)
    decreases |s|
  {
    if s != "" {
      var n := SeparatorLength(k, s);
      if n > 0 {
        SeparatorIsStable(k, s, "");
        TailHasNoFrame(k, s[n..]);
      } else {
        TailHasNoFrame(k, s[1..]);
      }
    }
  }
}
