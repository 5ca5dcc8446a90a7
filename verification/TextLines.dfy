/** Line splitting as str.splitlines does it, and joining with newlines. */
module TextLines {
  /** Where splitlines breaks; reading a file turns a carriage return into a newline first, to the same effect. */
  predicate IsBreak(c: char) {
    c == '\n' || c == '\r' || c == '\U{0B}' || c == '\U{0C}' || '\U{1C}' <= c <= '\U{1E}'
    || c == '\U{85}' || c == '\U{2028}' || c == '\U{2029}'
  }

  predicate OneLine(s: string) {
    forall i :: 0 <= i < |s| ==> !IsBreak(s[i])
  }

  /** The length of the first line, without its break. */
  function LineEnd(t: string): (k: nat)
    ensures k <= |t| && OneLine(t[..k]) && (k < |t| ==> IsBreak(t[k]))
  {
    if t == "" || IsBreak(t[0]) then 0
    else
      var k := 1 + LineEnd(t[1..]);
      assert forall i :: 0 < i < k ==> t[i] == t[1..][i - 1];
      k
  }

  /** The length of the break at the head of a text. */
  function BreakSize(t: string): nat
    requires t != ""
  {
    if |t| >= 2 && t[0] == '\r' && t[1] == '\n' then 2 else 1
  }

  function SplitLines(t: string): (lines: seq<string>)
    ensures forall i :: 0 <= i < |lines| ==> OneLine(lines[i])
    ensures t != "" ==> lines != []
    decreases |t|
  {
    if t == "" then []
    else
      var k := LineEnd(t);
      if k == |t| then [t] else [t[..k]] + SplitLines(t[k + BreakSize(t[k..])..])
  }

  function Join(lines: seq<string>): string {
    if lines == [] then "" else if |lines| == 1 then lines[0] else lines[0] + "\n" + Join(lines[1..])
  }

  lemma {:induction false} LineEndAt(line: string, c: char, rest: string)
    requires OneLine(line) && IsBreak(c)
    ensures LineEnd(line + [c] + rest) == |line|
    decreases |line|
  {
    var t := line + [c] + rest;
    if line == "" {
      assert t[0] == c;
    } else {
      assert t[0] == line[0] && t[1..] == line[1..] + [c] + rest;
      LineEndAt(line[1..], c, rest);
    }
  }

  lemma SplitFirst(line: string, rest: string)
    requires OneLine(line)
    ensures SplitLines(line + "\n" + rest) == [line] + SplitLines(rest)
  {
    hide LineEnd; hide OneLine;
    var t := line + "\n" + rest;
    LineEndAt(line, '\n', rest);
    assert t[|line|..] == "\n" + rest;
    assert t[|line| + 1..] == rest && t[..|line|] == line;
  }

  /** Lines joined by newlines are split again, whatever follows. */
  lemma {:induction false} SplitJoined(lines: seq<string>, rest: string)
    requires lines != [] && forall i :: 0 <= i < |lines| ==> OneLine(lines[i])
    ensures SplitLines(Join(lines) + "\n" + rest) == lines + SplitLines(rest)
    decreases |lines|
  {
    hide SplitLines; hide OneLine;
    if |lines| == 1 {
      SplitFirst(lines[0], rest);
      assert lines == [lines[0]];
    } else {
      var after := Join(lines[1..]) + "\n" + rest;
      assert Join(lines) + "\n" + rest == lines[0] + "\n" + after;
      SplitFirst(lines[0], after);
      SplitJoined(lines[1..], rest);
      assert lines == [lines[0]] + lines[1..];
    }
  }

  // ----- lines with their ends -----

  function SplitKeep(t: string): seq<string>
    decreases |t|
  {
    if t == "" then []
    else
      var k := LineEnd(t);
      if k == |t| then [t]
      else
        var n := k + BreakSize(t[k..]);
        [t[..n]] + SplitKeep(t[n..])
  }

  function Concat(lines: seq<string>): string {
    if lines == [] then "" else lines[0] + Concat(lines[1..])
  }

  lemma {:induction false} ConcatSplit(t: string)
    ensures Concat(SplitKeep(t)) == t
    decreases |t|
  {
    hide LineEnd;
    if t != "" {
      var k := LineEnd(t);
      assert k <= |t| by { LineEndBound(t); }
      if k < |t| {
        var n := k + BreakSize(t[k..]);
        ConcatSplit(t[n..]);
        assert t == t[..n] + t[n..];
      }
    }
  }

  lemma LineEndBound(t: string)
    ensures LineEnd(t) <= |t| && OneLine(t[..LineEnd(t)]) && (LineEnd(t) < |t| ==> IsBreak(t[LineEnd(t)]))
  {
  }

  lemma KeepFirst(line: string, rest: string)
    requires OneLine(line)
    ensures SplitKeep(line + "\n" + rest) == [line + "\n"] + SplitKeep(rest)
  {
    hide LineEnd; hide OneLine;
    var t := line + "\n" + rest;
    LineEndAt(line, '\n', rest);
    assert t[|line|..] == "\n" + rest;
    assert t[|line| + 1..] == rest && t[..|line| + 1] == line + "\n";
  }

  function WithNewlines(lines: seq<string>): (r: seq<string>)
    ensures |r| == |lines| && forall i :: 0 <= i < |lines| ==> r[i] == lines[i] + "\n"
  {
    seq(|lines|, i requires 0 <= i < |lines| => lines[i] + "\n")
  }

  lemma {:induction false} KeepJoined(lines: seq<string>, rest: string)
    requires lines != [] && forall i :: 0 <= i < |lines| ==> OneLine(lines[i])
    ensures SplitKeep(Join(lines) + "\n" + rest) == WithNewlines(lines) + SplitKeep(rest)
    decreases |lines|
  {
    hide SplitKeep; hide OneLine;
    if |lines| == 1 {
      KeepFirst(lines[0], rest);
      assert WithNewlines(lines) == [lines[0] + "\n"];
    } else {
      var after := Join(lines[1..]) + "\n" + rest;
      assert Join(lines) + "\n" + rest == lines[0] + "\n" + after;
      KeepFirst(lines[0], after);
      KeepJoined(lines[1..], rest);
      assert WithNewlines(lines) == [lines[0] + "\n"] + WithNewlines(lines[1..]);
    }
  }

  /** Reading a text file turns every carriage return, alone or before a newline, into one newline. */
  function Universal(t: string): string
    decreases |t|
  {
    if t == "" then ""
    else if t[0] == '\r' then "\n" + Universal(t[BreakSize(t)..])
    else [t[0]] + Universal(t[1..])
  }

  lemma {:induction false} UniversalIff(t: string)
    ensures Universal(t) == t <==> '\r' !in t
    decreases |t|
  {
    if t != "" {
      if t[0] == '\r' {
        assert Universal(t)[0] == '\n';
      } else {
        UniversalIff(t[1..]);
        assert t == [t[0]] + t[1..];
        assert Universal(t)[1..] == Universal(t[1..]);
      }
    }
  }

  lemma {:induction false} UniversalTwice(t: string)
    ensures '\r' !in Universal(t)
    decreases |t|
  {
    if t != "" { UniversalTwice(if t[0] == '\r' then t[BreakSize(t)..] else t[1..]); }
  }

  // ----- the lines of a text before and after reading it -----

  /** The length of the first line with its end. */
  function LineSize(t: string): (n: nat)
    requires t != ""
    ensures 0 < n <= |t|
  {
    var k := LineEnd(t);
    if k == |t| then k else k + BreakSize(t[k..])
  }

  lemma {:induction false} UniversalBehind(p: string, q: string)
    requires '\r' !in p
    ensures Universal(p + q) == p + Universal(q)
    decreases |p|
  {
    if p == "" {
      assert p + q == q;
    } else {
      assert (p + q)[0] == p[0] && (p + q)[1..] == p[1..] + q;
      UniversalBehind(p[1..], q);
      assert p == [p[0]] + p[1..];
    }
  }

  lemma UniversalBreak(t: string) returns (c: char)
    requires t != "" && IsBreak(t[0])
    ensures IsBreak(c) && c != '\r'
    ensures Universal(t) == [c] + Universal(t[BreakSize(t)..]) && Universal(t[..BreakSize(t)]) == [c]
  {
    c := if t[0] == '\r' then '\n' else t[0];
    var head := t[..BreakSize(t)];
    assert head[0] == t[0] && BreakSize(head) == BreakSize(t) && head[BreakSize(t)..] == "";
  }

  lemma KeepAt(line: string, c: char, rest: string)
    requires OneLine(line) && IsBreak(c) && c != '\r'
    ensures SplitKeep(line + [c] + rest) == [line + [c]] + SplitKeep(rest)
  {
    hide OneLine; hide LineEnd;
    var t := line + [c] + rest;
    LineEndAt(line, c, rest);
    assert t[|line|..] == [c] + rest && BreakSize([c] + rest) == 1;
    assert t[|line| + 1..] == rest && t[..|line| + 1] == line + [c];
  }

  lemma FirstLineSplit(t: string, line: string, tail: string)
    requires t == line + tail && OneLine(line) && LineEnd(t) == |line| && tail != "" && IsBreak(tail[0])
    ensures SplitKeep(Universal(t)) == [Universal(t[..LineSize(t)])] + SplitKeep(Universal(t[LineSize(t)..]))
  {
    NoReturnInLine(line);
    UniversalBehind(line, tail);
    var n := BreakSize(tail);
    var c := UniversalBreak(tail);
    assert t[|line|..] == tail;
    assert LineSize(t) == |line| + n;
    hide LineEnd; hide SplitKeep; hide Universal; hide OneLine; hide LineSize; hide BreakSize; hide IsBreak;
    assert t[..|line| + n] == line + tail[..n] && t[|line| + n..] == tail[n..];
    UniversalBehind(line, tail[..n]);
    var rest := Universal(tail[n..]);
    assert Universal(t) == line + [c] + rest;
    KeepAt(line, c, rest);
  }

  /** Reading translates each line by itself. */
  lemma UniversalFirstLine(t: string)
    requires t != ""
    ensures SplitKeep(Universal(t)) == [Universal(t[..LineSize(t)])] + SplitKeep(Universal(t[LineSize(t)..]))
  {
    hide SplitKeep; hide Universal; hide OneLine; hide IsBreak;
    var k := LineEnd(t);
    LineEndBound(t);
    assert t == t[..k] + t[k..];
    if k == |t| {
      OneLineReads(t);
      assert t[|t|..] == "" && t[..|t|] == t && LineSize(t) == |t|;
      UniversalOfEmpty();
    } else {
      hide LineEnd;
      FirstLineSplit(t, t[..k], t[k..]);
    }
  }

  lemma OneLineReads(t: string)
    requires t != "" && LineEnd(t) == |t|
    ensures Universal(t) == t && SplitKeep(t) == [t]
  {
    assert t[..|t|] == t;
    NoReturnInLine(t);
    UniversalIff(t);
  }

  lemma NoReturnInLine(line: string)
    requires OneLine(line)
    ensures '\r' !in line
  {
  }

  lemma UniversalOfEmpty()
    ensures Universal("") == "" && SplitKeep("") == []
  {
  }

  lemma SplitAt(line: string, c: char, rest: string)
    requires OneLine(line) && IsBreak(c) && c != '\r'
    ensures SplitLines(line + [c] + rest) == [line] + SplitLines(rest)
  {
    hide OneLine; hide LineEnd; hide IsBreak;
    var t := line + [c] + rest;
    LineEndAt(line, c, rest);
    assert t[|line|..] == [c] + rest && BreakSize([c] + rest) == 1;
    assert t[|line| + 1..] == rest && t[..|line|] == line;
  }

  /** The lines of a text are those of what is read of it: nothing changes but their ends. */
  lemma {:induction false} SameLines(t: string)
    ensures SplitLines(Universal(t)) == SplitLines(t)
    decreases |t|
  {
    if t != "" {
      var k := LineEnd(t);
      LineEndBound(t);
      if k == |t| {
        OneLineReads(t);
      } else {
        var line, tail := t[..k], t[k..];
        assert t == line + tail && tail[0] == t[k];
        NoReturnInLine(line);
        UniversalBehind(line, tail);
        var c := UniversalBreak(tail);
        var rest := tail[BreakSize(tail)..];
        assert rest == t[k + BreakSize(t[k..])..];
        SameLines(rest);
        hide Universal; hide OneLine; hide LineEnd; hide IsBreak; hide BreakSize;
        assert Universal(t) == line + [c] + Universal(rest);
        SplitAt(line, c, Universal(rest));
      }
    }
  }

  /** The ten characters at which a text is cut into lines. */
  lemma BreaksAre(c: char)
    ensures IsBreak(c) <==> c as int in {0x0A, 0x0B, 0x0C, 0x0D, 0x1C, 0x1D, 0x1E, 0x85, 0x2028, 0x2029}
  {
  }
}
