/** The Python string operations backend/src/knowledge/chunking.py is built on,
    and the one measure every one of them keeps: the ink, the characters that are
    not white space. */
module TextShape {

  /** str.isspace() of one character; also what `\s` matches. */
  predicate IsSpace(c: char) {
    var n := c as int;
    || 0x09 <= n <= 0x0d || 0x1c <= n <= 0x20 || n == 0x85 || n == 0xa0 || n == 0x1680
    || 0x2000 <= n <= 0x200a || n == 0x2028 || n == 0x2029 || n == 0x202f || n == 0x205f || n == 0x3000
  }

  /** The boundaries of str.splitlines(). */
  predicate IsLineBreak(c: char)
    ensures IsLineBreak(c) ==> IsSpace(c)
  {
    var n := c as int;
    0x0a <= n <= 0x0d || 0x1c <= n <= 0x1e || n == 0x85 || n == 0x2028 || n == 0x2029
  }

  predicate Blank(s: string) {
    forall i :: 0 <= i < |s| ==> IsSpace(s[i])
  }

  function Ink(s: string): string {
    if s == "" then "" else (if IsSpace(s[0]) then "" else [s[0]]) + Ink(s[1..])
  }

  lemma {:induction false} InkSplits(s: string, t: string)
    ensures Ink(s + t) == Ink(s) + Ink(t)
  {
    if s == "" {
      assert s + t == t;
    } else {
      assert (s + t)[1..] == s[1..] + t;
      InkSplits(s[1..], t);
    }
  }

  lemma {:induction false} BlankHasNoInk(s: string)
    requires Blank(s)
    ensures Ink(s) == ""
  {
    if s != "" { BlankHasNoInk(s[1..]); }
  }

  function Concat(parts: seq<string>): string {
    if parts == [] then "" else parts[0] + Concat(parts[1..])
  }

  lemma {:induction false} ConcatSplits(xs: seq<string>, ys: seq<string>)
    ensures Concat(xs + ys) == Concat(xs) + Concat(ys)
  {
    if xs == [] {
      assert xs + ys == ys;
    } else {
      assert (xs + ys)[1..] == xs[1..] + ys;
      ConcatSplits(xs[1..], ys);
    }
  }

  // ------------------------------------------------------------------- strip

  function LeftStrip(s: string): string {
    if s != "" && IsSpace(s[0]) then LeftStrip(s[1..]) else s
  }

  function RightStrip(s: string): string {
    if s != "" && IsSpace(s[|s| - 1]) then RightStrip(s[..|s| - 1]) else s
  }

  function Strip(s: string): (t: string)
    ensures |t| <= |s| && Ink(t) == Ink(s)
    ensures t != "" ==> !IsSpace(t[0]) && !IsSpace(t[|t| - 1])
  {
    LeftStripKeepsInk(s);
    RightStripKeepsInk(LeftStrip(s));
    RightStrip(LeftStrip(s))
  }

  lemma {:induction false} LeftStripKeepsInk(s: string)
    ensures Ink(LeftStrip(s)) == Ink(s) && |LeftStrip(s)| <= |s|
    ensures LeftStrip(s) != "" ==> !IsSpace(LeftStrip(s)[0])
  {
    if s != "" && IsSpace(s[0]) { LeftStripKeepsInk(s[1..]); }
  }

  lemma {:induction false} RightStripKeepsInk(s: string)
    ensures Ink(RightStrip(s)) == Ink(s) && |RightStrip(s)| <= |s|
    ensures RightStrip(s) != "" ==> RightStrip(s)[0] == s[0] && !IsSpace(RightStrip(s)[|RightStrip(s)| - 1])
  {
    if s != "" && IsSpace(s[|s| - 1]) {
      RightStripKeepsInk(s[..|s| - 1]);
      assert s == s[..|s| - 1] + [s[|s| - 1]];
      InkSplits(s[..|s| - 1], [s[|s| - 1]]);
    }
  }

  /** `t` is `s` without blank text at either end. */
  predicate Trims(s: string, t: string, lo: nat, hi: nat) {
    lo <= hi <= |s| && t == s[lo..hi] && Blank(s[..lo]) && Blank(s[hi..])
  }

  /** str.strip(): what is left is a stretch of the text that neither begins nor ends
      with white space, and everything around it is white space. */
  lemma StripTrims(s: string)
    ensures exists lo: nat, hi: nat :: Trims(s, Strip(s), lo, hi)
    ensures Strip(s) != "" ==> !IsSpace(Strip(s)[0]) && !IsSpace(Strip(s)[|Strip(s)| - 1])
  {
    var lo := LeftTrims(s);
    var n := RightTrims(LeftStrip(s));
    var hi := lo + n;
    assert s[lo..][..n] == s[lo..hi];
    assert s[lo..][n..] == s[hi..];
    assert Trims(s, Strip(s), lo, hi);
  }

  lemma {:induction false} LeftTrims(s: string) returns (lo: nat)
    ensures lo <= |s| && LeftStrip(s) == s[lo..] && Blank(s[..lo])
  {
    lo := 0;
    if s != "" && IsSpace(s[0]) {
      var n := LeftTrims(s[1..]);
      lo := n + 1;
      assert s[1..][n..] == s[lo..];
      assert forall i :: 1 <= i < lo ==> s[..lo][i] == s[1..][..n][i - 1];
    }
  }

  lemma {:induction false} RightTrims(s: string) returns (n: nat)
    ensures n <= |s| && RightStrip(s) == s[..n] && Blank(s[n..])
  {
    n := |s|;
    if s != "" && IsSpace(s[|s| - 1]) {
      var front := s[..|s| - 1];
      n := RightTrims(front);
      assert front[..n] == s[..n];
      assert forall i :: 0 <= i < |s| - 1 - n ==> s[n..][i] == front[n..][i];
    }
  }

  // -------------------------------------------------------------- splitlines

  function LineEnd(s: string): (n: nat)
    ensures n <= |s|
  {
    if s == "" || IsLineBreak(s[0]) then 0 else 1 + LineEnd(s[1..])
  }

  /** str.splitlines(): "\r\n" is one break and the last break ends the text. */
  function SplitLines(s: string): seq<string>
    decreases |s|
  {
    if s == "" then []
    else
      var n := LineEnd(s);
      if n == |s| then [s]
      else
        var skip := if s[n] == '\r' && n + 1 < |s| && s[n + 1] == '\n' then 2 else 1;
        [s[..n]] + SplitLines(s[n + skip..])
  }

  lemma {:induction false} LineEndIsBreak(s: string)
    ensures LineEnd(s) < |s| ==> IsLineBreak(s[LineEnd(s)])
  {
    if s != "" && !IsLineBreak(s[0]) { LineEndIsBreak(s[1..]); }
  }

  lemma {:induction false} LinesKeepInk(s: string)
    ensures Ink(Concat(SplitLines(s))) == Ink(s)
    decreases |s|
  {
    if s != "" {
      var n := LineEnd(s);
      if n == |s| {
        assert Concat([s]) == s;
      } else {
        LineEndIsBreak(s);
        var skip := if s[n] == '\r' && n + 1 < |s| && s[n + 1] == '\n' then 2 else 1;
        LinesKeepInk(s[n + skip..]);
        InkAround(s, n, n + skip);
        InkSplits(s[..n], Concat(SplitLines(s[n + skip..])));
        assert Concat([s[..n]] + SplitLines(s[n + skip..])) == s[..n] + Concat(SplitLines(s[n + skip..]));
      }
    }
  }

  /** Cutting out white space cuts out no ink. */
  lemma InkAround(s: string, lo: nat, hi: nat)
    requires lo <= hi <= |s| && Blank(s[lo..hi])
    ensures Ink(s) == Ink(s[..lo]) + Ink(s[hi..])
  {
    hide Ink, Blank;
    var before, gap, after := s[..lo], s[lo..hi], s[hi..];
    assert s == before + (gap + after);
    InkSplits(before, gap + after);
    InkSplits(gap, after);
    BlankHasNoInk(gap);
  }

  // -------------------------------------------------------------------- joins

  function Join(sep: string, parts: seq<string>): string {
    if parts == [] then "" else if |parts| == 1 then parts[0] else parts[0] + sep + Join(sep, parts[1..])
  }

  lemma {:induction false} JoinKeepsInk(sep: string, parts: seq<string>)
    requires Blank(sep)
    ensures Ink(Join(sep, parts)) == Ink(Concat(parts))
  {
    if parts == [] {
    } else if |parts| == 1 {
      assert Concat(parts) == parts[0];
    } else {
      JoinKeepsInk(sep, parts[1..]);
      InkSplits(parts[0] + sep, Join(sep, parts[1..]));
      InkSplits(parts[0], sep);
      BlankHasNoInk(sep);
      InkSplits(parts[0], Concat(parts[1..]));
    }
  }

  // ------------------------------------------------------ re.split(r"\n\s*\n")

  /** `\n\s*\n` matches s[i..j + 1]. */
  predicate BreakAt(s: string, i: nat, j: nat) {
    i < j < |s| && s[i] == '\n' && s[j] == '\n' && Blank(s[i + 1..j])
  }

  datatype Match = NoMatch | At(first: nat, last: nat)

  /** The longest match that starts at i, its last newline at or before j. */
  function LongestFrom(s: string, i: nat, j: nat): (m: Match)
    requires j < |s|
    ensures m.At? ==> m.first == i && m.last <= j && BreakAt(s, i, m.last)
    ensures forall k: nat :: (m.At? ==> m.last < k) && k <= j ==> !BreakAt(s, i, k)
  {
    if BreakAt(s, i, j) then At(i, j)
    else if j == 0 then NoMatch
    else LongestFrom(s, i, j - 1)
  }

  /** re.search from i on: the leftmost start, and the greedy end. */
  function FirstBreak(s: string, i: nat): (m: Match)
    requires i <= |s|
    ensures m.At? ==> i <= m.first < m.last < |s|
    ensures m.At? ==> BreakAt(s, m.first, m.last)
    ensures m.At? ==> forall k: nat :: m.last < k < |s| ==> !BreakAt(s, m.first, k)
    ensures forall p: nat, q: nat :: i <= p < (if m.At? then m.first else |s|) ==> !BreakAt(s, p, q)
    decreases |s| - i
  {
    if i == |s| then NoMatch
    else
      var m := LongestFrom(s, i, |s| - 1);
      if m.At? then m else FirstBreak(s, i + 1)
  }

  function Paragraphs(s: string): seq<string>
    decreases |s|
  {
    var m := FirstBreak(s, 0);
    if m.NoMatch? then [s] else [s[..m.first]] + Paragraphs(s[m.last + 1..])
  }

  lemma BreakIsBlank(s: string, i: nat, j: nat)
    requires BreakAt(s, i, j)
    ensures Blank(s[i..j + 1])
  {
    assert s[i..j + 1] == ['\n'] + s[i + 1..j] + ['\n'];
  }

  lemma {:induction false} ParagraphsKeepInk(s: string)
    ensures Ink(Concat(Paragraphs(s))) == Ink(s)
    decreases |s|
  {
    hide IsSpace, Blank, BreakAt, Ink;
    var m := FirstBreak(s, 0);
    if m.NoMatch? {
      assert Concat([s]) == s;
    } else {
      var rest := s[m.last + 1..];
      ParagraphsKeepInk(rest);
      BreakIsBlank(s, m.first, m.last);
      InkAround(s, m.first, m.last + 1);
      InkSplits(s[..m.first], Concat(Paragraphs(rest)));
      assert Concat([s[..m.first]] + Paragraphs(rest)) == s[..m.first] + Concat(Paragraphs(rest));
    }
  }

  // ------------------------------------------- [x.strip() for x in ... if x]

  function StripAll(parts: seq<string>): (kept: seq<string>)
    ensures forall i :: 0 <= i < |kept| ==> kept[i] != ""
  {
    if parts == [] then []
    else
      var first := Strip(parts[0]);
      (if first == "" then [] else [first]) + StripAll(parts[1..])
  }

  lemma {:induction false} StripAllKeepsInk(parts: seq<string>)
    ensures Ink(Concat(StripAll(parts))) == Ink(Concat(parts))
  {
    if parts != [] {
      var first, rest := Strip(parts[0]), StripAll(parts[1..]);
      StripAllKeepsInk(parts[1..]);
      InkSplits(parts[0], Concat(parts[1..]));
      InkSplits(first, Concat(rest));
      if first != "" { assert Concat([first] + rest) == first + Concat(rest); }
      else { assert [] + rest == rest; }
    }
  }

  lemma {:induction false} StripAllAppends(parts: seq<string>, last: string)
    ensures StripAll(parts + [last]) == StripAll(parts) + (if Strip(last) == "" then [] else [Strip(last)])
  {
    if parts == [] {
      assert parts + [last] == [last];
    } else {
      assert (parts + [last])[1..] == parts[1..] + [last];
      StripAllAppends(parts[1..], last);
    }
  }

  lemma StripsToNothingIffBlank(s: string)
    ensures Strip(s) == "" <==> Blank(s)
  {
    StripTrims(s);
    var lo: nat, hi: nat :| Trims(s, Strip(s), lo, hi);
    if Strip(s) == "" {
      forall i | 0 <= i < |s| ensures IsSpace(s[i]) {
        if i < lo { assert s[..lo][i] == s[i]; } else { assert s[hi..][i - hi] == s[i]; }
      }
    }
  }

  /** The places of the marked elements, in order. */
  function Where(marks: seq<bool>): (places: seq<nat>)
    ensures forall k :: 0 <= k < |places| ==> places[k] < |marks| && marks[places[k]]
    ensures forall j, k :: 0 <= j < k < |places| ==> places[j] < places[k]
    ensures forall i: nat :: i < |marks| && marks[i] ==> i in places
  {
    if marks == [] then []
    else
      var n := |marks| - 1;
      if marks[n] then Where(marks[..n]) + [n] else Where(marks[..n])
  }

  function Marked(parts: seq<string>): seq<bool> {
    seq(|parts|, i requires 0 <= i < |parts| => !Blank(parts[i]))
  }

  /** `kept` is the stripped text of exactly the parts that are not blank, in order. */
  predicate KeepsNonBlank(parts: seq<string>, kept: seq<string>) {
    var places := Where(Marked(parts));
    |kept| == |places| && forall k :: 0 <= k < |kept| ==> kept[k] == Strip(parts[places[k]])
  }

  lemma {:induction false} StripAllKeepsNonBlank(parts: seq<string>)
    ensures KeepsNonBlank(parts, StripAll(parts))
  {
    if parts != [] {
      var n := |parts| - 1;
      var front, last := parts[..n], parts[n];
      assert parts == front + [last] && Marked(parts)[..n] == Marked(front);
      StripAllKeepsNonBlank(front);
      StripAllAppends(front, last);
      StripsToNothingIffBlank(last);
    }
  }

  predicate HasNoBreak(s: string) {
    forall i :: 0 <= i < |s| ==> !IsLineBreak(s[i])
  }

  /** Line by line: the text up to the first line boundary, the boundary itself, one
      character or "\r\n", left out, and so on to the end. */
  predicate AreLines(s: string, lines: seq<string>)
    decreases |s|
  {
    if s == "" then lines == []
    else
      && lines != [] && HasNoBreak(lines[0]) && lines[0] <= s
      && var n := |lines[0]|;
      if n == |s| then |lines| == 1
      else
        && IsLineBreak(s[n])
        && AreLines(s[if s[n] == '\r' && n + 1 < |s| && s[n + 1] == '\n' then n + 2 else n + 1..], lines[1..])
  }

  lemma {:induction false} LineEndIsFirst(s: string)
    ensures HasNoBreak(s[..LineEnd(s)])
  {
    if s != "" && !IsLineBreak(s[0]) {
      LineEndIsFirst(s[1..]);
      assert s[..LineEnd(s)] == [s[0]] + s[1..][..LineEnd(s[1..])];
    }
  }

  lemma {:induction false} SplitLinesAreLines(s: string)
    ensures AreLines(s, SplitLines(s))
    decreases |s|
  {
    if s != "" {
      var n := LineEnd(s);
      LineEndIsFirst(s);
      LineEndIsBreak(s);
      assert s[..|s|] == s;
      if n < |s| { SplitLinesAreLines(s[if s[n] == '\r' && n + 1 < |s| && s[n + 1] == '\n' then n + 2 else n + 1..]); }
    }
  }

  /** Paragraph by paragraph: the text up to the first blank gap, the whole of the gap
      left out, and so on to the end. */
  ghost predicate AreParagraphs(s: string, paragraphs: seq<string>)
    decreases |s|
  {
    && paragraphs != [] && paragraphs[0] <= s
    && var n := |paragraphs[0]|;
    && (forall i: nat, j: nat :: i < n ==> !BreakAt(s, i, j))
    && if n == |s| then |paragraphs| == 1
       else exists j: nat :: BreakAt(s, n, j) && (forall k: nat :: j < k ==> !BreakAt(s, n, k)) && AreParagraphs(s[j + 1..], paragraphs[1..])
  }

  lemma {:induction false} SplitsIntoParagraphs(s: string)
    ensures AreParagraphs(s, Paragraphs(s))
    decreases |s|
  {
    hide BreakAt;
    var m := FirstBreak(s, 0);
    BreaksEndInside(s);
    if m.At? {
      var rest := s[m.last + 1..];
      SplitsIntoParagraphs(rest);
      assert Paragraphs(s)[1..] == Paragraphs(rest);
      assert BreakAt(s, m.first, m.last);
    }
  }

  lemma BreaksEndInside(s: string)
    ensures forall i: nat, j: nat :: BreakAt(s, i, j) ==> j < |s|
  {
  }
}
