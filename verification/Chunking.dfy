/** backend/src/knowledge/chunking.py. The boundary test, a set of regular
    expressions over a line and the lines after it, is a parameter. */
module Chunking {
  import opened TextShape

  type Boundary = (string, seq<string>) -> bool

  // ------------------------------------------------------------------- blocks

  /** The first line at or after `from` that starts a new block. */
  function NextBoundary(isBoundary: Boundary, lines: seq<string>, from: nat): (n: nat)
    requires from <= |lines|
    ensures from <= n <= |lines|
    ensures forall i :: from <= i < n ==> !isBoundary(lines[i], lines[i + 1..])
    ensures n < |lines| ==> isBoundary(lines[n], lines[n + 1..])
    decreases |lines| - from
  {
    if from == |lines| || isBoundary(lines[from], lines[from + 1..]) then from
    else NextBoundary(isBoundary, lines, from + 1)
  }

  /** Lines cut before every boundary except the very first line. */
  function Sections(isBoundary: Boundary, lines: seq<string>): seq<seq<string>>
    decreases |lines|
  {
    if lines == [] then []
    else
      var n := NextBoundary(isBoundary, lines, 1);
      [lines[..n]] + Sections(isBoundary, lines[n..])
  }

  function Lines(sections: seq<seq<string>>): seq<string> {
    if sections == [] then [] else sections[0] + Lines(sections[1..])
  }

  lemma {:induction false} SectionsPartition(isBoundary: Boundary, lines: seq<string>)
    ensures Lines(Sections(isBoundary, lines)) == lines
    decreases |lines|
  {
    if lines != [] {
      var n := NextBoundary(isBoundary, lines, 1);
      SectionsPartition(isBoundary, lines[n..]);
      assert lines[..n] + lines[n..] == lines;
    }
  }

  /** Line p begins a section other than the first. */
  predicate CutAt(sections: seq<seq<string>>, p: nat) {
    |sections| > 1 &&
    (p == |sections[0]| || (p > |sections[0]| && CutAt(sections[1..], p - |sections[0]|)))
  }

  /** The text is cut before every line that is a boundary in its place, and nowhere else. */
  lemma {:induction false} CutExactlyAtBoundaries(isBoundary: Boundary, lines: seq<string>, p: nat)
    requires 0 < p < |lines|
    ensures CutAt(Sections(isBoundary, lines), p) <==> isBoundary(lines[p], lines[p + 1..])
    decreases |lines|
  {
    var n := NextBoundary(isBoundary, lines, 1);
    var rest := lines[n..];
    assert Sections(isBoundary, lines) == [lines[..n]] + Sections(isBoundary, rest);
    if p > n {
      assert rest[p - n] == lines[p] && rest[p - n + 1..] == lines[p + 1..];
      CutExactlyAtBoundaries(isBoundary, rest, p - n);
    }
  }

  function JoinLines(sections: seq<seq<string>>): seq<string> {
    if sections == [] then [] else [Join("\n", sections[0])] + JoinLines(sections[1..])
  }

  function BlocksOf(isBoundary: Boundary, text: string): (blocks: seq<string>)
    ensures forall i :: 0 <= i < |blocks| ==> blocks[i] != ""
  {
    var structured := StripAll(JoinLines(Sections(isBoundary, SplitLines(text))));
    if |structured| <= 1 then StripAll(Paragraphs(text)) else structured
  }

  lemma {:induction false} JoinedLinesKeepInk(sections: seq<seq<string>>)
    ensures Ink(Concat(JoinLines(sections))) == Ink(Concat(Lines(sections)))
  {
    if sections != [] {
      var rest := sections[1..];
      JoinedLinesKeepInk(rest);
      JoinKeepsInk("\n", sections[0]);
      ConcatSplits(sections[0], Lines(rest));
      InkSplits(Concat(sections[0]), Concat(Lines(rest)));
      InkSplits(Join("\n", sections[0]), Concat(JoinLines(rest)));
      assert Concat([Join("\n", sections[0])] + JoinLines(rest)) == Join("\n", sections[0]) + Concat(JoinLines(rest));
    }
  }

  lemma BlocksKeepInk(isBoundary: Boundary, text: string)
    ensures Ink(Concat(BlocksOf(isBoundary, text))) == Ink(text)
  {
    var sections := Sections(isBoundary, SplitLines(text));
    SectionsPartition(isBoundary, SplitLines(text));
    JoinedLinesKeepInk(sections);
    LinesKeepInk(text);
    StripAllKeepsInk(JoinLines(sections));
    ParagraphsKeepInk(text);
    StripAllKeepsInk(Paragraphs(text));
  }

  /** Stretch by stretch: the lines from the start, or from a boundary line, up to the
      next line that is a boundary before the lines that follow it. */
  predicate AreStretches(isBoundary: Boundary, lines: seq<string>, stretches: seq<seq<string>>)
    decreases |lines|
  {
    if lines == [] then stretches == []
    else
      && stretches != [] && stretches[0] != [] && stretches[0] <= lines
      && var n := |stretches[0]|;
      && (forall i :: 1 <= i < n ==> !isBoundary(lines[i], lines[i + 1..]))
      && (n < |lines| ==> isBoundary(lines[n], lines[n + 1..]))
      && AreStretches(isBoundary, lines[n..], stretches[1..])
  }

  lemma {:induction false} SectionsAreStretches(isBoundary: Boundary, lines: seq<string>)
    ensures AreStretches(isBoundary, lines, Sections(isBoundary, lines))
    decreases |lines|
  {
    if lines != [] { SectionsAreStretches(isBoundary, lines[NextBoundary(isBoundary, lines, 1)..]); }
  }

  lemma {:induction false} OneWayToStretch(isBoundary: Boundary, lines: seq<string>, a: seq<seq<string>>, b: seq<seq<string>>)
    requires AreStretches(isBoundary, lines, a) && AreStretches(isBoundary, lines, b)
    ensures a == b
    decreases |lines|
  {
    if lines != [] {
      var n := |a[0]|;
      assert |b[0]| == n;
      assert a[0] == lines[..n] == b[0];
      OneWayToStretch(isBoundary, lines[n..], a[1..], b[1..]);
      assert a == [a[0]] + a[1..] && b == [b[0]] + b[1..];
    }
  }

  function Joined(stretches: seq<seq<string>>): seq<string> {
    seq(|stretches|, k requires 0 <= k < |stretches| => Join("\n", stretches[k]))
  }

  lemma {:induction false} JoinLinesIsJoined(sections: seq<seq<string>>)
    ensures JoinLines(sections) == Joined(sections)
  {
    if sections != [] { JoinLinesIsJoined(sections[1..]); }
  }

  /** The blocks from the boundaries and the lines alone: the stripped texts of exactly the
      stretches between boundary lines that are not blank, if there are at least two of
      them; otherwise the stripped paragraphs that are not blank. */
  lemma BlocksFollowTheStructure(isBoundary: Boundary, text: string, lines: seq<string>, stretches: seq<seq<string>>)
    requires AreLines(text, lines) && AreStretches(isBoundary, lines, stretches)
    ensures var nonBlank := |Where(Marked(Joined(stretches)))|;
      if nonBlank >= 2 then KeepsNonBlank(Joined(stretches), BlocksOf(isBoundary, text))
      else KeepsNonBlank(Paragraphs(text), BlocksOf(isBoundary, text))
  {
    hide AreLines, AreStretches, Sections, SplitLines, Paragraphs, StripAll, Strip, Where, Marked, Join;
    SplitLinesAreLines(text);
    OneSplit(text, lines, SplitLines(text));
    SectionsAreStretches(isBoundary, lines);
    OneWayToStretch(isBoundary, lines, stretches, Sections(isBoundary, lines));
    JoinLinesIsJoined(stretches);
    StripAllKeepsNonBlank(Joined(stretches));
    StripAllKeepsNonBlank(Paragraphs(text));
  }

  lemma NoLineIsLonger(s: string, a: string, b: string)
    requires a <= s && (|a| < |s| ==> IsLineBreak(s[|a|]))
    requires b <= s && HasNoBreak(b)
    ensures |b| <= |a|
  {
    forall i | 0 <= i < |b| ensures !IsLineBreak(s[i]) { assert b[i] == s[i]; }
  }

  lemma {:induction false} OneSplit(s: string, a: seq<string>, b: seq<string>)
    requires AreLines(s, a) && AreLines(s, b)
    ensures a == b
    decreases |s|
  {
    if s != "" {
      var n, m := |a[0]|, |b[0]|;
      NoLineIsLonger(s, a[0], b[0]);
      NoLineIsLonger(s, b[0], a[0]);
      assert a[0] == s[..n] == b[0];
      if n < |s| {
        OneSplit(s[if s[n] == '\r' && n + 1 < |s| && s[n + 1] == '\n' then n + 2 else n + 1..], a[1..], b[1..]);
      }
      assert a == [a[0]] + a[1..] && b == [b[0]] + b[1..];
    }
  }

  method Blocks(isBoundary: Boundary, text: string) returns (blocks: seq<string>)
    ensures blocks == BlocksOf(isBoundary, text)
  {
    hide Sections, NextBoundary, Resume, StripAll, JoinLines, Paragraphs, SplitLines;
    var lines := SplitLines(text);
    var sections: seq<seq<string>> := [];
    var current: seq<string> := [];
    ghost var start: nat := 0;
    assert lines[0..] == lines;
    StartAfresh(isBoundary, lines, 0);
    for index := 0 to |lines|
      invariant start <= index && current == lines[start..index]
      invariant index > 0 ==> current != []
      invariant sections + Resume(isBoundary, lines, start, index) == Sections(isBoundary, lines)
    {
      var line := lines[index];
      if current != [] && isBoundary(line, lines[index + 1..]) {
        ResumeAtBoundary(isBoundary, lines, start, index);
        sections := sections + [current];
        current := [];
        start := index;
      }
      if current == [] {
        ResumeAfterFirst(isBoundary, lines, start);
      } else {
        ResumeInside(isBoundary, lines, start, index);
      }
      current := current + [line];
    }
    if current != [] {
      ResumeAtEnd(isBoundary, lines, start);
      sections := sections + [current];
    } else {
      StartAfresh(isBoundary, lines, |lines|);
    }
    assert sections == Sections(isBoundary, lines);
    var structured := StripAll(JoinLines(sections));
    blocks := if |structured| <= 1 then StripAll(Paragraphs(text)) else structured;
  }

  /** The sections still to come when the block that began at line `start` has
      grown to line `index`. */
  function Resume(isBoundary: Boundary, lines: seq<string>, start: nat, index: nat): seq<seq<string>>
    requires start <= index <= |lines|
  {
    if start == index then Sections(isBoundary, lines[start..])
    else
      var n := NextBoundary(isBoundary, lines, index);
      [lines[start..n]] + Sections(isBoundary, lines[n..])
  }

  lemma {:induction false} BoundaryShifts(isBoundary: Boundary, lines: seq<string>, start: nat, from: nat)
    requires start + from <= |lines|
    ensures NextBoundary(isBoundary, lines[start..], from) + start == NextBoundary(isBoundary, lines, start + from)
    decreases |lines| - from
  {
    if start + from < |lines| {
      assert lines[start..][from + 1..] == lines[start + from + 1..];
      if !isBoundary(lines[start + from], lines[start + from + 1..]) { BoundaryShifts(isBoundary, lines, start, from + 1); }
    }
  }

  lemma ResumeAfterFirst(isBoundary: Boundary, lines: seq<string>, start: nat)
    requires start < |lines|
    ensures Resume(isBoundary, lines, start, start) == Resume(isBoundary, lines, start, start + 1)
  {
    BoundaryShifts(isBoundary, lines, start, 1);
    var n := NextBoundary(isBoundary, lines[start..], 1);
    assert lines[start..][..n] == lines[start..start + n];
    assert lines[start..][n..] == lines[start + n..];
  }

  lemma ResumeAtBoundary(isBoundary: Boundary, lines: seq<string>, start: nat, index: nat)
    requires start < index < |lines| && isBoundary(lines[index], lines[index + 1..])
    ensures Resume(isBoundary, lines, start, index) == [lines[start..index]] + Resume(isBoundary, lines, index, index)
  {
  }

  lemma ResumeInside(isBoundary: Boundary, lines: seq<string>, start: nat, index: nat)
    requires start < index < |lines| && !isBoundary(lines[index], lines[index + 1..])
    ensures Resume(isBoundary, lines, start, index) == Resume(isBoundary, lines, start, index + 1)
  {
  }

  lemma ResumeAtEnd(isBoundary: Boundary, lines: seq<string>, start: nat)
    requires start < |lines|
    ensures Resume(isBoundary, lines, start, |lines|) == [lines[start..|lines|]]
  {
    assert lines[|lines|..] == [];
  }

  lemma StartAfresh(isBoundary: Boundary, lines: seq<string>, start: nat)
    requires start <= |lines|
    ensures Resume(isBoundary, lines, start, start) == Sections(isBoundary, lines[start..])
    ensures start == |lines| ==> Resume(isBoundary, lines, start, start) == []
  {
  }

  // ---------------------------------------------------------- oversized blocks

  /** The windows of one block before they are stripped, from `start` on. */
  function Windows(block: string, size: nat, overlap: nat, start: nat): (windows: seq<string>)
    requires overlap < size && start < |block|
    ensures windows != [] && windows[0] == block[start..if start + size < |block| then start + size else |block|]
    ensures forall i :: 0 <= i < |windows| ==> 1 <= |windows[i]| <= size
    decreases |block| - start
  {
    if start + size >= |block| then [block[start..]]
    else [block[start..start + size]] + Windows(block, size, overlap, start + size - overlap)
  }

  lemma WindowsStep(block: string, size: nat, overlap: nat, start: nat)
    requires overlap < size && start < |block|
    ensures Windows(block, size, overlap, start) ==
      if start + size >= |block| then [block[start..|block|]]
      else [block[start..start + size]] + Windows(block, size, overlap, start + size - overlap)
  {
  }

  method SplitOversized(block: string, size: nat, overlap: nat) returns (pieces: seq<string>)
    requires overlap < size < |block|
    ensures pieces == StripAll(Windows(block, size, overlap, 0))
  {
    hide StripAll, Windows;
    var windows: seq<string> := [];
    var start := 0;
    while start < |block|
      invariant start < |block|
      invariant windows + Windows(block, size, overlap, start) == Windows(block, size, overlap, 0)
      decreases |block| - start
    {
      var end := start + size;
      WindowsStep(block, size, overlap, start);
      windows := windows + [block[start..if end < |block| then end else |block|]];
      if end >= |block| { break; }
      start := end - overlap;
    }
    pieces := StripAll(windows);
  }

  /** Adjacent windows share exactly `overlap` characters. */
  lemma {:induction false} WindowsOverlap(block: string, size: nat, overlap: nat, start: nat, i: nat)
    requires overlap < size && start < |block|
    requires i + 1 < |Windows(block, size, overlap, start)|
    ensures var w := Windows(block, size, overlap, start);
      && |w[i]| == size && overlap < |w[i + 1]|
      && w[i][size - overlap..] == w[i + 1][..overlap]
    decreases |block| - start
  {
    var next := start + size - overlap;
    var rest := Windows(block, size, overlap, next);
    assert Windows(block, size, overlap, start) == [block[start..start + size]] + rest;
    if i == 0 {
      assert block[start..start + size][size - overlap..] == block[next..start + size];
      assert rest[0][..overlap] == block[next..next + overlap];
    } else {
      WindowsOverlap(block, size, overlap, next, i - 1);
    }
  }

  /** What each window shows beyond the `overlap` it begins with. */
  function NewText(windows: seq<string>, overlap: nat): string
    requires forall i :: 0 <= i < |windows| ==> overlap <= |windows[i]|
  {
    if windows == [] then "" else windows[0][overlap..] + NewText(windows[1..], overlap)
  }

  lemma NewTextOfRest(first: string, rest: seq<string>, overlap: nat)
    requires rest != [] && forall i :: 0 <= i < |rest| ==> overlap <= |rest[i]|
    ensures first + NewText(rest, overlap) == first + (rest[0] + NewText(rest[1..], overlap))[overlap..]
  {
    assert (rest[0] + NewText(rest[1..], overlap))[overlap..] == rest[0][overlap..] + NewText(rest[1..], overlap);
  }

  /** The first window and then only what is new puts the block together again. */
  lemma {:induction false} WindowsReassemble(block: string, size: nat, overlap: nat, start: nat)
    requires overlap < size && start + overlap < |block|
    ensures var w := Windows(block, size, overlap, start);
      && (forall i :: 0 <= i < |w| ==> overlap < |w[i]|)
      && w[0] + NewText(w[1..], overlap) == block[start..]
    decreases |block| - start
  {
    WindowsStep(block, size, overlap, start);
    hide Windows;
    if start + size < |block| {
      var next := start + size - overlap;
      var rest := Windows(block, size, overlap, next);
      WindowsReassemble(block, size, overlap, next);
      hide NewText;
      NewTextOfRest(block[start..start + size], rest, overlap);
      assert Windows(block, size, overlap, start)[1..] == rest;
      assert block[next..][overlap..] == block[start + size..];
      assert block[start..start + size] + block[start + size..] == block[start..];
    } else {
      assert Windows(block, size, overlap, start)[1..] == [];
    }
  }

  /** The number of windows is (len - overlap) / (size - overlap) rounded up. */
  lemma {:induction false} WindowCount(block: string, size: nat, overlap: nat, start: nat)
    requires overlap < size && start + overlap < |block|
    ensures var n, step := |Windows(block, size, overlap, start)|, size - overlap;
      (n - 1) * step < |block| - start - overlap <= n * step
    decreases |block| - start
  {
    if start + size < |block| {
      var rest := start + size - overlap;
      WindowCount(block, size, overlap, rest);
      OneStepMore(|Windows(block, size, overlap, rest)|, size - overlap, |block| - rest - overlap);
    }
  }

  lemma OneStepMore(n: int, step: int, x: int)
    requires (n - 1) * step < x <= n * step
    ensures n * step < x + step <= (n + 1) * step
  {
  }

  /** Where pass n of the splitting loop starts, for any size and overlap. */
  function PassStart(size: nat, overlap: nat, n: nat): int {
    if n == 0 then 0 else PassStart(size, overlap, n - 1) + size - overlap
  }

  lemma {:induction false} PassesAdvance(size: nat, overlap: nat, n: nat)
    ensures if overlap < size then PassStart(size, overlap, n) >= n else PassStart(size, overlap, n) <= 0
  {
    if n > 0 { PassesAdvance(size, overlap, n - 1); }
  }

  predicate Reaches(block: string, size: nat, overlap: nat, n: nat) {
    PassStart(size, overlap, n) + size >= |block|
  }

  /** An oversized block has a last pass exactly when the overlap is smaller than
      the chunk. */
  lemma SplittingEnds(block: string, size: nat, overlap: nat)
    requires |block| > size
    ensures (exists n: nat :: Reaches(block, size, overlap, n)) <==> overlap < size
  {
    if overlap < size {
      PassesAdvance(size, overlap, |block|);
      assert Reaches(block, size, overlap, |block|);
    } else {
      forall n: nat ensures !Reaches(block, size, overlap, n) { PassesAdvance(size, overlap, n); }
    }
  }
}
