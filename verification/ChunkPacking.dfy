/** chunk_text of backend/src/knowledge/chunking.py: blocks packed greedily into
    chunks, and what the chunks keep of the text. */
module ChunkPacking {
  import opened TextShape
  import opened Chunking

  const GAP := "\n\n"

  /** The splitting loop ends on every block it is used on. */
  ghost predicate Splittable(blocks: seq<string>, size: nat, overlap: nat) {
    overlap < size || forall i :: 0 <= i < |blocks| ==> |blocks[i]| <= size
  }

  function Extended(current: string, block: string): string {
    if current == "" then block else current + GAP + block
  }

  function Flushed(current: string): seq<string> {
    if current == "" then [] else [current]
  }

  function PackFrom(current: string, blocks: seq<string>, size: nat, overlap: nat): seq<string>
    requires Splittable(blocks, size, overlap)
    decreases |blocks|
  {
    if blocks == [] then Flushed(current)
    else if |blocks[0]| > size then
      Flushed(current) + StripAll(Windows(blocks[0], size, overlap, 0)) + PackFrom("", blocks[1..], size, overlap)
    else if |Extended(current, blocks[0])| > size then
      [current] + PackFrom(blocks[0], blocks[1..], size, overlap)
    else PackFrom(Extended(current, blocks[0]), blocks[1..], size, overlap)
  }

  ghost function ChunksOf(isBoundary: Boundary, text: string, size: nat, overlap: nat): seq<string>
    requires Splittable(BlocksOf(isBoundary, Strip(text)), size, overlap)
  {
    if Strip(text) == "" then [] else PackFrom("", BlocksOf(isBoundary, Strip(text)), size, overlap)
  }

  function NonEmpty(chunks: seq<string>): seq<string> {
    if chunks == [] then [] else (if chunks[0] == "" then [] else [chunks[0]]) + NonEmpty(chunks[1..])
  }

  method ChunkText(isBoundary: Boundary, text: string, size: nat, overlap: nat) returns (kept: seq<string>)
    requires Splittable(BlocksOf(isBoundary, Strip(text)), size, overlap)
    ensures kept == ChunksOf(isBoundary, text, size, overlap)
  {
    hide BlocksOf, Strip, PackFrom, NonEmpty;
    var stripped := Strip(text);
    if stripped == "" { return []; }
    var blocks := Blocks(isBoundary, stripped);
    var chunks := Pack(blocks, size, overlap);
    ChunksFit("", blocks, size, overlap);
    NothingToDrop(chunks);
    kept := NonEmpty(chunks);
  }

  /** The packing loop. */
  method Pack(blocks: seq<string>, size: nat, overlap: nat) returns (chunks: seq<string>)
    requires Splittable(blocks, size, overlap)
    ensures chunks == PackFrom("", blocks, size, overlap)
  {
    hide StripAll, PackFrom, Windows;
    chunks := [];
    var current := "";
    assert blocks[0..] == blocks;
    for i := 0 to |blocks|
      invariant chunks + PackFrom(current, blocks[i..], size, overlap) == PackFrom("", blocks, size, overlap)
    {
      PackStep(current, blocks, i, size, overlap);
      var block := blocks[i];
      if |block| > size {
        if current != "" {
          chunks := chunks + [current];
          current := "";
        }
        var pieces := SplitOversized(block, size, overlap);
        chunks := chunks + pieces;
      } else {
        var candidate := if current != "" then current + GAP + block else block;
        if |candidate| > size {
          chunks := chunks + [current];
          current := block;
        } else {
          current := candidate;
        }
      }
    }
    PackEnd(current, size, overlap);
    if current != "" { chunks := chunks + [current]; }
  }

  lemma PackStep(current: string, blocks: seq<string>, i: nat, size: nat, overlap: nat)
    requires i < |blocks| && Splittable(blocks, size, overlap)
    ensures PackFrom(current, blocks[i..], size, overlap) ==
      if |blocks[i]| > size then
        Flushed(current) + StripAll(Windows(blocks[i], size, overlap, 0)) + PackFrom("", blocks[i + 1..], size, overlap)
      else if |Extended(current, blocks[i])| > size then
        [current] + PackFrom(blocks[i], blocks[i + 1..], size, overlap)
      else PackFrom(Extended(current, blocks[i]), blocks[i + 1..], size, overlap)
  {
    assert blocks[i..][1..] == blocks[i + 1..];
  }

  lemma PackEnd(current: string, size: nat, overlap: nat)
    ensures PackFrom(current, [], size, overlap) == Flushed(current)
  {
  }

  lemma {:induction false} NothingToDrop(chunks: seq<string>)
    requires forall i :: 0 <= i < |chunks| ==> chunks[i] != ""
    ensures NonEmpty(chunks) == chunks
  {
    if chunks != [] { NothingToDrop(chunks[1..]); }
  }

  // ------------------------------------------------------------ chunk size

  predicate Fitting(chunks: seq<string>, size: nat) {
    forall i :: 0 <= i < |chunks| ==> 1 <= |chunks[i]| <= size
  }

  lemma {:induction false} StrippedWindowsFit(windows: seq<string>, size: nat)
    requires forall i :: 0 <= i < |windows| ==> |windows[i]| <= size
    ensures Fitting(StripAll(windows), size)
  {
    if windows != [] { StrippedWindowsFit(windows[1..], size); }
  }

  lemma {:induction false} ChunksFit(current: string, blocks: seq<string>, size: nat, overlap: nat)
    requires Splittable(blocks, size, overlap) && |current| <= size
    requires forall i :: 0 <= i < |blocks| ==> blocks[i] != ""
    ensures Fitting(PackFrom(current, blocks, size, overlap), size)
    decreases |blocks|
  {
    hide StripAll, Strip;
    if blocks != [] {
      var b, rest := blocks[0], blocks[1..];
      if |b| > size {
        StrippedWindowsFit(Windows(b, size, overlap, 0), size);
        ChunksFit("", rest, size, overlap);
      } else if |Extended(current, b)| > size {
        ChunksFit(b, rest, size, overlap);
      } else {
        ChunksFit(Extended(current, b), rest, size, overlap);
      }
    }
  }

  lemma EveryChunkFits(isBoundary: Boundary, text: string, size: nat, overlap: nat)
    requires Splittable(BlocksOf(isBoundary, Strip(text)), size, overlap)
    ensures Fitting(ChunksOf(isBoundary, text, size, overlap), size)
  {
    ChunksFit("", BlocksOf(isBoundary, Strip(text)), size, overlap);
  }

  // ------------------------------------------------------- nothing is lost

  predicate Subsequence(s: string, t: string) {
    s == "" || (t != "" && ((s[0] == t[0] && Subsequence(s[1..], t[1..])) || Subsequence(s, t[1..])))
  }

  lemma {:induction false} SubsequenceOfItself(s: string)
    ensures Subsequence(s, s)
  {
    if s != "" { SubsequenceOfItself(s[1..]); }
  }

  lemma {:induction false} SubsequencesAppend(a: string, b: string, c: string, d: string)
    requires Subsequence(a, b) && Subsequence(c, d)
    ensures Subsequence(a + c, b + d)
    decreases |b|
  {
    if b == "" {
      assert a + c == c && b + d == d;
    } else {
      assert (b + d)[1..] == b[1..] + d;
      if a != "" && a[0] == b[0] && Subsequence(a[1..], b[1..]) {
        assert (a + c)[1..] == a[1..] + c;
        SubsequencesAppend(a[1..], b[1..], c, d);
      } else {
        SubsequencesAppend(a, b[1..], c, d);
      }
    }
  }

  lemma {:induction false} WindowsKeepInk(block: string, size: nat, overlap: nat, start: nat)
    requires overlap < size && start < |block|
    ensures Subsequence(Ink(block[start..]), Ink(Concat(Windows(block, size, overlap, start))))
    ensures overlap == 0 ==> Ink(Concat(Windows(block, size, overlap, start))) == Ink(block[start..])
    decreases |block| - start
  {
    hide Ink, Subsequence, Windows;
    WindowsStep(block, size, overlap, start);
    var windows := Windows(block, size, overlap, start);
    if start + size >= |block| {
      assert block[start..|block|] == block[start..] && Concat([block[start..]]) == block[start..];
      SubsequenceOfItself(Ink(block[start..]));
    } else {
      var next := start + size - overlap;
      var rest := Windows(block, size, overlap, next);
      var own, again := block[start..next], block[next..start + size];
      WindowsKeepInk(block, size, overlap, next);
      assert block[start..] == own + block[next..];
      assert block[start..start + size] == own + again;
      assert Concat(windows) == own + (again + Concat(rest));
      InkSplits(own, block[next..]);
      InkSplits(own, again + Concat(rest));
      InkSplits(again, Concat(rest));
      SubsequenceOfItself(Ink(own));
      NothingIsSubsequence(Ink(again));
      SubsequencesAppend("", Ink(again), Ink(block[next..]), Ink(Concat(rest)));
      assert "" + Ink(block[next..]) == Ink(block[next..]);
      SubsequencesAppend(Ink(own), Ink(own), Ink(block[next..]), Ink(again) + Ink(Concat(rest)));
      if overlap == 0 { assert again + Concat(rest) == Concat(rest); }
    }
  }

  lemma NothingIsSubsequence(s: string)
    ensures Subsequence("", s)
  {
  }

  /** Every chunk keeps its ink; only the overlaps of oversized blocks repeat any. */
  ghost predicate Keeps(ink: string, chunks: seq<string>, exactly: bool) {
    Subsequence(ink, Ink(Concat(chunks))) && (exactly ==> Ink(Concat(chunks)) == ink)
  }

  lemma KeepsAppend(a: string, xs: seq<string>, b: string, ys: seq<string>, exactly: bool)
    requires Keeps(a, xs, exactly) && Keeps(b, ys, exactly)
    ensures Keeps(a + b, xs + ys, exactly)
  {
    hide Ink, Subsequence;
    ConcatSplits(xs, ys);
    InkSplits(Concat(xs), Concat(ys));
    SubsequencesAppend(a, Ink(Concat(xs)), b, Ink(Concat(ys)));
  }

  lemma FlushKeeps(current: string, exactly: bool)
    ensures Keeps(Ink(current), Flushed(current), exactly)
  {
    SubsequenceOfItself(Ink(current));
    if current != "" { assert Concat([current]) == current; }
  }

  lemma OversizedKeeps(block: string, size: nat, overlap: nat, exactly: bool)
    requires overlap < size < |block| && (exactly ==> overlap == 0)
    ensures Keeps(Ink(block), StripAll(Windows(block, size, overlap, 0)), exactly)
  {
    hide Ink, Subsequence;
    assert block[0..] == block;
    WindowsKeepInk(block, size, overlap, 0);
    StripAllKeepsInk(Windows(block, size, overlap, 0));
  }

  lemma GapIsBlank()
    ensures Blank(GAP)
  {
  }

  lemma ExtendedInk(current: string, block: string)
    ensures Ink(Extended(current, block)) == Ink(current) + Ink(block)
  {
    hide Ink, Blank, IsSpace;
    if current == "" {
      BlankHasNoInk("") by { EmptyIsBlank(); }
      assert Ink("") + Ink(block) == Ink(block);
    } else {
      GapIsBlank();
      InkSplits(current + GAP, block);
      InkSplits(current, GAP);
      BlankHasNoInk(GAP);
    }
  }

  lemma EmptyIsBlank()
    ensures Blank("")
  {
  }

  lemma {:induction false} PackKeepsInk(current: string, blocks: seq<string>, size: nat, overlap: nat, exactly: bool)
    requires Splittable(blocks, size, overlap)
    requires exactly ==> overlap == 0 || forall i :: 0 <= i < |blocks| ==> |blocks[i]| <= size
    ensures Keeps(Ink(current) + Ink(Concat(blocks)), PackFrom(current, blocks, size, overlap), exactly)
    decreases |blocks|
  {
    hide Ink, Subsequence, Keeps, StripAll, Extended, Flushed;
    if blocks == [] {
      FlushKeeps(current, exactly);
      BlankHasNoInk("");
      assert Ink(current) + "" == Ink(current);
    } else {
      var b, rest := blocks[0], blocks[1..];
      InkSplits(b, Concat(rest));
      if |b| > size {
        var pieces := StripAll(Windows(b, size, overlap, 0));
        PackKeepsInk("", rest, size, overlap, exactly);
        BlankHasNoInk("");
        assert "" + Ink(Concat(rest)) == Ink(Concat(rest));
        FlushKeeps(current, exactly);
        OversizedKeeps(b, size, overlap, exactly);
        KeepsAppend(Ink(current), Flushed(current), Ink(b), pieces, exactly);
        KeepsAppend(Ink(current) + Ink(b), Flushed(current) + pieces, Ink(Concat(rest)), PackFrom("", rest, size, overlap), exactly);
        assert Ink(current) + Ink(b) + Ink(Concat(rest)) == Ink(current) + Ink(Concat(blocks));
      } else if |Extended(current, b)| > size {
        PackKeepsInk(b, rest, size, overlap, exactly);
        assert current != "" by { if current == "" { ExtendedFromNothing(b); } }
        FlushKeeps(current, exactly);
        FlushedOne(current);
        KeepsAppend(Ink(current), [current], Ink(b) + Ink(Concat(rest)), PackFrom(b, rest, size, overlap), exactly);
      } else {
        PackKeepsInk(Extended(current, b), rest, size, overlap, exactly);
        ExtendedInk(current, b);
        assert Ink(current) + Ink(b) + Ink(Concat(rest)) == Ink(current) + Ink(Concat(blocks));
      }
    }
  }

  lemma ExtendedFromNothing(block: string)
    ensures Extended("", block) == block
  {
  }

  lemma FlushedOne(current: string)
    requires current != ""
    ensures Flushed(current) == [current]
  {
  }

  /** Every character of the text that is not white space is in the chunks, in
      order; nothing else is, unless the overlap of an oversized block repeats it. */
  lemma NothingIsLost(isBoundary: Boundary, text: string, size: nat, overlap: nat)
    requires Splittable(BlocksOf(isBoundary, Strip(text)), size, overlap)
    ensures Subsequence(Ink(text), Ink(Concat(ChunksOf(isBoundary, text, size, overlap))))
    ensures (overlap == 0 || forall i :: 0 <= i < |BlocksOf(isBoundary, Strip(text))| ==> |BlocksOf(isBoundary, Strip(text))[i]| <= size)
      ==> Ink(Concat(ChunksOf(isBoundary, text, size, overlap))) == Ink(text)
  {
    hide Subsequence, BlocksOf, Strip;
    var stripped := Strip(text);
    assert Ink(stripped) == Ink(text);
    if stripped == "" {
      NothingIsSubsequence("");
    } else {
      var blocks := BlocksOf(isBoundary, stripped);
      var exactly := overlap == 0 || forall i :: 0 <= i < |blocks| ==> |blocks[i]| <= size;
      BlocksKeepInk(isBoundary, stripped);
      PackKeepsInk("", blocks, size, overlap, exactly);
      assert "" + Ink(text) == Ink(text);
    }
  }

  // ------------------------------------------------------------ oversized blocks

  lemma {:induction false} PackAround(current: string, front: seq<string>, b: string, rest: seq<string>, size: nat, overlap: nat)
    requires overlap < size < |b|
    ensures PackFrom(current, front + [b] + rest, size, overlap)
      == PackFrom(current, front, size, overlap) + StripAll(Windows(b, size, overlap, 0)) + PackFrom("", rest, size, overlap)
    decreases |front|
  {
    hide StripAll, Windows;
    var all := front + [b] + rest;
    if front == [] {
      assert all[0] == b && all[1..] == rest;
    } else {
      assert all[0] == front[0] && all[1..] == front[1..] + [b] + rest;
      if |front[0]| > size {
        PackAround("", front[1..], b, rest, size, overlap);
      } else if |Extended(current, front[0])| > size {
        PackAround(front[0], front[1..], b, rest, size, overlap);
      } else {
        PackAround(Extended(current, front[0]), front[1..], b, rest, size, overlap);
      }
    }
  }

  /** An oversized block is cut into its overlapping windows between the chunks of the
      blocks before it and those of the blocks after it, packed as if it were not there. */
  lemma OversizedBlockIsWindowed(isBoundary: Boundary, text: string, size: nat, overlap: nat, i: nat)
    requires overlap < size && Strip(text) != ""
    requires i < |BlocksOf(isBoundary, Strip(text))| && |BlocksOf(isBoundary, Strip(text))[i]| > size
    ensures var blocks := BlocksOf(isBoundary, Strip(text));
      var windows := Windows(blocks[i], size, overlap, 0);
      exists kept :: KeepsNonBlank(windows, kept)
        && ChunksOf(isBoundary, text, size, overlap)
          == PackFrom("", blocks[..i], size, overlap) + kept + PackFrom("", blocks[i + 1..], size, overlap)
  {
    hide BlocksOf, Strip, StripAll, Windows, PackFrom, KeepsNonBlank;
    var blocks := BlocksOf(isBoundary, Strip(text));
    assert blocks == blocks[..i] + [blocks[i]] + blocks[i + 1..];
    PackAround("", blocks[..i], blocks[i], blocks[i + 1..], size, overlap);
    StripAllKeepsNonBlank(Windows(blocks[i], size, overlap, 0));
  }

  // ----------------------------------------------- the fewest chunks there are

  function Flatten(groups: seq<seq<string>>): seq<string> {
    if groups == [] then [] else groups[0] + Flatten(groups[1..])
  }

  function JoinAll(groups: seq<seq<string>>): seq<string> {
    if groups == [] then [] else [Join(GAP, groups[0])] + JoinAll(groups[1..])
  }

  /** A split of the ordered blocks into consecutive groups that each fit a chunk. */
  predicate Grouping(groups: seq<seq<string>>, blocks: seq<string>, size: nat) {
    && Flatten(groups) == blocks
    && forall i :: 0 <= i < |groups| ==> groups[i] != [] && |Join(GAP, groups[i])| <= size
  }

  ghost predicate Packable(blocks: seq<string>, size: nat) {
    forall i :: 0 <= i < |blocks| ==> 1 <= |blocks[i]| <= size
  }

  /** A longer chunk in hand never helps, and costs at most one chunk more. */
  lemma {:induction false} ShorterIsBetter(x: string, y: string, blocks: seq<string>, size: nat, overlap: nat)
    requires Packable(blocks, size) && |x| <= |y|
    ensures |PackFrom(x, blocks, size, overlap)| <= |PackFrom(y, blocks, size, overlap)| <= |PackFrom(x, blocks, size, overlap)| + 1
    decreases |blocks|
  {
    if blocks != [] {
      var b, rest := blocks[0], blocks[1..];
      if |Extended(y, b)| <= size {
        ShorterIsBetter(Extended(x, b), Extended(y, b), rest, size, overlap);
      } else if |Extended(x, b)| <= size {
        ShorterIsBetter(b, Extended(x, b), rest, size, overlap);
      }
    }
  }

  lemma JoinExtends(current: string, b: string, group: seq<string>)
    requires current != ""
    ensures Join(GAP, [current, b] + group) == Join(GAP, [Extended(current, b)] + group)
    ensures |Extended(current, b)| <= |Join(GAP, [current, b] + group)|
  {
    var all := [current, b] + group;
    assert all[1..] == [b] + group;
    assert Join(GAP, all) == current + GAP + Join(GAP, [b] + group);
    if group == [] {
      assert [b] + group == [b] && [Extended(current, b)] + group == [Extended(current, b)];
    } else {
      assert ([b] + group)[1..] == group && ([Extended(current, b)] + group)[1..] == group;
      assert Join(GAP, [b] + group) == b + GAP + Join(GAP, group);
    }
  }

  /** Greedy packing swallows the whole of a group that fits with what it holds. */
  lemma {:induction false} Swallows(current: string, group: seq<string>, rest: seq<string>, size: nat, overlap: nat)
    requires current != "" && Packable(group + rest, size)
    requires |Join(GAP, [current] + group)| <= size
    ensures Packable(rest, size)
    ensures PackFrom(current, group + rest, size, overlap) == PackFrom(Join(GAP, [current] + group), rest, size, overlap)
    decreases |group|
  {
    assert (group + rest)[|group|..] == rest;
    assert forall i :: 0 <= i < |rest| ==> rest[i] == (group + rest)[|group| + i];
    if group == [] {
      assert group + rest == rest && [current] + group == [current];
    } else {
      var b := group[0];
      JoinExtends(current, b, group[1..]);
      assert [current, b] + group[1..] == [current] + group;
      assert (group + rest)[0] == b && (group + rest)[1..] == group[1..] + rest;
      Swallows(Extended(current, b), group[1..], rest, size, overlap);
    }
  }

  lemma {:induction false} GreedyIsOptimal(groups: seq<seq<string>>, blocks: seq<string>, size: nat, overlap: nat)
    requires Packable(blocks, size) && Grouping(groups, blocks, size)
    ensures |PackFrom("", blocks, size, overlap)| <= |groups|
  {
    hide PackFrom;
    if groups == [] {
      PackEnd("", size, overlap);
    } else {
      var group, rest := groups[0], Flatten(groups[1..]);
      var b := group[0];
      assert blocks == group + rest && blocks[0] == b && blocks[1..] == group[1..] + rest;
      PackStep("", blocks, 0, size, overlap);
      assert blocks[0..] == blocks;
      assert Packable(blocks[1..], size);
      assert [b] + group[1..] == group;
      Swallows(b, group[1..], rest, size, overlap);
      ShorterIsBetter("", Join(GAP, group), rest, size, overlap);
      GreedyIsOptimal(groups[1..], rest, size, overlap);
    }
  }

  /** The groups greedy packing makes when it already holds `group`. */
  ghost function GreedyGroups(group: seq<string>, blocks: seq<string>, size: nat): seq<seq<string>>
    decreases |blocks|
  {
    if blocks == [] then (if group == [] then [] else [group])
    else if group != [] && |Join(GAP, group + [blocks[0]])| > size then [group] + GreedyGroups([blocks[0]], blocks[1..], size)
    else GreedyGroups(group + [blocks[0]], blocks[1..], size)
  }

  lemma {:induction false} JoinSnoc(group: seq<string>, b: string)
    requires forall i :: 0 <= i < |group| ==> group[i] != ""
    ensures Join(GAP, group + [b]) == Extended(Join(GAP, group), b)
  {
    if group == [] {
      assert group + [b] == [b];
    } else if |group| > 1 {
      assert (group + [b])[1..] == group[1..] + [b];
      JoinSnoc(group[1..], b);
      assert Join(GAP, group[1..]) != "" by { JoinIsNotEmpty(group[1..]); }
    }
  }

  lemma JoinIsNotEmpty(group: seq<string>)
    requires group != [] && group[0] != ""
    ensures Join(GAP, group) != ""
  {
  }

  lemma {:induction false} GreedyGroupsAreAGrouping(group: seq<string>, blocks: seq<string>, size: nat)
    requires Packable(group, size) && Packable(blocks, size) && |Join(GAP, group)| <= size
    ensures Grouping(GreedyGroups(group, blocks, size), group + blocks, size)
    decreases |blocks|
  {
    hide Join, Grouping;
    if blocks == [] {
      assert group + blocks == group;
      LastGroup(group, size);
    } else {
      var b, rest := blocks[0], blocks[1..];
      JoinOfFew([b]);
      JoinOfFew(group + [b]);
      if group != [] && |Join(GAP, group + [b])| > size {
        GreedyGroupsAreAGrouping([b], rest, size);
        assert [b] + rest == blocks;
        OneMoreGroup(group, GreedyGroups([b], rest, size), blocks, size);
      } else {
        GreedyGroupsAreAGrouping(group + [b], rest, size);
        assert group + [b] + rest == group + blocks;
      }
    }
  }

  lemma {:induction false} GreedyGroupsAreTheChunks(group: seq<string>, blocks: seq<string>, size: nat, overlap: nat)
    requires Packable(group, size) && Packable(blocks, size)
    ensures PackFrom(Join(GAP, group), blocks, size, overlap) == JoinAll(GreedyGroups(group, blocks, size))
    decreases |blocks|
  {
    hide Join;
    JoinOfFew(group);
    if group != [] { JoinIsNotEmpty(group); }
    if blocks == [] {
      if group != [] { assert JoinAll([group]) == [Join(GAP, group)]; }
    } else {
      var b, rest := blocks[0], blocks[1..];
      JoinSnoc(group, b);
      JoinOfFew([b]);
      if group != [] && |Join(GAP, group + [b])| > size {
        GreedyGroupsAreTheChunks([b], rest, size, overlap);
        var groups := GreedyGroups([b], rest, size);
        assert ([group] + groups)[1..] == groups;
      } else {
        GreedyGroupsAreTheChunks(group + [b], rest, size, overlap);
      }
    }
  }

  lemma LastGroup(group: seq<string>, size: nat)
    requires |Join(GAP, group)| <= size
    ensures Grouping(if group == [] then [] else [group], group, size)
  {
    if group != [] { assert Flatten([group]) == group; }
  }

  lemma OneMoreGroup(group: seq<string>, groups: seq<seq<string>>, blocks: seq<string>, size: nat)
    requires group != [] && |Join(GAP, group)| <= size && Grouping(groups, blocks, size)
    ensures Grouping([group] + groups, group + blocks, size)
  {
    assert ([group] + groups)[1..] == groups;
  }

  lemma JoinOfFew(group: seq<string>)
    ensures group == [] ==> Join(GAP, group) == ""
    ensures |group| == 1 ==> Join(GAP, group) == group[0]
  {
  }

  /** With no oversized block, chunk_text makes a split of the ordered blocks into
      consecutive groups that fit, and no such split has fewer groups. */
  lemma FewestChunks(isBoundary: Boundary, text: string, size: nat, overlap: nat)
    requires Strip(text) != "" && Packable(BlocksOf(isBoundary, Strip(text)), size)
    ensures var chunks, blocks := ChunksOf(isBoundary, text, size, overlap), BlocksOf(isBoundary, Strip(text));
      && (exists groups :: Grouping(groups, blocks, size) && JoinAll(groups) == chunks)
      && (forall groups :: Grouping(groups, blocks, size) ==> |chunks| <= |groups|)
  {
    hide BlocksOf, Strip, PackFrom, Grouping;
    var blocks := BlocksOf(isBoundary, Strip(text));
    JoinOfFew([]);
    GreedyGroupsAreAGrouping([], blocks, size);
    GreedyGroupsAreTheChunks([], blocks, size, overlap);
    assert [] + blocks == blocks;
    assert Grouping(GreedyGroups([], blocks, size), blocks, size);
    forall groups | Grouping(groups, blocks, size) ensures |ChunksOf(isBoundary, text, size, overlap)| <= |groups| {
      GreedyIsOptimal(groups, blocks, size, overlap);
    }
  }
}
