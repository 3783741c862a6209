/** How the gateway program cuts an answer into parts (gateway/pa_gateway.py) and
    how the backend puts it together again (backend/src/tm1/gateway/relay.py). */
module GatewayFraming {
  import opened Prelude
  import opened Base64
  import opened TextShape

  const PART_BYTES: nat := 512 * 1024
  const CHUNK: nat := PART_BYTES * 4 / 3

  /** zlib as a pair of functions; decompressing what it did not write may fail. */
  datatype Zlib = Zlib(compress: seq<byte> -> seq<byte>, decompress: seq<byte> -> Option<seq<byte>>)

  /** RFC 1950: decompression inverts compression, and a stream has a header. */
  ghost predicate Faithful(z: Zlib) {
    forall data :: z.decompress(z.compress(data)) == Some(data) && z.compress(data) != []
  }

  function EncodeBody(z: Zlib, data: seq<byte>): string {
    Encode(z.compress(data))
  }

  function DecodeBody(z: Zlib, text: string): Option<seq<byte>> {
    match Decode(text)
    case Some(data) => z.decompress(data)
    case None => None
  }

  /** What `forward` brings back from TM1. */
  datatype Answer =
    | Failed(error: string)
    | Answered(status: int, reason: string, headers: map<string, string>, cookies: map<string, string>)

  datatype Part = Part(id: string, index: nat, parts: nat, data: string, answer: Option<Answer>)

  // ------------------------------------------------------------------ splitting

  function Slices(data: string): seq<string> {
    if data == "" then []
    else if |data| <= CHUNK then [data]
    else [data[..CHUNK]] + Slices(data[CHUNK..])
  }

  function Pieces(data: string): (pieces: seq<string>)
    ensures pieces != []
  {
    if Slices(data) == [] then [""] else Slices(data)
  }

  function PartAt(id: string, answer: Answer, pieces: seq<string>, index: nat): Part
    requires index < |pieces|
  {
    Part(id, index, |pieces|, pieces[index], if index == 0 then Some(answer) else None)
  }

  function PartsOf(id: string, answer: Answer, pieces: seq<string>): seq<Part> {
    seq(|pieces|, index requires 0 <= index < |pieces| => PartAt(id, answer, pieces, index))
  }

  function AnswerParts(z: Zlib, id: string, answer: Answer, body: seq<byte>): seq<Part> {
    PartsOf(id, answer, Pieces(EncodeBody(z, body)))
  }

  method SplitAnswer(z: Zlib, id: string, answer: Answer, body: seq<byte>) returns (parts: seq<Part>)
    ensures parts == AnswerParts(z, id, answer, body)
  {
    var pieces := CutText(EncodeBody(z, body));
    parts := [];
    for index := 0 to |pieces|
      invariant parts == PartsOf(id, answer, pieces)[..index]
    {
      var part := Part(id, index, |pieces|, pieces[index], None);
      if index == 0 { part := part.(answer := Some(answer)); }
      parts := parts + [part];
    }
  }

  /** The list comprehension of split_answer. */
  method CutText(data: string) returns (pieces: seq<string>)
    ensures pieces == Pieces(data)
  {
    hide Slices;
    pieces := [];
    assert data[0..] == data;
    var i := 0;
    while i < |data|
      invariant pieces + Slices(data[if i < |data| then i else |data|..]) == Slices(data)
    {
      SliceStep(data, i);
      pieces := pieces + [data[i..if i + CHUNK < |data| then i + CHUNK else |data|]];
      i := i + CHUNK;
    }
    NoSlices(data[|data|..]);
    assert pieces == Slices(data);
    if pieces == [] { pieces := [""]; }
  }

  lemma SliceStep(data: string, i: nat)
    requires i < |data|
    ensures Slices(data[i..]) ==
      [data[i..if i + CHUNK < |data| then i + CHUNK else |data|]] + Slices(data[if i + CHUNK < |data| then i + CHUNK else |data|..])
  {
    if i + CHUNK < |data| {
      assert data[i..][CHUNK..] == data[i + CHUNK..];
      assert data[i..][..CHUNK] == data[i..i + CHUNK];
    } else {
      NoSlices(data[|data|..]);
      assert data[i..|data|] == data[i..];
    }
  }

  lemma NoSlices(data: string)
    requires data == ""
    ensures Slices(data) == []
  {
  }

  lemma {:induction false} SlicesJoin(data: string)
    ensures Concat(Slices(data)) == data
    decreases |data|
  {
    if |data| > CHUNK {
      SlicesJoin(data[CHUNK..]);
      ConcatFirst(data[..CHUNK], Slices(data[CHUNK..]));
      assert data[..CHUNK] + data[CHUNK..] == data;
    } else if data != "" {
      ConcatFirst(data, []);
      assert data + "" == data;
    }
  }

  lemma ConcatFirst(first: string, rest: seq<string>)
    ensures Concat([first] + rest) == first + Concat(rest)
  {
  }

  lemma {:induction false} SlicesFit(data: string)
    ensures forall i :: 0 <= i < |Slices(data)| ==> 1 <= |Slices(data)[i]| <= CHUNK
    ensures forall i :: 0 <= i < |Slices(data)| - 1 ==> |Slices(data)[i]| == CHUNK
    decreases |data|
  {
    if |data| > CHUNK { SlicesFit(data[CHUNK..]); }
  }

  // ---------------------------------------------------------------- reassembling

  function Insert(part: Part, sorted: seq<Part>): seq<Part> {
    if sorted == [] || part.index <= sorted[0].index then [part] + sorted
    else [sorted[0]] + Insert(part, sorted[1..])
  }

  /** list.sort by index: stable. */
  function SortByIndex(parts: seq<Part>): seq<Part> {
    if parts == [] then [] else Insert(parts[0], SortByIndex(parts[1..]))
  }

  function Data(parts: seq<Part>): seq<string> {
    seq(|parts|, i requires 0 <= i < |parts| => parts[i].data)
  }

  /** What `relay` returns to TM1py, or how it fails. */
  datatype Relayed =
    | Response(status: int, reason: string, headers: map<string, string>, cookies: map<string, string>, body: seq<byte>)
    | GatewayError(error: string)
    | Malformed

  function Reassembled(z: Zlib, parts: seq<Part>): Relayed
    requires parts != []
  {
    SortKeeps(parts);
    var sorted := SortByIndex(parts);
    var data := Concat(Data(sorted));
    var body := if data == "" then Some([]) else DecodeBody(z, data);
    match sorted[0].answer
    case Some(Failed(error)) => if error != "" then GatewayError(error) else Malformed
    case Some(Answered(status, reason, headers, cookies)) =>
      if body.Some? then Response(status, reason, headers, cookies, body.value) else Malformed
    case None => Malformed
  }

  /** The broker hands the parts over once it counts as many as one of them says. */
  predicate Complete(arrived: seq<Part>) {
    arrived != [] && |arrived| >= arrived[0].parts
  }

  // ------------------------------------------------------------------ sorting

  predicate Ascending(parts: seq<Part>) {
    forall i, j :: 0 <= i < j < |parts| ==> parts[i].index <= parts[j].index
  }

  lemma {:induction false} InsertKeeps(part: Part, sorted: seq<Part>)
    ensures multiset(Insert(part, sorted)) == multiset(sorted) + multiset{part}
  {
    if sorted != [] && part.index > sorted[0].index {
      InsertKeeps(part, sorted[1..]);
      assert sorted == [sorted[0]] + sorted[1..];
    }
  }

  lemma {:induction false} InsertKeepsOrder(part: Part, sorted: seq<Part>)
    requires Ascending(sorted)
    ensures Ascending(Insert(part, sorted))
    ensures Insert(part, sorted)[0].index == if sorted == [] || part.index <= sorted[0].index then part.index else sorted[0].index
  {
    if sorted != [] && part.index > sorted[0].index { InsertKeepsOrder(part, sorted[1..]); }
  }

  lemma {:induction false} SortKeeps(parts: seq<Part>)
    ensures multiset(SortByIndex(parts)) == multiset(parts)
    ensures |SortByIndex(parts)| == |parts|
  {
    if parts != [] {
      SortKeeps(parts[1..]);
      InsertKeeps(parts[0], SortByIndex(parts[1..]));
      assert parts == [parts[0]] + parts[1..];
      SameLength(SortByIndex(parts), parts);
    }
  }

  lemma {:induction false} SortSorts(parts: seq<Part>)
    ensures Ascending(SortByIndex(parts))
  {
    if parts != [] {
      SortSorts(parts[1..]);
      InsertKeepsOrder(parts[0], SortByIndex(parts[1..]));
    }
  }

  predicate StrictlyAscending(parts: seq<Part>) {
    forall i, j :: 0 <= i < j < |parts| ==> parts[i].index < parts[j].index
  }

  lemma LowestFirst(sorted: seq<Part>, parts: seq<Part>)
    requires sorted != [] && parts != [] && Ascending(sorted) && StrictlyAscending(parts)
    requires parts[0] in sorted && sorted[0] in parts
    ensures sorted[0] == parts[0]
  {
    var i, j :| 0 <= i < |sorted| && sorted[i] == parts[0] && 0 <= j < |parts| && parts[j] == sorted[0];
  }

  lemma SameLength(sorted: seq<Part>, parts: seq<Part>)
    requires multiset(sorted) == multiset(parts)
    ensures |sorted| == |parts|
    ensures forall part :: part in sorted <==> part in parts
  {
    assert |multiset(sorted)| == |multiset(parts)|;
    forall part ensures part in sorted <==> part in parts {
      assert part in multiset(sorted) <==> part in multiset(parts);
    }
  }

  lemma TailHolds(parts: seq<Part>)
    requires parts != []
    ensures multiset(parts[1..]) == multiset(parts) - multiset{parts[0]}
  {
    assert parts == [parts[0]] + parts[1..];
  }

  /** Distinct indices leave only one order to sort into. */
  lemma {:induction false} OneSortedOrder(sorted: seq<Part>, parts: seq<Part>)
    requires Ascending(sorted) && StrictlyAscending(parts) && multiset(sorted) == multiset(parts)
    ensures sorted == parts
  {
    SameLength(sorted, parts);
    if parts != [] {
      assert parts[0] in parts && sorted[0] in sorted;
      LowestFirst(sorted, parts);
      TailHolds(sorted);
      TailHolds(parts);
      OneSortedOrder(sorted[1..], parts[1..]);
    }
  }

  // ------------------------------------------------------------------- theorems

  /** The shape of the parts: numbered, counted, within the size, the answer on the
      first alone. */
  lemma PartsAreWellFormed(z: Zlib, id: string, answer: Answer, body: seq<byte>)
    ensures var parts := AnswerParts(z, id, answer, body);
      && parts != []
      && parts[0].answer == Some(answer)
      && forall i :: 0 <= i < |parts| ==>
           && parts[i].id == id && parts[i].index == i < parts[i].parts == |parts|
           && |parts[i].data| <= 699050 && (i + 1 < |parts| ==> |parts[i].data| == 699050)
           && (parts[i].answer.Some? <==> i == 0)
  {
    SlicesFit(EncodeBody(z, body));
  }

  lemma PartsCarryTheText(id: string, answer: Answer, data: string)
    ensures Concat(Data(PartsOf(id, answer, Pieces(data)))) == data
  {
    SlicesJoin(data);
    assert Data(PartsOf(id, answer, Pieces(data))) == Pieces(data);
    if data == "" { assert Concat([""]) == ""; }
  }

  /** In whatever order the parts of an answer arrive, the backend returns the body. */
  lemma FramingRoundTrip(z: Zlib, id: string, answer: Answer, body: seq<byte>, arrived: seq<Part>)
    requires Faithful(z) && multiset(arrived) == multiset(AnswerParts(z, id, answer, body))
    ensures arrived != [] && Reassembled(z, arrived) ==
      match answer
      case Failed(error) => if error != "" then GatewayError(error) else Malformed
      case Answered(status, reason, headers, cookies) => Response(status, reason, headers, cookies, body)
  {
    hide Pieces, Encode, Decode, Concat, Data, Faithful;
    var data := EncodeBody(z, body);
    var parts := AnswerParts(z, id, answer, body);
    assert |multiset(arrived)| == |multiset(parts)|;
    SortKeeps(arrived);
    SortSorts(arrived);
    OneSortedOrder(SortByIndex(arrived), parts);
    PartsCarryTheText(id, answer, data);
    BodyRoundTrip(z, body);
  }

  lemma BodyRoundTrip(z: Zlib, body: seq<byte>)
    requires Faithful(z)
    ensures EncodeBody(z, body) != "" && DecodeBody(z, EncodeBody(z, body)) == Some(body)
  {
    Base64RoundTrip(z.compress(body));
  }

  /** While no part has come twice, the count is right: complete means all are there. */
  lemma CompleteWhenAllArrived(z: Zlib, id: string, answer: Answer, body: seq<byte>, arrived: seq<Part>)
    requires multiset(arrived) <= multiset(AnswerParts(z, id, answer, body))
    ensures Complete(arrived) <==> multiset(arrived) == multiset(AnswerParts(z, id, answer, body))
  {
    hide Slices, Pieces;
    var parts := AnswerParts(z, id, answer, body);
    var all, some := multiset(parts), multiset(arrived);
    assert all == some + (all - some);
    assert |all| == |some| + |all - some|;
    if arrived != [] {
      assert arrived[0] in some;
      assert arrived[0] in all;
      assert arrived[0].parts == |parts|;
    }
  }

  predicate NoRepeat(arrived: seq<Part>) {
    forall i, j :: 0 <= i < j < |arrived| ==> arrived[i] != arrived[j]
  }

  lemma {:induction false} CountedOnce(arrived: seq<Part>, part: Part)
    requires NoRepeat(arrived)
    ensures multiset(arrived)[part] <= 1
  {
    if arrived != [] {
      var rest := arrived[1..];
      assert arrived == [arrived[0]] + rest;
      CountedOnce(rest, part);
      if part == arrived[0] { assert part !in multiset(rest) <==> part !in rest; }
    }
  }

  lemma RepeatIsCountedTwice(arrived: seq<Part>, i: nat, j: nat)
    requires i < j < |arrived| && arrived[i] == arrived[j]
    ensures multiset(arrived)[arrived[i]] >= 2
  {
    var before, after := arrived[..j], arrived[j..];
    assert arrived == before + after;
    assert before[i] in multiset(before) && after[0] in multiset(after);
    assert multiset(arrived) == multiset(before) + multiset(after);
  }

  lemma PartsDoNotRepeat(id: string, answer: Answer, pieces: seq<string>)
    ensures NoRepeat(PartsOf(id, answer, pieces))
  {
  }

  /** At the hand-over, when the broker has counted enough arrivals and each is one of
      the parts, everything is there exactly when no part has come twice. */
  lemma HandOverIsWholeIffNoRepeat(id: string, answer: Answer, pieces: seq<string>, arrived: seq<Part>)
    requires Complete(arrived) && forall part :: part in arrived ==> part in PartsOf(id, answer, pieces)
    ensures multiset(arrived) == multiset(PartsOf(id, answer, pieces)) <==> NoRepeat(arrived)
  {
    var parts := PartsOf(id, answer, pieces);
    var all, came := multiset(parts), multiset(arrived);
    PartsDoNotRepeat(id, answer, pieces);
    assert arrived[0] in arrived && arrived[0].parts == |parts|;
    if NoRepeat(arrived) {
      forall part | part in came ensures came[part] <= all[part] {
        assert part in arrived;
        assert part in parts;
        CountedOnce(arrived, part);
      }
      assert came <= all;
      assert all == came + (all - came);
      assert |all| == |came| + |all - came|;
    } else {
      var i, j :| 0 <= i < j < |arrived| && arrived[i] == arrived[j];
      RepeatIsCountedTwice(arrived, i, j);
      CountedOnce(parts, arrived[i]);
    }
  }

  /** The repeat is possible for any answer of more than one part: with part j in the
      place of part k the broker hands over an answer without part k. */
  lemma RepeatCountsAsArrival(id: string, answer: Answer, pieces: seq<string>, j: nat, k: nat)
    requires j < |pieces| && k < |pieces| && j != k
    ensures var parts := PartsOf(id, answer, pieces);
      var arrived := parts[k := parts[j]];
      Complete(arrived) && parts[k] !in arrived && multiset(arrived) != multiset(parts)
  {
    var parts := PartsOf(id, answer, pieces);
    var arrived := parts[k := parts[j]];
    forall i | 0 <= i < |arrived| ensures arrived[i] != parts[k] {
      assert arrived[i].index == (if i == k then j else i);
    }
    assert parts[k] in multiset(parts) && parts[k] !in multiset(arrived);
  }
}
