/** Splitting block text into overlapping pieces (ingest/app/chunk_builder.py). */
module ChunkSplit {
  import opened PythonLists
  import opened Quotients

  /** Python's text[a:b] for a not negative; a negative b counts from the end. */
  function Slice(text: string, a: nat, b: int): string {
    var stop := SliceStart(|text|, b);
    if a >= stop then "" else text[a..stop]
  }

  /** The pieces from position `start` on, for any bounds at all: the start always advances. */
  function SplitFrom(text: string, start: nat, maxChars: int, overlap: int): seq<string>
    decreases |text| - start
  {
    if start >= |text| then []
    else
      var end := Min(|text|, start + maxChars);
      var piece := Slice(text, start, end);
      if end >= |text| then [piece]
      else [piece] + SplitFrom(text, Max(end - overlap, start + 1), maxChars, overlap)
  }

  function Split(text: string, maxChars: int, overlap: int): seq<string> {
    if |text| <= maxChars then [text] else SplitFrom(text, 0, maxChars, overlap)
  }

  /** _split_text. */
  method SplitText(text: string, maxChars: int, overlap: int) returns (parts: seq<string>)
    ensures parts == Split(text, maxChars, overlap)
  {
    if |text| <= maxChars { return [text]; }
    parts := [];
    var start: nat := 0;
    ghost var all := SplitFrom(text, 0, maxChars, overlap);
    while start < |text|
      invariant parts + SplitFrom(text, start, maxChars, overlap) == all
      decreases |text| - start
    {
      var end := Min(|text|, start + maxChars);
      var piece := Slice(text, start, end);
      if end >= |text| {
        assert SplitFrom(text, start, maxChars, overlap) == [piece];
        return parts + [piece];
      }
      var next := Max(end - overlap, start + 1);
      ghost var rest := SplitFrom(text, next, maxChars, overlap);
      assert SplitFrom(text, start, maxChars, overlap) == [piece] + rest;
      assert parts + ([piece] + rest) == (parts + [piece]) + rest;
      parts := parts + [piece];
      start := next;
    }
    assert parts + [] == parts;
  }

  // ----- the shape of the pieces -----

  /** How far apart consecutive pieces start. */
  function Stride(maxChars: int, overlap: int): (s: int)
    ensures s >= 1
  {
    Max(maxChars - overlap, 1)
  }

  /** The number of pieces of a text of length n. */
  function PieceCount(n: nat, maxChars: int, overlap: int): int {
    if n <= maxChars then 1
    else (n - maxChars + Stride(maxChars, overlap) - 1) / Stride(maxChars, overlap) + 1
  }

  /** The same number, counted piece by piece. */
  function Counted(n: int, maxChars: int, s: int): int
    requires maxChars >= 1 && s >= 1
    decreases n
  {
    if n <= maxChars then 1 else 1 + Counted(n - s, maxChars, s)
  }

  lemma {:induction false} CountedIsPieceCount(n: nat, maxChars: int, overlap: int)
    requires maxChars >= 1 && overlap >= 0
    ensures Counted(n, maxChars, Stride(maxChars, overlap)) == PieceCount(n, maxChars, overlap)
    decreases n
  {
    if n > maxChars {
      CountStep(n, maxChars, overlap);
      CountedIsPieceCount(n - Stride(maxChars, overlap), maxChars, overlap);
    }
  }

  lemma CountStep(n: nat, maxChars: int, overlap: int)
    requires maxChars >= 1 && overlap >= 0 && n > maxChars
    ensures var s := Stride(maxChars, overlap);
            s < n && PieceCount(n, maxChars, overlap) == 1 + PieceCount(n - s, maxChars, overlap)
  {
    var s := Stride(maxChars, overlap);
    var x := n - maxChars - 1;
    var q, r := x / s, x % s;
    assert (q + 1) * s + r == x + s;
    QuotientUnique(x + s, s, q + 1, r);
    if n - s <= maxChars { QuotientUnique(x, s, 0, x); }
  }

  /** The piece is the text from `from`, up to maxChars characters of it. */
  ghost predicate IsWindow(piece: string, text: string, from: int, maxChars: int) {
    0 <= from <= |text| && maxChars >= 0 && piece == text[from..Min(|text|, from + maxChars)]
  }

  /** The pieces from `start` on, s apart, for settings under which they follow closely. */
  function Chop(text: string, start: nat, maxChars: nat, s: nat): (pieces: seq<string>)
    requires start <= |text| && s >= 1
    ensures pieces != []
    decreases |text| - start
  {
    if start + maxChars >= |text| || start + s > |text| then [text[start..]]
    else [text[start..start + maxChars]] + Chop(text, start + s, maxChars, s)
  }

  lemma {:induction false} SplitIsChop(text: string, start: nat, maxChars: int, overlap: int)
    requires maxChars >= 1 && overlap >= 0 && start < |text|
    ensures SplitFrom(text, start, maxChars, overlap) == Chop(text, start, maxChars, Stride(maxChars, overlap))
    decreases |text| - start
  {
    assert text[start..|text|] == text[start..];
    if start + maxChars < |text| { SplitIsChop(text, start + Stride(maxChars, overlap), maxChars, overlap); }
  }

  /** The pieces are windows a stride apart. */
  ghost predicate Windows(pieces: seq<string>, text: string, start: int, s: int, maxChars: int) {
    forall i :: 0 <= i < |pieces| ==> IsWindow(pieces[i], text, start + i * s, maxChars)
  }

  lemma PrependWindow(first: string, rest: seq<string>, text: string, start: int, s: int, maxChars: int)
    requires IsWindow(first, text, start, maxChars) && Windows(rest, text, start + s, s, maxChars)
    ensures Windows([first] + rest, text, start, s, maxChars)
  {
    var pieces := [first] + rest;
    forall i | 0 <= i < |pieces| ensures IsWindow(pieces[i], text, start + i * s, maxChars) {
      if i == 0 {
        assert start + 0 * s == start;
      } else {
        assert IsWindow(rest[i - 1], text, start + s + (i - 1) * s, maxChars);
        assert start + s + (i - 1) * s == start + i * s;
      }
    }
  }

  lemma {:induction false} CountFrom(text: string, start: nat, maxChars: nat, s: nat)
    requires 1 <= s <= maxChars && start <= |text|
    ensures |Chop(text, start, maxChars, s)| == Counted(|text| - start, maxChars, s)
    decreases |text| - start
  {
    if start + maxChars < |text| { CountFrom(text, start + s, maxChars, s); }
  }

  lemma {:induction false} WindowsFrom(text: string, start: nat, maxChars: nat, s: nat)
    requires 1 <= s <= maxChars && start <= |text|
    ensures Windows(Chop(text, start, maxChars, s), text, start, s, maxChars)
    decreases |text| - start
  {
    if start + maxChars < |text| {
      WindowsFrom(text, start + s, maxChars, s);
      PrependWindow(text[start..start + maxChars], Chop(text, start + s, maxChars, s), text, start, s, maxChars);
    } else {
      PrependWindow(text[start..], [], text, start, s, maxChars);
      assert [text[start..]] + [] == [text[start..]];
    }
  }

  /** Piece i is the window of max_chars characters starting at i strides, and the number
      of pieces has a closed form. */
  lemma PiecesAreWindows(text: string, maxChars: int, overlap: int)
    requires maxChars >= 1 && overlap >= 0
    ensures var pieces := Split(text, maxChars, overlap);
            && |pieces| == PieceCount(|text|, maxChars, overlap)
            && forall i :: 0 <= i < |pieces| ==> IsWindow(pieces[i], text, i * Stride(maxChars, overlap), maxChars)
  {
    if |text| > maxChars {
      SplitIsChop(text, 0, maxChars, overlap);
      CountFrom(text, 0, maxChars, Stride(maxChars, overlap));
      CountedIsPieceCount(|text|, maxChars, overlap);
      WindowsFrom(text, 0, maxChars, Stride(maxChars, overlap));
      var pieces := Split(text, maxChars, overlap);
      forall i | 0 <= i < |pieces| ensures IsWindow(pieces[i], text, i * Stride(maxChars, overlap), maxChars) {
        assert IsWindow(pieces[i], text, 0 + i * Stride(maxChars, overlap), maxChars);
      }
    } else {
      assert 0 * Stride(maxChars, overlap) == 0;
    }
  }

  // ----- nothing is lost -----

  /** Put pieces back together: the first stride of each but the last, then the last. */
  function Rejoin(pieces: seq<string>, stride: int): string {
    if pieces == [] then ""
    else if |pieces| == 1 then pieces[0]
    else Take(pieces[0], stride) + Rejoin(pieces[1..], stride)
  }

  lemma RejoinPrepend(first: string, rest: seq<string>, stride: int)
    requires rest != []
    ensures Rejoin([first] + rest, stride) == Take(first, stride) + Rejoin(rest, stride)
  {
    assert ([first] + rest)[1..] == rest;
  }

  lemma {:induction false} RejoinFrom(text: string, start: nat, maxChars: nat, s: nat)
    requires 1 <= s <= maxChars && start <= |text|
    ensures Rejoin(Chop(text, start, maxChars, s), s) == text[start..]
    decreases |text| - start
  {
    if start + maxChars < |text| {
      RejoinFrom(text, start + s, maxChars, s);
      RejoinOneMore(text, start, Chop(text, start + s, maxChars, s), s, start + maxChars);
    }
  }

  lemma RejoinOneMore(text: string, start: nat, rest: seq<string>, s: nat, end: nat)
    requires start + s <= end <= |text| && rest != [] && Rejoin(rest, s) == text[start + s..]
    ensures Rejoin([text[start..end]] + rest, s) == text[start..]
  {
    RejoinPrepend(text[start..end], rest, s);
    FrontAndRest(text, start, s, end);
  }

  lemma FrontAndRest(text: string, start: nat, s: nat, end: nat)
    requires start + s <= end <= |text|
    ensures Take(text[start..end], s) + text[start + s..] == text[start..]
  {
  }

  /** Dropping the overlaps gives the text back, character for character. */
  lemma PiecesReassemble(text: string, maxChars: int, overlap: int)
    requires maxChars >= 1 && overlap >= 0
    ensures Rejoin(Split(text, maxChars, overlap), Stride(maxChars, overlap)) == text
  {
    if |text| > maxChars {
      SplitIsChop(text, 0, maxChars, overlap);
      RejoinFrom(text, 0, maxChars, Stride(maxChars, overlap));
      assert text[0..] == text;
    }
  }

  /** The n characters at position i of the text stand whole in piece k, at position `at`. */
  ghost predicate WholeAt(pieces: seq<string>, text: string, i: nat, n: nat, k: int, at: int) {
    && i + n <= |text| && 0 <= k < |pieces| && 0 <= at && at + n <= |pieces[k]|
    && forall j :: i <= j < i + n ==> pieces[k][at + (j - i)] == text[j]
  }

  ghost predicate WholeIn(pieces: seq<string>, text: string, i: nat, n: nat) {
    exists k, at :: WholeAt(pieces, text, i, n, k, at)
  }

  lemma {:induction false} WholeFrom(text: string, start: nat, maxChars: int, overlap: int, i: nat, n: nat)
    requires maxChars >= 1 && overlap >= 0 && start < |text|
    requires start <= i && i + n <= |text| && n <= Min(overlap + 1, maxChars)
    ensures WholeIn(SplitFrom(text, start, maxChars, overlap), text, i, n)
    decreases |text| - start
  {
    var pieces := SplitFrom(text, start, maxChars, overlap);
    var end := Min(|text|, start + maxChars);
    if i + n <= end {
      assert pieces[0] == text[start..end];
      assert WholeAt(pieces, text, i, n, 0, i - start);
    } else {
      var next := Max(end - overlap, start + 1);
      WholeFrom(text, next, maxChars, overlap, i, n);
      var rest := SplitFrom(text, next, maxChars, overlap);
      var k, at :| WholeAt(rest, text, i, n, k, at);
      assert pieces[k + 1] == rest[k];
      assert WholeAt(pieces, text, i, n, k + 1, at);
    }
  }

  /** Any passage no longer than the overlap plus one (or than a piece) can be retrieved:
      it is never cut in all the pieces it touches. */
  lemma ShortPassagesSurvive(text: string, maxChars: int, overlap: int, i: nat, n: nat)
    requires maxChars >= 1 && overlap >= 0
    requires i + n <= |text| && n <= Min(overlap + 1, maxChars)
    ensures WholeIn(Split(text, maxChars, overlap), text, i, n)
  {
    if |text| <= maxChars {
      assert WholeAt(Split(text, maxChars, overlap), text, i, n, 0, i);
    } else {
      if n == 0 && i == |text| {
        assert WholeAt(Split(text, maxChars, overlap), text, i, n, 0, 0);
      } else {
        WholeFrom(text, 0, maxChars, overlap, i, n);
      }
    }
  }

  // ----- which settings lose nothing -----

  /** Where the pieces start: the splitter's own steps, for a text of length n. */
  function StartsFrom(n: nat, start: nat, maxChars: int, overlap: int): seq<nat>
    decreases n - start
  {
    if start >= n then []
    else
      var end := Min(n, start + maxChars);
      if end >= n then [start] else [start] + StartsFrom(n, Max(end - overlap, start + 1), maxChars, overlap)
  }

  function Starts(n: nat, maxChars: int, overlap: int): seq<nat> {
    if n <= maxChars then [0] else StartsFrom(n, 0, maxChars, overlap)
  }

  /** Every piece is the slice of the text at its start. */
  ghost predicate Slices(pieces: seq<string>, starts: seq<nat>, text: string, maxChars: int) {
    && |pieces| == |starts|
    && forall k :: 0 <= k < |pieces| ==> pieces[k] == Slice(text, starts[k], Min(|text|, starts[k] + maxChars))
  }

  lemma SlicesPrepend(first: nat, pieces: seq<string>, starts: seq<nat>, text: string, maxChars: int)
    requires Slices(pieces, starts, text, maxChars)
    ensures Slices([Slice(text, first, Min(|text|, first + maxChars))] + pieces, [first] + starts, text, maxChars)
  {
  }

  lemma {:induction false} PiecesFromStarts(text: string, start: nat, maxChars: int, overlap: int)
    ensures Slices(SplitFrom(text, start, maxChars, overlap), StartsFrom(|text|, start, maxChars, overlap), text,
            maxChars)
    decreases |text| - start
  {
    var end := Min(|text|, start + maxChars);
    if start < |text| && end < |text| {
      var next := Max(end - overlap, start + 1);
      PiecesFromStarts(text, next, maxChars, overlap);
      SlicesPrepend(start, SplitFrom(text, next, maxChars, overlap), StartsFrom(|text|, next, maxChars, overlap), text,
                    maxChars);
    }
  }

  lemma PiecesStart(text: string, maxChars: int, overlap: int)
    ensures Slices(Split(text, maxChars, overlap), Starts(|text|, maxChars, overlap), text, maxChars)
  {
    if |text| <= maxChars {
      assert Slice(text, 0, |text|) == text;
    } else {
      PiecesFromStarts(text, 0, maxChars, overlap);
    }
  }

  /** Some piece holds the character at position i. */
  ghost predicate PositionKept(text: string, maxChars: int, overlap: int, i: nat) {
    var pieces, starts := Split(text, maxChars, overlap), Starts(|text|, maxChars, overlap);
    exists k :: 0 <= k < |pieces| && k < |starts| && starts[k] <= i < starts[k] + |pieces[k]|
  }

  ghost predicate KeepsPositions(text: string, maxChars: int, overlap: int) {
    forall i :: 0 <= i < |text| ==> PositionKept(text, maxChars, overlap, i)
  }

  ghost predicate KeepsEveryCharacter(maxChars: int, overlap: int) {
    forall text: string :: KeepsPositions(text, maxChars, overlap)
  }

  lemma {:induction false} StartsCover(n: nat, start: nat, maxChars: int, overlap: int, i: nat) returns (k: nat)
    requires maxChars >= 1 && overlap >= 0 && start <= i < n
    ensures var starts := StartsFrom(n, start, maxChars, overlap);
            k < |starts| && starts[k] <= i < Min(n, starts[k] + maxChars)
    decreases n - start
  {
    var end := Min(n, start + maxChars);
    if i < end {
      k := 0;
    } else {
      var later := StartsCover(n, Max(end - overlap, start + 1), maxChars, overlap, i);
      k := later + 1;
    }
  }

  function Repeat(c: char, n: nat): (r: string)
    ensures |r| == n && forall i :: 0 <= i < n ==> r[i] == c
  {
    seq(n, _ => c)
  }

  /** The settings that never lose a character are exactly a positive piece size with an
      overlap that is not negative. */
  lemma KeepsEveryCharacterIff(maxChars: int, overlap: int)
    ensures KeepsEveryCharacter(maxChars, overlap) <==> maxChars >= 1 && overlap >= 0
  {
    if maxChars >= 1 && overlap >= 0 {
      forall text: string, i: nat | i < |text| ensures PositionKept(text, maxChars, overlap, i) {
        PiecesStart(text, maxChars, overlap);
        if |text| > maxChars {
          var k := StartsCover(|text|, 0, maxChars, overlap, i);
          assert |Split(text, maxChars, overlap)[k]| == Min(|text|, Starts(|text|, maxChars, overlap)[k] + maxChars)
                                                       - Starts(|text|, maxChars, overlap)[k];
        } else {
          assert Split(text, maxChars, overlap)[0] == text;
        }
      }
    } else if maxChars <= 0 {
      LosesWithoutRoom(maxChars, overlap);
    } else {
      LosesInGaps(maxChars, overlap);
    }
  }

  lemma LosesWithoutRoom(maxChars: int, overlap: int)
    requires maxChars <= 0
    ensures !KeepsEveryCharacter(maxChars, overlap)
  {
    var text := "a";
    assert Slice(text, 0, maxChars) == "";
    assert Split(text, maxChars, overlap) == [""];
    assert !PositionKept(text, maxChars, overlap, 0);
    assert !KeepsPositions(text, maxChars, overlap);
  }

  lemma LosesInGaps(maxChars: int, overlap: int)
    requires maxChars >= 1 && overlap < 0
    ensures !KeepsEveryCharacter(maxChars, overlap)
  {
    var text := Repeat('a', maxChars + 1);
    assert SplitFrom(text, Max(maxChars - overlap, 1), maxChars, overlap) == [];
    assert StartsFrom(|text|, Max(maxChars - overlap, 1), maxChars, overlap) == [];
    assert Split(text, maxChars, overlap) == [Slice(text, 0, maxChars)];
    assert Starts(|text|, maxChars, overlap) == [0] && |Slice(text, 0, maxChars)| == maxChars;
    assert !PositionKept(text, maxChars, overlap, maxChars);
    assert !KeepsPositions(text, maxChars, overlap);
  }

  // ----- blocks to chunks -----

  datatype Block = Block(text: string, blockType: string)

  /** A chunk as far as splitting decides it; identifiers and metadata are copied. */
  datatype Chunk = Chunk(chunkIndex: int, text: string, blockType: string)

  /** Every piece of every block, in order, with the type of its block. */
  function PiecesOf(blocks: seq<Block>, maxChars: int, overlap: int): seq<(string, string)> {
    Concat(blocks, (b: Block) => Tagged(Split(b.text, maxChars, overlap), b.blockType))
  }

  function Tagged(pieces: seq<string>, blockType: string): (r: seq<(string, string)>)
    ensures |r| == |pieces|
  {
    seq(|pieces|, i requires 0 <= i < |pieces| => (pieces[i], blockType))
  }

  function TextsOf(pieces: seq<(string, string)>): (texts: seq<string>)
    ensures |texts| == |pieces| && forall k :: 0 <= k < |pieces| ==> texts[k] == pieces[k].0
  {
    seq(|pieces|, k requires 0 <= k < |pieces| => pieces[k].0)
  }

  /** Every block keeps its text: behind the pieces of the blocks before it stand as many as
      its length asks for, all of its type and none too long, that give its text back. */
  lemma BlockReassembles(blocks: seq<Block>, b: nat, maxChars: int, overlap: int)
    returns (start: nat, mine: seq<(string, string)>)
    requires b < |blocks| && maxChars >= 1 && overlap >= 0
    ensures start == |PiecesOf(blocks[..b], maxChars, overlap)|
    ensures start + |mine| <= |PiecesOf(blocks, maxChars, overlap)|
    ensures mine == PiecesOf(blocks, maxChars, overlap)[start..start + |mine|]
    ensures |mine| == PieceCount(|blocks[b].text|, maxChars, overlap)
    ensures Rejoin(TextsOf(mine), Stride(maxChars, overlap)) == blocks[b].text
    ensures forall piece :: piece in mine ==> |piece.0| <= maxChars && piece.1 == blocks[b].blockType
  {
    start := |PiecesOf(blocks[..b], maxChars, overlap)|;
    mine := Tagged(Split(blocks[b].text, maxChars, overlap), blocks[b].blockType);
    ConcatPart(blocks, b, (b: Block) => Tagged(Split(b.text, maxChars, overlap), b.blockType));
    TaggedPieces(blocks[b].text, blocks[b].blockType, maxChars, overlap);
  }

  lemma TaggedPieces(text: string, blockType: string, maxChars: int, overlap: int)
    requires maxChars >= 1 && overlap >= 0
    ensures var tagged := Tagged(Split(text, maxChars, overlap), blockType);
            && |tagged| == PieceCount(|text|, maxChars, overlap)
            && Rejoin(TextsOf(tagged), Stride(maxChars, overlap)) == text
            && forall piece :: piece in tagged ==> |piece.0| <= maxChars && piece.1 == blockType
  {
    var pieces := Split(text, maxChars, overlap);
    PiecesAreWindows(text, maxChars, overlap);
    PiecesReassemble(text, maxChars, overlap);
    assert TextsOf(Tagged(pieces, blockType)) == pieces;
    forall k | 0 <= k < |pieces| ensures |pieces[k]| <= maxChars {
      assert IsWindow(pieces[k], text, k * Stride(maxChars, overlap), maxChars);
    }
  }

  /** blocks_to_chunks: one chunk for each piece of each block in order, numbered from 1
      without a gap across blocks. */
  method BlocksToChunks(blocks: seq<Block>, maxChars: int, overlap: int) returns (chunks: seq<Chunk>)
    ensures |chunks| == |PiecesOf(blocks, maxChars, overlap)|
    ensures forall k :: 0 <= k < |chunks| ==>
              chunks[k] ==
                  Chunk(k + 1, PiecesOf(blocks, maxChars, overlap)[k].0, PiecesOf(blocks, maxChars, overlap)[k].1)
  {
    chunks := [];
    var chunkIndex := 0;
    for b := 0 to |blocks|
      invariant chunkIndex == |chunks| == |PiecesOf(blocks[..b], maxChars, overlap)|
      invariant forall k :: 0 <= k < |chunks| ==>
        chunks[k] ==
            Chunk(k + 1, PiecesOf(blocks[..b], maxChars, overlap)[k].0, PiecesOf(blocks[..b], maxChars, overlap)[k].1)
    {
      var pieces := SplitText(blocks[b].text, maxChars, overlap);
      ghost var before: seq<(string, string)> := PiecesOf(blocks[..b], maxChars, overlap);
      ghost var tagged: seq<(string, string)> := Tagged(pieces, blocks[b].blockType);
      assert blocks[..b + 1][..b] == blocks[..b];
      assert PiecesOf(blocks[..b + 1], maxChars, overlap) == before + tagged;
      for p := 0 to |pieces|
        invariant chunkIndex == |chunks| == |before| + p
        invariant forall k :: 0 <= k < |chunks| ==>
          chunks[k] == Chunk(k + 1, (before + tagged)[k].0, (before + tagged)[k].1)
      {
        chunkIndex := chunkIndex + 1;
        chunks := chunks + [Chunk(chunkIndex, pieces[p], blocks[b].blockType)];
      }
    }
    assert blocks[..|blocks|] == blocks;
  }
}
