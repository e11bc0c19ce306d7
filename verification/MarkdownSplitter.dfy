/** The splitter that cuts a transcript into numbered chunks, each with its byte range and digest. */
module MarkdownSplitter {
  import opened Text
  import opened Utf8

  const MAX_CHUNK_LENGTH: nat := 2000

  predicate IsSha256Hex(s: string) {
    |s| == 64 && forall i :: 0 <= i < |s| ==> IsDigit(s[i]) || 'a' <= s[i] <= 'f'
  }

  /** A lower-case hexadecimal digest of 256 bits. */
  type HexDigest = s: string | IsSha256Hex(s) witness seq(64, _ => '0')

  /** The digest function; nothing is assumed of it beyond the form of its values. */
  type Digest = string -> HexDigest

  datatype Chunk = Chunk(id: nat, content: string, startByte: nat, endByte: nat, sha256: HexDigest)

  predicate BlankLineAt(s: string, i: nat) {
    i + 2 <= |s| && s[i] == '\n' && s[i + 1] == '\n'
  }

  predicate FullStopAt(s: string, i: nat) {
    i < |s| && s[i] == '\U{3002}'
  }

  /** The last place where a mark of the given width stands between two positions. */
  function LastIndex(s: string, mark: (string, nat) -> bool, width: nat, from: nat, limit: nat): (r: Option<nat>)
    requires width > 0
    ensures r.Some? ==> from <= r.value && r.value + width <= limit
    decreases limit
  {
    if from + width > limit then None
    else if mark(s, limit - width) then Some(limit - width)
    else LastIndex(s, mark, width, from, limit - 1)
  }

  /** It is a mark, and no later one fits before the limit. */
  lemma {:induction false} LastIndexIsLast(s: string, mark: (string, nat) -> bool, width: nat, from: nat, limit: nat,
                                           i: nat)
    requires width > 0 && from <= i && i + width <= limit && mark(s, i)
    ensures var r := LastIndex(s, mark, width, from, limit);
      r.Some? && i <= r.value && mark(s, r.value)
    decreases limit
  {
    if !mark(s, limit - width) {
      LastIndexIsLast(s, mark, width, from, limit - 1, i);
    }
  }

  /** A chunk ends after the last blank line, failing that after the last full stop, failing that at full length. */
  function FindChunkEnd(markdown: string, start: nat, maxLength: nat): (end: nat)
    requires start < |markdown| && maxLength > 0
    ensures start < end <= |markdown| && end <= start + maxLength
  {
    if |markdown| <= start + maxLength then |markdown| else BreakBefore(markdown, start, start + maxLength)
  }

  function BreakBefore(markdown: string, start: nat, hardEnd: nat): (end: nat)
    requires start < hardEnd <= |markdown|
    ensures start < end <= hardEnd
  {
    var paragraph := LastIndex(markdown, BlankLineAt, 2, start, hardEnd);
    var sentence := LastIndex(markdown, FullStopAt, 1, start, hardEnd);
    if paragraph.Some? then paragraph.value + 2
    else if sentence.Some? then sentence.value + 1
    else hardEnd
  }

  /** No mark that fits between two positions ends after the given one. */
  ghost predicate NoneAfter(s: string, mark: (string, nat) -> bool, width: nat, end: nat, start: nat, limit: nat) {
    forall i: nat :: start <= i && end < i + width <= limit ==> !mark(s, i)
  }

  const BLANK_LINE := "\n\n"
  const FULL_STOP := "\U{3002}"

  /** The piece does not stand between two positions so as to end after the given one. */
  ghost predicate NoPieceAfter(s: string, piece: string, end: nat, start: nat, limit: nat) {
    forall i: nat :: start <= i && end < i + |piece| <= limit ==> !OccursAt(s, piece, i)
  }

  lemma MarksArePieces(s: string, i: nat)
    ensures BlankLineAt(s, i) <==> OccursAt(s, BLANK_LINE, i)
    ensures FullStopAt(s, i) <==> OccursAt(s, FULL_STOP, i)
  {
    if i + 2 <= |s| {
      assert s[i..i + 2] == [s[i], s[i + 1]];
    }
    if i < |s| {
      assert s[i..i + 1] == [s[i]];
    }
  }

  lemma NoneAfterIsNoPieceAfter(s: string, end: nat, start: nat, limit: nat)
    ensures NoneAfter(s, BlankLineAt, 2, end, start, limit) ==> NoPieceAfter(s, BLANK_LINE, end, start, limit)
    ensures NoneAfter(s, FullStopAt, 1, end, start, limit) ==> NoPieceAfter(s, FULL_STOP, end, start, limit)
  {
    forall i: nat
      ensures BlankLineAt(s, i) <==> OccursAt(s, BLANK_LINE, i)
      ensures FullStopAt(s, i) <==> OccursAt(s, FULL_STOP, i)
    {
      MarksArePieces(s, i);
    }
  }

  /** Where a text is broken before a limit: after the last blank line, failing that after the last full stop, failing
      both at the limit. */
  ghost predicate BreaksAtLast(s: string, start: nat, limit: nat, end: nat) {
    || (start + 2 <= end && OccursAt(s, BLANK_LINE, end - 2) && NoPieceAfter(s, BLANK_LINE, end, start, limit))
    || (&& NoPieceAfter(s, BLANK_LINE, start, start, limit)
        && (|| (OccursAt(s, FULL_STOP, end - 1) && NoPieceAfter(s, FULL_STOP, end, start, limit))
            || (end == limit && NoPieceAfter(s, FULL_STOP, start, start, limit))))
  }

  lemma BreakIsLast(s: string, start: nat, limit: nat)
    requires start < limit <= |s|
    ensures BreaksAtLast(s, start, limit, BreakBefore(s, start, limit))
  {
    var paragraph := LastIndex(s, BlankLineAt, 2, start, limit);
    var sentence := LastIndex(s, FullStopAt, 1, start, limit);
    LastIsLast(s, BlankLineAt, 2, start, limit);
    LastIsLast(s, FullStopAt, 1, start, limit);
    NoneAfterIsNoPieceAfter(s, start, start, limit);
    if paragraph.Some? {
      MarksArePieces(s, paragraph.value);
      NoneAfterIsNoPieceAfter(s, paragraph.value + 2, start, limit);
    } else if sentence.Some? {
      MarksArePieces(s, sentence.value);
      NoneAfterIsNoPieceAfter(s, sentence.value + 1, start, limit);
    }
  }

  /** A chunk of a longer text ends right after the last blank line in reach; if there is none, right after the last
      full stop in reach; and only without either at full length. The last chunk is all that is left. */
  lemma ChunkEndsAtLastBreak(markdown: string, start: nat, maxLength: nat)
    requires maxLength > 0 && start < |markdown|
    ensures var limit, end := start + maxLength, FindChunkEnd(markdown, start, maxLength);
      if |markdown| <= limit then end == |markdown| else BreaksAtLast(markdown, start, limit, end)
  {
    if start + maxLength < |markdown| {
      BreakIsLast(markdown, start, start + maxLength);
    }
  }

  lemma LastIsLast(s: string, mark: (string, nat) -> bool, width: nat, from: nat, limit: nat)
    requires width > 0
    ensures var r := LastIndex(s, mark, width, from, limit);
      if r.Some? then mark(s, r.value) && NoneAfter(s, mark, width, r.value + width, from, limit)
      else NoneAfter(s, mark, width, from, from, limit)
  {
    var r := LastIndex(s, mark, width, from, limit);
    forall i: nat | from <= i && i + width <= limit && mark(s, i)
      ensures r.Some? && i <= r.value
    {
      LastIndexIsLast(s, mark, width, from, limit, i);
    }
    if r.Some? {
      LastIndexFindsMark(s, mark, width, from, limit);
    }
  }

  lemma {:induction false} LastIndexFindsMark(s: string, mark: (string, nat) -> bool, width: nat, from: nat, limit: nat)
    requires width > 0 && LastIndex(s, mark, width, from, limit).Some?
    ensures mark(s, LastIndex(s, mark, width, from, limit).value)
    decreases limit
  {
    if !mark(s, limit - width) {
      LastIndexFindsMark(s, mark, width, from, limit - 1);
    }
  }

  /** The texts of the chunks from a position on. */
  function Pieces(markdown: string, start: nat, maxLength: nat): seq<string>
    requires start <= |markdown| && maxLength > 0
    decreases |markdown| - start
  {
    if start == |markdown| then []
    else
      var end := FindChunkEnd(markdown, start, maxLength);
      [markdown[start..end]] + Pieces(markdown, end, maxLength)
  }

  function ChunkOf(sha: Digest, content: string, startByte: nat, id: nat): Chunk {
    Chunk(id, content, startByte, startByte + |Encode(content)|, sha(content))
  }

  /** The chunks of the given texts, numbered and placed back to back. */
  function Numbered(sha: Digest, pieces: seq<string>, startByte: nat, id: nat): seq<Chunk> {
    if pieces == [] then []
    else
      var c := ChunkOf(sha, pieces[0], startByte, id);
      [c] + Numbered(sha, pieces[1..], c.endByte, id + 1)
  }

  function Split(sha: Digest, markdown: string, maxLength: nat): seq<Chunk> {
    if markdown == "" || maxLength == 0 then [] else Numbered(sha, Pieces(markdown, 0, maxLength), 0, 1)
  }

  method SplitMarkdown(sha: Digest, markdown: string, maxLength: nat) returns (chunks: seq<Chunk>)
    ensures chunks == Split(sha, markdown, maxLength)
  {
    if markdown == "" || maxLength == 0 {
      return [];
    }
    chunks := [];
    var start: nat, startByte: nat := 0, 0;
    ghost var all := Remaining(sha, markdown, 0, maxLength, 0, 1);
    assert [] + all == all;
    while start < |markdown|
      invariant start <= |markdown|
      invariant chunks + Remaining(sha, markdown, start, maxLength, startByte, |chunks| + 1) == all
    {
      var end := FindChunkEnd(markdown, start, maxLength);
      var chunk := ChunkOf(sha, markdown[start..end], startByte, |chunks| + 1);
      RemainingStep(sha, markdown, start, maxLength, startByte, chunks);
      chunks, start, startByte := chunks + [chunk], end, chunk.endByte;
    }
    NothingRemains(sha, markdown, maxLength, startByte, |chunks| + 1);
    assert chunks + [] == chunks;
  }

  lemma NothingRemains(sha: Digest, markdown: string, maxLength: nat, startByte: nat, id: nat)
    requires maxLength > 0
    ensures Remaining(sha, markdown, |markdown|, maxLength, startByte, id) == []
  {
  }

  /** The chunks of the text from a position on. */
  ghost function Remaining(sha: Digest, markdown: string, start: nat, maxLength: nat, startByte: nat, id: nat)
    : seq<Chunk>
    requires start <= |markdown| && maxLength > 0
  {
    Numbered(sha, Pieces(markdown, start, maxLength), startByte, id)
  }

  lemma RemainingStep(sha: Digest, markdown: string, start: nat, maxLength: nat, startByte: nat, done: seq<Chunk>)
    requires start < |markdown| && maxLength > 0
    ensures var end := FindChunkEnd(markdown, start, maxLength);
      var c := ChunkOf(sha, markdown[start..end], startByte, |done| + 1);
      done + Remaining(sha, markdown, start, maxLength, startByte, |done| + 1)
      == (done + [c]) + Remaining(sha, markdown, end, maxLength, c.endByte, |done + [c]| + 1)
  {
    PiecesStep(markdown, start, maxLength);
    NumberedStep(sha, done, Pieces(markdown, start, maxLength), startByte);
  }

  lemma PiecesStep(markdown: string, start: nat, maxLength: nat)
    requires start < |markdown| && maxLength > 0
    ensures var end, pieces := FindChunkEnd(markdown, start, maxLength), Pieces(markdown, start, maxLength);
      pieces != [] && pieces[0] == markdown[start..end] && pieces[1..] == Pieces(markdown, end, maxLength)
  {
  }

  lemma NumberedStep(sha: Digest, done: seq<Chunk>, pieces: seq<string>, startByte: nat)
    requires pieces != []
    ensures var c := ChunkOf(sha, pieces[0], startByte, |done| + 1);
      done + Numbered(sha, pieces, startByte, |done| + 1)
      == (done + [c]) + Numbered(sha, pieces[1..], c.endByte, |done + [c]| + 1)
  {
    var c := ChunkOf(sha, pieces[0], startByte, |done| + 1);
    var rest := Numbered(sha, pieces[1..], c.endByte, |done| + 2);
    assert done + ([c] + rest) == (done + [c]) + rest;
  }

  // ----- what splitting guarantees -----

  function Contents(chunks: seq<Chunk>): string {
    if chunks == [] then "" else chunks[0].content + Contents(chunks[1..])
  }

  /** Chunks numbered from `id`, non-empty, back to back from `startByte`, each as wide as its UTF-8 text. */
  predicate Tiles(sha: Digest, chunks: seq<Chunk>, id: nat, startByte: nat, maxLength: nat) {
    chunks != [] ==>
      var c := chunks[0];
      && c.id == id && c.startByte == startByte
      && c.endByte == startByte + |Encode(c.content)| && c.startByte < c.endByte
      && 0 < |c.content| <= maxLength && c.sha256 == sha(c.content)
      && Tiles(sha, chunks[1..], id + 1, c.endByte, maxLength)
  }

  /** Texts that may be chunks: none is empty, none too long. */
  predicate Fit(pieces: seq<string>, maxLength: nat) {
    forall i :: 0 <= i < |pieces| ==> 0 < |pieces[i]| <= maxLength
  }

  lemma TextHasBytes(s: string)
    requires s != ""
    ensures |Encode(s)| > 0
  {
  }

  lemma {:induction false} NumberedTiles(sha: Digest, pieces: seq<string>, startByte: nat, id: nat, maxLength: nat)
    requires Fit(pieces, maxLength)
    ensures Tiles(sha, Numbered(sha, pieces, startByte, id), id, startByte, maxLength)
    decreases |pieces|
  {
    if pieces != [] {
      var c := ChunkOf(sha, pieces[0], startByte, id);
      TextHasBytes(pieces[0]);
      NumberedTiles(sha, pieces[1..], c.endByte, id + 1, maxLength);
    }
  }

  function Concatenated(pieces: seq<string>): string {
    if pieces == [] then "" else pieces[0] + Concatenated(pieces[1..])
  }

  lemma {:induction false} NumberedSpells(sha: Digest, pieces: seq<string>, startByte: nat, id: nat)
    ensures Contents(Numbered(sha, pieces, startByte, id)) == Concatenated(pieces)
    decreases |pieces|
  {
    if pieces != [] {
      NumberedSpells(sha, pieces[1..], ChunkOf(sha, pieces[0], startByte, id).endByte, id + 1);
    }
  }

  lemma FitPrepended(piece: string, rest: seq<string>, maxLength: nat)
    requires 0 < |piece| <= maxLength && Fit(rest, maxLength)
    ensures Fit([piece] + rest, maxLength)
  {
  }

  lemma {:induction false} PiecesFit(markdown: string, start: nat, maxLength: nat)
    requires start <= |markdown| && maxLength > 0
    ensures Fit(Pieces(markdown, start, maxLength), maxLength)
    decreases |markdown| - start
  {
    if start < |markdown| {
      var end := FindChunkEnd(markdown, start, maxLength);
      PiecesFit(markdown, end, maxLength);
      FitPrepended(markdown[start..end], Pieces(markdown, end, maxLength), maxLength);
    }
  }

  lemma ConcatenatedPrepended(piece: string, rest: seq<string>)
    ensures Concatenated([piece] + rest) == piece + Concatenated(rest)
  {
    assert ([piece] + rest)[1..] == rest;
  }

  lemma CutRejoins(s: string, start: nat, end: nat)
    requires start <= end <= |s|
    ensures s[start..end] + s[end..] == s[start..]
  {
  }

  lemma {:induction false} PiecesSpell(markdown: string, start: nat, maxLength: nat)
    requires start <= |markdown| && maxLength > 0
    ensures Concatenated(Pieces(markdown, start, maxLength)) == markdown[start..]
    decreases |markdown| - start
  {
    if start < |markdown| {
      var end := FindChunkEnd(markdown, start, maxLength);
      PiecesSpell(markdown, end, maxLength);
      ConcatenatedPrepended(markdown[start..end], Pieces(markdown, end, maxLength));
      CutRejoins(markdown, start, end);
    }
  }

  /** Splitting loses nothing: the chunks are numbered from 1, tile the bytes from 0 and spell out the transcript. */
  lemma SplitTiles(sha: Digest, markdown: string, maxLength: nat)
    ensures Tiles(sha, Split(sha, markdown, maxLength), 1, 0, maxLength)
    ensures maxLength > 0 ==> Contents(Split(sha, markdown, maxLength)) == markdown
  {
    if markdown != "" && maxLength > 0 {
      var pieces := Pieces(markdown, 0, maxLength);
      PiecesFit(markdown, 0, maxLength);
      PiecesSpell(markdown, 0, maxLength);
      NumberedTiles(sha, pieces, 0, 1, maxLength);
      NumberedSpells(sha, pieces, 0, 1);
    }
  }

  /** The chunk's byte range holds exactly its text. */
  predicate Addresses(c: Chunk, bytes: seq<Byte>) {
    c.startByte <= c.endByte <= |bytes| && bytes[c.startByte..c.endByte] == Encode(c.content)
  }

  lemma SliceOfMiddle(a: seq<Byte>, b: seq<Byte>, c: seq<Byte>)
    ensures (a + (b + c))[|a|..|a| + |b|] == b && a + (b + c) == (a + b) + c
  {
  }

  lemma {:induction false} NumberedAddresses(sha: Digest, pieces: seq<string>, before: seq<Byte>, id: nat, k: nat)
    requires k < |Numbered(sha, pieces, |before|, id)|
    ensures Addresses(Numbered(sha, pieces, |before|, id)[k], before + Encode(Concatenated(pieces)))
    decreases |pieces|
  {
    var first, rest := Encode(pieces[0]), Concatenated(pieces[1..]);
    EncodeJoins(pieces[0], rest);
    SliceOfMiddle(before, first, Encode(rest));
    if k > 0 {
      var c := ChunkOf(sha, pieces[0], |before|, id);
      assert c.endByte == |before + first|;
      NumberedAddresses(sha, pieces[1..], before + first, id + 1, k - 1);
      assert Numbered(sha, pieces, |before|, id)[k] == Numbered(sha, pieces[1..], c.endByte, id + 1)[k - 1];
    }
  }

  /** The byte range of every chunk holds exactly its text, in the transcript's bytes. */
  lemma ChunksAddressTheirBytes(sha: Digest, markdown: string, maxLength: nat, k: nat)
    requires k < |Split(sha, markdown, maxLength)|
    ensures Addresses(Split(sha, markdown, maxLength)[k], Encode(markdown))
  {
    var pieces := Pieces(markdown, 0, maxLength);
    PiecesSpell(markdown, 0, maxLength);
    NumberedAddresses(sha, pieces, [], 1, k);
    assert [] + Encode(markdown) == Encode(markdown);
  }

  /** A digest is 64 lower-case hexadecimal digits. */
  lemma DigestIsHex(s: string)
    ensures IsSha256Hex(s) <==> |s| == 64 && forall i :: 0 <= i < |s| ==> s[i] in "0123456789abcdef"
  {
    assert forall c: char :: c in "0123456789abcdef" <==> IsDigit(c) || 'a' <= c <= 'f';
  }
}
