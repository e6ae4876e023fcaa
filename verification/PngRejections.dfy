/** What the reader answers to a file of whole chunks, whatever they are, and which rows it takes as they stand. */
module PngRejections {
  import opened Wrappers
  import opened PngCodec

  /** The last header among the chunks; the reader keeps no other. */
  function LastHeader(chunks: seq<Chunk>): Option<seq<byte>> {
    if chunks == [] then None
    else if chunks[|chunks|-1].kind == IHDR then Some(chunks[|chunks|-1].body)
    else LastHeader(chunks[..|chunks|-1])
  }

  predicate HeadersAreWhole(chunks: seq<Chunk>) {
    forall i :: 0 <= i < |chunks| && chunks[i].kind == IHDR ==> |chunks[i].body| == 13
  }

  /** The answer to the chunks before the end, by section 4.1.1 of RFC 2083: bit depth at 8, colour type at 9,
      interlace method at 12. */
  function Answer(chunks: seq<Chunk>, inflate: Inflate): Result<Image, Error> {
    var header := LastHeader(chunks);
    if !HeadersAreWhole(chunks) then Failure(BadHeader)
    else if header.None? then Failure(NoHeader)
    else if |header.value| != 13 || header.value[8] != 8 || header.value[9] != 6 || header.value[12] != 0
    then Failure(NotRgba8)
    else Inflated(BigEndian(header.value[0..4]), BigEndian(header.value[4..8]), inflate(DataOf(chunks)))
  }

  function Inflated(width: nat, height: nat, raw: Option<seq<byte>>): Result<Image, Error> {
    if raw.None? then Failure(BadStream)
    else Assembled(width, height, RowsFrom(raw.value, 0, height, width * 4, Zeros(width * 4)))
  }

  lemma HeaderAnswers(data: seq<byte>, h: Header, compressed: seq<byte>, inflate: Inflate)
    requires Scan(data) == Success(Scanned(Some(h), compressed))
    ensures ReadResult(data, inflate) ==
            if h.depth != 8 || h.color != 6 || h.interlace != 0 then Failure(NotRgba8)
            else Inflated(h.width, h.height, inflate(compressed))
  {
  }

  lemma NoHeaderAnswers(data: seq<byte>, inflate: Inflate)
    requires Scan(data).Failure? || Scan(data).value.header.None?
    ensures ReadResult(data, inflate) == Failure(if Scan(data).Failure? then Scan(data).error else NoHeader)
  {
  }

  lemma {:induction false} LastHeaderCons(chunks: seq<Chunk>)
    requires chunks != []
    ensures LastHeader(chunks) ==
            if LastHeader(chunks[1..]).Some? then LastHeader(chunks[1..])
            else if chunks[0].kind == IHDR then Some(chunks[0].body) else None
    decreases |chunks|
  {
    if |chunks| > 1 && chunks[|chunks|-1].kind != IHDR {
      LastHeaderCons(chunks[..|chunks|-1]);
      assert chunks[1..][..|chunks|-2] == chunks[..|chunks|-1][1..];
    }
  }

  lemma {:induction false} GatherExactly(acc: Scanned, chunks: seq<Chunk>)
    ensures Gather(acc, chunks) ==
            Scanned(if LastHeader(chunks).Some? then UnpackHeader(LastHeader(chunks).value) else acc.header,
                    acc.compressed + DataOf(chunks))
    decreases |chunks|
  {
    if chunks == [] {
      assert acc.compressed + [] == acc.compressed;
    } else {
      var c, rest := chunks[0], chunks[1..];
      KindsDiffer();
      LastHeaderCons(chunks);
      GatherExactly(Accumulate(acc, c), rest);
      assert acc.compressed + c.body + DataOf(rest) == acc.compressed + (c.body + DataOf(rest));
      assert [] + DataOf(rest) == DataOf(rest);
    }
  }

  lemma {:induction false} BadHeaderStops(piece: nat -> Piece, length: nat, at: nat, chunks: seq<Chunk>, end: Chunk,
                                          acc: Scanned)
    requires ChunksAt(piece, length, at, chunks, end)
    requires !HeadersAreWhole(chunks) && forall i :: 0 <= i < |chunks| ==> chunks[i].kind != IEND
    ensures ScanFrom(piece, length, at, acc) == Failure(BadHeader)
    decreases |chunks|
  {
    if Passed(chunks[0]) {
      var i :| 0 <= i < |chunks| && chunks[i].kind == IHDR && |chunks[i].body| != 13;
      assert chunks[1..][i - 1] == chunks[i];
      BadHeaderStops(piece, length, at + 12 + |chunks[0].body|, chunks[1..], end, Accumulate(acc, chunks[0]));
    }
  }

  /** What the scan of the chunks gives. */
  function ScanOf(chunks: seq<Chunk>): Result<Scanned, Error> {
    if !HeadersAreWhole(chunks) then Failure(BadHeader)
    else Success(Scanned(if LastHeader(chunks).Some? then UnpackHeader(LastHeader(chunks).value) else None,
                         DataOf(chunks)))
  }

  lemma PiecesScan(piece: nat -> Piece, length: nat, chunks: seq<Chunk>, end: Chunk)
    requires ChunksAt(piece, length, 8, chunks, end) && end.kind == IEND
    requires forall i :: 0 <= i < |chunks| ==> chunks[i].kind != IEND
    ensures ScanFrom(piece, length, 8, Scanned(None, [])) == ScanOf(chunks)
  {
    if HeadersAreWhole(chunks) {
      assert forall c :: c in chunks ==> Passed(c);
      ChunksScan(piece, length, 8, chunks, end, Scanned(None, []));
      GatherExactly(Scanned(None, []), chunks);
      assert [] + DataOf(chunks) == DataOf(chunks);
    } else {
      BadHeaderStops(piece, length, 8, chunks, end, Scanned(None, []));
    }
  }

  lemma ScanExactly(data: seq<byte>, signature: seq<byte>, chunks: seq<Chunk>, end: Chunk, tail: seq<byte>)
    requires |signature| == 8 && ChunksValid(chunks) && forall i :: 0 <= i < |chunks| ==> chunks[i].kind != IEND
    requires end.Valid() && end.kind == IEND && data == signature + AllBytes(chunks) + end.Bytes() + tail
    ensures Scan(data) == ScanOf(chunks)
  {
    assert PiecesOf(Pieces(data), data);
    ChunksParse(Pieces(data), data, signature, chunks, end, tail);
    PiecesScan(Pieces(data), |data|, chunks, end);
  }

  lemma {:induction false} LastHeaderIsWhole(chunks: seq<Chunk>)
    requires HeadersAreWhole(chunks) && LastHeader(chunks).Some?
    ensures |LastHeader(chunks).value| == 13
  {
    if chunks[|chunks|-1].kind != IHDR {
      LastHeaderIsWhole(chunks[..|chunks|-1]);
    }
  }

  /** A file is read exactly when every header is whole, there is one, the last one asks for eight bits, colour and
      alpha and no interlacing, the data inflates, and the row loop succeeds; otherwise the first of these that fails
      is reported. */
  lemma ReadExactly(data: seq<byte>, signature: seq<byte>, chunks: seq<Chunk>, end: Chunk, tail: seq<byte>,
                    inflate: Inflate)
    requires |signature| == 8 && ChunksValid(chunks) && forall i :: 0 <= i < |chunks| ==> chunks[i].kind != IEND
    requires end.Valid() && end.kind == IEND && data == signature + AllBytes(chunks) + end.Bytes() + tail
    ensures ReadResult(data, inflate) == Answer(chunks, inflate)
  {
    ScanExactly(data, signature, chunks, end, tail);
    if HeadersAreWhole(chunks) && LastHeader(chunks).Some? {
      LastHeaderIsWhole(chunks);
      HeaderAnswers(data, UnpackHeader(LastHeader(chunks).value).value, DataOf(chunks), inflate);
    } else {
      NoHeaderAnswers(data, inflate);
    }
  }

  /** A filter type that is none of the four leaves its row as it is, cut short or not. */
  lemma {:induction false} OtherFiltersKeep(filter: byte, row: seq<byte>, previous: seq<byte>, index: nat, stride: nat)
    requires index <= stride <= |previous| && stride <= |row| + 4 && !(1 <= filter <= 4)
    ensures ReconFrom(filter, row, previous, index, stride) == Success(row)
    decreases stride - index
  {
    if index < stride {
      OtherFiltersKeep(filter, row, previous, index + 1, stride);
      assert index < |row| ==> row[index := row[index]] == row;
    }
  }
}
