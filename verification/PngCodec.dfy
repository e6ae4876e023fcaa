/** The screenshot compositor's PNG reader (client/scripts/composite-png.py), and the encodings it inverts.
    zlib is a parameter. */
module PngCodec {
  import opened Wrappers

  type byte = x: int | 0 <= x < 256

  datatype Header = Header(width: nat, height: nat, depth: byte, color: byte, interlace: byte)

  datatype Image = Image(width: nat, height: nat, rows: seq<seq<byte>>)

  datatype Error = BadHeader | NoHeader | NotRgba8 | BadStream | OutOfData

  const IHDR: seq<byte> := [73, 72, 68, 82]
  const IDAT: seq<byte> := [73, 68, 65, 84]
  const IEND: seq<byte> := [73, 69, 78, 68]
  const SIGNATURE: seq<byte> := [137, 80, 78, 71, 13, 10, 26, 10]

  // ---------- bytes ----------

  function Min(a: nat, b: nat): nat {
    if a < b then a else b
  }

  /** Python's data[lo:hi] for nonnegative bounds. */
  function Slice(data: seq<byte>, lo: nat, hi: nat): seq<byte>
    requires lo <= hi
  {
    data[Min(lo, |data|)..Min(hi, |data|)]
  }

  /** int.from_bytes, for at most the four bytes that the reader ever takes. */
  function BigEndian(bytes: seq<byte>): nat
    requires |bytes| <= 4
  {
    if |bytes| == 0 then 0
    else if |bytes| == 1 then (bytes[0] as int)
    else if |bytes| == 2 then (bytes[0] as int) * 0x100 + (bytes[1] as int)
    else if |bytes| == 3 then (bytes[0] as int) * 0x1_0000 + (bytes[1] as int) * 0x100 + (bytes[2] as int)
    else (bytes[0] as int) * 0x100_0000 + (bytes[1] as int) * 0x1_0000 + (bytes[2] as int) * 0x100 + (bytes[3] as int)
  }

  function Word(n: nat): seq<byte>
    requires n < 0x1_0000_0000
    ensures |Word(n)| == 4
  {
    [n / 0x100_0000, n / 0x1_0000 % 256, n / 0x100 % 256, n % 256]
  }

  lemma WordIsBigEndian(n: nat)
    requires n < 0x1_0000_0000
    ensures BigEndian(Word(n)) == n
  {
    assert n / 0x1_0000 / 256 == n / 0x100_0000 && n / 0x100 / 256 == n / 0x1_0000;
  }

  // ---------- reading chunks ----------

  datatype Scanned = Scanned(header: Option<Header>, compressed: seq<byte>)

  function UnpackHeader(body: seq<byte>): Option<Header> {
    if |body| != 13 then None
    else Some(Header(BigEndian(body[0..4]), BigEndian(body[4..8]), body[8], body[9], body[12]))
  }

  function Size(data: seq<byte>, offset: nat): nat {
    BigEndian(Slice(data, offset, offset + 4))
  }

  /** What the reader makes of a chunk that is not the end and whose header, if it is one, unpacks. */
  function Take(acc: Scanned, kind: seq<byte>, body: seq<byte>): Scanned {
    if kind == IHDR then acc.(header := UnpackHeader(body))
    else if kind == IDAT then acc.(compressed := acc.compressed + body)
    else acc
  }

  /** What the reader takes for a chunk at some offset. */
  datatype Piece = Piece(kind: seq<byte>, body: seq<byte>, size: nat)

  function Pieces(data: seq<byte>): nat -> Piece {
    (offset: nat) =>
      Piece(Slice(data, offset + 4, offset + 8), Slice(data, offset + 8, offset + 8 + Size(data, offset)),
            Size(data, offset))
  }

  predicate PieceIs(piece: nat -> Piece, data: seq<byte>, offset: nat) {
    piece(offset) == Pieces(data)(offset)
  }

  /** The function gives the pieces of this data. */
  ghost predicate PiecesOf(piece: nat -> Piece, data: seq<byte>) {
    forall offset: nat :: PieceIs(piece, data, offset)
  }

  /** The reader's loop over the pieces of data of this length. */
  function ScanFrom(piece: nat -> Piece, length: nat, offset: nat, acc: Scanned): Result<Scanned, Error>
    decreases length - offset
  {
    if length <= offset then Success(acc)
    else
      var p := piece(offset);
      if p.kind == IEND then Success(acc)
      else if p.kind == IHDR && UnpackHeader(p.body).None? then Failure(BadHeader)
      else ScanFrom(piece, length, offset + 12 + p.size, Take(acc, p.kind, p.body))
  }

  function Scan(data: seq<byte>): Result<Scanned, Error> {
    ScanFrom(Pieces(data), |data|, 8, Scanned(None, []))
  }

  lemma KindsDiffer()
    ensures IHDR != IDAT && IDAT != IEND && IEND != IHDR
  {
    assert IHDR[1] != IDAT[1] && IDAT[1] != IEND[1] && IEND[1] != IHDR[1];
  }

  /** The fields of the chunk at the offset. */
  method ReadChunk(data: seq<byte>, offset: nat, ghost piece: nat -> Piece)
    returns (kind: seq<byte>, body: seq<byte>, size: nat)
    requires PiecesOf(piece, data)
    ensures piece(offset) == Piece(kind, body, size)
  {
    assert PieceIs(piece, data, offset);
    size := Size(data, offset);
    kind := Slice(data, offset + 4, offset + 8);
    body := Slice(data, offset + 8, offset + 8 + size);
  }

  /** The chunk loop. */
  method ScanPieces(data: seq<byte>, ghost piece: nat -> Piece) returns (r: Result<Scanned, Error>)
    requires PiecesOf(piece, data)
    ensures r == ScanFrom(piece, |data|, 8, Scanned(None, []))
  {
    KindsDiffer();
    var offset, header, compressed := 8, None, [];
    ghost var all := ScanFrom(piece, |data|, 8, Scanned(None, []));
    while offset < |data|
      invariant ScanFrom(piece, |data|, offset, Scanned(header, compressed)) == all
      decreases |data| - offset
    {
      var kind, body, size := ReadChunk(data, offset, piece);
      offset := offset + 12 + size;
      if kind == IHDR {
        header := UnpackHeader(body);
        if header.None? { return Failure(BadHeader); }
      } else if kind == IDAT {
        compressed := compressed + body;
      } else if kind == IEND {
        break;
      }
    }
    r := Success(Scanned(header, compressed));
  }

  method ScanChunks(data: seq<byte>) returns (r: Result<Scanned, Error>)
    ensures r == Scan(data)
  {
    assert PiecesOf(Pieces(data), data);
    r := ScanPieces(data, Pieces(data));
  }

  // ---------- reconstructing scanlines ----------

  function Abs(x: int): nat {
    if x < 0 then -x else x
  }

  function Paeth(left: byte, above: byte, corner: byte): byte {
    var value := left + above - corner;
    var pa, pb, pc := Abs(value - left), Abs(value - above), Abs(value - corner);
    if pa <= pb && pa <= pc then left else if pb <= pc then above else corner
  }

  /** The predictor of filter types 1 to 4; any other type adds nothing. */
  function Predictor(filter: byte, left: byte, above: byte, corner: byte): byte {
    if filter == 1 then left
    else if filter == 2 then above
    else if filter == 3 then (left + above) / 2
    else if filter == 4 then Paeth(left, above, corner)
    else 0
  }

  predicate Readable(filter: byte, length: nat, previous: seq<byte>, index: nat) {
    && (index >= 4 ==> index - 4 < length)
    && index < |previous|
    && (1 <= filter <= 4 ==> index < length)
  }

  function Predicted(filter: byte, row: seq<byte>, previous: seq<byte>, index: nat): byte
    requires Readable(filter, |row|, previous, index)
  {
    var left: byte := if index >= 4 then row[index-4] else 0;
    var corner: byte := if index >= 4 then previous[index-4] else 0;
    Predictor(filter, left, previous[index], corner)
  }

  /** The row with one more byte reconstructed. */
  function Reconstructed(filter: byte, row: seq<byte>, previous: seq<byte>, index: nat): seq<byte>
    requires index < |row| && Readable(filter, |row|, previous, index)
  {
    row[index := (row[index] + Predicted(filter, row, previous, index)) % 256]
  }

  function ReconFrom(filter: byte, row: seq<byte>, previous: seq<byte>, index: nat, stride: nat)
    : (r: Result<seq<byte>, Error>)
    requires index <= stride
    ensures r.Failure? ==> r.error == OutOfData
    ensures r.Success? ==> |r.value| == |row|
    decreases stride - index
  {
    if index == stride then Success(row)
    else if !Readable(filter, |row|, previous, index) then Failure(OutOfData)
    else if index < |row| then
      ReconFrom(filter, Reconstructed(filter, row, previous, index), previous, index + 1, stride)
    else ReconFrom(filter, row, previous, index + 1, stride)
  }

  /** The in-place reconstruction of one scanline. */
  method ReconstructRow(filter: byte, row: array<byte>, previous: array<byte>, stride: nat) returns (ok: bool)
    requires row != previous
    modifies row
    ensures ok <==> ReconFrom(filter, old(row[..]), previous[..], 0, stride).Success?
    ensures ok ==> row[..] == ReconFrom(filter, old(row[..]), previous[..], 0, stride).value
  {
    var index := 0;
    ghost var all := ReconFrom(filter, row[..], previous[..], 0, stride);
    while index < stride
      invariant index <= stride
      invariant ReconFrom(filter, row[..], previous[..], index, stride) == all
    {
      if !Readable(filter, row.Length, previous[..], index) { return false; }
      var left: byte := if index >= 4 then row[index-4] else 0;
      var above: byte := previous[index];
      var corner: byte := if index >= 4 then previous[index-4] else 0;
      ghost var before := row[..];
      if filter == 1 {
        row[index] := (row[index] + left) % 256;
      } else if filter == 2 {
        row[index] := (row[index] + above) % 256;
      } else if filter == 3 {
        row[index] := (row[index] + (left + above) / 2) % 256;
      } else if filter == 4 {
        row[index] := (row[index] + Paeth(left, above, corner)) % 256;
      }
      assert row[..] == if index < |before| then Reconstructed(filter, before, previous[..], index) else before;
      index := index + 1;
    }
    return true;
  }

  function Prepend(rows: seq<seq<byte>>, rest: Result<seq<seq<byte>>, Error>): Result<seq<seq<byte>>, Error> {
    if rest.Success? then Success(rows + rest.value) else rest
  }

  function RowsFrom(raw: seq<byte>, cursor: nat, count: nat, stride: nat, previous: seq<byte>)
    : Result<seq<seq<byte>>, Error>
    decreases count
  {
    if count == 0 then Success([])
    else if |raw| <= cursor then Failure(OutOfData)
    else
      match ReconFrom(raw[cursor], Slice(raw, cursor + 1, cursor + 1 + stride), previous, 0, stride)
      case Failure(e) => Failure(e)
      case Success(row) => Prepend([row], RowsFrom(raw, cursor + 1 + stride, count - 1, stride, row))
  }

  lemma PrependTwice(rows: seq<seq<byte>>, row: seq<byte>, rest: Result<seq<seq<byte>>, Error>)
    ensures Prepend(rows, Prepend([row], rest)) == Prepend(rows + [row], rest)
  {
    if rest.Success? {
      assert rows + ([row] + rest.value) == rows + [row] + rest.value;
    }
  }

  function Zeros(n: nat): (z: seq<byte>)
    ensures |z| == n && forall i :: 0 <= i < n ==> z[i] == 0
  {
    seq(n, _ => 0)
  }

  method ReconstructRows(raw: seq<byte>, height: nat, stride: nat) returns (r: Result<seq<seq<byte>>, Error>)
    ensures r == RowsFrom(raw, 0, height, stride, Zeros(stride))
  {
    var previous := new byte[stride](_ => 0);
    assert previous[..] == Zeros(stride);
    var rows, cursor := [], 0;
    ghost var all := RowsFrom(raw, 0, height, stride, Zeros(stride));
    assert all.Success? ==> [] + all.value == all.value;
    for done := 0 to height
      invariant all == Prepend(rows, RowsFrom(raw, cursor, height - done, stride, previous[..]))
    {
      if |raw| <= cursor { return Failure(OutOfData); }
      var ok, row := ReconstructAt(raw, cursor, previous, stride);
      cursor := cursor + 1 + stride;
      if !ok { return Failure(OutOfData); }
      PrependTwice(rows, row[..], RowsFrom(raw, cursor, height - done - 1, stride, row[..]));
      rows := rows + [row[..]];
      previous := row;
    }
    r := Success(rows);
    assert rows + [] == rows;
  }

  /** One scanline: its filter byte, then its bytes in a buffer of their own. */
  method ReconstructAt(raw: seq<byte>, start: nat, previous: array<byte>, stride: nat)
    returns (ok: bool, row: array<byte>)
    requires start < |raw|
    ensures ReconFrom(raw[start], Slice(raw, start + 1, start + 1 + stride), previous[..], 0, stride)
            == if ok then Success(row[..]) else Failure(OutOfData)
  {
    var filter, cursor := raw[start], start + 1;
    var source := Slice(raw, cursor, cursor + stride);
    row := new byte[|source|](i requires 0 <= i < |source| => source[i]);
    assert row[..] == source;
    ok := ReconstructRow(filter, row, previous, stride);
  }

  // ---------- the reader ----------

  type Inflate = seq<byte> -> Option<seq<byte>>

  function ReadResult(data: seq<byte>, inflate: Inflate): Result<Image, Error> {
    match Scan(data)
    case Failure(e) => Failure(e)
    case Success(Scanned(None, _)) => Failure(NoHeader)
    case Success(Scanned(Some(h), compressed)) =>
      if h.depth != 8 || h.color != 6 || h.interlace != 0 then Failure(NotRgba8)
      else if inflate(compressed).None? then Failure(BadStream)
      else
        match RowsFrom(inflate(compressed).value, 0, h.height, h.width * 4, Zeros(h.width * 4))
        case Failure(e) => Failure(e)
        case Success(rows) => Success(Image(h.width, h.height, rows))
  }

  method ReadPng(data: seq<byte>, inflate: Inflate) returns (r: Result<Image, Error>)
    ensures r == ReadResult(data, inflate)
  {
    var scanned := ScanChunks(data);
    if scanned.Failure? { return Failure(scanned.error); }
    if scanned.value.header.None? { return Failure(NoHeader); }
    var h := scanned.value.header.value;
    if h.depth != 8 || h.color != 6 || h.interlace != 0 { return Failure(NotRgba8); }
    var raw := inflate(scanned.value.compressed);
    if raw.None? { return Failure(BadStream); }
    var rows := ReconstructRows(raw.value, h.height, h.width * 4);
    if rows.Failure? { return Failure(rows.error); }
    return Success(Image(h.width, h.height, rows.value));
  }

  // ---------- encodings of an image ----------

  predicate WellFormed(image: Image) {
    && image.width < 0x1_0000_0000 && image.height < 0x1_0000_0000
    && |image.rows| == image.height
    && forall i :: 0 <= i < image.height ==> |image.rows[i]| == image.width * 4
  }

  /** Section 6.6 of RFC 2083: of the three neighbours, p is one that lies nearest to left + above - corner; ties
      go to the left neighbour first, then to the one above. */
  predicate IsPaeth(left: byte, above: byte, corner: byte, p: byte) {
    var estimate := left + above - corner;
    && (p == left || p == above || p == corner)
    && Gap(estimate, p) <= Gap(estimate, left)
    && Gap(estimate, p) <= Gap(estimate, above)
    && Gap(estimate, p) <= Gap(estimate, corner)
    && (Gap(estimate, p) == Gap(estimate, left) ==> p == left)
    && (Gap(estimate, p) == Gap(estimate, above) && Gap(estimate, p) < Gap(estimate, left) ==> p == above)
  }

  function Gap(a: int, b: int): nat {
    if a < b then b - a else a - b
  }

  /** The reader picks that neighbour, and there is only one. */
  lemma PaethIsNearest(left: byte, above: byte, corner: byte, p: byte)
    ensures IsPaeth(left, above, corner, p) <==> p == Paeth(left, above, corner)
  {
  }

  /** The encoder's neighbours: the corresponding byte of the pixel before, and the row above. */
  function LeftOf(row: seq<byte>, i: nat): byte
    requires i < |row|
  {
    if i < 4 then 0 else row[i - 4]
  }

  function Nearer(estimate: int, a: byte, b: byte): byte {
    if Gap(estimate, b) < Gap(estimate, a) then b else a
  }

  /** What the encoder subtracts, by the filter types of sections 6.2 to 6.6. */
  function Prediction(filter: byte, row: seq<byte>, previous: seq<byte>, i: nat): byte
    requires filter <= 4 && i < |row| == |previous|
  {
    match filter
    case 0 => 0
    case 1 => LeftOf(row, i)
    case 2 => previous[i]
    case 3 => (LeftOf(row, i) + previous[i]) / 2
    case _ =>
      var estimate := LeftOf(row, i) + previous[i] - LeftOf(previous, i);
      Nearer(estimate, Nearer(estimate, LeftOf(row, i), previous[i]), LeftOf(previous, i))
  }

  /** Reader and encoder predict the same, as long as the bytes before are the original ones. */
  lemma PredictionsAgree(filter: byte, row: seq<byte>, previous: seq<byte>, current: seq<byte>, i: nat)
    requires filter <= 4 && i < |row| == |previous| == |current| && current[..i] == row[..i]
    ensures Predicted(filter, current, previous, i) == Prediction(filter, row, previous, i)
  {
    assert i >= 4 ==> current[i-4] == current[..i][i-4] == row[i-4];
    if filter == 4 {
      PaethIsNearest(LeftOf(row, i), previous[i], LeftOf(previous, i), Prediction(filter, row, previous, i));
    }
  }

  /** Section 6 of RFC 2083: each byte less its predictor, modulo 256. */
  function Filtered(filter: byte, row: seq<byte>, previous: seq<byte>): (f: seq<byte>)
    requires filter <= 4 && |row| == |previous|
    ensures |f| == |row|
  {
    seq(|row|, i requires 0 <= i < |row| => (row[i] - Prediction(filter, row, previous, i)) % 256)
  }

  function Scanlines(rows: seq<seq<byte>>, filters: seq<byte>, previous: seq<byte>): seq<byte>
    requires |filters| == |rows| && forall i :: 0 <= i < |rows| ==> |rows[i]| == |previous| && filters[i] <= 4
  {
    if rows == [] then []
    else [filters[0]] + Filtered(filters[0], rows[0], previous) + Scanlines(rows[1..], filters[1..], rows[0])
  }

  datatype Chunk = Chunk(kind: seq<byte>, body: seq<byte>, crc: seq<byte>) {
    predicate Valid() {
      |kind| == 4 && |crc| == 4 && |body| < 0x1_0000_0000
    }

    function Bytes(): seq<byte>
      requires Valid()
    {
      Word(|body|) + kind + body + crc
    }
  }

  function HeaderBody(image: Image): seq<byte>
    requires WellFormed(image)
  {
    Word(image.width) + Word(image.height) + [8, 6, 0, 0, 0]
  }

  predicate ChunksValid(chunks: seq<Chunk>) {
    forall i :: 0 <= i < |chunks| ==> chunks[i].Valid()
  }

  function AllBytes(chunks: seq<Chunk>): seq<byte>
    requires ChunksValid(chunks)
  {
    if chunks == [] then [] else chunks[0].Bytes() + AllBytes(chunks[1..])
  }

  function DataOf(chunks: seq<Chunk>): seq<byte> {
    if chunks == [] then []
    else (if chunks[0].kind == IDAT then chunks[0].body else []) + DataOf(chunks[1..])
  }

  predicate HasHeader(chunks: seq<Chunk>) {
    exists i :: 0 <= i < |chunks| && chunks[i].kind == IHDR
  }

  /** Any list of chunks before the end that has the image's header, with unknown chunks anywhere
      and the compressed stream split in any way. */
  predicate Carries(chunks: seq<Chunk>, image: Image) {
    && WellFormed(image)
    && ChunksValid(chunks)
    && (forall i :: 0 <= i < |chunks| ==> chunks[i].kind != IEND)
    && (forall i :: 0 <= i < |chunks| && chunks[i].kind == IHDR ==> chunks[i].body == HeaderBody(image))
    && HasHeader(chunks)
  }

  // ---------- the round trip ----------

  lemma Restores(value: int, predictor: int)
    requires 0 <= value < 256 && 0 <= predictor < 256
    ensures ((value - predictor) % 256 + predictor) % 256 == value
  {
    if predictor <= value {
      assert (value - predictor) % 256 == value - predictor;
    } else {
      assert (value - predictor) % 256 == value - predictor + 256;
    }
  }

  lemma {:induction false} FilterInverts(filter: byte, row: seq<byte>, previous: seq<byte>, index: nat)
    requires filter <= 4 && |row| == |previous| && index <= |row|
    ensures ReconFrom(filter, row[..index] + Filtered(filter, row, previous)[index..], previous, index, |row|) ==
            Success(row)
    decreases |row| - index
  {
    var f := Filtered(filter, row, previous);
    var current := row[..index] + f[index..];
    if index == |row| {
      assert current == row;
    } else {
      var p := Prediction(filter, row, previous, index);
      PredictionsAgree(filter, row, previous, current, index);
      Restores(row[index], p);
      assert current[index := row[index]] == row[..index+1] + f[index+1..];
      FilterInverts(filter, row, previous, index + 1);
    }
  }

  /** The pass of the row loop over one readable scanline. */
  lemma RowRead(raw: seq<byte>, cursor: nat, count: nat, stride: nat, previous: seq<byte>, row: seq<byte>)
    requires count > 0 && cursor < |raw|
    requires ReconFrom(raw[cursor], Slice(raw, cursor + 1, cursor + 1 + stride), previous, 0, stride) == Success(row)
    ensures RowsFrom(raw, cursor, count, stride, previous) ==
            Prepend([row], RowsFrom(raw, cursor + 1 + stride, count - 1, stride, row))
  {
  }

  /** The first of several scanlines is read back, and the others follow it. */
  lemma ScanlineReads(raw: seq<byte>, before: seq<byte>, rows: seq<seq<byte>>, filters: seq<byte>, previous: seq<byte>)
    requires rows != [] && |filters| == |rows|
    requires forall i :: 0 <= i < |rows| ==> |rows[i]| == |previous| && filters[i] <= 4
    requires raw == before + Scanlines(rows, filters, previous)
    ensures var next := before + [filters[0]] + Filtered(filters[0], rows[0], previous);
            && raw == next + Scanlines(rows[1..], filters[1..], rows[0])
            && RowsFrom(raw, |before|, |rows|, |previous|, previous) ==
               Prepend([rows[0]], RowsFrom(raw, |next|, |rows| - 1, |previous|, rows[0]))
  {
    var f := Filtered(filters[0], rows[0], previous);
    ScanlineAt(before, filters[0], f, Scanlines(rows[1..], filters[1..], rows[0]));
    FilterInverts(filters[0], rows[0], previous, 0);
    assert rows[0][..0] + f[0..] == f;
    RowRead(raw, |before|, |rows|, |previous|, previous, rows[0]);
  }

  lemma {:induction false} ScanlinesInvert(raw: seq<byte>, before: seq<byte>, rows: seq<seq<byte>>, filters: seq<byte>,
                                           previous: seq<byte>, read: Result<seq<seq<byte>>, Error>)
    requires |filters| == |rows| && forall i :: 0 <= i < |rows| ==> |rows[i]| == |previous| && filters[i] <= 4
    requires raw == before + Scanlines(rows, filters, previous)
    requires read == RowsFrom(raw, |before|, |rows|, |previous|, previous)
    ensures read == Success(rows)
    decreases |rows|
  {
    if rows != [] {
      var next := before + [filters[0]] + Filtered(filters[0], rows[0], previous);
      ScanlineReads(raw, before, rows, filters, previous);
      ScanlinesInvert(raw, next, rows[1..], filters[1..], rows[0],
                      RowsFrom(raw, |next|, |rows| - 1, |previous|, rows[0]));
      assert rows == [rows[0]] + rows[1..];
    }
  }

  lemma ScanlineAt(before: seq<byte>, filter: byte, f: seq<byte>, rest: seq<byte>)
    ensures var raw := before + ([filter] + f + rest);
            && raw[|before|] == filter
            && Slice(raw, |before| + 1, |before| + 1 + |f|) == f
            && raw == before + [filter] + f + rest
  {
  }

  lemma HeaderUnpacks(image: Image)
    requires WellFormed(image)
    ensures UnpackHeader(HeaderBody(image)) == Some(Header(image.width, image.height, 8, 6, 0))
  {
    var b := HeaderBody(image);
    assert b[0..4] == Word(image.width) && b[4..8] == Word(image.height);
    WordIsBigEndian(image.width);
    WordIsBigEndian(image.height);
  }

  lemma SliceOf(data: seq<byte>, a: seq<byte>, x: seq<byte>, b: seq<byte>)
    requires data == a + x + b
    ensures Slice(data, |a|, |a| + |x|) == x
  {
  }

  lemma ChunkParts(a: seq<byte>, word: seq<byte>, kind: seq<byte>, body: seq<byte>, crc: seq<byte>, b: seq<byte>)
    ensures var data := a + (word + kind + body + crc) + b;
            && data == a + word + (kind + body + crc + b)
            && data == a + word + kind + (body + crc + b)
            && data == a + word + kind + body + (crc + b)
  {
  }

  /** What the reader finds at an offset is this chunk. */
  predicate ChunkAt(piece: nat -> Piece, length: nat, at: nat, c: Chunk) {
    at < length && piece(at) == Piece(c.kind, c.body, |c.body|)
  }

  predicate ChunksAt(piece: nat -> Piece, length: nat, at: nat, chunks: seq<Chunk>, end: Chunk)
    decreases |chunks|
  {
    if chunks == [] then ChunkAt(piece, length, at, end)
    else
      && ChunkAt(piece, length, at, chunks[0])
      && ChunksAt(piece, length, at + 12 + |chunks[0].body|, chunks[1..], end)
  }

  lemma ChunkParses(piece: nat -> Piece, data: seq<byte>, before: seq<byte>, c: Chunk, after: seq<byte>)
    requires PiecesOf(piece, data) && c.Valid() && data == before + c.Bytes() + after
    ensures ChunkAt(piece, |data|, |before|, c) && |c.Bytes()| == 12 + |c.body|
  {
    assert PieceIs(piece, data, |before|);
    var word := Word(|c.body|);
    ChunkParts(before, word, c.kind, c.body, c.crc, after);
    SliceOf(data, before, word, c.kind + c.body + c.crc + after);
    SliceOf(data, before + word, c.kind, c.body + c.crc + after);
    SliceOf(data, before + word + c.kind, c.body, c.crc + after);
    WordIsBigEndian(|c.body|);
  }

  function Accumulate(acc: Scanned, c: Chunk): Scanned {
    Take(acc, c.kind, c.body)
  }

  lemma Regroup(a: seq<byte>, b: seq<byte>, c: seq<byte>, d: seq<byte>, e: seq<byte>)
    ensures a + (b + c) + d + e == a + b + (c + d + e)
    ensures a + (b + c) + d + e == a + b + c + d + e
  {
  }

  lemma HasHeaderCons(chunks: seq<Chunk>)
    requires chunks != []
    ensures HasHeader(chunks) == (chunks[0].kind == IHDR || HasHeader(chunks[1..]))
  {
    if HasHeader(chunks[1..]) {
      var i :| 0 <= i < |chunks| - 1 && chunks[1..][i].kind == IHDR;
      assert chunks[i+1].kind == IHDR;
    }
    if HasHeader(chunks) && chunks[0].kind != IHDR {
      var i :| 0 <= i < |chunks| && chunks[i].kind == IHDR;
      assert chunks[1..][i-1].kind == IHDR;
    }
  }

  function Gather(acc: Scanned, chunks: seq<Chunk>): Scanned
    decreases |chunks|
  {
    if chunks == [] then acc else Gather(Accumulate(acc, chunks[0]), chunks[1..])
  }

  lemma {:induction false} ChunksParse(piece: nat -> Piece, data: seq<byte>, before: seq<byte>, chunks: seq<Chunk>,
                                       end: Chunk, tail: seq<byte>)
    requires PiecesOf(piece, data)
    requires ChunksValid(chunks) && end.Valid() && data == before + AllBytes(chunks) + end.Bytes() + tail
    ensures ChunksAt(piece, |data|, |before|, chunks, end)
    decreases |chunks|
  {
    var e := end.Bytes();
    if chunks == [] {
      assert data == before + e + tail;
      ChunkParses(piece, data, before, end, tail);
    } else {
      var c, rest := chunks[0], chunks[1..];
      var b, r := c.Bytes(), AllBytes(rest);
      Regroup(before, b, r, e, tail);
      ChunkParses(piece, data, before, c, r + e + tail);
      ChunksParse(piece, data, before + b, rest, end, tail);
    }
  }

  predicate Passed(c: Chunk) {
    c.kind != IEND && (c.kind == IHDR ==> UnpackHeader(c.body).Some?)
  }

  lemma {:induction false} ChunksScan(piece: nat -> Piece, length: nat, at: nat, chunks: seq<Chunk>, end: Chunk,
                                      acc: Scanned)
    requires ChunksAt(piece, length, at, chunks, end) && end.kind == IEND
    requires forall c :: c in chunks ==> Passed(c)
    ensures ScanFrom(piece, length, at, acc) == Success(Gather(acc, chunks))
    decreases |chunks|
  {
    if chunks != [] {
      assert Passed(chunks[0]);
      ChunksScan(piece, length, at + 12 + |chunks[0].body|, chunks[1..], end, Accumulate(acc, chunks[0]));
    }
  }

  lemma {:induction false} GatherGivesHeaderAndData(acc: Scanned, chunks: seq<Chunk>, body: seq<byte>)
    requires forall i :: 0 <= i < |chunks| && chunks[i].kind == IHDR ==> chunks[i].body == body
    ensures Gather(acc, chunks) == Scanned(if HasHeader(chunks) then UnpackHeader(body) else acc.header,
                                           acc.compressed + DataOf(chunks))
    decreases |chunks|
  {
    if chunks == [] {
      assert acc.compressed + [] == acc.compressed;
    } else {
      var c, rest := chunks[0], chunks[1..];
      HasHeaderCons(chunks);
      KindsDiffer();
      GatherGivesHeaderAndData(Accumulate(acc, c), rest, body);
      assert acc.compressed + c.body + DataOf(rest) == acc.compressed + (c.body + DataOf(rest));
      assert [] + DataOf(rest) == DataOf(rest);
    }
  }

  function Assembled(width: nat, height: nat, rows: Result<seq<seq<byte>>, Error>): Result<Image, Error> {
    match rows
    case Failure(e) => Failure(e)
    case Success(r) => Success(Image(width, height, r))
  }

  /** Of a file that carries the image's header the reader returns what the row loop makes of the inflated data,
      wherever the header and the pieces of the compressed stream stand among the chunks. */
  lemma ReadFollowsRows(signature: seq<byte>, chunks: seq<Chunk>, end: Chunk, tail: seq<byte>,
                        image: Image, raw: seq<byte>, inflate: Inflate)
    requires |signature| == 8
    requires Carries(chunks, image) && end.Valid() && end.kind == IEND
    requires inflate(DataOf(chunks)) == Some(raw)
    ensures ReadResult(signature + AllBytes(chunks) + end.Bytes() + tail, inflate) ==
            Assembled(image.width, image.height,
                      RowsFrom(raw, 0, image.height, image.width * 4, Zeros(image.width * 4)))
  {
    HeaderUnpacks(image);
    var data := signature + AllBytes(chunks) + end.Bytes() + tail;
    assert PiecesOf(Pieces(data), data);
    ChunksParse(Pieces(data), data, signature, chunks, end, tail);
    assert forall c :: c in chunks ==> Passed(c);
    ChunksScan(Pieces(data), |data|, 8, chunks, end, Scanned(None, []));
    GatherGivesHeaderAndData(Scanned(None, []), chunks, HeaderBody(image));
    assert [] + DataOf(chunks) == DataOf(chunks);
  }

  /** The reader inverts every encoding of an image: any filter type per row, any split of the
      compressed stream, any unknown chunks, anything after the end. */
  lemma ReadInvertsEncoding(signature: seq<byte>, chunks: seq<Chunk>, end: Chunk, tail: seq<byte>,
                            image: Image, filters: seq<byte>, inflate: Inflate)
    requires |signature| == 8
    requires Carries(chunks, image) && end.Valid() && end.kind == IEND
    requires |filters| == image.height && forall i :: 0 <= i < |filters| ==> filters[i] <= 4
    requires inflate(DataOf(chunks)) == Some(Scanlines(image.rows, filters, Zeros(image.width * 4)))
    ensures ReadResult(signature + AllBytes(chunks) + end.Bytes() + tail, inflate) == Success(image)
  {
    var raw := Scanlines(image.rows, filters, Zeros(image.width * 4));
    ReadFollowsRows(signature, chunks, end, tail, image, raw, inflate);
    assert raw == [] + raw;
    ScanlinesInvert(raw, [], image.rows, filters, Zeros(image.width * 4),
                    RowsFrom(raw, 0, image.height, image.width * 4, Zeros(image.width * 4)));
  }

  // ---------- the shape of what is accepted ----------

  /** A scanline is accepted exactly when what is read of it lies inside the data. */
  lemma {:induction false} ReconShape(filter: byte, row: seq<byte>, previous: seq<byte>, index: nat, stride: nat)
    requires index <= stride
    ensures ReconFrom(filter, row, previous, index, stride).Success? <==>
              index == stride || (stride <= |previous| && stride <= |row| + 4 && (1 <= filter <= 4 ==> stride <= |row|))
    decreases stride - index
  {
    if index < stride && Readable(filter, |row|, previous, index) {
      if index < |row| {
        ReconShape(filter, Reconstructed(filter, row, previous, index), previous, index + 1, stride);
      } else {
        ReconShape(filter, row, previous, index + 1, stride);
      }
    }
  }

  /** The reader accepts scanline data exactly when it is complete, or when only the last row is cut
      short, by at most four bytes, under a filter type that leaves bytes as they are. */
  predicate Acceptable(raw: seq<byte>, cursor: nat, count: nat, stride: nat) {
    var last := cursor + (count - 1) * (stride + 1);
    || count == 0
    || cursor + count * (stride + 1) <= |raw|
    || (last < |raw| && last + 1 + stride <= |raw| + 4 && !(1 <= raw[last] <= 4))
  }

  /** A complete row leaves the question to the rows after it. */
  lemma AcceptableNext(raw: seq<byte>, cursor: nat, count: nat, stride: nat)
    requires count > 1
    ensures Acceptable(raw, cursor, count, stride) <==> Acceptable(raw, cursor + 1 + stride, count - 1, stride)
    ensures cursor + 1 + stride + (count - 1) * (stride + 1) == cursor + count * (stride + 1)
    ensures Acceptable(raw, cursor, count, stride) ==> cursor + 1 + stride <= |raw|
  {
    assert cursor + 1 + stride + (count - 1) * (stride + 1) == cursor + count * (stride + 1);
    assert cursor + 1 + stride + (count - 2) * (stride + 1) == cursor + (count - 1) * (stride + 1);
    assert (count - 2) * (stride + 1) >= 0;
  }

  lemma AcceptableStart(raw: seq<byte>, cursor: nat, count: nat, stride: nat)
    requires count > 0 && Acceptable(raw, cursor, count, stride)
    ensures cursor < |raw|
  {
    assert (count - 1) * (stride + 1) >= 0;
    assert count * (stride + 1) == (count - 1) * (stride + 1) + stride + 1;
  }

  ghost predicate RowsShaped(raw: seq<byte>, cursor: nat, count: nat, stride: nat, rows: seq<seq<byte>>) {
    && |rows| == count
    && (forall i :: 0 <= i < count - 1 ==> |rows[i]| == stride)
    && (count > 0 ==> (|rows[count-1]| == stride <==> cursor + count * (stride + 1) <= |raw|))
  }

  lemma {:induction false} AcceptedRows(raw: seq<byte>, cursor: nat, count: nat, stride: nat, previous: seq<byte>)
    requires |previous| == stride
    ensures var r := RowsFrom(raw, cursor, count, stride, previous);
      && (r.Success? <==> Acceptable(raw, cursor, count, stride))
      && (r.Success? ==> RowsShaped(raw, cursor, count, stride, r.value))
    decreases count, 1
  {
    if count > 0 {
      if |raw| <= cursor {
        if Acceptable(raw, cursor, count, stride) { AcceptableStart(raw, cursor, count, stride); }
      } else {
        var r := ReconFrom(raw[cursor], Slice(raw, cursor + 1, cursor + 1 + stride), previous, 0, stride);
        if r.Success? {
          AcceptedFirst(raw, cursor, count, stride, previous, r.value);
        } else {
          FirstRow(raw, cursor, stride, previous);
          if count > 1 { AcceptableNext(raw, cursor, count, stride); }
        }
      }
    }
  }

  lemma {:induction false} AcceptedFirst(raw: seq<byte>, cursor: nat, count: nat, stride: nat, previous: seq<byte>,
                                         row: seq<byte>)
    requires |previous| == stride && count > 0 && cursor < |raw|
    requires ReconFrom(raw[cursor], Slice(raw, cursor + 1, cursor + 1 + stride), previous, 0, stride) == Success(row)
    ensures var r := RowsFrom(raw, cursor, count, stride, previous);
      && (r.Success? <==> Acceptable(raw, cursor, count, stride))
      && (r.Success? ==> RowsShaped(raw, cursor, count, stride, r.value))
    decreases count, 0
  {
    FirstRow(raw, cursor, stride, previous);
    RowRead(raw, cursor, count, stride, previous, row);
    if count > 1 {
      AcceptableNext(raw, cursor, count, stride);
      if |row| == stride {
        AcceptedRows(raw, cursor + 1 + stride, count - 1, stride, row);
      }
    }
  }

  lemma FirstRow(raw: seq<byte>, cursor: nat, stride: nat, previous: seq<byte>)
    requires |previous| == stride && cursor < |raw|
    ensures var r := ReconFrom(raw[cursor], Slice(raw, cursor + 1, cursor + 1 + stride), previous, 0, stride);
      && (r.Success? <==>
            cursor + 1 + stride <= |raw| || (cursor + 1 + stride <= |raw| + 4 && !(1 <= raw[cursor] <= 4)))
      && (r.Success? ==> (|r.value| == stride <==> cursor + 1 + stride <= |raw|))
  {
    ReconShape(raw[cursor], Slice(raw, cursor + 1, cursor + 1 + stride), previous, 0, stride);
  }
}
