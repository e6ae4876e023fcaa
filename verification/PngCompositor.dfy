/** The screenshot compositor (client/scripts/composite-png.py): main reads two screenshots, lays one over
    the other pixel by pixel and writes the result. The blend of one colour byte is a parameter. */
module PngCompositor {
  import opened Wrappers
  import opened PngCodec

  // ---------- the composition ----------

  /** foreground, its alpha, background */
  type Blend = (byte, byte, byte) -> byte

  datatype Failed = Unreadable(error: Error) | DifferentSize | PixelCut | TooLong

  /** Every pixel of the row can be blended: its four overlay bytes are there, and its three base colours. */
  predicate RowFits(base: seq<byte>, overlay: seq<byte>, width: nat) {
    width > 0 ==> width * 4 <= |overlay| && width * 4 - 1 <= |base|
  }

  predicate ByteFits(base: seq<byte>, overlay: seq<byte>, k: nat) {
    k - k % 4 + 3 < |overlay| && (k % 4 < 3 ==> k < |base|)
  }

  /** The k-th byte of a composed row: a blended colour, or full opacity. */
  function Blended(base: seq<byte>, overlay: seq<byte>, blend: Blend, k: nat): byte
    requires ByteFits(base, overlay, k)
  {
    if k % 4 == 3 then 255 else blend(overlay[k], overlay[k - k % 4 + 3], base[k])
  }

  lemma RowFitsEach(base: seq<byte>, overlay: seq<byte>, width: nat, k: nat)
    requires RowFits(base, overlay, width) && k < width * 4
    ensures ByteFits(base, overlay, k)
  {
  }

  function BlendedRow(base: seq<byte>, overlay: seq<byte>, width: nat, blend: Blend): (row: seq<byte>)
    requires RowFits(base, overlay, width)
    ensures |row| == width * 4
  {
    seq(width * 4, k requires 0 <= k < width * 4 =>
      RowFitsEach(base, overlay, width, k); Blended(base, overlay, blend, k))
  }

  predicate Shaped(image: Image) {
    image.width < 0x1_0000_0000 && image.height < 0x1_0000_0000 && |image.rows| == image.height
  }

  predicate Fits(base: Image, overlay: Image)
    requires Shaped(base) && Shaped(overlay) && base.height == overlay.height
  {
    forall y :: 0 <= y < base.height ==> RowFits(base.rows[y], overlay.rows[y], base.width)
  }

  function Composition(base: Image, overlay: Image, blend: Blend): (image: Image)
    requires Shaped(base) && Shaped(overlay) && base.height == overlay.height && Fits(base, overlay)
    ensures WellFormed(image)
  {
    Image(base.width, base.height,
          seq(base.height, y requires 0 <= y < base.height =>
            BlendedRow(base.rows[y], overlay.rows[y], base.width, blend)))
  }

  function PixelOf(foreground: seq<byte>, background: seq<byte>, blend: Blend): seq<byte>
    requires |foreground| == 4 && |background| >= 3
  {
    [blend(foreground[0], foreground[3], background[0]), blend(foreground[1], foreground[3], background[1]),
     blend(foreground[2], foreground[3], background[2]), 255]
  }

  lemma PixelBlends(base: seq<byte>, overlay: seq<byte>, blend: Blend, x: nat, i: nat)
    requires i < 4 && x * 4 + 4 <= |overlay| && x * 4 + 3 <= |base|
    ensures ByteFits(base, overlay, x * 4 + i)
    ensures PixelOf(Slice(overlay, x * 4, x * 4 + 4), Slice(base, x * 4, x * 4 + 4), blend)[i]
            == Blended(base, overlay, blend, x * 4 + i)
  {
    Quad(x, i);
    var foreground, background := Slice(overlay, x * 4, x * 4 + 4), Slice(base, x * 4, x * 4 + 4);
    assert foreground[3] == overlay[x * 4 + 3] && foreground[i] == overlay[x * 4 + i];
    if i < 3 {
      assert background[i] == base[x * 4 + i];
    }
  }

  lemma Quad(x: nat, i: nat)
    requires i < 4
    ensures (x * 4 + i) % 4 == i
  {
  }

  /** The pixel loop of one row. */
  method AppendRow(raw: seq<byte>, base: seq<byte>, overlay: seq<byte>, width: nat, blend: Blend)
    returns (extended: Option<seq<byte>>)
    ensures extended.Some? <==> RowFits(base, overlay, width)
    ensures extended.Some? ==> extended.value == raw + BlendedRow(base, overlay, width, blend)
  {
    var pixels: seq<byte> := [];
    for x := 0 to width
      invariant |pixels| == x * 4 && RowFits(base, overlay, x)
      invariant forall k :: 0 <= k < x * 4 ==>
                  ByteFits(base, overlay, k) && pixels[k] == Blended(base, overlay, blend, k)
    {
      var foreground, background := Slice(overlay, x * 4, x * 4 + 4), Slice(base, x * 4, x * 4 + 4);
      if |foreground| < 4 || |background| < 3 { return None; }
      ghost var before := pixels;
      pixels := pixels + PixelOf(foreground, background, blend);
      forall k | 0 <= k < x * 4 + 4
        ensures ByteFits(base, overlay, k) && pixels[k] == Blended(base, overlay, blend, k)
      {
        if k < x * 4 {
          assert pixels[k] == before[k];
        } else {
          PixelBlends(base, overlay, blend, x, k - x * 4);
        }
      }
    }
    assert pixels == BlendedRow(base, overlay, width, blend);
    return Some(raw + pixels);
  }

  // ---------- the file ----------

  function MakeChunk(kind: seq<byte>, body: seq<byte>, crc32: seq<byte> -> nat): Chunk {
    Chunk(kind, body, Word(crc32(kind + body) % 0x1_0000_0000))
  }

  function WriterChunks(image: Image, compressed: seq<byte>, crc32: seq<byte> -> nat): (chunks: seq<Chunk>)
    requires WellFormed(image) && |compressed| < 0x1_0000_0000
    ensures ChunksValid(chunks)
  {
    [MakeChunk(IHDR, HeaderBody(image), crc32), MakeChunk(IDAT, compressed, crc32), MakeChunk(IEND, [], crc32)]
  }

  /** The scanlines that main hands to zlib. */
  function Raw(image: Image): seq<byte>
    requires WellFormed(image)
  {
    Scanlines(image.rows, Zeros(image.height), Zeros(image.width * 4))
  }

  lemma ThreeChunks(a: Chunk, b: Chunk, c: Chunk)
    requires a.Valid() && b.Valid() && c.Valid()
    ensures AllBytes([a, b, c]) == a.Bytes() + b.Bytes() + c.Bytes()
  {
    assert [a, b, c][1..] == [b, c] && [b, c][1..] == [c] && [c][1..] == [];
    assert AllBytes([c]) == c.Bytes();
    assert AllBytes([b, c]) == b.Bytes() + AllBytes([c]);
    assert AllBytes([a, b, c]) == a.Bytes() + AllBytes([b, c]);
  }

  function Unfiltered(rows: seq<seq<byte>>): seq<byte> {
    if rows == [] then [] else [0] + rows[0] + Unfiltered(rows[1..])
  }

  lemma {:induction false} UnfilteredScanlines(rows: seq<seq<byte>>, previous: seq<byte>)
    requires forall i :: 0 <= i < |rows| ==> |rows[i]| == |previous|
    ensures Unfiltered(rows) == Scanlines(rows, Zeros(|rows|), previous)
    decreases |rows|
  {
    if rows != [] {
      assert Filtered(0, rows[0], previous) == rows[0];
      assert Zeros(|rows|)[1..] == Zeros(|rows|-1);
      UnfilteredScanlines(rows[1..], rows[0]);
    }
  }

  lemma {:induction false} UnfilteredSnoc(rows: seq<seq<byte>>, row: seq<byte>)
    ensures Unfiltered(rows + [row]) == Unfiltered(rows) + [0] + row
    decreases |rows|
  {
    if rows == [] {
      assert [row][1..] == [] && [0] + row + [] == [] + [0] + row;
    } else {
      UnfilteredSnoc(rows[1..], row);
      assert (rows + [row])[1..] == rows[1..] + [row];
      assert [0] + rows[0] + (Unfiltered(rows[1..]) + [0] + row) == [0] + rows[0] + Unfiltered(rows[1..]) + [0] + row;
    }
  }

  /** The reader inverts the writer whenever inflate inverts deflate on the written scanlines. */
  lemma ReadInvertsWrite(image: Image, deflate: seq<byte> -> seq<byte>, inflate: Inflate, crc32: seq<byte> -> nat)
    requires WellFormed(image)
    requires |deflate(Raw(image))| < 0x1_0000_0000 && inflate(deflate(Raw(image))) == Some(Raw(image))
    ensures ReadResult(SIGNATURE + AllBytes(WriterChunks(image, deflate(Raw(image)), crc32)), inflate) == Success(image)
  {
    var compressed := deflate(Raw(image));
    var written := WriterChunks(image, compressed, crc32);
    var header, data, end := written[0], written[1], written[2];
    WriterCarries(image, compressed, crc32);
    ReadInvertsEncoding(SIGNATURE, [header, data], end, [], image, Zeros(image.height), inflate);
    assert SIGNATURE + AllBytes([header, data]) + end.Bytes() + [] == SIGNATURE + AllBytes(written);
  }

  lemma WriterCarries(image: Image, compressed: seq<byte>, crc32: seq<byte> -> nat)
    requires WellFormed(image) && |compressed| < 0x1_0000_0000
    ensures var w := WriterChunks(image, compressed, crc32);
            && Carries([w[0], w[1]], image) && DataOf([w[0], w[1]]) == compressed
            && AllBytes(w) == AllBytes([w[0], w[1]]) + w[2].Bytes()
  {
    var w := WriterChunks(image, compressed, crc32);
    var chunks := [w[0], w[1]];
    assert chunks[1..] == [w[1]] && [w[1]][1..] == [];
    assert DataOf([w[1]]) == compressed + [];
    assert chunks[0].kind == IHDR;
    ThreeChunks(w[0], w[1], w[2]);
    assert AllBytes([w[1]]) == w[1].Bytes() + [];
    assert w == [w[0], w[1], w[2]];
  }

  /** Sections 3.1, 3.2 and 3.4 of RFC 2083: the file is the signature and a header, a data and an end chunk, each with
      its length before and the CRC of its kind and body after it. */
  lemma FileConforms(image: Image, compressed: seq<byte>, crc32: seq<byte> -> nat)
    requires WellFormed(image) && |compressed| < 0x1_0000_0000
    ensures SIGNATURE == [137, 80, 78, 71, 13, 10, 26, 10]
    ensures AllBytes(WriterChunks(image, compressed, crc32)) ==
            Framed([73, 72, 68, 82], HeaderBody(image), crc32) + Framed([73, 68, 65, 84], compressed, crc32) +
            Framed([73, 69, 78, 68], [], crc32)
  {
    var w := WriterChunks(image, compressed, crc32);
    ThreeChunks(w[0], w[1], w[2]);
  }

  function Framed(kind: seq<byte>, body: seq<byte>, crc32: seq<byte> -> nat): seq<byte>
    requires |body| < 0x1_0000_0000
  {
    Word(|body|) + kind + body + Word(crc32(kind + body) % 0x1_0000_0000)
  }

  // ---------- main ----------

  /** The file of an image: filter type 0 throughout, one IDAT chunk. */
  function File(image: Image, deflate: seq<byte> -> seq<byte>, crc32: seq<byte> -> nat): seq<byte>
    requires WellFormed(image) && |deflate(Raw(image))| < 0x1_0000_0000
  {
    SIGNATURE + AllBytes(WriterChunks(image, deflate(Raw(image)), crc32))
  }

  function CompositeFile(base: Image, overlay: Image, blend: Blend, deflate: seq<byte> -> seq<byte>,
                         crc32: seq<byte> -> nat)
    : Result<seq<byte>, Failed>
    requires Shaped(base) && Shaped(overlay)
  {
    if base.width != overlay.width || base.height != overlay.height then Failure(DifferentSize)
    else if !Fits(base, overlay) then Failure(PixelCut)
    else if |deflate(Raw(Composition(base, overlay, blend)))| >= 0x1_0000_0000 then Failure(TooLong)
    else Success(File(Composition(base, overlay, blend), deflate, crc32))
  }

  /** The loop over the rows: filter byte, then the row's pixels. */
  method AppendRows(base: Image, overlay: Image, blend: Blend) returns (raw: Option<seq<byte>>)
    requires Shaped(base) && Shaped(overlay) && base.width == overlay.width && base.height == overlay.height
    ensures raw.Some? <==> Fits(base, overlay)
    ensures raw.Some? ==> raw.value == Raw(Composition(base, overlay, blend))
  {
    var bytes: seq<byte> := [];
    ghost var rows: seq<seq<byte>> := [];
    for y := 0 to base.height
      invariant |rows| == y && bytes == Unfiltered(rows)
      invariant forall j :: 0 <= j < y ==> RowFits(base.rows[j], overlay.rows[j], base.width)
      invariant forall j :: 0 <= j < y ==> rows[j] == BlendedRow(base.rows[j], overlay.rows[j], base.width, blend)
    {
      var extended := AppendRow(bytes + [0], base.rows[y], overlay.rows[y], base.width, blend);
      if extended.None? { return None; }
      ghost var row := BlendedRow(base.rows[y], overlay.rows[y], base.width, blend);
      UnfilteredSnoc(rows, row);
      bytes, rows := extended.value, rows + [row];
    }
    assert rows == Composition(base, overlay, blend).rows;
    UnfilteredScanlines(rows, Zeros(base.width * 4));
    return Some(bytes);
  }

  /** main, once both files have been read. */
  method Composite(base: Image, overlay: Image, blend: Blend, deflate: seq<byte> -> seq<byte>, crc32: seq<byte> -> nat)
    returns (r: Result<seq<byte>, Failed>)
    requires Shaped(base) && Shaped(overlay)
    ensures r == CompositeFile(base, overlay, blend, deflate, crc32)
  {
    if (base.width, base.height) != (overlay.width, overlay.height) { return Failure(DifferentSize); }
    var raw := AppendRows(base, overlay, blend);
    if raw.None? { return Failure(PixelCut); }
    var compressed := deflate(raw.value);
    if |compressed| >= 0x1_0000_0000 { return Failure(TooLong); }
    ghost var image := Composition(base, overlay, blend);
    var header := MakeChunk(IHDR, Word(base.width) + Word(base.height) + [8, 6, 0, 0, 0], crc32);
    var data := MakeChunk(IDAT, compressed, crc32);
    var end := MakeChunk(IEND, [], crc32);
    ThreeChunks(header, data, end);
    assert [header, data, end] == WriterChunks(image, compressed, crc32);
    return Success(SIGNATURE + (header.Bytes() + data.Bytes() + end.Bytes()));
  }

  /** What the reader returns has the header's shape. */
  lemma ReadShaped(data: seq<byte>, inflate: Inflate)
    requires ReadResult(data, inflate).Success?
    ensures Shaped(ReadResult(data, inflate).value)
  {
    ScannedSize(Pieces(data), |data|, 8, Scanned(None, []));
    var h := Scan(data).value;
    var raw := inflate(h.compressed).value;
    AcceptedRows(raw, 0, h.header.value.height, h.header.value.width * 4, Zeros(h.header.value.width * 4));
  }

  predicate Sized(acc: Scanned) {
    acc.header.Some? ==> acc.header.value.width < 0x1_0000_0000 && acc.header.value.height < 0x1_0000_0000
  }

  lemma {:induction false} ScannedSize(piece: nat -> Piece, length: nat, offset: nat, acc: Scanned)
    requires Sized(acc) && ScanFrom(piece, length, offset, acc).Success?
    ensures Sized(ScanFrom(piece, length, offset, acc).value)
    decreases length - offset
  {
    if offset < length {
      var p := piece(offset);
      if p.kind != IEND {
        ScannedSize(piece, length, offset + 12 + p.size, Take(acc, p.kind, p.body));
      }
    }
  }

  /** The whole of main: two files in, one file out. */
  method ComposeFiles(baseData: seq<byte>, overlayData: seq<byte>, inflate: Inflate, blend: Blend,
                      deflate: seq<byte> -> seq<byte>, crc32: seq<byte> -> nat)
    returns (r: Result<seq<byte>, Failed>)
    ensures match (ReadResult(baseData, inflate), ReadResult(overlayData, inflate))
            case (Failure(e), _) => r == Failure(Unreadable(e))
            case (Success(_), Failure(e)) => r == Failure(Unreadable(e))
            case (Success(base), Success(overlay)) =>
              && Shaped(base) && Shaped(overlay) && r == CompositeFile(base, overlay, blend, deflate, crc32)
  {
    var base := ReadPng(baseData, inflate);
    if base.Failure? { return Failure(Unreadable(base.error)); }
    var overlay := ReadPng(overlayData, inflate);
    if overlay.Failure? { return Failure(Unreadable(overlay.error)); }
    ReadShaped(baseData, inflate);
    ReadShaped(overlayData, inflate);
    r := Composite(base.value, overlay.value, blend, deflate, crc32);
  }

  /** Two complete screenshots of one size are always composed, as long as the result fits one chunk; reading
      the file returns the composition, and each of its pixels is the blend of the two under full opacity. */
  lemma CompositionReadsBack(base: Image, overlay: Image, blend: Blend, deflate: seq<byte> -> seq<byte>,
                             inflate: Inflate, crc32: seq<byte> -> nat)
    requires WellFormed(base) && WellFormed(overlay) && base.width == overlay.width && base.height == overlay.height
    ensures Fits(base, overlay)
    ensures var image, file := Composition(base, overlay, blend), CompositeFile(base, overlay, blend, deflate, crc32);
            |deflate(Raw(image))| < 0x1_0000_0000 && inflate(deflate(Raw(image))) == Some(Raw(image)) ==>
              file.Success? && ReadResult(file.value, inflate) == Success(image)
    ensures forall y: nat, x: nat | y < base.height && x < base.width ::
              PixelIsBlended(base, overlay, blend, Composition(base, overlay, blend), y, x)
  {
    var image := Composition(base, overlay, blend);
    if |deflate(Raw(image))| < 0x1_0000_0000 && inflate(deflate(Raw(image))) == Some(Raw(image)) {
      ReadInvertsWrite(image, deflate, inflate, crc32);
    }
    forall y: nat, x: nat | y < base.height && x < base.width
      ensures PixelIsBlended(base, overlay, blend, image, y, x)
    {
      PixelsAreBlended(base, overlay, blend, y, x);
    }
  }

  /** The x-th pixel of row y of an image is the blend of its three colours, fully opaque. */
  predicate PixelIsBlended(base: Image, overlay: Image, blend: Blend, image: Image, y: nat, x: nat)
    requires WellFormed(base) && WellFormed(overlay) && WellFormed(image)
    requires base.width == overlay.width == image.width && base.height == overlay.height == image.height
    requires y < base.height && x < base.width
  {
    var over, under, row, k := overlay.rows[y], base.rows[y], image.rows[y], x * 4;
    && row[k] == blend(over[k], over[k+3], under[k])
    && row[k+1] == blend(over[k+1], over[k+3], under[k+1])
    && row[k+2] == blend(over[k+2], over[k+3], under[k+2])
    && row[k+3] == 255
  }

  lemma PixelsAreBlended(base: Image, overlay: Image, blend: Blend, y: nat, x: nat)
    requires WellFormed(base) && WellFormed(overlay) && base.width == overlay.width && base.height == overlay.height
    requires y < base.height && x < base.width
    ensures Fits(base, overlay) && PixelIsBlended(base, overlay, blend, Composition(base, overlay, blend), y, x)
  {
    Quad(x, 0);
    Quad(x, 1);
    Quad(x, 2);
    Quad(x, 3);
  }

  /** The reader takes a file for a one-pixel image although its only row is cut off after the filter byte. */
  lemma CutRowIsRead(compressed: seq<byte>, inflate: Inflate, crc32: seq<byte> -> nat)
    requires |compressed| < 0x1_0000_0000 && inflate(compressed) == Some([0])
    ensures var pixel := Image(1, 1, [[0, 0, 0, 0]]);
            WellFormed(pixel) &&
            ReadResult(SIGNATURE + AllBytes(WriterChunks(pixel, compressed, crc32)), inflate)
            == Success(Image(1, 1, [[]]))
  {
    var pixel := Image(1, 1, [[0, 0, 0, 0]]);
    WrittenFollowsRows(pixel, compressed, [0], inflate, crc32);
    CutRow();
  }

  lemma WrittenFollowsRows(image: Image, compressed: seq<byte>, raw: seq<byte>, inflate: Inflate,
                           crc32: seq<byte> -> nat)
    requires WellFormed(image) && |compressed| < 0x1_0000_0000 && inflate(compressed) == Some(raw)
    ensures ReadResult(SIGNATURE + AllBytes(WriterChunks(image, compressed, crc32)), inflate) ==
            Assembled(image.width, image.height,
                      RowsFrom(raw, 0, image.height, image.width * 4, Zeros(image.width * 4)))
  {
    var w := WriterChunks(image, compressed, crc32);
    WriterCarries(image, compressed, crc32);
    ReadFollowsRows(SIGNATURE, [w[0], w[1]], w[2], [], image, raw, inflate);
    assert SIGNATURE + AllBytes([w[0], w[1]]) + w[2].Bytes() + [] == SIGNATURE + AllBytes(w);
  }

  lemma CutRow()
    ensures RowsFrom([0], 0, 1, 4, Zeros(4)) == Success([[]])
  {
    var raw: seq<byte>, empty: seq<byte> := [0], [];
    assert Slice(raw, 1, 5) == empty;
    ReconShape(0, empty, Zeros(4), 0, 4);
    assert ReconFrom(0, empty, Zeros(4), 0, 4).value == empty;
    RowRead(raw, 0, 1, 4, Zeros(4), empty);
    var none: seq<seq<byte>> := [];
    assert RowsFrom(raw, 5, 0, 4, empty) == Success(none) && [empty] + none == [empty];
  }
}
