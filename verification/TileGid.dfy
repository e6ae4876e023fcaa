/** Translation of GameMaker tile cells to Tiled global tile ids
    (client/scripts/sunnyside-example-importer.ts). Words are 32 bits wide; a bit is named by its
    weight, and the bitwise operators on single bits are written as arithmetic. */
module TileGid {
  import opened Wrappers

  const WORD := 0x1_0000_0000
  const EMPTY_TILE := -0x8000_0000
  const TILE_ID_SPACE := 0x1000_0000  // the local id is the low 28 bits
  const MIRROR := 0x1000_0000
  const FLIP := 0x2000_0000
  const ROTATE := 0x4000_0000
  const TILED_HORIZONTAL := 0x8000_0000
  const TILED_VERTICAL := 0x4000_0000
  const TILED_DIAGONAL := 0x2000_0000
  const GID_SPACE := 0x2000_0000      // masking with 0x1fffffff keeps the low 29 bits

  datatype UnknownTile = UnknownTile(localId: nat)

  // ---------- words ----------

  /** word & weight != 0; a negative number has the bits of its 32-bit two's complement. */
  predicate Bit(word: int, weight: int)
    requires weight > 0
  {
    word / weight % 2 == 1
  }

  /** word | weight */
  function Set(word: nat, weight: nat): nat
    requires weight > 0
  {
    if Bit(word, weight) then word else word + weight
  }

  /** word ^ weight */
  function Toggle(word: nat, weight: nat): nat
    requires weight > 0
  {
    if Bit(word, weight) then word % weight + word / weight / 2 * 2 * weight else word + weight
  }

  // ---------- the translation ----------

  function LocalId(cell: int): nat {
    cell % TILE_ID_SPACE
  }

  function MapTile(cell: int, firstgid: nat, tilecount: nat): Result<nat, UnknownTile> {
    if cell == EMPTY_TILE then Success(0)
    else if tilecount <= LocalId(cell) then Failure(UnknownTile(LocalId(cell)))
    else Success(Transform((firstgid + LocalId(cell)) % WORD, Bit(cell, ROTATE), Bit(cell, MIRROR), Bit(cell, FLIP)))
  }

  /** The flags set and toggled on a gid, in the source's order. */
  function Transform(gid: nat, rotate: bool, mirror: bool, flip: bool): nat {
    var gid := if rotate then Set(Set(gid, TILED_DIAGONAL), TILED_HORIZONTAL) else gid;
    var gid := if mirror then Toggle(gid, if rotate then TILED_VERTICAL else TILED_HORIZONTAL) else gid;
    if flip then Toggle(gid, if rotate then TILED_HORIZONTAL else TILED_VERTICAL) else gid
  }

  method MapGameMakerTile(cell: int, firstgid: nat, tilecount: nat) returns (r: Result<nat, UnknownTile>)
    ensures r == MapTile(cell, firstgid, tilecount)
  {
    if cell == EMPTY_TILE { return Success(0); }
    var localId := LocalId(cell);
    if tilecount <= localId { return Failure(UnknownTile(localId)); }
    var gid := (firstgid + localId) % WORD;
    var mirror := Bit(cell, MIRROR);
    var flip := Bit(cell, FLIP);
    var rotate := Bit(cell, ROTATE);
    if rotate { gid := Set(Set(gid, TILED_DIAGONAL), TILED_HORIZONTAL); }
    if mirror { gid := Toggle(gid, if rotate then TILED_VERTICAL else TILED_HORIZONTAL); }
    if flip { gid := Toggle(gid, if rotate then TILED_HORIZONTAL else TILED_VERTICAL); }
    return Success(gid);
  }

  // ---------- what the flags mean ----------

  datatype Point = Point(x: int, y: int)

  /** Where a pixel of an n by n tile ends up. */
  function Horizontally(n: nat, p: Point): Point { Point(n - 1 - p.x, p.y) }

  function Vertically(n: nat, p: Point): Point { Point(p.x, n - 1 - p.y) }

  function Diagonally(p: Point): Point { Point(p.y, p.x) }

  function Clockwise(n: nat, p: Point): Point { Point(n - 1 - p.y, p.x) }

  /** GameMaker: mirror, then flip, then a quarter turn clockwise. */
  function GameMakerPlaces(cell: int, n: nat, p: Point): Point {
    var p := if Bit(cell, MIRROR) then Horizontally(n, p) else p;
    var p := if Bit(cell, FLIP) then Vertically(n, p) else p;
    if Bit(cell, ROTATE) then Clockwise(n, p) else p
  }

  /** Tiled: the diagonal first, then the horizontal and the vertical flip. */
  function TiledPlaces(gid: nat, n: nat, p: Point): Point {
    var p := if Bit(gid, TILED_DIAGONAL) then Diagonally(p) else p;
    var p := if Bit(gid, TILED_HORIZONTAL) then Horizontally(n, p) else p;
    if Bit(gid, TILED_VERTICAL) then Vertically(n, p) else p
  }

  function Weight(flag: bool, weight: nat): nat {
    if flag then weight else 0
  }

  /** A tile id below the flag bits together with its three flags. */
  function Pack(id: nat, diagonal: bool, horizontal: bool, vertical: bool): nat {
    id + Weight(diagonal, TILED_DIAGONAL) + Weight(horizontal, TILED_HORIZONTAL) + Weight(vertical, TILED_VERTICAL)
  }

  lemma PackBits(id: nat, diagonal: bool, horizontal: bool, vertical: bool)
    requires id < GID_SPACE
    ensures var gid := Pack(id, diagonal, horizontal, vertical);
            && Bit(gid, TILED_DIAGONAL) == diagonal && Bit(gid, TILED_HORIZONTAL) == horizontal
            && Bit(gid, TILED_VERTICAL) == vertical && gid % GID_SPACE == id
            && Toggle(gid, TILED_HORIZONTAL) == Pack(id, diagonal, !horizontal, vertical)
            && Toggle(gid, TILED_VERTICAL) == Pack(id, diagonal, horizontal, !vertical)
  {
  }

  lemma Packed(cell: int, firstgid: nat, tilecount: nat)
    requires cell != EMPTY_TILE && MapTile(cell, firstgid, tilecount).Success?
    requires firstgid + LocalId(cell) < GID_SPACE
    ensures var turned := Bit(cell, ROTATE);
            MapTile(cell, firstgid, tilecount).value ==
            Pack(firstgid + LocalId(cell), turned,
                 if turned then !Bit(cell, FLIP) else Bit(cell, MIRROR),
                 if turned then Bit(cell, MIRROR) else Bit(cell, FLIP))
  {
    var id := firstgid + LocalId(cell);
    assert id % WORD == id;
    TransformPacks(id, Bit(cell, ROTATE), Bit(cell, MIRROR), Bit(cell, FLIP));
  }

  lemma TransformPacks(id: nat, rotate: bool, mirror: bool, flip: bool)
    requires id < GID_SPACE
    ensures Transform(id, rotate, mirror, flip) ==
            Pack(id, rotate, if rotate then !flip else mirror, if rotate then mirror else flip)
  {
    PackBits(id, false, false, false);
    if rotate {
      PackBits(id, true, false, false);
      PackBits(id, true, true, false);
      PackBits(id, true, true, mirror);
    } else {
      PackBits(id, false, mirror, false);
    }
  }

  /** Exactly the empty cell and the cells whose low 28 bits name a tile are translated; any other cell is reported with
      the tile that is missing, and the empty cell alone becomes 0. */
  lemma KnownExactly(cell: int, firstgid: nat, tilecount: nat, r: Result<nat, UnknownTile>)
    requires firstgid > 0 && firstgid + tilecount <= GID_SPACE && r == MapTile(cell, firstgid, tilecount)
    ensures r.Success? <==> cell == EMPTY_TILE || LocalId(cell) < tilecount
    ensures r.Failure? ==> r.error == UnknownTile(LocalId(cell))
    ensures r == Success(0) <==> cell == EMPTY_TILE
  {
    if cell != EMPTY_TILE && LocalId(cell) < tilecount {
      Packed(cell, firstgid, tilecount);
    }
  }

  /** A translated cell denotes the same tile under the same symmetry of the square. */
  lemma TranslationPreservesMeaning(cell: int, firstgid: nat, tilecount: nat, n: nat, p: Point)
    requires firstgid + tilecount <= GID_SPACE && cell != EMPTY_TILE
    requires MapTile(cell, firstgid, tilecount).Success?
    ensures var gid := MapTile(cell, firstgid, tilecount).value;
            && gid % GID_SPACE == firstgid + LocalId(cell)
            && TiledPlaces(gid, n, p) == GameMakerPlaces(cell, n, p)
  {
    Packed(cell, firstgid, tilecount);
    var turned := Bit(cell, ROTATE);
    PackBits(firstgid + LocalId(cell), turned,
             if turned then !Bit(cell, FLIP) else Bit(cell, MIRROR),
             if turned then Bit(cell, MIRROR) else Bit(cell, FLIP));
  }

  /** Within one tileset, two nonempty cells translate alike exactly when their low 31 bits agree. */
  lemma TranslationIsInjective(a: int, b: int, firstgid: nat, tilecount: nat)
    requires firstgid + tilecount <= GID_SPACE && a != EMPTY_TILE && b != EMPTY_TILE
    requires MapTile(a, firstgid, tilecount).Success? && MapTile(b, firstgid, tilecount).Success?
    ensures MapTile(a, firstgid, tilecount) == MapTile(b, firstgid, tilecount) <==> a % 0x8000_0000 == b % 0x8000_0000
  {
    forall c | c == a || c == b
      ensures MapTile(c, firstgid, tilecount).value ==
              Pack(firstgid + LocalId(c), Bit(c, ROTATE),
                   if Bit(c, ROTATE) then !Bit(c, FLIP) else Bit(c, MIRROR),
                   if Bit(c, ROTATE) then Bit(c, MIRROR) else Bit(c, FLIP))
      ensures c % 0x8000_0000 == LocalId(c) + Weight(Bit(c, MIRROR), MIRROR) + Weight(Bit(c, FLIP), FLIP) +
              Weight(Bit(c, ROTATE), ROTATE)
    {
      Packed(c, firstgid, tilecount);
      LowBits(c);
    }
  }

  lemma LowBits(cell: int)
    ensures cell % 0x8000_0000 == LocalId(cell) + Weight(Bit(cell, MIRROR), MIRROR) +
            Weight(Bit(cell, FLIP), FLIP) + Weight(Bit(cell, ROTATE), ROTATE)
  {
    assert cell / MIRROR / 2 == cell / FLIP && cell / FLIP / 2 == cell / ROTATE
        && cell / ROTATE / 2 == cell / 0x8000_0000;
  }
}
