/** Building the reference map's tile layers (client/scripts/sunnyside-example-importer.ts). */
module TileMap {
  import opened Wrappers
  import opened TileGid
  import TileRle

  datatype Error =
    | Undecodable(rle: TileRle.Error)
    | InvalidData
    | Unknown(tile: UnknownTile)

  /** The two source sheets; their tiles are 16 and 32 pixels wide on a 16 pixel grid. */
  datatype Sheet = World | Forest {
    function Scale(): nat { if World? then 1 else 2 }
  }

  datatype SourceLayer = SourceLayer(sheet: Sheet, width: nat, height: nat,
                                     compressed: Option<seq<int>>, plain: Option<seq<int>>)

  /** The cells of a layer: decoded if it is compressed, otherwise as stored. */
  ghost function CellsOf(layer: SourceLayer): Result<seq<int>, Error> {
    var cells := if layer.compressed.Some? then
                   var runs := TileRle.Parse(layer.compressed.value);
                   if runs.Failure? then Failure(Undecodable(runs.error))
                   else if |TileRle.Expand(runs.value)| != layer.width * layer.height
                   then Failure(Undecodable(TileRle.WrongCount(|TileRle.Expand(runs.value)|)))
                   else Success(TileRle.Expand(runs.value))
                 else if layer.plain.Some? then Success(layer.plain.value) else Failure(InvalidData);
    if cells.Success? && |cells.value| != layer.width * layer.height then Failure(InvalidData) else cells
  }

  /** A layer has cells exactly if there are as many as its size asks for: those its compressed data decode to, or, if
      it is not compressed, those stored. */
  lemma CellsExactly(layer: SourceLayer, cells: seq<int>)
    ensures CellsOf(layer) == Success(cells) <==>
      && |cells| == layer.width * layer.height
      && if layer.compressed.Some? then
           TileRle.Parse(layer.compressed.value).Success?
           && TileRle.Expand(TileRle.Parse(layer.compressed.value).value) == cells
         else layer.plain == Some(cells)
  {
  }

  method ReadCells(layer: SourceLayer) returns (r: Result<seq<int>, Error>)
    ensures r == CellsOf(layer)
  {
    var cells: seq<int>;
    if layer.compressed.Some? {
      var decoded := TileRle.DecodeTileData(layer.compressed.value, layer.width * layer.height);
      if decoded.Failure? { return Failure(Undecodable(decoded.error)); }
      cells := decoded.value;
    } else if layer.plain.Some? {
      cells := layer.plain.value;
    } else {
      return Failure(InvalidData);
    }
    if |cells| != layer.width * layer.height { return Failure(InvalidData); }
    return Success(cells);
  }

  // ---------- where a source cell goes ----------

  /** A source grid of width by height cells, each scale map tiles wide, on a map roomWidth tiles wide. */
  datatype Grid = Grid(width: nat, height: nat, scale: nat, roomWidth: nat, roomHeight: nat) {
    predicate Fits() {
      scale > 0 && width * scale <= roomWidth && height * scale <= roomHeight
    }
  }

  datatype Cell = Cell(x: nat, y: nat)

  predicate Inside(g: Grid, c: Cell) {
    c.x < g.width && c.y < g.height
  }

  function Destination(g: Grid, c: Cell): nat {
    c.y * g.scale * g.roomWidth + c.x * g.scale
  }

  /** The source cell placed at a map index, if there is one. */
  function SourceAt(g: Grid, index: nat): Option<Cell>
    requires g.scale > 0 && g.roomWidth > 0
  {
    var x, y := index % g.roomWidth, index / g.roomWidth;
    if x % g.scale == 0 && y % g.scale == 0 && Inside(g, Cell(x / g.scale, y / g.scale))
    then Some(Cell(x / g.scale, y / g.scale)) else None
  }

  lemma Above(k: int, d: nat)
    requires k >= 1
    ensures k * d >= d
  {
    assert (k - 1) * d >= 0;
  }

  lemma Below(k: int, d: nat)
    requires k <= -1
    ensures k * d <= -(d as int)
  {
    assert (k + 1) * d <= 0;
  }

  lemma Pinned(k: int, d: nat)
    requires -(d as int) < k * d < d
    ensures k == 0
  {
    if k >= 1 {
      Above(k, d);
    } else if k <= -1 {
      Below(k, d);
    }
  }

  lemma DivMod(q: nat, d: nat, r: nat)
    requires r < d
    ensures (q * d + r) / d == q && (q * d + r) % d == r
  {
    var n := q * d + r;
    var k := n / d - q;
    assert n == n / d * d + n % d;
    assert k * d == n / d * d - q * d;
    Pinned(k, d);
  }

  lemma {:induction false} Scaled(a: nat, b: nat, s: nat)
    requires a < b
    ensures a * s + s <= b * s
    decreases b
  {
    if a + 1 < b {
      Scaled(a, b - 1, s);
    }
    assert b * s == (b - 1) * s + s;
  }

  /** Source cells and the map indices they occupy correspond one to one. */
  lemma PlacementIsInjective(g: Grid, c: Cell)
    requires g.Fits() && Inside(g, c)
    ensures Destination(g, c) < g.roomWidth * g.roomHeight
    ensures SourceAt(g, Destination(g, c)) == Some(c)
    ensures forall index: nat :: SourceAt(g, index) == Some(c) ==> index == Destination(g, c)
  {
    Scaled(c.x, g.width, g.scale);
    Scaled(c.y, g.height, g.scale);
    var x, y := c.x * g.scale, c.y * g.scale;
    DivMod(y, g.roomWidth, x);
    DivMod(c.x, g.scale, 0);
    DivMod(c.y, g.scale, 0);
    assert Destination(g, c) == y * g.roomWidth + x;
    Scaled(y, g.roomHeight, g.roomWidth);
    forall index: nat | SourceAt(g, index) == Some(c) ensures index == Destination(g, c) {
      OnlyDestination(g, c, index);
    }
  }

  lemma OnlyDestination(g: Grid, c: Cell, index: nat)
    requires g.scale > 0 && g.roomWidth > 0 && SourceAt(g, index) == Some(c)
    ensures index == Destination(g, c)
  {
    var i, j := index % g.roomWidth, index / g.roomWidth;
    assert index == j * g.roomWidth + i;
    assert i == i / g.scale * g.scale + i % g.scale && j == j / g.scale * g.scale + j % g.scale;
  }

  // ---------- one layer ----------

  function CellIndex(g: Grid, c: Cell): (i: nat)
    requires Inside(g, c)
    ensures i < g.width * g.height
  {
    Scaled(c.y, g.height, g.width);
    c.y * g.width + c.x
  }

  /** Placement keeps the grid: the corner stays the corner, and what is to the right of or below a cell in the source,
      row by row, is one scaled step to the right of or below it in the map. */
  lemma NeighboursStayNeighbours(g: Grid, c: Cell)
    requires g.Fits() && Inside(g, c)
    ensures c == Cell(0, 0) ==> CellIndex(g, c) == 0 && Destination(g, c) == 0
    ensures var right := Cell(c.x + 1, c.y);
      && Destination(g, right) == Destination(g, c) + g.scale
      && (Inside(g, right) ==> CellIndex(g, right) == CellIndex(g, c) + 1)
    ensures var below := Cell(c.x, c.y + 1);
      && Destination(g, below) == Destination(g, c) + g.scale * g.roomWidth
      && (Inside(g, below) ==> CellIndex(g, below) == CellIndex(g, c) + g.width)
  {
    Sum(c.x, 1, g.scale);
    Sum(c.y, 1, g.scale);
    Sum(c.y * g.scale, g.scale, g.roomWidth);
    Sum(c.y, 1, g.width);
  }

  lemma Sum(a: nat, b: nat, d: nat)
    ensures (a + b) * d == a * d + b * d
  {
  }

  predicate Before(a: Cell, b: Cell) {
    a.y < b.y || (a.y == b.y && a.x < b.x)
  }

  /** The gid at a map index when the source cells before `end` have been placed. */
  function GidAt(g: Grid, cells: seq<int>, firstgid: nat, tilecount: nat, end: Cell, index: nat): nat
    requires g.scale > 0 && g.roomWidth > 0 && |cells| == g.width * g.height
  {
    var source := SourceAt(g, index);
    if source.None? || !Before(source.value, end) then 0
    else
      var gid := MapTile(cells[CellIndex(g, source.value)], firstgid, tilecount);
      if gid.Success? then gid.value else 0
  }

  ghost predicate AllKnown(g: Grid, cells: seq<int>, firstgid: nat, tilecount: nat, end: Cell)
    requires |cells| == g.width * g.height
  {
    forall x: nat, y: nat :: Inside(g, Cell(x, y)) && Before(Cell(x, y), end) ==>
      MapTile(cells[CellIndex(g, Cell(x, y))], firstgid, tilecount).Success?
  }

  ghost predicate Filled(g: Grid, cells: seq<int>, firstgid: nat, tilecount: nat, end: Cell, data: seq<nat>)
    requires g.scale > 0 && |cells| == g.width * g.height
  {
    && |data| == g.roomWidth * g.roomHeight
    && forall i :: 0 <= i < |data| ==> g.roomWidth > 0 && data[i] == GidAt(g, cells, firstgid, tilecount, end, i)
  }

  /** c is the first cell, row by row, whose tile the tileset does not have. */
  ghost predicate FirstUnknown(g: Grid, cells: seq<int>, firstgid: nat, tilecount: nat, c: Cell, error: Error)
    requires |cells| == g.width * g.height
  {
    && Inside(g, c)
    && AllKnown(g, cells, firstgid, tilecount, c)
    && MapTile(cells[CellIndex(g, c)], firstgid, tilecount).Failure?
    && error == Unknown(MapTile(cells[CellIndex(g, c)], firstgid, tilecount).error)
  }

  /** One cell: its translated gid goes to its destination, unless the tileset does not have the tile. */
  method PlaceCell(g: Grid, cells: seq<int>, firstgid: nat, tilecount: nat, c: Cell, output: array<nat>)
    returns (unknown: Option<UnknownTile>)
    requires g.Fits() && g.roomWidth > 0 && |cells| == g.width * g.height && Inside(g, c)
    requires Filled(g, cells, firstgid, tilecount, c, output[..]) && AllKnown(g, cells, firstgid, tilecount, c)
    modifies output
    ensures unknown.Some? ==> FirstUnknown(g, cells, firstgid, tilecount, c, Unknown(unknown.value))
    ensures unknown.None? ==> Filled(g, cells, firstgid, tilecount, Cell(c.x + 1, c.y), output[..])
    ensures unknown.None? ==> AllKnown(g, cells, firstgid, tilecount, Cell(c.x + 1, c.y))
  {
    PlacementIsInjective(g, c);
    var gid := MapGameMakerTile(cells[CellIndex(g, c)], firstgid, tilecount);
    if gid.Failure? { return Some(gid.error); }
    output[Destination(g, c)] := gid.value;
    return None;
  }

  method PlaceCells(g: Grid, cells: seq<int>, firstgid: nat, tilecount: nat)
    returns (r: Result<seq<nat>, Error>)
    requires g.Fits() && |cells| == g.width * g.height
    ensures r.Success? <==> AllKnown(g, cells, firstgid, tilecount, Cell(0, g.height))
    ensures r.Success? ==> Filled(g, cells, firstgid, tilecount, Cell(0, g.height), r.value)
    ensures r.Failure? ==> exists c :: FirstUnknown(g, cells, firstgid, tilecount, c, r.error)
  {
    var output := new nat[g.roomWidth * g.roomHeight](_ => 0);
    if g.roomWidth == 0 {
      assert output.Length == 0;
      assert g.width == 0 by { if g.width > 0 { Scaled(0, g.width, g.scale); } }
      return Success([]);
    }
    for y := 0 to g.height
      invariant Filled(g, cells, firstgid, tilecount, Cell(0, y), output[..])
      invariant AllKnown(g, cells, firstgid, tilecount, Cell(0, y))
    {
      for x := 0 to g.width
        invariant Filled(g, cells, firstgid, tilecount, Cell(x, y), output[..])
        invariant AllKnown(g, cells, firstgid, tilecount, Cell(x, y))
      {
        var unknown := PlaceCell(g, cells, firstgid, tilecount, Cell(x, y), output);
        if unknown.Some? { return Failure(Unknown(unknown.value)); }
      }
    }
    return Success(output[..]);
  }

  method TileLayerData(layer: SourceLayer, roomWidth: nat, roomHeight: nat, firstgid: nat, tilecount: nat)
    returns (r: Result<seq<nat>, Error>)
    requires layer.width * layer.sheet.Scale() <= roomWidth && layer.height * layer.sheet.Scale() <= roomHeight
    ensures CellsOf(layer).Failure? ==> r == Failure(CellsOf(layer).error)
    ensures r.Success? ==> LayerPlaced(layer, CellsOf(layer).value, roomWidth, roomHeight, firstgid, tilecount, r.value)
    ensures CellsOf(layer).Success? ==>
              (r.Success? <==>
                 forall cell :: cell in CellsOf(layer).value ==> MapTile(cell, firstgid, tilecount).Success?)
  {
    var cells := ReadCells(layer);
    if cells.Failure? { return Failure(cells.error); }
    var g := Grid(layer.width, layer.height, layer.sheet.Scale(), roomWidth, roomHeight);
    r := PlaceCells(g, cells.value, firstgid, tilecount);
    KnownMeansMapped(g, cells.value, firstgid, tilecount);
    if r.Success? { PlacedMeans(g, cells.value, firstgid, tilecount, r.value); }
  }

  /** The layer has one entry per map tile; each source cell's translation sits at its own index, and
      every other entry is 0. */
  ghost predicate LayerPlaced(layer: SourceLayer, cells: seq<int>, roomWidth: nat, roomHeight: nat,
                              firstgid: nat, tilecount: nat, data: seq<nat>)
  {
    var g := Grid(layer.width, layer.height, layer.sheet.Scale(), roomWidth, roomHeight);
    && |cells| == g.width * g.height
    && |data| == roomWidth * roomHeight
    && (forall x: nat, y: nat :: Inside(g, Cell(x, y)) ==>
          && Destination(g, Cell(x, y)) < |data|
          && MapTile(cells[CellIndex(g, Cell(x, y))], firstgid, tilecount) == Success(data[Destination(g, Cell(x, y))]))
    && (forall i :: 0 <= i < |data| && data[i] != 0 ==> exists c: Cell :: Inside(g, c) && Destination(g, c) == i)
  }

  lemma RowOf(i: nat, width: nat, height: nat)
    requires i < width * height
    ensures width > 0 && i / width < height
  {
    if width > 0 && height <= i / width {
      Scaled(height, i / width + 1, width);
    }
  }

  lemma KnownMeansMapped(g: Grid, cells: seq<int>, firstgid: nat, tilecount: nat)
    requires |cells| == g.width * g.height
    ensures AllKnown(g, cells, firstgid, tilecount, Cell(0, g.height)) <==>
            forall cell :: cell in cells ==> MapTile(cell, firstgid, tilecount).Success?
  {
    if AllKnown(g, cells, firstgid, tilecount, Cell(0, g.height)) {
      forall i | 0 <= i < |cells| ensures MapTile(cells[i], firstgid, tilecount).Success? {
        RowOf(i, g.width, g.height);
        var c := Cell(i % g.width, i / g.width);
        assert i == i / g.width * g.width + i % g.width;
        assert Inside(g, c) && CellIndex(g, c) == i;
      }
    }
  }

  lemma PlacedMeans(g: Grid, cells: seq<int>, firstgid: nat, tilecount: nat, data: seq<nat>)
    requires g.Fits() && |cells| == g.width * g.height
    requires AllKnown(g, cells, firstgid, tilecount, Cell(0, g.height))
    requires Filled(g, cells, firstgid, tilecount, Cell(0, g.height), data)
    ensures forall x: nat, y: nat :: Inside(g, Cell(x, y)) ==>
              && Destination(g, Cell(x, y)) < |data|
              && MapTile(cells[CellIndex(g, Cell(x, y))], firstgid, tilecount) ==
                   Success(data[Destination(g, Cell(x, y))])
    ensures forall i :: 0 <= i < |data| && data[i] != 0 ==> exists c: Cell :: Inside(g, c) && Destination(g, c) == i
  {
    forall x: nat, y: nat | Inside(g, Cell(x, y))
      ensures Destination(g, Cell(x, y)) < |data|
      ensures MapTile(cells[CellIndex(g, Cell(x, y))], firstgid, tilecount) == Success(data[Destination(g, Cell(x, y))])
    {
      PlacementIsInjective(g, Cell(x, y));
    }
    forall i | 0 <= i < |data| && data[i] != 0 ensures exists c: Cell :: Inside(g, c) && Destination(g, c) == i {
      PlacementIsInjective(g, SourceAt(g, i).value);
    }
  }
}
