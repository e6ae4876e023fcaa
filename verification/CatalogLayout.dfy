/** Layout of the generated asset catalogs (client/scripts/import-sunnyside-assets.ts). */
module CatalogLayout {
  datatype Asset = Asset(name: string, width: nat, height: nat)

  /** A tile object is anchored at its bottom left corner, a text object at its top left. */
  datatype MapObject =
    | Image(id: nat, gid: nat, name: string, x: nat, y: nat, width: nat, height: nat)
    | Label(id: nat, name: string, x: nat, y: nat, width: nat, height: nat)

  datatype Layer = Layer(id: nat, category: string, objects: seq<MapObject>)

  datatype Catalog = Catalog(width: nat, height: nat, firstgids: seq<nat>, layers: seq<Layer>,
                             nextLayerId: nat, nextObjectId: nat)

  // ---------- geometry ----------

  datatype Rect = Rect(left: int, top: int, right: int, bottom: int)

  function RectOf(o: MapObject): Rect {
    if o.Image? then Rect(o.x, o.y - o.height, o.x + o.width, o.y)
    else Rect(o.x, o.y, o.x + o.width, o.y + o.height)
  }

  predicate Apart(a: Rect, b: Rect) {
    a.right <= b.left || b.right <= a.left || a.bottom <= b.top || b.bottom <= a.top
  }

  predicate Within(r: Rect, width: int, height: int) {
    0 <= r.left && r.right <= width && 0 <= r.top && r.bottom <= height
  }

  function Max(a: nat, b: nat): nat {
    if a < b then b else a
  }

  type Positive = n: int | 0 < n witness 1

  function CeilDiv(a: nat, b: Positive): nat {
    (a + b - 1) / b
  }

  // ---------- one category's band of the map ----------

  datatype Band = Band(category: string, assets: seq<Asset>, y: nat, columns: Positive, cellWidth: nat, cellHeight: nat,
                       firstgid: nat, firstId: nat)
  {
    predicate Sound() {
      forall i :: 0 <= i < |assets| ==> assets[i].width + 32 <= cellWidth && assets[i].height + 40 <= cellHeight
    }

    function Rows(): nat {
      CeilDiv(|assets|, columns)
    }

    function End(): nat {
      y + Rows() * cellHeight + 56
    }

    /** The first object id that the band leaves free. */
    function EndId(): nat {
      firstId + 2 * |assets|
    }

    function Left(i: nat): nat {
      16 + i % columns * cellWidth
    }

    /** The top of an asset's cell. */
    function Top(i: nat): nat {
      y + 24 + i / columns * cellHeight
    }

    function ImageOf(i: nat): MapObject
      requires i < |assets|
    {
      Image(firstId + 2 * i, firstgid + i, assets[i].name, Left(i), Top(i) + assets[i].height, assets[i].width,
            assets[i].height)
    }

    function LabelOf(i: nat): MapObject
      requires i < |assets| && 8 <= cellWidth
    {
      Label(firstId + 2 * i + 1, assets[i].name, Left(i), Top(i) + assets[i].height + 4, cellWidth - 8, 16)
    }

    /** Even positions are images, odd ones their labels. */
    function ObjectAt(k: nat): MapObject
      requires Sound() && k < 2 * |assets|
    {
      assert assets[k / 2].width + 32 <= cellWidth;
      if k % 2 == 0 then ImageOf(k / 2) else LabelOf(k / 2)
    }
  }

  function MaxWidth(assets: seq<Asset>): (m: nat)
    ensures forall a :: a in assets ==> a.width <= m
  {
    if assets == [] then 0 else Max(assets[0].width, MaxWidth(assets[1..]))
  }

  function MaxHeight(assets: seq<Asset>): (m: nat)
    ensures forall a :: a in assets ==> a.height <= m
  {
    if assets == [] then 0 else Max(assets[0].height, MaxHeight(assets[1..]))
  }

  function Columns(maximumWidth: nat): (c: Positive)
    ensures c <= 6
  {
    var fit := 2048 / (maximumWidth + 32);
    if fit < 1 then 1 else if fit < 6 then fit else 6
  }

  function MakeBand(category: string, assets: seq<Asset>, y: nat, firstgid: nat, firstId: nat): (b: Band)
    ensures b.Sound() && b.assets == assets && b.y == y && b.firstgid == firstgid && b.firstId == firstId
  {
    var w, h := MaxWidth(assets), MaxHeight(assets);
    Band(category, assets, y, Columns(w), w + 32, h + 40, firstgid, firstId)
  }

  // ---------- the catalog ----------

  function AssetsOf(byCategory: map<string, seq<Asset>>, category: string): seq<Asset> {
    if category in byCategory then byCategory[category] else []
  }

  /** 1 plus the number of assets in the categories before this position. */
  function FirstGid(categories: seq<string>, byCategory: map<string, seq<Asset>>, index: nat): nat
    requires index <= |categories|
  {
    if index == 0 then 1
    else FirstGid(categories, byCategory, index - 1) + |AssetsOf(byCategory, categories[index-1])|
  }

  /** The bands of the categories from index on, starting at height y and object id nextId. */
  function BandsFrom(categories: seq<string>, byCategory: map<string, seq<Asset>>, index: nat, y: nat, nextId: nat)
    : seq<Band>
    requires index <= |categories|
    decreases |categories| - index
  {
    if index == |categories| then []
    else
      var assets := AssetsOf(byCategory, categories[index]);
      if assets == [] then BandsFrom(categories, byCategory, index + 1, y, nextId)
      else
        var b := MakeBand(categories[index], assets, y, FirstGid(categories, byCategory, index), nextId);
        [b] + BandsFrom(categories, byCategory, index + 1, b.End(), b.EndId())
  }

  predicate Drawn(b: Band, layer: Layer) {
    && b.Sound()
    && layer.category == b.category
    && |layer.objects| == 2 * |b.assets|
    && forall k :: 0 <= k < |layer.objects| ==> layer.objects[k] == b.ObjectAt(k)
  }

  lemma Positions(b: Band, id: nat)
    requires b.Sound() && id < |b.assets|
    ensures b.cellWidth >= 8 && b.ObjectAt(2 * id) == b.ImageOf(id) && b.ObjectAt(2 * id + 1) == b.LabelOf(id)
  {
    assert b.assets[id].width + 32 <= b.cellWidth;
    assert 2 * id / 2 == id && (2 * id + 1) / 2 == id;
  }

  method DrawAsset(b: Band, id: nat, nextObjectId: nat) returns (image: MapObject, text: MapObject)
    requires b.Sound() && id < |b.assets| && nextObjectId == b.firstId + 2 * id
    ensures image == b.ObjectAt(2 * id) && text == b.ObjectAt(2 * id + 1)
  {
    var asset := b.assets[id];
    var column, row := id % b.columns, id / b.columns;
    var x := 16 + column * b.cellWidth;
    var objectY := b.y + 24 + row * b.cellHeight + asset.height;
    Positions(b, id);
    image := Image(nextObjectId, b.firstgid + id, asset.name, x, objectY, asset.width, asset.height);
    text := Label(nextObjectId + 1, asset.name, x, objectY + 4, b.cellWidth - 8, 16);
  }

  method DrawBand(b: Band, layerId: nat) returns (layer: Layer, nextObjectId: nat)
    requires b.Sound()
    ensures layer.id == layerId && Drawn(b, layer)
    ensures nextObjectId == b.EndId()
  {
    nextObjectId := b.firstId;
    var objects: seq<MapObject> := [];
    for id := 0 to |b.assets|
      invariant |objects| == 2 * id && nextObjectId == b.firstId + 2 * id
      invariant forall k :: 0 <= k < 2 * id ==> objects[k] == b.ObjectAt(k)
    {
      var image, text := DrawAsset(b, id, nextObjectId);
      objects := objects + [image, text];
      nextObjectId := nextObjectId + 2;
    }
    layer := Layer(layerId, b.category, objects);
  }

  method TilesetGids(categories: seq<string>, byCategory: map<string, seq<Asset>>) returns (firstgids: seq<nat>)
    ensures |firstgids| == |categories|
    ensures forall i :: 0 <= i < |categories| ==> firstgids[i] == FirstGid(categories, byCategory, i)
  {
    firstgids := [];
    for index := 0 to |categories|
      invariant |firstgids| == index && forall i :: 0 <= i < index ==>
                  firstgids[i] == FirstGid(categories, byCategory, i)
    {
      firstgids := firstgids + [FirstGid(categories, byCategory, index)];
    }
  }

  /** The layout loop over the categories. */
  method LayOut(categories: seq<string>, byCategory: map<string, seq<Asset>>, firstgids: seq<nat>)
    returns (layers: seq<Layer>, mapWidth: nat, y: nat, nextLayerId: nat, nextObjectId: nat)
    requires |firstgids| == |categories|
    requires forall i :: 0 <= i < |categories| ==> firstgids[i] == FirstGid(categories, byCategory, i)
    ensures nextLayerId == |layers| + 1
    ensures Built(BandsFrom(categories, byCategory, 0, 32, 1), layers, mapWidth, y, nextObjectId)
  {
    layers, mapWidth := [], 1024;
    nextObjectId, nextLayerId, y := 1, 1, 32;
    ghost var done: seq<Band> := [];
    for index := 0 to |categories|
      invariant BandsFrom(categories, byCategory, 0, 32, 1) ==
                done + BandsFrom(categories, byCategory, index, y, nextObjectId)
      invariant nextLayerId == |done| + 1
      invariant Built(done, layers, mapWidth, y, nextObjectId)
    {
      var assets := AssetsOf(byCategory, categories[index]);
      if assets == [] { continue; }
      BandsUnfold(categories, byCategory, index, y, nextObjectId, done);
      ghost var b := MakeBand(categories[index], assets, y, firstgids[index], nextObjectId);
      layers, mapWidth, y, nextObjectId := AddLayer(categories[index], assets, firstgids[index], nextLayerId,
                                                    layers, mapWidth, y, nextObjectId, done);
      nextLayerId := nextLayerId + 1;
      done := done + [b];
    }
    assert done + [] == done;
  }

  method CatalogMap(categories: seq<string>, byCategory: map<string, seq<Asset>>) returns (c: Catalog)
    ensures Laid(categories, byCategory, c)
  {
    var firstgids := TilesetGids(categories, byCategory);
    var layers, mapWidth, y, nextLayerId, nextObjectId := LayOut(categories, byCategory, firstgids);
    c := Catalog(CeilDiv(mapWidth, 16), CeilDiv(y + 32, 16), firstgids, layers, nextLayerId, nextObjectId);
  }

  lemma CeilCovers(a: nat)
    ensures a <= 16 * CeilDiv(a, 16)
  {
  }

  /** One pass of the layout loop. */
  method AddLayer(category: string, assets: seq<Asset>, firstgid: nat, layerId: nat,
                  layers: seq<Layer>, mapWidth: nat, y: nat, nextObjectId: nat, ghost done: seq<Band>)
    returns (layers': seq<Layer>, mapWidth': nat, y': nat, nextObjectId': nat)
    requires Built(done, layers, mapWidth, y, nextObjectId) && layerId == |done| + 1
    ensures var b := MakeBand(category, assets, y, firstgid, nextObjectId);
            Built(done + [b], layers', mapWidth', y', nextObjectId') && y' == b.End() && nextObjectId' == b.EndId()
  {
    var b := MakeBand(category, assets, y, firstgid, nextObjectId);
    var layer, next := DrawBand(b, layerId);
    BuiltSnoc(done, layers, mapWidth, y, nextObjectId, b, layer);
    return layers + [layer], Max(mapWidth, b.columns * b.cellWidth + 32), b.End(), next;
  }

  /** The pixel width, bottom and next object id that the bands drawn so far amount to. */
  function WidthOf(bands: seq<Band>): nat {
    if bands == [] then 1024
    else Max(WidthOf(bands[..|bands|-1]), bands[|bands|-1].columns * bands[|bands|-1].cellWidth + 32)
  }

  function BottomOf(bands: seq<Band>): nat {
    if bands == [] then 32 else bands[|bands|-1].End()
  }

  function NextIdOf(bands: seq<Band>): nat {
    if bands == [] then 1 else bands[|bands|-1].EndId()
  }

  predicate Built(done: seq<Band>, layers: seq<Layer>, mapWidth: nat, y: nat, nextObjectId: nat) {
    && |layers| == |done|
    && (forall i :: 0 <= i < |done| ==> Drawn(done[i], layers[i]) && layers[i].id == i + 1)
    && mapWidth == WidthOf(done) && y == BottomOf(done) && nextObjectId == NextIdOf(done)
  }

  lemma BuiltSnoc(done: seq<Band>, layers: seq<Layer>, mapWidth: nat, y: nat, nextObjectId: nat, b: Band, layer: Layer)
    requires Built(done, layers, mapWidth, y, nextObjectId) && Drawn(b, layer) && layer.id == |done| + 1
    ensures Built(done + [b], layers + [layer], Max(mapWidth, b.columns * b.cellWidth + 32), b.End(), b.EndId())
  {
    assert (done + [b])[..|done|] == done;
  }

  lemma {:induction false} WidthCovers(bands: seq<Band>, i: nat)
    requires i < |bands|
    ensures bands[i].columns * bands[i].cellWidth + 32 <= WidthOf(bands)
  {
    if i < |bands| - 1 {
      WidthCovers(bands[..|bands|-1], i);
    }
  }

  lemma BandsUnfold(categories: seq<string>, byCategory: map<string, seq<Asset>>, index: nat, y: nat, nextId: nat,
                    done: seq<Band>)
    requires index < |categories| && AssetsOf(byCategory, categories[index]) != []
    ensures var b := MakeBand(categories[index], AssetsOf(byCategory, categories[index]), y,
                              FirstGid(categories, byCategory, index), nextId);
            && BandsFrom(categories, byCategory, index, y, nextId) ==
                 [b] + BandsFrom(categories, byCategory, index + 1, b.End(), b.EndId())
            && done + BandsFrom(categories, byCategory, index, y, nextId) ==
               done + [b] + BandsFrom(categories, byCategory, index + 1, b.End(), b.EndId())
  {
  }

  predicate Laid(categories: seq<string>, byCategory: map<string, seq<Asset>>, c: Catalog) {
    var bands := BandsFrom(categories, byCategory, 0, 32, 1);
    && c.nextLayerId == |bands| + 1
    && |c.firstgids| == |categories|
    && (forall i :: 0 <= i < |categories| ==> c.firstgids[i] == FirstGid(categories, byCategory, i))
    && Built(bands, c.layers, WidthOf(bands), BottomOf(bands), c.nextObjectId)
    && c.width == CeilDiv(WidthOf(bands), 16) && c.height == CeilDiv(BottomOf(bands) + 32, 16)
  }

  // ---------- within a band ----------

  lemma {:induction false} Step(a: nat, b: nat, d: nat)
    requires a < b
    ensures a * d + d <= b * d
    decreases b
  {
    if a + 1 < b {
      Step(a, b - 1, d);
    }
    assert b * d == (b - 1) * d + d;
  }

  lemma Cancel(a: nat, b: nat, d: nat)
    requires a * d < b * d
    ensures a < b
  {
    if b < a { Step(b, a, d); }
  }

  lemma RowInBand(b: Band, i: nat)
    requires i < |b.assets|
    ensures i / b.columns < b.Rows() && i % b.columns < b.columns
  {
    var n, d := |b.assets|, b.columns;
    assert i == i / d * d + i % d;
    assert n + d - 1 == b.Rows() * d + (n + d - 1) % d;
    Cancel(i / d, b.Rows(), d);
  }

  predicate InBand(b: Band, r: Rect) {
    16 <= r.left && r.right <= 16 + b.columns * b.cellWidth && b.y <= r.top && r.bottom <= b.End()
  }

  /** Every object of a band lies between its bottom and top, and inside its columns. */
  lemma ObjectInBand(b: Band, k: nat)
    requires b.Sound() && k < 2 * |b.assets|
    ensures InBand(b, RectOf(b.ObjectAt(k)))
  {
    InCell(b, k);
    CellInBand(b, k / 2);
  }

  lemma CellInBand(b: Band, i: nat)
    requires i < |b.assets|
    ensures 16 <= b.Left(i) && b.Left(i) + b.cellWidth <= 16 + b.columns * b.cellWidth
    ensures b.y <= b.Top(i) && b.Top(i) + b.cellHeight <= b.End()
  {
    RowInBand(b, i);
    Step(i % b.columns, b.columns, b.cellWidth);
    Step(i / b.columns, b.Rows(), b.cellHeight);
  }

  lemma ObjectsApart(b: Band, k: nat, l: nat)
    requires b.Sound() && k < l < 2 * |b.assets|
    ensures Apart(RectOf(b.ObjectAt(k)), RectOf(b.ObjectAt(l)))
  {
    var i, j := k / 2, l / 2;
    if i == j {
      assert k == 2 * i && l == 2 * i + 1;
    } else {
      CellsApart(i, j, b.columns, b.cellWidth, b.cellHeight);
      InCell(b, k);
      InCell(b, l);
    }
  }

  /** An object lies in its asset's cell. */
  lemma InCell(b: Band, k: nat)
    requires b.Sound() && k < 2 * |b.assets|
    ensures var r, i := RectOf(b.ObjectAt(k)), k / 2;
      && b.Left(i) <= r.left && r.right <= b.Left(i) + b.cellWidth
      && b.Top(i) <= r.top && r.bottom <= b.Top(i) + b.cellHeight
  {
  }

  /** Two cells of a grid differ in their row or in their column. */
  lemma CellsApart(i: nat, j: nat, columns: Positive, w: nat, h: nat)
    requires i != j
    ensures var (ci, cj, ri, rj) := (i % columns * w, j % columns * w, i / columns * h, j / columns * h);
            ci + w <= cj || cj + w <= ci || ri + h <= rj || rj + h <= ri
  {
    var ci, cj, ri, rj := i % columns, j % columns, i / columns, j / columns;
    assert i == ri * columns + ci && j == rj * columns + cj;
    if ri < rj {
      Step(ri, rj, h);
    } else if rj < ri {
      Step(rj, ri, h);
    } else if ci < cj {
      Step(ci, cj, w);
    } else {
      Step(cj, ci, w);
    }
  }

  /** A band has as many columns as fit into 2048 pixels, but at least one and at most six. */
  lemma ColumnsFit(maximumWidth: nat)
    ensures var c := Columns(maximumWidth);
      && 1 <= c <= 6 && (c > 1 ==> c * (maximumWidth + 32) <= 2048) && (c < 6 ==> 2048 < (c + 1) * (maximumWidth + 32))
  {
    var w := maximumWidth + 32;
    var fit := 2048 / w;
    assert fit * w <= 2048 < fit * w + w;
  }

  lemma {:induction false} LargestIsReached(assets: seq<Asset>)
    requires assets != []
    ensures exists i :: 0 <= i < |assets| && assets[i].width == MaxWidth(assets)
    ensures exists i :: 0 <= i < |assets| && assets[i].height == MaxHeight(assets)
    decreases |assets|
  {
    assert assets[0].width <= MaxWidth(assets) && assets[0].height <= MaxHeight(assets);
    if |assets| > 1 {
      var rest := assets[1..];
      LargestIsReached(rest);
      var i :| 0 <= i < |rest| && rest[i].width == MaxWidth(rest);
      var j :| 0 <= j < |rest| && rest[j].height == MaxHeight(rest);
      assert assets[i+1] == rest[i] && assets[j+1] == rest[j];
    }
  }

  /** The least number of rows that holds n assets. */
  lemma RowsAreLeast(n: nat, columns: Positive)
    ensures n <= CeilDiv(n, columns) * columns < n + columns
  {
    var m := n + columns - 1;
    assert m == m / columns * columns + m % columns;
  }

  /** Assets stand in rows from left to right: the first in the top left cell, each other in the cell to the right of
      the one before, or, if that was the last of its row, at the left end of the next; its label is below it. */
  lemma CellsInOrder(b: Band, i: nat)
    requires b.Sound() && i < |b.assets|
    ensures b.Left(0) == 16 && b.Top(0) == b.y + 24
    ensures (i + 1) % b.columns != 0 ==> b.Left(i + 1) == b.Left(i) + b.cellWidth && b.Top(i + 1) == b.Top(i)
    ensures (i + 1) % b.columns == 0 ==> b.Left(i + 1) == 16 && b.Top(i + 1) == b.Top(i) + b.cellHeight
    ensures b.cellWidth >= 8 && RectOf(b.ImageOf(i)).left == RectOf(b.LabelOf(i)).left == b.Left(i)
    ensures RectOf(b.ImageOf(i)).top == b.Top(i) && RectOf(b.LabelOf(i)).top == RectOf(b.ImageOf(i)).bottom + 4
  {
    assert b.assets[i].width + 32 <= b.cellWidth;
    NextCell(i, b.columns);
    Distributes(i % b.columns, b.cellWidth);
    Distributes(i / b.columns, b.cellHeight);
  }

  lemma Distributes(a: nat, d: nat)
    ensures (a + 1) * d == a * d + d
  {
  }

  lemma NextCell(i: nat, columns: Positive)
    ensures if (i + 1) % columns == 0 then (i + 1) / columns == i / columns + 1
            else (i + 1) / columns == i / columns && (i + 1) % columns == i % columns + 1
  {
    var q, r := i / columns, i % columns;
    assert i == q * columns + r;
    Distributes(q, columns);
    if r + 1 == columns {
      Quotient(i + 1, columns, q + 1, 0);
    } else {
      Quotient(i + 1, columns, q, r + 1);
    }
  }

  lemma Quotient(n: nat, d: Positive, q: nat, r: nat)
    requires r < d && n == q * d + r
    ensures n / d == q && n % d == r
  {
    var p := n / d;
    assert n == p * d + n % d;
    if p < q { Step(p, q, d); }
    if q < p { Step(q, p, d); }
  }

  /** A band's cells are as wide as its widest and as high as its highest asset allows; the band ends below the least
      number of rows that holds its assets. */
  lemma BandFits(category: string, assets: seq<Asset>, y: nat, firstgid: nat, firstId: nat)
    requires assets != []
    ensures var b := MakeBand(category, assets, y, firstgid, firstId);
      && (exists i :: 0 <= i < |assets| && assets[i].width + 32 == b.cellWidth)
      && (exists i :: 0 <= i < |assets| && assets[i].height + 40 == b.cellHeight)
      && (b.columns > 1 ==> b.columns * b.cellWidth <= 2048)
      && (b.columns < 6 ==> 2048 < (b.columns + 1) * b.cellWidth)
      && b.End() == b.y + 56 + b.Rows() * b.cellHeight && |assets| <= b.Rows() * b.columns < |assets| + b.columns
  {
    var b := MakeBand(category, assets, y, firstgid, firstId);
    LargestIsReached(assets);
    var i :| 0 <= i < |assets| && assets[i].width == MaxWidth(assets);
    var j :| 0 <= j < |assets| && assets[j].height == MaxHeight(assets);
    assert assets[i].width + 32 == b.cellWidth && assets[j].height + 40 == b.cellHeight;
    ColumnsFit(MaxWidth(assets));
    RowsAreLeast(|assets|, b.columns);
  }

  // ---------- across bands ----------

  predicate Stacked(a: Band, b: Band) {
    a.End() <= b.y && a.EndId() <= b.firstId
  }

  /** Bands from height y and object id nextId on, one below the other. */
  predicate Ordered(bands: seq<Band>, y: nat, nextId: nat) {
    && (forall i :: 0 <= i < |bands| ==> bands[i].Sound() && y <= bands[i].y && nextId <= bands[i].firstId)
    && (forall i, j :: 0 <= i < j < |bands| ==> Stacked(bands[i], bands[j]))
  }

  lemma OrderedCons(b: Band, rest: seq<Band>, y: nat, nextId: nat)
    requires b.Sound() && b.y == y && b.firstId == nextId && Ordered(rest, b.End(), b.EndId())
    ensures Ordered([b] + rest, y, nextId)
  {
    var bands := [b] + rest;
    EndBelowStart(b);
    forall i | 0 <= i < |bands| ensures bands[i].Sound() && y <= bands[i].y && nextId <= bands[i].firstId {
      assert i > 0 ==> bands[i] == rest[i - 1];
    }
    forall i, j | 0 <= i < j < |bands| ensures Stacked(bands[i], bands[j]) {
      assert bands[j] == rest[j - 1] && (i > 0 ==> bands[i] == rest[i - 1]);
    }
  }

  lemma {:induction false} BandsInOrder(categories: seq<string>, byCategory: map<string, seq<Asset>>, index: nat,
                                        y: nat, nextId: nat)
    requires index <= |categories|
    ensures Ordered(BandsFrom(categories, byCategory, index, y, nextId), y, nextId)
    decreases |categories| - index
  {
    if index < |categories| {
      var assets := AssetsOf(byCategory, categories[index]);
      if assets == [] {
        BandsInOrder(categories, byCategory, index + 1, y, nextId);
      } else {
        var b := MakeBand(categories[index], assets, y, FirstGid(categories, byCategory, index), nextId);
        var rest := BandsFrom(categories, byCategory, index + 1, b.End(), b.EndId());
        BandsInOrder(categories, byCategory, index + 1, b.End(), b.EndId());
        OrderedCons(b, rest, y, nextId);
      }
    }
  }

  lemma TwoObjects(bands: seq<Band>, i: nat, k: nat, j: nat, l: nat)
    requires Ordered(bands, 32, 1) && i < |bands| && j < |bands| && (i, k) != (j, l)
    requires k < 2 * |bands[i].assets| && l < 2 * |bands[j].assets|
    ensures Apart(RectOf(bands[i].ObjectAt(k)), RectOf(bands[j].ObjectAt(l)))
    ensures bands[i].ObjectAt(k).id != bands[j].ObjectAt(l).id
  {
    if i == j {
      if k < l { ObjectsApart(bands[i], k, l); } else { ObjectsApart(bands[i], l, k); }
    } else {
      ObjectInBand(bands[i], k);
      ObjectInBand(bands[j], l);
      assert if i < j then Stacked(bands[i], bands[j]) else Stacked(bands[j], bands[i]);
    }
  }

  predicate Emitted(c: Catalog, i: int, k: int) {
    0 <= i < |c.layers| && 0 <= k < |c.layers[i].objects|
  }

  predicate Separate(a: MapObject, b: MapObject) {
    Apart(RectOf(a), RectOf(b)) && a.id != b.id
  }

  lemma Enclosed(b: Band, r: Rect, mapWidth: nat, y: nat, width: nat, height: nat)
    requires InBand(b, r) && b.columns * b.cellWidth + 32 <= mapWidth <= width && b.End() <= y && y + 32 <= height
    ensures Within(r, width, height)
  {
  }

  lemma EndBelowStart(b: Band)
    ensures b.y <= b.End()
  {
    assert b.Rows() * b.cellHeight >= 0;
  }

  lemma BuiltBounds(bands: seq<Band>, i: nat)
    requires Ordered(bands, 32, 1) && i < |bands|
    ensures bands[i].columns * bands[i].cellWidth + 32 <= WidthOf(bands)
    ensures bands[i].End() <= BottomOf(bands) && bands[i].EndId() <= NextIdOf(bands)
  {
    WidthCovers(bands, i);
    EndBelowStart(bands[|bands|-1]);
    assert i < |bands| - 1 ==> Stacked(bands[i], bands[|bands|-1]);
  }

  lemma ObjectWithin(categories: seq<string>, byCategory: map<string, seq<Asset>>, c: Catalog, i: nat, k: nat)
    requires Laid(categories, byCategory, c) && Emitted(c, i, k)
    ensures Within(RectOf(c.layers[i].objects[k]), 16 * c.width, 16 * c.height)
    ensures 1 <= c.layers[i].objects[k].id < c.nextObjectId
  {
    var bands := BandsFrom(categories, byCategory, 0, 32, 1);
    BandsInOrder(categories, byCategory, 0, 32, 1);
    assert Drawn(bands[i], c.layers[i]);
    BuiltBounds(bands, i);
    assert c.layers[i].objects[k].id < bands[i].EndId();
    assert Within(RectOf(c.layers[i].objects[k]), 16 * c.width, 16 * c.height) by {
      ObjectInBand(bands[i], k);
      CeilCovers(WidthOf(bands));
      CeilCovers(BottomOf(bands) + 32);
      Enclosed(bands[i], RectOf(bands[i].ObjectAt(k)), WidthOf(bands), BottomOf(bands), 16 * c.width, 16 * c.height);
    }
  }

  /** All image and label rectangles are pairwise disjoint and inside the map, and object ids are
      distinct and below nextobjectid. */
  lemma NothingOverlaps(categories: seq<string>, byCategory: map<string, seq<Asset>>, c: Catalog)
    requires Laid(categories, byCategory, c)
    ensures forall i, k :: Emitted(c, i, k) ==>
              && Within(RectOf(c.layers[i].objects[k]), 16 * c.width, 16 * c.height)
              && 1 <= c.layers[i].objects[k].id < c.nextObjectId
    ensures forall i, k, j, l :: Emitted(c, i, k) && Emitted(c, j, l) && (i != j || k != l) ==>
              Separate(c.layers[i].objects[k], c.layers[j].objects[l])
  {
    forall i, k | Emitted(c, i, k)
      ensures Within(RectOf(c.layers[i].objects[k]), 16 * c.width, 16 * c.height)
      ensures 1 <= c.layers[i].objects[k].id < c.nextObjectId
    {
      ObjectWithin(categories, byCategory, c, i, k);
    }
    var bands := BandsFrom(categories, byCategory, 0, 32, 1);
    BandsInOrder(categories, byCategory, 0, 32, 1);
    forall i, k, j, l | Emitted(c, i, k) && Emitted(c, j, l) && (i != j || k != l)
      ensures Separate(c.layers[i].objects[k], c.layers[j].objects[l])
    {
      assert Drawn(bands[i], c.layers[i]) && Drawn(bands[j], c.layers[j]);
      TwoObjects(bands, i, k, j, l);
    }
  }

  // ---------- counts and size ----------

  function ObjectCount(layers: seq<Layer>): nat {
    if layers == [] then 0 else ObjectCount(layers[..|layers|-1]) + |layers[|layers|-1].objects|
  }

  function AssetCount(bands: seq<Band>): nat {
    if bands == [] then 0 else |bands[0].assets| + AssetCount(bands[1..])
  }

  /** The bands show every asset, and their object ids follow one another without a gap. */
  lemma {:induction false} IdsWithoutGap(categories: seq<string>, byCategory: map<string, seq<Asset>>, index: nat,
                                         y: nat, nextId: nat)
    requires index <= |categories|
    ensures var bands, n := BandsFrom(categories, byCategory, index, y, nextId), |categories|;
      && FirstGid(categories, byCategory, n) == FirstGid(categories, byCategory, index) + AssetCount(bands)
      && (if bands == [] then nextId else NextIdOf(bands)) == nextId + 2 * AssetCount(bands)
    decreases |categories| - index
  {
    if index < |categories| {
      if AssetsOf(byCategory, categories[index]) == [] {
        IdsWithoutGap(categories, byCategory, index + 1, y, nextId);
      } else {
        BandsUnfold(categories, byCategory, index, y, nextId, []);
        var b := BandsFrom(categories, byCategory, index, y, nextId)[0];
        IdsWithoutGap(categories, byCategory, index + 1, b.End(), b.EndId());
      }
    }
  }

  lemma {:induction false} ObjectsOfBands(bands: seq<Band>, layers: seq<Layer>)
    requires |layers| == |bands| && forall i :: 0 <= i < |bands| ==> |layers[i].objects| == 2 * |bands[i].assets|
    ensures ObjectCount(layers) == 2 * AssetCount(bands)
    decreases |bands|
  {
    if bands != [] {
      var n := |bands| - 1;
      ObjectsOfBands(bands[..n], layers[..n]);
      AssetCountSnoc(bands);
    }
  }

  lemma {:induction false} AssetCountSnoc(bands: seq<Band>)
    requires bands != []
    ensures AssetCount(bands) == AssetCount(bands[..|bands|-1]) + |bands[|bands|-1].assets|
    decreases |bands|
  {
    if |bands| > 1 {
      AssetCountSnoc(bands[1..]);
      assert bands[1..][..|bands|-2] == bands[..|bands|-1][1..];
    }
  }

  lemma {:induction false} WidthIsReached(bands: seq<Band>)
    ensures WidthOf(bands) >= 1024
    ensures WidthOf(bands) > 1024 ==>
              exists i :: 0 <= i < |bands| && bands[i].columns * bands[i].cellWidth + 32 == WidthOf(bands)
  {
    if bands != [] {
      var n := |bands| - 1;
      WidthIsReached(bands[..n]);
      if WidthOf(bands) > 1024 && WidthOf(bands) == WidthOf(bands[..n]) {
        var i :| 0 <= i < n && bands[..n][i].columns * bands[..n][i].cellWidth + 32 == WidthOf(bands);
        assert bands[i] == bands[..n][i];
      }
    }
  }

  /** Every asset is drawn once, ids count the objects and the layers, and the map is the smallest in 16 pixel tiles
      that leaves 32 pixels below the last band and is as wide as the widest one and 1024 pixels. */
  lemma CountsAndSize(categories: seq<string>, byCategory: map<string, seq<Asset>>, c: Catalog)
    requires Laid(categories, byCategory, c)
    ensures ObjectCount(c.layers) == 2 * (FirstGid(categories, byCategory, |categories|) - 1)
    ensures c.nextObjectId == 1 + ObjectCount(c.layers) && c.nextLayerId == 1 + |c.layers|
    ensures var bands := BandsFrom(categories, byCategory, 0, 32, 1);
      && (var w := WidthOf(bands); w <= 16 * c.width < w + 16)
      && (var h := (if bands == [] then 32 else bands[|bands|-1].End()) + 32; h <= 16 * c.height < h + 16)
  {
    var bands := BandsFrom(categories, byCategory, 0, 32, 1);
    IdsWithoutGap(categories, byCategory, 0, 32, 1);
    forall i | 0 <= i < |bands| ensures |c.layers[i].objects| == 2 * |bands[i].assets| {
      assert Drawn(bands[i], c.layers[i]);
    }
    ObjectsOfBands(bands, c.layers);
    RowsAreLeast(WidthOf(bands), 16);
    RowsAreLeast(BottomOf(bands) + 32, 16);
  }

  // ---------- gids ----------

  lemma {:induction false} GidsInOrder(categories: seq<string>, byCategory: map<string, seq<Asset>>, i: nat, j: nat)
    requires i < j <= |categories|
    ensures FirstGid(categories, byCategory, i) + |AssetsOf(byCategory, categories[i])|
            <= FirstGid(categories, byCategory, j)
    decreases j
  {
    if i + 1 < j {
      GidsInOrder(categories, byCategory, i, j - 1);
    }
  }

  /** A gid identifies exactly one position among the categories and one asset there. */
  lemma GidIdentifiesAsset(categories: seq<string>, byCategory: map<string, seq<Asset>>, i: nat, a: nat, j: nat, b: nat)
    requires i < |categories| && j < |categories|
    requires a < |AssetsOf(byCategory, categories[i])| && b < |AssetsOf(byCategory, categories[j])|
    ensures FirstGid(categories, byCategory, i) + a == FirstGid(categories, byCategory, j) + b <==> i == j && a == b
  {
    if i < j {
      GidsInOrder(categories, byCategory, i, j);
    } else if j < i {
      GidsInOrder(categories, byCategory, j, i);
    }
  }

  /** Each emitted image carries the gid of a category position and asset, with that asset's size. */
  lemma {:induction false} ImagesNameTheirAssets(categories: seq<string>, byCategory: map<string, seq<Asset>>,
                                                 index: nat, y: nat, nextId: nat, n: nat)
    returns (position: nat)
    requires index <= |categories| && n < |BandsFrom(categories, byCategory, index, y, nextId)|
    ensures index <= position < |categories|
    ensures ShowsCategory(categories, byCategory, BandsFrom(categories, byCategory, index, y, nextId)[n], position)
    decreases |categories| - index
  {
    if AssetsOf(byCategory, categories[index]) == [] {
      position := ImagesNameTheirAssets(categories, byCategory, index + 1, y, nextId, n);
    } else {
      BandsUnfold(categories, byCategory, index, y, nextId, []);
      var b := BandsFrom(categories, byCategory, index, y, nextId)[0];
      if n == 0 {
        position := index;
      } else {
        position := ImagesNameTheirAssets(categories, byCategory, index + 1, b.End(), b.EndId(), n - 1);
      }
    }
  }

  /** The band shows the assets of the category at this position, under its gids. */
  predicate ShowsCategory(categories: seq<string>, byCategory: map<string, seq<Asset>>, b: Band, position: nat) {
    && position < |categories|
    && b.firstgid == FirstGid(categories, byCategory, position)
    && b.category == categories[position] && b.assets == AssetsOf(byCategory, categories[position])
  }

  /** The gid stands for this asset of the category at this position. */
  predicate Names(categories: seq<string>, byCategory: map<string, seq<Asset>>, gid: nat, position: nat, a: nat) {
    && position < |categories|
    && a < |AssetsOf(byCategory, categories[position])|
    && gid == FirstGid(categories, byCategory, position) + a
  }

  /** Each emitted image's gid names one asset of one category position and no other, and the image
      has that asset's name and size. */
  lemma ImageGidIsUnambiguous(categories: seq<string>, byCategory: map<string, seq<Asset>>, c: Catalog, i: nat, k: nat)
    returns (position: nat, a: nat)
    requires Laid(categories, byCategory, c) && Emitted(c, i, k) && c.layers[i].objects[k].Image?
    ensures var o := c.layers[i].objects[k];
            && Names(categories, byCategory, o.gid, position, a)
            && (var asset := AssetsOf(byCategory, categories[position])[a]; asset == Asset(o.name, o.width, o.height))
            && forall q: nat, b: nat :: Names(categories, byCategory, o.gid, q, b) ==> q == position && b == a
  {
    var bands := BandsFrom(categories, byCategory, 0, 32, 1);
    assert Drawn(bands[i], c.layers[i]);
    position := ImagesNameTheirAssets(categories, byCategory, 0, 32, 1, i);
    a := k / 2;
    forall q: nat, b: nat | Names(categories, byCategory, c.layers[i].objects[k].gid, q, b)
      ensures q == position && b == a
    {
      GidIdentifiesAsset(categories, byCategory, position, a, q, b);
    }
  }
}
