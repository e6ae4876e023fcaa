/** Assembling the reference map from a GameMaker room (client/scripts/sunnyside-example-importer.ts). */
module RoomImport {
  import opened Wrappers
  import opened TileGid
  import opened TileMap

  // ---------- the room ----------

  /** A placed sprite: its name, its tile in the object tileset, and whether either scale is negative. */
  datatype Asset = Asset(sprite: string, tile: nat, mirrored: bool, flipped: bool)

  datatype Content = Tiles(source: SourceLayer, x: int, y: int) | Assets(assets: seq<Asset>) | Other

  datatype RoomLayer = RoomLayer(name: string, depth: int, visible: bool, content: Content)

  datatype TileCounts = TileCounts(world: nat, forest: nat, objects: nat)

  // ---------- the map ----------

  datatype Tileset = Tileset(firstgid: nat, tilecount: nat)

  /** An object without a tile has gid 0. */
  datatype MapObject = MapObject(id: nat, name: string, gid: nat)

  datatype MapLayer =
    | TileLayer(id: nat, name: string, visible: bool, offsetX: int, offsetY: int, data: seq<nat>)
    | ObjectGroup(id: nat, name: string, visible: bool, objects: seq<MapObject>)

  datatype TiledMap = TiledMap(width: nat, height: nat, tilesets: seq<Tileset>, layers: seq<MapLayer>,
                               nextLayerId: nat, nextObjectId: nat, properties: map<string, bool>)

  const PROPERTIES := map["qeReferenceMap" := true, "qeRuntimeMap" := false]
  const NOTES := "Authoring Notes"
  const NOTE := "Artist-authored Sunnyside reference"

  // ---------- drawing order ----------

  /** Deepest first; layers of one depth keep their order. */
  function Insert(layer: RoomLayer, sorted: seq<RoomLayer>): seq<RoomLayer> {
    if sorted == [] || layer.depth >= sorted[0].depth then [layer] + sorted
    else [sorted[0]] + Insert(layer, sorted[1..])
  }

  function ByDepth(layers: seq<RoomLayer>): seq<RoomLayer> {
    if layers == [] then [] else Insert(layers[0], ByDepth(layers[1..]))
  }

  predicate Descending(layers: seq<RoomLayer>) {
    forall i, j :: 0 <= i < j < |layers| ==> layers[i].depth >= layers[j].depth
  }

  function AtDepth(layers: seq<RoomLayer>, depth: int): seq<RoomLayer> {
    if layers == [] then []
    else Here(layers[0], depth) + AtDepth(layers[1..], depth)
  }

  lemma {:induction false} InsertAdds(layer: RoomLayer, sorted: seq<RoomLayer>)
    ensures multiset(Insert(layer, sorted)) == multiset(sorted) + multiset{layer}
    decreases |sorted|
  {
    if sorted != [] && layer.depth < sorted[0].depth {
      InsertAdds(layer, sorted[1..]);
      assert sorted == [sorted[0]] + sorted[1..];
    }
  }

  lemma {:induction false} InsertSorts(layer: RoomLayer, sorted: seq<RoomLayer>)
    requires Descending(sorted)
    ensures Descending(Insert(layer, sorted))
    decreases |sorted|
  {
    if sorted != [] && layer.depth < sorted[0].depth {
      var rest := Insert(layer, sorted[1..]);
      InsertSorts(layer, sorted[1..]);
      forall i | 0 <= i < |rest| ensures rest[i].depth <= sorted[0].depth {
        Inserted(layer, sorted[1..], rest[i]);
      }
    }
  }

  lemma Inserted(layer: RoomLayer, sorted: seq<RoomLayer>, l: RoomLayer)
    requires l in Insert(layer, sorted)
    ensures l == layer || l in sorted
  {
    InsertAdds(layer, sorted);
    assert l in multiset(Insert(layer, sorted));
  }

  function Here(layer: RoomLayer, depth: int): seq<RoomLayer> {
    if layer.depth == depth then [layer] else []
  }

  lemma AtDepthCons(layer: RoomLayer, rest: seq<RoomLayer>, depth: int)
    ensures AtDepth([layer] + rest, depth) == Here(layer, depth) + AtDepth(rest, depth)
  {
    assert ([layer] + rest)[1..] == rest;
  }

  lemma {:induction false} InsertKeepsOrder(layer: RoomLayer, sorted: seq<RoomLayer>, depth: int)
    ensures AtDepth(Insert(layer, sorted), depth) == Here(layer, depth) + AtDepth(sorted, depth)
    decreases |sorted|
  {
    if sorted == [] || layer.depth >= sorted[0].depth {
      AtDepthCons(layer, sorted, depth);
    } else {
      var first, rest := sorted[0], sorted[1..];
      InsertKeepsOrder(layer, rest, depth);
      AtDepthCons(first, Insert(layer, rest), depth);
      Swap(first, layer, AtDepth(rest, depth), depth);
    }
  }

  lemma Swap(first: RoomLayer, layer: RoomLayer, rest: seq<RoomLayer>, depth: int)
    requires layer.depth < first.depth
    ensures Here(first, depth) + (Here(layer, depth) + rest) == Here(layer, depth) + (Here(first, depth) + rest)
  {
    assert Here(first, depth) == [] || Here(layer, depth) == [];
  }

  lemma {:induction false} ByDepthSorts(layers: seq<RoomLayer>)
    ensures Descending(ByDepth(layers))
    decreases |layers|
  {
    if layers != [] {
      ByDepthSorts(layers[1..]);
      InsertSorts(layers[0], ByDepth(layers[1..]));
    }
  }

  lemma {:induction false} ByDepthKeepsAll(layers: seq<RoomLayer>)
    ensures multiset(ByDepth(layers)) == multiset(layers) && |ByDepth(layers)| == |layers|
    decreases |layers|
  {
    if layers != [] {
      var rest := layers[1..];
      ByDepthKeepsAll(rest);
      InsertAdds(layers[0], ByDepth(rest));
      assert layers == [layers[0]] + rest;
      assert |multiset(ByDepth(layers))| == |multiset(layers)|;
    }
  }

  lemma {:induction false} ByDepthIsStable(layers: seq<RoomLayer>, depth: int)
    ensures AtDepth(ByDepth(layers), depth) == AtDepth(layers, depth)
    decreases |layers|
  {
    if layers != [] {
      ByDepthIsStable(layers[1..], depth);
      InsertKeepsOrder(layers[0], ByDepth(layers[1..]), depth);
    }
  }

  /** The layers in drawing order: the same layers, deepest first, those of one depth in the room's order. */
  lemma DrawingOrder(layers: seq<RoomLayer>, depth: int)
    ensures Descending(ByDepth(layers))
    ensures multiset(ByDepth(layers)) == multiset(layers) && |ByDepth(layers)| == |layers|
    ensures AtDepth(ByDepth(layers), depth) == AtDepth(layers, depth)
  {
    ByDepthSorts(layers);
    ByDepthKeepsAll(layers);
    ByDepthIsStable(layers, depth);
  }

  lemma SameLayers(layers: seq<RoomLayer>, l: RoomLayer)
    ensures l in ByDepth(layers) <==> l in layers
  {
    ByDepthKeepsAll(layers);
    assert l in multiset(ByDepth(layers)) <==> l in multiset(layers);
  }

  // ---------- sizes and gids ----------

  function Max(a: nat, b: nat): nat {
    if a < b then b else a
  }

  function FirstGid(counts: TileCounts, sheet: Sheet): nat {
    if sheet.World? then 1 else 1 + counts.world
  }

  function Count(counts: TileCounts, sheet: Sheet): nat {
    if sheet.World? then counts.world else counts.forest
  }

  function FirstObject(counts: TileCounts): nat {
    1 + counts.world + counts.forest
  }

  function Tilesets(counts: TileCounts): seq<Tileset> {
    [Tileset(1, counts.world), Tileset(1 + counts.world, counts.forest), Tileset(FirstObject(counts), counts.objects)]
  }

  function TileSources(layers: seq<RoomLayer>): seq<SourceLayer> {
    if layers == [] then []
    else (if layers[0].content.Tiles? then [layers[0].content.source] else []) + TileSources(layers[1..])
  }

  lemma {:induction false} EverySource(layers: seq<RoomLayer>, layer: RoomLayer)
    requires layer in layers && layer.content.Tiles?
    ensures layer.content.source in TileSources(layers)
    decreases |layers|
  {
    if layers[0] != layer {
      EverySource(layers[1..], layer);
    }
  }

  /** The least size that holds every layer. */
  predicate IsSize(layers: seq<SourceLayer>, width: nat, height: nat) {
    && (forall l :: l in layers ==> l.width * l.sheet.Scale() <= width && l.height * l.sheet.Scale() <= height)
    && (width > 0 ==> exists l :: l in layers && l.width * l.sheet.Scale() == width)
    && (height > 0 ==> exists l :: l in layers && l.height * l.sheet.Scale() == height)
  }

  method MapSize(layers: seq<SourceLayer>) returns (width: nat, height: nat)
    ensures IsSize(layers, width, height)
  {
    width, height := 0, 0;
    for i := 0 to |layers|
      invariant IsSize(layers[..i], width, height)
    {
      assert layers[i] in layers[..i+1];
      assert forall l :: l in layers[..i+1] <==> l in layers[..i] || l == layers[i];
      width := Max(width, layers[i].width * layers[i].sheet.Scale());
      height := Max(height, layers[i].height * layers[i].sheet.Scale());
    }
    assert layers[..|layers|] == layers;
  }

  function ObjectGid(firstgid: nat, asset: Asset): nat {
    var gid := (firstgid + asset.tile) % WORD;
    var gid := if asset.mirrored then Set(gid, TILED_HORIZONTAL) else gid;
    if asset.flipped then Set(gid, TILED_VERTICAL) else gid
  }

  /** An object's gid names its tile, mirrored if its horizontal scale is negative and flipped if its vertical
      one is. */
  lemma ObjectGidMeans(firstgid: nat, asset: Asset, n: nat, p: Point)
    requires firstgid + asset.tile < GID_SPACE
    ensures var gid := ObjectGid(firstgid, asset);
      && gid % GID_SPACE == firstgid + asset.tile
      && TiledPlaces(gid, n, p) == Point(if asset.mirrored then n - 1 - p.x else p.x,
                                         if asset.flipped then n - 1 - p.y else p.y)
  {
    var id := firstgid + asset.tile;
    assert id % WORD == id;
    PackBits(id, false, false, false);
    PackBits(id, false, asset.mirrored, false);
    PackBits(id, false, asset.mirrored, asset.flipped);
  }

  // ---------- what the importer assembles ----------

  /** The layer's data decodes, and its tileset has every tile it uses. */
  ghost predicate Importable(layer: SourceLayer, counts: TileCounts) {
    && CellsOf(layer).Success?
    && forall cell :: cell in CellsOf(layer).value ==>
         MapTile(cell, FirstGid(counts, layer.sheet), Count(counts, layer.sheet)).Success?
  }

  ghost predicate AllImportable(layers: seq<RoomLayer>, counts: TileCounts) {
    forall l :: l in layers && l.content.Tiles? ==> Importable(l.content.source, counts)
  }

  ghost predicate ImportedLayer(layer: SourceLayer, counts: TileCounts, width: nat, height: nat, data: seq<nat>) {
    && CellsOf(layer).Success?
    && LayerPlaced(layer, CellsOf(layer).value, width, height, FirstGid(counts, layer.sheet),
                   Count(counts, layer.sheet), data)
  }

  predicate Holds(asset: Asset, counts: TileCounts, o: MapObject) {
    o.name == asset.sprite && o.gid == ObjectGid(FirstObject(counts), asset)
  }

  /** The map layer stands for the room layer. */
  ghost predicate Represents(room: RoomLayer, counts: TileCounts, width: nat, height: nat, layer: MapLayer) {
    && layer.name == room.name && layer.visible == room.visible
    && match room.content
       case Tiles(source, x, y) =>
         && layer.TileLayer? && layer.offsetX == x && layer.offsetY == y
         && ImportedLayer(source, counts, width, height, layer.data)
       case Assets(assets) =>
         && layer.ObjectGroup? && |layer.objects| == |assets|
         && forall i :: 0 <= i < |assets| ==> Holds(assets[i], counts, layer.objects[i])
       case Other => false
  }

  /** The positions of the first n layers that are drawn. */
  function Kept(sorted: seq<RoomLayer>, n: nat): (kept: seq<nat>)
    requires n <= |sorted|
    ensures forall i :: 0 <= i < |kept| ==> kept[i] < n && !sorted[kept[i]].content.Other?
    ensures forall i, j :: 0 <= i < j < |kept| ==> kept[i] < kept[j]
  {
    if n == 0 then []
    else if sorted[n-1].content.Other? then Kept(sorted, n - 1)
    else Kept(sorted, n - 1) + [n - 1]
  }

  /** One map layer for each of the first n room layers that are drawn, in their order, with its position as id. */
  ghost predicate Assembled(sorted: seq<RoomLayer>, n: nat, counts: TileCounts, width: nat, height: nat,
                            layers: seq<MapLayer>)
    requires n <= |sorted|
  {
    var kept := Kept(sorted, n);
    && |layers| == |kept|
    && forall i :: 0 <= i < |layers| ==>
         layers[i].id == kept[i] + 1 && Represents(sorted[kept[i]], counts, width, height, layers[i])
  }

  function ObjectsOf(layer: MapLayer): seq<MapObject> {
    if layer.ObjectGroup? then layer.objects else []
  }

  function AllObjects(layers: seq<MapLayer>): seq<MapObject> {
    if layers == [] then [] else AllObjects(layers[..|layers|-1]) + ObjectsOf(layers[|layers|-1])
  }

  /** Object ids count on from 1 through all layers. */
  predicate Numbered(objects: seq<MapObject>) {
    forall i :: 0 <= i < |objects| ==> objects[i].id == i + 1
  }

  lemma AllObjectsSnoc(layers: seq<MapLayer>, layer: MapLayer)
    ensures AllObjects(layers + [layer]) == AllObjects(layers) + ObjectsOf(layer)
  {
    assert (layers + [layer])[..|layers|] == layers;
  }

  ghost predicate Imported(room: seq<RoomLayer>, counts: TileCounts, m: TiledMap) {
    var sorted, n := ByDepth(room), |m.layers| - 1;
    && n >= 0
    && IsSize(TileSources(room), m.width, m.height)
    && m.tilesets == Tilesets(counts) && m.properties == PROPERTIES
    && Assembled(sorted, |sorted|, counts, m.width, m.height, m.layers[..n])
    && m.layers[n] == NotesOf(|room| + 1, |AllObjects(m.layers[..n])| + 1)
    && Numbered(AllObjects(m.layers))
    && m.nextLayerId == |room| + 2 && m.nextObjectId == |AllObjects(m.layers)| + 1
  }

  // ---------- the importer ----------

  /** The objects of an asset layer. */
  method PlaceAssets(assets: seq<Asset>, counts: TileCounts, firstId: nat) returns (objects: seq<MapObject>)
    ensures |objects| == |assets|
    ensures forall i :: 0 <= i < |assets| ==> objects[i].id == firstId + i && Holds(assets[i], counts, objects[i])
  {
    objects := [];
    for i := 0 to |assets|
      invariant |objects| == i
      invariant forall k :: 0 <= k < i ==> objects[k].id == firstId + k && Holds(assets[k], counts, objects[k])
    {
      objects := objects + [MapObject(firstId + i, assets[i].sprite, ObjectGid(FirstObject(counts), assets[i]))];
    }
  }

  /** One room layer that is drawn. */
  method ImportLayer(room: RoomLayer, counts: TileCounts, width: nat, height: nat, id: nat, nextObjectId: nat)
    returns (r: Result<MapLayer, Error>)
    requires !room.content.Other?
    requires FitsIn(room, width, height)
    ensures r.Success? <==> (room.content.Tiles? ==> Importable(room.content.source, counts))
    ensures r.Success? ==> r.value.id == id && Represents(room, counts, width, height, r.value)
    ensures r.Success? ==> NumberedFrom(ObjectsOf(r.value), nextObjectId)
  {
    match room.content
    case Tiles(source, x, y) =>
      var data := TileLayerData(source, width, height, FirstGid(counts, source.sheet), Count(counts, source.sheet));
      assert data.Success? <==> Importable(source, counts);
      if data.Failure? { return Failure(data.error); }
      return Success(TileLayer(id, room.name, room.visible, x, y, data.value));
    case Assets(assets) =>
      var objects := PlaceAssets(assets, counts, nextObjectId);
      return Success(ObjectGroup(id, room.name, room.visible, objects));
  }

  /** What the first n layers have come to. */
  ghost predicate Progress(sorted: seq<RoomLayer>, n: nat, counts: TileCounts, width: nat, height: nat,
                           layers: seq<MapLayer>, nextObjectId: nat)
    requires n <= |sorted|
  {
    && Assembled(sorted, n, counts, width, height, layers)
    && (forall k :: 0 <= k < n && sorted[k].content.Tiles? ==> Importable(sorted[k].content.source, counts))
    && Numbered(AllObjects(layers)) && nextObjectId == |AllObjects(layers)| + 1
  }

  lemma ProgressSkip(sorted: seq<RoomLayer>, n: nat, counts: TileCounts, width: nat, height: nat,
                     layers: seq<MapLayer>, nextObjectId: nat)
    requires n < |sorted| && Progress(sorted, n, counts, width, height, layers, nextObjectId)
    requires sorted[n].content.Other?
    ensures Progress(sorted, n + 1, counts, width, height, layers, nextObjectId)
  {
  }

  predicate NumberedFrom(objects: seq<MapObject>, firstId: nat) {
    forall i :: 0 <= i < |objects| ==> objects[i].id == firstId + i
  }

  lemma ProgressSnoc(sorted: seq<RoomLayer>, n: nat, counts: TileCounts, width: nat, height: nat,
                     layers: seq<MapLayer>, nextObjectId: nat, layer: MapLayer)
    requires n < |sorted| && Progress(sorted, n, counts, width, height, layers, nextObjectId)
    requires layer.id == n + 1 && Represents(sorted[n], counts, width, height, layer)
    requires sorted[n].content.Tiles? ==> Importable(sorted[n].content.source, counts)
    requires NumberedFrom(ObjectsOf(layer), nextObjectId)
    ensures Progress(sorted, n + 1, counts, width, height, layers + [layer], nextObjectId + |ObjectsOf(layer)|)
  {
    AllObjectsSnoc(layers, layer);
    NumberedOn(AllObjects(layers), ObjectsOf(layer));
    AssembledSnoc(sorted, n, counts, width, height, layers, layer);
  }

  lemma NumberedOn(objects: seq<MapObject>, more: seq<MapObject>)
    requires Numbered(objects) && NumberedFrom(more, |objects| + 1)
    ensures Numbered(objects + more)
  {
  }

  lemma AssembledSnoc(sorted: seq<RoomLayer>, n: nat, counts: TileCounts, width: nat, height: nat,
                      layers: seq<MapLayer>, layer: MapLayer)
    requires n < |sorted| && Assembled(sorted, n, counts, width, height, layers)
    requires layer.id == n + 1 && Represents(sorted[n], counts, width, height, layer)
    ensures Assembled(sorted, n + 1, counts, width, height, layers + [layer])
  {
  }

  predicate FitsIn(layer: RoomLayer, width: nat, height: nat) {
    layer.content.Tiles? ==>
      var source := layer.content.source;
      source.width * source.sheet.Scale() <= width && source.height * source.sheet.Scale() <= height
  }

  /** One pass of the loop over the layers. */
  method ImportNext(sorted: seq<RoomLayer>, n: nat, counts: TileCounts, width: nat, height: nat,
                    layers: seq<MapLayer>, nextObjectId: nat)
    returns (error: Option<Error>, layers': seq<MapLayer>, nextObjectId': nat)
    requires n < |sorted| && FitsIn(sorted[n], width, height)
    requires Progress(sorted, n, counts, width, height, layers, nextObjectId)
    ensures error.None? ==> Progress(sorted, n + 1, counts, width, height, layers', nextObjectId')
    ensures error.Some? ==> sorted[n].content.Tiles? && !Importable(sorted[n].content.source, counts)
  {
    if sorted[n].content.Other? {
      ProgressSkip(sorted, n, counts, width, height, layers, nextObjectId);
      return None, layers, nextObjectId;
    }
    var layer := ImportLayer(sorted[n], counts, width, height, n + 1, nextObjectId);
    if layer.Failure? { return Some(layer.error), layers, nextObjectId; }
    ProgressSnoc(sorted, n, counts, width, height, layers, nextObjectId, layer.value);
    return None, layers + [layer.value], nextObjectId + |ObjectsOf(layer.value)|;
  }

  method ImportLayers(sorted: seq<RoomLayer>, counts: TileCounts, width: nat, height: nat)
    returns (r: Result<seq<MapLayer>, Error>, nextObjectId: nat)
    requires forall l :: l in sorted ==> FitsIn(l, width, height)
    ensures r.Success? <==> AllImportable(sorted, counts)
    ensures r.Success? ==> Progress(sorted, |sorted|, counts, width, height, r.value, nextObjectId)
  {
    var layers: seq<MapLayer> := [];
    nextObjectId := 1;
    for index := 0 to |sorted|
      invariant Progress(sorted, index, counts, width, height, layers, nextObjectId)
    {
      var error;
      error, layers, nextObjectId := ImportNext(sorted, index, counts, width, height, layers, nextObjectId);
      if error.Some? {
        assert sorted[index] in sorted;
        return Failure(error.value), nextObjectId;
      }
    }
    return Success(layers), nextObjectId;
  }

  lemma SizeFits(room: seq<RoomLayer>, width: nat, height: nat)
    requires IsSize(TileSources(room), width, height)
    ensures forall l :: l in ByDepth(room) ==> FitsIn(l, width, height)
  {
    forall l | l in ByDepth(room) ensures FitsIn(l, width, height) {
      SameLayers(room, l);
      if l.content.Tiles? { EverySource(room, l); }
    }
  }

  lemma SameImportable(room: seq<RoomLayer>, counts: TileCounts)
    ensures AllImportable(ByDepth(room), counts) <==> AllImportable(room, counts)
  {
    forall l ensures l in ByDepth(room) <==> l in room {
      SameLayers(room, l);
    }
  }

  function NotesOf(id: nat, noteId: nat): MapLayer {
    ObjectGroup(id, NOTES, false, [MapObject(noteId, NOTE, 0)])
  }

  method ImportMap(room: seq<RoomLayer>, counts: TileCounts) returns (r: Result<TiledMap, Error>)
    ensures r.Success? <==> AllImportable(room, counts)
    ensures r.Success? ==> Imported(room, counts, r.value)
  {
    var width, height := MapSize(TileSources(room));
    SizeFits(room, width, height);
    SameImportable(room, counts);
    var imported, nextObjectId := ImportLayers(ByDepth(room), counts, width, height);
    if imported.Failure? { return Failure(imported.error); }
    var notes := NotesOf(|room| + 1, nextObjectId);
    AllObjectsSnoc(imported.value, notes);
    assert (imported.value + [notes])[..|imported.value|] == imported.value;
    return Success(TiledMap(width, height, Tilesets(counts), imported.value + [notes], |room| + 2, nextObjectId + 1,
                            PROPERTIES));
  }

  // ---------- ids ----------

  lemma AssembledIds(sorted: seq<RoomLayer>, counts: TileCounts, width: nat, height: nat, layers: seq<MapLayer>,
                     i: nat, j: nat)
    requires Assembled(sorted, |sorted|, counts, width, height, layers) && i <= j < |layers|
    ensures 1 <= layers[i].id <= |sorted| && (i < j ==> layers[i].id < layers[j].id)
  {
    var kept := Kept(sorted, |sorted|);
    assert layers[i].id == kept[i] + 1 && layers[j].id == kept[j] + 1;
  }

  /** The layers before the notes, and the notes. */
  lemma ImportedIds(room: seq<RoomLayer>, counts: TileCounts, m: TiledMap, i: nat, j: nat)
    requires Imported(room, counts, m) && i <= j < |m.layers| - 1
    ensures 1 <= m.layers[i].id <= |room| && (i < j ==> m.layers[i].id < m.layers[j].id)
  {
    var layers := m.layers[..|m.layers|-1];
    DrawingOrder(room, 0);
    AssembledIds(ByDepth(room), counts, m.width, m.height, layers, i, j);
    assert layers[i] == m.layers[i] && layers[j] == m.layers[j];
  }

  lemma LayerIdsAscend(room: seq<RoomLayer>, counts: TileCounts, m: TiledMap, i: nat, j: nat)
    requires Imported(room, counts, m) && i <= j < |m.layers|
    ensures 1 <= m.layers[i].id < m.nextLayerId
    ensures i < j ==> m.layers[i].id < m.layers[j].id
  {
    if i < |m.layers| - 1 {
      ImportedIds(room, counts, m, i, if j < |m.layers| - 1 then j else i);
    }
  }

  /** Layer ids and object ids are distinct and below the map's next ids. */
  lemma IdsAreDistinct(room: seq<RoomLayer>, counts: TileCounts, m: TiledMap)
    requires Imported(room, counts, m)
    ensures forall i :: 0 <= i < |m.layers| ==> 1 <= m.layers[i].id < m.nextLayerId
    ensures forall i, j :: 0 <= i < j < |m.layers| ==> m.layers[i].id < m.layers[j].id
    ensures var objects := AllObjects(m.layers);
            && (forall i :: 0 <= i < |objects| ==> 1 <= objects[i].id < m.nextObjectId)
            && (forall i, j :: 0 <= i < j < |objects| ==> objects[i].id < objects[j].id)
  {
    forall i | 0 <= i < |m.layers| ensures 1 <= m.layers[i].id < m.nextLayerId {
      LayerIdsAscend(room, counts, m, i, i);
    }
    forall i, j | 0 <= i < j < |m.layers| ensures m.layers[i].id < m.layers[j].id {
      LayerIdsAscend(room, counts, m, i, j);
    }
  }
}
