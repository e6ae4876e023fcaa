/** Checking the finished reference map (client/scripts/validate-reference-map.ts), and what it makes of the
    importer's maps. */
module ReferenceMap {
  import opened Wrappers
  import opened TileGid
  import opened TileMap
  import opened RoomImport

  // ---------- what is accepted ----------

  /** Whether a tileset's file is there, and each of the images that it names. */
  datatype TilesetFile = TilesetFile(present: bool, images: seq<bool>)

  datatype Range = Range(first: int, last: int)

  datatype Rejection =
    | NotAReferenceMap
    | WrongLayerOrder
    | MissingTileset(tileset: nat)
    | MissingImage(tileset: nat)
    | WrongCellCount(layer: nat)
    | InvalidGid(gid: nat)

  const EXPECTED_LAYERS := ["sea", "clouds_02", "land", "paths", "shadows", "decoration_01", "Assets_2", "forest",
                            "building", "walls", "decoration_02", "decoration_03", "Assets_1", "cloud_shadow",
                            "clouds_01", "Authoring Notes"]

  function JoinNames(names: seq<string>): string {
    if names == [] then "" else if |names| == 1 then names[0] else names[0] + "|" + JoinNames(names[1..])
  }

  /** Joined names tell their list, as long as no name contains the separator. */
  lemma {:induction false} JoinedNamesTell(a: seq<string>, b: seq<string>)
    requires a != [] && b != []
    requires (forall i :: 0 <= i < |a| ==> '|' !in a[i]) && (forall i :: 0 <= i < |b| ==> '|' !in b[i])
    ensures JoinNames(a) == JoinNames(b) <==> a == b
    decreases |a|
  {
    if JoinNames(a) == JoinNames(b) {
      if |a| > 1 && |b| > 1 {
        SplitAtBar(a[0], JoinNames(a[1..]), b[0], JoinNames(b[1..]));
        JoinedNamesTell(a[1..], b[1..]);
        assert a == [a[0]] + a[1..] && b == [b[0]] + b[1..];
      } else if |a| > 1 {
        HasBar(a[0], JoinNames(a[1..]));
      } else if |b| > 1 {
        HasBar(b[0], JoinNames(b[1..]));
      }
    }
  }

  lemma HasBar(a: string, c: string)
    ensures '|' in a + "|" + c
  {
    assert (a + "|" + c)[|a|] == '|';
  }

  lemma SplitAtBar(a: string, c: string, b: string, d: string)
    requires '|' !in a && '|' !in b && a + "|" + c == b + "|" + d
    ensures a == b && c == d
  {
    var whole := a + "|" + c;
    assert whole[|a|] == '|' && whole[|b|] == '|';
    assert forall i :: 0 <= i < |a| ==> whole[i] == a[i];
    assert forall i :: 0 <= i < |b| ==> whole[i] == b[i];
    assert a == whole[..|a|] && b == whole[..|b|];
    assert c == whole[|a|+1..] && d == whole[|b|+1..];
  }

  function NamesOf(layers: seq<MapLayer>): (names: seq<string>)
    ensures |names| == |layers|
  {
    seq(|layers|, i requires 0 <= i < |layers| => layers[i].name)
  }

  predicate Declares(properties: map<string, bool>) {
    && "qeReferenceMap" in properties && properties["qeReferenceMap"]
    && "qeRuntimeMap" in properties && !properties["qeRuntimeMap"]
  }

  predicate FilesPresent(files: seq<TilesetFile>) {
    forall i :: 0 <= i < |files| ==> files[i].present && false !in files[i].images
  }

  function RangeOf(tilesets: seq<Tileset>, i: nat): Range
    requires i < |tilesets|
  {
    Range(tilesets[i].firstgid,
          (if i + 1 < |tilesets| then tilesets[i+1].firstgid else tilesets[i].firstgid + tilesets[i].tilecount) - 1)
  }

  predicate InRange(gid: nat, r: Range) {
    r.first <= gid % GID_SPACE <= r.last
  }

  predicate ValidGid(tilesets: seq<Tileset>, gid: nat) {
    gid == 0 || exists i :: 0 <= i < |tilesets| && InRange(gid, RangeOf(tilesets, i))
  }

  function GidsOf(layer: MapLayer): (gids: seq<nat>) {
    match layer
    case TileLayer(_, _, _, _, _, data) => data
    case ObjectGroup(_, _, _, objects) => seq(|objects|, i requires 0 <= i < |objects| => objects[i].gid)
  }

  predicate LayerFits(m: TiledMap, layer: MapLayer) {
    && (layer.TileLayer? ==> |layer.data| == m.width * m.height)
    && forall i :: 0 <= i < |GidsOf(layer)| ==> ValidGid(m.tilesets, GidsOf(layer)[i])
  }

  predicate LayersFit(m: TiledMap) {
    FitSoFar(m, |m.layers|)
  }

  predicate Accepts(m: TiledMap, files: seq<TilesetFile>, expected: seq<string>) {
    && Declares(m.properties) && JoinNames(NamesOf(m.layers)) == JoinNames(expected)
    && FilesPresent(files) && LayersFit(m)
  }

  function NonZero(gids: seq<nat>): nat {
    if gids == [] then 0 else NonZero(gids[..|gids|-1]) + (if gids[|gids|-1] == 0 then 0 else 1)
  }

  /** How many gids are checked: those that are not 0. */
  function Checked(layers: seq<MapLayer>): nat {
    if layers == [] then 0 else Checked(layers[..|layers|-1]) + NonZero(GidsOf(layers[|layers|-1]))
  }

  // ---------- the validator ----------

  predicate RangeIs(tilesets: seq<Tileset>, ranges: seq<Range>, i: nat)
    requires i < |tilesets| && i < |ranges|
  {
    ranges[i] == RangeOf(tilesets, i)
  }

  predicate AreRanges(tilesets: seq<Tileset>, ranges: seq<Range>) {
    |ranges| == |tilesets| && forall i | 0 <= i < |tilesets| :: RangeIs(tilesets, ranges, i)
  }

  /** The loop over the tilesets. */
  method BuildRanges(tilesets: seq<Tileset>, files: seq<TilesetFile>) returns (r: Result<seq<Range>, Rejection>)
    requires |files| == |tilesets|
    ensures r.Success? <==> FilesPresent(files)
    ensures r.Success? ==> AreRanges(tilesets, r.value)
  {
    var ranges: seq<Range> := [];
    for index := 0 to |tilesets|
      invariant |ranges| == index && forall i :: 0 <= i < index ==> ranges[i] == RangeOf(tilesets, i)
      invariant forall i :: 0 <= i < index ==> files[i].present && false !in files[i].images
    {
      if !files[index].present { return Failure(MissingTileset(index)); }
      if false in files[index].images { return Failure(MissingImage(index)); }
      var firstgid := tilesets[index].firstgid;
      var end := if index + 1 < |tilesets| then tilesets[index+1].firstgid else firstgid + tilesets[index].tilecount;
      ranges := ranges + [Range(firstgid, end - 1)];
    }
    return Success(ranges);
  }

  predicate Covered(ranges: seq<Range>, gid: nat) {
    gid == 0 || exists i :: 0 <= i < |ranges| && InRange(gid, ranges[i])
  }

  method CheckGids(ranges: seq<Range>, gids: seq<nat>) returns (r: Result<nat, Rejection>)
    ensures r.Success? <==> forall i :: 0 <= i < |gids| ==> Covered(ranges, gids[i])
    ensures r.Success? ==> r.value == NonZero(gids)
    ensures r.Failure? ==> exists i :: 0 <= i < |gids| && r.error == InvalidGid(gids[i]) && !Covered(ranges, gids[i])
  {
    var checked := 0;
    for i := 0 to |gids|
      invariant forall k :: 0 <= k < i ==> Covered(ranges, gids[k])
      invariant checked == NonZero(gids[..i])
    {
      assert gids[..i+1][..i] == gids[..i];
      if gids[i] != 0 {
        if !Covered(ranges, gids[i]) { return Failure(InvalidGid(gids[i])); }
        checked := checked + 1;
      }
    }
    assert gids[..|gids|] == gids;
    return Success(checked);
  }

  lemma CoveredIsValid(tilesets: seq<Tileset>, ranges: seq<Range>, gid: nat)
    requires AreRanges(tilesets, ranges)
    ensures Covered(ranges, gid) <==> ValidGid(tilesets, gid)
  {
    if ValidGid(tilesets, gid) && gid != 0 {
      var i :| 0 <= i < |tilesets| && InRange(gid, RangeOf(tilesets, i));
      assert RangeIs(tilesets, ranges, i) && InRange(gid, ranges[i]);
    }
    if Covered(ranges, gid) && gid != 0 {
      var i :| 0 <= i < |ranges| && InRange(gid, ranges[i]);
      assert RangeIs(tilesets, ranges, i) && InRange(gid, RangeOf(tilesets, i));
    }
  }

  /** One layer: its cell count if it is a tile layer, then its gids. */
  method CheckLayer(m: TiledMap, ranges: seq<Range>, k: nat) returns (r: Result<nat, Rejection>)
    requires k < |m.layers|
    requires AreRanges(m.tilesets, ranges)
    ensures r.Success? <==> LayerFits(m, m.layers[k])
    ensures r.Success? ==> r.value == NonZero(GidsOf(m.layers[k]))
  {
    var layer := m.layers[k];
    if layer.TileLayer? && |layer.data| != m.width * m.height { return Failure(WrongCellCount(k)); }
    forall gid: nat ensures Covered(ranges, gid) <==> ValidGid(m.tilesets, gid) {
      CoveredIsValid(m.tilesets, ranges, gid);
    }
    r := CheckGids(ranges, GidsOf(layer));
  }

  predicate FitSoFar(m: TiledMap, k: nat)
    requires k <= |m.layers|
  {
    forall j :: 0 <= j < k ==> LayerFits(m, m.layers[j])
  }

  /** The gids of the first k layers that are checked. */
  function CheckedBefore(layers: seq<MapLayer>): nat -> nat {
    (k: nat) => if k <= |layers| then Checked(layers[..k]) else 0
  }

  predicate CountsLayer(before: nat -> nat, layers: seq<MapLayer>, k: nat)
    requires k < |layers|
  {
    before(k + 1) == before(k) + NonZero(GidsOf(layers[k]))
  }

  predicate Counts(before: nat -> nat, layers: seq<MapLayer>) {
    before(0) == 0 && forall k | 0 <= k < |layers| :: CountsLayer(before, layers, k)
  }

  lemma CheckedCounts(layers: seq<MapLayer>)
    ensures Counts(CheckedBefore(layers), layers) && CheckedBefore(layers)(|layers|) == Checked(layers)
  {
    forall k | 0 <= k < |layers| ensures CountsLayer(CheckedBefore(layers), layers, k) {
      assert layers[..k+1][..k] == layers[..k];
    }
    assert layers[..|layers|] == layers;
  }

  /** The loop over the layers. */
  method CheckLayers(m: TiledMap, ranges: seq<Range>, ghost before: nat -> nat) returns (r: Result<nat, Rejection>)
    requires AreRanges(m.tilesets, ranges) && Counts(before, m.layers)
    ensures r.Success? <==> LayersFit(m)
    ensures r.Success? ==> r.value == before(|m.layers|)
  {
    var checkedGids := 0;
    for k := 0 to |m.layers|
      invariant FitSoFar(m, k)
      invariant checkedGids == before(k)
    {
      var checked := CheckLayer(m, ranges, k);
      if checked.Failure? { return Failure(checked.error); }
      assert CountsLayer(before, m.layers, k);
      checkedGids := checkedGids + checked.value;
    }
    return Success(checkedGids);
  }

  /** The whole check, for the layer names that are expected; it answers how many gids it checked. */
  method ValidateMap(m: TiledMap, files: seq<TilesetFile>, expected: seq<string>) returns (r: Result<nat, Rejection>)
    requires |files| == |m.tilesets|
    ensures r.Success? <==> Accepts(m, files, expected)
    ensures r.Success? ==> r.value == Checked(m.layers)
  {
    if !Declares(m.properties) { return Failure(NotAReferenceMap); }
    if JoinNames(NamesOf(m.layers)) != JoinNames(expected) { return Failure(WrongLayerOrder); }
    var ranges := BuildRanges(m.tilesets, files);
    if ranges.Failure? { return Failure(ranges.error); }
    CheckedCounts(m.layers);
    r := CheckLayers(m, ranges.value, CheckedBefore(m.layers));
  }

  method ValidateReferenceMap(m: TiledMap, files: seq<TilesetFile>) returns (r: Result<nat, Rejection>)
    requires |files| == |m.tilesets|
    ensures r.Success? <==> Accepts(m, files, EXPECTED_LAYERS)
    ensures r.Success? ==> r.value == Checked(m.layers)
  {
    r := ValidateMap(m, files, EXPECTED_LAYERS);
  }

  // ---------- the validator on what the importer builds ----------

  /** A gid lies in the range of exactly one tileset. */
  predicate InExactlyOneRange(tilesets: seq<Tileset>, gid: nat) {
    exists i :: 0 <= i < |tilesets| && OnlyRange(tilesets, gid, i)
  }

  predicate OnlyRange(tilesets: seq<Tileset>, gid: nat, i: nat) {
    i < |tilesets| && forall j :: 0 <= j < |tilesets| ==> (InRange(gid, RangeOf(tilesets, j)) <==> i == j)
  }

  lemma RangesAreDisjoint(counts: TileCounts, gid: nat, i: nat)
    requires i < 3
    requires var t := Tilesets(counts)[i]; t.firstgid <= gid % GID_SPACE < t.firstgid + t.tilecount
    ensures OnlyRange(Tilesets(counts), gid, i) && InExactlyOneRange(Tilesets(counts), gid)
  {
    var t := Tilesets(counts);
    forall j | 0 <= j < |t| ensures InRange(gid, RangeOf(t, j)) <==> i == j {
      assert j == 0 || j == 1 || j == 2;
    }
  }

  lemma LayerGids(layer: SourceLayer, counts: TileCounts, width: nat, height: nat, data: seq<nat>, i: nat)
    requires ImportedLayer(layer, counts, width, height, data) && i < |data| && data[i] != 0
    requires FirstObject(counts) + counts.objects <= GID_SPACE
    ensures InExactlyOneRange(Tilesets(counts), data[i])
  {
    var cells, firstgid, tilecount := CellsOf(layer).value, FirstGid(counts, layer.sheet), Count(counts, layer.sheet);
    var g := Grid(layer.width, layer.height, layer.sheet.Scale(), width, height);
    var c: Cell :| Inside(g, c) && Destination(g, c) == i;
    assert Inside(g, Cell(c.x, c.y));
    var cell := cells[CellIndex(g, c)];
    TranslationPreservesMeaning(cell, firstgid, tilecount, 0, Point(0, 0));
    RangesAreDisjoint(counts, data[i], if layer.sheet.World? then 0 else 1);
  }

  lemma ObjectGids(counts: TileCounts, asset: Asset)
    requires FirstObject(counts) + counts.objects <= GID_SPACE && asset.tile < counts.objects
    ensures InExactlyOneRange(Tilesets(counts), ObjectGid(FirstObject(counts), asset))
  {
    var id := FirstObject(counts) + asset.tile;
    PackBits(id, false, false, false);
    PackBits(id, false, asset.mirrored, false);
    PackBits(id, false, asset.mirrored, asset.flipped);
    assert ObjectGid(FirstObject(counts), asset) == Pack(id, false, asset.mirrored, asset.flipped);
    RangesAreDisjoint(counts, ObjectGid(FirstObject(counts), asset), 2);
  }

  /** Every sprite's tile is in the object tileset, as the importer writes it for the sprites of the room. */
  predicate SpritesKnown(room: seq<RoomLayer>, counts: TileCounts) {
    forall l :: l in room && l.content.Assets? ==>
      forall i :: 0 <= i < |l.content.assets| ==> l.content.assets[i].tile < counts.objects
  }

  predicate GidsAreUnambiguous(tilesets: seq<Tileset>, layer: MapLayer) {
    forall i :: 0 <= i < |GidsOf(layer)| && GidsOf(layer)[i] != 0 ==> InExactlyOneRange(tilesets, GidsOf(layer)[i])
  }

  lemma RepresentedFits(room: RoomLayer, counts: TileCounts, m: TiledMap, layer: MapLayer)
    requires Represents(room, counts, m.width, m.height, layer) && m.tilesets == Tilesets(counts)
    requires SpritesKnown([room], counts) && FirstObject(counts) + counts.objects <= GID_SPACE
    ensures GidsAreUnambiguous(m.tilesets, layer) && LayerFits(m, layer)
  {
    forall i | 0 <= i < |GidsOf(layer)| && GidsOf(layer)[i] != 0
      ensures InExactlyOneRange(m.tilesets, GidsOf(layer)[i])
    {
      if room.content.Tiles? {
        LayerGids(room.content.source, counts, m.width, m.height, layer.data, i);
      } else {
        assert room in [room] && Holds(room.content.assets[i], counts, layer.objects[i]);
        ObjectGids(counts, room.content.assets[i]);
      }
    }
    UnambiguousIsValid(m.tilesets, layer);
  }

  lemma UnambiguousIsValid(tilesets: seq<Tileset>, layer: MapLayer)
    requires GidsAreUnambiguous(tilesets, layer)
    ensures forall i :: 0 <= i < |GidsOf(layer)| ==> ValidGid(tilesets, GidsOf(layer)[i])
  {
    forall i | 0 <= i < |GidsOf(layer)| && GidsOf(layer)[i] != 0 ensures ValidGid(tilesets, GidsOf(layer)[i]) {
      var gid := GidsOf(layer)[i];
      var k :| 0 <= k < |tilesets| && OnlyRange(tilesets, gid, k);
      assert InRange(gid, RangeOf(tilesets, k));
    }
  }

  /** The names of the layers that are drawn, in drawing order, and of the notes. */
  function DrawnNames(room: seq<RoomLayer>): seq<string> {
    var sorted := ByDepth(room);
    var kept := Kept(sorted, |sorted|);
    seq(|kept|, i requires 0 <= i < |kept| => sorted[kept[i]].name) + [NOTES]
  }

  lemma AssembledFits(sorted: seq<RoomLayer>, counts: TileCounts, m: TiledMap, layers: seq<MapLayer>, k: nat)
    requires Assembled(sorted, |sorted|, counts, m.width, m.height, layers) && k < |layers|
    requires m.tilesets == Tilesets(counts) && FirstObject(counts) + counts.objects <= GID_SPACE
    requires SpritesKnown(sorted, counts)
    ensures LayerFits(m, layers[k]) && GidsAreUnambiguous(m.tilesets, layers[k])
  {
    var layer := sorted[Kept(sorted, |sorted|)[k]];
    assert layer in sorted;
    RepresentedFits(layer, counts, m, layers[k]);
  }

  lemma SpritesStayKnown(room: seq<RoomLayer>, counts: TileCounts)
    requires SpritesKnown(room, counts)
    ensures SpritesKnown(ByDepth(room), counts)
  {
    forall l | l in ByDepth(room) ensures l in room {
      SameLayers(room, l);
    }
  }

  lemma ImportedFits(room: seq<RoomLayer>, counts: TileCounts, m: TiledMap, k: nat)
    requires Imported(room, counts, m) && k < |m.layers|
    requires FirstObject(counts) + counts.objects <= GID_SPACE && SpritesKnown(room, counts)
    ensures LayerFits(m, m.layers[k]) && GidsAreUnambiguous(m.tilesets, m.layers[k])
  {
    var layers := m.layers[..|m.layers|-1];
    if k < |layers| {
      SpritesStayKnown(room, counts);
      AssembledFits(ByDepth(room), counts, m, layers, k);
      assert layers[k] == m.layers[k];
    } else {
      assert GidsOf(m.layers[k]) == [0];
    }
  }

  /** Every imported map has the right cell counts and gids, each nonzero gid naming exactly one tileset; so it is
      accepted exactly when the files are there and its layers, in drawing order, have the expected names. */
  lemma ImportedMapIsAccepted(room: seq<RoomLayer>, counts: TileCounts, m: TiledMap, files: seq<TilesetFile>,
                              expected: seq<string>)
    requires Imported(room, counts, m)
    requires FirstObject(counts) + counts.objects <= GID_SPACE && SpritesKnown(room, counts)
    ensures LayersFit(m)
    ensures forall k :: 0 <= k < |m.layers| ==> GidsAreUnambiguous(m.tilesets, m.layers[k])
    ensures Accepts(m, files, expected) <==> FilesPresent(files) && JoinNames(DrawnNames(room)) == JoinNames(expected)
  {
    forall k | 0 <= k < |m.layers|
      ensures LayerFits(m, m.layers[k]) && GidsAreUnambiguous(m.tilesets, m.layers[k])
    {
      ImportedFits(room, counts, m, k);
    }
    DrawnAreNamed(room, counts, m);
    assert m.properties == PROPERTIES;
  }

  lemma DrawnAreNamed(room: seq<RoomLayer>, counts: TileCounts, m: TiledMap)
    requires Imported(room, counts, m)
    ensures NamesOf(m.layers) == DrawnNames(room)
  {
    var n := |m.layers| - 1;
    forall i | 0 <= i < n ensures NamesOf(m.layers)[i] == DrawnNames(room)[i] {
      assert m.layers[..n][i] == m.layers[i];
    }
  }
}
