/**
 * The older `misa.core.Renderer` (kept under `_site/`): each frame it advances
 * the camera, applies its transform, draws every cell of every layer as its
 * tileset's whole image, fills each map object's rectangle, then draws the
 * sprites and (in debug mode) an overlay.
 */
module LegacyRenderer {
  import opened Wrappers
  import opened JavaLang
  import opened TiledRecords
  import opened CameraMath
  import opened Drawing
  import Maps = TiledMap
  import LegacyCamera
  import Boundary = CameraBoundary
  import Manager = CameraManager
  import TileDecoding

  /**
   * Drawing that may be cut short: the commands issued so far, and whether a
   * null dereference (an unresolved tile's tileset) ended it.
   */
  datatype Drawn = Drawn(commands: seq<Command>, failed: bool)

  /**
   * The rows the loops visit exist and hold at least `width` cells, as in
   * every layer the parser builds.
   */
  predicate Shaped(layer: TiledLayer)
  {
    && 0 <= layer.width && 0 <= layer.height <= |layer.tileData|
    && forall y :: 0 <= y < layer.height ==> layer.width <= |layer.tileData[y]|
  }

  /** Every layer of the map is shaped. */
  predicate MapShaped(m: Maps.TiledMap)
  {
    forall i :: 0 <= i < |m.layers| ==> Shaped(m.layers[i])
  }

  /** Every one of the first `n` cells of the row resolves to a tileset. */
  predicate RowResolvable(tilesets: seq<TiledTileset>, row: seq<int>, n: int)
    requires 0 <= n <= |row|
  {
    forall x :: 0 <= x < n ==> TilesetForTile(tilesets, row[x]).Some?
  }

  /** Every cell of the first `m` rows resolves. */
  predicate RowsResolvable(tilesets: seq<TiledTileset>, layer: TiledLayer, m: int)
    requires Shaped(layer) && 0 <= m <= layer.height
  {
    forall y :: 0 <= y < m ==> RowResolvable(tilesets, layer.tileData[y], layer.width)
  }

  /** Every cell of the layer resolves. */
  predicate LayerResolvable(tilesets: seq<TiledTileset>, layer: TiledLayer)
    requires Shaped(layer)
  {
    RowsResolvable(tilesets, layer, layer.height)
  }

  /** Every cell of every layer resolves. */
  predicate MapResolvable(m: Maps.TiledMap)
    requires MapShaped(m)
  {
    forall i :: 0 <= i < |m.layers| ==> LayerResolvable(m.tilesets, m.layers[i])
  }

  /** What cell `(x, y)` with tile `id` draws: its tileset's image over the cell. */
  function CellDraw(tilesets: seq<TiledTileset>, tileWidth: int, tileHeight: int, id: int, x: int, y: int): Command
    requires TilesetForTile(tilesets, id).Some?
  {
    DrawTileset(TilesetForTile(tilesets, id).value, CellRect(x, y, tileWidth, tileHeight))
  }

  /**
   * The first `n` cells of row `y`, left to right; a cell whose ID resolves to
   * no tileset dereferences null and ends the drawing.
   */
  function RowDraws(tilesets: seq<TiledTileset>, tileWidth: int, tileHeight: int, row: seq<int>, y: int, n: int): (r: Drawn)
    requires 0 <= n <= |row|
    ensures |r.commands| <= n
  {
    if n == 0 then Drawn([], false)
    else
      var before := RowDraws(tilesets, tileWidth, tileHeight, row, y, n - 1);
      if before.failed then before
      else match TilesetForTile(tilesets, row[n - 1])
        case None => Drawn(before.commands, true)
        case Some(t) => Drawn(before.commands + [DrawTileset(t, CellRect(n - 1, y, tileWidth, tileHeight))], false)
  }

  /**
   * A row is drawn whole exactly when all its cells resolve, draw `x` being
   * cell `x`'s tileset image, empty cells included; otherwise the drawing
   * stops at the first cell that does not resolve, after all cells before it.
   */
  lemma {:induction false} RowDrawsEveryCell(tilesets: seq<TiledTileset>, tileWidth: int, tileHeight: int, row: seq<int>, y: int, n: int)
    requires 0 <= n <= |row|
    ensures var r := RowDraws(tilesets, tileWidth, tileHeight, row, y, n);
      !r.failed <==> RowResolvable(tilesets, row, n)
    ensures var r := RowDraws(tilesets, tileWidth, tileHeight, row, y, n);
      !r.failed ==> (|r.commands| == n
        && forall x :: 0 <= x < n ==> r.commands[x] == CellDraw(tilesets, tileWidth, tileHeight, row[x], x, y))
    ensures var r := RowDraws(tilesets, tileWidth, tileHeight, row, y, n);
      r.failed ==> (|r.commands| < n && RowResolvable(tilesets, row, |r.commands|)
        && TilesetForTile(tilesets, row[|r.commands|]).None?)
  {
    if n > 0 {
      RowDrawsEveryCell(tilesets, tileWidth, tileHeight, row, y, n - 1);
    }
  }

  /** Once a row's drawing has failed, more cells change nothing. */
  lemma {:induction false} RowDrawsStopped(tilesets: seq<TiledTileset>, tileWidth: int, tileHeight: int, row: seq<int>, y: int, n: int, n': int)
    requires 0 <= n <= n' <= |row|
    requires RowDraws(tilesets, tileWidth, tileHeight, row, y, n).failed
    ensures RowDraws(tilesets, tileWidth, tileHeight, row, y, n') == RowDraws(tilesets, tileWidth, tileHeight, row, y, n)
  {
    if n' > n {
      RowDrawsStopped(tilesets, tileWidth, tileHeight, row, y, n, n' - 1);
    }
  }

  /** The first `m` rows of a layer, top to bottom, up to the first failure. */
  function LayerDraws(tilesets: seq<TiledTileset>, tileWidth: int, tileHeight: int, layer: TiledLayer, m: int): Drawn
    requires Shaped(layer) && 0 <= m <= layer.height
  {
    if m == 0 then Drawn([], false)
    else
      var before := LayerDraws(tilesets, tileWidth, tileHeight, layer, m - 1);
      if before.failed then before
      else
        var row := RowDraws(tilesets, tileWidth, tileHeight, layer.tileData[m - 1], m - 1, layer.width);
        Drawn(before.commands + row.commands, row.failed)
  }

  /** Once a layer's drawing has failed, more rows change nothing. */
  lemma {:induction false} LayerDrawsStopped(tilesets: seq<TiledTileset>, tileWidth: int, tileHeight: int, layer: TiledLayer, m: int, m': int)
    requires Shaped(layer) && 0 <= m <= m' <= layer.height
    requires LayerDraws(tilesets, tileWidth, tileHeight, layer, m).failed
    ensures LayerDraws(tilesets, tileWidth, tileHeight, layer, m') == LayerDraws(tilesets, tileWidth, tileHeight, layer, m)
  {
    if m' > m {
      LayerDrawsStopped(tilesets, tileWidth, tileHeight, layer, m, m' - 1);
    }
  }

  /** `draws` holds the draw of cell `(x, y)` of the layer at its row-major position. */
  predicate DrawnAt(draws: seq<Command>, tilesets: seq<TiledTileset>, tileWidth: int, tileHeight: int,
                    layer: TiledLayer, y: int, x: int)
    requires Shaped(layer)
    requires 0 <= y < layer.height && 0 <= x < layer.width
    requires TilesetForTile(tilesets, layer.tileData[y][x]).Some?
  {
    var i := TileDecoding.RowMajorIndex(y, x, layer.width);
    0 <= i < |draws| && draws[i] == CellDraw(tilesets, tileWidth, tileHeight, layer.tileData[y][x], x, y)
  }

  /**
   * The first `m` rows are drawn without failure exactly when all their
   * cells resolve, and then with exactly one draw per cell in row-major
   * order: the draw of cell `(x, y)` sits at `y * width + x`.
   */
  lemma {:induction false} LayerDrawsEveryCell(tilesets: seq<TiledTileset>, tileWidth: int, tileHeight: int, layer: TiledLayer, m: int)
    requires Shaped(layer) && 0 <= m <= layer.height
    ensures !LayerDraws(tilesets, tileWidth, tileHeight, layer, m).failed <==> RowsResolvable(tilesets, layer, m)
    ensures !LayerDraws(tilesets, tileWidth, tileHeight, layer, m).failed ==>
      |LayerDraws(tilesets, tileWidth, tileHeight, layer, m).commands| == TileDecoding.RowMajorIndex(m, 0, layer.width)
      && forall y, x :: 0 <= y < m && 0 <= x < layer.width ==>
           DrawnAt(LayerDraws(tilesets, tileWidth, tileHeight, layer, m).commands, tilesets, tileWidth, tileHeight, layer, y, x)
  {
    if m > 0 {
      LayerDrawsEveryCell(tilesets, tileWidth, tileHeight, layer, m - 1);
      var previous := LayerDraws(tilesets, tileWidth, tileHeight, layer, m - 1);
      if !previous.failed {
        LayerDrawsStep(previous.commands, tilesets, tileWidth, tileHeight, layer, m);
      }
    }
  }

  lemma LayerDrawsStep(previous: seq<Command>, tilesets: seq<TiledTileset>, tileWidth: int, tileHeight: int,
                       layer: TiledLayer, m: int)
    requires Shaped(layer) && 0 < m <= layer.height
    requires RowsResolvable(tilesets, layer, m - 1)
    requires |previous| == TileDecoding.RowMajorIndex(m - 1, 0, layer.width)
    requires forall y, x :: 0 <= y < m - 1 && 0 <= x < layer.width ==>
      DrawnAt(previous, tilesets, tileWidth, tileHeight, layer, y, x)
    ensures var last := RowDraws(tilesets, tileWidth, tileHeight, layer.tileData[m - 1], m - 1, layer.width);
      !last.failed <==> RowsResolvable(tilesets, layer, m)
    ensures var last := RowDraws(tilesets, tileWidth, tileHeight, layer.tileData[m - 1], m - 1, layer.width);
      !last.failed ==>
        |previous + last.commands| == TileDecoding.RowMajorIndex(m, 0, layer.width)
        && forall y, x :: 0 <= y < m && 0 <= x < layer.width ==>
             DrawnAt(previous + last.commands, tilesets, tileWidth, tileHeight, layer, y, x)
  {
    var w := layer.width;
    var last := RowDraws(tilesets, tileWidth, tileHeight, layer.tileData[m - 1], m - 1, w);
    RowDrawsEveryCell(tilesets, tileWidth, tileHeight, layer.tileData[m - 1], m - 1, w);
    if !last.failed {
      assert TileDecoding.RowMajorIndex(m, 0, w) == TileDecoding.RowMajorIndex(m - 1, 0, w) + w;
      forall y, x | 0 <= y < m && 0 <= x < w
        ensures DrawnAt(previous + last.commands, tilesets, tileWidth, tileHeight, layer, y, x)
      {
        if y < m - 1 {
          DrawnAtAppend(previous, last.commands, tilesets, tileWidth, tileHeight, layer, y, x);
        } else {
          DrawnAtLastRow(previous, last.commands, tilesets, tileWidth, tileHeight, layer, y, x);
        }
      }
    }
  }

  lemma DrawnAtAppend(draws: seq<Command>, more: seq<Command>, tilesets: seq<TiledTileset>, tileWidth: int, tileHeight: int,
                      layer: TiledLayer, y: int, x: int)
    requires Shaped(layer)
    requires 0 <= y < layer.height && 0 <= x < layer.width
    requires TilesetForTile(tilesets, layer.tileData[y][x]).Some?
    requires DrawnAt(draws, tilesets, tileWidth, tileHeight, layer, y, x)
    ensures DrawnAt(draws + more, tilesets, tileWidth, tileHeight, layer, y, x)
  {
    var i := TileDecoding.RowMajorIndex(y, x, layer.width);
    assert (draws + more)[i] == draws[i];
  }

  lemma DrawnAtLastRow(draws: seq<Command>, row: seq<Command>, tilesets: seq<TiledTileset>, tileWidth: int, tileHeight: int,
                       layer: TiledLayer, y: int, x: int)
    requires Shaped(layer)
    requires 0 <= y < layer.height && 0 <= x < layer.width
    requires TilesetForTile(tilesets, layer.tileData[y][x]).Some?
    requires |draws| == TileDecoding.RowMajorIndex(y, 0, layer.width) && x < |row|
    requires row[x] == CellDraw(tilesets, tileWidth, tileHeight, layer.tileData[y][x], x, y)
    ensures DrawnAt(draws + row, tilesets, tileWidth, tileHeight, layer, y, x)
  {
    var i := TileDecoding.RowMajorIndex(y, x, layer.width);
    assert i == |draws| + x;
    assert (draws + row)[i] == row[x];
  }

  /** The first `k` layers of the map, in list order, up to the first failure. */
  function LayersDraws(m: Maps.TiledMap, k: int): Drawn
    requires MapShaped(m) && 0 <= k <= |m.layers|
  {
    if k == 0 then Drawn([], false)
    else
      var before := LayersDraws(m, k - 1);
      if before.failed then before
      else
        var layer := LayerDraws(m.tilesets, m.tileWidth, m.tileHeight, m.layers[k - 1], m.layers[k - 1].height);
        Drawn(before.commands + layer.commands, layer.failed)
  }

  /** Once the map's drawing has failed, more layers change nothing. */
  lemma {:induction false} LayersDrawsStopped(m: Maps.TiledMap, k: int, k': int)
    requires MapShaped(m) && 0 <= k <= k' <= |m.layers|
    requires LayersDraws(m, k).failed
    ensures LayersDraws(m, k') == LayersDraws(m, k)
  {
    if k' > k {
      LayersDrawsStopped(m, k, k' - 1);
    }
  }

  /** The layers are drawn without failure exactly when every cell of every one of them resolves. */
  lemma {:induction false} LayersDrawsFail(m: Maps.TiledMap, k: int)
    requires MapShaped(m) && 0 <= k <= |m.layers|
    ensures !LayersDraws(m, k).failed <==> forall i :: 0 <= i < k ==> LayerResolvable(m.tilesets, m.layers[i])
  {
    if k > 0 {
      LayersDrawsFail(m, k - 1);
      var layer := m.layers[k - 1];
      LayerDrawsEveryCell(m.tilesets, m.tileWidth, m.tileHeight, layer, layer.height);
    }
  }

  /**
   * Tiled writes every tileset with a `firstGID` of 1 or more, so a map
   * whose first layer has an empty cell fails to draw: the first empty cell
   * dereferences null.
   */
  lemma EmptyCellThrows(m: Maps.TiledMap, y: int, x: int)
    requires forall j :: 0 <= j < |m.tilesets| ==> 1 <= m.tilesets[j].firstGID
    requires MapShaped(m) && |m.layers| > 0
    requires 0 <= y < m.layers[0].height && 0 <= x < m.layers[0].width
    requires m.layers[0].tileData[y][x] == 0
    ensures LayersDraws(m, |m.layers|).failed
  {
    EmptyCellUnresolved(m.tilesets);
    LayersDrawsFail(m, |m.layers|);
    assert !RowResolvable(m.tilesets, m.layers[0].tileData[y], m.layers[0].width);
  }

  /** `fillRect((int) x, (int) y, (int) width, (int) height)` for one map object. */
  function ObjectFill(o: TiledObject): (c: Command)
    ensures c.FillObject?
    ensures 0.0 <= o.x ==> 0 <= c.x
    ensures 0.0 <= o.y ==> 0 <= c.y
  {
    FillObject(DoubleToInt(o.x), DoubleToInt(o.y), DoubleToInt(o.width), DoubleToInt(o.height))
  }

  /** `renderObjects(g)`: one filled rectangle per map object, in list order. */
  function ObjectFills(objects: seq<TiledObject>): (r: seq<Command>)
    ensures |r| == |objects|
    ensures forall i :: 0 <= i < |r| ==> r[i] == ObjectFill(objects[i])
  {
    if objects == [] then []
    else ObjectFills(objects[..|objects| - 1]) + [ObjectFill(objects[|objects| - 1])]
  }

  /** `renderSprites()`: one draw per sprite, in list order. */
  function SpriteDraws(sprites: seq<Sprite>): (r: seq<Command>)
    ensures |r| == |sprites|
    ensures forall i :: 0 <= i < |r| ==> r[i] == DrawSprite(sprites[i])
  {
    if sprites == [] then []
    else SpriteDraws(sprites[..|sprites| - 1]) + [DrawSprite(sprites[|sprites| - 1])]
  }

  class Renderer {
    const cameraManager: Manager.CameraManager
    /** The map to draw; `None` is the null a failed load hands over. */
    const tiledMap: Option<Maps.TiledMap>
    var sprites: seq<Sprite>
    var debugMode: bool

    /** A renderer starts with no sprites and debug mode off; the map may be null. */
    constructor (camera: LegacyCamera.Camera, cameraBoundary: Boundary.CameraBoundary,
                 viewportUnitsWidth: real, viewportUnitsHeight: real, tiledMap: Option<Maps.TiledMap>)
      ensures cameraManager.camera == camera && cameraManager.cameraBoundary == cameraBoundary
      ensures cameraManager.viewportUnitsWidth == viewportUnitsWidth
      ensures cameraManager.viewportUnitsHeight == viewportUnitsHeight
      ensures this.tiledMap == tiledMap && sprites == [] && !debugMode
    {
      cameraManager := new Manager.CameraManager(camera, cameraBoundary, viewportUnitsWidth, viewportUnitsHeight);
      this.tiledMap := tiledMap;
      sprites := [];
      debugMode := false;
    }

    /** `addSprite(s)`: appends. */
    method AddSprite(sprite: Sprite)
      modifies this
      ensures sprites == old(sprites) + [sprite]
      ensures debugMode == old(debugMode)
    {
      sprites := sprites + [sprite];
    }

    /**
     * `removeSprite(index)`: drops the sprite at `index`, shifting the later
     * ones down; an index outside the list changes nothing.
     */
    method RemoveSprite(index: int)
      modifies this
      ensures 0 <= index < |old(sprites)| ==>
        && |sprites| == |old(sprites)| - 1
        && (forall i :: 0 <= i < index ==> sprites[i] == old(sprites)[i])
        && (forall i :: index <= i < |sprites| ==> sprites[i] == old(sprites)[i + 1])
      ensures !(0 <= index < |old(sprites)|) ==> sprites == old(sprites)
      ensures debugMode == old(debugMode)
    {
      if 0 <= index < |sprites| {
        sprites := sprites[..index] + sprites[index + 1..];
      }
    }

    method ToggleDebugMode(debugMode: bool)
      modifies this
      ensures this.debugMode == debugMode && sprites == old(sprites)
    {
      this.debugMode := debugMode;
    }

    /** `handleInput(...)`: hands the flags to the camera manager. */
    method HandleInput(moveSpeed: real, zoomSpeed: real,
                       moveLeft: bool, moveRight: bool, moveUp: bool, moveDown: bool,
                       zoomIn: bool, zoomOut: bool)
      modifies cameraManager.camera
      ensures cameraManager.camera.State()
           == Manager.AfterInput(old(cameraManager.camera.State()), moveSpeed, zoomSpeed,
                                 moveLeft, moveRight, moveUp, moveDown, zoomIn, zoomOut)
    {
      cameraManager.HandleInput(moveSpeed, zoomSpeed, moveLeft, moveRight, moveUp, moveDown, zoomIn, zoomOut);
    }

    /**
     * `render(g)`: the camera advances one step (`deltaTime` 1), then the
     * camera transform and the layers are drawn. A null map throws at its
     * first dereference, right after the transform. A tile that resolves to
     * no tileset throws (`thrown`) and ends the frame there; otherwise the map
     * objects, the sprites and, in debug mode only, the overlay follow, in
     * that order. The frame throws exactly when the map is null or some cell
     * of some layer resolves to no tileset.
     */
    method Render() returns (commands: seq<Command>, thrown: bool)
      requires tiledMap.Some? ==> MapShaped(tiledMap.value)
      modifies cameraManager.camera
      ensures cameraManager.camera.State() == cameraManager.UpdatedView(old(cameraManager.camera.State()), 1.0)
      ensures thrown <==> tiledMap.None? || !MapResolvable(tiledMap.value)
      ensures tiledMap.None? ==> commands == [Transformed(cameraManager.camera.Transformation())]
      ensures tiledMap.Some? ==>
        var m := tiledMap.value;
        var layers := LayersDraws(m, |m.layers|);
        && thrown == layers.failed
        && commands == [Transformed(cameraManager.camera.Transformation())] + layers.commands
                       + (if thrown then []
                          else ObjectFills(m.objects) + SpriteDraws(sprites)
                               + (if debugMode then [DebugOverlay] else []))
    {
      cameraManager.Update(1.0);
      commands, thrown := DrawFrame();
      if tiledMap.Some? {
        LayersDrawsFail(tiledMap.value, |tiledMap.value.layers|);
      }
    }

    /** The drawing part of `render(g)`, after the camera has moved. */
    method DrawFrame() returns (commands: seq<Command>, thrown: bool)
      requires tiledMap.Some? ==> MapShaped(tiledMap.value)
      ensures tiledMap.None? ==> thrown && commands == [Transformed(cameraManager.camera.Transformation())]
      ensures tiledMap.Some? ==>
        var m := tiledMap.value;
        var layers := LayersDraws(m, |m.layers|);
        && thrown == layers.failed
        && commands == [Transformed(cameraManager.camera.Transformation())] + layers.commands
                       + (if thrown then []
                          else ObjectFills(m.objects) + SpriteDraws(sprites)
                               + (if debugMode then [DebugOverlay] else []))
    {
      var camera := cameraManager.camera;
      var transform := [Transformed(Transform(-camera.x, -camera.y, camera.zoom, camera.zoom))];
      var layers := RenderLayers();
      if layers.failed {
        return transform + layers.commands + [], true;
      }
      var objects := RenderObjects();
      var spriteCommands := RenderSprites();
      var overlay := if debugMode then [DebugOverlay] else [];
      commands := transform + layers.commands + (objects.commands + spriteCommands + overlay);
      thrown := false;
    }

    /**
     * The loop over the map's layers in `render(g)`, ended by the first
     * failure; a null map fails before drawing anything.
     */
    method RenderLayers() returns (drawn: Drawn)
      requires tiledMap.Some? ==> MapShaped(tiledMap.value)
      ensures tiledMap.None? ==> drawn == Drawn([], true)
      ensures tiledMap.Some? ==> drawn == LayersDraws(tiledMap.value, |tiledMap.value.layers|)
    {
      if tiledMap.None? {
        return Drawn([], true);
      }
      var m := tiledMap.value;
      drawn := Drawn([], false);
      var i := 0;
      while i < |m.layers|
        invariant 0 <= i <= |m.layers|
        invariant drawn == LayersDraws(m, i) && !drawn.failed
      {
        var layer := RenderLayer(m, m.layers[i]);
        drawn := Drawn(drawn.commands + layer.commands, layer.failed);
        i := i + 1;
        if drawn.failed {
          LayersDrawsStopped(m, i, |m.layers|);
          return;
        }
      }
    }

    /** `renderObjects(g)`; a null map fails before filling anything. */
    method RenderObjects() returns (drawn: Drawn)
      ensures tiledMap.None? ==> drawn == Drawn([], true)
      ensures tiledMap.Some? ==> drawn == Drawn(ObjectFills(tiledMap.value.objects), false)
    {
      if tiledMap.None? {
        return Drawn([], true);
      }
      var commands := [];
      var objects := tiledMap.value.objects;
      var i := 0;
      while i < |objects|
        invariant 0 <= i <= |objects|
        invariant commands == ObjectFills(objects[..i])
      {
        assert objects[..i + 1][..i] == objects[..i];
        var o := objects[i];
        commands := commands + [FillObject(DoubleToInt(o.x), DoubleToInt(o.y), DoubleToInt(o.width), DoubleToInt(o.height))];
        i := i + 1;
      }
      assert objects[..i] == objects;
      drawn := Drawn(commands, false);
    }

    /** `renderSprites()`. */
    method RenderSprites() returns (commands: seq<Command>)
      ensures commands == SpriteDraws(sprites)
    {
      commands := [];
      var i := 0;
      while i < |sprites|
        invariant 0 <= i <= |sprites|
        invariant commands == SpriteDraws(sprites[..i])
      {
        assert sprites[..i + 1][..i] == sprites[..i];
        commands := commands + [DrawSprite(sprites[i])];
        i := i + 1;
      }
      assert sprites[..i] == sprites;
    }
  }

  /** `renderLayer(g, layer)`: rows top to bottom, ended by the first failure. */
  method RenderLayer(m: Maps.TiledMap, layer: TiledLayer) returns (drawn: Drawn)
    requires Shaped(layer)
    ensures drawn == LayerDraws(m.tilesets, m.tileWidth, m.tileHeight, layer, layer.height)
  {
    drawn := Drawn([], false);
    var currentTileset: Option<TiledTileset> := None;
    var y := 0;
    while y < layer.height
      invariant 0 <= y <= layer.height
      invariant drawn == LayerDraws(m.tilesets, m.tileWidth, m.tileHeight, layer, y) && !drawn.failed
    {
      var row;
      row, currentTileset := RenderRow(m.tilesets, m.tileWidth, m.tileHeight, layer.tileData[y], y, layer.width, currentTileset);
      drawn := Drawn(drawn.commands + row.commands, row.failed);
      y := y + 1;
      if drawn.failed {
        LayerDrawsStopped(m.tilesets, m.tileWidth, m.tileHeight, layer, y, layer.height);
        return;
      }
    }
  }

  /**
   * One row of `renderLayer`: columns left to right, carrying the current
   * tileset; a cell whose tileset is null ends the drawing.
   */
  method RenderRow(tilesets: seq<TiledTileset>, tileWidth: int, tileHeight: int, row: seq<int>, y: int, width: int,
                   currentTileset: Option<TiledTileset>)
    returns (drawn: Drawn, lastTileset: Option<TiledTileset>)
    requires 0 <= width <= |row|
    ensures drawn == RowDraws(tilesets, tileWidth, tileHeight, row, y, width)
    ensures !drawn.failed && width > 0 ==> lastTileset == TilesetForTile(tilesets, row[width - 1])
  {
    drawn := Drawn([], false);
    lastTileset := currentTileset;
    var x := 0;
    while x < width
      invariant 0 <= x <= width
      invariant drawn == RowDraws(tilesets, tileWidth, tileHeight, row, y, x) && !drawn.failed
      invariant x > 0 ==> lastTileset == TilesetForTile(tilesets, row[x - 1])
    {
      var tileID := row[x];
      var tileset := TilesetForTile(tilesets, tileID);
      if tileset != lastTileset {
        lastTileset := tileset;
      }
      if lastTileset.None? {
        drawn := Drawn(drawn.commands, true);
        RowDrawsStopped(tilesets, tileWidth, tileHeight, row, y, x + 1, width);
        return;
      }
      drawn := Drawn(drawn.commands + [DrawTileset(lastTileset.value, CellRect(x, y, tileWidth, tileHeight))], false);
      x := x + 1;
    }
  }
}
