/**
 * `misa.core.Renderer`: each frame it advances the camera, applies its
 * transform, draws every tile layer of the map, then the game objects, then
 * (in debug mode) an overlay. Drawing is recorded as a list of `Command`s.
 */
module Renderer {
  import opened Wrappers
  import opened JavaLang
  import opened TiledRecords
  import opened CameraMath
  import opened Drawing
  import Maps = TiledMap
  import LegacyCamera
  import Boundary = CameraBoundary
  import Manager = CameraManager

  /**
   * The source rectangle of tile `localID` in an atlas `tilesPerRow` tiles
   * wide: column `localID % tilesPerRow`, row `localID / tilesPerRow`, both
   * with Java's truncating operators.
   */
  function SourceRect(localID: int, tilesPerRow: int, tileWidth: int, tileHeight: int): (r: Rect)
    requires tilesPerRow != 0
    ensures r.right - r.left == tileWidth && r.bottom - r.top == tileHeight
  {
    var srcX := JRem(localID, tilesPerRow) * tileWidth;
    var srcY := JDiv(localID, tilesPerRow) * tileHeight;
    Rect(srcX, srcY, srcX + tileWidth, srcY + tileHeight)
  }

  /**
   * For a non-negative local ID the source rectangle is one tile, lies inside
   * the atlas's width, and walks the atlas row by row: the tile after the
   * last of a row starts the next row at column 0.
   */
  lemma SourceRectInAtlas(localID: int, atlasWidth: int, tileWidth: int, tileHeight: int)
    requires 0 <= localID && 0 < tileWidth && 0 < atlasWidth / tileWidth
    ensures var tilesPerRow := atlasWidth / tileWidth;
      var r := SourceRect(localID, tilesPerRow, tileWidth, tileHeight);
      && r.left == (localID % tilesPerRow) * tileWidth
      && r.top == (localID / tilesPerRow) * tileHeight
      && r.right - r.left == tileWidth && r.bottom - r.top == tileHeight
      && 0 <= r.left && r.right <= atlasWidth
  {
    var tilesPerRow := atlasWidth / tileWidth;
    var column := localID % tilesPerRow;
    assert column + 1 <= tilesPerRow;
    MulMonotone(column + 1, tilesPerRow, tileWidth);
    assert tilesPerRow * tileWidth <= atlasWidth;
  }

  lemma MulMonotone(a: int, b: int, c: int)
    requires a <= b && 0 <= c
    ensures a * c <= b * c
  {
  }

  /**
   * The division in the source does not fail on tile `id`: an empty cell, an
   * unresolved tile and a tileset without an image need nothing; otherwise
   * the tile width is non-zero and the atlas is at least one tile wide.
   */
  predicate CellDrawable(tilesets: seq<TiledTileset>, tileWidth: int, id: int)
  {
    id == 0
    || match TilesetForTile(tilesets, id)
       case None => true
       case Some(t) => t.atlasWidth.None? || (tileWidth != 0 && JDiv(t.atlasWidth.value, tileWidth) != 0)
  }

  /**
   * What tile `id` at `(x, y)` draws: nothing for 0 or an unresolved tile, a
   * red cell for a tileset without an image, else the atlas tile at the
   * local ID (the difference narrowed to int, as the source casts it).
   */
  function CellCommands(tilesets: seq<TiledTileset>, tileWidth: int, tileHeight: int, id: int, x: int, y: int): (r: seq<Command>)
    requires CellDrawable(tilesets, tileWidth, id)
    ensures (id == 0 || TilesetForTile(tilesets, id).None?) <==> r == []
    ensures |r| <= 1
  {
    if id == 0 then []
    else match TilesetForTile(tilesets, id)
      case None => []
      case Some(t) =>
        var dst := CellRect(x, y, tileWidth, tileHeight);
        match t.atlasWidth
        case None => [FillRed(dst)]
        case Some(atlasWidth) =>
          var localID := ToInt32(id - t.firstGID);
          [Blit(t.source, dst, SourceRect(localID, JDiv(atlasWidth, tileWidth), tileWidth, tileHeight))]
  }

  /**
   * A drawn tile covers its own cell: a red fill exactly when its tileset has
   * no image, otherwise a Blit from that tileset's atlas at the local ID.
   */
  lemma CellCommandsDraw(tilesets: seq<TiledTileset>, tileWidth: int, tileHeight: int, id: int, x: int, y: int)
    requires CellDrawable(tilesets, tileWidth, id)
    requires id != 0 && TilesetForTile(tilesets, id).Some?
    ensures var t := TilesetForTile(tilesets, id).value;
      var dst := CellRect(x, y, tileWidth, tileHeight);
      && (t.atlasWidth.None? ==> CellCommands(tilesets, tileWidth, tileHeight, id, x, y) == [FillRed(dst)])
      && (t.atlasWidth.Some? ==>
            CellCommands(tilesets, tileWidth, tileHeight, id, x, y)
            == [Blit(t.source, dst, SourceRect(ToInt32(id - t.firstGID), JDiv(t.atlasWidth.value, tileWidth), tileWidth, tileHeight))])
  {
  }

  /** Every command a cell emits is a Blit or a red fill over that cell. */
  lemma CellCommandsInCell(tilesets: seq<TiledTileset>, tileWidth: int, tileHeight: int, id: int, x: int, y: int)
    requires CellDrawable(tilesets, tileWidth, id)
    ensures forall c :: c in CellCommands(tilesets, tileWidth, tileHeight, id, x, y) ==>
      (c.Blit? || c.FillRed?) && c.dst == CellRect(x, y, tileWidth, tileHeight)
  {
  }

  predicate RowDrawable(tilesets: seq<TiledTileset>, tileWidth: int, row: seq<int>, n: int)
    requires 0 <= n <= |row|
  {
    forall x :: 0 <= x < n ==> CellDrawable(tilesets, tileWidth, row[x])
  }

  /** The commands of the first `n` cells of row `y`, left to right. */
  function RowCommands(tilesets: seq<TiledTileset>, tileWidth: int, tileHeight: int, row: seq<int>, y: int, n: int): seq<Command>
    requires 0 <= n <= |row|
    requires RowDrawable(tilesets, tileWidth, row, n)
  {
    if n == 0 then []
    else RowCommands(tilesets, tileWidth, tileHeight, row, y, n - 1)
         + CellCommands(tilesets, tileWidth, tileHeight, row[n - 1], n - 1, y)
  }

  /** Every cell the layer's loops visit exists and can be drawn. */
  predicate LayerDrawable(tilesets: seq<TiledTileset>, tileWidth: int, layer: TiledLayer)
  {
    && 0 <= layer.width && 0 <= layer.height <= |layer.tileData|
    && forall y :: 0 <= y < layer.height ==>
         layer.width <= |layer.tileData[y]| && RowDrawable(tilesets, tileWidth, layer.tileData[y], layer.width)
  }

  /** The commands of the first `m` rows of a layer, top to bottom. */
  function LayerCommands(tilesets: seq<TiledTileset>, tileWidth: int, tileHeight: int, layer: TiledLayer, m: int): seq<Command>
    requires LayerDrawable(tilesets, tileWidth, layer)
    requires 0 <= m <= layer.height
  {
    if m == 0 then []
    else LayerCommands(tilesets, tileWidth, tileHeight, layer, m - 1)
         + RowCommands(tilesets, tileWidth, tileHeight, layer.tileData[m - 1], m - 1, layer.width)
  }

  /** Every layer of the map can be drawn. */
  predicate MapDrawable(m: Maps.TiledMap)
  {
    forall i :: 0 <= i < |m.layers| ==> LayerDrawable(m.tilesets, m.tileWidth, m.layers[i])
  }

  /** The commands of the first `k` layers of the map, in list order. */
  function LayersCommands(m: Maps.TiledMap, k: int): seq<Command>
    requires MapDrawable(m)
    requires 0 <= k <= |m.layers|
  {
    if k == 0 then []
    else LayersCommands(m, k - 1)
         + LayerCommands(m.tilesets, m.tileWidth, m.tileHeight, m.layers[k - 1], m.layers[k - 1].height)
  }

  /** `renderMapLayers()`: every layer of the map, or nothing without a map. */
  function MapCommands(tiledMap: Option<Maps.TiledMap>): (r: seq<Command>)
    requires tiledMap.Some? ==> MapDrawable(tiledMap.value)
    ensures tiledMap.None? ==> r == []
  {
    match tiledMap
    case None => []
    case Some(m) => LayersCommands(m, |m.layers|)
  }

  /** Each emitted tile command covers a cell `(x, y)` with `x < n` of the row. */
  lemma {:induction false} RowCommandsInRow(tilesets: seq<TiledTileset>, tileWidth: int, tileHeight: int, row: seq<int>, y: int, n: int)
    requires 0 <= n <= |row|
    requires RowDrawable(tilesets, tileWidth, row, n)
    ensures forall c :: c in RowCommands(tilesets, tileWidth, tileHeight, row, y, n) ==>
      (c.Blit? || c.FillRed?) && exists x :: 0 <= x < n && c.dst == CellRect(x, y, tileWidth, tileHeight)
  {
    if n > 0 {
      RowCommandsInRow(tilesets, tileWidth, tileHeight, row, y, n - 1);
      CellCommandsInCell(tilesets, tileWidth, tileHeight, row[n - 1], n - 1, y);
    }
  }

  /**
   * Each emitted tile command of a layer covers one of its cells: a Blit or
   * a red fill over `CellRect(x, y)` with `x < width` and `y < height`.
   */
  lemma {:induction false} LayerCommandsInGrid(tilesets: seq<TiledTileset>, tileWidth: int, tileHeight: int, layer: TiledLayer, m: int)
    requires LayerDrawable(tilesets, tileWidth, layer)
    requires 0 <= m <= layer.height
    ensures forall c :: c in LayerCommands(tilesets, tileWidth, tileHeight, layer, m) ==>
      (c.Blit? || c.FillRed?)
      && exists x, y :: 0 <= x < layer.width && 0 <= y < m && c.dst == CellRect(x, y, tileWidth, tileHeight)
  {
    if m > 0 {
      var previous := LayerCommands(tilesets, tileWidth, tileHeight, layer, m - 1);
      var last := RowCommands(tilesets, tileWidth, tileHeight, layer.tileData[m - 1], m - 1, layer.width);
      LayerCommandsInGrid(tilesets, tileWidth, tileHeight, layer, m - 1);
      RowCommandsInRow(tilesets, tileWidth, tileHeight, layer.tileData[m - 1], m - 1, layer.width);
      forall c: Command | c in previous + last
        ensures (c.Blit? || c.FillRed?)
          && exists x, y :: 0 <= x < layer.width && 0 <= y < m && c.dst == CellRect(x, y, tileWidth, tileHeight)
      {
        if c in previous {
          var x, y :| 0 <= x < layer.width && 0 <= y < m - 1 && c.dst == CellRect(x, y, tileWidth, tileHeight);
        } else {
          var x :| 0 <= x < layer.width && c.dst == CellRect(x, m - 1, tileWidth, tileHeight);
        }
      }
    }
  }

  /** A row of empty cells draws nothing. */
  lemma {:induction false} EmptyRowDrawsNothing(tilesets: seq<TiledTileset>, tileWidth: int, tileHeight: int, row: seq<int>, y: int, n: int)
    requires 0 <= n <= |row|
    requires forall x :: 0 <= x < n ==> row[x] == 0
    ensures RowCommands(tilesets, tileWidth, tileHeight, row, y, n) == []
  {
    if n > 0 {
      EmptyRowDrawsNothing(tilesets, tileWidth, tileHeight, row, y, n - 1);
    }
  }

  /** `renderGameObjects()`: one draw per game object, in insertion order. */
  function ObjectCommands(gameObjects: seq<GameObject>): (r: seq<Command>)
    ensures |r| == |gameObjects|
    ensures forall i :: 0 <= i < |r| ==> r[i] == DrawGameObject(gameObjects[i])
  {
    if gameObjects == [] then []
    else ObjectCommands(gameObjects[..|gameObjects| - 1]) + [DrawGameObject(gameObjects[|gameObjects| - 1])]
  }

  class Renderer {
    const cameraManager: Manager.CameraManager
    var tiledMap: Option<Maps.TiledMap>
    var gameObjects: seq<GameObject>
    var debugMode: bool

    /** A renderer starts with no game objects and debug mode off. */
    constructor (camera: LegacyCamera.Camera, cameraBoundary: Boundary.CameraBoundary,
                 viewportUnitsWidth: real, viewportUnitsHeight: real, tiledMap: Option<Maps.TiledMap>)
      ensures cameraManager.camera == camera && cameraManager.cameraBoundary == cameraBoundary
      ensures cameraManager.viewportUnitsWidth == viewportUnitsWidth
      ensures cameraManager.viewportUnitsHeight == viewportUnitsHeight
      ensures this.tiledMap == tiledMap && gameObjects == [] && !debugMode
    {
      cameraManager := new Manager.CameraManager(camera, cameraBoundary, viewportUnitsWidth, viewportUnitsHeight);
      this.tiledMap := tiledMap;
      gameObjects := [];
      debugMode := false;
    }

    /** `addGameObject(o)`: appends. */
    method AddGameObject(gameObject: GameObject)
      modifies this
      ensures gameObjects == old(gameObjects) + [gameObject]
      ensures tiledMap == old(tiledMap) && debugMode == old(debugMode)
    {
      gameObjects := gameObjects + [gameObject];
    }

    /** `removeGameObject(o)`: drops the first equal entry, if any. */
    method RemoveGameObject(gameObject: GameObject)
      modifies this
      ensures gameObjects == RemoveFirst(old(gameObjects), gameObject)
      ensures tiledMap == old(tiledMap) && debugMode == old(debugMode)
    {
      gameObjects := RemoveFirst(gameObjects, gameObject);
    }

    method ToggleDebugMode(debugMode: bool)
      modifies this
      ensures this.debugMode == debugMode
      ensures tiledMap == old(tiledMap) && gameObjects == old(gameObjects)
    {
      this.debugMode := debugMode;
    }

    /** `setTiledMap(m)`: replaces the map (the console message is not modelled). */
    method SetTiledMap(tiledMap: Option<Maps.TiledMap>)
      modifies this
      ensures this.tiledMap == tiledMap
      ensures gameObjects == old(gameObjects) && debugMode == old(debugMode)
    {
      this.tiledMap := tiledMap;
    }

    /** `handleInput(...)`: hands the flags to the camera manager. */
    method HandleInput(moveSpeed: real, zoomSpeed: real,
                       moveLeft: bool, moveRight: bool, moveUp: bool, moveDown: bool,
                       zoomIn: bool, zoomOut: bool)
      modifies cameraManager.camera
      ensures cameraManager.camera.State()
           == Manager.AfterInput(old(cameraManager.camera.State()), moveSpeed, zoomSpeed,
                                 moveLeft, moveRight, moveUp, moveDown, zoomIn, zoomOut)
    {
      cameraManager.HandleInput(moveSpeed, zoomSpeed, moveLeft, moveRight, moveUp, moveDown, zoomIn, zoomOut);
    }

    /**
     * `render(g)`: the camera advances one step (`deltaTime` 1), then the
     * camera transform, the map's tiles, the game objects and, in debug
     * mode only, the overlay are drawn, in that order.
     */
    method Render() returns (commands: seq<Command>)
      requires tiledMap.Some? ==> MapDrawable(tiledMap.value)
      modifies cameraManager.camera
      ensures cameraManager.camera.State() == cameraManager.UpdatedView(old(cameraManager.camera.State()), 1.0)
      ensures commands == [Transformed(cameraManager.camera.Transformation())]
                          + MapCommands(tiledMap)
                          + ObjectCommands(gameObjects)
                          + (if debugMode then [DebugOverlay] else [])
    {
      cameraManager.Update(1.0);
      var camera := cameraManager.camera;
      commands := [Transformed(Transform(-camera.x, -camera.y, camera.zoom, camera.zoom))];
      var tiles := RenderMapLayers();
      var objects := RenderGameObjects();
      commands := commands + tiles + objects;
      if debugMode {
        commands := commands + [DebugOverlay];
      }
    }

    /** `renderMapLayers()`: the layers in list order; nothing without a map. */
    method RenderMapLayers() returns (commands: seq<Command>)
      requires tiledMap.Some? ==> MapDrawable(tiledMap.value)
      ensures commands == MapCommands(tiledMap)
    {
      commands := [];
      if tiledMap.None? {
        return;
      }
      var m := tiledMap.value;
      var i := 0;
      while i < |m.layers|
        invariant 0 <= i <= |m.layers|
        invariant commands == LayersCommands(m, i)
      {
        var layerCommands := RenderLayer(m, m.layers[i]);
        commands := commands + layerCommands;
        i := i + 1;
      }
    }

    /** `renderGameObjects()`: each game object in insertion order. */
    method RenderGameObjects() returns (commands: seq<Command>)
      ensures commands == ObjectCommands(gameObjects)
    {
      commands := [];
      var i := 0;
      while i < |gameObjects|
        invariant 0 <= i <= |gameObjects|
        invariant commands == ObjectCommands(gameObjects[..i])
      {
        assert gameObjects[..i + 1][..i] == gameObjects[..i];
        commands := commands + [DrawGameObject(gameObjects[i])];
        i := i + 1;
      }
      assert gameObjects[..i] == gameObjects;
    }

    /** `renderLayer(layer)`: rows top to bottom. */
    method RenderLayer(m: Maps.TiledMap, layer: TiledLayer) returns (commands: seq<Command>)
      requires LayerDrawable(m.tilesets, m.tileWidth, layer)
      ensures commands == LayerCommands(m.tilesets, m.tileWidth, m.tileHeight, layer, layer.height)
    {
      commands := [];
      var y := 0;
      while y < layer.height
        invariant 0 <= y <= layer.height
        invariant commands == LayerCommands(m.tilesets, m.tileWidth, m.tileHeight, layer, y)
      {
        var rowCommands := RenderRow(m.tilesets, m.tileWidth, m.tileHeight, layer.tileData[y], y, layer.width);
        commands := commands + rowCommands;
        y := y + 1;
      }
    }
  }

  /** One row of `renderLayer`: columns left to right. */
  method RenderRow(tilesets: seq<TiledTileset>, tileWidth: int, tileHeight: int, row: seq<int>, y: int, width: int)
    returns (commands: seq<Command>)
    requires 0 <= width <= |row|
    requires RowDrawable(tilesets, tileWidth, row, width)
    ensures commands == RowCommands(tilesets, tileWidth, tileHeight, row, y, width)
  {
    commands := [];
    var x := 0;
    while x < width
      invariant 0 <= x <= width
      invariant commands == RowCommands(tilesets, tileWidth, tileHeight, row, y, x)
    {
      var cellCommands := RenderCell(tilesets, tileWidth, tileHeight, row[x], x, y);
      commands := commands + cellCommands;
      x := x + 1;
    }
  }

  /** The body of `renderLayer`'s inner loop for the tile `tileID` at `(x, y)`. */
  method RenderCell(tilesets: seq<TiledTileset>, tileWidth: int, tileHeight: int, tileID: int, x: int, y: int)
    returns (commands: seq<Command>)
    requires CellDrawable(tilesets, tileWidth, tileID)
    ensures commands == CellCommands(tilesets, tileWidth, tileHeight, tileID, x, y)
  {
    commands := [];
    if tileID == 0 {
      return;
    }
    var tileset := TilesetForTile(tilesets, tileID);
    if tileset.Some? {
      var t := tileset.value;
      var localID := ToInt32(tileID - t.firstGID);
      var dst := CellRect(x, y, tileWidth, tileHeight);
      if t.atlasWidth.Some? {
        var tilesPerRow := JDiv(t.atlasWidth.value, tileWidth);
        var srcX := JRem(localID, tilesPerRow) * tileWidth;
        var srcY := JDiv(localID, tilesPerRow) * tileHeight;
        commands := [Blit(t.source, dst, Rect(srcX, srcY, srcX + tileWidth, srcY + tileHeight))];
      } else {
        commands := [FillRed(dst)];
      }
    }
  }
}
