/**
 * What the renderers draw, recorded as commands instead of calls on a
 * `Graphics2D`, and the tileset lookup both renderers share.
 */
module Drawing {
  import opened Wrappers
  import opened TiledRecords
  import opened CameraMath

  /** A pixel rectangle by its corners: left and top inclusive, right and bottom exclusive. */
  datatype Rect = Rect(left: int, top: int, right: int, bottom: int)

  /** A game object handed to the renderer; it draws itself. */
  datatype GameObject = GameObject(handle: nat)

  /** A sprite handed to the older renderer; it draws itself. */
  datatype Sprite = Sprite(handle: nat)

  datatype Command =
      /** `translate` then `scale` on the graphics context. */
    | Transformed(transform: Transform)
      /** Copy `src` of the atlas image `atlas` onto `dst`. */
    | Blit(atlas: string, dst: Rect, src: Rect)
      /** Fill `dst` in red: a tileset without an image. */
    | FillRed(dst: Rect)
      /**
       * Draw the whole image of `tileset` scaled onto `dst`. For a tileset
       * without an image (`atlasWidth.None?`) this is `drawImage(null, ...)`,
       * which draws nothing.
       */
    | DrawTileset(tileset: TiledTileset, dst: Rect)
      /** `fillRect(x, y, width, height)` in the current colour. */
    | FillObject(x: int, y: int, width: int, height: int)
    | DrawGameObject(gameObject: GameObject)
    | DrawSprite(sprite: Sprite)
      /** `drawString(text, x, y)` in white. */
    | DrawText(text: string, x: int, y: int)

  /** The debug overlay: a fixed frame-rate label near the top-left corner. */
  const DebugOverlay: Command := DrawText("FPS: 60", 10, 10)

  /** The screen cell of tile `(x, y)` for tiles `tileWidth` by `tileHeight` pixels. */
  function CellRect(x: int, y: int, tileWidth: int, tileHeight: int): Rect
  {
    Rect(x * tileWidth, y * tileHeight, x * tileWidth + tileWidth, y * tileHeight + tileHeight)
  }

  /**
   * The position of the first tileset in list order whose `firstGID` is at
   * most `id`, or `|tilesets|` when there is none.
   */
  function FirstMatchIndex(tilesets: seq<TiledTileset>, id: int): (i: nat)
    ensures i <= |tilesets|
  {
    if |tilesets| == 0 then 0
    else if tilesets[0].firstGID <= id then 0
    else 1 + FirstMatchIndex(tilesets[1..], id)
  }

  /** The scan stops at the first tileset with `firstGID <= id`; every tileset before it starts above `id`. */
  lemma {:induction false} FirstMatchIndexIsFirst(tilesets: seq<TiledTileset>, id: int)
    ensures var i := FirstMatchIndex(tilesets, id);
      && (i < |tilesets| ==> tilesets[i].firstGID <= id)
      && forall j :: 0 <= j < i ==> id < tilesets[j].firstGID
  {
    if |tilesets| > 0 && id < tilesets[0].firstGID {
      var rest := tilesets[1..];
      FirstMatchIndexIsFirst(rest, id);
      assert forall j :: 1 <= j < |tilesets| ==> tilesets[j] == rest[j - 1];
    }
  }

  /**
   * `getTilesetForTile(id)`: the first tileset in list order with
   * `firstGID <= id`, or none when every tileset starts above `id`.
   */
  function TilesetForTile(tilesets: seq<TiledTileset>, id: int): Option<TiledTileset>
  {
    var i := FirstMatchIndex(tilesets, id);
    if i < |tilesets| then Some(tilesets[i]) else None
  }

  /**
   * No tileset exactly when every tileset starts above `id`; otherwise a
   * listed tileset that starts at or below `id`.
   */
  lemma TilesetForTileMatches(tilesets: seq<TiledTileset>, id: int)
    ensures TilesetForTile(tilesets, id).None? <==> forall j :: 0 <= j < |tilesets| ==> id < tilesets[j].firstGID
    ensures TilesetForTile(tilesets, id).Some? ==>
      TilesetForTile(tilesets, id).value in tilesets && TilesetForTile(tilesets, id).value.firstGID <= id
  {
    FirstMatchIndexIsFirst(tilesets, id);
  }

  /**
   * The lookup takes the first match, not the closest one: with tilesets
   * starting at 1, 50 and 120, tile 150 resolves to the first.
   */
  lemma FirstMatchNotClosest(a: TiledTileset, b: TiledTileset, c: TiledTileset)
    requires a.firstGID == 1 && b.firstGID == 50 && c.firstGID == 120
    ensures TilesetForTile([a, b, c], 150) == Some(a)
    ensures TilesetForTile([a, b, c], 0) == None
  {
    TilesetForTileMatches([a, b, c], 0);
  }

  /**
   * With every tileset starting at 1 or above, as Tiled writes them, the
   * empty-cell ID 0 resolves to no tileset.
   */
  lemma EmptyCellUnresolved(tilesets: seq<TiledTileset>)
    requires forall j :: 0 <= j < |tilesets| ==> 1 <= tilesets[j].firstGID
    ensures TilesetForTile(tilesets, 0) == None
  {
    TilesetForTileMatches(tilesets, 0);
  }
}
