/** The parsed pieces of a Tiled map: tile layers, tilesets and objects. */
module TiledRecords {
  import opened Wrappers

  /**
   * A tile layer: its name, its size in tiles, and its tile IDs row by row
   * (`tileData[y][x]`). An ID of 0 means "no tile"; the high bits may carry
   * Tiled's flip flags, which nothing here interprets.
   */
  datatype TiledLayer = TiledLayer(name: string, width: int, height: int, tileData: seq<seq<int>>)

  /**
   * A tileset: the resolved image path, the first global tile ID it owns, and
   * the pixel width of its atlas image when that image is available.
   */
  datatype TiledTileset = TiledTileset(source: string, firstGID: int, atlasWidth: Option<int>)

  /**
   * A map object: a named, typed rectangle in pixel space with a string-to-string
   * property bag.
   */
  datatype TiledObject = TiledObject(
    id: int,
    name: string,
    kind: string,
    x: real,
    y: real,
    width: real,
    height: real,
    properties: map<string, string>)

  /** The grid has exactly `height` rows of exactly `width` IDs. */
  predicate Rectangular(layer: TiledLayer)
  {
    && 0 <= layer.width
    && |layer.tileData| == layer.height
    && forall y :: 0 <= y < |layer.tileData| ==> |layer.tileData[y]| == layer.width
  }

  /** Every cell the nested `y < height`, `x < width` loops visit exists. */
  predicate Covers(layer: TiledLayer)
  {
    forall y :: 0 <= y < layer.height ==> y < |layer.tileData| && layer.width <= |layer.tileData[y]|
  }
}
