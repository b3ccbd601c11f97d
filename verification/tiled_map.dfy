/**
 * The immutable map model and the builder that assembles it
 * (package `misa.data.tiled2misa`).
 */
module TiledMap {
  import opened TiledRecords

  /**
   * A built map: size in tiles, tile size in pixels, and the ordered layers,
   * tilesets and objects. Being a value, it cannot change after `Build`, and
   * the lists it holds are its own.
   */
  datatype TiledMap = TiledMap(
    width: int,
    height: int,
    tileWidth: int,
    tileHeight: int,
    layers: seq<TiledLayer>,
    tilesets: seq<TiledTileset>,
    objects: seq<TiledObject>)

  /** What building logs instead of failing. */
  datatype Diagnostic =
    | InvalidMapDimensions(width: int, height: int)
    | InvalidTileDimensions(tileWidth: int, tileHeight: int)
    | NoLayers
    | NoTilesets
    | NoObjects

  /**
   * The log lines a build produces, in the order they are written, from the
   * map's sizes and its layer, tileset and object counts.
   */
  function Diagnostics(width: int, height: int, tileWidth: int, tileHeight: int,
                       layerCount: nat, tilesetCount: nat, objectCount: nat): (d: seq<Diagnostic>)
    ensures InvalidMapDimensions(width, height) in d <==> width <= 0 || height <= 0
    ensures InvalidTileDimensions(tileWidth, tileHeight) in d <==> tileWidth <= 0 || tileHeight <= 0
    ensures NoLayers in d <==> layerCount == 0
    ensures NoTilesets in d <==> tilesetCount == 0
    ensures NoObjects in d <==> objectCount == 0
    ensures |d| <= 5
  {
    (if width <= 0 || height <= 0 then [InvalidMapDimensions(width, height)] else [])
    + (if tileWidth <= 0 || tileHeight <= 0 then [InvalidTileDimensions(tileWidth, tileHeight)] else [])
    + (if layerCount == 0 then [NoLayers] else [])
    + (if tilesetCount == 0 then [NoTilesets] else [])
    + (if objectCount == 0 then [NoObjects] else [])
  }

  /** The diagnostics of a built map. */
  function MapDiagnostics(m: TiledMap): seq<Diagnostic>
  {
    Diagnostics(m.width, m.height, m.tileWidth, m.tileHeight, |m.layers|, |m.tilesets|, |m.objects|)
  }

  /** `TiledMap.Builder`: mutable fields overwritten by chained setters. */
  class Builder {
    var width: int
    var height: int
    var tileWidth: int
    var tileHeight: int
    var layers: seq<TiledLayer>
    var tilesets: seq<TiledTileset>
    var objects: seq<TiledObject>

    /** The map `Build` would return now. */
    function Pending(): TiledMap
      reads this
    {
      TiledMap(width, height, tileWidth, tileHeight, layers, tilesets, objects)
    }

    /** A fresh builder: zero sizes, empty lists. */
    constructor ()
      ensures Pending() == TiledMap(0, 0, 0, 0, [], [], [])
    {
      width, height, tileWidth, tileHeight := 0, 0, 0, 0;
      layers, tilesets, objects := [], [], [];
    }

    method SetWidth(width: int) returns (self: Builder)
      modifies this
      ensures self == this
      ensures Pending() == old(Pending()).(width := width)
    {
      this.width := width;
      self := this;
    }

    method SetHeight(height: int) returns (self: Builder)
      modifies this
      ensures self == this
      ensures Pending() == old(Pending()).(height := height)
    {
      this.height := height;
      self := this;
    }

    method SetTileWidth(tileWidth: int) returns (self: Builder)
      modifies this
      ensures self == this
      ensures Pending() == old(Pending()).(tileWidth := tileWidth)
    {
      this.tileWidth := tileWidth;
      self := this;
    }

    method SetTileHeight(tileHeight: int) returns (self: Builder)
      modifies this
      ensures self == this
      ensures Pending() == old(Pending()).(tileHeight := tileHeight)
    {
      this.tileHeight := tileHeight;
      self := this;
    }

    /** Stores a copy: a sequence is a value, so the caller's list is not shared. */
    method SetLayers(layers: seq<TiledLayer>) returns (self: Builder)
      modifies this
      ensures self == this
      ensures Pending() == old(Pending()).(layers := layers)
    {
      this.layers := layers;
      self := this;
    }

    method SetTilesets(tilesets: seq<TiledTileset>) returns (self: Builder)
      modifies this
      ensures self == this
      ensures Pending() == old(Pending()).(tilesets := tilesets)
    {
      this.tilesets := tilesets;
      self := this;
    }

    method SetObjects(objects: seq<TiledObject>) returns (self: Builder)
      modifies this
      ensures self == this
      ensures Pending() == old(Pending()).(objects := objects)
    {
      this.objects := objects;
      self := this;
    }

    /**
     * Never fails: invalid sizes and empty lists only produce diagnostics.
     * Every getter of the result returns the value last given to its setter.
     */
    method Build() returns (m: TiledMap, diagnostics: seq<Diagnostic>)
      ensures m.width == width && m.height == height
      ensures m.tileWidth == tileWidth && m.tileHeight == tileHeight
      ensures m.layers == layers && m.tilesets == tilesets && m.objects == objects
      ensures diagnostics == MapDiagnostics(m)
    {
      m := TiledMap(width, height, tileWidth, tileHeight, layers, tilesets, objects);
      diagnostics := MapDiagnostics(m);
    }
  }

  /**
   * A chain of setters on a fresh builder: a later call to a setter overrides
   * an earlier one, and fields never set keep their defaults.
   */
  method OverrideAndDefaults(layers: seq<TiledLayer>) returns (m: TiledMap)
    ensures m == TiledMap(32, 0, 0, 0, layers, [], [])
    ensures NoTilesets in MapDiagnostics(m) && InvalidMapDimensions(32, 0) in MapDiagnostics(m)
  {
    var b := new Builder();
    b := b.SetWidth(16);
    b := b.SetLayers([]);
    b := b.SetWidth(32);
    b := b.SetLayers(layers);
    var diagnostics;
    m, diagnostics := b.Build();
  }
}
