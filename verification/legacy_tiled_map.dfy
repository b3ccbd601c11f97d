/**
 * The older map model and builder (package `misa.tiled2misa`). Its layers and
 * objects have the same shape as the newer ones; its tilesets carry no atlas.
 */
module LegacyTiledMap {
  import Records = TiledRecords
  import Current = TiledMap

  /** A tileset of the older model: image path and first global ID only. */
  datatype TiledTileset = TiledTileset(source: string, firstGID: int)

  datatype TiledMap = TiledMap(
    width: int,
    height: int,
    tileWidth: int,
    tileHeight: int,
    layers: seq<Records.TiledLayer>,
    tilesets: seq<TiledTileset>,
    objects: seq<Records.TiledObject>)

  /** The same log lines as the newer builder writes. */
  function MapDiagnostics(m: TiledMap): seq<Current.Diagnostic>
  {
    Current.Diagnostics(m.width, m.height, m.tileWidth, m.tileHeight, |m.layers|, |m.tilesets|, |m.objects|)
  }

  class Builder {
    var width: int
    var height: int
    var tileWidth: int
    var tileHeight: int
    var layers: seq<Records.TiledLayer>
    var tilesets: seq<TiledTileset>
    var objects: seq<Records.TiledObject>

    constructor ()
      ensures width == 0 && height == 0 && tileWidth == 0 && tileHeight == 0
      ensures layers == [] && tilesets == [] && objects == []
    {
      width, height, tileWidth, tileHeight := 0, 0, 0, 0;
      layers, tilesets, objects := [], [], [];
    }

    method SetWidth(width: int) returns (self: Builder)
      modifies this
      ensures self == this && this.width == width
      ensures height == old(height) && tileWidth == old(tileWidth) && tileHeight == old(tileHeight)
      ensures layers == old(layers) && tilesets == old(tilesets) && objects == old(objects)
    {
      this.width := width;
      self := this;
    }

    method SetHeight(height: int) returns (self: Builder)
      modifies this
      ensures self == this && this.height == height
      ensures width == old(width) && tileWidth == old(tileWidth) && tileHeight == old(tileHeight)
      ensures layers == old(layers) && tilesets == old(tilesets) && objects == old(objects)
    {
      this.height := height;
      self := this;
    }

    method SetTileWidth(tileWidth: int) returns (self: Builder)
      modifies this
      ensures self == this && this.tileWidth == tileWidth
      ensures width == old(width) && height == old(height) && tileHeight == old(tileHeight)
      ensures layers == old(layers) && tilesets == old(tilesets) && objects == old(objects)
    {
      this.tileWidth := tileWidth;
      self := this;
    }

    method SetTileHeight(tileHeight: int) returns (self: Builder)
      modifies this
      ensures self == this && this.tileHeight == tileHeight
      ensures width == old(width) && height == old(height) && tileWidth == old(tileWidth)
      ensures layers == old(layers) && tilesets == old(tilesets) && objects == old(objects)
    {
      this.tileHeight := tileHeight;
      self := this;
    }

    /** Keeps its own copy: later changes to the caller's list are not seen. */
    method SetLayers(layers: seq<Records.TiledLayer>) returns (self: Builder)
      modifies this
      ensures self == this && this.layers == layers
      ensures width == old(width) && height == old(height)
      ensures tileWidth == old(tileWidth) && tileHeight == old(tileHeight)
      ensures tilesets == old(tilesets) && objects == old(objects)
    {
      this.layers := layers;
      self := this;
    }

    method SetTilesets(tilesets: seq<TiledTileset>) returns (self: Builder)
      modifies this
      ensures self == this && this.tilesets == tilesets
      ensures width == old(width) && height == old(height)
      ensures tileWidth == old(tileWidth) && tileHeight == old(tileHeight)
      ensures layers == old(layers) && objects == old(objects)
    {
      this.tilesets := tilesets;
      self := this;
    }

    method SetObjects(objects: seq<Records.TiledObject>) returns (self: Builder)
      modifies this
      ensures self == this && this.objects == objects
      ensures width == old(width) && height == old(height)
      ensures tileWidth == old(tileWidth) && tileHeight == old(tileHeight)
      ensures layers == old(layers) && tilesets == old(tilesets)
    {
      this.objects := objects;
      self := this;
    }

    /** Always returns a map; bad sizes and empty lists are only logged. */
    method Build() returns (m: TiledMap, diagnostics: seq<Current.Diagnostic>)
      ensures m.width == width && m.height == height
      ensures m.tileWidth == tileWidth && m.tileHeight == tileHeight
      ensures m.layers == layers && m.tilesets == tilesets && m.objects == objects
      ensures diagnostics == MapDiagnostics(m)
      ensures (width > 0 && height > 0 && tileWidth > 0 && tileHeight > 0
               && layers != [] && tilesets != [] && objects != []) <==> diagnostics == []
    {
      m := TiledMap(width, height, tileWidth, tileHeight, layers, tilesets, objects);
      diagnostics := MapDiagnostics(m);
    }
  }
}
