/**
 * `TiledParser` (package `misa.data.tiled2misa`): from a map document to a
 * `TiledMap`. The document is an `Xml.Element` tree; everything the parser
 * reaches outside the document (the TSX companion files, the base64 decoder,
 * `Double.parseDouble`, the pixel width of a tileset image) is an `Env`.
 *
 * A failure the parser catches drops one tileset or one layer; a failure it
 * does not catch ends the whole load, which then returns null (`None` here).
 */
module TiledParser {
  import opened Wrappers
  import opened JavaLang
  import opened Xml
  import opened TiledRecords
  import opened TileDecoding
  import Maps = TiledMap

  /**
   * The parser's collaborators:
   * - `tsx(path)`: the parsed TSX document found on the class path at `path`,
   *   `None` when there is no such resource or it does not parse;
   * - `base64Decode(text)`: `Base64.getDecoder().decode`, `None` on malformed input;
   * - `parseDouble(text)`: `Double.parseDouble`, `None` on `NumberFormatException`;
   * - `imageWidth(path)`: the pixel width of the atlas image at `path`, when it can be read.
   */
  datatype Env = Env(
    tsx: string -> Option<Element>,
    base64Decode: string -> Option<seq<uint8>>,
    parseDouble: string -> Option<real>,
    imageWidth: string -> Option<int>)

  // ---------------------------------------------------------------------------
  // Base path and integer attributes
  // ---------------------------------------------------------------------------

  /** `setResourceBasePath`: a '/' is appended unless the path already ends with one. */
  function NormalizedBasePath(basePath: string): (r: string)
    ensures EndsWith(r, "/")
    ensures r == basePath || r == basePath + "/"
    ensures EndsWith(basePath, "/") ==> r == basePath
  {
    if EndsWith(basePath, "/") then basePath
    else
      assert (basePath + "/")[|basePath|..] == "/";
      basePath + "/"
  }

  /** Setting the base path twice is setting it once. */
  lemma NormalizedBasePathIdempotent(basePath: string)
    ensures NormalizedBasePath(NormalizedBasePath(basePath)) == NormalizedBasePath(basePath)
  {
  }

  /**
   * `getIntAttribute`: the attribute read with `Integer.parseInt`, and 0 when it
   * is missing (read as the empty string) or is not a 32-bit decimal integer.
   */
  function GetIntAttribute(e: Element, attribute: string): (r: int)
    ensures INT_MIN <= r <= INT_MAX
    ensures ParseInt(GetAttribute(e, attribute)) == Some(r)
         || (ParseInt(GetAttribute(e, attribute)) == None && r == 0)
  {
    ParseInt(GetAttribute(e, attribute)).GetOr(0)
  }

  /** A missing attribute reads as 0. */
  lemma GetIntAttributeMissing(e: Element, attribute: string)
    requires !HasAttribute(e, attribute)
    ensures GetIntAttribute(e, attribute) == 0
  {
  }

  /** An attribute written as `Integer.toString(n)` reads back as `n`. */
  lemma GetIntAttributeOfNumeral(e: Element, attribute: string, n: int)
    requires INT_MIN <= n <= INT_MAX && GetAttribute(e, attribute) == IntToString(n)
    ensures GetIntAttribute(e, attribute) == n
  {
    ParseIntOfIntToString(n);
  }

  // ---------------------------------------------------------------------------
  // Keeping the parts that parsed
  // ---------------------------------------------------------------------------

  /** The values of the `Some` entries, in order: what is left after dropping the failures. */
  function Survivors<T>(results: seq<Option<T>>): (r: seq<T>)
    ensures |r| <= |results|
  {
    if |results| == 0 then []
    else
      var prefix := results[..|results| - 1];
      var last := results[|results| - 1];
      Survivors(prefix) + (if last.Some? then [last.value] else [])
  }

  lemma {:induction false} SurvivorsAppend<T>(a: seq<Option<T>>, b: seq<Option<T>>)
    ensures Survivors(a + b) == Survivors(a) + Survivors(b)
    decreases |b|
  {
    if |b| == 0 {
      assert a + b == a;
    } else {
      var b' := b[..|b| - 1];
      assert (a + b)[..|a + b| - 1] == a + b';
      SurvivorsAppend(a, b');
    }
  }

  /** A failure in the middle changes nothing about the parts before and after it. */
  lemma SurvivorsSkipFailure<T>(a: seq<Option<T>>, b: seq<Option<T>>)
    ensures Survivors(a + [None] + b) == Survivors(a + b)
  {
    SurvivorsAppend(a + [None], b);
    SurvivorsAppend(a, [None]);
    SurvivorsAppend(a, b);
    assert Survivors<T>([None]) == [];
  }

  /** When nothing fails, every part survives, in its place. */
  lemma {:induction false} SurvivorsAllPresent<T>(results: seq<Option<T>>)
    requires forall i :: 0 <= i < |results| ==> results[i].Some?
    ensures |Survivors(results)| == |results|
    ensures forall i :: 0 <= i < |results| ==> Survivors(results)[i] == results[i].value
  {
    if |results| > 0 {
      SurvivorsAllPresent(results[..|results| - 1]);
    }
  }

  /** All the values, or `None` as soon as one part fails (an exception the loop does not catch). */
  function AllParsed<T>(results: seq<Option<T>>): (r: Option<seq<T>>)
    ensures r.Some? <==> forall i :: 0 <= i < |results| ==> results[i].Some?
    ensures r.Some? ==> |r.value| == |results| && forall i :: 0 <= i < |results| ==> Some(r.value[i]) == results[i]
  {
    if |results| == 0 then Some([])
    else
      var prefix := results[..|results| - 1];
      var last := results[|results| - 1];
      assert forall i :: 0 <= i < |prefix| ==> prefix[i] == results[i];
      match AllParsed(prefix)
      case None => None
      case Some(values) => if last.Some? then Some(values + [last.value]) else None
  }

  // ---------------------------------------------------------------------------
  // Tilesets
  // ---------------------------------------------------------------------------

  /**
   * `extractImagePathFromTSX(tsxPath)`: the base path followed by the `source`
   * of the first `<image>` of the TSX document. `None` (the caught exception,
   * the null result) when there is no TSX at that path or it has no `<image>`.
   */
  function ImagePathFromTsx(env: Env, base: string, tsxPath: string): (r: Option<string>)
    ensures r.Some? <==> env.tsx(tsxPath).Some? && DocumentElementsByTagName(env.tsx(tsxPath).value, "image") != []
    ensures r.Some? ==> |base| <= |r.value| && r.value[..|base|] == base
  {
    match env.tsx(tsxPath)
    case None => None
    case Some(doc) =>
      var images := DocumentElementsByTagName(doc, "image");
      if |images| == 0 then None
      else
        var path := base + GetAttribute(images[0], "source");
        assert path[..|base|] == base;
        Some(path)
  }

  /**
   * One `<tileset>` element: the TSX is looked up at `base + source`; the
   * tileset is the resolved image path and `firstgid`, or is dropped.
   */
  function TilesetOf(env: Env, base: string, e: Element): (r: Option<TiledTileset>)
    ensures r.Some? <==> ImagePathFromTsx(env, base, base + GetAttribute(e, "source")).Some?
    ensures r.Some? ==> r.value.firstGID == GetIntAttribute(e, "firstgid")
    ensures r.Some? ==> r.value.source == ImagePathFromTsx(env, base, base + GetAttribute(e, "source")).value
  {
    match ImagePathFromTsx(env, base, base + GetAttribute(e, "source"))
    case None => None
    case Some(imagePath) => Some(TiledTileset(imagePath, GetIntAttribute(e, "firstgid"), env.imageWidth(imagePath)))
  }

  /** A resolvable TSX gives the tileset `(base + image source, firstgid)`. */
  lemma TilesetResolved(env: Env, base: string, e: Element, doc: Element)
    requires env.tsx(base + GetAttribute(e, "source")) == Some(doc)
    requires DocumentElementsByTagName(doc, "image") != []
    ensures var imagePath := base + GetAttribute(DocumentElementsByTagName(doc, "image")[0], "source");
      TilesetOf(env, base, e) == Some(TiledTileset(imagePath, GetIntAttribute(e, "firstgid"), env.imageWidth(imagePath)))
  {
  }

  function TilesetResults(env: Env, base: string, nodes: seq<Element>): (results: seq<Option<TiledTileset>>)
    ensures |results| == |nodes|
    ensures forall i :: 0 <= i < |nodes| ==> results[i] == TilesetOf(env, base, nodes[i])
  {
    seq(|nodes|, i requires 0 <= i < |nodes| => TilesetOf(env, base, nodes[i]))
  }

  /** `parseTilesets`: every `<tileset>` of the document that resolves, in document order. */
  function TilesetsOf(env: Env, base: string, root: Element): seq<TiledTileset>
  {
    Survivors(TilesetResults(env, base, DocumentElementsByTagName(root, "tileset")))
  }

  /** When every TSX resolves, there is one tileset per `<tileset>` element, in order. */
  lemma TilesetsAllResolved(env: Env, base: string, root: Element)
    requires forall e :: e in DocumentElementsByTagName(root, "tileset") ==> TilesetOf(env, base, e).Some?
    ensures var nodes := DocumentElementsByTagName(root, "tileset");
      |TilesetsOf(env, base, root)| == |nodes|
      && forall i :: 0 <= i < |nodes| ==> Some(TilesetsOf(env, base, root)[i]) == TilesetOf(env, base, nodes[i])
  {
    var nodes := DocumentElementsByTagName(root, "tileset");
    SurvivorsAllPresent(TilesetResults(env, base, nodes));
  }

  // ---------------------------------------------------------------------------
  // Tile layers
  // ---------------------------------------------------------------------------

  /**
   * What one `<layer>` element comes to: a layer; skipped (unsupported
   * encoding, or an exception while decoding, both caught); or no `<data>`
   * child, which throws outside the `try`.
   */
  datatype LayerOutcome = Parsed(layer: TiledLayer) | Skipped | MissingData

  /**
   * The grid decoded from the trimmed `<data>` text. The encoding is compared
   * ignoring case with "csv" and "base64": CSV text is split into tokens,
   * base64 text goes through the decoder and then the big-endian words; any
   * other encoding gives no grid.
   */
  function LayerGrid(env: Env, encoding: string, text: string, w: int, h: int): (r: Option<Grid>)
    ensures r.Some? ==> 0 <= w && 0 <= h && IsGrid(r.value, w, h)
    ensures EqualsIgnoreCase("csv", encoding) ==> r == CsvGrid(text, w, h)
    ensures !EqualsIgnoreCase("csv", encoding) && EqualsIgnoreCase("base64", encoding) ==>
      r == (match env.base64Decode(text) case None => None case Some(bytes) => Base64Grid(bytes, w, h))
    ensures !EqualsIgnoreCase("csv", encoding) && !EqualsIgnoreCase("base64", encoding) ==> r == None
  {
    if EqualsIgnoreCase("csv", encoding) then CsvGrid(text, w, h)
    else if EqualsIgnoreCase("base64", encoding) then
      match env.base64Decode(text)
      case None => None
      case Some(bytes) => Base64Grid(bytes, w, h)
    else None
  }

  /** The encoding is matched ignoring case, and must match exactly otherwise. */
  lemma EncodingIgnoresCase(env: Env, text: string, w: int, h: int)
    ensures LayerGrid(env, "CSV", text, w, h) == CsvGrid(text, w, h)
    ensures LayerGrid(env, "Base64", text, w, h) == LayerGrid(env, "base64", text, w, h)
    ensures LayerGrid(env, "csv ", text, w, h) == None
    ensures LayerGrid(env, "xml", text, w, h) == None
  {
    assert EqualsIgnoreCase("csv", "CSV");
    assert !EqualsIgnoreCase("csv", "Base64") && EqualsIgnoreCase("base64", "Base64");
    assert !EqualsIgnoreCase("csv", "csv ") && !EqualsIgnoreCase("base64", "csv ");
    assert !CharsEqualIgnoreCase("csv"[0], "xml"[0]);
    assert |"base64"| != |"xml"|;
  }

  /** The grid of a `<layer>` element: its first `<data>` decoded with the layer's sizes. */
  function DataGrid(env: Env, e: Element): Option<Grid>
    requires ElementsByTagName(e, "data") != []
  {
    var data := ElementsByTagName(e, "data")[0];
    LayerGrid(env, GetAttribute(data, "encoding"), Trim(data.textContent),
              GetIntAttribute(e, "width"), GetIntAttribute(e, "height"))
  }

  /**
   * `parseLayers`, one iteration: name, sizes, the first `<data>` below the
   * layer, and its decode. A layer is skipped exactly when its data does not
   * decode, and otherwise holds the decoded grid.
   */
  function LayerOf(env: Env, e: Element): (r: LayerOutcome)
    ensures r.MissingData? <==> ElementsByTagName(e, "data") == []
    ensures r.Skipped? <==> ElementsByTagName(e, "data") != [] && DataGrid(env, e).None?
    ensures r.Parsed? ==>
      && r.layer.name == GetAttribute(e, "name")
      && r.layer.width == GetIntAttribute(e, "width")
      && r.layer.height == GetIntAttribute(e, "height")
      && Some(r.layer.tileData) == DataGrid(env, e)
      && Rectangular(r.layer)
  {
    var data := ElementsByTagName(e, "data");
    if |data| == 0 then MissingData
    else
      var w := GetIntAttribute(e, "width");
      var h := GetIntAttribute(e, "height");
      match LayerGrid(env, GetAttribute(data[0], "encoding"), Trim(data[0].textContent), w, h)
      case None => Skipped
      case Some(grid) => Parsed(TiledLayer(GetAttribute(e, "name"), w, h, grid))
  }

  /**
   * A `<layer>` whose CSV `<data>` holds the numerals of a grid of the
   * layer's sizes is parsed into a layer holding that grid.
   */
  lemma CsvLayerRoundTrip(env: Env, e: Element, g: Grid)
    requires ElementsByTagName(e, "data") != []
    requires EqualsIgnoreCase("csv", GetAttribute(ElementsByTagName(e, "data")[0], "encoding"))
    requires 0 < GetIntAttribute(e, "width") && 0 < GetIntAttribute(e, "height")
    requires IsGrid(g, GetIntAttribute(e, "width"), GetIntAttribute(e, "height"))
    requires forall row, col :: 0 <= row < |g| && 0 <= col < |g[row]| ==> LONG_MIN <= g[row][col] <= LONG_MAX
    requires Trim(ElementsByTagName(e, "data")[0].textContent) == Join(CsvTokens(g))
    ensures LayerOf(env, e)
         == Parsed(TiledLayer(GetAttribute(e, "name"), GetIntAttribute(e, "width"), GetIntAttribute(e, "height"), g))
  {
    CsvRoundTrip(g, GetIntAttribute(e, "width"), GetIntAttribute(e, "height"));
  }

  /**
   * A `<layer>` whose base64 `<data>` decodes to the big-endian words of a
   * grid of the layer's sizes is parsed into a layer holding that grid.
   */
  lemma Base64LayerRoundTrip(env: Env, e: Element, g: Grid)
    requires ElementsByTagName(e, "data") != []
    requires EqualsIgnoreCase("base64", GetAttribute(ElementsByTagName(e, "data")[0], "encoding"))
    requires 0 <= GetIntAttribute(e, "width") && 0 <= GetIntAttribute(e, "height")
    requires IsGrid(g, GetIntAttribute(e, "width"), GetIntAttribute(e, "height"))
    requires forall row, col :: 0 <= row < |g| && 0 <= col < |g[row]| ==> 0 <= g[row][col] < 0x1_0000_0000
    requires env.base64Decode(Trim(ElementsByTagName(e, "data")[0].textContent)) == Some(Base64Bytes(g))
    ensures LayerOf(env, e)
         == Parsed(TiledLayer(GetAttribute(e, "name"), GetIntAttribute(e, "width"), GetIntAttribute(e, "height"), g))
  {
    var encoding := GetAttribute(ElementsByTagName(e, "data")[0], "encoding");
    assert |encoding| == 6;
    assert !EqualsIgnoreCase("csv", encoding);
    Base64RoundTrip(g, GetIntAttribute(e, "width"), GetIntAttribute(e, "height"));
  }

  function LayerOutcomes(env: Env, nodes: seq<Element>): (outcomes: seq<LayerOutcome>)
    ensures |outcomes| == |nodes|
    ensures forall i :: 0 <= i < |nodes| ==> outcomes[i] == LayerOf(env, nodes[i])
  {
    seq(|nodes|, i requires 0 <= i < |nodes| => LayerOf(env, nodes[i]))
  }

  /** The parsed layers among the outcomes, as present or dropped. */
  function Kept(outcomes: seq<LayerOutcome>): (r: seq<Option<TiledLayer>>)
    ensures |r| == |outcomes|
    ensures forall i :: 0 <= i < |outcomes| ==> r[i] == (if outcomes[i].Parsed? then Some(outcomes[i].layer) else None)
  {
    seq(|outcomes|, i requires 0 <= i < |outcomes| => if outcomes[i].Parsed? then Some(outcomes[i].layer) else None)
  }

  /** The layer list of a load: `None` once a layer has no `<data>`; otherwise the parsed layers in order. */
  function KeptLayers(outcomes: seq<LayerOutcome>): (r: Option<seq<TiledLayer>>)
    ensures r.None? <==> exists i :: 0 <= i < |outcomes| && outcomes[i].MissingData?
  {
    if exists i :: 0 <= i < |outcomes| && outcomes[i].MissingData? then None
    else Some(Survivors(Kept(outcomes)))
  }

  /** `parseLayers` over the document's `<layer>` elements. */
  function LayersOf(env: Env, root: Element): Option<seq<TiledLayer>>
  {
    KeptLayers(LayerOutcomes(env, DocumentElementsByTagName(root, "layer")))
  }

  lemma KeptAppend(a: seq<LayerOutcome>, b: seq<LayerOutcome>)
    ensures Kept(a + b) == Kept(a) + Kept(b)
  {
    assert forall i :: 0 <= i < |a + b| ==> Kept(a + b)[i] == (Kept(a) + Kept(b))[i];
  }

  /** One more layer: the load ends on a missing `<data>`, and otherwise gains the layer if it parsed. */
  lemma KeptLayersStep(outcomes: seq<LayerOutcome>, i: int, layers: seq<TiledLayer>)
    requires 0 <= i < |outcomes| && KeptLayers(outcomes[..i]) == Some(layers)
    ensures outcomes[i].MissingData? ==> KeptLayers(outcomes) == None
    ensures outcomes[i].Parsed? ==> KeptLayers(outcomes[..i + 1]) == Some(layers + [outcomes[i].layer])
    ensures outcomes[i].Skipped? ==> KeptLayers(outcomes[..i + 1]) == Some(layers)
  {
    var prefix, next := outcomes[..i], outcomes[..i + 1];
    if !outcomes[i].MissingData? {
      assert next == prefix + [outcomes[i]];
      forall k | 0 <= k < |next|
        ensures !next[k].MissingData?
      {
        if k < i {
          assert next[k] == prefix[k];
        }
      }
      KeptAppend(prefix, [outcomes[i]]);
      SurvivorsAppend(Kept(prefix), Kept([outcomes[i]]));
      if outcomes[i].Skipped? {
        assert Survivors(Kept([outcomes[i]])) == [];
        assert layers + [] == layers;
      }
    }
  }

  /** A skipped layer leaves the layers before and after it as they are. */
  lemma SkippedLayerDropped(a: seq<LayerOutcome>, b: seq<LayerOutcome>)
    ensures KeptLayers(a + [Skipped] + b) == KeptLayers(a + b)
  {
    var ab, asb := a + b, a + [Skipped] + b;
    if exists i :: 0 <= i < |ab| && ab[i].MissingData? {
      var i :| 0 <= i < |ab| && ab[i].MissingData?;
      if i < |a| {
        assert asb[i] == ab[i];
      } else {
        assert asb[i + 1] == ab[i];
      }
    } else {
      assert forall i :: 0 <= i < |asb| ==> !asb[i].MissingData? by {
        forall i | 0 <= i < |asb|
          ensures !asb[i].MissingData?
        {
          if i < |a| {
            assert asb[i] == ab[i];
          } else if i > |a| {
            assert asb[i] == ab[i - 1];
          }
        }
      }
      KeptAppend(a + [Skipped], b);
      KeptAppend(a, [Skipped]);
      KeptAppend(a, b);
      assert Kept([Skipped]) == [None];
      SurvivorsSkipFailure(Kept(a), Kept(b));
    }
  }

  /** A layer without `<data>` anywhere ends the load. */
  lemma MissingDataEndsLoad(a: seq<LayerOutcome>, b: seq<LayerOutcome>)
    ensures KeptLayers(a + [MissingData] + b) == None
  {
    assert (a + [MissingData] + b)[|a|].MissingData?;
  }

  /** When every layer decodes, the load keeps them all, in document order. */
  lemma AllLayersKept(outcomes: seq<LayerOutcome>)
    requires forall i :: 0 <= i < |outcomes| ==> outcomes[i].Parsed?
    ensures KeptLayers(outcomes).Some?
    ensures |KeptLayers(outcomes).value| == |outcomes|
    ensures forall i :: 0 <= i < |outcomes| ==> KeptLayers(outcomes).value[i] == outcomes[i].layer
  {
    SurvivorsAllPresent(Kept(outcomes));
  }

  // ---------------------------------------------------------------------------
  // Objects
  // ---------------------------------------------------------------------------

  /** The `name` to `value` map of `<property>` elements, a later name replacing an earlier one. */
  function PropertyBag(props: seq<Element>): (bag: map<string, string>)
    ensures forall k :: k in bag <==> exists i :: 0 <= i < |props| && GetAttribute(props[i], "name") == k
  {
    if |props| == 0 then map[]
    else
      var prefix := props[..|props| - 1];
      var last := props[|props| - 1];
      assert forall i :: 0 <= i < |prefix| ==> prefix[i] == props[i];
      PropertyBag(prefix)[GetAttribute(last, "name") := GetAttribute(last, "value")]
  }

  /** The last `<property>` with a given name decides its value. */
  lemma {:induction false} PropertyBagLastWins(props: seq<Element>, i: int)
    requires 0 <= i < |props|
    requires forall j :: i < j < |props| ==> GetAttribute(props[j], "name") != GetAttribute(props[i], "name")
    ensures PropertyBag(props)[GetAttribute(props[i], "name")] == GetAttribute(props[i], "value")
  {
    if i < |props| - 1 {
      var prefix := props[..|props| - 1];
      assert prefix[i] == props[i];
      PropertyBagLastWins(prefix, i);
    }
  }

  /**
   * `parseObject`: `id` must be an int and `x`, `y` doubles, and `width` and
   * `height` doubles when present; otherwise the exception propagates.
   * Absent `name`, `type`, `width` and `height` take their defaults.
   */
  function ObjectOf(env: Env, e: Element): (r: Option<TiledObject>)
    ensures r.Some? <==>
      && ParseInt(GetAttribute(e, "id")).Some?
      && env.parseDouble(GetAttribute(e, "x")).Some?
      && env.parseDouble(GetAttribute(e, "y")).Some?
      && (HasAttribute(e, "width") ==> env.parseDouble(GetAttribute(e, "width")).Some?)
      && (HasAttribute(e, "height") ==> env.parseDouble(GetAttribute(e, "height")).Some?)
    ensures r.Some? ==> Some(r.value.id) == ParseInt(GetAttribute(e, "id"))
    ensures r.Some? ==> Some(r.value.x) == env.parseDouble(GetAttribute(e, "x"))
    ensures r.Some? ==> Some(r.value.y) == env.parseDouble(GetAttribute(e, "y"))
    ensures r.Some? && HasAttribute(e, "width") ==> Some(r.value.width) == env.parseDouble(GetAttribute(e, "width"))
    ensures r.Some? && HasAttribute(e, "height") ==> Some(r.value.height) == env.parseDouble(GetAttribute(e, "height"))
    ensures r.Some? && !HasAttribute(e, "name") ==> r.value.name == "Unnamed"
    ensures r.Some? && HasAttribute(e, "name") ==> r.value.name == GetAttribute(e, "name")
    ensures r.Some? && !HasAttribute(e, "type") ==> r.value.kind == "Undefined"
    ensures r.Some? && HasAttribute(e, "type") ==> r.value.kind == GetAttribute(e, "type")
    ensures r.Some? && !HasAttribute(e, "width") ==> r.value.width == 0.0
    ensures r.Some? && !HasAttribute(e, "height") ==> r.value.height == 0.0
    ensures r.Some? ==> r.value.properties == PropertyBag(ElementsByTagName(e, "property"))
  {
    var id := ParseInt(GetAttribute(e, "id"));
    var x := env.parseDouble(GetAttribute(e, "x"));
    var y := env.parseDouble(GetAttribute(e, "y"));
    var width := if HasAttribute(e, "width") then env.parseDouble(GetAttribute(e, "width")) else Some(0.0);
    var height := if HasAttribute(e, "height") then env.parseDouble(GetAttribute(e, "height")) else Some(0.0);
    if id.None? || x.None? || y.None? || width.None? || height.None? then None
    else
      var name := if HasAttribute(e, "name") then GetAttribute(e, "name") else "Unnamed";
      var kind := if HasAttribute(e, "type") then GetAttribute(e, "type") else "Undefined";
      Some(TiledObject(id.value, name, kind, x.value, y.value, width.value, height.value,
                       PropertyBag(ElementsByTagName(e, "property"))))
  }

  /** The `<object>` elements of each object group, group after group. */
  function ObjectElements(groups: seq<Element>): seq<Element>
  {
    if |groups| == 0 then []
    else ObjectElements(groups[..|groups| - 1]) + ElementsByTagName(groups[|groups| - 1], "object")
  }

  /** One more group contributes its own `<object>` elements at the end. */
  lemma ObjectElementsNext(groups: seq<Element>, i: int)
    requires 0 <= i < |groups|
    ensures ObjectElements(groups[..i + 1]) == ObjectElements(groups[..i]) + ElementsByTagName(groups[i], "object")
  {
    assert groups[..i + 1][..i] == groups[..i];
  }

  /** The objects of the first `n` groups come first. */
  lemma {:induction false} ObjectElementsPrefix(groups: seq<Element>, n: int)
    requires 0 <= n <= |groups|
    ensures ObjectElements(groups[..n]) <= ObjectElements(groups)
    decreases |groups|
  {
    if n < |groups| {
      var prefix := groups[..|groups| - 1];
      assert prefix[..n] == groups[..n];
      ObjectElementsPrefix(prefix, n);
    } else {
      assert groups[..n] == groups;
    }
  }

  function ObjectResults(env: Env, elems: seq<Element>): (results: seq<Option<TiledObject>>)
    ensures |results| == |elems|
    ensures forall k :: 0 <= k < |elems| ==> results[k] == ObjectOf(env, elems[k])
  {
    seq(|elems|, k requires 0 <= k < |elems| => ObjectOf(env, elems[k]))
  }

  /** Extending a prefix of `b` by one element, behind `a`. */
  lemma AppendNext<T>(a: seq<T>, b: seq<T>, j: int)
    requires 0 <= j < |b|
    ensures a + b[..j + 1] == (a + b[..j]) + [b[j]]
  {
  }

  /** Parsing one more object element: the list grows by its object, or the parse fails. */
  lemma ObjectsStep(env: Env, seen: seq<Element>, e: Element, objects: seq<TiledObject>)
    requires AllParsed(ObjectResults(env, seen)) == Some(objects)
    ensures AllParsed(ObjectResults(env, seen + [e])) ==
      if ObjectOf(env, e).Some? then Some(objects + [ObjectOf(env, e).value]) else None
  {
    var results := ObjectResults(env, seen + [e]);
    assert results[..|results| - 1] == ObjectResults(env, seen);
  }

  /** Once an object of a prefix fails, the whole parse fails. */
  lemma ObjectsPrefixFailure(env: Env, prefix: seq<Element>, elems: seq<Element>)
    requires prefix <= elems && AllParsed(ObjectResults(env, prefix)).None?
    ensures AllParsed(ObjectResults(env, elems)).None?
  {
    var k :| 0 <= k < |prefix| && ObjectResults(env, prefix)[k].None?;
    assert ObjectResults(env, elems)[k].None?;
  }

  /** `parseObjectLayers`: every object of every group in document order, or `None` if one fails. */
  function ObjectsOf(env: Env, root: Element): Option<seq<TiledObject>>
  {
    AllParsed(ObjectResults(env, ObjectElements(DocumentElementsByTagName(root, "objectgroup"))))
  }

  // ---------------------------------------------------------------------------
  // The whole document
  // ---------------------------------------------------------------------------

  /**
   * `createTiledMapFromDocument`: the root's sizes, and the tilesets, layers
   * and objects in document order; `None` when the layers or objects throw.
   */
  function MapOf(env: Env, base: string, root: Element): (r: Option<Maps.TiledMap>)
    ensures r.Some? <==> LayersOf(env, root).Some? && ObjectsOf(env, root).Some?
    ensures r.Some? ==> r.value.width == GetIntAttribute(root, "width") && r.value.height == GetIntAttribute(root, "height")
    ensures r.Some? ==> r.value.tileWidth == GetIntAttribute(root, "tilewidth") && r.value.tileHeight == GetIntAttribute(root, "tileheight")
    ensures r.Some? ==> r.value.tilesets == TilesetsOf(env, base, root)
    ensures r.Some? ==> Some(r.value.layers) == LayersOf(env, root) && Some(r.value.objects) == ObjectsOf(env, root)
  {
    match (LayersOf(env, root), ObjectsOf(env, root))
    case (Some(layers), Some(objects)) =>
      Some(Maps.TiledMap(GetIntAttribute(root, "width"), GetIntAttribute(root, "height"),
                         GetIntAttribute(root, "tilewidth"), GetIntAttribute(root, "tileheight"),
                         layers, TilesetsOf(env, base, root), objects))
    case _ => None
  }

  /** One `<layer>` without a `<data>` descendant makes the whole load return null. */
  lemma LayerWithoutDataFailsLoad(env: Env, base: string, root: Element, k: int)
    requires 0 <= k < |DocumentElementsByTagName(root, "layer")|
    requires ElementsByTagName(DocumentElementsByTagName(root, "layer")[k], "data") == []
    ensures MapOf(env, base, root) == None
  {
    var outcomes := LayerOutcomes(env, DocumentElementsByTagName(root, "layer"));
    assert outcomes[k].MissingData?;
  }

  /** An object whose `id` is not an int makes the whole load return null. */
  lemma BadObjectIdFailsLoad(env: Env, base: string, root: Element, k: int)
    requires var elems := ObjectElements(DocumentElementsByTagName(root, "objectgroup"));
      0 <= k < |elems| && ParseInt(GetAttribute(elems[k], "id")).None?
    ensures MapOf(env, base, root) == None
  {
    var elems := ObjectElements(DocumentElementsByTagName(root, "objectgroup"));
    assert ObjectResults(env, elems)[k].None?;
  }

  /**
   * Tilesets never end the load: one that does not resolve is only missing
   * from the list. Whether the load succeeds is the same under any base path
   * and any TSX lookup and image reader.
   */
  lemma TilesetsNeverFailLoad(env: Env, env': Env, base: string, base': string, root: Element)
    requires env'.base64Decode == env.base64Decode && env'.parseDouble == env.parseDouble
    ensures MapOf(env, base, root).Some? <==> MapOf(env', base', root).Some?
  {
  }

  // ---------------------------------------------------------------------------
  // The parser object
  // ---------------------------------------------------------------------------

  class TiledParser {
    /** Prefixed to TSX and image paths; ends with '/' once set. */
    var resourceBasePath: string
    /** The preloaded tilesets handed to the constructor. */
    var tilesets: seq<TiledTileset>

    constructor (tilesets: seq<TiledTileset>)
      ensures resourceBasePath == "" && this.tilesets == tilesets
    {
      resourceBasePath := "";
      this.tilesets := tilesets;
    }

    method SetResourceBasePath(basePath: string)
      modifies this
      ensures resourceBasePath == NormalizedBasePath(basePath)
      ensures tilesets == old(tilesets)
    {
      var path := basePath;
      if !EndsWith(path, "/") {
        path := path + "/";
      }
      resourceBasePath := path;
    }

    method ParseTilesets(env: Env, root: Element) returns (parsed: seq<TiledTileset>)
      ensures parsed == TilesetsOf(env, resourceBasePath, root)
    {
      var nodes := DocumentElementsByTagName(root, "tileset");
      ghost var results := TilesetResults(env, resourceBasePath, nodes);
      parsed := [];
      var i := 0;
      while i < |nodes|
        invariant 0 <= i <= |nodes|
        invariant parsed == Survivors(results[..i])
      {
        var source := GetAttribute(nodes[i], "source");
        var firstGID := GetIntAttribute(nodes[i], "firstgid");
        var tsxPath := resourceBasePath + source;
        var imagePath := ImagePathFromTsx(env, resourceBasePath, tsxPath);
        assert results[..i + 1][..i] == results[..i];
        if imagePath.Some? {
          parsed := parsed + [TiledTileset(imagePath.value, firstGID, env.imageWidth(imagePath.value))];
        }
        i := i + 1;
      }
      assert results[..i] == results;
    }

    /**
     * `parseLayers`. A layer with no `<data>` throws before the `try`, so the
     * loop ends and so does the load.
     */
    method ParseLayers(env: Env, root: Element) returns (r: Option<seq<TiledLayer>>)
      ensures r == LayersOf(env, root)
    {
      var nodes := DocumentElementsByTagName(root, "layer");
      ghost var outcomes := LayerOutcomes(env, nodes);
      var layers := [];
      var i := 0;
      assert outcomes[..0] == [];
      while i < |nodes|
        invariant 0 <= i <= |nodes|
        invariant KeptLayers(outcomes[..i]) == Some(layers)
      {
        var outcome := ParseLayer(env, nodes[i]);
        assert outcome == outcomes[i];
        KeptLayersStep(outcomes, i, layers);
        if outcome.MissingData? {
          return None;
        }
        if outcome.Parsed? {
          layers := layers + [outcome.layer];
        }
        i := i + 1;
      }
      assert outcomes[..i] == outcomes;
      r := Some(layers);
    }

    /**
     * One iteration of `parseLayers`: reads the layer's attributes, finds its
     * `<data>` and decodes it with the decoder its encoding names.
     */
    method ParseLayer(env: Env, layer: Element) returns (outcome: LayerOutcome)
      ensures outcome == LayerOf(env, layer)
    {
      var name := GetAttribute(layer, "name");
      var w := GetIntAttribute(layer, "width");
      var h := GetIntAttribute(layer, "height");
      var data := ElementsByTagName(layer, "data");
      if |data| == 0 {
        return MissingData;
      }
      var encoding := GetAttribute(data[0], "encoding");
      var text := Trim(data[0].textContent);
      var grid: Option<Grid>;
      if EqualsIgnoreCase("csv", encoding) {
        grid := DecodeCsv(text, w, h);
      } else if EqualsIgnoreCase("base64", encoding) {
        var bytes := env.base64Decode(text);
        if bytes.Some? {
          grid := DecodeBase64(bytes.value, w, h);
        } else {
          grid := None;
        }
      } else {
        grid := None;
      }
      if grid.Some? {
        outcome := Parsed(TiledLayer(name, w, h, grid.value));
      } else {
        outcome := Skipped;
      }
    }

    /** `parseObject`, with its loop over the `<property>` elements. */
    method ParseObject(env: Env, e: Element) returns (r: Option<TiledObject>)
      ensures r == ObjectOf(env, e)
    {
      var id := ParseInt(GetAttribute(e, "id"));
      if id.None? {
        return None;
      }
      var name := if HasAttribute(e, "name") then GetAttribute(e, "name") else "Unnamed";
      var kind := if HasAttribute(e, "type") then GetAttribute(e, "type") else "Undefined";
      var x := env.parseDouble(GetAttribute(e, "x"));
      var y := env.parseDouble(GetAttribute(e, "y"));
      var width := if HasAttribute(e, "width") then env.parseDouble(GetAttribute(e, "width")) else Some(0.0);
      var height := if HasAttribute(e, "height") then env.parseDouble(GetAttribute(e, "height")) else Some(0.0);
      if x.None? || y.None? || width.None? || height.None? {
        return None;
      }
      var props := ElementsByTagName(e, "property");
      var properties: map<string, string> := map[];
      var p := 0;
      while p < |props|
        invariant 0 <= p <= |props|
        invariant properties == PropertyBag(props[..p])
      {
        assert props[..p + 1][..p] == props[..p];
        properties := properties[GetAttribute(props[p], "name") := GetAttribute(props[p], "value")];
        p := p + 1;
      }
      assert props[..p] == props;
      r := Some(TiledObject(id.value, name, kind, x.value, y.value, width.value, height.value, properties));
    }

    method ParseObjectLayers(env: Env, root: Element) returns (r: Option<seq<TiledObject>>)
      ensures r == ObjectsOf(env, root)
    {
      var groups := DocumentElementsByTagName(root, "objectgroup");
      var objects := [];
      var i := 0;
      assert groups[..0] == [];
      while i < |groups|
        invariant 0 <= i <= |groups|
        invariant AllParsed(ObjectResults(env, ObjectElements(groups[..i]))) == Some(objects)
      {
        var objectNodes := ElementsByTagName(groups[i], "object");
        ObjectElementsNext(groups, i);
        var next := ParseGroupObjects(env, objectNodes, objects, ObjectElements(groups[..i]));
        if next.None? {
          ObjectElementsPrefix(groups, i + 1);
          ObjectsPrefixFailure(env, ObjectElements(groups[..i + 1]), ObjectElements(groups));
          return None;
        }
        objects := next.value;
        i := i + 1;
      }
      assert groups[..i] == groups;
      r := Some(objects);
    }

    /**
     * The inner loop of `parseObjectLayers`: parses one group's objects after
     * the `objects` already parsed from `seen`, and fails at the first bad one.
     */
    method ParseGroupObjects(env: Env, objectNodes: seq<Element>, objects: seq<TiledObject>, ghost seen: seq<Element>)
      returns (r: Option<seq<TiledObject>>)
      requires AllParsed(ObjectResults(env, seen)) == Some(objects)
      ensures r == AllParsed(ObjectResults(env, seen + objectNodes))
    {
      var parsed := objects;
      var j := 0;
      assert seen + objectNodes[..0] == seen;
      while j < |objectNodes|
        invariant 0 <= j <= |objectNodes|
        invariant AllParsed(ObjectResults(env, seen + objectNodes[..j])) == Some(parsed)
      {
        AppendNext(seen, objectNodes, j);
        var o := ParseObject(env, objectNodes[j]);
        ObjectsStep(env, seen + objectNodes[..j], objectNodes[j], parsed);
        if o.None? {
          ObjectsPrefixFailure(env, seen + objectNodes[..j + 1], seen + objectNodes);
          return None;
        }
        parsed := parsed + [o.value];
        j := j + 1;
      }
      assert objectNodes[..j] == objectNodes;
      r := Some(parsed);
    }

    /**
     * `createTiledMapFromDocument`: the root's sizes, then tilesets, layers
     * and objects, handed to a fresh `TiledMap.Builder`.
     */
    method CreateTiledMapFromDocument(env: Env, root: Element) returns (r: Option<Maps.TiledMap>)
      ensures r == MapOf(env, resourceBasePath, root)
    {
      var mapWidth := GetIntAttribute(root, "width");
      var mapHeight := GetIntAttribute(root, "height");
      var tileWidth := GetIntAttribute(root, "tilewidth");
      var tileHeight := GetIntAttribute(root, "tileheight");
      var parsedTilesets := ParseTilesets(env, root);
      var parsedLayers := ParseLayers(env, root);
      if parsedLayers.None? {
        return None;
      }
      var parsedObjects := ParseObjectLayers(env, root);
      if parsedObjects.None? {
        return None;
      }
      var b := new Maps.Builder();
      b := b.SetWidth(mapWidth);
      b := b.SetHeight(mapHeight);
      b := b.SetTileWidth(tileWidth);
      b := b.SetTileHeight(tileHeight);
      b := b.SetLayers(parsedLayers.value);
      b := b.SetTilesets(parsedTilesets);
      b := b.SetObjects(parsedObjects.value);
      var m, diagnostics := b.Build();
      r := Some(m);
    }
  }
}
