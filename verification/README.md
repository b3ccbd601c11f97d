# misa-engine core, modelled in Dafny

This project models the core of misa-engine, a small Java 2D game engine.
It proves properties of the model.

The core has three groups.

- **The Tiled map pipeline.**
  - `TiledParser` turns a TMX map document into an immutable `TiledMap`. It decodes each tile layer's `<data>` (CSV or base64) into a row-major grid of tile IDs. It resolves each tileset's image through its TSX file, collects map objects with their defaults and property bags, and drops single tilesets or layers that fail.
  - The two `Renderer`s turn a map into draw commands.
  - The newer and older `TiledMap.Builder`s assemble the map.
- **Camera state.** Covers `Camera`, `CameraBoundary`, `CameraFollower`, the older smoothing `Camera` and `CameraManager`.
- **Small state machines and containers.** Covers `TimeSystem`, the three `Animator`s, `AnimationController`, `EventManager` and `Input`.

## How the model is built

- **One module per source class**, in one file each.
  - Classes whose methods update fields become Dafny `class`es with `modifies` clauses.
  - Each method is proved against a pure specification function (`Stepped`, `Advance`, `AfterInput`, `UpdatedView`, `CsvGrid`, `Base64Grid`, `LayersOf`, `ObjectsOf`, `MapOf`, `LayerCommands`, …).
  - The lemmas state what the source promises about those functions.
- **Java semantics are explicit** in `JavaLang`:
  - truncating `/` and `%` (`JDiv`, `JRem`);
  - 32-bit wrap-around of `int` compound assignments (`ToInt32`);
  - the saturating `(int)` cast of a floating-point value (`DoubleToInt`);
  - `Integer.parseInt` and `Long.parseLong` over decimal numerals (ASCII digits only), `String.trim`, `String.split(",")` with its trailing-empty-field removal, `equalsIgnoreCase` (ASCII letters plus 'ſ', which Java folds to 'S') and `List.remove(Object)`.
- **XML is a plain element tree** (`Xml.Element`). `getElementsByTagName` is a pre-order search of the descendants; the document form also includes the root.
- **The parser's collaborators are one record `Env` of functions.** It holds the TSX lookup on the class path, the base64 decoder, `Double.parseDouble`, and the pixel width of a tileset's atlas image.
- **Drawing is a returned sequence of `Command`s** instead of calls on a `Graphics2D`.
- **Time is a parameter**: the `now` of the animators, and the `realTimeDelta` of `TimeSystem.update`.
- **Failures that the Java code signals by an exception are values:**
  - `None` for a layer or object that fails to parse, or a load that fails;
  - `Outcome.IndexOutOfBounds` for an animator whose frame index lies past the end of a shorter array;
  - a `thrown` flag for `setTime`.
- **Where the code departs from the TMX format and from its own documentation**, the model follows the code:
  - The TMX format resolves a global tile ID to the tileset with the largest `firstgid` not above it. The code takes the *first* tileset in list order with `firstGID <= id` (`Drawing.FirstMatchNotClosest`).
  - The TMX format stores base64 cells as little-endian 32-bit words, with Tiled's flip flags in the top bits. The code reads them *big-endian*, as `ByteBuffer.wrap` does by default, and does not mask the flags (`TileDecoding.Base64ByteOrder`).
  - The newer renderer draws *nothing* for a tile whose ID resolves to no tileset (Renderer.java:102-103). The red fill is drawn only for a resolved tileset that has no image.
  - The Javadoc of `AnimationController.isPlaying` (AnimationController.java:61-66) says it is true for the animation currently playing. The code answers whether `name` is *not* the current animation; see "## Findings".
- **Tileset atlas width.** The renderer reads each tileset's image through a `getImage()` that the `TiledTileset` record does not declare. The model gives every tileset an `atlasWidth: Option<int>`: `None` stands for a null image, and the parser fills it from `Env.imageWidth`.
- **CameraManager's camera.** `CameraManager` drives the smoothing camera API (targets, zoom, `updateMovement`, `updateZoom`), and its boundary reads a viewport. No single camera class in the source has both. The manager here holds the older smoothing `Camera` together with a viewport size given at construction.

## Model

| member | source | states |
|---|---|---|
| TiledParser.NormalizedBasePath | src/main/java/misa/data/tiled2misa/TiledParser.java:43-51 | the stored base path always ends with '/', and equals the argument when that already ends with '/' |
| TiledParser.NormalizedBasePathIdempotent | src/main/java/misa/data/tiled2misa/TiledParser.java:43-51 | setting the base path a second time changes nothing |
| TiledParser.TiledParser.constructor | src/main/java/misa/data/tiled2misa/TiledParser.java:33-36 | a new parser keeps the given tilesets and an empty base path |
| TiledParser.TiledParser.SetResourceBasePath | src/main/java/misa/data/tiled2misa/TiledParser.java:43-51 | the field becomes the normalised path; the tilesets are kept |
| TiledParser.GetIntAttribute | src/main/java/misa/data/tiled2misa/TiledParser.java:171-183 | the result is a 32-bit int: the parsed attribute when it is a decimal int, else 0; it never fails |
| TiledParser.GetIntAttributeMissing | src/main/java/misa/data/tiled2misa/TiledParser.java:171-183 | a missing attribute (read as "") gives 0 |
| TiledParser.GetIntAttributeOfNumeral | src/main/java/misa/data/tiled2misa/TiledParser.java:171-183 | an attribute written as Integer.toString(n) reads back as n |
| TiledParser.Survivors | src/main/java/misa/data/tiled2misa/TiledParser.java:194-216 | dropping failures never lengthens the list |
| TiledParser.SurvivorsSkipFailure | src/main/java/misa/data/tiled2misa/TiledParser.java:205-213 | a failed part in the middle leaves the parts before and after it as they were |
| TiledParser.SurvivorsAllPresent | src/main/java/misa/data/tiled2misa/TiledParser.java:194-216 | when nothing fails, every part survives in its place |
| TiledParser.AllParsed | src/main/java/misa/data/tiled2misa/TiledParser.java:352-362 | a list of results gives all values in order exactly when every one succeeded, else no list (the uncaught exception) |
| TiledParser.ImagePathFromTsx | src/main/java/misa/data/tiled2misa/TiledParser.java:219-249 | a path exists exactly when the TSX is found and holds an <image>; it starts with the base path |
| TiledParser.TilesetOf | src/main/java/misa/data/tiled2misa/TiledParser.java:196-213 | a tileset exists exactly when its TSX resolves; it carries the resolved image path and the firstgid attribute |
| TiledParser.TilesetResolved | src/main/java/misa/data/tiled2misa/TiledParser.java:196-242 | a TSX found at base + source with an <image> gives the tileset (base + image source, firstgid) |
| TiledParser.TilesetResults | src/main/java/misa/data/tiled2misa/TiledParser.java:190-214 | one tileset result per <tileset> element, in document order |
| TiledParser.TilesetsAllResolved | src/main/java/misa/data/tiled2misa/TiledParser.java:187-217 | when every TSX resolves there is one tileset per element, in document order |
| TiledParser.TiledParser.ParseTilesets | src/main/java/misa/data/tiled2misa/TiledParser.java:187-217 | the loop returns the tilesets that resolved, in document order |
| TiledParser.LayerGrid | src/main/java/misa/data/tiled2misa/TiledParser.java:270-289 | the encoding is compared ignoring case with "csv" and "base64"; csv decodes as CsvGrid; base64 goes through the decoder and then Base64Grid, with no grid when the text does not decode; any other encoding gives no grid; a grid has the layer's sizes |
| TiledParser.EncodingIgnoresCase | src/main/java/misa/data/tiled2misa/TiledParser.java:277-289 | "CSV" and "Base64" are accepted; "csv " and "xml" are not |
| TiledParser.LayerOf | src/main/java/misa/data/tiled2misa/TiledParser.java:262-296 | a layer fails the load exactly when it has no <data>; it is skipped exactly when its first <data> does not decode with the layer's sizes; a parsed layer has the element's name and sizes and holds the decoded grid, which is rectangular |
| TiledParser.CsvLayerRoundTrip | src/main/java/misa/data/tiled2misa/TiledParser.java:262-296 | a <layer> whose CSV <data> is the joined numerals of a grid of its sizes parses into a layer holding that grid |
| TiledParser.Base64LayerRoundTrip | src/main/java/misa/data/tiled2misa/TiledParser.java:262-296 | a <layer> whose base64 <data> decodes to the big-endian words of a grid of its sizes parses into a layer holding that grid |
| TiledParser.LayerOutcomes | src/main/java/misa/data/tiled2misa/TiledParser.java:256-297 | one outcome per <layer> element, in document order |
| TiledParser.Kept | src/main/java/misa/data/tiled2misa/TiledParser.java:291-296 | each parsed layer is kept and each skipped one dropped, position by position |
| TiledParser.KeptLayers | src/main/java/misa/data/tiled2misa/TiledParser.java:253-300 | the layer list fails exactly when some layer has no <data> |
| TiledParser.KeptLayersStep | src/main/java/misa/data/tiled2misa/TiledParser.java:260-297 | one more iteration ends the load, appends the parsed layer, or keeps the list as it was |
| TiledParser.SkippedLayerDropped | src/main/java/misa/data/tiled2misa/TiledParser.java:285-296 | a skipped layer leaves the layers around it unchanged |
| TiledParser.MissingDataEndsLoad | src/main/java/misa/data/tiled2misa/TiledParser.java:269-270 | a layer with no <data> makes the whole layer list fail |
| TiledParser.AllLayersKept | src/main/java/misa/data/tiled2misa/TiledParser.java:253-300 | when every layer decodes, all are kept in document order |
| TiledParser.TiledParser.ParseLayers | src/main/java/misa/data/tiled2misa/TiledParser.java:253-300 | the loop returns exactly the kept layers, or fails on a layer with no <data> |
| TiledParser.TiledParser.ParseLayer | src/main/java/misa/data/tiled2misa/TiledParser.java:262-296 | one iteration of the layer loop gives the layer's outcome |
| TiledParser.PropertyBag | src/main/java/misa/data/tiled2misa/TiledParser.java:378-384 | the bag's keys are exactly the names of the <property> elements |
| TiledParser.PropertyBagLastWins | src/main/java/misa/data/tiled2misa/TiledParser.java:380-384 | the last property with a given name decides its value |
| TiledParser.ObjectOf | src/main/java/misa/data/tiled2misa/TiledParser.java:367-388 | an object exists exactly when id parses as an int and x, y (and width, height when present) as doubles; x and y are the parsed values, and so are width and height when present; absent name, type, width and height become "Unnamed", "Undefined", 0 and 0; it carries the property bag |
| TiledParser.TiledParser.ParseObject | src/main/java/misa/data/tiled2misa/TiledParser.java:367-388 | the method, with its loop over the properties, returns that object |
| TiledParser.ObjectElementsPrefix | src/main/java/misa/data/tiled2misa/TiledParser.java:352-362 | the objects of the first groups come first |
| TiledParser.ObjectResults | src/main/java/misa/data/tiled2misa/TiledParser.java:357-361 | one object result per <object> element, in order |
| TiledParser.ObjectsStep | src/main/java/misa/data/tiled2misa/TiledParser.java:357-361 | one more object element appends its object or fails the parse |
| TiledParser.ObjectsPrefixFailure | src/main/java/misa/data/tiled2misa/TiledParser.java:357-361 | once an object fails, the parse of every longer list fails |
| TiledParser.TiledParser.ParseObjectLayers | src/main/java/misa/data/tiled2misa/TiledParser.java:345-365 | the nested loops return every object of every group in document order, or fail at the first bad object |
| TiledParser.TiledParser.ParseGroupObjects | src/main/java/misa/data/tiled2misa/TiledParser.java:355-361 | the inner loop extends the objects parsed so far by one group's, or fails |
| TiledParser.MapOf | src/main/java/misa/data/tiled2misa/TiledParser.java:134-169 | a map exists exactly when the layers and objects parse; it carries the root's four sizes and the tilesets, layers and objects in document order |
| TiledParser.TiledParser.CreateTiledMapFromDocument | src/main/java/misa/data/tiled2misa/TiledParser.java:134-169 | the method builds exactly that map through the builder |
| TiledParser.LayerWithoutDataFailsLoad | src/main/java/misa/data/tiled2misa/TiledParser.java:269-270 | one <layer> without <data> makes the whole load return null |
| TiledParser.BadObjectIdFailsLoad | src/main/java/misa/data/tiled2misa/TiledParser.java:370 | one object whose id is not an int makes the whole load return null |
| TiledParser.TilesetsNeverFailLoad | src/main/java/misa/data/tiled2misa/TiledParser.java:203-213 | whether the load succeeds does not depend on the tilesets: it is the same under any base path and any TSX lookup and image reader |
| TileDecoding.FlatIndex | src/main/java/misa/data/tiled2misa/TiledParser.java:317 | every flat index below w*h is the row-major index of exactly cell (k / w, k % w) |
| TileDecoding.CellAt | src/main/java/misa/data/tiled2misa/TiledParser.java:318 | a cell is read only from an index inside the stream |
| TileDecoding.GridRow | src/main/java/misa/data/tiled2misa/TiledParser.java:315-319 | row `row` holds w cells, cell col being stream cell row*w+col |
| TileDecoding.RowMajorGrid | src/main/java/misa/data/tiled2misa/TiledParser.java:313-320 | a grid exists exactly when the first w*h cells are all readable; it has h rows of w cells, and cell (row, col) is stream cell row*w+col |
| TileDecoding.RowMajorGridOf | src/main/java/misa/data/tiled2misa/TiledParser.java:313-320 | a grid that agrees with the stream at every cell is the stream's grid |
| TileDecoding.RowMajorGridIgnoresExtra | src/main/java/misa/data/tiled2misa/TiledParser.java:313-320 | cells after the first w*h are never looked at |
| TileDecoding.RowMajorGridTooFew | src/main/java/misa/data/tiled2misa/TiledParser.java:317-318 | fewer than w*h cells give no grid |
| TileDecoding.FlattenAt | src/main/java/misa/data/tiled2misa/TiledParser.java:317 | flattening a grid row by row puts cell (row, col) at row*w+col |
| TileDecoding.Contents | src/main/java/misa/data/tiled2misa/TiledParser.java:305 | the contents of a long[height][width] array, as a grid of its sizes |
| TileDecoding.RowMajorGridOfArray | src/main/java/misa/data/tiled2misa/TiledParser.java:313-320 | an array filled row by row from the stream holds the stream's grid |
| TileDecoding.ParseToken | src/main/java/misa/data/tiled2misa/TiledParser.java:318 | a parsed token is a long |
| TileDecoding.ParsedTokens | src/main/java/misa/data/tiled2misa/TiledParser.java:306-318 | one parse per token, each a long when it succeeds |
| TileDecoding.CsvGrid | src/main/java/misa/data/tiled2misa/TiledParser.java:302-323 | the CSV grid has the layer's sizes and every cell is a long |
| TileDecoding.CsvExtraTokensIgnored | src/main/java/misa/data/tiled2misa/TiledParser.java:308-320 | tokens after the first w*h are ignored |
| TileDecoding.CsvTooFewTokens | src/main/java/misa/data/tiled2misa/TiledParser.java:317-318 | fewer than w*h tokens make the decode fail (the layer is dropped) |
| TileDecoding.IntToStringToken | src/main/java/misa/data/tiled2misa/TiledParser.java:306-318 | a decimal numeral holds no comma, is not empty and survives trim |
| TileDecoding.CsvRoundTrip | src/main/java/misa/data/tiled2misa/TiledParser.java:302-323 | comma-joining a grid of longs and decoding it with its sizes gives the grid back |
| TileDecoding.DecodeCsv | src/main/java/misa/data/tiled2misa/TiledParser.java:302-323 | the nested loops over a long[height][width] return exactly CsvGrid |
| TileDecoding.FillCsvRow | src/main/java/misa/data/tiled2misa/TiledParser.java:315-319 | the inner loop fills its row from the tokens, or fails only when the grid cannot be filled; other rows are untouched |
| TileDecoding.ReadToken | src/main/java/misa/data/tiled2misa/TiledParser.java:318 | tokens[index].trim() parsed as a long, failing past the last token |
| TileDecoding.BigEndianU32 | src/main/java/misa/data/tiled2misa/TiledParser.java:336 | getInt() & 0xFFFFFFFFL is an unsigned 32-bit value |
| TileDecoding.Words | src/main/java/misa/data/tiled2misa/TiledParser.java:329-336 | one big-endian word per complete group of four bytes; a short tail is no word |
| TileDecoding.WordsPresent | src/main/java/misa/data/tiled2misa/TiledParser.java:332-338 | the first w*h words exist exactly when at least 4*w*h bytes were decoded |
| TileDecoding.Base64Grid | src/main/java/misa/data/tiled2misa/TiledParser.java:325-341 | a grid exists exactly when at least 4*w*h bytes were decoded; it has the layer's sizes and every cell lies in [0, 2^32) |
| TileDecoding.BigEndianU32OfBytes | src/main/java/misa/data/tiled2misa/TiledParser.java:336 | a word reads back from its four big-endian bytes |
| TileDecoding.Base64RoundTrip | src/main/java/misa/data/tiled2misa/TiledParser.java:325-341 | decoding a grid's big-endian bytes with its sizes gives the grid back |
| TileDecoding.Base64ByteOrder | src/main/java/misa/data/tiled2misa/TiledParser.java:329-336 | the bytes 01 00 00 00 decode to 2^24, not 1 |
| TileDecoding.DecodeBase64 | src/main/java/misa/data/tiled2misa/TiledParser.java:325-341 | the nested loops with an advancing buffer position return exactly Base64Grid |
| TileDecoding.FillBase64Row | src/main/java/misa/data/tiled2misa/TiledParser.java:334-337 | the inner loop reads its row word by word, the position moving four bytes a cell, or fails only when the bytes run out; other rows are untouched |
| TiledMap.Diagnostics | src/main/java/misa/data/tiled2misa/TiledMap.java:61-74 | each diagnostic is logged exactly when its condition holds (non-positive map or tile size, an empty list) |
| TiledMap.Builder.constructor | src/main/java/misa/data/tiled2misa/TiledMap.java:155-159 | a fresh builder has zero sizes and empty lists |
| TiledMap.Builder.SetWidth | src/main/java/misa/data/tiled2misa/TiledMap.java:169-174 | returns the same builder; only the width changes |
| TiledMap.Builder.SetHeight | src/main/java/misa/data/tiled2misa/TiledMap.java:182-187 | returns the same builder; only the height changes |
| TiledMap.Builder.SetTileWidth | src/main/java/misa/data/tiled2misa/TiledMap.java:195-200 | returns the same builder; only the tile width changes |
| TiledMap.Builder.SetTileHeight | src/main/java/misa/data/tiled2misa/TiledMap.java:208-213 | returns the same builder; only the tile height changes |
| TiledMap.Builder.SetLayers | src/main/java/misa/data/tiled2misa/TiledMap.java:221-226 | returns the same builder; only the layers change, to a value the caller cannot alter |
| TiledMap.Builder.SetTilesets | src/main/java/misa/data/tiled2misa/TiledMap.java:234-239 | returns the same builder; only the tilesets change |
| TiledMap.Builder.SetObjects | src/main/java/misa/data/tiled2misa/TiledMap.java:247-252 | returns the same builder; only the objects change |
| TiledMap.Builder.Build | src/main/java/misa/data/tiled2misa/TiledMap.java:259-273 | never fails; every getter of the map returns the value last set; the diagnostics are those of the map |
| TiledMap.OverrideAndDefaults | src/main/java/misa/data/tiled2misa/TiledMap.java:155-252 | a later setter call overrides an earlier one; unset fields keep their defaults, and the empty tileset list and zero height are only logged |
| LegacyTiledMap.Builder.constructor | src/main/java/misa/tiled2misa/TiledMap.java:62-66 | a fresh builder has zero sizes and empty lists |
| LegacyTiledMap.Builder.SetWidth | src/main/java/misa/tiled2misa/TiledMap.java:68 | returns the same builder; only the width changes |
| LegacyTiledMap.Builder.SetHeight | src/main/java/misa/tiled2misa/TiledMap.java:69 | returns the same builder; only the height changes |
| LegacyTiledMap.Builder.SetTileWidth | src/main/java/misa/tiled2misa/TiledMap.java:70 | returns the same builder; only the tile width changes |
| LegacyTiledMap.Builder.SetTileHeight | src/main/java/misa/tiled2misa/TiledMap.java:71 | returns the same builder; only the tile height changes |
| LegacyTiledMap.Builder.SetLayers | src/main/java/misa/tiled2misa/TiledMap.java:72 | returns the same builder; only the layers change, to its own copy |
| LegacyTiledMap.Builder.SetTilesets | src/main/java/misa/tiled2misa/TiledMap.java:73 | returns the same builder; only the tilesets change, to its own copy |
| LegacyTiledMap.Builder.SetObjects | src/main/java/misa/tiled2misa/TiledMap.java:74 | returns the same builder; only the objects change, to its own copy |
| LegacyTiledMap.Builder.Build | src/main/java/misa/tiled2misa/TiledMap.java:76-87 | always returns a map carrying the last-set values; nothing is logged exactly when all sizes are positive and no list is empty |
| Drawing.FirstMatchIndex | src/main/java/misa/core/Renderer.java:135-142 | the position the scan stops at lies within the list, or is its length when nothing matches (FirstMatchIndexIsFirst states the rest) |
| Drawing.TilesetForTile | src/main/java/misa/core/Renderer.java:135-142 | the tileset at FirstMatchIndex, none when the scan runs off the end; TilesetForTileMatches states that this is none exactly when every tileset starts above the ID, and otherwise a listed tileset starting at or below it |
| Drawing.FirstMatchIndexIsFirst | src/main/java/misa/core/Renderer.java:135-142 | the scan stops at the first tileset with firstGID <= id; every tileset before it starts above id |
| Drawing.TilesetForTileMatches | src/main/java/misa/core/Renderer.java:135-142 | no tileset exactly when every tileset starts above id; otherwise a listed tileset with firstGID <= id |
| Drawing.FirstMatchNotClosest | src/main/java/misa/core/Renderer.java:135-142 | with tilesets starting at 1, 50 and 120, tile 150 resolves to the first one and tile 0 to none |
| Drawing.EmptyCellUnresolved | src/main/java/misa/core/Renderer.java:135-142 | when every tileset starts at 1 or more, ID 0 resolves to no tileset |
| Renderer.SourceRect | src/main/java/misa/core/Renderer.java:110-114 | the source rectangle is exactly one tile wide and one tile high (SourceRectInAtlas places it) |
| Renderer.SourceRectInAtlas | src/main/java/misa/core/Renderer.java:110-114 | for a non-negative local ID the source rectangle is one tile at column localID % tilesPerRow and row localID / tilesPerRow, inside the atlas width |
| Renderer.CellCommands | src/main/java/misa/core/Renderer.java:99-130 | a cell draws nothing exactly when its ID is 0 or resolves to no tileset, and at most one command otherwise |
| Renderer.CellCommandsDraw | src/main/java/misa/core/Renderer.java:102-129 | a resolved tile draws a red fill over its cell exactly when its tileset has no image, else a Blit from the atlas at the local ID |
| Renderer.CellCommandsInCell | src/main/java/misa/core/Renderer.java:116-128 | every command of a cell covers (x*tw, y*th) to (x*tw+tw, y*th+th) |
| Renderer.RowCommandsInRow | src/main/java/misa/core/Renderer.java:97-131 | every command of a row covers one of its cells |
| Renderer.LayerCommandsInGrid | src/main/java/misa/core/Renderer.java:95-132 | every command of a layer covers one of its width by height cells |
| Renderer.EmptyRowDrawsNothing | src/main/java/misa/core/Renderer.java:99-100 | a row of empty cells draws nothing |
| Renderer.MapCommands | src/main/java/misa/core/Renderer.java:80-88 | with no map no tile commands are drawn |
| Renderer.ObjectCommands | src/main/java/misa/core/Renderer.java:144-150 | one draw per game object, in insertion order |
| Renderer.Renderer.constructor | src/main/java/misa/core/Renderer.java:24-30 | a renderer starts with its camera manager and map, no game objects and debug mode off |
| Renderer.Renderer.AddGameObject | src/main/java/misa/core/Renderer.java:32-35 | appends the game object; nothing else changes |
| Renderer.Renderer.RemoveGameObject | src/main/java/misa/core/Renderer.java:37-40 | removes the first equal game object; nothing else changes |
| Renderer.Renderer.ToggleDebugMode | src/main/java/misa/core/Renderer.java:42-45 | sets the debug flag; nothing else changes |
| Renderer.Renderer.SetTiledMap | src/main/java/misa/core/Renderer.java:158-162 | replaces the map; nothing else changes |
| Renderer.Renderer.HandleInput | src/main/java/misa/core/Renderer.java:47-54 | the camera targets change as the manager's input rule says |
| Renderer.Renderer.Render | src/main/java/misa/core/Renderer.java:56-70 | the camera advances one step, then the camera transform, every layer's tiles, the game objects and (in debug mode only) the overlay are drawn, in that order |
| Renderer.Renderer.RenderMapLayers | src/main/java/misa/core/Renderer.java:80-88 | the layers' commands in list order |
| Renderer.Renderer.RenderGameObjects | src/main/java/misa/core/Renderer.java:144-150 | the loop draws each game object in insertion order |
| Renderer.Renderer.RenderLayer | src/main/java/misa/core/Renderer.java:90-133 | the outer loop draws the rows top to bottom |
| Renderer.RenderRow | src/main/java/misa/core/Renderer.java:97-131 | the inner loop draws the row's cells left to right |
| Renderer.RenderCell | src/main/java/misa/core/Renderer.java:99-130 | one inner-loop iteration emits exactly the cell's commands |
| LegacyRenderer.RowDrawsEveryCell | _site/src/main/java/misa/core/Renderer.java:100-109 | a row draws to the end exactly when every cell resolves to a tileset, and then draw x is that tileset's whole image over cell x; otherwise the draws stop at the first unresolved cell, which is where the null dereference throws |
| LegacyRenderer.RowDrawsStopped | _site/src/main/java/misa/core/Renderer.java:100-109 | once a row has thrown, further cells add nothing |
| LegacyRenderer.LayerDrawsEveryCell | _site/src/main/java/misa/core/Renderer.java:92-111 | a layer draws without throwing exactly when every cell of the rows drawn resolves, and then it gives width*height draws with the draw of cell (x, y) at y*width+x |
| LegacyRenderer.LayerDrawsStopped | _site/src/main/java/misa/core/Renderer.java:92-111 | once a layer has thrown, further rows add nothing |
| LegacyRenderer.LayersDrawsStopped | _site/src/main/java/misa/core/Renderer.java:75-78 | once a layer has thrown, further layers add nothing |
| LegacyRenderer.LayersDrawsFail | _site/src/main/java/misa/core/Renderer.java:75-78 | the layers of a map draw without throwing exactly when every cell of every layer resolves to a tileset |
| LegacyRenderer.EmptyCellThrows | _site/src/main/java/misa/core/Renderer.java:102-108 | with tilesets starting at 1 or above, a map whose first layer has an empty cell throws while drawing its layers |
| LegacyRenderer.ObjectFill | _site/src/main/java/misa/core/Renderer.java:126-127 | an object is filled at its truncated position, which is non-negative for a non-negative coordinate |
| LegacyRenderer.ObjectFills | _site/src/main/java/misa/core/Renderer.java:122-129 | one filled rectangle per map object, in list order |
| LegacyRenderer.SpriteDraws | _site/src/main/java/misa/core/Renderer.java:144-151 | one draw per sprite, in list order |
| LegacyRenderer.Renderer.constructor | _site/src/main/java/misa/core/Renderer.java:24-30 | a renderer starts with its camera manager and its map, which may be null, no sprites and debug mode off |
| LegacyRenderer.Renderer.AddSprite | _site/src/main/java/misa/core/Renderer.java:33-36 | appends the sprite |
| LegacyRenderer.Renderer.RemoveSprite | _site/src/main/java/misa/core/Renderer.java:39-45 | an index inside the list removes that sprite and shifts the later ones down; any other index changes nothing |
| LegacyRenderer.Renderer.ToggleDebugMode | _site/src/main/java/misa/core/Renderer.java:48-51 | sets the debug flag; the sprites are kept |
| LegacyRenderer.Renderer.HandleInput | _site/src/main/java/misa/core/Renderer.java:54-61 | the camera targets change as the manager's input rule says |
| LegacyRenderer.Renderer.Render | _site/src/main/java/misa/core/Renderer.java:64-90 | the camera advances one step; the frame throws exactly when the map is null or some cell of some layer resolves to no tileset; a null map draws only the transform; otherwise it draws the transform and the layers up to the throw, and only without a throw the map objects, the sprites and (in debug mode only) the overlay, in that order |
| LegacyRenderer.Renderer.DrawFrame | _site/src/main/java/misa/core/Renderer.java:72-89 | the same frame after the camera step: only the transform for a null map; otherwise transform, layers, then objects, sprites and overlay only when no layer threw |
| LegacyRenderer.Renderer.RenderLayers | _site/src/main/java/misa/core/Renderer.java:75-78 | the layers' draws in list order, ending at the first layer that throws; a null map throws before any draw |
| LegacyRenderer.Renderer.RenderObjects | _site/src/main/java/misa/core/Renderer.java:122-129 | the loop fills each object in list order; a null map throws before any fill |
| LegacyRenderer.Renderer.RenderSprites | _site/src/main/java/misa/core/Renderer.java:144-151 | the loop draws each sprite in list order |
| LegacyRenderer.RenderLayer | _site/src/main/java/misa/core/Renderer.java:92-111 | the outer loop draws the rows top to bottom and stops at the first row that throws |
| LegacyRenderer.RenderRow | _site/src/main/java/misa/core/Renderer.java:100-109 | the inner loop draws each cell left to right and stops at the first cell without a tileset; without a stop, the carried tileset is that of the last cell |
| CameraMath.Clamp | src/main/java/misa/systems/camera/CameraBoundary.java:78-81 | the result lies in [min, max] when that range is not inverted; a value inside is kept; an inverted range gives min |
| CameraMath.ClampIdempotent | src/main/java/misa/systems/camera/CameraBoundary.java:78-81 | clamping twice is clamping once |
| CameraMath.Lerp | _site/src/main/java/misa/systems/camera/Camera.java:139-142 | factor 0 gives the start, factor 1 the end |
| CameraMath.LerpRemaining | _site/src/main/java/misa/systems/camera/Camera.java:139-142 | the distance left after a step is scaled by 1 - alpha |
| CameraMath.LerpBetween | _site/src/main/java/misa/systems/camera/Camera.java:139-142 | for alpha in [0, 1] the result lies between start and end |
| Camera.Camera.constructor | src/main/java/misa/systems/camera/Camera.java:29-35 | the camera starts at the given position with the given viewport, which never changes |
| Camera.Camera.Move | src/main/java/misa/systems/camera/Camera.java:43-47 | the position shifts by (dx, dy) |
| Camera.Camera.SetPosition | src/main/java/misa/systems/camera/Camera.java:55-59 | the position becomes (x, y) |
| Camera.Camera.Transformation | src/main/java/misa/systems/camera/Camera.java:100-107 | the camera position is drawn at the screen origin |
| Camera.DrawnAtOffset | src/main/java/misa/systems/camera/Camera.java:100-107 | a world point is drawn at its offset from the camera times pixelsPerUnit |
| Camera.MoveAndBack | src/main/java/misa/systems/camera/Camera.java:43-47 | moving by (dx, dy) and back restores the position |
| CameraBoundary.CameraBoundary.constructor | src/main/java/misa/systems/camera/CameraBoundary.java:29-40 | the boundary keeps its corners and remembers the minimum corner |
| CameraBoundary.CameraBoundary.BoundedX | src/main/java/misa/systems/camera/CameraBoundary.java:46-52 | x moves into [minX, maxX - viewport width], and to minX when that range is empty; an x already in range is kept |
| CameraBoundary.CameraBoundary.BoundedY | src/main/java/misa/systems/camera/CameraBoundary.java:46-52 | the same for y with the viewport height |
| CameraBoundary.CameraBoundary.EnforceBounds | src/main/java/misa/systems/camera/CameraBoundary.java:46-52 | only the camera position changes, to the bounded position |
| CameraBoundary.CameraBoundary.Update | src/main/java/misa/systems/camera/CameraBoundary.java:60-68 | the maximum corner becomes max(min, min + world size); the minimum corner is unchanged, so max >= min |
| CameraBoundary.BoundedIdempotent | src/main/java/misa/systems/camera/CameraBoundary.java:46-52 | enforcing the bounds twice is enforcing them once |
| CameraBoundary.ClampToWorldCorner | src/main/java/misa/systems/camera/CameraBoundary.java:46-52 | a 640x480 world with a 20x15 viewport moves a camera at (1000, 1000) to (620, 465) |
| CameraFollower.FollowTarget | src/main/java/misa/systems/camera/CameraFollower.java:44-46 | the target puts the object at the centre of the viewport: target plus half the viewport is the object's position |
| CameraFollower.CameraFollower.constructor | src/main/java/misa/systems/camera/CameraFollower.java:29-35 | the follower keeps its camera, speed and mode |
| CameraFollower.CameraFollower.Update | src/main/java/misa/systems/camera/CameraFollower.java:42-64 | snap mode jumps to the target that centres the object; smooth mode closes followSpeed*dt of the distance; nothing is clamped |
| CameraFollower.SmoothStepBetween | src/main/java/misa/systems/camera/CameraFollower.java:48-58 | with followSpeed*dt in [0, 1] a smooth step ends between position and target; at 1 it reaches the target, with dt 0 it stays |
| LegacyCamera.Camera.constructor | _site/src/main/java/misa/systems/camera/Camera.java:40-59 | the targets start equal to the start position and zoom; the limits come from the array |
| LegacyCamera.Camera.UpdateMovement | _site/src/main/java/misa/systems/camera/Camera.java:67-76 | the position is lerped towards the target and clamped to the limits (no viewport); it then lies within non-inverted limits; zoom and targets are kept |
| LegacyCamera.Camera.UpdateZoom | _site/src/main/java/misa/systems/camera/Camera.java:83-87 | only the zoom moves, lerped and unclamped |
| LegacyCamera.Camera.SetTargetPosition | _site/src/main/java/misa/systems/camera/Camera.java:112-117 | only the target position changes |
| LegacyCamera.Camera.SetTargetZoom | _site/src/main/java/misa/systems/camera/Camera.java:125-129 | only the target zoom changes |
| LegacyCamera.Camera.Transformation | _site/src/main/java/misa/systems/camera/Camera.java:95-103 | the unscaled translation draws (x/zoom, y/zoom) at the origin, which is the camera position only at zoom 1 |
| LegacyCamera.AtRestStaysPut | _site/src/main/java/misa/systems/camera/Camera.java:67-87 | a camera at its targets and within its limits does not move on update |
| CameraManager.AfterInput | src/main/java/misa/systems/camera/CameraManager.java:45-61 | input changes only the targets, never the position or the zoom |
| CameraManager.LastFlagWins | src/main/java/misa/systems/camera/CameraManager.java:51-60 | the last raised flag of each group wins (down, up, right, left; out, in); with no flag the target is kept |
| CameraManager.ConflictingFlags | src/main/java/misa/systems/camera/CameraManager.java:51-60 | left+up aims up, left+right aims right, in+out zooms out, no flags change nothing |
| CameraManager.CameraManager.constructor | src/main/java/misa/systems/camera/CameraManager.java:26-30 | the manager keeps its camera, boundary and viewport |
| CameraManager.CameraManager.HandleInput | src/main/java/misa/systems/camera/CameraManager.java:45-61 | the camera's state becomes AfterInput of its old state |
| CameraManager.CameraManager.UpdatedView | src/main/java/misa/systems/camera/CameraManager.java:69-77 | after movement, zoom and bounds the targets are kept, the position lies within the boundary's viewport range, and the zoom is lerped |
| CameraManager.CameraManager.Update | src/main/java/misa/systems/camera/CameraManager.java:69-77 | updateMovement, updateZoom and enforceBounds in that order lead to UpdatedView |
| CameraManager.CameraManager.CameraTransformation | src/main/java/misa/systems/camera/CameraManager.java:85-89 | the camera's own transform is applied |
| TimeSystem.Advance | src/main/java/misa/core/TimeSystem.java:50-62 | the seven field updates of update(), in the source's order with Java's int wrap, / and %; AdvanceBounded, AdvanceCarries and AdvanceAdditive state its properties |
| TimeSystem.AdvanceBounded | src/main/java/misa/core/TimeSystem.java:50-62 | for any clock and increment, the carries leave seconds and minutes strictly between -60 and 60 and hours between -24 and 24 |
| TimeSystem.AdvanceCarries | src/main/java/misa/core/TimeSystem.java:51-62 | from a normalised clock, a non-negative increment that overflows nothing leaves the clock normalised and adds exactly inc to its seconds count |
| TimeSystem.NormalisedUnique | src/main/java/misa/core/TimeSystem.java:55-62 | two normalised clocks with the same seconds count are equal |
| TimeSystem.AdvanceAdditive | src/main/java/misa/core/TimeSystem.java:51-62 | from a normalised clock, updates by a and then by b equal one update by their sum n = a + b, while no counter overflows |
| TimeSystem.NegativeIncrementUnnormalised | src/main/java/misa/core/TimeSystem.java:55-56 | one second back from midnight leaves the seconds at -1 (Java's % keeps the sign) |
| TimeSystem.Format02ReadsBack | src/main/java/misa/core/TimeSystem.java:92 | a value below 100 is written as two digits that read back as it |
| TimeSystem.TimeTextReadsBack | src/main/java/misa/core/TimeSystem.java:92 | the text of a normalised clock is HH:MM:SS, and each field parses back to hours, minutes and seconds |
| TimeSystem.TimeSystem.constructor | src/main/java/misa/core/TimeSystem.java:29-39 | a new clock stands at day 0, 00:00:00, running, with the given rate |
| TimeSystem.TimeSystem.Update | src/main/java/misa/core/TimeSystem.java:46-63 | paused, nothing changes; running, the clock advances by (int)(delta * rate) seconds; the pause flag is kept |
| TimeSystem.TimeSystem.SetTime | src/main/java/misa/core/TimeSystem.java:73-83 | throws and changes nothing exactly when a value is out of range; otherwise sets h, m, s and keeps days and the pause flag |
| TimeSystem.TimeSystem.CurrentTime | src/main/java/misa/core/TimeSystem.java:90-93 | for a normalised clock, "HH:MM:SS" whose fields parse back to the clock; days are not shown |
| TimeSystem.TimeSystem.IsPaused | src/main/java/misa/core/TimeSystem.java:110-113 | the pause flag; SetPaused and PausedUpdateKeepsTime state what it means |
| TimeSystem.TimeSystem.SetPaused | src/main/java/misa/core/TimeSystem.java:100-113 | isPaused() then answers the value set; the clock is kept |
| TimeSystem.TimeSystem.Reset | src/main/java/misa/core/TimeSystem.java:119-126 | back to day 0, 00:00:00, running |
| TimeSystem.TimeSystem.OnTimeChange | src/main/java/misa/core/TimeSystem.java:136-142 | the callback runs exactly when the hour equals the target |
| TimeSystem.PausedUpdateKeepsTime | src/main/java/misa/core/TimeSystem.java:46-48 | a paused update leaves the shown time unchanged |
| AnimationFrames.ShouldUpdateFrame | src/main/java/misa/systems/animation/Animator.java:68-72 | the elapsed nanoseconds, truncated to whole milliseconds, exceed the frame duration; ShouldUpdateFrameExactly states when that holds |
| AnimationFrames.ShouldUpdateFrameExactly | src/main/java/misa/systems/animation/Animator.java:68-72 | a frame is due exactly when at least frameDuration+1 whole milliseconds have passed; a clock that went back never advances |
| AnimationFrames.NextFrame | src/main/java/misa/systems/animation/Animator.java:80-94 | a valid index stays valid; below the last frame it moves one on; at the last it wraps to 0 when looping and stays otherwise |
| AnimationFrames.AdvancedClimbs | src/main/java/misa/systems/animation/Animator.java:80-94 | below the last frame each advance moves exactly one frame on |
| AnimationFrames.LoopingCycles | src/main/java/misa/systems/animation/Animator.java:80-94 | a looping animation reaches the last frame, wraps to the first, and after length advances is back where it started |
| AnimationFrames.StickingSettles | src/main/java/misa/systems/animation/Animator.java:80-94 | a non-looping animation climbs one frame per advance and then rests on the last |
| AnimationFrames.Stepped | src/main/java/misa/systems/animation/Animator.java:46-57 | an empty array changes nothing; the duration is kept; a valid index stays valid; the advance time becomes now whenever the frame changes |
| AnimationFrames.SteppedAdvancesOnlyWhenDue | src/main/java/misa/systems/animation/Animator.java:52-72 | within the duration nothing changes; once due, the frame moves by one NextFrame and the advance time becomes now |
| AnimationFrames.CheckedDuration | src/main/java/misa/systems/animation/Animator.java:181-193 | the duration is always positive: a positive one is kept, anything else becomes 200 |
| SystemsAnimator.UnitCellWidth | src/main/java/misa/systems/animation/Animator.java:113-120 | the cell is one pixel wide at non-negative positions, but zero wide at x = -0.5 where both casts truncate to 0 |
| SystemsAnimator.PixelSquare | src/main/java/misa/systems/animation/Animator.java:162-173 | without overflow the target square is sizeInPixels wide and high |
| SystemsAnimator.Animator.constructor | src/main/java/misa/systems/animation/Animator.java:23-25 | frame 0, last advance 0, duration 200 |
| SystemsAnimator.Animator.UpdateCurrentFrame | src/main/java/misa/systems/animation/Animator.java:80-94 | the frame becomes NextFrame of the old one; nothing else changes |
| SystemsAnimator.Animator.Step | src/main/java/misa/systems/animation/Animator.java:52-57 | the state becomes Stepped of the old state |
| SystemsAnimator.Animator.Animate | src/main/java/misa/systems/animation/Animator.java:37-60 | no frames means no change; otherwise the state steps and the current frame is drawn on the unit cell exactly when it is inside the array; a valid index is always drawn |
| SystemsAnimator.Animator.AnimateAtPixel | src/main/java/misa/systems/animation/Animator.java:139-174 | the same step, and the frame drawn on the square (px, py) to (px+size, py+size) |
| SystemsAnimator.Animator.SetFrameDuration | src/main/java/misa/systems/animation/Animator.java:181-193 | the duration becomes CheckedDuration of the argument and stays positive |
| SystemsAnimator.ShorterArrayThrows | src/main/java/misa/systems/animation/Animator.java:155-173 | an animator on the third frame handed a one-frame array before a frame is due throws |
| MisaAnimator.Animator.constructor | src/main/java/misa/animator/Animator.java:13-15 | frame 0, last advance 0, duration 200 |
| MisaAnimator.Animator.Animate | src/main/java/misa/animator/Animator.java:24-41 | no frames means no change; otherwise the state steps and frames[currentFrame] is handed over exactly when it is inside the array; a valid index is always shown |
| MisaAnimator.Animator.SetFrameDuration | src/main/java/misa/animator/Animator.java:81-93 | non-positive durations become 200, positive ones are stored |
| MisaAnimator.NonLoopingStops | src/main/java/misa/animator/Animator.java:24-68 | a two-frame non-looping animation shows the first frame until more than 200 ms pass, then the second, and stays there |
| CoreAnimator.CoreStepped | src/main/java/core/Animator.java:17-25 | for a non-empty array the index ends below its length, and inside it when it was non-negative, even after a longer array |
| CoreAnimator.Animator.constructor | src/main/java/core/Animator.java:7-9 | frame 0, last advance 0 |
| CoreAnimator.Animator.Animate | src/main/java/core/Animator.java:11-28 | the index steps as CoreStepped and the advance time only when more than 200 ms passed; the frame is shown exactly when the index is inside the array, which it always is for a non-empty array and a non-negative index |
| CoreAnimator.ShorterArraySnapsBack | src/main/java/core/Animator.java:22-25 | a five-frame index handed a two-frame array snaps back at once: to 0 looping, to 1 otherwise |
| AnimationController.AnimationController.constructor | src/main/java/misa/systems/animation/AnimationController.java:29-36 | no current animation, so isPlaying answers true for every name, and the documented answer false |
| AnimationController.AnimationController.Play | src/main/java/misa/systems/animation/AnimationController.java:45-59 | an unknown name changes nothing; a known name becomes current, and is started exactly when it was not current already |
| AnimationController.PlayTwice | src/main/java/misa/systems/animation/AnimationController.java:45-70 | playing a name twice starts it once; isPlaying then denies that name and affirms others, the reverse of the documented answer |
| AnimationController.DocumentedPlayingIsUnique | src/main/java/misa/systems/animation/AnimationController.java:61-66 | the documented isPlaying holds for at most one name at a time |
| AnimationController.AnimationController.IsPlaying | src/main/java/misa/systems/animation/AnimationController.java:67-70 | as written: true for every name before the first play, and always the negation of the documented answer |
| AnimationController.AnimationController.IsPlayingAsDocumented | src/main/java/misa/systems/animation/AnimationController.java:61-66 | the documented answer: true exactly for the current animation, so for one name at most (DocumentedPlayingIsUnique) |
| AnimationController.IsPlayingInverted | src/main/java/misa/systems/animation/AnimationController.java:61-70 | for every state and name, the code's isPlaying is the negation of the documented "the animation is currently playing" |
| EventManager.Added | src/main/java/misa/core/events/EventManager.java:18-21 | the listener is appended to its type's list, which is created if missing; every other list is unchanged |
| EventManager.Removed | src/main/java/misa/core/events/EventManager.java:23-27 | the type's list becomes List.remove(Object) of the old one: one registration of the listener fewer, no change when it is absent; other lists and types unchanged |
| JavaLang.RemoveFirstKeepsOrder | src/main/java/misa/core/events/EventManager.java:23-27 | the removed registration is the first equal one, and the others keep their order: the old list is the new one with the listener put back at its first position, after a prefix without it |
| EventManager.AddThenRemove | src/main/java/misa/core/events/EventManager.java:18-27 | adding a new listener and removing it restores every list |
| EventManager.DuplicatesCount | src/main/java/misa/core/events/EventManager.java:18-27 | adding twice and removing once leaves one registration |
| EventManager.EventManager.constructor | src/main/java/misa/core/events/EventManager.java:13-16 | no listeners |
| EventManager.EventManager.AddListener | src/main/java/misa/core/events/EventManager.java:18-21 | the registrations become Added of the old ones |
| EventManager.EventManager.RemoveListener | src/main/java/misa/core/events/EventManager.java:23-27 | the registrations become Removed of the old ones |
| EventManager.EventManager.TriggerEvent | src/main/java/misa/core/events/EventManager.java:29-41 | the listeners for exactly the event's type are invoked once per registration, in order; none when the type has no list |
| Input.Input.constructor | src/main/java/misa/systems/input/Input.java:20 | no key is held |
| Input.Input.KeyPressed | src/main/java/misa/systems/input/Input.java:28-31 | the key is held afterwards; every other key is as before |
| Input.Input.KeyReleased | src/main/java/misa/systems/input/Input.java:39-42 | the key is up afterwards; every other key is as before |
| Input.Input.IsKeyPressed | src/main/java/misa/systems/input/Input.java:63-66 | whether the key is in the held set; KeyPressed, KeyReleased and PressTwiceReleaseOnce state how it changes |
| Input.Input.KeyTyped | src/main/java/misa/systems/input/Input.java:52-55 | nothing changes |
| Input.PressTwiceReleaseOnce | src/main/java/misa/systems/input/Input.java:28-42 | presses are not counted: two presses and one release leave the key up |

## Findings

| source | as written | input that shows it | evidently intended | confidence | as-written member | corrected member |
|---|---|---|---|---|---|---|
| src/main/java/misa/systems/animation/AnimationController.java:61-70 | `isPlaying(name)` returns `!name.equals(currentAnimationName)` | `play("walk")` on a controller that knows "walk", then `isPlaying("walk")` gives false and `isPlaying("run")` gives true | true exactly for the current animation, as the method's Javadoc says | high; not executed | AnimationController.PlayTwice | AnimationController.AnimationController.IsPlayingAsDocumented |

## Left out

- XML parsing and resource loading (`parseXMLFile`, `parseXMLStream`, `loadFromTMX`, `loadFromInputStream`, the class-loader lookup of TSX files). The document is an element tree, and TSX resolution is the `Env.tsx` function. The `try`/`catch` that turns an escaping exception into a null map is the `None` of `MapOf`.
- The base64 text decoder and its alphabet. Decoding starts from the bytes `Env.base64Decode` returns.
- `Double.parseDouble` is `Env.parseDouble`. Float and double rounding throughout the camera, time and object code is not modelled: values are `real`.
- `TiledParser.getTilesetForTile`: it calls `containsTile`, which `TiledTileset` does not declare, so it is not part of this model.
- Graphics2D, colours and images. Drawing is a list of `Command`s, and game objects and sprites only appear as `DrawGameObject`/`DrawSprite`. The debug overlay's text is a constant.
- Renderer.Renderer.Render: requires every layer to be `LayerDrawable`, a shape the parser always builds. So the model does not cover three cases. A layer with a negative `width` or `height` draws nothing in Java; here it is excluded. A row shorter than `width` throws an `ArrayIndexOutOfBoundsException` in Java; here it is excluded. A `tileWidth` of 0 throws an `ArithmeticException`, as does a `tilesPerRow` of 0; `CellDrawable` requires both to be non-zero. Separately, the overflow of the `int` pixel products `x * tileWidth` is not modelled (coordinates are unbounded).
- LegacyRenderer.Renderer.Render: requires every layer of a non-null map to be `Shaped` (its rows exist and hold `width` cells, as the parser builds them); the `ArrayIndexOutOfBoundsException` of a ragged layer and the empty loop of a negative size are not modelled. The null dereference of an unresolved tile and the null map are modelled as the thrown outcome.
- `JavaLang.ParseDecimal` (behind `Integer.parseInt` and `Long.parseLong`) accepts only the ASCII digits '0'-'9'. Java also accepts every other Unicode decimal digit (through `Character.digit`), such as '٣' for 3; such numerals fail to parse here.
- `OutOfMemoryError` for huge layer sizes, and the overflow of `width * height` in the CSV count warning. The warning itself is only logged.
- Loggers, `println` and every log message; only `TiledMap.Diagnostics` records what `build` logs.
- TimeSystem.TimeSystem.Update: the `EventManager` constructor argument is unused by the source and left out. `(int)` of a float product is modelled as the saturating cast of a `real`. The seven field updates of the running branch are computed by `Advance`, which takes them in the source's order, each reading the value the previous one wrote. The method then stores the four fields in one assignment, because no other code observes the fields in between.
- SystemsAnimator.Animator.Animate: the `nanoTime` difference is not wrapped to 64 bits, and `currentFrame++` is not wrapped to 32 bits; the index stays below an array length.
- MisaAnimator.Animator.Animate: the same; the `setCurrentImage` call on the game object is the returned image.
- CoreAnimator.Animator.Animate: the same; `gameObject.setCurrentImage` is the returned image.
- AnimationController.AnimationController.Play: `gameObject.setNamedAnimations`/`playAnimation` are the returned `started` flag.
- EventManager.EventManager.TriggerEvent: listeners are identities, and their callbacks are not run. A callback that adds or removes listeners during the loop (a `ConcurrentModificationException` in Java) is not modelled. An event's runtime class is a `string`.
- Input: the source's `pressedKeys` is `static`, shared by every `Input` instance. Here it is a field of one object, so two `Input` objects would not share keys.
- LegacyCamera.Camera.constructor: a limits array shorter than four is an index error in the source and is a precondition here.
