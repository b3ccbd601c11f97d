/**
 * Decoding a layer's `<data>` text into a row-major grid of tile IDs
 * (`decodeCSVTileData`, `decodeBase64TileData`). A failed decode, which the
 * Java code signals with an exception, is `None`.
 *
 * Both decoders read a stream of cells, cell `k` landing at row `k / w`,
 * column `k % w`; they differ only in what a cell is (a parsed token, a
 * big-endian word). `RowMajorGrid` is that common specification.
 */
module TileDecoding {
  import opened Wrappers
  import opened JavaLang

  /** A decoded byte, read as unsigned. */
  type uint8 = b: int | 0 <= b < 256

  /** `tileData[row][col]`. */
  type Grid = seq<seq<int>>

  /** `g` has exactly `h` rows of exactly `w` cells. */
  predicate IsGrid(g: Grid, w: int, h: int)
  {
    |g| == h && forall row :: 0 <= row < |g| ==> |g[row]| == w
  }

  // ---------------------------------------------------------------------------
  // Row-major index arithmetic
  // ---------------------------------------------------------------------------

  /** The flat position of cell `(row, col)` in a row-major grid `w` cells wide. */
  function RowMajorIndex(row: int, col: int, w: int): int
  {
    row * w + col
  }

  /** The cell `(row, col)` of a `w`-wide, `h`-high grid has a flat index below `w*h`. */
  lemma CellIndexBound(row: int, col: int, w: int, h: int)
    requires 0 <= row < h && 0 <= col < w
    ensures 0 <= RowMajorIndex(row, col, w) < w * h
  {
    assert (row + 1) * w <= h * w;
  }

  /** The same bound for a whole row at once. */
  lemma RowIndexBounds(row: int, w: int, h: int)
    requires 0 <= row < h && 0 <= w
    ensures forall col :: 0 <= col < w ==> 0 <= RowMajorIndex(row, col, w) < w * h
  {
    forall col | 0 <= col < w
      ensures 0 <= RowMajorIndex(row, col, w) < w * h
    {
      CellIndexBound(row, col, w, h);
    }
  }

  /** Every flat index below `w*h` is the index of exactly the cell `(k / w, k % w)`. */
  lemma FlatIndex(k: int, w: int, h: int)
    requires 0 <= w && 0 <= h && 0 <= k < w * h
    ensures w > 0 && 0 <= k / w < h && 0 <= k % w < w && k == RowMajorIndex(k / w, k % w, w)
  {
  }

  // ---------------------------------------------------------------------------
  // The row-major grid of a cell stream
  // ---------------------------------------------------------------------------

  /** Cell `k` of the stream, `None` when the stream has no such cell or it is unreadable. */
  function CellAt(cells: seq<Option<int>>, k: int): (r: Option<int>)
    ensures r.Some? ==> 0 <= k < |cells| && r == cells[k]
  {
    if 0 <= k < |cells| then cells[k] else None
  }

  /** The sizes are non-negative and every one of the first `w*h` cells can be read. */
  predicate AllCellsPresent(cells: seq<Option<int>>, w: int, h: int)
  {
    0 <= w && 0 <= h && forall k :: 0 <= k < w * h ==> CellAt(cells, k).Some?
  }

  /** Every cell of row `row` can be read. */
  predicate RowPresent(cells: seq<Option<int>>, w: int, row: int)
  {
    forall col :: 0 <= col < w ==> CellAt(cells, RowMajorIndex(row, col, w)).Some?
  }

  /** The value of cell `(row, col)`, or 0 where there is none. */
  function ValueAt(cells: seq<Option<int>>, w: int, row: int, col: int): int
  {
    CellAt(cells, RowMajorIndex(row, col, w)).GetOr(0)
  }

  /** Row `row` of the grid: cells `row*w` to `row*w + w - 1`. */
  function GridRow(cells: seq<Option<int>>, w: int, h: int, row: int): (r: seq<int>)
    requires AllCellsPresent(cells, w, h) && 0 <= row < h
    ensures |r| == w
    ensures forall col :: 0 <= col < w ==> Some(r[col]) == CellAt(cells, RowMajorIndex(row, col, w))
  {
    RowIndexBounds(row, w, h);
    seq(w, col requires 0 <= col < w => CellAt(cells, RowMajorIndex(row, col, w)).value)
  }

  /**
   * The `h` by `w` grid filled row by row from the cell stream. It fails on a
   * negative size and whenever one of the first `w*h` cells is missing or
   * unreadable; cells after those are never looked at.
   */
  function RowMajorGrid(cells: seq<Option<int>>, w: int, h: int): (r: Option<Grid>)
    ensures r.Some? <==> AllCellsPresent(cells, w, h)
    ensures r.Some? ==> IsGrid(r.value, w, h)
    ensures r.Some? ==> forall row, col :: 0 <= row < h && 0 <= col < w ==>
      Some(r.value[row][col]) == CellAt(cells, RowMajorIndex(row, col, w))
  {
    if !AllCellsPresent(cells, w, h) then None
    else Some(seq(h, row requires 0 <= row < h => GridRow(cells, w, h, row)))
  }

  /** A grid that agrees with the stream at every cell is the stream's grid. */
  lemma RowMajorGridOf(cells: seq<Option<int>>, w: int, h: int, g: Grid)
    requires 0 <= w && IsGrid(g, w, h)
    requires forall row, col :: 0 <= row < h && 0 <= col < w ==>
      Some(g[row][col]) == CellAt(cells, RowMajorIndex(row, col, w))
    ensures RowMajorGrid(cells, w, h) == Some(g)
  {
    forall k | 0 <= k < w * h
      ensures CellAt(cells, k).Some?
    {
      FlatIndex(k, w, h);
      assert Some(g[k / w][k % w]) == CellAt(cells, k);
    }
    forall row | 0 <= row < h
      ensures g[row] == GridRow(cells, w, h, row)
    {
      assert forall col :: 0 <= col < w ==> g[row][col] == GridRow(cells, w, h, row)[col];
    }
    assert g == seq(h, row requires 0 <= row < h => GridRow(cells, w, h, row));
  }

  /** Cells after the first `w*h` are never looked at. */
  lemma RowMajorGridIgnoresExtra(cells: seq<Option<int>>, extra: seq<Option<int>>, w: int, h: int)
    requires 0 <= w && 0 <= h && w * h <= |cells|
    ensures RowMajorGrid(cells + extra, w, h) == RowMajorGrid(cells, w, h)
  {
    assert forall k :: 0 <= k < w * h ==> CellAt(cells + extra, k) == CellAt(cells, k);
    var r := RowMajorGrid(cells, w, h);
    if r.Some? {
      forall row, col | 0 <= row < h && 0 <= col < w
        ensures Some(r.value[row][col]) == CellAt(cells + extra, RowMajorIndex(row, col, w))
      {
        CellIndexBound(row, col, w, h);
      }
      RowMajorGridOf(cells + extra, w, h, r.value);
    }
  }

  /** A stream with fewer than `w*h` cells gives no grid. */
  lemma RowMajorGridTooFew(cells: seq<Option<int>>, w: int, h: int)
    requires 0 <= w && 0 <= h && |cells| < w * h
    ensures RowMajorGrid(cells, w, h) == None
  {
    assert CellAt(cells, w * h - 1).None?;
  }

  /** The cells of a grid, row after row. */
  function Flatten(g: Grid): (f: seq<int>)
    ensures g == [] ==> f == []
  {
    if |g| == 0 then [] else g[0] + Flatten(g[1..])
  }

  /** Cell `(row, col)` lies one row, `w` cells, after cell `(row - 1, col)`. */
  lemma RowBelow(row: int, col: int, w: int)
    ensures RowMajorIndex(row, col, w) == w + RowMajorIndex(row - 1, col, w)
    ensures row * w == w + (row - 1) * w
  {
    assert (row - 1) * w == row * w - w;
  }

  /** Flattening a `w`-wide, `h`-high grid gives `w*h` cells. */
  lemma {:induction false} FlattenLength(g: Grid, w: int, h: int)
    requires 0 <= w && IsGrid(g, w, h)
    ensures |Flatten(g)| == w * h
  {
    if h > 0 {
      FlattenLength(g[1..], w, h - 1);
      assert Flatten(g) == g[0] + Flatten(g[1..]);
      RowBelow(h, 0, w);
    }
  }

  /** Flattening puts the one cell `(row, col)` at its row-major index. */
  lemma {:induction false} FlattenCell(g: Grid, w: int, h: int, row: int, col: int)
    requires 0 <= w && IsGrid(g, w, h)
    requires 0 <= row < h && 0 <= col < w
    ensures 0 <= RowMajorIndex(row, col, w) < |Flatten(g)|
    ensures Flatten(g)[RowMajorIndex(row, col, w)] == g[row][col]
  {
    FlattenLength(g, w, h);
    CellIndexBound(row, col, w, h);
    var rest := g[1..];
    assert Flatten(g) == g[0] + Flatten(rest);
    if row > 0 {
      FlattenCell(rest, w, h - 1, row - 1, col);
      RowBelow(row, col, w);
      assert g[row] == rest[row - 1];
    }
  }

  /** Flattening puts cell `(row, col)` at its row-major index. */
  lemma FlattenAt(g: Grid, w: int, h: int)
    requires 0 <= w && IsGrid(g, w, h)
    ensures |Flatten(g)| == w * h
    ensures forall row, col :: 0 <= row < h && 0 <= col < w ==>
      0 <= RowMajorIndex(row, col, w) < |Flatten(g)| && Flatten(g)[RowMajorIndex(row, col, w)] == g[row][col]
  {
    FlattenLength(g, w, h);
    forall row, col | 0 <= row < h && 0 <= col < w
      ensures 0 <= RowMajorIndex(row, col, w) < |Flatten(g)| && Flatten(g)[RowMajorIndex(row, col, w)] == g[row][col]
    {
      FlattenCell(g, w, h, row, col);
    }
  }

  /** The rows of a two-dimensional array, as a grid. */
  function Contents(a: array2<int>): (g: Grid)
    reads a
    ensures IsGrid(g, a.Length1, a.Length0)
    ensures forall i, j :: 0 <= i < a.Length0 && 0 <= j < a.Length1 ==> g[i][j] == a[i, j]
  {
    seq(a.Length0, i requires 0 <= i < a.Length0 reads a =>
      seq(a.Length1, j requires 0 <= j < a.Length1 reads a => a[i, j]))
  }

  /** An array each of whose rows is present and filled from the stream holds the stream's grid. */
  lemma RowMajorGridOfArray(a: array2<int>, cells: seq<Option<int>>)
    requires forall i :: 0 <= i < a.Length0 ==> RowPresent(cells, a.Length1, i)
    requires forall i, j :: 0 <= i < a.Length0 && 0 <= j < a.Length1 ==> a[i, j] == ValueAt(cells, a.Length1, i, j)
    ensures RowMajorGrid(cells, a.Length1, a.Length0) == Some(Contents(a))
  {
    var w, h := a.Length1, a.Length0;
    forall i, j | 0 <= i < h && 0 <= j < w
      ensures Some(Contents(a)[i][j]) == CellAt(cells, RowMajorIndex(i, j, w))
    {
      assert RowPresent(cells, w, i);
    }
    RowMajorGridOf(cells, w, h, Contents(a));
  }

  // ---------------------------------------------------------------------------
  // CSV
  // ---------------------------------------------------------------------------

  /** `Long.parseLong(t.trim())`; `None` stands for the `NumberFormatException`. */
  function ParseToken(t: string): (r: Option<int>)
    ensures r.Some? ==> LONG_MIN <= r.value <= LONG_MAX
  {
    ParseLong(Trim(t))
  }

  /** Every token parsed, in order. */
  function ParsedTokens(tokens: seq<string>): (cells: seq<Option<int>>)
    ensures |cells| == |tokens|
    ensures forall k :: 0 <= k < |cells| && cells[k].Some? ==> LONG_MIN <= cells[k].value <= LONG_MAX
  {
    if |tokens| == 0 then [] else [ParseToken(tokens[0])] + ParsedTokens(tokens[1..])
  }

  lemma {:induction false} ParsedTokenAt(tokens: seq<string>, k: int)
    requires 0 <= k < |tokens|
    ensures ParsedTokens(tokens)[k] == ParseToken(tokens[k])
  {
    if k > 0 {
      ParsedTokenAt(tokens[1..], k - 1);
    }
  }

  /**
   * What `decodeCSVTileData(csvData, w, h)` returns: the grid of the comma
   * separated tokens, every cell a long. Extra tokens are ignored.
   */
  function CsvGrid(csvData: string, w: int, h: int): (r: Option<Grid>)
    ensures r.Some? ==> IsGrid(r.value, w, h)
    ensures r.Some? ==> forall row, col :: 0 <= row < h && 0 <= col < w ==>
      LONG_MIN <= r.value[row][col] <= LONG_MAX
  {
    RowMajorGrid(ParsedTokens(Split(csvData)), w, h)
  }

  /** Parsing distributes over concatenated token lists. */
  lemma {:induction false} ParsedTokensAppend(tokens: seq<string>, extra: seq<string>)
    ensures ParsedTokens(tokens + extra) == ParsedTokens(tokens) + ParsedTokens(extra)
  {
    if |tokens| > 0 {
      assert (tokens + extra)[1..] == tokens[1..] + extra;
      ParsedTokensAppend(tokens[1..], extra);
    } else {
      assert tokens + extra == extra;
    }
  }

  /** CSV tokens after the first `w*h` are ignored. */
  lemma CsvExtraTokensIgnored(tokens: seq<string>, extra: seq<string>, w: int, h: int)
    requires 0 <= w && 0 <= h && w * h <= |tokens|
    ensures RowMajorGrid(ParsedTokens(tokens + extra), w, h) == RowMajorGrid(ParsedTokens(tokens), w, h)
  {
    ParsedTokensAppend(tokens, extra);
    RowMajorGridIgnoresExtra(ParsedTokens(tokens), ParsedTokens(extra), w, h);
  }

  /** Fewer than `w*h` tokens: the decode throws and the layer is dropped. */
  lemma CsvTooFewTokens(csvData: string, w: int, h: int)
    requires 0 <= w && 0 <= h && |Split(csvData)| < w * h
    ensures CsvGrid(csvData, w, h) == None
  {
    RowMajorGridTooFew(ParsedTokens(Split(csvData)), w, h);
  }

  /** One token per cell, row after row, each written as `Long.toString` writes it. */
  function CsvTokens(g: Grid): (tokens: seq<string>)
    ensures |tokens| == |Flatten(g)|
  {
    var f := Flatten(g);
    seq(|f|, k requires 0 <= k < |f| => IntToString(f[k]))
  }

  /** A decimal numeral holds no comma, is not empty and survives `trim`. */
  lemma IntToStringToken(n: int)
    ensures ',' !in IntToString(n) && IntToString(n) != ""
    ensures Trim(IntToString(n)) == IntToString(n)
  {
    var m: nat := if n < 0 then -n else n;
    var digits := NatToString(m);
    NatToStringIsNumeral(m);
    var s := IntToString(n);
    var sign := if n < 0 then "-" else "";
    assert s == sign + digits;
    assert ',' !in digits;
    assert s[|s| - 1] == digits[|digits| - 1];
    TrimNumeral(s);
  }

  /**
   * Writing a grid of longs as comma-separated decimal tokens and decoding it
   * with the same sizes gives the grid back.
   */
  lemma CsvRoundTrip(g: Grid, w: int, h: int)
    requires 0 < w && 0 < h && IsGrid(g, w, h)
    requires forall row, col :: 0 <= row < h && 0 <= col < w ==> LONG_MIN <= g[row][col] <= LONG_MAX
    ensures CsvGrid(Join(CsvTokens(g)), w, h) == Some(g)
  {
    FlattenAt(g, w, h);
    var f := Flatten(g);
    var tokens := CsvTokens(g);
    CellIndexBound(h - 1, w - 1, w, h);
    forall k | 0 <= k < |tokens|
      ensures ',' !in tokens[k] && tokens[k] != ""
    {
      IntToStringToken(f[k]);
    }
    SplitOfJoin(tokens);
    var cells := ParsedTokens(tokens);
    forall row, col | 0 <= row < h && 0 <= col < w
      ensures Some(g[row][col]) == CellAt(cells, RowMajorIndex(row, col, w))
    {
      var k := RowMajorIndex(row, col, w);
      ParsedTokenAt(tokens, k);
      IntToStringToken(f[k]);
      ParseDecimalOfIntToString(f[k], LONG_MIN, LONG_MAX);
    }
    RowMajorGridOf(cells, w, h, g);
  }

  /**
   * `decodeCSVTileData`: allocates the `h` by `w` grid, splits on commas and
   * fills the grid row by row. A token count different from `w*h` is only
   * logged; the decode fails exactly when the grid cannot be filled.
   */
  method DecodeCsv(csvData: string, w: int, h: int) returns (r: Option<Grid>)
    ensures r == CsvGrid(csvData, w, h)
  {
    if w < 0 || h < 0 {
      return None;
    }
    var tileData := new int[h, w];
    var tokens := Split(csvData);
    ghost var cells := ParsedTokens(tokens);
    var row := 0;
    while row < h
      invariant 0 <= row <= h
      invariant forall i :: 0 <= i < row ==> RowPresent(cells, w, i)
      invariant forall i, j :: 0 <= i < row && 0 <= j < w ==> tileData[i, j] == ValueAt(cells, w, i, j)
    {
      var ok := FillCsvRow(tileData, tokens, row);
      if !ok {
        return None;
      }
      row := row + 1;
    }
    RowMajorGridOfArray(tileData, cells);
    r := Some(Contents(tileData));
  }

  /**
   * The inner loop of `decodeCSVTileData`: fills row `row` column by column,
   * and stops (the exception) at the first token that is missing or not a long.
   */
  method FillCsvRow(tileData: array2<int>, tokens: seq<string>, row: int) returns (ok: bool)
    requires 0 <= row < tileData.Length0
    modifies tileData
    ensures ok ==> RowPresent(ParsedTokens(tokens), tileData.Length1, row)
    ensures ok ==> forall j :: 0 <= j < tileData.Length1 ==>
      tileData[row, j] == ValueAt(ParsedTokens(tokens), tileData.Length1, row, j)
    ensures !ok ==> !AllCellsPresent(ParsedTokens(tokens), tileData.Length1, tileData.Length0)
    ensures forall i, j :: 0 <= i < tileData.Length0 && i != row && 0 <= j < tileData.Length1 ==>
      tileData[i, j] == old(tileData[i, j])
  {
    ghost var cells := ParsedTokens(tokens);
    var w := tileData.Length1;
    var col := 0;
    while col < w
      invariant 0 <= col <= w
      invariant forall j :: 0 <= j < col ==> CellAt(cells, RowMajorIndex(row, j, w)).Some?
      invariant forall j :: 0 <= j < col ==> tileData[row, j] == ValueAt(cells, w, row, j)
      invariant forall i, j :: 0 <= i < tileData.Length0 && i != row && 0 <= j < w ==>
        tileData[i, j] == old(tileData[i, j])
    {
      var index := RowMajorIndex(row, col, w);
      CellIndexBound(row, col, w, tileData.Length0);
      var cell := ReadToken(tokens, index);
      if cell.None? {
        return false;
      }
      tileData[row, col] := cell.value;
      col := col + 1;
    }
    return true;
  }

  /**
   * `Long.parseLong(tokens[index].trim())`: `None` when the index is past the
   * last token or the token is not a long.
   */
  method ReadToken(tokens: seq<string>, index: int) returns (cell: Option<int>)
    requires 0 <= index
    ensures cell == CellAt(ParsedTokens(tokens), index)
  {
    if index >= |tokens| {
      return None;
    }
    cell := ParseToken(tokens[index]);
    ParsedTokenAt(tokens, index);
  }

  // ---------------------------------------------------------------------------
  // Base64
  // ---------------------------------------------------------------------------

  /**
   * `ByteBuffer.getInt() & 0xFFFFFFFFL` at offset `i`: the four bytes read
   * big-endian (the buffer's default order) as an unsigned 32-bit value.
   */
  function BigEndianU32(b: seq<uint8>, i: int): (v: int)
    requires 0 <= i && i + 4 <= |b|
    ensures 0 <= v < 0x1_0000_0000
  {
    var hi: int := (b[i] as int) * 0x100 + b[i + 1];
    assert hi < 0x1_0000;
    var mid: int := hi * 0x100 + b[i + 2];
    assert mid < 0x100_0000;
    mid * 0x100 + b[i + 3]
  }

  /** The words of the decoded bytes, one per complete group of four; a short tail is no word. */
  function Words(bytes: seq<uint8>): (cells: seq<Option<int>>)
    ensures |cells| == |bytes| / 4
    ensures forall k :: 0 <= k < |cells| ==> cells[k] == Some(BigEndianU32(bytes, 4 * k))
  {
    seq(|bytes| / 4, k requires 0 <= k < |bytes| / 4 => Some(BigEndianU32(bytes, 4 * k)))
  }

  /** The first `w*h` words exist exactly when there are at least `4*w*h` bytes. */
  lemma WordsPresent(bytes: seq<uint8>, w: int, h: int)
    ensures AllCellsPresent(Words(bytes), w, h) <==> 0 <= w && 0 <= h && 4 * (w * h) <= |bytes|
  {
    var cells := Words(bytes);
    if 0 <= w && 0 <= h && 4 * (w * h) > |bytes| {
      assert CellAt(cells, w * h - 1).None?;
    }
  }

  /**
   * What `decodeBase64TileData` returns for the decoded bytes: the grid of
   * unsigned big-endian words, which exists exactly when at least `4*w*h`
   * bytes were decoded. Trailing bytes are ignored.
   */
  function Base64Grid(bytes: seq<uint8>, w: int, h: int): (r: Option<Grid>)
    ensures r.Some? <==> 0 <= w && 0 <= h && 4 * (w * h) <= |bytes|
    ensures r.Some? ==> IsGrid(r.value, w, h)
    ensures r.Some? ==> forall row, col :: 0 <= row < h && 0 <= col < w ==>
      0 <= r.value[row][col] < 0x1_0000_0000
  {
    WordsPresent(bytes, w, h);
    RowMajorGrid(Words(bytes), w, h)
  }

  /** The four bytes of an unsigned 32-bit value, most significant first. */
  function BigEndianBytes(v: int): (b: seq<uint8>)
    requires 0 <= v < 0x1_0000_0000
    ensures |b| == 4
  {
    [v / 0x100_0000, (v / 0x1_0000) % 0x100, (v / 0x100) % 0x100, v % 0x100]
  }

  /** Reading a word back from its big-endian bytes. */
  lemma BigEndianU32OfBytes(v: int)
    requires 0 <= v < 0x1_0000_0000
    ensures BigEndianU32(BigEndianBytes(v), 0) == v
  {
    var b := BigEndianBytes(v);
    assert (b[0] as int) * 0x100 + b[1] == v / 0x1_0000;
    assert (v / 0x1_0000) * 0x100 + b[2] == v / 0x100;
  }

  function WordBytes(ws: seq<int>): (bytes: seq<uint8>)
    requires forall k :: 0 <= k < |ws| ==> 0 <= ws[k] < 0x1_0000_0000
    ensures |bytes| == 4 * |ws|
    ensures forall k :: 0 <= k < |ws| ==> bytes[4 * k..4 * k + 4] == BigEndianBytes(ws[k])
  {
    if |ws| == 0 then []
    else
      var rest := WordBytes(ws[1..]);
      assert forall k :: 1 <= k < |ws| ==>
        (BigEndianBytes(ws[0]) + rest)[4 * k..4 * k + 4] == rest[4 * (k - 1)..4 * (k - 1) + 4];
      BigEndianBytes(ws[0]) + rest
  }

  /** A word depends only on its own four bytes. */
  lemma BigEndianU32Slice(b: seq<uint8>, i: int)
    requires 0 <= i && i + 4 <= |b|
    ensures BigEndianU32(b, i) == BigEndianU32(b[i..i + 4], 0)
  {
    var s := b[i..i + 4];
    assert s[0] == b[i] && s[1] == b[i + 1] && s[2] == b[i + 2] && s[3] == b[i + 3];
  }

  /** A bound that holds for every cell of a grid holds for every value of its flattening. */
  lemma {:induction false} FlattenBounded(g: Grid, lo: int, hi: int)
    requires forall row, col :: 0 <= row < |g| && 0 <= col < |g[row]| ==> lo <= g[row][col] < hi
    ensures forall k :: 0 <= k < |Flatten(g)| ==> lo <= Flatten(g)[k] < hi
  {
    if |g| > 0 {
      FlattenBounded(g[1..], lo, hi);
      assert forall row, col :: 0 <= row < |g| - 1 && 0 <= col < |g[row + 1]| ==> g[1..][row][col] == g[row + 1][col];
    }
  }

  /** The bytes of a grid of unsigned 32-bit values, big-endian, row after row. */
  function Base64Bytes(g: Grid): (bytes: seq<uint8>)
    requires forall row, col :: 0 <= row < |g| && 0 <= col < |g[row]| ==> 0 <= g[row][col] < 0x1_0000_0000
    ensures |bytes| == 4 * |Flatten(g)|
  {
    FlattenBounded(g, 0, 0x1_0000_0000);
    WordBytes(Flatten(g))
  }

  /** Decoding the big-endian bytes of a grid with the same sizes gives the grid back. */
  lemma Base64RoundTrip(g: Grid, w: int, h: int)
    requires 0 <= w && 0 <= h && IsGrid(g, w, h)
    requires forall row, col :: 0 <= row < h && 0 <= col < w ==> 0 <= g[row][col] < 0x1_0000_0000
    ensures Base64Grid(Base64Bytes(g), w, h) == Some(g)
  {
    FlattenAt(g, w, h);
    FlattenBounded(g, 0, 0x1_0000_0000);
    var f := Flatten(g);
    var bytes := Base64Bytes(g);
    assert bytes == WordBytes(f);
    var cells := Words(bytes);
    forall row, col | 0 <= row < h && 0 <= col < w
      ensures Some(g[row][col]) == CellAt(cells, RowMajorIndex(row, col, w))
    {
      WordsOfWordBytes(f, RowMajorIndex(row, col, w));
    }
    RowMajorGridOf(cells, w, h, g);
  }

  /** Word `k` of the bytes of a word list is its `k`th word. */
  lemma WordsOfWordBytes(ws: seq<int>, k: int)
    requires forall j :: 0 <= j < |ws| ==> 0 <= ws[j] < 0x1_0000_0000
    requires 0 <= k < |ws|
    ensures CellAt(Words(WordBytes(ws)), k) == Some(ws[k])
  {
    var bytes := WordBytes(ws);
    assert bytes[4 * k..4 * k + 4] == BigEndianBytes(ws[k]);
    BigEndianU32Slice(bytes, 4 * k);
    BigEndianU32OfBytes(ws[k]);
    assert Words(bytes)[k] == Some(BigEndianU32(bytes, 4 * k));
  }

  /** Big-endian, not little-endian: the bytes 01 00 00 00 decode to 2^24, not to 1. */
  lemma Base64ByteOrder()
    ensures Base64Grid([1, 0, 0, 0], 1, 1) == Some([[0x100_0000]])
  {
    var cells := Words([1, 0, 0, 0]);
    assert cells[0] == Some(0x100_0000);
    RowMajorGridOf(cells, 1, 1, [[0x100_0000]]);
  }

  /**
   * `decodeBase64TileData` after the base64 text has been decoded to `bytes`:
   * allocates the grid and reads one word per cell, the buffer's position
   * advancing by four each time.
   */
  method DecodeBase64(bytes: seq<uint8>, w: int, h: int) returns (r: Option<Grid>)
    ensures r == Base64Grid(bytes, w, h)
  {
    if w < 0 || h < 0 {
      return None;
    }
    var tileData := new int[h, w];
    ghost var cells := Words(bytes);
    var position := 0;
    var row := 0;
    while row < h
      invariant 0 <= row <= h
      invariant position == 4 * RowMajorIndex(row, 0, w)
      invariant forall i :: 0 <= i < row ==> RowPresent(cells, w, i)
      invariant forall i, j :: 0 <= i < row && 0 <= j < w ==> tileData[i, j] == ValueAt(cells, w, i, j)
    {
      var ok;
      ok, position := FillBase64Row(tileData, bytes, row, position);
      if !ok {
        return None;
      }
      row := row + 1;
    }
    RowMajorGridOfArray(tileData, cells);
    r := Some(Contents(tileData));
  }

  /**
   * The inner loop of `decodeBase64TileData`: reads row `row` word by word
   * from `position` on, and stops (the `BufferUnderflowException`) when fewer
   * than four bytes remain.
   */
  method FillBase64Row(tileData: array2<int>, bytes: seq<uint8>, row: int, position: int)
    returns (ok: bool, next: int)
    requires 0 <= row < tileData.Length0
    requires position == 4 * RowMajorIndex(row, 0, tileData.Length1)
    modifies tileData
    ensures ok ==> next == 4 * RowMajorIndex(row + 1, 0, tileData.Length1)
    ensures ok ==> RowPresent(Words(bytes), tileData.Length1, row)
    ensures ok ==> forall j :: 0 <= j < tileData.Length1 ==>
      tileData[row, j] == ValueAt(Words(bytes), tileData.Length1, row, j)
    ensures !ok ==> !AllCellsPresent(Words(bytes), tileData.Length1, tileData.Length0)
    ensures forall i, j :: 0 <= i < tileData.Length0 && i != row && 0 <= j < tileData.Length1 ==>
      tileData[i, j] == old(tileData[i, j])
  {
    ghost var cells := Words(bytes);
    var w := tileData.Length1;
    next := position;
    var col := 0;
    while col < w
      invariant 0 <= col <= w
      invariant next == 4 * RowMajorIndex(row, col, w)
      invariant forall j :: 0 <= j < col ==> CellAt(cells, RowMajorIndex(row, j, w)).Some?
      invariant forall j :: 0 <= j < col ==> tileData[row, j] == ValueAt(cells, w, row, j)
      invariant forall i, j :: 0 <= i < tileData.Length0 && i != row && 0 <= j < w ==>
        tileData[i, j] == old(tileData[i, j])
    {
      CellIndexBound(row, col, w, tileData.Length0);
      if next + 4 > |bytes| {
        assert CellAt(cells, RowMajorIndex(row, col, w)).None?;
        return false, next;
      }
      tileData[row, col] := BigEndianU32(bytes, next);
      assert CellAt(cells, RowMajorIndex(row, col, w)) == Some(BigEndianU32(bytes, next));
      next := next + 4;
      col := col + 1;
    }
    return true, next;
  }
}
