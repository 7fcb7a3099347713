/**
 * Tile-grid preparation: two tiles are laid out as a 2x2 grid (first tile in the
 * left column, second in the right), and three binary seam masks are painted for
 * inpainting: a vertical band at the horizontal midline of the grid, a horizontal
 * band at its vertical midline, and both together.
 *
 * Pixels are written one at a time through Pillow's pixel access object, which
 * counts a negative index from the end of its axis and raises IndexError for an
 * index outside [-size, size). Python's `//` by 2 is floor division, as Dafny's
 * `/` by a positive divisor is.
 */
module TileGrid {
  import opened Wrappers
  import Paths
  import Decimal

  const White: int := 255
  const Black: int := 0

  /** The default seam width and output directory of the command line. */
  const DefaultSeamWidth: int := 128
  const DefaultOutputDir: string := "./tile_grid"

  /** Pillow accepts index `i` on an axis of `n` pixels. */
  predicate IndexOk(i: int, n: nat) { -(n as int) <= i < n }

  /** The pixel an accepted index designates: negative indexes count from the end. */
  function Wrap(i: int, n: nat): (k: nat)
    requires IndexOk(i, n)
    ensures k < n && (k == i || k == i + n)
  {
    if i < 0 then i + n else i
  }

  /** The `range(lo, hi)` of a seam centred on an axis of `extent` pixels. */
  function SeamBand(extent: nat, seamWidth: int): (int, int) {
    (extent / 2 - seamWidth / 2, extent / 2 + seamWidth / 2)
  }

  /** Writing every index of `range(lo, hi)` on an axis of `n` pixels raises nothing. */
  predicate BandWritable(lo: int, hi: int, n: nat) {
    lo >= hi || (-(n as int) <= lo && hi <= n)
  }

  /** Pixel `c` (0 <= c < n) is reached by some index of `range(lo, hi)`, directly or counted from the end. */
  predicate Painted(lo: int, hi: int, n: nat, c: int) {
    lo <= c < hi || lo <= c - n < hi
  }

  /** Extending a written range by one index paints exactly the pixel that index designates. */
  lemma PaintedStep(lo: int, x: int, n: nat)
    requires lo <= x && IndexOk(x, n)
    ensures forall c :: 0 <= c < n ==>
      (Painted(lo, x + 1, n, c) <==> Painted(lo, x, n, c) || c == Wrap(x, n))
  {
  }

  /** The value of column `x` in a vertical seam mask. */
  function VerticalSeamPixel(gridWidth: nat, seamWidth: int, x: int): int {
    var (lo, hi) := SeamBand(gridWidth, seamWidth);
    if Painted(lo, hi, gridWidth, x) then White else Black
  }

  /** The value of row `y` in a horizontal seam mask. */
  function HorizontalSeamPixel(gridHeight: nat, seamWidth: int, y: int): int {
    var (lo, hi) := SeamBand(gridHeight, seamWidth);
    if Painted(lo, hi, gridHeight, y) then White else Black
  }

  function Max(a: int, b: int): int { if a >= b then a else b }

  /** The vertical seam loops run without IndexError. */
  predicate VerticalSeamOk(gridWidth: nat, gridHeight: nat, seamWidth: int) {
    var (lo, hi) := SeamBand(gridWidth, seamWidth);
    gridHeight == 0 || BandWritable(lo, hi, gridWidth)
  }

  /** The horizontal seam loops run without IndexError. */
  predicate HorizontalSeamOk(gridWidth: nat, gridHeight: nat, seamWidth: int) {
    var (lo, hi) := SeamBand(gridHeight, seamWidth);
    gridWidth == 0 || BandWritable(lo, hi, gridHeight)
  }

  /** A single-channel 8-bit image as Pillow's pixel access object sees it: `pixels[x, y]`. */
  class Mask {
    const width: nat
    const height: nat
    const pixels: array2<int>

    ghost predicate Valid()
      reads this
    {
      pixels.Length0 == width && pixels.Length1 == height
    }

    /** `Image.new('L', (width, height), 0)`: an all-black image. */
    constructor (width: nat, height: nat)
      ensures Valid() && fresh(pixels)
      ensures this.width == width && this.height == height
      ensures forall x, y :: 0 <= x < width && 0 <= y < height ==> pixels[x, y] == Black
    {
      this.width := width;
      this.height := height;
      pixels := new int[width, height]((x, y) => Black);
    }

    /** `pixels[x, y] = v`: false where Pillow raises IndexError, and then nothing changes. */
    method Put(x: int, y: int, v: int) returns (ok: bool)
      requires Valid()
      modifies pixels
      ensures ok == (IndexOk(x, width) && IndexOk(y, height))
      ensures forall i, j :: 0 <= i < width && 0 <= j < height ==>
        pixels[i, j] == if ok && i == Wrap(x, width) && j == Wrap(y, height) then v else old(pixels[i, j])
    {
      ok := IndexOk(x, width) && IndexOk(y, height);
      if ok {
        pixels[Wrap(x, width), Wrap(y, height)] := v;
      }
    }

    /**
     * The vertical band: `for y in range(height): for x in range(lo, hi): pixels[x, y] = 255`.
     * False where the loop raises IndexError (the mask is then abandoned).
     */
    method PaintColumns(lo: int, hi: int) returns (ok: bool)
      requires Valid()
      modifies pixels
      ensures ok == (height == 0 || BandWritable(lo, hi, width))
      ensures ok ==> forall i, j :: 0 <= i < width && 0 <= j < height ==>
        pixels[i, j] == if Painted(lo, hi, width, i) then White else old(pixels[i, j])
    {
      var y := 0;
      while y < height
        invariant 0 <= y <= height
        invariant y > 0 ==> BandWritable(lo, hi, width)
        invariant forall i, j :: 0 <= i < width && 0 <= j < height ==>
          pixels[i, j] == if j < y && Painted(lo, hi, width, i) then White else old(pixels[i, j])
      {
        var x := lo;
        while x < hi
          invariant lo <= x && (x == lo || x <= hi)
          invariant x > lo ==> -(width as int) <= lo && x <= width
          invariant forall i, j :: 0 <= i < width && 0 <= j < height ==>
            pixels[i, j] ==
              if (j < y && Painted(lo, hi, width, i)) || (j == y && x > lo && Painted(lo, x, width, i))
              then White else old(pixels[i, j])
        {
          ok := Put(x, y, White);
          if !ok {
            return;
          }
          PaintedStep(lo, x, width);
          x := x + 1;
        }
        y := y + 1;
      }
      ok := true;
    }

    /**
     * The horizontal band: `for y in range(lo, hi): for x in range(width): pixels[x, y] = 255`.
     * False where the loop raises IndexError (the mask is then abandoned).
     */
    method PaintRows(lo: int, hi: int) returns (ok: bool)
      requires Valid()
      modifies pixels
      ensures ok == (width == 0 || BandWritable(lo, hi, height))
      ensures ok ==> forall i, j :: 0 <= i < width && 0 <= j < height ==>
        pixels[i, j] == if Painted(lo, hi, height, j) then White else old(pixels[i, j])
    {
      var y := lo;
      while y < hi
        invariant lo <= y && (y == lo || y <= hi)
        invariant width > 0 && y > lo ==> -(height as int) <= lo && y <= height
        invariant forall i, j :: 0 <= i < width && 0 <= j < height ==>
          pixels[i, j] == if y > lo && Painted(lo, y, height, j) then White else old(pixels[i, j])
      {
        var x := 0;
        while x < width
          invariant 0 <= x <= width
          invariant x > 0 ==> IndexOk(y, height)
          invariant forall i, j :: 0 <= i < width && 0 <= j < height ==>
            pixels[i, j] ==
              if (y > lo && Painted(lo, y, height, j)) || (i < x && IndexOk(y, height) && j == Wrap(y, height))
              then White else old(pixels[i, j])
        {
          ok := Put(x, y, White);
          if !ok {
            return;
          }
          x := x + 1;
        }
        if width > 0 {
          PaintedStep(lo, y, height);
        }
        y := y + 1;
      }
      ok := true;
    }
  }

  /** `create_vertical_seam_mask`: null where the painting loop raises IndexError. */
  method CreateVerticalSeamMask(gridWidth: nat, gridHeight: nat, seamWidth: int) returns (mask: Mask?)
    ensures mask == null <==> !VerticalSeamOk(gridWidth, gridHeight, seamWidth)
    ensures mask != null ==> mask.Valid() && fresh(mask.pixels)
    ensures mask != null ==> mask.width == gridWidth && mask.height == gridHeight
    ensures mask != null ==> forall x, y :: 0 <= x < gridWidth && 0 <= y < gridHeight ==>
      mask.pixels[x, y] == VerticalSeamPixel(gridWidth, seamWidth, x)
  {
    var m := new Mask(gridWidth, gridHeight);
    var (lo, hi) := SeamBand(gridWidth, seamWidth);
    var ok := m.PaintColumns(lo, hi);
    mask := if ok then m else null;
  }

  /** `create_horizontal_seam_mask`: null where the painting loop raises IndexError. */
  method CreateHorizontalSeamMask(gridWidth: nat, gridHeight: nat, seamWidth: int) returns (mask: Mask?)
    ensures mask == null <==> !HorizontalSeamOk(gridWidth, gridHeight, seamWidth)
    ensures mask != null ==> mask.Valid() && fresh(mask.pixels)
    ensures mask != null ==> mask.width == gridWidth && mask.height == gridHeight
    ensures mask != null ==> forall x, y :: 0 <= x < gridWidth && 0 <= y < gridHeight ==>
      mask.pixels[x, y] == HorizontalSeamPixel(gridHeight, seamWidth, y)
  {
    var m := new Mask(gridWidth, gridHeight);
    var (lo, hi) := SeamBand(gridHeight, seamWidth);
    var ok := m.PaintRows(lo, hi);
    mask := if ok then m else null;
  }

  /**
   * `create_combined_seam_mask`: the vertical band then the horizontal band on one
   * image; every pixel is the larger of the two single-seam masks' values.
   */
  method CreateCombinedSeamMask(gridWidth: nat, gridHeight: nat, seamWidth: int) returns (mask: Mask?)
    ensures mask == null <==>
      !(VerticalSeamOk(gridWidth, gridHeight, seamWidth) && HorizontalSeamOk(gridWidth, gridHeight, seamWidth))
    ensures mask != null ==> mask.Valid() && fresh(mask.pixels)
    ensures mask != null ==> mask.width == gridWidth && mask.height == gridHeight
    ensures mask != null ==> forall x, y :: 0 <= x < gridWidth && 0 <= y < gridHeight ==>
      mask.pixels[x, y] ==
        Max(VerticalSeamPixel(gridWidth, seamWidth, x), HorizontalSeamPixel(gridHeight, seamWidth, y))
  {
    var m := new Mask(gridWidth, gridHeight);
    var (left, right) := SeamBand(gridWidth, seamWidth);
    var ok := m.PaintColumns(left, right);
    if !ok {
      return null;
    }
    var (top, bottom) := SeamBand(gridHeight, seamWidth);
    ok := m.PaintRows(top, bottom);
    mask := if ok then m else null;
  }

  /** The painted band is `2 * (seamWidth // 2)` pixels wide and symmetric about the midline. */
  lemma SeamBandWidth(extent: nat, seamWidth: int)
    requires seamWidth >= 0
    ensures var (lo, hi) := SeamBand(extent, seamWidth);
      hi - lo == 2 * (seamWidth / 2) && extent / 2 - lo == hi - extent / 2
    ensures seamWidth % 2 == 1 ==> SeamBand(extent, seamWidth).1 - SeamBand(extent, seamWidth).0 == seamWidth - 1
  {
  }

  /** A seam no wider than the grid stays inside it: only in-range indexes are written, none wraps. */
  lemma SeamInside(extent: nat, seamWidth: int)
    requires 0 <= seamWidth <= extent
    ensures var (lo, hi) := SeamBand(extent, seamWidth);
      0 <= lo && hi <= extent && BandWritable(lo, hi, extent) &&
      forall c :: 0 <= c < extent ==> (Painted(lo, hi, extent, c) <==> lo <= c < hi)
  {
  }

  /** Column `x` of a vertical seam mask is white exactly inside `[gw//2 - sw//2, gw//2 + sw//2)`. */
  lemma VerticalSeamExact(gridWidth: nat, gridHeight: nat, seamWidth: int, x: int)
    requires 0 <= seamWidth <= gridWidth && 0 <= x < gridWidth
    ensures VerticalSeamOk(gridWidth, gridHeight, seamWidth)
    ensures VerticalSeamPixel(gridWidth, seamWidth, x) == White <==>
      gridWidth / 2 - seamWidth / 2 <= x < gridWidth / 2 + seamWidth / 2
    ensures VerticalSeamPixel(gridWidth, seamWidth, x) != White ==>
      VerticalSeamPixel(gridWidth, seamWidth, x) == Black
  {
    SeamInside(gridWidth, seamWidth);
  }

  /** Row `y` of a horizontal seam mask is white exactly inside `[gh//2 - sw//2, gh//2 + sw//2)`. */
  lemma HorizontalSeamExact(gridWidth: nat, gridHeight: nat, seamWidth: int, y: int)
    requires 0 <= seamWidth <= gridHeight && 0 <= y < gridHeight
    ensures HorizontalSeamOk(gridWidth, gridHeight, seamWidth)
    ensures HorizontalSeamPixel(gridHeight, seamWidth, y) == White <==>
      gridHeight / 2 - seamWidth / 2 <= y < gridHeight / 2 + seamWidth / 2
    ensures HorizontalSeamPixel(gridHeight, seamWidth, y) != White ==>
      HorizontalSeamPixel(gridHeight, seamWidth, y) == Black
  {
    SeamInside(gridHeight, seamWidth);
  }

  /** A seam width below 2 paints nothing: `seamWidth // 2` is 0 or negative, so the range is empty. */
  lemma NarrowSeamPaintsNothing(extent: nat, seamWidth: int, c: int)
    requires seamWidth < 2
    ensures VerticalSeamPixel(extent, seamWidth, c) == Black
    ensures HorizontalSeamPixel(extent, seamWidth, c) == Black
  {
  }

  /**
   * A seam one pixel wider than an odd extent reaches index -1, which Pillow
   * counts from the end: the whole axis turns white and nothing is raised.
   */
  lemma OverwideSeamWraps(extent: nat, c: int)
    requires extent % 2 == 1 && 0 <= c < extent
    ensures VerticalSeamOk(extent, 1, extent + 1)
    ensures VerticalSeamPixel(extent, extent + 1, c) == White
  {
  }

  /** With an even extent, any seam wider than the extent raises IndexError. */
  lemma OverwideSeamRaises(extent: nat, seamWidth: int, rows: nat)
    requires extent % 2 == 0 && seamWidth > extent + 1 && rows > 0
    ensures !VerticalSeamOk(extent, rows, seamWidth)
    ensures !HorizontalSeamOk(rows, extent, seamWidth)
  {
  }

  /** A 1024-pixel grid with the default 128-pixel seam is white exactly on columns [448, 576). */
  lemma DefaultVerticalSeamOn1024(x: int)
    requires 0 <= x < 1024
    ensures VerticalSeamPixel(1024, DefaultSeamWidth, x) == White <==> 448 <= x < 576
  {
    VerticalSeamExact(1024, 1024, DefaultSeamWidth, x);
  }

  /** The stripe rows [512, 1536) of a 2048-pixel test mask are the horizontal seam of width 1024. */
  lemma StripeIsHorizontalSeam1024(y: int)
    requires 0 <= y < 2048
    ensures HorizontalSeamPixel(2048, 1024, y) == White <==> 512 <= y < 1536
  {
    HorizontalSeamExact(2048, 2048, 1024, y);
  }

  /** The stripe rows [704, 1344) of a 2048-pixel test mask are the horizontal seam of width 640. */
  lemma StripeIsHorizontalSeam640(y: int)
    requires 0 <= y < 2048
    ensures HorizontalSeamPixel(2048, 640, y) == White <==> 704 <= y < 1344
  {
    HorizontalSeamExact(2048, 2048, 640, y);
  }

  // ---------------------------------------------------------------------------
  // The 2x2 grid

  datatype Size = Size(width: nat, height: nat)

  /** Which of the two input tiles a placement shows. */
  datatype Tile = First | Second

  /** `grid.paste(tile, (x, y))` of a tile of the given size. */
  datatype Placement = Placement(tile: Tile, size: Size, x: int, y: int)

  predicate Covers(p: Placement, x: int, y: int) {
    p.x <= x < p.x + p.size.width && p.y <= y < p.y + p.size.height
  }

  /** The tile visible at (x, y) after pasting in order: the last paste that covers it wins. */
  function TileAt(ps: seq<Placement>, x: int, y: int): Option<Tile> {
    if ps == [] then None
    else if Covers(ps[|ps| - 1], x, y) then Some(ps[|ps| - 1].tile)
    else TileAt(ps[..|ps| - 1], x, y)
  }

  /** Pasting one more tile shows it wherever it covers and leaves the rest as it was. */
  lemma TileAtSnoc(ps: seq<Placement>, p: Placement, x: int, y: int)
    ensures TileAt(ps + [p], x, y) == if Covers(p, x, y) then Some(p.tile) else TileAt(ps, x, y)
  {
    assert (ps + [p])[..|ps|] == ps;
  }

  /** The pastes of `create_2x2_grid`, the second tile already brought to the first's size. */
  function GridPlacements(tile: Size): seq<Placement> {
    var (w, h) := (tile.width, tile.height);
    [Placement(First, tile, 0, 0), Placement(Second, tile, w, 0),
     Placement(First, tile, 0, h), Placement(Second, tile, w, h)]
  }

  /** An RGB image being assembled by pastes. */
  class Grid {
    const size: Size
    var placements: seq<Placement>

    /** `Image.new('RGB', size)`. */
    constructor (size: Size)
      ensures this.size == size && placements == []
    {
      this.size := size;
      placements := [];
    }

    /** `paste(tile, (x, y))`. */
    method Paste(tile: Tile, tileSize: Size, x: int, y: int)
      modifies this
      ensures placements == old(placements) + [Placement(tile, tileSize, x, y)]
    {
      placements := placements + [Placement(tile, tileSize, x, y)];
    }
  }

  /**
   * `create_2x2_grid`: the second tile is resized to the first's size when they
   * differ; the grid is twice the first tile's size in each direction.
   */
  method Create2x2Grid(tile1: Size, tile2: Size) returns (grid: Grid, resizedSecond: bool)
    ensures fresh(grid)
    ensures resizedSecond == (tile1 != tile2)
    ensures grid.size == Size(2 * tile1.width, 2 * tile1.height)
    ensures grid.placements == GridPlacements(tile1)
  {
    var second := tile2;
    resizedSecond := tile1 != tile2;
    if resizedSecond {
      second := tile1;
    }
    var (w, h) := (tile1.width, tile1.height);
    grid := new Grid(Size(w * 2, h * 2));
    grid.Paste(First, tile1, 0, 0);
    grid.Paste(Second, second, w, 0);
    grid.Paste(First, tile1, 0, h);
    grid.Paste(Second, second, w, h);
  }

  /**
   * Every pixel of the grid shows exactly one tile: the first in the left half,
   * the second in the right half, in both rows.
   */
  lemma GridLayout(tile: Size, x: int, y: int)
    requires 0 <= x < 2 * tile.width && 0 <= y < 2 * tile.height
    ensures TileAt(GridPlacements(tile), x, y) == Some(if x < tile.width then First else Second)
  {
    var ps := GridPlacements(tile);
    assert ps == [] + [ps[0]] + [ps[1]] + [ps[2]] + [ps[3]];
    TileAtSnoc([], ps[0], x, y);
    TileAtSnoc([ps[0]], ps[1], x, y);
    TileAtSnoc([ps[0], ps[1]], ps[2], x, y);
    TileAtSnoc([ps[0], ps[1], ps[2]], ps[3], x, y);
    assert [ps[0]] == [] + [ps[0]];
    assert [ps[0], ps[1]] == [ps[0]] + [ps[1]];
    assert [ps[0], ps[1], ps[2]] == [ps[0], ps[1]] + [ps[2]];
    assert ps == [ps[0], ps[1], ps[2]] + [ps[3]];
  }

  /** Nothing outside the grid is painted. */
  lemma GridNothingOutside(tile: Size, x: int, y: int)
    requires !(0 <= x < 2 * tile.width && 0 <= y < 2 * tile.height)
    ensures TileAt(GridPlacements(tile), x, y) == None
  {
    var ps := GridPlacements(tile);
    TileAtSnoc([], ps[0], x, y);
    TileAtSnoc([ps[0]], ps[1], x, y);
    TileAtSnoc([ps[0], ps[1]], ps[2], x, y);
    TileAtSnoc([ps[0], ps[1], ps[2]], ps[3], x, y);
    assert [ps[0]] == [] + [ps[0]];
    assert [ps[0], ps[1]] == [ps[0]] + [ps[1]];
    assert [ps[0], ps[1], ps[2]] == [ps[0], ps[1]] + [ps[2]];
    assert ps == [ps[0], ps[1], ps[2]] + [ps[3]];
  }

  // ---------------------------------------------------------------------------
  // The command line

  datatype CliError = Usage | InvalidInt(text: string) | NotFound(path: string) | SeamIndexError

  datatype TileGridArgs = TileGridArgs(tile1: string, tile2: string, outputDir: string, seamWidth: int)

  /**
   * `main`'s argument handling over `sys.argv` (program name first): at least two
   * tile paths, an optional output directory and an optional seam width; both
   * tiles must exist (`existing` stands for the file system).
   */
  function ParseTileGridArgs(argv: seq<string>, existing: set<string>): (r: Result<TileGridArgs, CliError>)
    ensures |argv| < 3 <==> r == Err(Usage)
    ensures r.Ok? ==> r.value.tile1 == argv[1] && r.value.tile2 == argv[2]
    ensures r.Ok? ==> r.value.tile1 in existing && r.value.tile2 in existing
    ensures r.Ok? ==> r.value.outputDir == (if |argv| > 3 then argv[3] else DefaultOutputDir)
    ensures r.Ok? && |argv| <= 4 ==> r.value.seamWidth == DefaultSeamWidth
    ensures r.Ok? && |argv| > 4 ==> Decimal.ParseInt(argv[4]) == Some(r.value.seamWidth)
    ensures (&& |argv| >= 3 && argv[1] in existing && argv[2] in existing
             && (|argv| > 4 ==> Decimal.ParseInt(argv[4]).Some?)) ==> r.Ok?
  {
    if |argv| < 3 then Err(Usage)
    else
      var outputDir := if |argv| > 3 then argv[3] else DefaultOutputDir;
      var seam := if |argv| > 4 then Decimal.ParseInt(argv[4]) else Some(DefaultSeamWidth);
      if seam.None? then Err(InvalidInt(argv[4]))
      else if argv[1] !in existing then Err(NotFound(argv[1]))
      else if argv[2] !in existing then Err(NotFound(argv[2]))
      else Ok(TileGridArgs(argv[1], argv[2], outputDir, seam.value))
  }

  /** An unparsable seam width is reported before any missing tile. */
  lemma BadSeamWidthFirst(argv: seq<string>, existing: set<string>)
    requires |argv| > 4 && Decimal.ParseInt(argv[4]).None?
    ensures ParseTileGridArgs(argv, existing) == Err(InvalidInt(argv[4]))
  {
  }

  /** With two existing tiles and nothing else, the defaults are `./tile_grid` and 128. */
  lemma TileGridDefaults(argv: seq<string>, existing: set<string>)
    requires |argv| == 3 && argv[1] in existing && argv[2] in existing
    ensures ParseTileGridArgs(argv, existing) == Ok(TileGridArgs(argv[1], argv[2], "./tile_grid", 128))
  {
  }

  /** The files `main` writes into the output directory. */
  datatype OutputPaths = OutputPaths(grid: string, vertical: string, horizontal: string, combined: string)

  /** `p` is `dir`, then possibly a separator, then `name`. */
  predicate InDir(p: string, dir: string, name: string) {
    |dir| + |name| <= |p| && p[..|dir|] == dir && p[|p| - |name|..] == name
  }

  /** The four output files are named inside the output directory, whatever its spelling. */
  function TileGridOutputs(outputDir: string): (o: OutputPaths)
    ensures InDir(o.grid, outputDir, "grid.png")
    ensures InDir(o.vertical, outputDir, "mask_vertical.png")
    ensures InDir(o.horizontal, outputDir, "mask_horizontal.png")
    ensures InDir(o.combined, outputDir, "mask_combined.png")
  {
    OutputPaths(Paths.Join(outputDir, "grid.png"), Paths.Join(outputDir, "mask_vertical.png"),
                Paths.Join(outputDir, "mask_horizontal.png"), Paths.Join(outputDir, "mask_combined.png"))
  }

  /** What one run of `main` produces. */
  datatype TileGridRun = TileGridRun(args: TileGridArgs, paths: OutputPaths, grid: Grid,
                                     vertical: Mask, horizontal: Mask, combined: Mask)

  /**
   * `main`: parse the arguments, build the grid from the two tiles' sizes (the
   * images stand for the files), then paint the three masks on the grid's size.
   */
  method PrepareTileGrid(argv: seq<string>, existing: set<string>, tile1: Size, tile2: Size)
    returns (r: Result<TileGridRun, CliError>)
    ensures ParseTileGridArgs(argv, existing).Err? ==> r == Err(ParseTileGridArgs(argv, existing).error)
    ensures ParseTileGridArgs(argv, existing).Ok? ==>
      var sw := ParseTileGridArgs(argv, existing).value.seamWidth;
      var (gw, gh) := (2 * tile1.width, 2 * tile1.height);
      r.Err? <==> !(VerticalSeamOk(gw, gh, sw) && HorizontalSeamOk(gw, gh, sw))
    ensures r.Ok? ==>
      var run := r.value;
      var (gw, gh) := (2 * tile1.width, 2 * tile1.height);
      && run.args == ParseTileGridArgs(argv, existing).value
      && run.paths == TileGridOutputs(run.args.outputDir)
      && run.grid.size == Size(gw, gh) && run.grid.placements == GridPlacements(tile1)
      && run.vertical.Valid() && run.vertical.width == gw && run.vertical.height == gh
      && run.horizontal.Valid() && run.horizontal.width == gw && run.horizontal.height == gh
      && run.combined.Valid() && run.combined.width == gw && run.combined.height == gh
      && (forall x, y :: 0 <= x < gw && 0 <= y < gh ==>
            run.vertical.pixels[x, y] == VerticalSeamPixel(gw, run.args.seamWidth, x) &&
            run.horizontal.pixels[x, y] == HorizontalSeamPixel(gh, run.args.seamWidth, y) &&
            run.combined.pixels[x, y] ==
              Max(VerticalSeamPixel(gw, run.args.seamWidth, x), HorizontalSeamPixel(gh, run.args.seamWidth, y)))
  {
    var parsed := ParseTileGridArgs(argv, existing);
    if parsed.Err? {
      return Err(parsed.error);
    }
    var args := parsed.value;
    var paths := TileGridOutputs(args.outputDir);
    var grid, _ := Create2x2Grid(tile1, tile2);
    var (gw, gh) := (grid.size.width, grid.size.height);
    var vertical := CreateVerticalSeamMask(gw, gh, args.seamWidth);
    if vertical == null {
      return Err(SeamIndexError);
    }
    var horizontal := CreateHorizontalSeamMask(gw, gh, args.seamWidth);
    if horizontal == null {
      return Err(SeamIndexError);
    }
    var combined := CreateCombinedSeamMask(gw, gh, args.seamWidth);
    if combined == null {
      return Err(SeamIndexError);
    }
    r := Ok(TileGridRun(args, paths, grid, vertical, horizontal, combined));
  }

  /** The default 128-pixel seam fits any grid built from tiles at least 64 pixels on each side. */
  lemma DefaultSeamFits(tile: Size)
    requires tile.width >= 64 && tile.height >= 64
    ensures VerticalSeamOk(2 * tile.width, 2 * tile.height, DefaultSeamWidth)
    ensures HorizontalSeamOk(2 * tile.width, 2 * tile.height, DefaultSeamWidth)
  {
    SeamInside(2 * tile.width, DefaultSeamWidth);
    SeamInside(2 * tile.height, DefaultSeamWidth);
  }
}
