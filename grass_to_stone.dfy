/**
 * The grass-to-stone transition mask: one half of a `height x width` canvas
 * (`mask[y, x]`, as numpy indexes it) is filled with 1.0, soft round patches and
 * smaller spots are blended into the canvas with `max`, a raised-cosine factor is
 * multiplied in near the boundary, and the canvas is truncated to 8-bit pixels.
 *
 * Values are exact reals (float32 rounding is not modelled). The square root, the
 * power and the cosine are the fields of a `Kernels` value constrained only by
 * their ranges, and numpy's random draws are inputs.
 */
module GrassToStone {
  import opened Wrappers

  datatype Side = Top | Bottom | Left | Right

  datatype FadeDirection = Vertical | Horizontal

  /** `(y_start, y_end, x_start, x_end)` of the half that is not grass. */
  datatype Area = Area(yStart: int, yEnd: int, xStart: int, xEnd: int)

  /** What the choice of grass side fixes: the boundary, the stone half and the fade direction. */
  datatype Layout = Layout(boundary: int, stone: Area, fade: FadeDirection)

  datatype MaskError =
    | NegativeDimensions              // ValueError raised by np.zeros for a negative width or height
    | InvalidGrassSide(side: string)  // ValueError raised by the side check
    | EmptyRandomRange                // ValueError raised by numpy's randint(low, high) with low >= high

  /** The accepted values of `grass_side`. */
  function ParseSide(s: string): (r: Option<Side>)
    ensures r.Some? <==> s in {"top", "bottom", "left", "right"}
  {
    match s
    case "top" => Some(Top)
    case "bottom" => Some(Bottom)
    case "left" => Some(Left)
    case "right" => Some(Right)
    case _ => None
  }

  function SideLayout(side: Side, width: nat, height: nat): Layout {
    match side
    case Top => Layout(height / 2, Area(height / 2, height, 0, width), Vertical)
    case Bottom => Layout(height / 2, Area(0, height / 2, 0, width), Vertical)
    case Left => Layout(width / 2, Area(0, height, width / 2, width), Horizontal)
    case Right => Layout(width / 2, Area(0, height, 0, width / 2), Horizontal)
  }

  /** The cells the side fill sets to 1.0: `mask[:h//2, :]`, `mask[h//2:, :]`, `mask[:, :w//2]` or `mask[:, w//2:]`. */
  predicate InGrass(side: Side, width: nat, height: nat, y: int, x: int) {
    match side
    case Top => y < height / 2
    case Bottom => y >= height / 2
    case Left => x < width / 2
    case Right => x >= width / 2
  }

  predicate InArea(a: Area, y: int, x: int) {
    a.yStart <= y < a.yEnd && a.xStart <= x < a.xEnd
  }

  /** The coordinate the fade factor depends on: the row for a vertical fade, the column for a horizontal one. */
  function FadeCoord(dir: FadeDirection, y: int, x: int): int {
    if dir == Vertical then y else x
  }

  /**
   * The stone area is exactly the canvas minus the grass half; the boundary is
   * `h // 2` for top and bottom with a vertical fade, `w // 2` for left and right
   * with a horizontal one.
   */
  lemma StoneIsComplement(side: Side, width: nat, height: nat, y: int, x: int)
    requires 0 <= y < height && 0 <= x < width
    ensures InArea(SideLayout(side, width, height).stone, y, x) <==> !InGrass(side, width, height, y, x)
    ensures SideLayout(side, width, height).boundary ==
      if side == Top || side == Bottom then height / 2 else width / 2
    ensures SideLayout(side, width, height).fade == if side == Top || side == Bottom then Vertical else Horizontal
  {
  }

  // ---------------------------------------------------------------------------
  // Numeric kernels

  /**
   * `distance(dx, dy)` stands for `np.sqrt(dx**2 + dy**2)`, `power(t, e)` for `t ** e`
   * and `cosPi(t)` for `np.cos(t * np.pi)`.
   */
  datatype Kernels = Kernels(distance: (int, int) -> real, power: (real, real) -> real, cosPi: real -> real)

  /** What the model assumes of the kernels: only their ranges, and cos 0 = 1. */
  ghost predicate ValidKernels(k: Kernels) {
    && (forall dx, dy :: k.distance(dx, dy) >= 0.0)
    && (forall t, e :: 0.0 < t <= 1.0 && e > 0.0 ==> 0.0 <= k.power(t, e) <= 1.0)
    && (forall t :: -1.0 <= k.cosPi(t) <= 1.0)
    && k.cosPi(0.0) == 1.0
  }

  function RealMax(a: real, b: real): real { if b > a then b else a }

  /**
   * What a disc of half-window `size` contributes at offset (dy, dx) from its centre:
   * nothing outside `range(-size, size)` squared or where `dist >= radius`, else
   * `(1 - dist / radius) ** exponent`.
   */
  function DiscValue(k: Kernels, size: int, radius: (int, int) -> real, exponent: real, dy: int, dx: int): Option<real>
    requires ValidKernels(k)
  {
    if -size <= dy < size && -size <= dx < size && k.distance(dx, dy) < radius(dy, dx) then
      Some(k.power(1.0 - k.distance(dx, dy) / radius(dy, dx), exponent))
    else None
  }

  /** `mask[py, px] = max(mask[py, px], falloff)` where the disc reaches, else unchanged. */
  function Blend(v: real, d: Option<real>): real {
    match d
    case Some(f) => RealMax(v, f)
    case None => v
  }

  /** A disc's contribution is a weight in [0, 1]: `1 - dist/r` lies in (0, 1] when `0 <= dist < r`. */
  lemma DiscValueInUnit(k: Kernels, size: int, radius: (int, int) -> real, exponent: real, dy: int, dx: int)
    requires ValidKernels(k) && exponent > 0.0
    ensures var d := DiscValue(k, size, radius, exponent, dy, dx); d.Some? ==> 0.0 <= d.value <= 1.0
  {
    if DiscValue(k, size, radius, exponent, dy, dx).Some? {
      var dist, r := k.distance(dx, dy), radius(dy, dx);
      assert 0.0 <= dist < r;
      assert 0.0 <= dist / r < 1.0 by {
        assert dist / r * r == dist;
      }
      assert 0.0 < 1.0 - dist / r <= 1.0;
    }
  }

  /** Blending never lowers a cell and keeps a cell of [0, 1] in [0, 1]; a cell at 1.0 stays 1.0. */
  lemma BlendBounds(k: Kernels, size: int, radius: (int, int) -> real, exponent: real, dy: int, dx: int, v: real)
    requires ValidKernels(k) && exponent > 0.0
    ensures Blend(v, DiscValue(k, size, radius, exponent, dy, dx)) >= v
    ensures 0.0 <= v <= 1.0 ==> 0.0 <= Blend(v, DiscValue(k, size, radius, exponent, dy, dx)) <= 1.0
    ensures v == 1.0 ==> Blend(v, DiscValue(k, size, radius, exponent, dy, dx)) == 1.0
  {
    DiscValueInUnit(k, size, radius, exponent, dy, dx);
  }

  /**
   * The fade factor at a row or column: `0.5 + 0.5 * cos(|d| / edge_fade * pi)` where
   * `|d| = |coord - boundary| < edge_fade`, else 1.0.
   */
  function FadeFactor(k: Kernels, coord: int, boundary: int, edgeFade: int): real {
    var d := if coord >= boundary then coord - boundary else boundary - coord;
    if d < edgeFade then 0.5 + 0.5 * k.cosPi(d as real / edgeFade as real) else 1.0
  }

  /**
   * The fade factor lies in [0, 1]; it is exactly 1.0 at and beyond `edge_fade`
   * from the boundary, and also on the boundary itself, since cos 0 = 1.
   */
  lemma FadeFactorProperties(k: Kernels, coord: int, boundary: int, edgeFade: int)
    requires ValidKernels(k)
    ensures 0.0 <= FadeFactor(k, coord, boundary, edgeFade) <= 1.0
    ensures (coord - boundary >= edgeFade || boundary - coord >= edgeFade) ==>
      FadeFactor(k, coord, boundary, edgeFade) == 1.0
    ensures FadeFactor(k, boundary, boundary, edgeFade) == 1.0
  {
    if edgeFade > 0 {
      assert 0 as real / edgeFade as real == 0.0;
    }
  }

  /** `(value * 255).astype(np.uint8)` for a value in [0, 1]: the product rounded down, which for a non-negative product is truncation. */
  function Quantise(v: real): int {
    (v * 255.0).Floor
  }

  /** A value in [0, 1] becomes a pixel in [0, 255]; 1.0 becomes 255 and 0.0 becomes 0; larger values never give smaller pixels. */
  lemma QuantiseProperties(v: real, w: real)
    requires 0.0 <= v <= 1.0 && 0.0 <= w <= 1.0
    ensures 0 <= Quantise(v) <= 255
    ensures Quantise(1.0) == 255 && Quantise(0.0) == 0
    ensures v <= w ==> Quantise(v) <= Quantise(w)
  {
  }

  // ---------------------------------------------------------------------------
  // The canvas

  ghost predicate InUnit(mask: array2<real>)
    reads mask
  {
    forall y, x :: 0 <= y < mask.Length0 && 0 <= x < mask.Length1 ==> 0.0 <= mask[y, x] <= 1.0
  }

  ghost predicate GrassWhite(mask: array2<real>, side: Side)
    reads mask
  {
    forall y, x :: 0 <= y < mask.Length0 && 0 <= x < mask.Length1 ==>
      InGrass(side, mask.Length1, mask.Length0, y, x) ==> mask[y, x] == 1.0
  }

  /** The slice assignment of the chosen side: grass cells become 1.0, the rest keep their value. */
  method FillGrass(mask: array2<real>, side: Side)
    modifies mask
    ensures forall y, x :: 0 <= y < mask.Length0 && 0 <= x < mask.Length1 ==>
      mask[y, x] == if InGrass(side, mask.Length1, mask.Length0, y, x) then 1.0 else old(mask[y, x])
  {
    var (height, width) := (mask.Length0, mask.Length1);
    forall y, x | 0 <= y < height && 0 <= x < width && InGrass(side, width, height, y, x) {
      mask[y, x] := 1.0;
    }
  }

  /**
   * One row of a patch or spot: `for dx in range(-size, size)` at offset `dy`,
   * skipping any cell outside the canvas (never wrapped or clamped) and blending
   * with `max` where the distance is below the radius.
   */
  method CompositeDiscRow(mask: array2<real>, k: Kernels, cx: int, cy: int, size: int,
                          radius: (int, int) -> real, exponent: real, dy: int)
    requires ValidKernels(k) && -size <= dy < size
    modifies mask
    ensures forall y, x :: 0 <= y < mask.Length0 && 0 <= x < mask.Length1 ==>
      mask[y, x] ==
        if y - cy == dy then Blend(old(mask[y, x]), DiscValue(k, size, radius, exponent, y - cy, x - cx))
        else old(mask[y, x])
  {
    var py := cy + dy;
    var dx := -size;
    while dx < size
      invariant -size <= dx <= size
      invariant forall y, x :: 0 <= y < mask.Length0 && 0 <= x < mask.Length1 && (y != py || x - cx >= dx) ==>
        mask[y, x] == old(mask[y, x])
      invariant 0 <= py < mask.Length0 ==> forall x :: 0 <= x < mask.Length1 && x - cx < dx ==>
        mask[py, x] == Blend(old(mask[py, x]), DiscValue(k, size, radius, exponent, dy, x - cx))
    {
      var px := cx + dx;
      if 0 <= py < mask.Length0 && 0 <= px < mask.Length1 {
        var dist := k.distance(dx, dy);
        var r := radius(dy, dx);
        if dist < r {
          var falloff := k.power(1.0 - dist / r, exponent);
          mask[py, px] := RealMax(mask[py, px], falloff);
        }
      }
      dx := dx + 1;
    }
  }

  /** One patch or spot: `for dy in range(-size, size)`, one row at a time. */
  method CompositeDisc(mask: array2<real>, k: Kernels, cx: int, cy: int, size: int,
                       radius: (int, int) -> real, exponent: real)
    requires ValidKernels(k)
    modifies mask
    ensures forall y, x :: 0 <= y < mask.Length0 && 0 <= x < mask.Length1 ==>
      mask[y, x] == Blend(old(mask[y, x]), DiscValue(k, size, radius, exponent, y - cy, x - cx))
  {
    var dy := -size;
    while dy < size
      invariant -size <= dy && (dy == -size || dy <= size)
      invariant forall y, x :: 0 <= y < mask.Length0 && 0 <= x < mask.Length1 ==>
        mask[y, x] ==
          if y - cy < dy then Blend(old(mask[y, x]), DiscValue(k, size, radius, exponent, y - cy, x - cx))
          else old(mask[y, x])
    {
      CompositeDiscRow(mask, k, cx, cy, size, radius, exponent, dy);
      dy := dy + 1;
    }
  }

  /** A product of two values in [0, 1] stays in [0, 1]. */
  lemma ProductInUnit(v: real, f: real)
    requires 0.0 <= v <= 1.0 && 0.0 <= f <= 1.0
    ensures 0.0 <= v * f <= 1.0
  {
    assert 0.0 <= v * f;
    assert v * f <= f by {
      assert f - v * f == (1.0 - v) * f;
      assert 0.0 <= (1.0 - v) * f;
    }
  }

  /** Cell (y, x) holding `v` after the fade: `v` times the fade factor of its row or column. */
  function Faded(k: Kernels, layout: Layout, edgeFade: int, v: real, y: int, x: int): real {
    v * FadeFactor(k, FadeCoord(layout.fade, y, x), layout.boundary, edgeFade)
  }

  /** `mask *= fade_mask[:, np.newaxis]` (vertical) or `mask *= fade_mask[np.newaxis, :]` (horizontal). */
  method ApplyFade(mask: array2<real>, k: Kernels, layout: Layout, edgeFade: int)
    modifies mask
    ensures forall y, x :: 0 <= y < mask.Length0 && 0 <= x < mask.Length1 ==>
      mask[y, x] == Faded(k, layout, edgeFade, old(mask[y, x]), y, x)
  {
    var (height, width) := (mask.Length0, mask.Length1);
    forall y, x | 0 <= y < height && 0 <= x < width {
      mask[y, x] := mask[y, x] * FadeFactor(k, FadeCoord(layout.fade, y, x), layout.boundary, edgeFade);
    }
  }

  /** The 8-bit image of a canvas whose values lie in [0, 1]. */
  method ToImage(mask: array2<real>) returns (img: array2<int>)
    requires InUnit(mask)
    ensures fresh(img) && img.Length0 == mask.Length0 && img.Length1 == mask.Length1
    ensures forall y, x :: 0 <= y < img.Length0 && 0 <= x < img.Length1 ==>
      img[y, x] == Quantise(mask[y, x])
    ensures forall y, x :: 0 <= y < img.Length0 && 0 <= x < img.Length1 ==> 0 <= img[y, x] <= 255
  {
    img := new int[mask.Length0, mask.Length1]((y, x) reads mask =>
      if 0 <= y < mask.Length0 && 0 <= x < mask.Length1 then Quantise(mask[y, x]) else 0);
    forall y, x | 0 <= y < img.Length0 && 0 <= x < img.Length1
      ensures 0 <= img[y, x] <= 255
    {
      QuantiseProperties(mask[y, x], 1.0);
    }
  }

  // ---------------------------------------------------------------------------
  // The whole mask

  /** One large patch: centre, half-window and the per-cell noise `random() * 0.3`, by (dy, dx). */
  datatype PatchDraw = PatchDraw(x: int, y: int, size: int, noise: (int, int) -> real)

  /** One small spot: centre and size. */
  datatype SpotDraw = SpotDraw(x: int, y: int, size: int)

  /** `range(n)` has this many elements. */
  function Count(n: int): nat { if n > 0 then n else 0 }

  /** Every `randint(low, high)` call the patch loops make has `low < high`. */
  predicate DrawRangesOk(stone: Area, patchSizeRange: (int, int)) {
    && stone.xStart + 50 < stone.xEnd - 50
    && stone.yStart + 50 < stone.yEnd - 50
    && patchSizeRange.0 < patchSizeRange.1
    && stone.xStart + 10 < stone.xEnd - 10
    && stone.yStart + 10 < stone.yEnd - 10
  }

  /** A disc as the blending loops see it: centre, half-window, radius by (dy, dx) and falloff exponent. */
  datatype Disc = Disc(x: int, y: int, size: int, radius: (int, int) -> real, exponent: real)

  /** A large patch blends `(1 - dist/r) ** 1.5` with `r = patch_size * (0.6 + noise)`. */
  function PatchDisc(p: PatchDraw): Disc {
    Disc(p.x, p.y, p.size, (dy: int, dx: int) => (p.size as real) * (0.6 + p.noise(dy, dx)), 1.5)
  }

  /** A small spot blends `(1 - dist/spot_size) ** 2`. */
  function SpotDisc(s: SpotDraw): Disc {
    Disc(s.x, s.y, s.size, (dy: int, dx: int) => s.size as real, 2.0)
  }

  predicate PositiveExponents(discs: seq<Disc>) {
    forall i :: 0 <= i < |discs| ==> discs[i].exponent > 0.0
  }

  /** The discs of the large-patch loop, in the order drawn. */
  function PatchDiscs(patches: seq<PatchDraw>): (ds: seq<Disc>)
    ensures |ds| == |patches| && PositiveExponents(ds)
    ensures forall i :: 0 <= i < |patches| ==> ds[i] == PatchDisc(patches[i])
  {
    if patches == [] then [] else PatchDiscs(patches[..|patches| - 1]) + [PatchDisc(patches[|patches| - 1])]
  }

  /** The discs of the small-spot loop, in the order drawn. */
  function SpotDiscs(spots: seq<SpotDraw>): (ds: seq<Disc>)
    ensures |ds| == |spots| && PositiveExponents(ds)
    ensures forall i :: 0 <= i < |spots| ==> ds[i] == SpotDisc(spots[i])
  {
    if spots == [] then [] else SpotDiscs(spots[..|spots| - 1]) + [SpotDisc(spots[|spots| - 1])]
  }

  /** What disc `d` contributes at cell (y, x). */
  function DiscAt(k: Kernels, d: Disc, y: int, x: int): Option<real>
    requires ValidKernels(k)
  {
    DiscValue(k, d.size, d.radius, d.exponent, y - d.y, x - d.x)
  }

  /** The value of cell (y, x), starting at `v`, after the discs are blended in one after another. */
  function Composited(v: real, k: Kernels, discs: seq<Disc>, y: int, x: int): real
    requires ValidKernels(k)
    decreases |discs|
  {
    if discs == [] then v
    else Blend(Composited(v, k, discs[..|discs| - 1], y, x), DiscAt(k, discs[|discs| - 1], y, x))
  }

  /** Compositing never lowers a cell, keeps a cell of [0, 1] in [0, 1], and keeps 1.0 at 1.0. */
  lemma {:induction false} CompositedBounds(v: real, k: Kernels, discs: seq<Disc>, y: int, x: int)
    requires ValidKernels(k) && PositiveExponents(discs)
    ensures v <= Composited(v, k, discs, y, x)
    ensures 0.0 <= v <= 1.0 ==> Composited(v, k, discs, y, x) <= 1.0
    ensures v == 1.0 ==> Composited(v, k, discs, y, x) == 1.0
  {
    if discs != [] {
      var init, d := discs[..|discs| - 1], discs[|discs| - 1];
      CompositedBounds(v, k, init, y, x);
      var w := Composited(v, k, init, y, x);
      BlendBounds(k, d.size, d.radius, d.exponent, y - d.y, x - d.x, w);
    }
  }

  /**
   * The order of the discs does not matter: the cell ends as the largest of its
   * starting value and every contribution that reaches it.
   */
  lemma {:induction false} CompositedIsMax(v: real, k: Kernels, discs: seq<Disc>, y: int, x: int)
    requires ValidKernels(k)
    ensures forall i :: 0 <= i < |discs| && DiscAt(k, discs[i], y, x).Some? ==>
      DiscAt(k, discs[i], y, x).value <= Composited(v, k, discs, y, x)
    ensures Composited(v, k, discs, y, x) == v ||
      exists i :: 0 <= i < |discs| && DiscAt(k, discs[i], y, x) == Some(Composited(v, k, discs, y, x))
  {
    if discs != [] {
      var n := |discs| - 1;
      var init, d := discs[..n], discs[n];
      CompositedIsMax(v, k, init, y, x);
      var w := Composited(v, k, init, y, x);
      var r := Composited(v, k, discs, y, x);
      assert r == Blend(w, DiscAt(k, d, y, x));
      assert w <= r;
      forall i | 0 <= i < |discs| && DiscAt(k, discs[i], y, x).Some?
        ensures DiscAt(k, discs[i], y, x).value <= r
      {
        if i < n {
          assert discs[i] == init[i];
        }
      }
      if r != v {
        if r == w {
          var i :| 0 <= i < n && DiscAt(k, init[i], y, x) == Some(w);
          assert discs[i] == init[i];
        } else {
          assert DiscAt(k, discs[n], y, x) == Some(r);
        }
      }
    }
  }

  /** One more disc blends one more contribution into the prefix's value. */
  lemma CompositedStep(v: real, k: Kernels, discs: seq<Disc>, i: int, y: int, x: int)
    requires ValidKernels(k) && 0 <= i < |discs|
    ensures Composited(v, k, discs[..i + 1], y, x) == Blend(Composited(v, k, discs[..i], y, x), DiscAt(k, discs[i], y, x))
  {
    assert discs[..i + 1][..i] == discs[..i];
  }

  /**
   * The large-patch loop (`for i in range(num_patches)`) and the small-spot loop
   * (`for i in range(num_small_spots)`): the discs are blended in one after another.
   */
  method CompositeDiscs(mask: array2<real>, k: Kernels, discs: seq<Disc>)
    requires ValidKernels(k)
    modifies mask
    ensures forall y, x :: 0 <= y < mask.Length0 && 0 <= x < mask.Length1 ==>
      mask[y, x] == Composited(old(mask[y, x]), k, discs, y, x)
  {
    var i := 0;
    while i < |discs|
      invariant 0 <= i <= |discs|
      invariant forall y, x :: 0 <= y < mask.Length0 && 0 <= x < mask.Length1 ==>
        mask[y, x] == Composited(old(mask[y, x]), k, discs[..i], y, x)
    {
      var d := discs[i];
      label before:
      CompositeDisc(mask, k, d.x, d.y, d.size, d.radius, d.exponent);
      forall y, x | 0 <= y < mask.Length0 && 0 <= x < mask.Length1
        ensures mask[y, x] == Composited(old(mask[y, x]), k, discs[..i + 1], y, x)
      {
        CompositedStep(old(mask[y, x]), k, discs, i, y, x);
      }
      i := i + 1;
    }
    assert discs[..|discs|] == discs;
  }

  /** The value of cell (y, x) after the grass fill. */
  function Filled(side: Side, width: nat, height: nat, y: int, x: int): real {
    if InGrass(side, width, height, y, x) then 1.0 else 0.0
  }

  /** The value of cell (y, x) after the grass fill, the patch loop and the spot loop. */
  function Composed(side: Side, width: nat, height: nat, k: Kernels, patches: seq<PatchDraw>,
                    spots: seq<SpotDraw>, y: int, x: int): real
    requires ValidKernels(k)
  {
    Composited(Composited(Filled(side, width, height, y, x), k, PatchDiscs(patches), y, x), k, SpotDiscs(spots), y, x)
  }

  /** The composed value is a weight in [0, 1], and 1.0 on the grass half. */
  lemma ComposedInUnit(side: Side, width: nat, height: nat, k: Kernels, patches: seq<PatchDraw>,
                       spots: seq<SpotDraw>, y: int, x: int)
    requires ValidKernels(k)
    ensures 0.0 <= Composed(side, width, height, k, patches, spots, y, x) <= 1.0
    ensures InGrass(side, width, height, y, x) ==> Composed(side, width, height, k, patches, spots, y, x) == 1.0
  {
    var filled := Filled(side, width, height, y, x);
    CompositedBounds(filled, k, PatchDiscs(patches), y, x);
    CompositedBounds(Composited(filled, k, PatchDiscs(patches), y, x), k, SpotDiscs(spots), y, x);
  }

  /**
   * The final value of cell (y, x) before quantising: the grass fill, then the
   * patches, then the spots, then the fade factor of its row or column.
   */
  function CellValue(side: Side, width: nat, height: nat, k: Kernels, patches: seq<PatchDraw>,
                     spots: seq<SpotDraw>, edgeFade: int, y: int, x: int): real
    requires ValidKernels(k)
  {
    Faded(k, SideLayout(side, width, height), edgeFade, Composed(side, width, height, k, patches, spots, y, x), y, x)
  }

  /**
   * Every final value is a weight in [0, 1], and a grass cell outside the fade band
   * (or on the boundary itself) ends at exactly 1.0.
   */
  lemma CellValueProperties(side: Side, width: nat, height: nat, k: Kernels, patches: seq<PatchDraw>,
                            spots: seq<SpotDraw>, edgeFade: int, y: int, x: int)
    requires ValidKernels(k)
    ensures 0.0 <= CellValue(side, width, height, k, patches, spots, edgeFade, y, x) <= 1.0
    ensures (InGrass(side, width, height, y, x) &&
             FadeFactor(k, FadeCoord(SideLayout(side, width, height).fade, y, x),
                        SideLayout(side, width, height).boundary, edgeFade) == 1.0) ==>
      CellValue(side, width, height, k, patches, spots, edgeFade, y, x) == 1.0
  {
    var layout := SideLayout(side, width, height);
    ComposedInUnit(side, width, height, k, patches, spots, y, x);
    FadeFactorProperties(k, FadeCoord(layout.fade, y, x), layout.boundary, edgeFade);
    ProductInUnit(Composed(side, width, height, k, patches, spots, y, x),
                  FadeFactor(k, FadeCoord(layout.fade, y, x), layout.boundary, edgeFade));
  }

  /** The patch loop, then the spot loop, over the filled canvas. */
  method ComposeMask(mask: array2<real>, k: Kernels, side: Side, patches: seq<PatchDraw>, spots: seq<SpotDraw>)
    requires ValidKernels(k)
    requires forall y, x :: 0 <= y < mask.Length0 && 0 <= x < mask.Length1 ==>
      mask[y, x] == Filled(side, mask.Length1, mask.Length0, y, x)
    modifies mask
    ensures forall y, x :: 0 <= y < mask.Length0 && 0 <= x < mask.Length1 ==>
      mask[y, x] == Composed(side, mask.Length1, mask.Length0, k, patches, spots, y, x)
    ensures InUnit(mask)
  {
    CompositeDiscs(mask, k, PatchDiscs(patches));
    CompositeDiscs(mask, k, SpotDiscs(spots));
    forall y, x | 0 <= y < mask.Length0 && 0 <= x < mask.Length1
      ensures 0.0 <= mask[y, x] <= 1.0
    {
      ComposedInUnit(side, mask.Length1, mask.Length0, k, patches, spots, y, x);
    }
  }

  /**
   * Everything after the grass fill: the patch loop, the spot loop, the fade and
   * the conversion to 8 bits.
   */
  method RenderMask(mask: array2<real>, k: Kernels, side: Side, patches: seq<PatchDraw>,
                    spots: seq<SpotDraw>, edgeFade: int) returns (img: array2<int>)
    requires ValidKernels(k)
    requires forall y, x :: 0 <= y < mask.Length0 && 0 <= x < mask.Length1 ==>
      mask[y, x] == Filled(side, mask.Length1, mask.Length0, y, x)
    modifies mask
    ensures fresh(img) && img.Length0 == mask.Length0 && img.Length1 == mask.Length1
    ensures forall y, x :: 0 <= y < img.Length0 && 0 <= x < img.Length1 ==>
      img[y, x] == Quantise(CellValue(side, mask.Length1, mask.Length0, k, patches, spots, edgeFade, y, x))
  {
    var (height, width) := (mask.Length0, mask.Length1);
    ComposeMask(mask, k, side, patches, spots);
    label composed:
    ApplyFade(mask, k, SideLayout(side, width, height), edgeFade);
    forall y, x | 0 <= y < height && 0 <= x < width
      ensures mask[y, x] == CellValue(side, width, height, k, patches, spots, edgeFade, y, x)
      ensures 0.0 <= mask[y, x] <= 1.0
    {
      assert old@composed(mask[y, x]) == Composed(side, width, height, k, patches, spots, y, x);
      CellValueProperties(side, width, height, k, patches, spots, edgeFade, y, x);
    }
    img := ToImage(mask);
  }

  /**
   * `create_grass_to_stone_mask`. `patchDensity` is accepted and never read, as in
   * the script. `patches` and `spots` are numpy's draws, in the order drawn.
   */
  method CreateGrassToStoneMask(width: int, height: int, grassSide: string, patchDensity: real,
                                patchSizeRange: (int, int), numPatches: int, edgeFade: int,
                                patches: seq<PatchDraw>, spots: seq<SpotDraw>, k: Kernels)
    returns (r: Result<array2<int>, MaskError>)
    requires ValidKernels(k)
    requires |patches| == Count(numPatches) && |spots| == 2 * Count(numPatches)
    ensures width < 0 || height < 0 ==> r == Err(NegativeDimensions)
    ensures width >= 0 && height >= 0 && ParseSide(grassSide).None? ==> r == Err(InvalidGrassSide(grassSide))
    ensures width >= 0 && height >= 0 && ParseSide(grassSide).Some? ==>
      var layout := SideLayout(ParseSide(grassSide).value, width, height);
      (r.Err? <==> numPatches > 0 && !DrawRangesOk(layout.stone, patchSizeRange)) &&
      (r.Err? ==> r.error == EmptyRandomRange)
    ensures r.Ok? ==> fresh(r.value) && r.value.Length0 == height && r.value.Length1 == width
    ensures r.Ok? ==> forall y, x :: 0 <= y < height && 0 <= x < width ==>
      r.value[y, x] == Quantise(CellValue(ParseSide(grassSide).value, width, height, k, patches, spots, edgeFade, y, x))
    ensures r.Ok? ==> forall y, x :: 0 <= y < height && 0 <= x < width ==> 0 <= r.value[y, x] <= 255
    ensures r.Ok? ==>
      var side := ParseSide(grassSide).value;
      var layout := SideLayout(side, width, height);
      forall y, x :: 0 <= y < height && 0 <= x < width ==>
        (InGrass(side, width, height, y, x) &&
         FadeFactor(k, FadeCoord(layout.fade, y, x), layout.boundary, edgeFade) == 1.0) ==>
        r.value[y, x] == 255
  {
    if width < 0 || height < 0 {
      return Err(NegativeDimensions);
    }
    var parsed := ParseSide(grassSide);
    if parsed.None? {
      return Err(InvalidGrassSide(grassSide));
    }
    var side := parsed.value;
    var layout := SideLayout(side, width, height);
    var mask := new real[height, width]((y, x) => 0.0);
    FillGrass(mask, side);

    if numPatches > 0 && !DrawRangesOk(layout.stone, patchSizeRange) {
      return Err(EmptyRandomRange);
    }

    forall y, x | 0 <= y < height && 0 <= x < width
      ensures mask[y, x] == Filled(side, width, height, y, x)
    {
    }
    var img := RenderMask(mask, k, side, patches, spots, edgeFade);
    forall y, x | 0 <= y < height && 0 <= x < width
      ensures 0 <= img[y, x] <= 255
      ensures (InGrass(side, width, height, y, x) &&
               FadeFactor(k, FadeCoord(layout.fade, y, x), layout.boundary, edgeFade) == 1.0) ==> img[y, x] == 255
    {
      CellValueProperties(side, width, height, k, patches, spots, edgeFade, y, x);
      QuantiseProperties(CellValue(side, width, height, k, patches, spots, edgeFade, y, x), 1.0);
    }
    r := Ok(img);
  }
}
