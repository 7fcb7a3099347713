/**
 * `resize_for_workflow.py`: the geometry of resizing an image to a target size for a
 * workflow, by one of four methods (stretch, cover, pad, contain), and the command
 * line that chooses the target, the output path and the method. Pixels and
 * resampling are not modelled; what is modelled is every size, crop box and paste
 * offset the script computes, and which inputs make it fail.
 */
module Resize {
  import opened Wrappers
  import Decimal
  import Paths

  /** An image size in pixels, `(width, height)`. */
  datatype Size = Size(width: int, height: int)

  predicate Positive(s: Size) { s.width > 0 && s.height > 0 }

  /** The four methods; `resize_image` treats any other name as contain. */
  datatype Method = Contain | Cover | Stretch | Pad

  function MethodOf(name: string): (m: Method)
    ensures m == Stretch <==> name == "stretch"
    ensures m == Cover <==> name == "cover"
    ensures m == Pad <==> name == "pad"
  {
    if name == "stretch" then Stretch
    else if name == "cover" then Cover
    else if name == "pad" then Pad
    else Contain
  }

  /** A crop box `(left, top, right, bottom)`. */
  datatype Box = Box(left: int, top: int, right: int, bottom: int)

  /** What the chosen method does to the image, step by step, and the canvas it ends on. */
  datatype Plan =
    | Stretched(size: Size)
      /** Resize to `scaled`, then crop `crop` out of it. */
    | Covered(scaled: Size, crop: Box)
      /** Shrink to `thumb` in place, then paste it at the offset on a black `canvas`. */
    | Padded(thumb: Size, canvas: Size, offsetX: int, offsetY: int)
      /** Resize to `scaled`; when that is not the target size, paste it at the offset on a black canvas. */
    | Contained(scaled: Size, padding: Option<Size>, offsetX: int, offsetY: int)

  /** The size of the image a plan saves. */
  function FinalSize(p: Plan): Size {
    match p
      case Stretched(size) => size
      case Covered(_, crop) => Size(crop.right - crop.left, crop.bottom - crop.top)
      case Padded(_, canvas, _, _) => canvas
      case Contained(scaled, padding, _, _) => if padding.Some? then padding.value else scaled
  }

  /** Why `resize_image` raises. */
  datatype ResizeError =
      /** A target side below 1: a ZeroDivisionError in the aspect ratio, or Pillow's ValueError. */
    | InvalidTarget(target: Size)
      /** Pillow's `resize` refuses a size with a side below 1. */
    | EmptyResize(size: Size)

  /** `int(a * (b / c))` for positive operands, computed exactly: the floor of a*b/c. */
  function ScaledSide(a: int, b: int, c: int): (r: int)
    requires a > 0 && b > 0 && c > 0
    ensures r >= 0
    ensures r * c <= a * b < (r + 1) * c
  {
    var q := (a * b) / c;
    assert a * b == q * c + (a * b) % c;
    q
  }

  /**
   * `int(a * (b / c))` as the script evaluates it, in floating point. Rounding can
   * move it off the exact floor of a*b/c, so the plans take it as a parameter and
   * the properties that need the exact value are stated for `ExactTrunc`.
   */
  type Trunc = (int, int, int) -> int

  /** The exact value of `int(a * (b / c))` for positive operands. */
  const ExactTrunc: Trunc := (a: int, b: int, c: int) => if a > 0 && b > 0 && c > 0 then ScaledSide(a, b, c) else 0

  /** `aspect_img > aspect_target`, i.e. `W / H > w / h`, without division. */
  predicate WiderThanTarget(original: Size, target: Size) {
    original.width * target.height > target.width * original.height
  }

  /**
   * The size `img.thumbnail(target)` leaves: Pillow keeps the aspect ratio and never
   * enlarges, so an image that already fits is untouched and any other shrinks to
   * fit inside the target, each side at least 1.
   */
  predicate ThumbnailOk(original: Size, target: Size, thumb: Size) {
    if original.width <= target.width && original.height <= target.height then thumb == original
    else 1 <= thumb.width <= target.width && 1 <= thumb.height <= target.height &&
         thumb.width <= original.width && thumb.height <= original.height
  }

  /** The cover branch: scale so the image covers the target, then crop the centre. */
  function CoverPlan(original: Size, target: Size, trunc: Trunc): Plan {
    var scaled :=
      if WiderThanTarget(original, target)
      then Size(trunc(original.width, target.height, original.height), target.height)
      else Size(target.width, trunc(original.height, target.width, original.width));
    var left := (scaled.width - target.width) / 2;
    var top := (scaled.height - target.height) / 2;
    Covered(scaled, Box(left, top, left + target.width, top + target.height))
  }

  /** The contain branch: scale so the image fits inside the target, then centre it if it falls short. */
  function ContainPlan(original: Size, target: Size, trunc: Trunc): Plan {
    var scaled :=
      if WiderThanTarget(original, target)
      then Size(target.width, trunc(original.height, target.width, original.width))
      else Size(trunc(original.width, target.height, original.height), target.height);
    Contained(scaled, if scaled != target then Some(target) else None,
              (target.width - scaled.width) / 2, (target.height - scaled.height) / 2)
  }

  /**
   * `resize_image` without the file I/O: `original` is the opened image's size and
   * `thumb` the size Pillow's `thumbnail` gives it for this target.
   */
  function ResizePlan(original: Size, target: Size, name: string, thumb: Size, trunc: Trunc)
    : (r: Result<Plan, ResizeError>)
    requires Positive(original)
    requires Positive(target) ==> ThumbnailOk(original, target, thumb)
    ensures !Positive(target) <==> r == Err(InvalidTarget(target))
    ensures r.Ok? ==> (MethodOf(name) == Stretch <==> r.value.Stretched?)
    ensures r.Ok? ==> (MethodOf(name) == Cover <==> r.value.Covered?)
    ensures r.Ok? ==> (MethodOf(name) == Pad <==> r.value.Padded?)
    ensures r.Ok? ==> (MethodOf(name) == Contain <==> r.value.Contained?)
  {
    if !Positive(target) then Err(InvalidTarget(target))
    else match MethodOf(name)
      case Stretch => Ok(Stretched(target))
      case Cover =>
        var p := CoverPlan(original, target, trunc);
        if !Positive(p.scaled) then Err(EmptyResize(p.scaled)) else Ok(p)
      case Pad =>
        Ok(Padded(thumb, target, (target.width - thumb.width) / 2, (target.height - thumb.height) / 2))
      case Contain =>
        var p := ContainPlan(original, target, trunc);
        if !Positive(p.scaled) then Err(EmptyResize(p.scaled)) else Ok(p)
  }

  /**
   * `offset` centres a part of length `inner` on a canvas of length `outer`: the
   * margins before and after differ by at most one pixel, the larger one after.
   */
  predicate Centred(offset: int, inner: int, outer: int) {
    0 <= offset && offset + inner <= outer && 0 <= (outer - inner) - 2 * offset <= 1
  }

  lemma CentredHalf(inner: int, outer: int)
    requires 0 <= inner <= outer
    ensures Centred((outer - inner) / 2, inner, outer)
  {
  }

  /** `a * c < b * c` with `c > 0` gives `a < b`. */
  lemma CancelPositive(a: int, b: int, c: int)
    requires c > 0 && a * c < b * c
    ensures a < b
  {
    assert (b - a) * c == b * c - a * c;
  }

  /** Whatever the method, a successful resize saves an image of exactly the target size. */
  lemma ResizeKeepsTargetSize(original: Size, target: Size, name: string, thumb: Size, trunc: Trunc)
    requires Positive(original)
    requires Positive(target) ==> ThumbnailOk(original, target, thumb)
    requires ResizePlan(original, target, name, thumb, trunc).Ok?
    ensures FinalSize(ResizePlan(original, target, name, thumb, trunc).value) == target
  {
  }

  /**
   * Cover, however the scaled side is rounded: when the scaled image covers the
   * target, the crop box is the centred target-sized window inside it.
   */
  lemma CoverCropCentred(original: Size, target: Size, trunc: Trunc)
    requires Positive(target)
    requires var p := CoverPlan(original, target, trunc);
      p.scaled.width >= target.width && p.scaled.height >= target.height
    ensures var p := CoverPlan(original, target, trunc);
      && Centred(p.crop.left, target.width, p.scaled.width)
      && Centred(p.crop.top, target.height, p.scaled.height)
      && p.crop.right == p.crop.left + target.width && p.crop.bottom == p.crop.top + target.height
  {
    var p := CoverPlan(original, target, trunc);
    CentredHalf(target.width, p.scaled.width);
    CentredHalf(target.height, p.scaled.height);
  }

  /**
   * Cover in exact arithmetic: the scaled image matches the target on one side and
   * covers it on the other, and keeps the original's aspect ratio up to the
   * truncation of the other side.
   */
  lemma CoverProperties(original: Size, target: Size)
    requires Positive(original) && Positive(target)
    ensures var p := CoverPlan(original, target, ExactTrunc);
      && p.scaled.width >= target.width && p.scaled.height >= target.height
      && (WiderThanTarget(original, target) ==>
            p.scaled.height == target.height &&
            p.scaled.width * original.height <= original.width * p.scaled.height < (p.scaled.width + 1) * original.height)
      && (!WiderThanTarget(original, target) ==>
            p.scaled.width == target.width &&
            p.scaled.height * original.width <= original.height * p.scaled.width < (p.scaled.height + 1) * original.width)
  {
    var (w, h, W, H) := (target.width, target.height, original.width, original.height);
    if WiderThanTarget(original, target) {
      var r := ScaledSide(W, h, H);
      assert w * H < W * h < (r + 1) * H;
      CancelPositive(w, r + 1, H);
    } else {
      var r := ScaledSide(H, w, W);
      assert h * W <= w * H < (r + 1) * W;
      CancelPositive(h, r + 1, W);
    }
  }

  /**
   * Contain, however the scaled side is rounded: a scaled image that fits inside the
   * target is pasted centred on a black canvas exactly when it falls short of it.
   */
  lemma ContainPadCentred(original: Size, target: Size, trunc: Trunc)
    requires var p := ContainPlan(original, target, trunc);
      0 <= p.scaled.width <= target.width && 0 <= p.scaled.height <= target.height
    ensures var p := ContainPlan(original, target, trunc);
      && (p.padding.Some? <==> p.scaled != target)
      && Centred(p.offsetX, p.scaled.width, target.width)
      && Centred(p.offsetY, p.scaled.height, target.height)
  {
    var p := ContainPlan(original, target, trunc);
    CentredHalf(p.scaled.width, target.width);
    CentredHalf(p.scaled.height, target.height);
  }

  /**
   * Contain in exact arithmetic: the scaled image matches the target on one side and
   * fits inside it on the other (strictly, for an image wider than the target), and
   * keeps the original's aspect ratio up to the truncation of the other side.
   */
  lemma ContainProperties(original: Size, target: Size)
    requires Positive(original) && Positive(target)
    ensures var p := ContainPlan(original, target, ExactTrunc);
      && 0 <= p.scaled.width <= target.width && 0 <= p.scaled.height <= target.height
      && (WiderThanTarget(original, target) ==>
            p.scaled.width == target.width && p.scaled.height < target.height &&
            p.scaled.height * original.width <= original.height * p.scaled.width < (p.scaled.height + 1) * original.width)
      && (!WiderThanTarget(original, target) ==>
            p.scaled.height == target.height &&
            p.scaled.width * original.height <= original.width * p.scaled.height < (p.scaled.width + 1) * original.height)
  {
    var (w, h, W, H) := (target.width, target.height, original.width, original.height);
    if WiderThanTarget(original, target) {
      var r := ScaledSide(H, w, W);
      assert r * W <= H * w < h * W;
      CancelPositive(r, h, W);
    } else {
      var r := ScaledSide(W, h, H);
      assert r * H <= W * h <= w * H;
      assert r * H < (w + 1) * H;
      CancelPositive(r, w + 1, H);
    }
  }

  /**
   * Pad: the thumbnail lies centred on the target-sized canvas, and an image that
   * already fits the target is pasted at its own size, never enlarged.
   */
  lemma PadProperties(original: Size, target: Size, name: string, thumb: Size, trunc: Trunc)
    requires Positive(original) && Positive(target) && MethodOf(name) == Pad
    requires ThumbnailOk(original, target, thumb)
    ensures var r := ResizePlan(original, target, name, thumb, trunc);
      && r.Ok? && r.value.canvas == target
      && Centred(r.value.offsetX, thumb.width, target.width)
      && Centred(r.value.offsetY, thumb.height, target.height)
      && (original.width <= target.width && original.height <= target.height ==> r.value.thumb == original)
      && r.value.thumb.width <= original.width && r.value.thumb.height <= original.height
  {
    CentredHalf(thumb.width, target.width);
    CentredHalf(thumb.height, target.height);
  }

  /** A method name `main` would reject plans exactly like contain. */
  lemma UnknownMethodIsContain(original: Size, target: Size, name: string, thumb: Size, trunc: Trunc)
    requires Positive(original)
    requires Positive(target) ==> ThumbnailOk(original, target, thumb)
    requires name !in {"stretch", "cover", "pad"}
    ensures ResizePlan(original, target, name, thumb, trunc) == ResizePlan(original, target, "contain", thumb, trunc)
  {
  }

  /**
   * Contain fails with an empty resize when the truncated side is 0: a 1000x1 image
   * contained in 512x512 scales to 512x0.
   */
  lemma ContainTooWide()
    ensures ResizePlan(Size(1000, 1), Size(512, 512), "contain", Size(512, 1), ExactTrunc) == Err(EmptyResize(Size(512, 0)))
  {
    assert ScaledSide(1, 512, 1000) == 0;
  }

  // ---------------------------------------------------------------------------
  // Output path and command line

  /** The `_{width}x{height}` inserted before the extension of a default output path. */
  function SizeTag(target: Size): (tag: string)
    ensures '.' !in tag && '/' !in tag
  {
    "_" + Decimal.ShowInt(target.width) + "x" + Decimal.ShowInt(target.height)
  }

  /** `f"{base}_{width}x{height}{ext}"` with `base, ext = os.path.splitext(input_path)`. */
  function DefaultOutputPath(inputPath: string, target: Size): string {
    var (base, ext) := Paths.SplitExt(inputPath);
    base + SizeTag(target) + ext
  }

  /**
   * The default output path keeps the input's extension and directory: splitting it
   * again gives the input's root with the size tag appended, and the same extension.
   */
  lemma DefaultOutputKeepsExtension(inputPath: string, target: Size)
    ensures var (base, ext) := Paths.SplitExt(inputPath);
      Paths.SplitExt(DefaultOutputPath(inputPath, target)) == (base + SizeTag(target), ext)
  {
    Paths.SplitExtInsert(inputPath, SizeTag(target));
  }

  /** `resize_image`: the plan, and the path it saves to (the given one, else the default). */
  function ResizeImage(inputPath: string, original: Size, target: Size, outputPath: Option<string>,
                       name: string, thumb: Size, trunc: Trunc): (r: Result<(Plan, string), ResizeError>)
    requires Positive(original)
    requires Positive(target) ==> ThumbnailOk(original, target, thumb)
    ensures r.Ok? <==> ResizePlan(original, target, name, thumb, trunc).Ok?
    ensures r.Ok? ==> r.value.0 == ResizePlan(original, target, name, thumb, trunc).value
    ensures r.Ok? && outputPath.Some? ==> r.value.1 == outputPath.value
    ensures r.Ok? && outputPath.None? ==> r.value.1 == DefaultOutputPath(inputPath, target)
    ensures r.Ok? && outputPath.None? ==>
      Paths.SplitExt(r.value.1).1 == Paths.SplitExt(inputPath).1
  {
    var plan := ResizePlan(original, target, name, thumb, trunc);
    if plan.Err? then Err(plan.error)
    else
      var out := if outputPath.Some? then outputPath.value else DefaultOutputPath(inputPath, target);
      DefaultOutputKeepsExtension(inputPath, target);
      Ok((plan.value, out))
  }

  const DefaultSide: int := 512
  const MethodNames: seq<string> := ["contain", "cover", "stretch", "pad"]

  datatype CliError = Usage | InvalidInt(text: string) | NotFound(path: string) | UnknownMethod(name: string)

  datatype ResizeArgs = ResizeArgs(input: string, target: Size, output: Option<string>, methodName: string)

  /**
   * `main`'s argument handling over `sys.argv` (program name first): an input path,
   * then optional width, height, output path and method. A lone width gives a square
   * target; `existing` stands for the file system.
   */
  function ParseResizeArgs(argv: seq<string>, existing: set<string>): (r: Result<ResizeArgs, CliError>)
    ensures |argv| < 2 <==> r == Err(Usage)
    ensures r.Ok? ==> r.value.input == argv[1] && argv[1] in existing
    ensures r.Ok? ==> r.value.methodName == (if |argv| >= 6 then argv[5] else "contain")
    ensures r.Ok? ==> r.value.methodName in MethodNames
    ensures |argv| >= 6 && argv[5] !in MethodNames ==> r.Err?
    ensures r.Ok? ==> r.value.output == (if |argv| >= 5 then Some(argv[4]) else None)
    ensures r.Ok? && |argv| >= 3 ==> Decimal.ParseInt(argv[2]) == Some(r.value.target.width)
    ensures r.Ok? && |argv| >= 4 ==> Decimal.ParseInt(argv[3]) == Some(r.value.target.height)
    ensures r.Ok? && |argv| == 3 ==> r.value.target.height == r.value.target.width
    ensures r.Ok? && |argv| == 2 ==> r.value.target == Size(DefaultSide, DefaultSide)
    ensures (&& |argv| >= 2 && argv[1] in existing
             && (|argv| >= 3 ==> Decimal.ParseInt(argv[2]).Some?)
             && (|argv| >= 4 ==> Decimal.ParseInt(argv[3]).Some?)
             && (|argv| >= 6 ==> argv[5] in MethodNames)) ==> r.Ok?
  {
    if |argv| < 2 then Err(Usage)
    else
      var width := if |argv| >= 3 then Decimal.ParseInt(argv[2]) else Some(DefaultSide);
      if width.None? then Err(InvalidInt(argv[2]))
      else
        var height := if |argv| >= 4 then Decimal.ParseInt(argv[3])
                      else if |argv| >= 3 then width else Some(DefaultSide);
        if height.None? then Err(InvalidInt(argv[3]))
        else
          var output := if |argv| >= 5 then Some(argv[4]) else None;
          var methodName := if |argv| >= 6 then argv[5] else "contain";
          if argv[1] !in existing then Err(NotFound(argv[1]))
          else if methodName !in MethodNames then Err(UnknownMethod(methodName))
          else Ok(ResizeArgs(argv[1], Size(width.value, height.value), output, methodName))
  }

  /** With only an existing input, the target is 512x512 by contain, saved under the default name. */
  lemma ResizeDefaults(argv: seq<string>, existing: set<string>)
    requires |argv| == 2 && argv[1] in existing
    ensures ParseResizeArgs(argv, existing) == Ok(ResizeArgs(argv[1], Size(512, 512), None, "contain"))
  {
  }

  /** Arguments are checked in order: numbers first, then the input file, then the method. */
  lemma ResizeErrorOrder(argv: seq<string>, existing: set<string>)
    requires |argv| >= 6 && argv[1] !in existing && argv[5] !in MethodNames
    ensures Decimal.ParseInt(argv[2]).None? ==> ParseResizeArgs(argv, existing) == Err(InvalidInt(argv[2]))
    ensures Decimal.ParseInt(argv[2]).Some? && Decimal.ParseInt(argv[3]).Some? ==>
      ParseResizeArgs(argv, existing) == Err(NotFound(argv[1]))
  {
  }

  datatype MainError = Cli(cli: CliError) | Failed(resize: ResizeError)

  /**
   * `main`: parse the arguments, then resize. `original` is the input image's size
   * and `thumbnail` what Pillow's `thumbnail` gives it for a target box; `trunc` is
   * the floating-point `int(a * (b / c))`.
   */
  function ResizeMain(argv: seq<string>, existing: set<string>, original: Size, thumbnail: Size -> Size,
                      trunc: Trunc)
    : (r: Result<(Plan, string), MainError>)
    requires Positive(original)
    requires forall t :: Positive(t) ==> ThumbnailOk(original, t, thumbnail(t))
    ensures ParseResizeArgs(argv, existing).Err? ==> r == Err(Cli(ParseResizeArgs(argv, existing).error))
    ensures ParseResizeArgs(argv, existing).Ok? ==>
      var a := ParseResizeArgs(argv, existing).value;
      var plan := ResizePlan(original, a.target, a.methodName, thumbnail(a.target), trunc);
      (r.Ok? <==> plan.Ok?) &&
      (r.Ok? ==> r.value.0 == plan.value) &&
      (plan.Err? ==> r == Err(Failed(plan.error)))
    ensures r.Ok? ==>
      var args := ParseResizeArgs(argv, existing).value;
      FinalSize(r.value.0) == args.target &&
      r.value.1 == (if |argv| >= 5 then argv[4] else DefaultOutputPath(argv[1], args.target))
  {
    var args := ParseResizeArgs(argv, existing);
    if args.Err? then Err(Cli(args.error))
    else
      var a := args.value;
      var res := ResizeImage(a.input, original, a.target, a.output, a.methodName, thumbnail(a.target), trunc);
      if res.Err? then Err(Failed(res.error))
      else
        ResizeKeepsTargetSize(original, a.target, a.methodName, thumbnail(a.target), trunc);
        Ok(res.value)
  }
}
