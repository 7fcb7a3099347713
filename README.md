# Image-preparation scripts and storage helpers of a ComfyUI serverless worker, in Dafny

This project models the parts of the worker that compute things:

- **Tile-grid preparation** (`scripts/prepare_tile_grid.py`). Two tiles are pasted into a 2x2 grid, with the first tile in the left column and the second in the right. Three binary seam masks are then painted for inpainting: a vertical band, a horizontal band, and both together.
  - The masks are a `Mask` class over an `array2<int>`. Its methods paint pixel by pixel in nested loops.
  - Pillow's pixel access is modelled as the code meets it. A negative index counts from the end of its axis. An index outside `[-size, size)` raises IndexError, and the mask is then not returned.
  - The grid is a `Grid` class that records its pastes in order.
- **The grass-to-stone transition mask** (`scripts/create_grass_to_stone_mask.py`). A real-valued `array2` canvas gets these steps in order:
  1. The grass half is filled with 1.0.
  2. Patches and spots are blended in with `max`, cell by cell, in nested loops.
  3. A raised-cosine fade is multiplied in near the boundary.
  4. The canvas is truncated to 8-bit pixels.

  The square root, the power and the cosine are a `Kernels` value constrained only by their ranges. numpy's random draws are inputs.
- **Resizing for a workflow** (`scripts/resize_for_workflow.py`). This part is pure. It computes every size, crop box and paste offset that the stretch, cover, pad and contain methods produce, plus the default output name and the command line.
  - `int(a * (b / c))` is evaluated in floating point, so it is a parameter.
  - The exact floor is `ExactTrunc`.
  - Pillow's `thumbnail` size is a parameter, constrained to fit and never to enlarge.
- **Storage helpers** (`docker/utils.py`):
  - S3 path parsing and upload-key composition are functions.
  - `download_models` and `cleanup_outputs` are methods with loops. They return the downloads or removals they would perform, and each is proved equal to a recursive specification function.

Helper modules:

- `Wrappers`: Option and Result.
- `Decimal`: Python's `int()` on an argument, and `str()` of an int.
- `Paths`: `posixpath.basename`, `join` and `splitext`. `basename` and `splitext` are built on `str.rfind`.

## Model

| member | source | states |
|---|---|---|
| Decimal.ShowNat | scripts/resize_for_workflow.py:109 | the digits of a natural number denote it, with no leading zero except for 0 itself, which is "0" |
| Decimal.ShowInt | scripts/resize_for_workflow.py:109 | `str(n)` is non-empty, digits with an optional leading '-', without leading zeros, and contains no '.' or '/' |
| Decimal.ParseInt | scripts/resize_for_workflow.py:155-156 | `int(s)` succeeds only on a non-empty text, and does succeed on a digit run with or without a leading '-' or '+' (leading zeros allowed); an all-digit text gives a non-negative value |
| Decimal.ParseShowInt | scripts/resize_for_workflow.py:155-156 | reading back a printed integer gives the integer |
| Decimal.ParseRejectsNonDigit | scripts/resize_for_workflow.py:155-156 | any non-digit after the first character makes `int()` fail |
| Paths.Basename | docker/utils.py:64 | the basename contains no '/', is a suffix of the path, and is preceded by '/' when shorter than it |
| Paths.Join | docker/utils.py:65 | an absolute second part replaces the first; otherwise the result starts with the first part and ends with the second |
| Paths.ExtensionStart | scripts/resize_for_workflow.py:108 | the cut lies within the path; when it is before the end it is at a '.' after which there is no further '.' and no '/' |
| Paths.SplitExt | scripts/resize_for_workflow.py:108 | root + extension is the path; the extension is empty or one '.' followed by no '.' or '/' |
| Paths.BasenameOfJoin | docker/utils.py:64-65 | joining a directory and a plain file name gives back that file name as the basename |
| Paths.SplitExtInsert | scripts/resize_for_workflow.py:108-109 | inserting text without '.' or '/' before the extension keeps the same split |
| TileGrid.Wrap | scripts/prepare_tile_grid.py:77 | an accepted index designates pixel `i` or `i + n`, inside the axis |
| TileGrid.Mask.constructor | scripts/prepare_tile_grid.py:66 | a new mask has the given size and is all black |
| TileGrid.Mask.Put | scripts/prepare_tile_grid.py:77 | a pixel write succeeds exactly for indexes in `[-size, size)`, changes only the designated pixel, and changes nothing when it raises |
| TileGrid.Mask.PaintColumns | scripts/prepare_tile_grid.py:75-77 | the column loops raise exactly when rows exist and the band leaves `[-width, width]`; otherwise exactly the columns the band reaches are white and the rest are unchanged |
| TileGrid.Mask.PaintRows | scripts/prepare_tile_grid.py:100-102 | the row loops raise exactly when columns exist and the band leaves `[-height, height]`; otherwise exactly the rows the band reaches are white and the rest are unchanged |
| TileGrid.CreateVerticalSeamMask | scripts/prepare_tile_grid.py:59-83 | null exactly on IndexError; otherwise a grid-sized mask whose every pixel is the vertical seam value of its column |
| TileGrid.CreateHorizontalSeamMask | scripts/prepare_tile_grid.py:86-108 | null exactly on IndexError; otherwise a grid-sized mask whose every pixel is the horizontal seam value of its row |
| TileGrid.CreateCombinedSeamMask | scripts/prepare_tile_grid.py:111-141 | null exactly when either band raises; otherwise every pixel is the larger of the two single-seam values (the cross) |
| TileGrid.SeamBandWidth | scripts/prepare_tile_grid.py:69-71 | the band is `2 * (seam_width // 2)` wide and symmetric about the midline; an odd width loses one pixel |
| TileGrid.SeamInside | scripts/prepare_tile_grid.py:69-71 | a seam no wider than the grid lies inside it and paints exactly `[lo, hi)` with no wrap |
| TileGrid.VerticalSeamExact | scripts/prepare_tile_grid.py:69-77 | for a seam no wider than the grid, a column is white if and only if it lies in `[gw//2 - sw//2, gw//2 + sw//2)`, and black otherwise |
| TileGrid.HorizontalSeamExact | scripts/prepare_tile_grid.py:94-102 | for a seam no wider than the grid, a row is white if and only if it lies in `[gh//2 - sw//2, gh//2 + sw//2)`, and black otherwise |
| TileGrid.NarrowSeamPaintsNothing | scripts/prepare_tile_grid.py:69-71 | a seam width below 2 paints nothing |
| TileGrid.OverwideSeamWraps | scripts/prepare_tile_grid.py:74-77 | on an odd axis a seam one pixel wider than the axis reaches index -1, raises nothing, and whitens the whole axis |
| TileGrid.OverwideSeamRaises | scripts/prepare_tile_grid.py:74-77 | on an even axis any seam wider than axis + 1 raises IndexError |
| TileGrid.DefaultVerticalSeamOn1024 | scripts/prepare_tile_grid.py:69-77 | a 1024-pixel grid with the default 128-pixel seam is white exactly on columns 448 to 575 |
| TileGrid.StripeIsHorizontalSeam1024 | scripts/test_mask.py:11 | the test stripe `[512, 1536)` on 2048 rows is the horizontal seam of width 1024 |
| TileGrid.StripeIsHorizontalSeam640 | scripts/test_mask2.py:9 | the test stripe `[704, 1344)` on 2048 rows is the horizontal seam of width 640 |
| TileGrid.Grid.constructor | scripts/prepare_tile_grid.py:43 | a new canvas has the given size and no pastes |
| TileGrid.Grid.Paste | scripts/prepare_tile_grid.py:46-49 | a paste is appended after the earlier ones |
| TileGrid.Create2x2Grid | scripts/prepare_tile_grid.py:20-56 | the second tile is resized exactly when the sizes differ; the grid is twice the first tile's size, with the four pastes in source order |
| TileGrid.GridLayout | scripts/prepare_tile_grid.py:42-49 | every grid pixel shows the first tile in the left half and the second in the right half, in both rows |
| TileGrid.GridNothingOutside | scripts/prepare_tile_grid.py:42-49 | no paste reaches outside the grid |
| TileGrid.ParseTileGridArgs | scripts/prepare_tile_grid.py:145-170 | usage error exactly below two tiles; the output directory defaults to `./tile_grid` and the seam width to 128; the arguments succeed exactly when both tiles exist and a given seam width parses |
| TileGrid.BadSeamWidthFirst | scripts/prepare_tile_grid.py:161-170 | an unparsable seam width is reported before a missing tile |
| TileGrid.TileGridDefaults | scripts/prepare_tile_grid.py:158-161 | two existing tiles alone give `./tile_grid` and 128 |
| TileGrid.TileGridOutputs | scripts/prepare_tile_grid.py:185-192 | each of the four output paths starts with the output directory and ends with its file name |
| TileGrid.PrepareTileGrid | scripts/prepare_tile_grid.py:144-196 | argument errors pass through; otherwise the run fails exactly when a seam band raises; a successful run has the 2x2 grid and the three masks of the grid's size with their seam values |
| TileGrid.DefaultSeamFits | scripts/prepare_tile_grid.py:161 | the default seam never raises on tiles at least 64 pixels on each side |
| GrassToStone.ParseSide | scripts/create_grass_to_stone_mask.py:44-65 | a side is accepted if and only if it is top, bottom, left or right |
| GrassToStone.SideLayout | scripts/create_grass_to_stone_mask.py:44-63 | the boundary, stone area and fade direction of each side; stated by StoneIsComplement |
| GrassToStone.StoneIsComplement | scripts/create_grass_to_stone_mask.py:44-63 | the stone area is exactly the canvas minus the grass half; the boundary and the fade direction follow the side |
| GrassToStone.DiscValue | scripts/create_grass_to_stone_mask.py:82-101 | a disc reaches offset (dy, dx) only inside its window and below its radius, with `(1 - dist/r) ** exponent`; stated by DiscValueInUnit and BlendBounds |
| GrassToStone.DiscValueInUnit | scripts/create_grass_to_stone_mask.py:98-101 | a patch's falloff lies in [0, 1] |
| GrassToStone.BlendBounds | scripts/create_grass_to_stone_mask.py:98-102 | blending never lowers a cell, keeps it in [0, 1], and leaves 1.0 at 1.0 |
| GrassToStone.FadeFactor | scripts/create_grass_to_stone_mask.py:132-136 | the raised-cosine factor of a row or column; stated by FadeFactorProperties |
| GrassToStone.FadeFactorProperties | scripts/create_grass_to_stone_mask.py:132-136 | the fade factor lies in [0, 1] and is 1.0 at or beyond `edge_fade` and on the boundary itself |
| GrassToStone.Quantise | scripts/create_grass_to_stone_mask.py:156 | the conversion of one value to 8 bits; stated by QuantiseProperties |
| GrassToStone.QuantiseProperties | scripts/create_grass_to_stone_mask.py:156 | truncation to 8 bits maps [0, 1] into [0, 255] monotonically, with 1.0 to 255 and 0.0 to 0 |
| GrassToStone.FillGrass | scripts/create_grass_to_stone_mask.py:44-63 | exactly the grass half is set to 1.0 and the rest is unchanged |
| GrassToStone.CompositeDiscRow | scripts/create_grass_to_stone_mask.py:83-102 | after the inner loop of one row, each cell of that row is its old value blended with the disc's contribution, cells off the canvas are skipped, and every other cell is unchanged |
| GrassToStone.CompositeDisc | scripts/create_grass_to_stone_mask.py:82-102 | after one patch's loops, every cell is its old value blended with the patch's falloff; cells off the canvas are skipped, not wrapped |
| GrassToStone.PatchDiscs | scripts/create_grass_to_stone_mask.py:73-101 | one disc per drawn patch, in drawing order, with radius `patch_size * (0.6 + noise)` and exponent 1.5 |
| GrassToStone.SpotDiscs | scripts/create_grass_to_stone_mask.py:105-122 | one disc per drawn spot, in drawing order, with radius `spot_size` and exponent 2 |
| GrassToStone.CompositedBounds | scripts/create_grass_to_stone_mask.py:73-123 | blending a sequence of discs never lowers a cell, keeps [0, 1] values in [0, 1], and leaves 1.0 at 1.0 |
| GrassToStone.CompositedIsMax | scripts/create_grass_to_stone_mask.py:102 | after the discs, a cell holds the largest of its starting value and every contribution that reaches it, whatever their order |
| GrassToStone.CompositedStep | scripts/create_grass_to_stone_mask.py:73-123 | one more disc blends one more contribution into the value after the earlier discs |
| GrassToStone.CompositeDiscs | scripts/create_grass_to_stone_mask.py:73-123 | the patch loop and the spot loop leave every cell at its starting value with all their discs blended in, in order |
| GrassToStone.ComposedInUnit | scripts/create_grass_to_stone_mask.py:41-123 | after the fill, the patches and the spots, every cell lies in [0, 1] and grass cells are 1.0 |
| GrassToStone.ComposeMask | scripts/create_grass_to_stone_mask.py:73-123 | on the filled canvas, the two loops leave every cell at its composed value, inside [0, 1] |
| GrassToStone.ProductInUnit | scripts/create_grass_to_stone_mask.py:139 | multiplying a value of [0, 1] by a factor of [0, 1] stays in [0, 1] |
| GrassToStone.Faded | scripts/create_grass_to_stone_mask.py:139-153 | a cell's value times its row's or column's fade factor; its bounds are stated by ProductInUnit and CellValueProperties |
| GrassToStone.ApplyFade | scripts/create_grass_to_stone_mask.py:126-153 | every cell is multiplied by the fade factor of its row (vertical) or column (horizontal) and nothing else changes; the bounds follow from CellValueProperties |
| GrassToStone.CellValueProperties | scripts/create_grass_to_stone_mask.py:41-153 | every final value lies in [0, 1]; a grass cell whose fade factor is 1.0 ends at exactly 1.0 |
| GrassToStone.ToImage | scripts/create_grass_to_stone_mask.py:156 | each pixel is the truncated `value * 255`, in [0, 255] |
| GrassToStone.RenderMask | scripts/create_grass_to_stone_mask.py:73-156 | from the filled canvas, the patch loop, the spot loop and the fade leave every cell at its final value, and each pixel of the new image is that value truncated to 8 bits |
| GrassToStone.CreateGrassToStoneMask | scripts/create_grass_to_stone_mask.py:16-168 | ValueError for a negative size (from `np.zeros`), for an unknown side, and for an empty randint range (exactly when patches are drawn and the stone half is too small or the patch size range is empty); otherwise the image has the canvas size, each pixel is the truncated final value of fill, patches, spots and fade, every pixel lies in [0, 255], and grass pixels whose fade factor is 1.0 are 255 |
| Resize.MethodOf | scripts/resize_for_workflow.py:40-78 | stretch, cover and pad are chosen by name only; any other name is contain |
| Resize.CoverPlan | scripts/resize_for_workflow.py:45-65 | the cover branch's scaled size and centred crop box; stated by CoverCropCentred and CoverProperties |
| Resize.ContainPlan | scripts/resize_for_workflow.py:78-103 | the contain branch's scaled size and the padding it needs; stated by ContainPadCentred and ContainProperties |
| Resize.ScaledSide | scripts/resize_for_workflow.py:53 | the exact value of `int(a * (b / c))` is the floor of a*b/c |
| Resize.ResizePlan | scripts/resize_for_workflow.py:39-103 | a non-positive target fails, and only that fails before resizing; each method name yields its own kind of plan |
| Resize.ResizeKeepsTargetSize | scripts/resize_for_workflow.py:39-103 | whatever the method and the rounding, a successful resize saves an image of exactly the target size |
| Resize.CoverCropCentred | scripts/resize_for_workflow.py:61-64 | when the scaled image covers the target, the crop box is the target-sized window centred in it |
| Resize.CoverProperties | scripts/resize_for_workflow.py:47-57 | in exact arithmetic cover matches the target on one side, covers it on the other, and keeps the aspect ratio up to truncation |
| Resize.ContainPadCentred | scripts/resize_for_workflow.py:94-100 | a scaled image that fits is padded exactly when it differs from the target, and is centred |
| Resize.ContainProperties | scripts/resize_for_workflow.py:80-90 | in exact arithmetic contain matches the target on one side, fits inside it on the other, and keeps the aspect ratio up to truncation |
| Resize.PadProperties | scripts/resize_for_workflow.py:67-75 | pad centres the thumbnail on a target-sized canvas and never enlarges the image |
| Resize.UnknownMethodIsContain | scripts/resize_for_workflow.py:78 | an unrecognised method behaves exactly like contain |
| Resize.ContainTooWide | scripts/resize_for_workflow.py:83-92 | a 1000x1 image contained in 512x512 truncates to height 0, and Pillow's resize fails |
| Resize.SizeTag | scripts/resize_for_workflow.py:109 | the `_WxH` tag contains no '.' or '/' |
| Resize.DefaultOutputPath | scripts/resize_for_workflow.py:107-109 | `{base}_{w}x{h}{ext}`; stated by DefaultOutputKeepsExtension |
| Resize.DefaultOutputKeepsExtension | scripts/resize_for_workflow.py:107-109 | the default output path splits into the input's root plus the tag, and the input's extension |
| Resize.ResizeImage | scripts/resize_for_workflow.py:19-116 | fails exactly when the plan fails; saves to the given path, or else to the default path `{base}_{w}x{h}{ext}`, which keeps the input's extension |
| Resize.ParseResizeArgs | scripts/resize_for_workflow.py:119-172 | usage error exactly below one argument; an input alone gives 512x512 and a lone width a square; the method is `argv[5]`, else contain, and an unknown one is rejected; the arguments succeed exactly when the input exists, the given numbers parse and the given method is one of the four |
| Resize.ResizeDefaults | scripts/resize_for_workflow.py:154-162 | an input alone gives 512x512, contain and the default name |
| Resize.ResizeErrorOrder | scripts/resize_for_workflow.py:154-172 | bad numbers are reported before a missing input, and a missing input before an unknown method |
| Resize.ResizeMain | scripts/resize_for_workflow.py:119-178 | argument errors pass through; with valid arguments the run succeeds exactly when the plan for the parsed target and method succeeds, with that plan, and otherwise fails with the plan's error; a successful run saves an image of the target size at the given or default path |
| Storage.StripScheme | docker/utils.py:92-93 | `s3://` is removed only when the path starts with it |
| Storage.IndexOf | docker/utils.py:95 | the first '/' is found, or -1 when there is none |
| Storage.ParseS3Path | docker/utils.py:92-97 | the bucket has no '/'; bucket + '/' + key is the stripped path, or the key is empty when it has no '/' |
| Storage.ParseS3RoundTrip | docker/utils.py:92-97 | `s3://bucket/key` parses back to the bucket and the key for any bucket without '/' |
| Storage.ParseBareRoundTrip | docker/utils.py:92-97 | `bucket/key` without the scheme parses the same way, except for a bucket spelled `s3:` |
| Storage.UploadKey | docker/utils.py:112-113 | the key is the prefix with no separator added, then the basename |
| Storage.UploadKeyBasename | docker/utils.py:112-113 | with an empty prefix or one ending in '/', the key's last component is the file's basename |
| Storage.ModelDir | docker/utils.py:46-52 | exactly the five known types have a directory, `/comfyui/models/<type>` |
| Storage.PlanEntry | docker/utils.py:61-86 | the rules for one entry: a string goes to `dir/basename(url)`; a dict needs a non-empty filename, and `url` wins over `s3`; an existing destination is never fetched |
| Storage.DownloadModelList | docker/utils.py:61-86 | the inner loop plans exactly the specified downloads for one model list |
| Storage.DownloadModels | docker/utils.py:54-86 | the outer loop plans exactly the specified downloads for the whole configuration |
| Storage.PlanModelsFreshDistinct | docker/utils.py:61-86 | within one list no download overwrites an existing path and no destination repeats |
| Storage.PlanConfigFreshDistinct | docker/utils.py:54-86 | across the configuration no download overwrites an existing path and no destination repeats |
| Storage.UnknownTypesIgnored | docker/utils.py:54-58 | dropping unknown model types changes no download |
| Storage.UrlEntryKeepsName | docker/utils.py:62-68 | a bare URL is saved under its own file name |
| Storage.DictEntryDestination | docker/utils.py:76 | a dict entry lands in its type's directory when its filename is relative; an absolute filename replaces the directory |
| Storage.Expired | docker/utils.py:136-140 | which listed entries are old enough to remove; stated by CleanupExact and CleanupMonotone |
| Storage.CleanupOutputs | docker/utils.py:129-142 | the loop removes exactly the specified paths, in listing order |
| Storage.CleanupExact | docker/utils.py:129-142 | a path is removed if and only if a listed regular file at that path is strictly older than the limit, so directories are never removed |
| Storage.CleanupMonotone | docker/utils.py:140 | a longer age limit removes a subset of what a shorter one removes |
| Storage.DefaultLimitIsStrict | docker/utils.py:129-140 | with the default 60 minutes, a file exactly one hour old stays and one a microsecond older goes |

## Left out

- File and network I/O are not modelled:
  - opening and saving images;
  - `print`;
  - `os.makedirs`;
  - `requests` streaming in `download_file`;
  - `boto3` downloads, uploads and the presigned URL of `upload_to_s3`.

  The file system is the set of paths that exist. Image files are their sizes.
- Storage.PlanModels and Storage.PlanConfig: `os.makedirs` (docker/utils.py:21, 102) also creates the destination's parent directories, which later `os.path.exists` checks would see. The model adds only the destination to the set of existing paths.
- Pixel colours and resampling (LANCZOS, RGB conversion) are not modelled. The grid records which tile each paste shows, and resize plans record sizes, boxes and offsets.
- A failed network or S3 call aborts `download_models` midway. The model assumes every download succeeds.
- numpy's random stream is not modelled; its draws are the `patches` and `spots` inputs. The order in which noise is drawn per cell is not modelled, and neither is the fixed seed.
- GrassToStone: values are exact reals. float32 rounding is not modelled. The square root, power and cosine are constrained only by their ranges and by cos 0 = 1, so nothing bit-exact is claimed.
- GrassToStone.Quantise: numpy's `astype(np.uint8)` wraps values outside [0, 255]. Only values in [0, 1] reach it (CellValueProperties), so the wrap is not modelled.
- At the boundary the fade factor is `0.5 + 0.5 * cos(0) = 1.0`, so the boundary row or column is not darkened (FadeFactorProperties).
- `patch_density` is accepted and never read, as in the code.
- The argparse command line of the grass mask script (create_grass_to_stone_mask.py:171-195) is not modelled; its parsing is library behaviour.
- Resize.ResizePlan folds every failure from a non-positive target into one error: the ZeroDivisionError of the aspect ratio and Pillow's ValueError. Which exception is raised is not tracked.
- The size Pillow's `thumbnail` computes is a parameter, constrained to fit the target and the original.
- Resize.WiderThanTarget: `aspect_img > aspect_target` compares two float quotients; the model compares the exact ratios. The two agree while the products of the sides stay below about 2^52.
- The floating-point `int(a * (b / c))` is a parameter. CoverProperties and ContainProperties hold only for the exact floor.
- Decimal.ParseInt: Python's `int()` also accepts surrounding whitespace, `_` separators and non-ASCII digits. These are not modelled.
- Storage: a dict entry's values are taken as strings. A non-string `url` or `filename` value is not modelled.
- Modification times are integer microseconds. The float `getmtime` and `datetime.fromtimestamp` rounding are not modelled.
- Files in `docker/handler.py`, `local-setup/send-to-runpod.py`, `scripts/create_irregular_mask.py` and `scripts/test-handler.py` are not part of this model.
