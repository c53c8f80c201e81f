# quadtree-over-media, modelled in Dafny

quadtree-over-media splits a picture into a quadtree of rectangles ("quads"), then draws the tree back.

The **builder** (`calc_quads`, src/quad.rs) works level by level:

- It halves the current quad size.
- At each level it offers every surviving quad four children.
- It keeps a split unless the four children's per-channel average colours lie within a threshold. Two conditions override this: below a minimum depth with colours not kept, the split is always taken; and splitting stops at `max_depth` or at the minimum quad size.
- The result is a map from top-left corner to leaf (`Quad`: depth and optional average colour), plus the list of sizes per depth.

The **renderer** (src/drawing.rs) draws that structure in one of two ways:

- `draw_quads_simple` draws every leaf's outline over a copy of the original.
- `draw_quads` draws on a fresh canvas. Each leaf that passes an optional colour-range filter becomes either an outline filled with its average, or an overlay image (resized through a cache, optionally tinted, optionally outlined). Each rectangle first grows by one pixel where halving an odd size left a seam.

The **argument parser** `parse_vec2` (src/args.rs) reads sizes such as `[4,4]`. `Vec2` (src/utils.rs) is the coordinate/size pair everything shares.

The project is organised as follows.

- `wrappers.dfy` (`Wrappers`): `Option` and `Result`.
- `vectors.dfy` (`Vectors`): `Vec2` as a pair of `u32`, its `new`, `smaller`, halving and `Display`.
- `pixels.dfy` (`Pixels`): RGBA pixels and images as immutable values indexed `rows[y][x]`.
- `quad.dfy` (`Quadtree`):
  - the builder: `GenerateSubnodes`, `AreLeThreshold`, the averaging loop `AverageColors`, and the level loop of `calc_quads` as the method `CalcQuads`;
  - `CalcQuads` is proved equal to the pure specification `Build`, which is defined level by level (`Levels`, `LevelOut`, `Subdivide`).
- `quad_props.dfy` (`QuadtreeProps`): what `Build` guarantees, as lemmas:
  - the size list;
  - leaves that fit the image;
  - leaf colours that are the averages of their own rectangles;
  - the three reasons the loop stops;
  - the behaviour on uniform images;
  - the consequences of the size comparison.
- `drawing.dfy` (`Drawing`):
  - the colour rules and `AdjustQuadSize`;
  - the painters over a mutable canvas (`array2`): `DrawSquare`, `PasteTile`, `DrawImage` with its `ResizeCache` class, `DrawQuads` and `DrawQuadsSimple`.
  - What a painter writes is described by `Stroke`s. `Compose` lays a sequence of strokes over a base colour, and the last stroke that touches a pixel wins. Every painter is proved to leave each canvas pixel equal to the composition of its strokes over the old pixel.
- `drawing_props.dfy` (`DrawingProps`):
  - the arithmetic of `multiply_pixels` and the cases of `apply_background_color`;
  - the colour-range filter;
  - the seam adjustment;
  - where a drawn canvas can differ from its background.
- `args.dfy` (`Args`) and `args_props.dfy` (`ArgsProps`): `parse_vec2`, its three errors, their order, and the `Display` round trip.

The three error messages of src/args.rs:147-149 are `Args.VecError.Message`. The builder constants of src/quad.rs:21-24 are `Quadtree.DEFAULT_MIN_DEPTH`, `DEFAULT_COLOR`, `DEFAULT_THRESHOLD` and `DEFAULT_MIN_SIZE`.

Conventions of the model:

- Map iteration order, in both renderers, is an explicit `order` parameter that enumerates the keys once each (`EnumeratesKeys`).
- The Gaussian `resize_exact` is a parameter `resize`. It is only required to return an image of the requested size (`ResizeOk`).
- The parallel map over the frontier at src/quad.rs:70-97 is run in frontier order. An order-preserving `collect` produces the same sequence.

## Model

| member | source | states |
|---|---|---|
| Vectors.New | src/utils.rs:9-11 | the zero vector; no vector is `smaller` than it |
| Vectors.Half | src/quad.rs:55 | the halves and remainders span the parent exactly on each axis (`half + mod + half == v`), with a remainder of 0 or 1 |
| Vectors.Decimal | src/utils.rs:16-20 | the decimal form `{}` prints: non-empty, digits only, no leading zero except for 0 |
| Vectors.SmallerIsIrreflexive | src/utils.rs:12-14 | no vector is `smaller` than itself |
| Vectors.SmallerIffNotAtLeast | src/utils.rs:12-14 | `smaller` holds exactly when the vector is not at least the other on both axes |
| Quadtree.GenerateSubnodes | src/quad.rs:121-146 | four children, each a fresh leaf at the given depth without a colour |
| Quadtree.AreLeThreshold | src/quad.rs:148-156 | true iff, in every channel, the maximum minus the minimum of the four averages is at most the threshold's channel |
| Quadtree.RowSum | src/quad.rs:163-169 | the channel total of a run of `w` pixels is at most `255 * w` |
| Quadtree.RectSum | src/quad.rs:160-169 | the channel total over a `w` by `h` view is at most `255 * w * h` |
| Quadtree.ChannelMean | src/quad.rs:170-175 | the truncated mean: `m * n <= total < (m + 1) * n` for the pixel count `n`, so it fits `u8` |
| Quadtree.AverageColors | src/quad.rs:159-176 | the accumulation loop over the view returns exactly the per-channel floor means `Average` |
| Quadtree.AccumulateRow | src/quad.rs:163-169 | one row of the pixel loop adds that row's channel totals to `tot` and its width to the count |
| Quadtree.MeanOfTotals | src/quad.rs:170-175 | the accumulated totals divided by the count are the channel means, and the count is positive |
| Quadtree.Subdivide | src/quad.rs:73-94 | an accepted node gives four children, each at the halved size, at the current depth, inside the image, coloured by its own average when colours are kept and uncoloured otherwise |
| Quadtree.LevelOut | src/quad.rs:70-97 | every quad a level produces is such a child |
| Quadtree.InsertAll | src/quad.rs:99-103 | the map's keys after merging are the old keys plus every produced position |
| Quadtree.FloorLog2 | src/quad.rs:42 | `2^k <= n < 2^(k+1)` for positive `n`, and 0 for `n < 2` |
| Quadtree.SplitNode | src/quad.rs:73-94 | the closure for one node returns exactly `Subdivide` |
| Quadtree.LevelOutStep | src/quad.rs:70-97 | the output for a frontier prefix grows by exactly the next node's children, or by nothing |
| Quadtree.SplitFrontier | src/quad.rs:70-97 | the loop over the frontier returns exactly `LevelOut`, the children of accepted nodes in frontier order |
| Quadtree.Merge | src/quad.rs:99-103 | the map gains every produced quad and the new frontier is their positions; the sizes are unchanged |
| Quadtree.LevelLoop | src/quad.rs:45-105 | the `while` loop computes exactly the level-by-level specification `Levels` from the image size and the origin |
| Quadtree.CalcQuads | src/quad.rs:27-118 | `calc_quads` returns exactly `Build`, with the component-wise size check: the loop's structure plus, when colours are kept and the origin is free, a depth-0 root with the whole-image average |
| QuadtreeProps.SubnodesSplitParent | src/quad.rs:121-146 | the children sit at the four corner offsets (`size + mod`, the cases at src/quad.rs:202-213); they lie in the parent and do not overlap; the only parent pixels they leave uncovered are the one-pixel seams an odd size leaves |
| QuadtreeProps.ThresholdExamples | src/quad.rs:233-240 | the five threshold cases, the equality case included |
| QuadtreeProps.UniformAverage | src/quad.rs:159-176 | a rectangle of one colour averages to that colour (the "all white" and "all black" cases at src/quad.rs:258-259) |
| QuadtreeProps.InsertAllSource | src/quad.rs:99-103 | a merged entry is either the old entry (not overwritten) or the last produced quad at that position |
| QuadtreeProps.SizesStep | src/quad.rs:55-61 | appending the next halved size keeps the size list's invariant |
| QuadtreeProps.EntryStep | src/quad.rs:70-103 | every merged entry is a leaf that fits its depth's size inside the image, with the right colour |
| QuadtreeProps.LevelStep | src/quad.rs:53-105 | one round keeps the whole invariant (sizes, entries, frontier within the image) |
| QuadtreeProps.LevelsKeepState | src/quad.rs:53-105 | the loop keeps the invariant and ends for one of its three reasons |
| QuadtreeProps.RootEntry | src/quad.rs:107-116 | adding the depth-0 root keeps every entry well formed, and only the origin has depth 0 |
| QuadtreeProps.BuildOk | src/quad.rs:27-118 | the built structure has a valid size list and well-formed entries, its only depth-0 entry is the coloured root, and the loop stopped |
| QuadtreeProps.BuildSizes | src/quad.rs:42-61 | `sizes[0]` is the image size; each later size is the floor half of the one before and at least the minimum on both axes; there are at most `max(1, max_depth)` sizes |
| QuadtreeProps.BuildLeavesFit | src/quad.rs:53-116 | every leaf's depth has a recorded, non-empty size and the leaf's rectangle lies inside the image |
| QuadtreeProps.BuildLeafColors | src/quad.rs:86-116 | a leaf has a colour iff colours are kept, and that colour is the average of the leaf's own rectangle |
| QuadtreeProps.BuildColoredHasOrigin | src/quad.rs:107-116 | with colours kept, the origin always holds a leaf |
| QuadtreeProps.BuildStops | src/quad.rs:53-61 | the loop ends at `max_depth`, or because the next halving is below the minimum, or because the last level accepted no split |
| QuadtreeProps.SubdivideShortcut | src/quad.rs:74-75 | up to `min_depth` without colours, every split is taken without averaging |
| QuadtreeProps.SubdivideRejects | src/quad.rs:75-84 | otherwise a split is rejected iff no two children's averages differ by more than the threshold in any channel |
| QuadtreeProps.LevelOutHasChildren | src/quad.rs:70-97 | an accepted node's four children appear together, in order, in the level's output |
| QuadtreeProps.AcceptedChildrenRecorded | src/quad.rs:70-103 | an accepted node's children are all keys of the merged map and all in the next frontier |
| QuadtreeProps.LevelOutFromAccepted | src/quad.rs:70-97 | every produced quad is a child of some accepted frontier node |
| QuadtreeProps.Pow2Monotonic | src/quad.rs:42 | powers of two grow with the exponent |
| QuadtreeProps.FloorLog2Unique | src/quad.rs:42 | the integer log2 is the unique `k` with `2^k <= n < 2^(k+1)` |
| QuadtreeProps.MaxDepthBound | src/quad.rs:42 | `4^max_depth` never exceeds the pixel count |
| QuadtreeProps.UniformChildren | src/quad.rs:121-146 | the first four children of a uniform image are uniform and inside the image |
| QuadtreeProps.UniformImageSingleRoot | src/quad.rs:27-118 | with colours kept, a uniform image gives one depth-0 root of that colour and the sizes of depths 0 and 1, when the first split is tried |
| QuadtreeProps.UniformSquareExample | src/quad.rs:188-200 | a uniform 64 by 64 image gives the root only and sizes `[64;64], [32;32]` |
| QuadtreeProps.Expand | src/quad.rs:70-103 | splitting every node of a frontier unconditionally gives four children per node, all inside the image at the halved size |
| QuadtreeProps.LexShortcutRun | src/quad.rs:53-105 | under a lexicographic `<`, the sizes the loop records extend the given ones by successive halvings, none lexicographically below the minimum |
| QuadtreeProps.LexShortcutStep | src/quad.rs:53-105 | a level at or below `min_depth` without colours records the halved size and continues from four children per node |
| QuadtreeProps.ThinImageLexLevels | src/quad.rs:53-105 | under a lexicographic `<`, a 1024 by 4 image records `[1024;4]` down to `[32;0]` and reaches depth 5 with a frontier of 256 nodes of size `[64;0]` |
| QuadtreeProps.LexShortcutPastMinDepth | src/quad.rs:55-75 | past `min_depth` at size `[64;0]`, the size `[32;0]` is recorded and the nodes go on to be averaged |
| QuadtreeProps.LexOrderReachesEmptyQuads | src/quad.rs:42-105 | under a lexicographic `<`, with the default arguments and no colours, a 1024 by 4 image reaches depth 5, past `min_depth` and below `max_depth` 6, with 256 nodes of size `[64;0]`, whose `[32;0]` children are averaged over no pixels |
| QuadtreeProps.ThinImageStopsAtFirstHalving | src/quad.rs:53-61 | with the component-wise check, the same image records only its own size |
| QuadtreeProps.LexLessIsStricter | src/quad.rs:57 | lexicographically below implies `smaller`; `[8;2]` is `smaller` than the minimum but not lexicographically below it |
| Drawing.MulChannel | src/drawing.rs:201-208 | one channel of the product, truncated: `r * 255 <= a * b < (r + 1) * 255`, and never above either factor |
| Drawing.MultiplyPixels | src/drawing.rs:201-208 | every channel, alpha included, is the floor of `a * b / 255` |
| Drawing.MapPixels | src/drawing.rs:171-199 | the same dimensions, with the function applied to every pixel |
| Drawing.MultiplyImageBy | src/drawing.rs:171-182 | the same dimensions, with every pixel multiplied by the factor |
| Drawing.ApplyBackgroundColor | src/drawing.rs:184-199 | the same dimensions, with every pixel flattened onto the colour |
| Drawing.AdjustQuadSize | src/drawing.rs:210-245 | each axis grows by exactly one iff the far edge is inside the bounds and no quad starts right past it; otherwise it is unchanged; it never leaves the bounds |
| Drawing.PaintWithinExtent | src/drawing.rs:106-161 | a stroke paints nothing outside its rectangle |
| Drawing.ImageStrokes | src/drawing.rs:152-160 | the tile pasted at the leaf's position, of the tile's size, then, exactly when a border colour is given, an outline of the rectangle in that colour |
| Drawing.PaintRow | src/drawing.rs:123-125 | the run of the row is set to the colour and nothing else changes |
| Drawing.PaintColumn | src/drawing.rs:126-128 | the run of the column is set to the colour and nothing else changes |
| Drawing.FillInterior | src/drawing.rs:113-121 | the rectangle without its top row and left column takes the fill colour and nothing else changes |
| Drawing.DrawSquare | src/drawing.rs:106-129 | every pixel is what the outline stroke paints there (top row and left column in the border colour, the rest in the fill when given) or what it was |
| Drawing.PasteRow | src/drawing.rs:152-156 | one tile row is written from its column and nothing else changes |
| Drawing.PasteTile | src/drawing.rs:152-156 | the tile is written with its corner at the position and nothing else changes |
| Drawing.ResizeCache.constructor | src/drawing.rs:51 | a new cache is empty |
| Drawing.DrawImage | src/drawing.rs:133-161 | the cache entry for the size is kept when present and otherwise inserted as the resized image; no other entry changes; the canvas shows that tile, tinted when asked, then the optional outline |
| Drawing.Adjusted | src/drawing.rs:70-75 | a leaf's adjusted rectangle is non-empty and inside the canvas |
| Drawing.QuadStrokes | src/drawing.rs:59-99 | a leaf that fails the filter paints nothing; one that passes paints the resized quad image if there is one, else an outline, and a second stroke exactly when it has both a quad image and a border; every stroke is at its position and within its adjusted rectangle |
| Drawing.DrawQuad | src/drawing.rs:59-99 | one loop round leaves each pixel equal to that leaf's strokes over the old pixel and keeps the cache consistent; the cache gains exactly the leaf's adjusted size when it passes and there is a quad image |
| Drawing.DrawNext | src/drawing.rs:59-100 | a canvas showing the first `i` leaves comes to show the first `i + 1`, and the cache keys grow from the tile sizes of the first `i` leaves to those of the first `i + 1` |
| Drawing.DrawQuads | src/drawing.rs:44-102 | a canvas of `sizes[0]` equal, pixel by pixel, to every leaf's strokes in map order over the background (transparent when absent); every cache entry stays the resize of the quad image, and the cache keys become the old keys plus the adjusted size of every passing leaf when there is a quad image, and stay the same otherwise |
| Drawing.SimpleStrokes | src/drawing.rs:30-38 | one outline per leaf, in order |
| Drawing.CanvasOf | src/drawing.rs:28 | the canvas is a pixel-for-pixel copy of the original |
| Drawing.DrawSimpleQuad | src/drawing.rs:30-37 | one leaf's outline, at its depth's size, in the override, own or default colour, over the old pixels |
| Drawing.DrawSimpleNext | src/drawing.rs:30-38 | a canvas showing the first `i` outlines comes to show the first `i + 1` |
| Drawing.DrawQuadsSimple | src/drawing.rs:22-40 | the original with every leaf's outline drawn over it in map order |
| DrawingProps.MultiplyExamples | src/drawing.rs:253-260 | the five `multiply_pixels` cases |
| DrawingProps.MultiplyByWhite | src/drawing.rs:201-208 | multiplying by opaque white is the identity |
| DrawingProps.MultiplyByZero | src/drawing.rs:201-208 | multiplying by transparent black gives transparent black |
| DrawingProps.MultiplyCommutes | src/drawing.rs:201-208 | the factors commute |
| DrawingProps.MultiplyDarkens | src/drawing.rs:201-208 | no channel of the product exceeds either factor's |
| DrawingProps.FlattenCases | src/drawing.rs:190-194 | opaque pixels are kept, transparent ones take the colour, and the rest are multiplied; over an opaque background the alpha is kept (or 255) |
| DrawingProps.OpaqueImageUnchanged | src/drawing.rs:184-199 | an image without transparency is returned unchanged |
| DrawingProps.NoColorNeverBetween | src/drawing.rs:164-169 | a leaf without a colour is never in range |
| DrawingProps.EndsAreBetween | src/drawing.rs:164-169 | both ends of a non-empty range are in it (inclusive bounds) |
| DrawingProps.PointRange | src/drawing.rs:164-169 | a one-colour range accepts exactly that colour |
| DrawingProps.WiderRangeAcceptsMore | src/drawing.rs:164-169 | widening the range keeps every colour it accepted |
| DrawingProps.AdjustExamples | src/drawing.rs:267-293 | the five seam cases on the nine-leaf test tree |
| DrawingProps.AdjustClosesSeam | src/drawing.rs:210-245 | a child of an odd-width parent grows by the seam column unless a leaf starts there |
| DrawingProps.DrawnPixelInPassingLeaf | src/drawing.rs:44-102 | a pixel of `draw_quads` that differs from the background lies in the adjusted rectangle of a leaf that passes the filter |
| DrawingProps.SimpleOverrideColor | src/drawing.rs:22-40 | with an override colour, every pixel is either the original's or that colour |
| DrawingProps.SimpleLeafColor | src/drawing.rs:22-40 | without one, a changed pixel has some leaf's average, or the default pink for an uncoloured leaf |
| Args.Split | src/args.rs:153-154 | at least one piece, none containing punctuation |
| Args.DropEmpty | src/args.rs:155 | no empty piece remains |
| ArgsProps.ZerosValue | src/args.rs:160-167 | leading zeros do not change a digit string's value |
| ArgsProps.ParseDigitsDecimal | src/args.rs:160-167 | the decimal form of `n`, with any leading zeros, parses back to `n` iff `n` fits `u32` |
| ArgsProps.NoLeadingZeroDecimal | src/args.rs:160-167 | a digit string without a leading zero is the decimal form of its value |
| ArgsProps.ParsedDigitsShape | src/args.rs:160-167 | every text that parses is some zeros followed by the decimal form of the parsed value |
| Args.ParseVec2 | src/args.rs:152-174 | succeeds iff two `u32` pieces are found and the vector is not `smaller` than `DEFAULT_MIN_SIZE`, so every result is at least the minimum on both axes |
| Args.ParseVec2AsWritten | src/args.rs:168-173 | with a lexicographic `<`, only vectors that are not lexicographically below the minimum are accepted |
| ArgsProps.SplitWord | src/args.rs:153-154 | text without punctuation is one piece |
| ArgsProps.SplitAround | src/args.rs:153-154 | a separator ends the pieces of the left side and starts those of the right |
| ArgsProps.DropEmptyAppend | src/args.rs:155 | filtering distributes over concatenation |
| ArgsProps.PiecesAround | src/args.rs:153-156 | the pieces around a separator are the pieces of each side |
| ArgsProps.DecimalValue | src/utils.rs:16-20 | the digits `Display` writes read back as the number |
| ArgsProps.LeadingZeroValue | src/args.rs:160-167 | a leading zero does not change a digit string's value |
| ArgsProps.LeadingZeroParse | src/args.rs:193-195 | `u32` parsing ignores a leading zero |
| ArgsProps.ParseVec2Cases | src/args.rs:157-173 | exactly one of the three errors in check order: piece count, then a non-number, then too small; otherwise the two numbers |
| ArgsProps.DisplayRoundTrip | src/utils.rs:16-20 | parsing what `Display` writes gives the vector back, or the size error when it is `smaller` than the minimum |
| ArgsProps.PunctuationNoise | src/args.rs:192-196 | punctuation before and after the text changes neither the pieces nor the result |
| ArgsProps.ParsesPlain | src/args.rs:191 | `10,20` gives `[10;20]` |
| ArgsProps.ParsesNoise | src/args.rs:192 | `-10,20-` gives `[10;20]` |
| ArgsProps.ParsesEquals | src/args.rs:193 | `007=006` gives `[7;6]` |
| ArgsProps.ParsesLeadingZero | src/args.rs:194 | the unbracketed step of the `(015,27)` test: `015,27` gives `[15;27]` |
| ArgsProps.ParsesParens | src/args.rs:194 | `(015,27)` gives `[15;27]` |
| ArgsProps.ParsesSecondLeadingZero | src/args.rs:195 | the unbracketed step of the `[15,027]` test: `15,027` gives `[15;27]` |
| ArgsProps.ParsesBrackets | src/args.rs:195 | `[15,027]` gives `[15;27]` |
| ArgsProps.ParsesThreeDigits | src/args.rs:196 | the unbracketed step of the `{264,664}` test: `264,664` gives `[264;664]` |
| ArgsProps.ParsesBraces | src/args.rs:196 | `{264,664}` gives `[264;664]` |
| ArgsProps.RejectsForeignSymbols | src/args.rs:201 | `£€1@4$%` is not a number |
| ArgsProps.RejectsLetters | src/args.rs:202 | `a-a` is not a number |
| ArgsProps.RejectsOneNumber | src/args.rs:203 | `42` is not a vec2 |
| ArgsProps.RejectsThreeNumbers | src/args.rs:204 | `10-11-12` is not a vec2 |
| ArgsProps.RejectsSmall | src/args.rs:205 | `2,2` is too small |
| ArgsProps.LexSizeCheckAdmitsThinSizes | src/args.rs:168-173 | the lexicographic check accepts `8,2`, while the component-wise one rejects it; both reject `2,8` |

## Left out

- Image decoding and encoding, video frames, file and terminal I/O, `main`, the clap argument structures and `parse_color`: src/main.rs, src/imageio.rs and src/io.rs are not part of this model.
- Logging (`trace!`) is left out because it has no effect on results.
- The parallel map of src/quad.rs:70-97 is modelled as a sequential loop in frontier order. Thread scheduling is not modelled.
- The Gaussian `resize_exact` is a parameter constrained only to return the requested size. Its pixels are not modelled.
- Only RGBA8 images are modelled. Other `DynamicImage` formats and their conversions are left out.
- HashMap iteration order is an explicit parameter (`order`). The model does not fix it, so the drawing results are stated for every enumeration order.
- Quadtree.FloorLog2: `max_depth` uses an integer floor log2 in place of `f64::log2`. The two agree for every `u32` product, up to the rounding of `log2`. For an empty image, `log2(0)` is negative infinity and the cast saturates to 0; the model gives 0 as well.
- Quadtree.CalcQuads: `img.width() * img.height()` is a `u32` product at src/quad.rs:42. The model computes it unbounded, so images of 2^32 pixels or more, where the Rust product overflows, are not modelled.
- Quadtree.CalcQuads: requires a non-empty `min_quad_size` and, when colours are kept, a non-empty image. Both are needed for the root average of src/quad.rs:107-116 and the averages of every split not to divide by zero. Every size `Args.ParseVec2` accepts satisfies the first; `Args.ParseVec2AsWritten` does not, since it accepts `9,0`.
- Quadtree.AverageColors: requires a non-empty rectangle inside the image. So the panicking cases of src/quad.rs:263-267 are excluded rather than modelled. The `u64` accumulators never overflow for `u32`-sized images, so they are unbounded here. The `as u8` cast is exact because the mean is at most 255 (`ChannelMean`).
- Quadtree.GenerateSubnodes: requires the children's corners to fit `u32`, which holds for every node inside an image.
- Drawing.DrawSquare: requires the rectangle to fit the canvas (`SquareFits`). `put_pixel` panics otherwise.
- Drawing.DrawImage: requires the tile to fit the canvas. `copy_from` returns an error there and `expect` panics.
- Drawing.DrawImage and Drawing.DrawQuads: require a cache whose entries have the size they are filed under. `DrawQuads` also requires that they are the resize of the current quad image. A cache reused across different quad images is not modelled.
- Drawing.DrawQuads: requires a `Drawable` structure, meaning every leaf's depth is recorded and its rectangle is non-empty and inside `sizes[0]`. `QuadtreeProps.BuildLeavesFit` proves this for everything `Build` returns.
- Vectors.Half: the source's `half`, `Vec2::ZERO` and `<` on `Vec2` are used by src/quad.rs and src/args.rs but are not defined in the src/utils.rs of this snapshot. `Half` and `ZERO` are modelled from their use. `<` is read as the order `#[derive(PartialOrd)]` gives a struct `{x, y}`: `x` first, then `y`; src/utils.rs:1 of this snapshot derives only `Clone` (see Findings).
- Quadtree.CalcQuads: the size check at src/quad.rs:57 is modelled with the component-wise `Smaller`, the corrected reading (see Findings). The lexicographic loop as written is modelled only as far as `QuadtreeProps.LexShortcutRun` goes: up to the first level that averages.
- Args.ParseVec2: the size check at src/args.rs:169 is modelled with the component-wise `Smaller`, the corrected reading (see Findings). `Args.ParseVec2AsWritten` models the lexicographic check.
- src/drawing.rs names the leaf record `QuadInfo`, and src/quad.rs names it `Quad`. Both are the one datatype `Quadtree.Quad`.

## Findings

| source | as written | input that shows it | evidently intended | confidence | as-written member | corrected member |
|---|---|---|---|---|---|---|
| src/quad.rs:57, src/args.rs:169 | `curr_size < min_quad_size` and `v < DEFAULT_MIN_SIZE` compare `Vec2`s with the derived lexicographic order, so a size below the minimum in height alone passes | a 1024 by 4 image with the default arguments and no colours records sizes down to `[128;0]` and `[32;0]`, and reaches depth 5, past `min_depth`, with 256 nodes of size `[64;0]`, whose `[32;0]` children are averaged over no pixels (a division by zero in `average_colors`); `parse_vec2("8,2")` returns `[8;2]` | stop (and reject) when either axis is below the minimum, as `Vec2::smaller` at src/utils.rs:12-14 does; then no zero-area quad is ever averaged | not executed | QuadtreeProps.LexOrderReachesEmptyQuads, QuadtreeProps.LexShortcutRun, Args.ParseVec2AsWritten, ArgsProps.LexSizeCheckAdmitsThinSizes | Quadtree.CalcQuads, QuadtreeProps.ThinImageStopsAtFirstHalving, Args.ParseVec2 |
