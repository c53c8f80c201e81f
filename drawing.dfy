/**
 * The renderer of src/drawing.rs: per-pixel colour rules, the seam-closing
 * size adjustment, and the painters that draw outlines, fills and pasted
 * tiles into an output canvas.
 *
 * What a painter writes is described by `Stroke`s: each stroke says which
 * pixels it paints and with what, and `Compose` lays a sequence of strokes
 * over a base colour, the later stroke winning. The imperative painters are
 * proved to leave the canvas equal to the composition of their strokes.
 */
module Drawing {
  import opened Wrappers
  import opened Vectors
  import opened Pixels
  import opened Quadtree

  // ---------------------------------------------------------------------------
  // multiply_pixels, multiply_image_by, apply_background_color

  /** One channel of `multiply_pixels`: the 16-bit product scaled back by 255, truncated. */
  function MulChannel(a: U8, b: U8): (r: U8)
    ensures r * 255 <= a * b < (r + 1) * 255
    ensures r <= a && r <= b
  {
    ScaledProduct(a, b);
    a * b / 255
  }

  /** Bounds of a product of two channels scaled back by 255. */
  lemma ScaledProduct(a: U8, b: U8)
    ensures (a * b / 255) * 255 <= a * b < (a * b / 255 + 1) * 255
    ensures a * b / 255 <= a && a * b / 255 <= b
  {
    var p, q := a * b, a * b / 255;
    assert p == q * 255 + p % 255 && 0 <= p % 255 < 255;
    ProductBelow(a, b);
    ProductBelow(b, a);
    assert b * a == p;
  }

  lemma ProductBelow(a: U8, b: U8)
    ensures a * b <= a * 255
  {
    assert a * (255 - b) >= 0;
    assert a * (255 - b) == a * 255 - a * b;
  }

  /** `multiply_pixels`: every channel, alpha included, multiplied as a fraction of 255. */
  function MultiplyPixels(a: Rgba, b: Rgba): (r: Rgba)
    ensures forall i :: 0 <= i < 4 ==> r.Ch(i) * 255 <= a.Ch(i) * b.Ch(i) < (r.Ch(i) + 1) * 255
  {
    Rgba(MulChannel(a.r, b.r), MulChannel(a.g, b.g), MulChannel(a.b, b.b), MulChannel(a.a, b.a))
  }

  /** The image `img` with `f` applied to every pixel. */
  function MapPixels(img: Image, f: Rgba -> Rgba): (r: Image)
    requires img.Valid()
    ensures r.Valid() && r.Dimensions() == img.Dimensions()
    ensures forall x, y :: 0 <= x < img.width && 0 <= y < img.height ==> r.At(x, y) == f(img.At(x, y))
  {
    Image(img.width, img.height,
          seq(|img.rows|, y requires 0 <= y < |img.rows| =>
            seq(|img.rows[y]|, x requires 0 <= x < |img.rows[y]| => f(img.rows[y][x]))))
  }

  /** `multiply_image_by`: every pixel multiplied by `factor`. */
  function MultiplyImageBy(src: Image, factor: Rgba): (r: Image)
    requires src.Valid()
    ensures r.Valid() && r.Dimensions() == src.Dimensions()
    ensures forall x, y :: 0 <= x < src.width && 0 <= y < src.height ==> r.At(x, y) == MultiplyPixels(src.At(x, y), factor)
  {
    MapPixels(src, p => MultiplyPixels(p, factor))
  }

  /** One pixel of `apply_background_color`: opaque stays, transparent takes `color`, the rest is multiplied. */
  function Flatten(p: Rgba, color: Rgba): Rgba {
    if p.a == 255 then p else if p.a == 0 then color else MultiplyPixels(p, color)
  }

  /** `apply_background_color`: same dimensions, every pixel flattened onto `color`. */
  function ApplyBackgroundColor(src: Image, color: Rgba): (r: Image)
    requires src.Valid()
    ensures r.Valid() && r.Dimensions() == src.Dimensions()
    ensures forall x, y :: 0 <= x < src.width && 0 <= y < src.height ==> r.At(x, y) == Flatten(src.At(x, y), color)
  {
    MapPixels(src, p => Flatten(p, color))
  }

  // ---------------------------------------------------------------------------
  // is_color_between

  /** `is_color_between`: a colour is present and every channel lies in `[from, to]`, inclusive. */
  predicate IsColorBetween(color: Option<Rgba>, from: Rgba, to: Rgba) {
    match color
    case None => false
    case Some(c) => forall i :: 0 <= i < 4 ==> from.Ch(i) <= c.Ch(i) <= to.Ch(i)
  }

  // ---------------------------------------------------------------------------
  // adjust_quad_size

  /**
   * `adjust_quad_size`: on each axis, one more pixel when the far edge is
   * strictly inside `bounds` and no quad starts right past it on that axis,
   * which closes the seam that halving an odd size leaves.
   */
  function AdjustQuadSize(pos: Vec2, size: Vec2, quads: map<Vec2, Quad>, bounds: Vec2): (r: Vec2)
    requires pos.x + size.x < 0x1_0000_0000 && pos.y + size.y < 0x1_0000_0000
    ensures r.x == size.x || r.x == size.x + 1
    ensures r.y == size.y || r.y == size.y + 1
    ensures r.x == size.x + 1 <==> pos.x + size.x < bounds.x && Vec2(pos.x + size.x, pos.y) !in quads
    ensures r.y == size.y + 1 <==> pos.y + size.y < bounds.y && Vec2(pos.x, pos.y + size.y) !in quads
    ensures Within(pos, size, bounds) ==> Within(pos, r, bounds)
  {
    var right := pos.x + size.x;
    var below := pos.y + size.y;
    Vec2(if right < bounds.x && Vec2(right, pos.y) !in quads then size.x + 1 else size.x,
         if below < bounds.y && Vec2(pos.x, below) !in quads then size.y + 1 else size.y)
  }

  // ---------------------------------------------------------------------------
  // What the painters write

  /**
   * A unit of drawing. `Outline` is `draw_square`: the top row and the left
   * column of the rectangle in `border`, and, when `fill` is present, the
   * rest of the rectangle in the fill. `Paste` is `copy_from`: the tile's
   * pixels with its top-left corner at `pos`.
   */
  datatype Stroke =
    | Outline(pos: Vec2, size: Vec2, border: Rgba, fill: Option<Rgba>)
    | Paste(pos: Vec2, tile: Image)
  {
    /** The colour this stroke puts on pixel `(x, y)`, if it touches it. */
    function PaintAt(x: int, y: int): Option<Rgba> {
      match this
      case Outline(pos, size, border, fill) =>
        if (y == pos.y && pos.x <= x < pos.x + size.x) || (x == pos.x && pos.y <= y < pos.y + size.y) then Some(border)
        else if fill.Some? && pos.x < x < pos.x + size.x && pos.y < y < pos.y + size.y then Some(fill.value)
        else None
      case Paste(pos, tile) =>
        if tile.Valid() && InRect(pos, tile.Dimensions(), x, y) then Some(tile.At(x - pos.x, y - pos.y))
        else None
    }

    /** The rectangle the stroke can touch. */
    function Extent(): Vec2 {
      match this
      case Outline(_, size, _, _) => size
      case Paste(_, tile) => tile.Dimensions()
    }
  }

  /** Pixel `(x, y)` after painting `strokes` in order over `base`: the last stroke that touches it wins. */
  function Compose(strokes: seq<Stroke>, x: int, y: int, base: Rgba): Rgba {
    if strokes == [] then base
    else Last(strokes).PaintAt(x, y).GetOr(Compose(strokes[..|strokes| - 1], x, y, base))
  }

  /**
   * A stroke touches nothing outside its rectangle, when that rectangle is
   * not empty (an outline of height 0 still draws its top row).
   */
  lemma PaintWithinExtent(s: Stroke, x: int, y: int)
    requires s.Paste? || NonEmpty(s.size)
    ensures s.PaintAt(x, y).Some? ==> InRect(s.pos, s.Extent(), x, y)
  {
  }

  /** Painting `a` then `b` is painting `b` over the result of `a`. */
  lemma {:induction false} ComposeAppend(a: seq<Stroke>, b: seq<Stroke>, x: int, y: int, base: Rgba)
    ensures Compose(a + b, x, y, base) == Compose(b, x, y, Compose(a, x, y, base))
    decreases |b|
  {
    if b != [] {
      assert (a + b)[..|a + b| - 1] == a + b[..|b| - 1];
      assert Last(a + b) == Last(b);
      ComposeAppend(a, b[..|b| - 1], x, y, base);
    } else {
      assert a + b == a;
    }
  }

  /** Painting one more stroke over `a`. */
  lemma ComposeSnoc(a: seq<Stroke>, s: Stroke, x: int, y: int, base: Rgba)
    ensures Compose(a + [s], x, y, base) == s.PaintAt(x, y).GetOr(Compose(a, x, y, base))
  {
    assert (a + [s])[..|a|] == a;
  }

  /**
   * A pixel no stroke touches keeps its base colour; a pixel whose colour
   * changed was touched by the stroke at the returned index.
   */
  lemma {:induction false} ComposeTouched(strokes: seq<Stroke>, x: int, y: int, base: Rgba) returns (i: nat)
    requires Compose(strokes, x, y, base) != base
    ensures i < |strokes| && strokes[i].PaintAt(x, y).Some?
  {
    if Last(strokes).PaintAt(x, y).Some? {
      i := |strokes| - 1;
    } else {
      i := ComposeTouched(strokes[..|strokes| - 1], x, y, base);
    }
  }

  /** The stroke list of `draw_image`: the tile, tinted when a colour is given, then the optional outline. */
  function ImageStrokes(pos: Vec2, size: Vec2, tile: Image, border: Option<Rgba>, tint: Option<Rgba>): (r: seq<Stroke>)
    requires tile.Valid()
    ensures 1 <= |r| <= 2 && r[0].Paste? && r[0].pos == pos
    ensures r[0].tile.Dimensions() == tile.Dimensions()
    ensures |r| == 2 <==> border.Some?
    ensures |r| == 2 ==> r[1] == Outline(pos, size, border.value, None)
  {
    var shown := match tint case Some(c) => MultiplyImageBy(tile, c) case None => tile;
    [Paste(pos, shown)] + match border case Some(c) => [Outline(pos, size, c, None)] case None => []
  }

  // ---------------------------------------------------------------------------
  // draw_square

  /**
   * Every pixel `draw_square` writes lies on a canvas of `width` by `height`:
   * the top row when the width is positive, the left column when the height
   * is, and the interior lies within both (`put_pixel` panics otherwise).
   */
  predicate SquareFits(pos: Vec2, size: Vec2, width: int, height: int) {
    && (size.x > 0 ==> pos.x + size.x <= width && pos.y < height)
    && (size.y > 0 ==> pos.x < width && pos.y + size.y <= height)
  }

  /** The pixels `x0 .. x0 + w - 1` of row `y` set to `c`, left to right; nothing else changes. */
  method PaintRow(canvas: array2<Rgba>, y: nat, x0: nat, w: nat, c: Rgba)
    requires w > 0 ==> y < canvas.Length0 && x0 + w <= canvas.Length1
    modifies canvas
    ensures forall j, i :: 0 <= j < canvas.Length0 && 0 <= i < canvas.Length1 ==>
              canvas[j, i] == (if j == y && x0 <= i < x0 + w then c else old(canvas[j, i]))
  {
    var x := 0;
    while x < w
      invariant 0 <= x <= w
      invariant forall j, i :: 0 <= j < canvas.Length0 && 0 <= i < canvas.Length1 ==>
                  canvas[j, i] == (if j == y && x0 <= i < x0 + x then c else old(canvas[j, i]))
    {
      canvas[y, x0 + x] := c;
      x := x + 1;
    }
  }

  /** The pixels `y0 .. y0 + h - 1` of column `x` set to `c`, top to bottom; nothing else changes. */
  method PaintColumn(canvas: array2<Rgba>, x: nat, y0: nat, h: nat, c: Rgba)
    requires h > 0 ==> x < canvas.Length1 && y0 + h <= canvas.Length0
    modifies canvas
    ensures forall j, i :: 0 <= j < canvas.Length0 && 0 <= i < canvas.Length1 ==>
              canvas[j, i] == (if i == x && y0 <= j < y0 + h then c else old(canvas[j, i]))
  {
    var y := 0;
    while y < h
      invariant 0 <= y <= h
      invariant forall j, i :: 0 <= j < canvas.Length0 && 0 <= i < canvas.Length1 ==>
                  canvas[j, i] == (if i == x && y0 <= j < y0 + y then c else old(canvas[j, i]))
    {
      canvas[y0 + y, x] := c;
      y := y + 1;
    }
  }

  /** The fill loop of `draw_square`: rows 1 to `size.y - 1`, columns 1 to `size.x - 1`. */
  method FillInterior(canvas: array2<Rgba>, pos: Vec2, size: Vec2, c: Rgba)
    requires SquareFits(pos, size, canvas.Length1, canvas.Length0)
    modifies canvas
    ensures forall j, i :: 0 <= j < canvas.Length0 && 0 <= i < canvas.Length1 ==>
              canvas[j, i] == (if pos.x < i < pos.x + size.x && pos.y < j < pos.y + size.y then c else old(canvas[j, i]))
  {
    var w := if size.x > 0 then size.x - 1 else 0;
    var y := 1;
    while y < size.y
      invariant 1 <= y <= Max(1, size.y)
      invariant forall j, i :: 0 <= j < canvas.Length0 && 0 <= i < canvas.Length1 ==>
                  canvas[j, i] == (if pos.x < i < pos.x + size.x && pos.y < j < pos.y + y then c else old(canvas[j, i]))
    {
      PaintRow(canvas, pos.y + y, pos.x + 1, w, c);
      y := y + 1;
    }
  }

  /**
   * `draw_square`: the fill first when one is given, then the top row and the
   * left column in the border colour. Afterwards every pixel is what the
   * `Outline` stroke paints there, or what it was before.
   */
  method DrawSquare(canvas: array2<Rgba>, pos: Vec2, size: Vec2, border: Rgba, fill: Option<Rgba>)
    requires SquareFits(pos, size, canvas.Length1, canvas.Length0)
    modifies canvas
    ensures forall y, x :: 0 <= y < canvas.Length0 && 0 <= x < canvas.Length1 ==>
              canvas[y, x] == Outline(pos, size, border, fill).PaintAt(x, y).GetOr(old(canvas[y, x]))
  {
    if fill.Some? {
      FillInterior(canvas, pos, size, fill.value);
    }
    PaintRow(canvas, pos.y, pos.x, size.x, border);
    PaintColumn(canvas, pos.x, pos.y, size.y, border);
  }

  // ---------------------------------------------------------------------------
  // draw_image

  /** One row of `copy_from`: `row` written into row `y` from column `x0`. */
  method PasteRow(canvas: array2<Rgba>, y: nat, x0: nat, row: seq<Rgba>)
    requires |row| > 0 ==> y < canvas.Length0 && x0 + |row| <= canvas.Length1
    modifies canvas
    ensures forall j, i :: 0 <= j < canvas.Length0 && 0 <= i < canvas.Length1 ==>
              canvas[j, i] == (if j == y && x0 <= i < x0 + |row| then row[i - x0] else old(canvas[j, i]))
  {
    var x := 0;
    while x < |row|
      invariant 0 <= x <= |row|
      invariant forall j, i :: 0 <= j < canvas.Length0 && 0 <= i < canvas.Length1 ==>
                  canvas[j, i] == (if j == y && x0 <= i < x0 + x then row[i - x0] else old(canvas[j, i]))
    {
      canvas[y, x0 + x] := row[x];
      x := x + 1;
    }
  }

  /** `copy_from`: the tile written with its top-left corner at `pos`; it must fit (it is an error otherwise). */
  method PasteTile(canvas: array2<Rgba>, pos: Vec2, tile: Image)
    requires tile.Valid() && pos.x + tile.width <= canvas.Length1 && pos.y + tile.height <= canvas.Length0
    modifies canvas
    ensures forall y, x :: 0 <= y < canvas.Length0 && 0 <= x < canvas.Length1 ==>
              canvas[y, x] == Paste(pos, tile).PaintAt(x, y).GetOr(old(canvas[y, x]))
  {
    var y := 0;
    while y < tile.height
      invariant 0 <= y <= tile.height
      invariant forall j, i :: 0 <= j < canvas.Length0 && 0 <= i < canvas.Length1 ==>
                  canvas[j, i] == (if InRect(pos, Vec2(tile.width, y), i, j) then tile.At(i - pos.x, j - pos.y)
                                   else old(canvas[j, i]))
    {
      PasteRow(canvas, pos.y + y, pos.x, tile.rows[y]);
      y := y + 1;
    }
  }

  /** A resampler: returns an image of exactly the requested size (the role of `resize_exact`). */
  ghost predicate ResizeOk(resize: (Image, Vec2) -> Image) {
    forall img, size :: resize(img, size).Valid() && resize(img, size).Dimensions() == size
  }

  /** The `cache` of `draw_quads`: resized copies of the quad image, keyed by size. */
  class ResizeCache {
    var entries: map<Vec2, Image>

    /** Every entry is an image of the size it is filed under. */
    ghost predicate Valid()
      reads this
    {
      forall k :: k in entries ==> entries[k].Valid() && entries[k].Dimensions() == k
    }

    /** Every entry is what `resize` makes of `src` at that size. */
    ghost predicate Holds(src: Image, resize: (Image, Vec2) -> Image)
      reads this
    {
      forall k :: k in entries ==> entries[k] == resize(src, k)
    }

    constructor()
      ensures entries == map[]
    {
      entries := map[];
    }
  }

  /**
   * `draw_image`: take the tile of this size from the cache, resizing and
   * inserting it only when absent; paste it, multiplied by `tint` when given;
   * then outline the rectangle when a border colour is given.
   */
  method DrawImage(canvas: array2<Rgba>, src: Image, pos: Vec2, size: Vec2, border: Option<Rgba>,
                   tint: Option<Rgba>, cache: ResizeCache, resize: (Image, Vec2) -> Image)
    requires ResizeOk(resize) && cache.Valid()
    requires pos.x + size.x <= canvas.Length1 && pos.y + size.y <= canvas.Length0
    requires border.Some? ==> SquareFits(pos, size, canvas.Length1, canvas.Length0)
    modifies canvas, cache
    ensures cache.Valid() && size in cache.entries
    ensures cache.entries[size] == if size in old(cache.entries) then old(cache.entries[size]) else resize(src, size)
    ensures cache.entries == old(cache.entries)[size := cache.entries[size]]
    ensures forall y, x :: 0 <= y < canvas.Length0 && 0 <= x < canvas.Length1 ==>
              canvas[y, x] == Compose(ImageStrokes(pos, size, cache.entries[size], border, tint), x, y, old(canvas[y, x]))
  {
    var draw: Image;
    if size in cache.entries {
      draw := cache.entries[size];
    } else {
      draw := resize(src, size);
      cache.entries := cache.entries[size := draw];
    }
    var shown := match tint case Some(c) => MultiplyImageBy(draw, c) case None => draw;
    PasteTile(canvas, pos, shown);
    label pasted:
    var strokes := ImageStrokes(pos, size, draw, border, tint);
    if border.Some? {
      DrawSquare(canvas, pos, size, border.value, None);
      assert strokes == [Paste(pos, shown), Outline(pos, size, border.value, None)];
      assert strokes[..1] == [Paste(pos, shown)] && [Paste(pos, shown)][..0] == [];
      forall y, x | 0 <= y < canvas.Length0 && 0 <= x < canvas.Length1
        ensures canvas[y, x] == Compose(strokes, x, y, old(canvas[y, x]))
      {
        assert canvas[y, x] == strokes[1].PaintAt(x, y).GetOr(old@pasted(canvas[y, x]));
        assert old@pasted(canvas[y, x]) == Compose(strokes[..1], x, y, old(canvas[y, x]));
      }
    } else {
      assert strokes == [Paste(pos, shown)];
    }
  }

  // ---------------------------------------------------------------------------
  // draw_quads and draw_quads_simple

  /**
   * A structure the renderer can draw: a first size (the canvas), a recorded
   * size for every leaf's depth, and every leaf's rectangle non-empty and
   * inside the canvas.
   */
  predicate Drawable(st: QuadStructure) {
    && |st.sizes| > 0
    && forall p :: p in st.quads ==>
         && st.quads[p].depth < |st.sizes|
         && NonEmpty(st.sizes[st.quads[p].depth])
         && Within(p, st.sizes[st.quads[p].depth], st.sizes[0])
  }

  /** `order` visits every key of `quads` exactly once: the iteration order of the map. */
  predicate EnumeratesKeys(order: seq<Vec2>, quads: map<Vec2, Quad>) {
    && (forall i :: 0 <= i < |order| ==> order[i] in quads)
    && (forall p :: p in quads ==> p in order)
    && (forall i, j :: 0 <= i < j < |order| ==> order[i] != order[j])
  }

  /** A leaf passes the optional colour-range filter of src/drawing.rs:60-68. */
  predicate Passes(q: Quad, range: Option<(Rgba, Rgba)>) {
    range.None? || IsColorBetween(q.color, range.value.0, range.value.1)
  }

  /** The rectangle `draw_quads` gives the leaf at `pos`: its depth's size, seam-adjusted. */
  function Adjusted(st: QuadStructure, pos: Vec2): (r: Vec2)
    requires Drawable(st) && pos in st.quads
    ensures NonEmpty(r) && Within(pos, r, st.sizes[0])
  {
    AdjustQuadSize(pos, st.sizes[st.quads[pos].depth], st.quads, st.sizes[0])
  }

  /**
   * What `draw_quads` paints for the leaf at `pos`: nothing when it fails the
   * filter; else, with a quad image, that image resized to the adjusted
   * rectangle (tinted by the leaf colour when `multiply`) and the optional
   * outline; else an outline filled with the leaf colour.
   */
  function QuadStrokes(st: QuadStructure, pos: Vec2, border: Option<Rgba>, multiply: bool,
                       quadImg: Option<Image>, range: Option<(Rgba, Rgba)>,
                       resize: (Image, Vec2) -> Image): (r: seq<Stroke>)
    requires Drawable(st) && pos in st.quads && ResizeOk(resize)
    ensures |r| <= 2
    ensures forall k :: 0 <= k < |r| ==> r[k].pos == pos && r[k].Extent() == Adjusted(st, pos)
    ensures !Passes(st.quads[pos], range) ==> r == []
    ensures Passes(st.quads[pos], range) ==> 1 <= |r| && (r[0].Paste? <==> quadImg.Some?)
    ensures |r| == 2 <==> Passes(st.quads[pos], range) && quadImg.Some? && border.Some?
  {
    var q := st.quads[pos];
    if !Passes(q, range) then []
    else
      var adj := Adjusted(st, pos);
      match quadImg
      case Some(src) => ImageStrokes(pos, adj, resize(src, adj), border, if multiply then q.color else None)
      case None => [Outline(pos, adj, border.GetOr(q.color.GetOr(DEFAULT_COLOR)), q.color)]
  }

  /** Everything `draw_quads` paints, leaf after leaf in `order`. */
  function DrawnStrokes(st: QuadStructure, order: seq<Vec2>, border: Option<Rgba>, multiply: bool,
                        quadImg: Option<Image>, range: Option<(Rgba, Rgba)>,
                        resize: (Image, Vec2) -> Image): seq<Stroke>
    requires Drawable(st) && ResizeOk(resize) && forall i :: 0 <= i < |order| ==> order[i] in st.quads
  {
    if order == [] then []
    else DrawnStrokes(st, order[..|order| - 1], border, multiply, quadImg, range, resize)
         + QuadStrokes(st, Last(order), border, multiply, quadImg, range, resize)
  }

  /** One more leaf appends its strokes. */
  lemma DrawnStrokesStep(st: QuadStructure, order: seq<Vec2>, border: Option<Rgba>, multiply: bool,
                         quadImg: Option<Image>, range: Option<(Rgba, Rgba)>,
                         resize: (Image, Vec2) -> Image, i: nat)
    requires Drawable(st) && ResizeOk(resize) && forall k :: 0 <= k < |order| ==> order[k] in st.quads
    requires i < |order|
    ensures DrawnStrokes(st, order[..i + 1], border, multiply, quadImg, range, resize)
            == DrawnStrokes(st, order[..i], border, multiply, quadImg, range, resize)
               + QuadStrokes(st, order[i], border, multiply, quadImg, range, resize)
  {
    assert order[..i + 1][..i] == order[..i];
  }

  /** The tile size `draw_quads` looks up in the cache for the leaf at `pos`: none when it draws no quad image. */
  function LeafTileSizes(st: QuadStructure, pos: Vec2, quadImg: Option<Image>, range: Option<(Rgba, Rgba)>): set<Vec2>
    requires Drawable(st) && pos in st.quads
  {
    if quadImg.Some? && Passes(st.quads[pos], range) then {Adjusted(st, pos)} else {}
  }

  /** Every tile size `draw_quads` looks up, leaf after leaf in `order`. */
  function TileSizes(st: QuadStructure, order: seq<Vec2>, quadImg: Option<Image>, range: Option<(Rgba, Rgba)>): set<Vec2>
    requires Drawable(st) && forall i :: 0 <= i < |order| ==> order[i] in st.quads
  {
    if order == [] then {}
    else TileSizes(st, order[..|order| - 1], quadImg, range) + LeafTileSizes(st, Last(order), quadImg, range)
  }

  /** One more leaf adds its tile size. */
  lemma TileSizesStep(st: QuadStructure, order: seq<Vec2>, quadImg: Option<Image>, range: Option<(Rgba, Rgba)>, i: nat)
    requires Drawable(st) && forall k :: 0 <= k < |order| ==> order[k] in st.quads
    requires i < |order|
    ensures TileSizes(st, order[..i + 1], quadImg, range)
            == TileSizes(st, order[..i], quadImg, range) + LeafTileSizes(st, order[i], quadImg, range)
  {
    assert order[..i + 1][..i] == order[..i];
  }

  /** The body of the loop of `draw_quads` (src/drawing.rs:60-99) for the leaf at `pos`. */
  method DrawQuad(canvas: array2<Rgba>, st: QuadStructure, pos: Vec2, border: Option<Rgba>, multiply: bool,
                  quadImg: Option<Image>, range: Option<(Rgba, Rgba)>,
                  cache: ResizeCache, resize: (Image, Vec2) -> Image)
    requires Drawable(st) && pos in st.quads && ResizeOk(resize)
    requires canvas.Length0 == st.sizes[0].y && canvas.Length1 == st.sizes[0].x
    requires cache.Valid() && (quadImg.Some? ==> cache.Holds(quadImg.value, resize))
    modifies canvas, cache
    ensures cache.Valid() && (quadImg.Some? ==> cache.Holds(quadImg.value, resize))
    ensures quadImg.None? ==> cache.entries == old(cache.entries)
    ensures cache.entries.Keys == old(cache.entries).Keys + LeafTileSizes(st, pos, quadImg, range)
    ensures forall y, x :: 0 <= y < canvas.Length0 && 0 <= x < canvas.Length1 ==>
              canvas[y, x] == Compose(QuadStrokes(st, pos, border, multiply, quadImg, range, resize), x, y, old(canvas[y, x]))
  {
    var q := st.quads[pos];
    if range.Some? && !IsColorBetween(q.color, range.value.0, range.value.1) {
      return;
    }
    var adj := AdjustQuadSize(pos, st.sizes[q.depth], st.quads, st.sizes[0]);
    match quadImg {
      case Some(src) =>
        DrawImage(canvas, src, pos, adj, border, if multiply then q.color else None, cache, resize);
      case None =>
        DrawSquare(canvas, pos, adj, border.GetOr(q.color.GetOr(DEFAULT_COLOR)), q.color);
    }
  }

  /** One round of the loop of `draw_quads`: the canvas showing the first `i` leaves comes to show `i + 1`. */
  method DrawNext(canvas: array2<Rgba>, st: QuadStructure, order: seq<Vec2>, i: nat, border: Option<Rgba>,
                  multiply: bool, quadImg: Option<Image>, range: Option<(Rgba, Rgba)>,
                  cache: ResizeCache, resize: (Image, Vec2) -> Image, ghost bg: Rgba, ghost keys: set<Vec2>)
    requires Drawable(st) && ResizeOk(resize) && i < |order| && forall k :: 0 <= k < |order| ==> order[k] in st.quads
    requires canvas.Length0 == st.sizes[0].y && canvas.Length1 == st.sizes[0].x
    requires cache.Valid() && (quadImg.Some? ==> cache.Holds(quadImg.value, resize))
    requires cache.entries.Keys == keys + TileSizes(st, order[..i], quadImg, range)
    requires forall y, x :: 0 <= y < canvas.Length0 && 0 <= x < canvas.Length1 ==>
               canvas[y, x] == Compose(DrawnStrokes(st, order[..i], border, multiply, quadImg, range, resize), x, y, bg)
    modifies canvas, cache
    ensures cache.Valid() && (quadImg.Some? ==> cache.Holds(quadImg.value, resize))
    ensures quadImg.None? ==> cache.entries == old(cache.entries)
    ensures cache.entries.Keys == old(cache.entries).Keys + LeafTileSizes(st, order[i], quadImg, range)
    ensures cache.entries.Keys == keys + TileSizes(st, order[..i + 1], quadImg, range)
    ensures forall y, x :: 0 <= y < canvas.Length0 && 0 <= x < canvas.Length1 ==>
              canvas[y, x] == Compose(DrawnStrokes(st, order[..i + 1], border, multiply, quadImg, range, resize), x, y, bg)
  {
    ghost var head := DrawnStrokes(st, order[..i], border, multiply, quadImg, range, resize);
    ghost var tail := QuadStrokes(st, order[i], border, multiply, quadImg, range, resize);
    DrawQuad(canvas, st, order[i], border, multiply, quadImg, range, cache, resize);
    forall y, x | 0 <= y < canvas.Length0 && 0 <= x < canvas.Length1
      ensures canvas[y, x] == Compose(head + tail, x, y, bg)
    {
      ComposeAppend(head, tail, x, y, bg);
    }
    DrawnStrokesStep(st, order, border, multiply, quadImg, range, resize, i);
    TileSizesStep(st, order, quadImg, range, i);
  }

  /**
   * `draw_quads`: a canvas of the first recorded size, filled with the
   * background colour or transparent, then every leaf that passes the filter
   * drawn in map order with its adjusted size.
   */
  method DrawQuads(st: QuadStructure, order: seq<Vec2>, border: Option<Rgba>, background: Option<Rgba>,
                   multiply: bool, quadImg: Option<Image>, range: Option<(Rgba, Rgba)>,
                   cache: ResizeCache, resize: (Image, Vec2) -> Image)
    returns (canvas: array2<Rgba>)
    requires Drawable(st) && EnumeratesKeys(order, st.quads) && ResizeOk(resize)
    requires cache.Valid() && (quadImg.Some? ==> cache.Holds(quadImg.value, resize))
    modifies cache
    ensures fresh(canvas) && canvas.Length0 == st.sizes[0].y && canvas.Length1 == st.sizes[0].x
    ensures cache.Valid() && (quadImg.Some? ==> cache.Holds(quadImg.value, resize))
    ensures quadImg.None? ==> cache.entries == old(cache.entries)
    ensures cache.entries.Keys == old(cache.entries).Keys + TileSizes(st, order, quadImg, range)
    ensures forall y, x :: 0 <= y < canvas.Length0 && 0 <= x < canvas.Length1 ==>
              canvas[y, x] == Compose(DrawnStrokes(st, order, border, multiply, quadImg, range, resize),
                                      x, y, background.GetOr(TRANSPARENT))
  {
    var bg := background.GetOr(TRANSPARENT);
    canvas := new Rgba[st.sizes[0].y, st.sizes[0].x]((_, _) => bg);
    var i := 0;
    while i < |order|
      invariant 0 <= i <= |order|
      invariant cache.Valid() && (quadImg.Some? ==> cache.Holds(quadImg.value, resize))
      invariant quadImg.None? ==> cache.entries == old(cache.entries)
      invariant cache.entries.Keys == old(cache.entries).Keys + TileSizes(st, order[..i], quadImg, range)
      invariant forall y, x :: 0 <= y < canvas.Length0 && 0 <= x < canvas.Length1 ==>
                  canvas[y, x] == Compose(DrawnStrokes(st, order[..i], border, multiply, quadImg, range, resize), x, y, bg)
    {
      DrawNext(canvas, st, order, i, border, multiply, quadImg, range, cache, resize, bg, old(cache.entries).Keys);
      i := i + 1;
    }
    assert order[..i] == order;
  }

  /** The outline `draw_quads_simple` draws for the leaf at `pos`: override colour, else its own, else the default. */
  function SimpleStroke(st: QuadStructure, pos: Vec2, color: Option<Rgba>): Stroke
    requires pos in st.quads && st.quads[pos].depth < |st.sizes|
  {
    var q := st.quads[pos];
    Outline(pos, st.sizes[q.depth], color.GetOr(q.color.GetOr(DEFAULT_COLOR)), None)
  }

  /** Everything `draw_quads_simple` paints, leaf after leaf in `order`. */
  function SimpleStrokes(st: QuadStructure, order: seq<Vec2>, color: Option<Rgba>): (r: seq<Stroke>)
    requires forall i :: 0 <= i < |order| ==> order[i] in st.quads && st.quads[order[i]].depth < |st.sizes|
    ensures |r| == |order|
    ensures forall i :: 0 <= i < |order| ==> r[i] == SimpleStroke(st, order[i], color)
  {
    if order == [] then []
    else SimpleStrokes(st, order[..|order| - 1], color) + [SimpleStroke(st, Last(order), color)]
  }

  /** One more leaf appends its outline. */
  lemma SimpleStrokesStep(st: QuadStructure, order: seq<Vec2>, color: Option<Rgba>, i: nat)
    requires forall k :: 0 <= k < |order| ==> order[k] in st.quads && st.quads[order[k]].depth < |st.sizes|
    requires i < |order|
    ensures SimpleStrokes(st, order[..i + 1], color) == SimpleStrokes(st, order[..i], color) + [SimpleStroke(st, order[i], color)]
  {
    assert order[..i + 1][..i] == order[..i];
  }

  /** A copy of `img` as a canvas (`original.clone()`). */
  method CanvasOf(img: Image) returns (canvas: array2<Rgba>)
    requires img.Valid()
    ensures fresh(canvas) && canvas.Length0 == img.height && canvas.Length1 == img.width
    ensures forall y, x :: 0 <= y < img.height && 0 <= x < img.width ==> canvas[y, x] == img.At(x, y)
  {
    canvas := new Rgba[img.height, img.width]((y, x) requires 0 <= y < img.height && 0 <= x < img.width => img.rows[y][x]);
  }

  /** The body of the loop of `draw_quads_simple` (src/drawing.rs:29-37) for the leaf at `pos`. */
  method DrawSimpleQuad(canvas: array2<Rgba>, st: QuadStructure, pos: Vec2, color: Option<Rgba>)
    requires pos in st.quads && st.quads[pos].depth < |st.sizes|
    requires SquareFits(pos, st.sizes[st.quads[pos].depth], canvas.Length1, canvas.Length0)
    modifies canvas
    ensures forall y, x :: 0 <= y < canvas.Length0 && 0 <= x < canvas.Length1 ==>
              canvas[y, x] == SimpleStroke(st, pos, color).PaintAt(x, y).GetOr(old(canvas[y, x]))
  {
    var q := st.quads[pos];
    DrawSquare(canvas, pos, st.sizes[q.depth], color.GetOr(q.color.GetOr(DEFAULT_COLOR)), None);
  }

  /** One round of the loop of `draw_quads_simple`: the canvas showing the first `i` outlines comes to show `i + 1`. */
  method DrawSimpleNext(canvas: array2<Rgba>, original: Image, st: QuadStructure, order: seq<Vec2>, i: nat,
                        color: Option<Rgba>)
    requires original.Valid() && canvas.Length0 == original.height && canvas.Length1 == original.width
    requires i < |order| && forall k :: 0 <= k < |order| ==> order[k] in st.quads
    requires forall p :: p in st.quads ==>
               st.quads[p].depth < |st.sizes| && SquareFits(p, st.sizes[st.quads[p].depth], original.width, original.height)
    requires forall y, x :: 0 <= y < canvas.Length0 && 0 <= x < canvas.Length1 ==>
               canvas[y, x] == Compose(SimpleStrokes(st, order[..i], color), x, y, original.At(x, y))
    modifies canvas
    ensures forall y, x :: 0 <= y < canvas.Length0 && 0 <= x < canvas.Length1 ==>
              canvas[y, x] == Compose(SimpleStrokes(st, order[..i + 1], color), x, y, original.At(x, y))
  {
    ghost var head := SimpleStrokes(st, order[..i], color);
    ghost var stroke := SimpleStroke(st, order[i], color);
    DrawSimpleQuad(canvas, st, order[i], color);
    forall y, x | 0 <= y < canvas.Length0 && 0 <= x < canvas.Length1
      ensures canvas[y, x] == Compose(head + [stroke], x, y, original.At(x, y))
    {
      ComposeSnoc(head, stroke, x, y, original.At(x, y));
    }
    SimpleStrokesStep(st, order, color, i);
  }

  /**
   * `draw_quads_simple`: a copy of the original with every leaf's outline
   * drawn over it, in map order, with the size recorded for the leaf's depth.
   */
  method DrawQuadsSimple(original: Image, st: QuadStructure, order: seq<Vec2>, color: Option<Rgba>)
    returns (canvas: array2<Rgba>)
    requires original.Valid() && EnumeratesKeys(order, st.quads)
    requires forall p :: p in st.quads ==>
               st.quads[p].depth < |st.sizes| && SquareFits(p, st.sizes[st.quads[p].depth], original.width, original.height)
    ensures fresh(canvas) && canvas.Length0 == original.height && canvas.Length1 == original.width
    ensures forall y, x :: 0 <= y < canvas.Length0 && 0 <= x < canvas.Length1 ==>
              canvas[y, x] == Compose(SimpleStrokes(st, order, color), x, y, original.At(x, y))
  {
    canvas := CanvasOf(original);
    var i := 0;
    assert SimpleStrokes(st, order[..0], color) == [];
    while i < |order|
      invariant 0 <= i <= |order|
      invariant forall y, x :: 0 <= y < canvas.Length0 && 0 <= x < canvas.Length1 ==>
                  canvas[y, x] == Compose(SimpleStrokes(st, order[..i], color), x, y, original.At(x, y))
    {
      DrawSimpleNext(canvas, original, st, order, i, color);
      i := i + 1;
    }
    assert order[..i] == order;
  }
}
