/**
 * What the renderer of src/drawing.rs guarantees: the arithmetic of the
 * colour rules, the cases of the seam adjustment, and where on the canvas
 * the drawing can have changed anything.
 */
module DrawingProps {
  import opened Wrappers
  import opened Vectors
  import opened Pixels
  import opened Quadtree
  import opened Drawing

  function Gray(v: U8): Rgba { Rgba(v, v, v, v) }

  // ---------------------------------------------------------------------------
  // multiply_pixels

  /** The cases of src/drawing.rs:253-257. */
  lemma MultiplyExamples()
    ensures MultiplyPixels(Gray(96), Gray(96)) == Gray(36)
    ensures MultiplyPixels(Gray(96), Gray(255)) == Gray(96)
    ensures MultiplyPixels(Rgba(11, 255, 22, 238), Gray(255)) == Rgba(11, 255, 22, 238)
    ensures MultiplyPixels(Rgba(11, 255, 22, 238), Gray(0)) == Gray(0)
    ensures MultiplyPixels(Rgba(11, 255, 22, 238), Gray(136)) == Rgba(5, 136, 11, 126)
  {
  }

  /** Multiplying by opaque white changes nothing. */
  lemma MultiplyByWhite(a: Rgba)
    ensures MultiplyPixels(a, Gray(255)) == a
  {
    forall i | 0 <= i < 4
      ensures MultiplyPixels(a, Gray(255)).Ch(i) == a.Ch(i)
    {
      var r := MultiplyPixels(a, Gray(255)).Ch(i);
      assert r * 255 <= a.Ch(i) * 255 < (r + 1) * 255;
    }
    assert MultiplyPixels(a, Gray(255)).Ch(0) == a.Ch(0);
  }

  /** Multiplying by transparent black gives transparent black. */
  lemma MultiplyByZero(a: Rgba)
    ensures MultiplyPixels(a, Gray(0)) == TRANSPARENT
  {
  }

  /** The order of the two pixels does not matter. */
  lemma MultiplyCommutes(a: Rgba, b: Rgba)
    ensures MultiplyPixels(a, b) == MultiplyPixels(b, a)
  {
    assert a.r * b.r == b.r * a.r && a.g * b.g == b.g * a.g;
    assert a.b * b.b == b.b * a.b && a.a * b.a == b.a * a.a;
  }

  /** Multiplying never brightens: every channel is at most the same channel of either factor. */
  lemma MultiplyDarkens(a: Rgba, b: Rgba)
    ensures forall i :: 0 <= i < 4 ==> MultiplyPixels(a, b).Ch(i) <= a.Ch(i) && MultiplyPixels(a, b).Ch(i) <= b.Ch(i)
  {
  }

  // ---------------------------------------------------------------------------
  // apply_background_color

  /**
   * The three cases of src/drawing.rs:190-194: opaque pixels are kept,
   * transparent ones take the background, and the rest are multiplied by it,
   * which over an opaque background keeps the pixel's own alpha.
   */
  lemma FlattenCases(p: Rgba, color: Rgba)
    ensures p.a == 255 ==> Flatten(p, color) == p
    ensures p.a == 0 ==> Flatten(p, color) == color
    ensures 0 < p.a < 255 ==> Flatten(p, color) == MultiplyPixels(p, color)
    ensures color.a == 255 ==> Flatten(p, color).a == (if p.a == 0 then 255 else p.a)
  {
    if color.a == 255 && 0 < p.a < 255 {
      var r := MultiplyPixels(p, color).a;
      assert r * 255 <= p.a * 255 < (r + 1) * 255;
    }
  }

  /** An image with no transparency is left as it is. */
  lemma OpaqueImageUnchanged(img: Image, color: Rgba)
    requires img.Valid()
    requires forall x, y :: 0 <= x < img.width && 0 <= y < img.height ==> img.At(x, y).a == 255
    ensures ApplyBackgroundColor(img, color) == img
  {
    var r := ApplyBackgroundColor(img, color);
    forall y | 0 <= y < img.height
      ensures r.rows[y] == img.rows[y]
    {
      forall x | 0 <= x < img.width
        ensures r.rows[y][x] == img.rows[y][x]
      {
        assert r.At(x, y) == Flatten(img.At(x, y), color);
      }
    }
  }

  // ---------------------------------------------------------------------------
  // is_color_between

  /** A leaf without a colour never passes the range filter. */
  lemma NoColorNeverBetween(from: Rgba, to: Rgba)
    ensures !IsColorBetween(None, from, to)
  {
  }

  /** Both ends of a range are inside it, when the range is not empty. */
  lemma EndsAreBetween(from: Rgba, to: Rgba)
    requires forall i :: 0 <= i < 4 ==> from.Ch(i) <= to.Ch(i)
    ensures IsColorBetween(Some(from), from, to) && IsColorBetween(Some(to), from, to)
  {
  }

  /** A one-colour range accepts exactly that colour. */
  lemma PointRange(c: Rgba, point: Rgba)
    ensures IsColorBetween(Some(c), point, point) <==> c == point
  {
    if IsColorBetween(Some(c), point, point) {
      assert c.Ch(0) == point.Ch(0) && c.Ch(1) == point.Ch(1) && c.Ch(2) == point.Ch(2) && c.Ch(3) == point.Ch(3);
    }
  }

  /** Widening the range keeps every colour it accepted. */
  lemma WiderRangeAcceptsMore(c: Option<Rgba>, from: Rgba, to: Rgba, from': Rgba, to': Rgba)
    requires forall i :: 0 <= i < 4 ==> from'.Ch(i) <= from.Ch(i) && to.Ch(i) <= to'.Ch(i)
    ensures IsColorBetween(c, from, to) ==> IsColorBetween(c, from', to')
  {
  }

  // ---------------------------------------------------------------------------
  // adjust_quad_size

  /** The map of the tests at src/drawing.rs:267-280, every leaf at depth 1. */
  function TestQuadtree(): map<Vec2, Quad> {
    map[Vec2(0, 0) := Quad(1, None), Vec2(2, 0) := Quad(1, None), Vec2(0, 2) := Quad(1, None),
        Vec2(2, 2) := Quad(1, None), Vec2(5, 0) := Quad(1, None), Vec2(5, 2) := Quad(1, None),
        Vec2(0, 5) := Quad(1, None), Vec2(2, 5) := Quad(1, None), Vec2(5, 5) := Quad(1, None),
        Vec2(7, 7) := Quad(1, None)]
  }

  /** The cases of src/drawing.rs:283-287: 2 by 2 quads in 9 by 9 bounds. */
  lemma AdjustExamples()
    ensures AdjustQuadSize(Vec2(0, 0), Vec2(2, 2), TestQuadtree(), Vec2(9, 9)) == Vec2(2, 2)
    ensures AdjustQuadSize(Vec2(2, 0), Vec2(2, 2), TestQuadtree(), Vec2(9, 9)) == Vec2(3, 2)
    ensures AdjustQuadSize(Vec2(0, 2), Vec2(2, 2), TestQuadtree(), Vec2(9, 9)) == Vec2(2, 3)
    ensures AdjustQuadSize(Vec2(2, 2), Vec2(2, 2), TestQuadtree(), Vec2(9, 9)) == Vec2(3, 3)
    ensures AdjustQuadSize(Vec2(7, 7), Vec2(2, 2), TestQuadtree(), Vec2(9, 9)) == Vec2(2, 2)
  {
    assert Vec2(4, 0) !in TestQuadtree() && Vec2(2, 4) !in TestQuadtree();
    assert Vec2(0, 4) !in TestQuadtree() && Vec2(4, 2) !in TestQuadtree();
  }

  /**
   * The seam an odd halving leaves is closed: a child whose right sibling
   * starts one column past its edge grows by that column, unless a leaf was
   * recorded exactly at the seam.
   */
  lemma AdjustClosesSeam(pos: Vec2, parent: Vec2, quads: map<Vec2, Quad>, bounds: Vec2)
    requires Within(pos, parent, bounds) && Half(parent).1.x == 1
    requires Vec2(pos.x + Half(parent).0.x, pos.y) !in quads
    ensures AdjustQuadSize(pos, Half(parent).0, quads, bounds).x == Half(parent).0.x + 1
  {
  }

  // ---------------------------------------------------------------------------
  // draw_quads and draw_quads_simple

  /**
   * A canvas pixel of `draw_quads` that differs from the background lies in
   * the adjusted rectangle of a leaf that passes the colour filter: filtered
   * leaves leave no trace.
   */
  lemma {:induction false} DrawnPixelInPassingLeaf(st: QuadStructure, order: seq<Vec2>, border: Option<Rgba>,
                                                    multiply: bool, quadImg: Option<Image>,
                                                    range: Option<(Rgba, Rgba)>, resize: (Image, Vec2) -> Image,
                                                    x: int, y: int, bg: Rgba)
    returns (i: nat)
    requires Drawable(st) && ResizeOk(resize) && forall k :: 0 <= k < |order| ==> order[k] in st.quads
    requires Compose(DrawnStrokes(st, order, border, multiply, quadImg, range, resize), x, y, bg) != bg
    ensures i < |order| && Passes(st.quads[order[i]], range)
    ensures InRect(order[i], Adjusted(st, order[i]), x, y)
  {
    var init := order[..|order| - 1];
    var head := DrawnStrokes(st, init, border, multiply, quadImg, range, resize);
    var tail := QuadStrokes(st, Last(order), border, multiply, quadImg, range, resize);
    ComposeAppend(head, tail, x, y, bg);
    if Compose(head, x, y, bg) != bg {
      i := DrawnPixelInPassingLeaf(st, init, border, multiply, quadImg, range, resize, x, y, bg);
      assert order[i] == init[i];
    } else {
      i := |order| - 1;
      var k := ComposeTouched(tail, x, y, bg);
      PaintWithinExtent(tail[k], x, y);
    }
  }

  /**
   * With an override colour, `draw_quads_simple` changes a pixel of the
   * original only to that colour.
   */
  lemma {:induction false} SimpleOverrideColor(st: QuadStructure, order: seq<Vec2>, c: Rgba, x: int, y: int, base: Rgba)
    requires forall i :: 0 <= i < |order| ==> order[i] in st.quads && st.quads[order[i]].depth < |st.sizes|
    ensures Compose(SimpleStrokes(st, order, Some(c)), x, y, base) in {base, c}
  {
    if order != [] {
      var init := order[..|order| - 1];
      SimpleOverrideColor(st, init, c, x, y, base);
      assert SimpleStrokes(st, order, Some(c))[..|order| - 1] == SimpleStrokes(st, init, Some(c));
    }
  }

  /**
   * Without an override colour, a pixel `draw_quads_simple` changes takes the
   * colour of some leaf's outline: its average when it has one, else the
   * default pink.
   */
  lemma {:induction false} SimpleLeafColor(st: QuadStructure, order: seq<Vec2>, x: int, y: int, base: Rgba)
    returns (i: nat)
    requires forall k :: 0 <= k < |order| ==> order[k] in st.quads && st.quads[order[k]].depth < |st.sizes|
    requires Compose(SimpleStrokes(st, order, None), x, y, base) != base
    ensures i < |order|
    ensures Compose(SimpleStrokes(st, order, None), x, y, base) == st.quads[order[i]].color.GetOr(DEFAULT_COLOR)
  {
    var init := order[..|order| - 1];
    var strokes := SimpleStrokes(st, order, None);
    assert strokes[..|order| - 1] == SimpleStrokes(st, init, None);
    if Last(strokes).PaintAt(x, y).Some? {
      i := |order| - 1;
    } else {
      i := SimpleLeafColor(st, init, x, y, base);
      assert order[i] == init[i];
    }
  }
}
