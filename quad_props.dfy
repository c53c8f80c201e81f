/**
 * What the quadtree builder of src/quad.rs guarantees: the size list, where
 * leaves lie and what colour they carry, when the level loop stops, and the
 * behaviour on uniform images.
 */
module QuadtreeProps {
  import opened Wrappers
  import opened Vectors
  import opened Pixels
  import opened Quadtree

  // ---------------------------------------------------------------------------
  // generate_subnodes and are_le_treshold

  /**
   * The four children sit at the positions listed in src/quad.rs:121-146, lie
   * inside the parent, do not overlap, and cover every pixel of the parent
   * except the seam column and row that an odd size leaves between them.
   */
  lemma SubnodesSplitParent(pos: Vec2, parent: Vec2, depth: nat)
    requires pos.x + parent.x < 0x1_0000_0000 && pos.y + parent.y < 0x1_0000_0000
    ensures var (size, modulo) := Half(parent);
            var subs := GenerateSubnodes(pos, size, modulo, depth);
            && subs[0].pos == pos
            && subs[1].pos == Vec2(pos.x + size.x + modulo.x, pos.y)
            && subs[2].pos == Vec2(pos.x, pos.y + size.y + modulo.y)
            && subs[3].pos == Vec2(pos.x + size.x + modulo.x, pos.y + size.y + modulo.y)
            && (forall k, x, y :: 0 <= k < 4 && InRect(subs[k].pos, size, x, y) ==> InRect(pos, parent, x, y))
            && (forall k, l, x, y :: 0 <= k < l < 4 && InRect(subs[k].pos, size, x, y) ==> !InRect(subs[l].pos, size, x, y))
            && (forall x, y :: InRect(pos, parent, x, y) && (forall k :: 0 <= k < 4 ==> !InRect(subs[k].pos, size, x, y))
                  ==> (modulo.x == 1 && x == pos.x + size.x) || (modulo.y == 1 && y == pos.y + size.y))
  {
  }

  /** The four averages of the tests at src/quad.rs:233-237. */
  const SIMPLE_AVERAGES: seq<Rgba> :=
    [Rgba(64, 64, 64, 64), Rgba(100, 100, 100, 100), Rgba(100, 100, 100, 100), Rgba(128, 128, 128, 128)]
  const ALPHA_AVERAGES: seq<Rgba> :=
    [Rgba(0, 0, 0, 64), Rgba(0, 0, 0, 100), Rgba(0, 0, 0, 100), Rgba(0, 0, 0, 128)]

  /** The cases of src/quad.rs:233-237: a spread equal to the threshold is within it, one more is not. */
  lemma ThresholdExamples()
    ensures AreLeThreshold(SIMPLE_AVERAGES, Rgba(96, 96, 96, 96))
    ensures !AreLeThreshold(SIMPLE_AVERAGES, Rgba(10, 10, 10, 10))
    ensures AreLeThreshold(ALPHA_AVERAGES, Rgba(255, 255, 255, 65))
    ensures AreLeThreshold(ALPHA_AVERAGES, Rgba(255, 255, 255, 64))
    ensures !AreLeThreshold(ALPHA_AVERAGES, Rgba(255, 255, 255, 63))
  {
    assert forall c :: 0 <= c < 4 ==> MaxChannel(SIMPLE_AVERAGES, c) == 128 && MinChannel(SIMPLE_AVERAGES, c) == 64;
    assert MaxChannel(SIMPLE_AVERAGES, 0) - MinChannel(SIMPLE_AVERAGES, 0) > 10;
    assert forall c :: 0 <= c < 3 ==> MaxChannel(ALPHA_AVERAGES, c) == 0 && MinChannel(ALPHA_AVERAGES, c) == 0;
    assert MaxChannel(ALPHA_AVERAGES, 3) == 128 && MinChannel(ALPHA_AVERAGES, 3) == 64;
  }

  // ---------------------------------------------------------------------------
  // average_colors

  lemma {:induction false} UniformRowSum(row: seq<Rgba>, x0: nat, w: nat, c: nat, color: Rgba)
    requires x0 + w <= |row| && c < 4
    requires forall x :: x0 <= x < x0 + w ==> row[x] == color
    ensures RowSum(row, x0, w, c) == w * color.Ch(c)
  {
    if w > 0 {
      UniformRowSum(row, x0, w - 1, c, color);
    }
  }

  lemma {:induction false} UniformRectSum(img: Image, pos: Vec2, w: nat, h: nat, c: nat, color: Rgba)
    requires img.Valid() && pos.x + w <= img.width && pos.y + h <= img.height && c < 4
    requires forall x, y :: pos.x <= x < pos.x + w && pos.y <= y < pos.y + h ==> img.At(x, y) == color
    ensures RectSum(img, pos, w, h, c) == w * h * color.Ch(c)
  {
    if h > 0 {
      UniformRectSum(img, pos, w, h - 1, c, color);
      var y := pos.y + h - 1;
      assert forall x :: pos.x <= x < pos.x + w ==> img.rows[y][x] == img.At(x, y);
      UniformRowSum(img.rows[y], pos.x, w, c, color);
      assert RectSum(img, pos, w, h, c) == RectSum(img, pos, w, h - 1, c) + RowSum(img.rows[y], pos.x, w, c);
      RowStep(w, h, color.Ch(c));
    }
  }

  lemma RowStep(w: nat, h: nat, k: nat)
    requires 0 < h
    ensures w * (h - 1) * k + w * k == w * h * k
  {
  }

  /** A mean that is exactly `v` times the count floors to `v`. */
  lemma ExactMean(m: nat, v: nat, n: nat)
    requires 0 < n && m * n <= v * n < (m + 1) * n
    ensures m == v
  {
  }

  /** The average of a region of one colour is that colour (src/quad.rs:258-259). */
  lemma UniformAverage(img: Image, pos: Vec2, size: Vec2, color: Rgba)
    requires img.Valid() && NonEmpty(size) && Within(pos, size, img.Dimensions())
    requires Uniform(img, pos, size, color)
    ensures Average(img, pos, size) == color
  {
    var n := size.x * size.y;
    forall c | 0 <= c < 4
      ensures ChannelMean(img, pos, size, c) == color.Ch(c)
    {
      UniformRectSum(img, pos, size.x, size.y, c, color);
      assert size.x * size.y * color.Ch(c) == color.Ch(c) * n;
      ExactMean(ChannelMean(img, pos, size, c), color.Ch(c), n);
    }
    assert Average(img, pos, size).Ch(0) == color.Ch(0);
  }

  // ---------------------------------------------------------------------------
  // calc_quads: what holds of every state of the level loop

  /**
   * The size list starts with the image dimensions, every later size is the
   * floor half of the one before and at least the minimum size, and there are
   * no more sizes than levels allowed.
   */
  ghost predicate SizesOk(s: Setup, sizes: seq<Vec2>) {
    && |sizes| >= 1
    && sizes[0] == s.img.Dimensions()
    && (forall d :: 1 <= d < |sizes| ==> sizes[d] == Half(sizes[d - 1]).0 && AtLeast(sizes[d], s.minSize))
    && |sizes| <= Max(1, s.maxDepth)
  }

  /** A leaf recorded at depth `q.depth` fits the size of that depth and carries its colour. */
  ghost predicate EntryOk(s: Setup, sizes: seq<Vec2>, p: Vec2, q: Quad)
    requires s.Valid()
  {
    q.depth < |sizes| && ChildOk(s, VecQuad(p, q), sizes[q.depth], q.depth)
  }

  /** The invariant of the level loop, frontier included. */
  ghost predicate StateOk(s: Setup, st: QuadStructure, frontier: seq<Vec2>)
    requires s.Valid()
  {
    && SizesOk(s, st.sizes)
    && AllWithin(frontier, Last(st.sizes), s.img.Dimensions())
    && (|st.sizes| == 1 ==> frontier != [])
    && (forall p :: p in st.quads ==> 1 <= st.quads[p].depth && EntryOk(s, st.sizes, p, st.quads[p]))
    && (forall p :: p in st.quads && st.quads[p].depth == |st.sizes| - 1 ==> p in frontier)
  }

  /** Every entry of `InsertAll(m, out)` is either untouched from `m` or comes from `out`. */
  lemma {:induction false} InsertAllSource(m: map<Vec2, Quad>, out: seq<VecQuad>, p: Vec2)
    requires p in InsertAll(m, out)
    ensures || (p in m && InsertAll(m, out)[p] == m[p])
            || (exists k :: 0 <= k < |out| && out[k] == VecQuad(p, InsertAll(m, out)[p]))
  {
    if out != [] {
      var init := out[..|out| - 1];
      if p != Last(out).pos {
        InsertAllSource(m, init, p);
        if !(p in m && InsertAll(m, init)[p] == m[p]) {
          var k :| 0 <= k < |init| && init[k] == VecQuad(p, InsertAll(m, init)[p]);
          assert out[k] == init[k];
        }
      } else {
        assert out[|out| - 1] == VecQuad(p, InsertAll(m, out)[p]);
      }
    }
  }

  /** Appending the next halving keeps the size list well-formed. */
  lemma SizesStep(s: Setup, sizes: seq<Vec2>)
    requires SizesOk(s, sizes) && |sizes| < s.maxDepth && !Smaller(Half(Last(sizes)).0, s.minSize)
    ensures SizesOk(s, sizes + [Half(Last(sizes)).0])
  {
    var sizes' := sizes + [Half(Last(sizes)).0];
    SmallerIffNotAtLeast(Half(Last(sizes)).0, s.minSize);
    forall d | 1 <= d < |sizes'|
      ensures sizes'[d] == Half(sizes'[d - 1]).0 && AtLeast(sizes'[d], s.minSize)
    {
      if d < |sizes| {
        assert sizes'[d] == sizes[d] && sizes'[d - 1] == sizes[d - 1];
      }
    }
  }

  /** An entry of the map after one level, seen from the new size list. */
  lemma EntryStep(s: Setup, st: QuadStructure, frontier: seq<Vec2>, p: Vec2)
    requires s.Valid() && StateOk(s, st, frontier)
    requires |st.sizes| < s.maxDepth && !Smaller(Half(Last(st.sizes)).0, s.minSize)
    requires p in InsertAll(st.quads, LevelOut(s, frontier, Last(st.sizes), |st.sizes|))
    ensures var out := LevelOut(s, frontier, Last(st.sizes), |st.sizes|);
            var q := InsertAll(st.quads, out)[p];
            && 1 <= q.depth && EntryOk(s, st.sizes + [Half(Last(st.sizes)).0], p, q)
            && (q.depth == |st.sizes| ==> p in Positions(out))
  {
    var size := Half(Last(st.sizes)).0;
    var out := LevelOut(s, frontier, Last(st.sizes), |st.sizes|);
    var sizes' := st.sizes + [size];
    var q := InsertAll(st.quads, out)[p];
    InsertAllSource(st.quads, out, p);
    if p in st.quads && q == st.quads[p] {
      assert EntryOk(s, st.sizes, p, q);
      assert sizes'[q.depth] == st.sizes[q.depth];
    } else {
      var k :| 0 <= k < |out| && out[k] == VecQuad(p, q);
      assert ChildOk(s, out[k], size, |st.sizes|);
      assert sizes'[|st.sizes|] == size;
      assert Positions(out)[k] == p;
    }
  }

  /** One level of the loop keeps the invariant. */
  lemma LevelStep(s: Setup, st: QuadStructure, frontier: seq<Vec2>)
    requires s.Valid() && StateOk(s, st, frontier)
    requires |st.sizes| < s.maxDepth && |frontier| > 0 && !Smaller(Half(Last(st.sizes)).0, s.minSize)
    ensures var depth := |st.sizes|;
            var size := Half(Last(st.sizes)).0;
            var out := LevelOut(s, frontier, Last(st.sizes), depth);
            StateOk(s, QuadStructure(InsertAll(st.quads, out), st.sizes + [size]), Positions(out))
  {
    var out := LevelOut(s, frontier, Last(st.sizes), |st.sizes|);
    SizesStep(s, st.sizes);
    forall p | p in InsertAll(st.quads, out)
      ensures var q := InsertAll(st.quads, out)[p];
              && 1 <= q.depth && EntryOk(s, st.sizes + [Half(Last(st.sizes)).0], p, q)
              && (q.depth == |st.sizes| ==> p in Positions(out))
    {
      EntryStep(s, st, frontier, p);
    }
  }

  /** Where the level loop stops, one of its three exits holds. */
  ghost predicate Stopped(s: Setup, st: QuadStructure)
    requires |st.sizes| > 0
  {
    || |st.sizes| >= s.maxDepth
    || Smaller(Half(Last(st.sizes)).0, s.minSize)
    || (|st.sizes| > 1 && forall p :: p in st.quads ==> st.quads[p].depth < |st.sizes| - 1)
  }

  /** The invariant holds of the result of the level loop, which is a state where the loop stops. */
  lemma {:induction false} LevelsKeepState(s: Setup, st: QuadStructure, frontier: seq<Vec2>)
    requires s.Valid() && StateOk(s, st, frontier)
    ensures var r := Levels(s, st, frontier);
            && SizesOk(s, r.sizes)
            && (forall p :: p in r.quads ==> 1 <= r.quads[p].depth && EntryOk(s, r.sizes, p, r.quads[p]))
            && Stopped(s, r)
    decreases s.maxDepth - |st.sizes|
  {
    var depth := |st.sizes|;
    if depth < s.maxDepth && |frontier| > 0 {
      var size := Half(Last(st.sizes)).0;
      if !Smaller(size, s.minSize) {
        var out := LevelOut(s, frontier, Last(st.sizes), depth);
        LevelStep(s, st, frontier);
        LevelsKeepState(s, QuadStructure(InsertAll(st.quads, out), st.sizes + [size]), Positions(out));
      }
    } else if depth < s.maxDepth {
      assert |st.sizes| > 1;
      assert forall p :: p in st.quads ==> st.quads[p].depth < |st.sizes| - 1;
    }
  }

  // ---------------------------------------------------------------------------
  // calc_quads: what the returned structure satisfies

  /** The facts about `Build` that the lemmas below spell out. */
  /** The depth-0 root `calc_quads` adds keeps every entry well formed and the loop stopped. */
  lemma RootEntry(s: Setup, st: QuadStructure)
    requires s.Valid() && s.doColor && NonEmpty(s.img.Dimensions()) && ZERO !in st.quads
    requires SizesOk(s, st.sizes) && Stopped(s, st)
    requires forall p :: p in st.quads ==> 1 <= st.quads[p].depth && EntryOk(s, st.sizes, p, st.quads[p])
    ensures var m := st.quads[ZERO := Quad(0, Some(Average(s.img, ZERO, s.img.Dimensions())))];
            && (forall p :: p in m ==> EntryOk(s, st.sizes, p, m[p]) && (m[p].depth == 0 ==> p == ZERO))
            && Stopped(s, QuadStructure(m, st.sizes))
  {
    var root := Quad(0, Some(Average(s.img, ZERO, s.img.Dimensions())));
    var m := st.quads[ZERO := root];
    assert EntryOk(s, st.sizes, ZERO, root);
    forall p | p in m
      ensures EntryOk(s, st.sizes, p, m[p]) && (m[p].depth == 0 ==> p == ZERO)
    {
      if p != ZERO {
        assert m[p] == st.quads[p];
      }
    }
  }

  lemma BuildOk(img: Image, minSize: Vec2, minDepth: nat, threshold: Rgba, doColor: bool)
    requires img.Valid() && NonEmpty(minSize) && (doColor ==> NonEmpty(img.Dimensions()))
    ensures var s := SetupOf(img, minSize, minDepth, threshold, doColor);
            var qs := Build(img, minSize, minDepth, threshold, doColor);
            && SizesOk(s, qs.sizes)
            && (forall p :: p in qs.quads ==> EntryOk(s, qs.sizes, p, qs.quads[p]))
            && (forall p :: p in qs.quads && qs.quads[p].depth == 0 ==> p == ZERO && doColor)
            && Stopped(s, qs)
  {
    var s := SetupOf(img, minSize, minDepth, threshold, doColor);
    assert StateOk(s, Start(img), [ZERO]);
    LevelsKeepState(s, Start(img), [ZERO]);
    var st := Levels(s, Start(img), [ZERO]);
    if doColor && ZERO !in st.quads {
      RootEntry(s, st);
      assert Build(img, minSize, minDepth, threshold, doColor)
             == QuadStructure(st.quads[ZERO := Quad(0, Some(Average(img, ZERO, img.Dimensions())))], st.sizes);
    } else {
      assert Build(img, minSize, minDepth, threshold, doColor) == st;
    }
  }

  /**
   * `sizes` (src/quad.rs:37-61) starts with the image dimensions; every later
   * entry is the floor half of the one before and at least `minSize` on both
   * axes; there are at most `max(1, max_depth)` entries.
   */
  lemma BuildSizes(img: Image, minSize: Vec2, minDepth: nat, threshold: Rgba, doColor: bool)
    requires img.Valid() && NonEmpty(minSize) && (doColor ==> NonEmpty(img.Dimensions()))
    ensures var qs := Build(img, minSize, minDepth, threshold, doColor);
            && |qs.sizes| >= 1
            && qs.sizes[0] == img.Dimensions()
            && (forall d :: 1 <= d < |qs.sizes| ==> qs.sizes[d] == Half(qs.sizes[d - 1]).0)
            && (forall d :: 1 <= d < |qs.sizes| ==> AtLeast(qs.sizes[d], minSize))
            && |qs.sizes| <= Max(1, MaxDepth(img.width * img.height))
  {
    BuildOk(img, minSize, minDepth, threshold, doColor);
  }

  /**
   * Every leaf has a recorded depth, its rectangle of that depth's size is
   * non-empty and lies inside the image, and depth 0 is only the whole-image
   * root of a coloured build.
   */
  lemma BuildLeavesFit(img: Image, minSize: Vec2, minDepth: nat, threshold: Rgba, doColor: bool)
    requires img.Valid() && NonEmpty(minSize) && (doColor ==> NonEmpty(img.Dimensions()))
    ensures var qs := Build(img, minSize, minDepth, threshold, doColor);
            forall p :: p in qs.quads ==>
              && qs.quads[p].depth < |qs.sizes|
              && NonEmpty(qs.sizes[qs.quads[p].depth])
              && Within(p, qs.sizes[qs.quads[p].depth], img.Dimensions())
              && (qs.quads[p].depth == 0 ==> p == ZERO && doColor)
  {
    BuildOk(img, minSize, minDepth, threshold, doColor);
  }

  /**
   * A leaf carries a colour exactly when colours are kept, and that colour is
   * the average of the leaf's own rectangle.
   */
  lemma BuildLeafColors(img: Image, minSize: Vec2, minDepth: nat, threshold: Rgba, doColor: bool)
    requires img.Valid() && NonEmpty(minSize) && (doColor ==> NonEmpty(img.Dimensions()))
    ensures var qs := Build(img, minSize, minDepth, threshold, doColor);
            forall p :: p in qs.quads ==>
              && (qs.quads[p].color.Some? <==> doColor)
              && qs.quads[p].depth < |qs.sizes|
              && NonEmpty(qs.sizes[qs.quads[p].depth])
              && Within(p, qs.sizes[qs.quads[p].depth], img.Dimensions())
              && (doColor ==> qs.quads[p].color.value == Average(img, p, qs.sizes[qs.quads[p].depth]))
  {
    BuildOk(img, minSize, minDepth, threshold, doColor);
  }

  /** With colours kept, the origin always holds a leaf, so the whole image is covered from there. */
  lemma BuildColoredHasOrigin(img: Image, minSize: Vec2, minDepth: nat, threshold: Rgba)
    requires img.Valid() && NonEmpty(minSize) && NonEmpty(img.Dimensions())
    ensures ZERO in Build(img, minSize, minDepth, threshold, true).quads
  {
  }

  /**
   * The loop ends for one of its three reasons: `max_depth` was reached, the
   * next halving would fall below `minSize`, or the last level accepted no
   * split, so no leaf has the deepest recorded depth.
   */
  lemma BuildStops(img: Image, minSize: Vec2, minDepth: nat, threshold: Rgba, doColor: bool)
    requires img.Valid() && NonEmpty(minSize) && (doColor ==> NonEmpty(img.Dimensions()))
    ensures var qs := Build(img, minSize, minDepth, threshold, doColor);
            && |qs.sizes| >= 1
            && (|| |qs.sizes| >= MaxDepth(img.width * img.height)
                || Smaller(Half(Last(qs.sizes)).0, minSize)
                || (|qs.sizes| > 1 && forall p :: p in qs.quads ==> qs.quads[p].depth < |qs.sizes| - 1))
  {
    BuildOk(img, minSize, minDepth, threshold, doColor);
    assert Stopped(SetupOf(img, minSize, minDepth, threshold, doColor), Build(img, minSize, minDepth, threshold, doColor));
  }

  // ---------------------------------------------------------------------------
  // One node, one level

  /** At depths up to `minDepth`, without colours, a split is taken without averaging (src/quad.rs:75). */
  lemma SubdivideShortcut(s: Setup, node: Vec2, parent: Vec2, depth: nat)
    requires s.Valid() && Within(node, parent, s.img.Dimensions()) && AtLeast(Half(parent).0, s.minSize)
    requires depth <= s.minDepth && !s.doColor
    ensures Subdivide(s, node, parent, depth) == Some(GenerateSubnodes(node, Half(parent).0, Half(parent).1, depth))
  {
  }

  /**
   * Past `minDepth`, or with colours kept, a split is rejected exactly when no
   * two of the children's averages differ by more than the threshold in any
   * channel (src/quad.rs:75-84).
   */
  lemma SubdivideRejects(s: Setup, node: Vec2, parent: Vec2, depth: nat)
    requires s.Valid() && Within(node, parent, s.img.Dimensions()) && AtLeast(Half(parent).0, s.minSize)
    requires depth > s.minDepth || s.doColor
    ensures var (size, modulo) := Half(parent);
            var subs := GenerateSubnodes(node, size, modulo, depth);
            && NonEmpty(size)
            && (forall i :: 0 <= i < 4 ==> Within(subs[i].pos, size, s.img.Dimensions()))
            && (Subdivide(s, node, parent, depth).None? <==>
                  forall c, i, j :: 0 <= c < 4 && 0 <= i < 4 && 0 <= j < 4 ==>
                    Average(s.img, subs[i].pos, size).Ch(c) - Average(s.img, subs[j].pos, size).Ch(c) <= s.threshold.Ch(c))
  {
    var (size, modulo) := Half(parent);
    var subs := GenerateSubnodes(node, size, modulo, depth);
    var averages := [ Average(s.img, subs[0].pos, size), Average(s.img, subs[1].pos, size),
                      Average(s.img, subs[2].pos, size), Average(s.img, subs[3].pos, size) ];
    assert forall i :: 0 <= i < 4 ==> averages[i] == Average(s.img, subs[i].pos, size);
    assert Subdivide(s, node, parent, depth).None? <==> AreLeThreshold(averages, s.threshold);
  }

  /** The children of an accepted node appear together, in order, at offset `off` of the level's output. */
  lemma {:induction false} LevelOutHasChildren(s: Setup, frontier: seq<Vec2>, parent: Vec2, depth: nat, i: nat)
    returns (off: nat)
    requires s.Valid() && AllWithin(frontier, parent, s.img.Dimensions()) && AtLeast(Half(parent).0, s.minSize)
    requires i < |frontier| && Subdivide(s, frontier[i], parent, depth).Some?
    ensures var out := LevelOut(s, frontier, parent, depth);
            off + 4 <= |out| && out[off..off + 4] == Subdivide(s, frontier[i], parent, depth).value
  {
    var init := frontier[..|frontier| - 1];
    assert AllWithin(init, parent, s.img.Dimensions());
    var head := LevelOut(s, init, parent, depth);
    var out := LevelOut(s, frontier, parent, depth);
    var last := Subdivide(s, Last(frontier), parent, depth);
    assert out == head + if last.Some? then last.value else [];
    if i == |frontier| - 1 {
      off := |head|;
      assert out[off..off + 4] == last.value;
    } else {
      assert init[i] == frontier[i];
      off := LevelOutHasChildren(s, init, parent, depth, i);
      assert out[off..off + 4] == head[off..off + 4];
    }
  }

  /**
   * An accepted split records all four children in the map and puts them in
   * the next frontier (src/quad.rs:99-103).
   */
  lemma AcceptedChildrenRecorded(s: Setup, m: map<Vec2, Quad>, frontier: seq<Vec2>, parent: Vec2, depth: nat, i: nat)
    requires s.Valid() && AllWithin(frontier, parent, s.img.Dimensions()) && AtLeast(Half(parent).0, s.minSize)
    requires i < |frontier| && Subdivide(s, frontier[i], parent, depth).Some?
    ensures var out := LevelOut(s, frontier, parent, depth);
            var subs := Subdivide(s, frontier[i], parent, depth).value;
            forall k :: 0 <= k < 4 ==> subs[k].pos in InsertAll(m, out) && subs[k].pos in Positions(out)
  {
    var out := LevelOut(s, frontier, parent, depth);
    var subs := Subdivide(s, frontier[i], parent, depth).value;
    var off := LevelOutHasChildren(s, frontier, parent, depth, i);
    forall k | 0 <= k < 4
      ensures subs[k].pos in InsertAll(m, out) && subs[k].pos in Positions(out)
    {
      assert out[off + k] == out[off..off + 4][k] == subs[k];
      assert Positions(out)[off + k] == subs[k].pos;
    }
  }

  /**
   * Everything a level outputs is a child of the frontier node `i`, whose
   * split was accepted: a rejected node contributes nothing.
   */
  lemma {:induction false} LevelOutFromAccepted(s: Setup, frontier: seq<Vec2>, parent: Vec2, depth: nat, k: nat)
    returns (i: nat, j: nat)
    requires s.Valid() && AllWithin(frontier, parent, s.img.Dimensions()) && AtLeast(Half(parent).0, s.minSize)
    requires k < |LevelOut(s, frontier, parent, depth)|
    ensures i < |frontier| && j < 4 && Subdivide(s, frontier[i], parent, depth).Some?
    ensures LevelOut(s, frontier, parent, depth)[k] == Subdivide(s, frontier[i], parent, depth).value[j]
  {
    var init := frontier[..|frontier| - 1];
    assert AllWithin(init, parent, s.img.Dimensions());
    var head := LevelOut(s, init, parent, depth);
    var out := LevelOut(s, frontier, parent, depth);
    if k < |head| {
      i, j := LevelOutFromAccepted(s, init, parent, depth, k);
      assert frontier[i] == init[i] && out[k] == head[k];
    } else {
      i, j := |frontier| - 1, k - |head|;
    }
  }

  // ---------------------------------------------------------------------------
  // max_depth

  lemma {:induction false} Pow2Monotonic(a: nat, b: nat)
    requires a <= b
    ensures Pow2(a) <= Pow2(b)
    decreases b
  {
    if a < b {
      Pow2Monotonic(a, b - 1);
    }
  }

  /** `FloorLog2(n)` is the one `k` with `2^k <= n < 2^(k+1)`. */
  lemma FloorLog2Unique(n: nat, k: nat)
    requires Pow2(k) <= n < 2 * Pow2(k)
    ensures FloorLog2(n) == k
  {
  }

  /** `max_depth` levels of quartering never use more quarters than there are pixels: `4^max_depth <= w*h`. */
  lemma MaxDepthBound(area: nat)
    requires 0 < area
    ensures Pow2(2 * MaxDepth(area)) <= area
  {
    Pow2Monotonic(2 * MaxDepth(area), FloorLog2(area));
  }

  // ---------------------------------------------------------------------------
  // Uniform images

  /** The four children of the whole image lie inside it, and a uniform image is uniform on each. */
  lemma UniformChildren(img: Image, c: Rgba, depth: nat)
    requires img.Valid() && Uniform(img, ZERO, img.Dimensions(), c)
    ensures var (size, modulo) := Half(img.Dimensions());
            var subs := GenerateSubnodes(ZERO, size, modulo, depth);
            forall k :: 0 <= k < 4 ==> Within(subs[k].pos, size, img.Dimensions()) && Uniform(img, subs[k].pos, size, c)
  {
    SubnodesSplitParent(ZERO, img.Dimensions(), depth);
  }

  /**
   * With colours kept, a uniform image whose first split is allowed gives a
   * single depth-0 root carrying the image colour, and the sizes of depth 0
   * and 1 (src/quad.rs:107-116).
   */
  lemma UniformImageSingleRoot(img: Image, minSize: Vec2, minDepth: nat, threshold: Rgba, c: Rgba)
    requires img.Valid() && NonEmpty(minSize) && NonEmpty(img.Dimensions())
    requires Uniform(img, ZERO, img.Dimensions(), c)
    requires AtLeast(Half(img.Dimensions()).0, minSize) && 1 < MaxDepth(img.width * img.height)
    ensures Build(img, minSize, minDepth, threshold, true)
            == QuadStructure(map[ZERO := Quad(0, Some(c))], [img.Dimensions(), Half(img.Dimensions()).0])
  {
    var s := SetupOf(img, minSize, minDepth, threshold, true);
    var (size, modulo) := Half(img.Dimensions());
    var subs := GenerateSubnodes(ZERO, size, modulo, 1);
    UniformChildren(img, c, 1);
    forall k | 0 <= k < 4
      ensures Average(img, subs[k].pos, size) == c
    {
      UniformAverage(img, subs[k].pos, size, c);
    }
    var averages := [ Average(img, subs[0].pos, size), Average(img, subs[1].pos, size),
                      Average(img, subs[2].pos, size), Average(img, subs[3].pos, size) ];
    assert AreLeThreshold(averages, threshold);
    assert Subdivide(s, ZERO, img.Dimensions(), 1) == None;
    assert LevelOut(s, [ZERO], img.Dimensions(), 1) == [];
    var next := QuadStructure(map[], [img.Dimensions(), size]);
    assert InsertAll(map[], []) == map[];
    assert Levels(s, next, []) == next;
    assert Levels(s, Start(img), [ZERO]) == next;
    UniformAverage(img, ZERO, img.Dimensions(), c);
  }

  /** The test at src/quad.rs:189-200: a uniform 64 by 64 image gives one root and sizes [64;64], [32;32]. */
  lemma UniformSquareExample(img: Image, minDepth: nat, threshold: Rgba, c: Rgba)
    requires img.Valid() && img.Dimensions() == Vec2(64, 64)
    requires Uniform(img, ZERO, img.Dimensions(), c)
    ensures Build(img, DEFAULT_MIN_SIZE, minDepth, threshold, true)
            == QuadStructure(map[ZERO := Quad(0, Some(c))], [Vec2(64, 64), Vec2(32, 32)])
  {
    FloorLog2Unique(4096, 12);
    UniformImageSingleRoot(img, DEFAULT_MIN_SIZE, minDepth, threshold, c);
  }

  // ---------------------------------------------------------------------------
  // The size comparison of src/quad.rs:57

  /**
   * The next frontier when every node of `frontier` is split unconditionally
   * (src/quad.rs:74 and 93): the positions of each node's four children, in
   * frontier order.
   */
  function Expand(frontier: seq<Vec2>, parent: Vec2, dims: Vec2, depth: nat): (r: seq<Vec2>)
    requires AllWithin(frontier, parent, dims)
    ensures |r| == 4 * |frontier|
    ensures AllWithin(r, Half(parent).0, dims)
  {
    if frontier == [] then []
    else
      var init := frontier[..|frontier| - 1];
      assert AllWithin(init, parent, dims);
      var (size, modulo) := Half(parent);
      Expand(init, parent, dims, depth) + Positions(GenerateSubnodes(Last(frontier), size, modulo, depth))
  }

  /**
   * The level loop of src/quad.rs:53-105 as written, with `<` at line 57 read
   * lexicographically, for a build that does not keep colours, over the
   * levels where every split is taken without averaging (depth up to
   * `minDepth`). It stops where the loop ends, or at the first level past
   * `minDepth`, where the closure starts averaging the children (line 75);
   * it returns the sizes recorded by then and the frontier of that level.
   */
  function LexShortcutRun(dims: Vec2, minSize: Vec2, minDepth: nat, maxDepth: nat,
                          sizes: seq<Vec2>, frontier: seq<Vec2>): (r: (seq<Vec2>, seq<Vec2>))
    requires |sizes| > 0 && AllWithin(frontier, Last(sizes), dims)
    ensures |sizes| <= |r.0| && r.0[..|sizes|] == sizes
    ensures forall d :: |sizes| <= d < |r.0| ==> r.0[d] == Half(r.0[d - 1]).0 && !LexLess(r.0[d], minSize)
    decreases maxDepth - |sizes|
  {
    var depth := |sizes|;
    if depth < maxDepth && |frontier| > 0 then
      var (size, _) := Half(Last(sizes));
      if LexLess(size, minSize) then (sizes, frontier)
      else if depth > minDepth then (sizes + [size], frontier)
      else LexShortcutRun(dims, minSize, minDepth, maxDepth, sizes + [size], Expand(frontier, Last(sizes), dims, depth))
    else (sizes, frontier)
  }

  /** One level of `LexShortcutRun` where the split is taken: record the halved size, expand the frontier. */
  lemma LexShortcutStep(dims: Vec2, minSize: Vec2, minDepth: nat, maxDepth: nat, sizes: seq<Vec2>, frontier: seq<Vec2>)
    returns (next: seq<Vec2>)
    requires |sizes| > 0 && AllWithin(frontier, Last(sizes), dims)
    requires |sizes| < maxDepth && |frontier| > 0 && |sizes| <= minDepth && !LexLess(Half(Last(sizes)).0, minSize)
    ensures next == Expand(frontier, Last(sizes), dims, |sizes|) && |next| == 4 * |frontier|
    ensures AllWithin(next, Last(sizes + [Half(Last(sizes)).0]), dims)
    ensures LexShortcutRun(dims, minSize, minDepth, maxDepth, sizes, frontier)
            == LexShortcutRun(dims, minSize, minDepth, maxDepth, sizes + [Half(Last(sizes)).0], next)
  {
    next := Expand(frontier, Last(sizes), dims, |sizes|);
  }

  /**
   * With the lexicographic order, a 1024 by 4 image, the default minimum
   * size and minimum depth, and colours not kept, the loop splits everything
   * down to zero-height quads: depth 5 (below `max_depth` 6, past `min_depth`
   * 4) has size [32;0] and a frontier of 256 nodes of size [64;0], so the
   * closure averages each node's children over rectangles of no pixels, where
   * `average_colors` divides by a zero count (src/quad.rs:168-171).
   */
  lemma LexOrderReachesEmptyQuads(img: Image)
    requires img.Valid() && img.Dimensions() == Vec2(1024, 4)
    ensures MaxDepth(img.width * img.height) == 6
    ensures var r := LexShortcutRun(img.Dimensions(), DEFAULT_MIN_SIZE, DEFAULT_MIN_DEPTH,
                                    MaxDepth(img.width * img.height), [img.Dimensions()], [ZERO]);
            && r.0 == [Vec2(1024, 4), Vec2(512, 2), Vec2(256, 1), Vec2(128, 0), Vec2(64, 0), Vec2(32, 0)]
            && |r.1| == 256
            && DEFAULT_MIN_DEPTH < |r.0| - 1 < MaxDepth(img.width * img.height)
            && Last(r.0).x * Last(r.0).y == 0
  {
    FloorLog2Unique(4096, 12);
    var _ := ThinImageLexLevels(img.Dimensions(), [ZERO]);
  }

  /** The levels of `LexOrderReachesEmptyQuads`, from any single starting node. */
  lemma ThinImageLexLevels(dims: Vec2, origin: seq<Vec2>) returns (r: (seq<Vec2>, seq<Vec2>))
    requires dims == Vec2(1024, 4) && |origin| == 1 && AllWithin(origin, dims, dims)
    ensures r == LexShortcutRun(dims, DEFAULT_MIN_SIZE, 4, 6, [dims], origin)
    ensures r.0 == [Vec2(1024, 4), Vec2(512, 2), Vec2(256, 1), Vec2(128, 0), Vec2(64, 0), Vec2(32, 0)]
    ensures |r.1| == 256
  {
    var s1 := [dims];
    var f2 := LexShortcutStep(dims, DEFAULT_MIN_SIZE, 4, 6, s1, origin);
    var s2 := s1 + [Vec2(512, 2)];
    var f3 := LexShortcutStep(dims, DEFAULT_MIN_SIZE, 4, 6, s2, f2);
    var s3 := s2 + [Vec2(256, 1)];
    var f4 := LexShortcutStep(dims, DEFAULT_MIN_SIZE, 4, 6, s3, f3);
    var s4 := s3 + [Vec2(128, 0)];
    var f5 := LexShortcutStep(dims, DEFAULT_MIN_SIZE, 4, 6, s4, f4);
    var s5 := s4 + [Vec2(64, 0)];
    LexShortcutPastMinDepth(dims, s5, f5);
    r := (s5 + [Vec2(32, 0)], f5);
  }

  /** The level after `minDepth` 4 at size [64;0]: [32;0] is recorded and the run stops with the same frontier. */
  lemma LexShortcutPastMinDepth(dims: Vec2, sizes: seq<Vec2>, frontier: seq<Vec2>)
    requires |sizes| == 5 && Last(sizes) == Vec2(64, 0) && |frontier| > 0 && AllWithin(frontier, Last(sizes), dims)
    ensures LexShortcutRun(dims, DEFAULT_MIN_SIZE, 4, 6, sizes, frontier) == (sizes + [Vec2(32, 0)], frontier)
  {
    assert Half(Last(sizes)).0 == Vec2(32, 0);
  }

  /**
   * With the component-wise comparison the same image stops at once: the
   * first halving, [512;2], is below the minimum in height, so only the
   * image size is recorded and no quad is ever averaged at zero area.
   */
  lemma ThinImageStopsAtFirstHalving(img: Image, minDepth: nat, threshold: Rgba, doColor: bool)
    requires img.Valid() && img.Dimensions() == Vec2(1024, 4)
    ensures Build(img, DEFAULT_MIN_SIZE, minDepth, threshold, doColor).sizes == [Vec2(1024, 4)]
  {
    var s := SetupOf(img, DEFAULT_MIN_SIZE, minDepth, threshold, doColor);
    assert Smaller(Half(img.Dimensions()).0, DEFAULT_MIN_SIZE);
    assert Levels(s, Start(img), [ZERO]) == Start(img);
  }

  /** Lexicographically below implies component-wise smaller, but not the other way round. */
  lemma LexLessIsStricter(a: Vec2, b: Vec2)
    ensures LexLess(a, b) ==> Smaller(a, b)
    ensures Smaller(Vec2(8, 2), DEFAULT_MIN_SIZE) && !LexLess(Vec2(8, 2), DEFAULT_MIN_SIZE)
  {
  }
}
