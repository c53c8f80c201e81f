/**
 * The quadtree builder of src/quad.rs: level by level, every frontier node is
 * split into four children; a split stands only while the children's average
 * colours differ by more than the threshold in some channel.
 *
 * `Build` is the level-by-level specification; `CalcQuads` is the imperative
 * loop of the source, proved to compute `Build`.
 */
module Quadtree {
  import opened Wrappers
  import opened Vectors
  import opened Pixels

  const DEFAULT_MIN_DEPTH: nat := 4
  /** DeepPink, the outline colour when neither an override nor an average is known. */
  const DEFAULT_COLOR: Rgba := Rgba(255, 20, 147, 255)
  const DEFAULT_THRESHOLD: Rgba := Rgba(8, 8, 8, 8)
  const DEFAULT_MIN_SIZE: Vec2 := Vec2(4, 4)

  /** A leaf: the depth at which it was recorded and, when kept, its average colour. */
  datatype Quad = Quad(depth: nat, color: Option<Rgba>)

  /** A quad together with its top-left position. */
  datatype VecQuad = VecQuad(pos: Vec2, quad: Quad)

  /** The builder's output: leaves by position, and the quad size of every depth. */
  datatype QuadStructure = QuadStructure(quads: map<Vec2, Quad>, sizes: seq<Vec2>)

  /** The inputs that stay fixed during one build. */
  datatype Setup = Setup(img: Image, minSize: Vec2, minDepth: nat, threshold: Rgba,
                         doColor: bool, maxDepth: nat)
  {
    predicate Valid() {
      img.Valid() && NonEmpty(minSize)
    }
  }

  function Last<T>(s: seq<T>): T
    requires |s| > 0
  {
    s[|s| - 1]
  }

  function Max(a: int, b: int): int { if a < b then b else a }

  function Min(a: int, b: int): int { if a < b then a else b }

  // ---------------------------------------------------------------------------
  // generate_subnodes

  /**
   * The four children of the node at `pos`: top-left, top-right, bottom-left,
   * bottom-right, the right and lower ones offset by the child size plus the
   * remainder of halving. Each carries `depth` and no colour.
   */
  function GenerateSubnodes(pos: Vec2, size: Vec2, modulo: Vec2, depth: nat): (r: seq<VecQuad>)
    requires pos.x + size.x + modulo.x < 0x1_0000_0000
    requires pos.y + size.y + modulo.y < 0x1_0000_0000
    ensures |r| == 4
    ensures forall k :: 0 <= k < 4 ==> r[k].quad == Quad(depth, None)
  {
    var right := pos.x + size.x + modulo.x;
    var below := pos.y + size.y + modulo.y;
    [ VecQuad(Vec2(pos.x, pos.y), Quad(depth, None)),
      VecQuad(Vec2(right, pos.y), Quad(depth, None)),
      VecQuad(Vec2(pos.x, below), Quad(depth, None)),
      VecQuad(Vec2(right, below), Quad(depth, None)) ]
  }

  // ---------------------------------------------------------------------------
  // are_le_treshold

  function MaxChannel(averages: seq<Rgba>, c: nat): U8
    requires |averages| == 4 && c < 4
  {
    Max(Max(averages[0].Ch(c), averages[1].Ch(c)), Max(averages[2].Ch(c), averages[3].Ch(c)))
  }

  function MinChannel(averages: seq<Rgba>, c: nat): U8
    requires |averages| == 4 && c < 4
  {
    Min(Min(averages[0].Ch(c), averages[1].Ch(c)), Min(averages[2].Ch(c), averages[3].Ch(c)))
  }

  /** No two of the four averages differ in channel `c` by more than `limit`. */
  predicate SpreadWithin(averages: seq<Rgba>, c: nat, limit: int)
    requires |averages| == 4 && c < 4
  {
    forall i, j :: 0 <= i < 4 && 0 <= j < 4 ==> averages[i].Ch(c) - averages[j].Ch(c) <= limit
  }

  /**
   * For every channel, the largest of the four averages minus the smallest is
   * at most the threshold; that is, no two averages are further apart.
   */
  function AreLeThreshold(averages: seq<Rgba>, threshold: Rgba): (r: bool)
    requires |averages| == 4
    ensures r <==> forall c :: 0 <= c < 4 ==> SpreadWithin(averages, c, threshold.Ch(c))
  {
    forall c :: 0 <= c < 4 ==> MaxChannel(averages, c) - MinChannel(averages, c) <= threshold.Ch(c)
  }

  // ---------------------------------------------------------------------------
  // average_colors

  /** Channel `c` summed over `w` pixels of `row` from column `x0`. */
  function RowSum(row: seq<Rgba>, x0: nat, w: nat, c: nat): (s: nat)
    requires x0 + w <= |row| && c < 4
    ensures s <= 255 * w
  {
    if w == 0 then 0 else RowSum(row, x0, w - 1, c) + row[x0 + w - 1].Ch(c)
  }

  /** Channel `c` summed over the `w` by `h` rectangle of `img` at `pos`. */
  function RectSum(img: Image, pos: Vec2, w: nat, h: nat, c: nat): (s: nat)
    requires img.Valid() && pos.x + w <= img.width && pos.y + h <= img.height && c < 4
    ensures s <= 255 * (w * h)
  {
    if h == 0 then 0
    else
      var above := RectSum(img, pos, w, h - 1, c);
      var row := RowSum(img.rows[pos.y + h - 1], pos.x, w, c);
      assert w * h == w * (h - 1) + w;
      above + row
  }

  /** The floor of the mean of channel `c` over the rectangle. */
  function ChannelMean(img: Image, pos: Vec2, size: Vec2, c: nat): (m: U8)
    requires img.Valid() && NonEmpty(size) && Within(pos, size, img.Dimensions()) && c < 4
    ensures m * (size.x * size.y) <= RectSum(img, pos, size.x, size.y, c)
    ensures RectSum(img, pos, size.x, size.y, c) < (m + 1) * (size.x * size.y)
  {
    var s := RectSum(img, pos, size.x, size.y, c);
    MeanBound(s, size.x, size.y);
    s / (size.x * size.y)
  }

  lemma MeanBound(s: nat, w: nat, h: nat)
    requires 0 < w && 0 < h && s <= 255 * (w * h)
    ensures 0 <= s / (w * h) <= 255
    ensures (s / (w * h)) * (w * h) <= s < (s / (w * h) + 1) * (w * h)
  {
    PositiveProduct(w, h);
    MeanOf(s, w * h);
  }

  lemma PositiveProduct(w: nat, h: nat)
    requires 0 < w && 0 < h
    ensures 0 < w * h
  {
  }

  lemma MeanOf(s: nat, n: nat)
    requires 0 < n && s <= 255 * n
    ensures s / n <= 255
    ensures (s / n) * n <= s < (s / n + 1) * n
  {
  }

  /** The per-channel floor average of the rectangle at `pos` of `size`. */
  function Average(img: Image, pos: Vec2, size: Vec2): (avg: Rgba)
    requires img.Valid() && NonEmpty(size) && Within(pos, size, img.Dimensions())
  {
    Rgba(ChannelMean(img, pos, size, 0), ChannelMean(img, pos, size, 1),
         ChannelMean(img, pos, size, 2), ChannelMean(img, pos, size, 3))
  }

  /**
   * `average_colors`: sums every channel over the pixels of the rectangle in
   * row order, counts the pixels, and divides.
   */
  method AverageColors(img: Image, pos: Vec2, size: Vec2) returns (avg: Rgba)
    requires img.Valid() && NonEmpty(size) && Within(pos, size, img.Dimensions())
    ensures avg == Average(img, pos, size)
  {
    var count: nat := 0;
    var tot: seq<nat> := [0, 0, 0, 0];
    var y := 0;
    while y < size.y
      invariant 0 <= y <= size.y && |tot| == 4
      invariant count == y * size.x
      invariant forall c :: 0 <= c < 4 ==> tot[c] == RectSum(img, pos, size.x, y, c)
    {
      tot, count := AccumulateRow(img.rows[pos.y + y], pos.x, size.x, tot, count);
      y := y + 1;
    }
    MeanOfTotals(img, pos, size, tot, count);
    avg := Rgba(tot[0] / count, tot[1] / count, tot[2] / count, tot[3] / count);
  }

  /** The inner part of `average_colors`' pixel loop: one row of the rectangle. */
  method AccumulateRow(row: seq<Rgba>, x0: nat, w: nat, tot: seq<nat>, count: nat)
    returns (tot': seq<nat>, count': nat)
    requires x0 + w <= |row| && |tot| == 4
    ensures |tot'| == 4 && count' == count + w
    ensures forall c :: 0 <= c < 4 ==> tot'[c] == tot[c] + RowSum(row, x0, w, c)
  {
    tot', count' := tot, count;
    var x := 0;
    while x < w
      invariant 0 <= x <= w && |tot'| == 4
      invariant count' == count + x
      invariant forall c :: 0 <= c < 4 ==> tot'[c] == tot[c] + RowSum(row, x0, x, c)
    {
      var p := row[x0 + x];
      tot' := [tot'[0] + p.r, tot'[1] + p.g, tot'[2] + p.b, tot'[3] + p.a];
      count' := count' + 1;
      x := x + 1;
    }
  }

  lemma MeanOfTotals(img: Image, pos: Vec2, size: Vec2, tot: seq<nat>, count: nat)
    requires img.Valid() && NonEmpty(size) && Within(pos, size, img.Dimensions())
    requires |tot| == 4 && count == size.y * size.x
    requires forall c :: 0 <= c < 4 ==> tot[c] == RectSum(img, pos, size.x, size.y, c)
    ensures 0 < count
    ensures forall c :: 0 <= c < 4 ==> tot[c] / count == ChannelMean(img, pos, size, c)
  {
    assert size.y * size.x == size.x * size.y;
  }

  // ---------------------------------------------------------------------------
  // One level of calc_quads

  /** Every position in `nodes` has room for a rectangle of `size` inside `bounds`. */
  predicate AllWithin(nodes: seq<Vec2>, size: Vec2, bounds: Vec2) {
    forall k :: 0 <= k < |nodes| ==> Within(nodes[k], size, bounds)
  }

  /**
   * What a child recorded at `depth` with the size `size` must be: inside the
   * image, at that depth, and coloured with its own average exactly when the
   * build keeps colours.
   */
  predicate ChildOk(s: Setup, vq: VecQuad, size: Vec2, depth: nat)
    requires s.Valid()
  {
    && vq.quad.depth == depth
    && NonEmpty(size)
    && Within(vq.pos, size, s.img.Dimensions())
    && (vq.quad.color.Some? <==> s.doColor)
    && (vq.quad.color.Some? ==> vq.quad.color.value == Average(s.img, vq.pos, size))
  }

  /** The four children with their averages attached (src/quad.rs:86-91). */
  function Colored(subs: seq<VecQuad>, averages: seq<Rgba>): seq<VecQuad>
    requires |subs| == 4 && |averages| == 4
  {
    seq(4, k requires 0 <= k < 4 => VecQuad(subs[k].pos, subs[k].quad.(color := Some(averages[k]))))
  }

  /**
   * The per-node step of a level (the closure at src/quad.rs:73-94): the four
   * children of `node`, or `None` when the split is rejected. Averages are
   * computed, and the threshold consulted, only past `minDepth` or when
   * colours are kept.
   */
  function Subdivide(s: Setup, node: Vec2, parent: Vec2, depth: nat): (r: Option<seq<VecQuad>>)
    requires s.Valid() && Within(node, parent, s.img.Dimensions())
    requires AtLeast(Half(parent).0, s.minSize)
    ensures r.Some? ==> |r.value| == 4
    ensures r.Some? ==> forall k :: 0 <= k < 4 ==> ChildOk(s, r.value[k], Half(parent).0, depth)
  {
    var (size, modulo) := Half(parent);
    var subs := GenerateSubnodes(node, size, modulo, depth);
    if depth > s.minDepth || s.doColor then
      var averages := [ Average(s.img, subs[0].pos, size), Average(s.img, subs[1].pos, size),
                        Average(s.img, subs[2].pos, size), Average(s.img, subs[3].pos, size) ];
      if AreLeThreshold(averages, s.threshold) then None
      else if s.doColor then Some(Colored(subs, averages))
      else Some(subs)
    else Some(subs)
  }

  /**
   * The children that survive one level, in frontier order (src/quad.rs:70-97):
   * the parallel map keeps the order of the frontier, and rejected nodes
   * contribute nothing.
   */
  function LevelOut(s: Setup, frontier: seq<Vec2>, parent: Vec2, depth: nat): (out: seq<VecQuad>)
    requires s.Valid() && AllWithin(frontier, parent, s.img.Dimensions())
    requires AtLeast(Half(parent).0, s.minSize)
    ensures forall k :: 0 <= k < |out| ==> ChildOk(s, out[k], Half(parent).0, depth)
  {
    if frontier == [] then []
    else
      var init := frontier[..|frontier| - 1];
      assert AllWithin(init, parent, s.img.Dimensions());
      LevelOut(s, init, parent, depth) +
        match Subdivide(s, Last(frontier), parent, depth)
        case Some(subs) => subs
        case None => []
  }

  /** The positions of `out`, in order: the next frontier. */
  function Positions(out: seq<VecQuad>): seq<Vec2>
  {
    seq(|out|, k requires 0 <= k < |out| => out[k].pos)
  }

  /** Inserting `out` into `m` one by one, a later entry replacing an earlier one. */
  function InsertAll(m: map<Vec2, Quad>, out: seq<VecQuad>): (r: map<Vec2, Quad>)
    ensures r.Keys == m.Keys + set k | 0 <= k < |out| :: out[k].pos
  {
    if out == [] then m
    else
      var init := out[..|out| - 1];
      var r := InsertAll(m, init)[Last(out).pos := Last(out).quad];
      assert (set k | 0 <= k < |out| :: out[k].pos) == (set k | 0 <= k < |init| :: init[k].pos) + {Last(out).pos};
      r
  }

  // ---------------------------------------------------------------------------
  // calc_quads

  /** 2 to the power `k`. */
  function Pow2(k: nat): (p: nat)
    ensures 0 < p
  {
    if k == 0 then 1 else 2 * Pow2(k - 1)
  }

  /** The integer part of the base-2 logarithm of `n`; 0 for 0 and 1. */
  function FloorLog2(n: nat): (k: nat)
    ensures 0 < n ==> Pow2(k) <= n < 2 * Pow2(k)
    ensures n < 2 ==> k == 0
  {
    if n < 2 then 0 else 1 + FloorLog2(n / 2)
  }

  /**
   * `max_depth` of src/quad.rs:42: half the base-2 logarithm of the pixel
   * count, truncated; an empty image gives 0.
   */
  function MaxDepth(area: nat): nat {
    FloorLog2(area) / 2
  }

  /**
   * The level loop of src/quad.rs:53-105 from the state `st` with the given
   * frontier. The depth being built is the number of sizes recorded so far.
   */
  function Levels(s: Setup, st: QuadStructure, frontier: seq<Vec2>): (r: QuadStructure)
    requires s.Valid() && |st.sizes| > 0
    requires AllWithin(frontier, Last(st.sizes), s.img.Dimensions())
    decreases s.maxDepth - |st.sizes|
  {
    var depth := |st.sizes|;
    if depth < s.maxDepth && |frontier| > 0 then
      var (size, _) := Half(Last(st.sizes));
      if Smaller(size, s.minSize) then st
      else
        var out := LevelOut(s, frontier, Last(st.sizes), depth);
        Levels(s, QuadStructure(InsertAll(st.quads, out), st.sizes + [size]), Positions(out))
    else st
  }

  /** The first split is tried at depth 1 on the whole image. */
  function Start(img: Image): QuadStructure {
    QuadStructure(map[], [img.Dimensions()])
  }

  function SetupOf(img: Image, minSize: Vec2, minDepth: nat, threshold: Rgba, doColor: bool): Setup {
    Setup(img, minSize, minDepth, threshold, doColor, MaxDepth(img.width * img.height))
  }

  /**
   * The structure `calc_quads` returns: the level loop from the whole image,
   * then, when colours are kept and no leaf sits at the origin, a depth-0 root
   * with the whole-image average.
   */
  function Build(img: Image, minSize: Vec2, minDepth: nat, threshold: Rgba, doColor: bool): (qs: QuadStructure)
    requires img.Valid() && NonEmpty(minSize) && (doColor ==> NonEmpty(img.Dimensions()))
  {
    var s := SetupOf(img, minSize, minDepth, threshold, doColor);
    var st := Levels(s, Start(img), [ZERO]);
    if doColor && ZERO !in st.quads then
      st.(quads := st.quads[ZERO := Quad(0, Some(Average(img, ZERO, img.Dimensions())))])
    else st
  }

  /**
   * The closure of src/quad.rs:73-94 for one frontier node: generate the four
   * children and, past `minDepth` or when colours are kept, average them and
   * reject the split when they are within the threshold.
   */
  method SplitNode(img: Image, node: Vec2, currSize: Vec2, modulo: Vec2, currDepth: nat,
                   minDepth: nat, threshold: Rgba, doCalcColor: bool, ghost s: Setup, ghost parent: Vec2)
    returns (r: Option<seq<VecQuad>>)
    requires s == Setup(img, s.minSize, minDepth, threshold, doCalcColor, s.maxDepth) && s.Valid()
    requires (currSize, modulo) == Half(parent) && Within(node, parent, img.Dimensions())
    requires AtLeast(currSize, s.minSize)
    ensures r == Subdivide(s, node, parent, currDepth)
  {
    var subs := GenerateSubnodes(node, currSize, modulo, currDepth);
    if currDepth > minDepth || doCalcColor {
      var a0 := AverageColors(img, subs[0].pos, currSize);
      var a1 := AverageColors(img, subs[1].pos, currSize);
      var a2 := AverageColors(img, subs[2].pos, currSize);
      var a3 := AverageColors(img, subs[3].pos, currSize);
      var averages := [a0, a1, a2, a3];
      if AreLeThreshold(averages, threshold) {
        return None;
      }
      if doCalcColor {
        subs := Colored(subs, averages);
      }
    }
    return Some(subs);
  }

  /** The survivors of one more frontier node are appended to those before it. */
  lemma LevelOutStep(s: Setup, frontier: seq<Vec2>, parent: Vec2, depth: nat, i: nat)
    requires s.Valid() && AllWithin(frontier, parent, s.img.Dimensions())
    requires AtLeast(Half(parent).0, s.minSize) && i < |frontier|
    ensures var r := Subdivide(s, frontier[i], parent, depth);
            LevelOut(s, frontier[..i + 1], parent, depth)
            == LevelOut(s, frontier[..i], parent, depth) + (if r.Some? then r.value else [])
  {
    assert frontier[..i + 1][..i] == frontier[..i];
  }

  /**
   * The fan-out of src/quad.rs:70-97, run node after node in frontier order,
   * which is the order the parallel collect keeps.
   */
  method SplitFrontier(img: Image, frontier: seq<Vec2>, currSize: Vec2, modulo: Vec2, currDepth: nat,
                       minDepth: nat, threshold: Rgba, doCalcColor: bool, ghost s: Setup, ghost parent: Vec2)
    returns (out: seq<VecQuad>)
    requires s == Setup(img, s.minSize, minDepth, threshold, doCalcColor, s.maxDepth) && s.Valid()
    requires (currSize, modulo) == Half(parent) && AllWithin(frontier, parent, img.Dimensions())
    requires AtLeast(currSize, s.minSize)
    ensures out == LevelOut(s, frontier, parent, currDepth)
  {
    out := [];
    var i := 0;
    while i < |frontier|
      invariant 0 <= i <= |frontier|
      invariant out == LevelOut(s, frontier[..i], parent, currDepth)
    {
      var subs := SplitNode(img, frontier[i], currSize, modulo, currDepth, minDepth, threshold, doCalcColor, s, parent);
      LevelOutStep(s, frontier, parent, currDepth, i);
      match subs {
        case Some(children) => out := out + children;
        case None =>
      }
      i := i + 1;
    }
    assert frontier[..i] == frontier;
  }

  /**
   * The sequential merge of src/quad.rs:99-103: insert every surviving child
   * into the map and collect its position as the next frontier.
   */
  method Merge(quads: QuadStructure, out: seq<VecQuad>) returns (quads': QuadStructure, frontier: seq<Vec2>)
    ensures quads' == quads.(quads := InsertAll(quads.quads, out))
    ensures frontier == Positions(out)
  {
    quads' := quads;
    frontier := [];
    var j := 0;
    while j < |out|
      invariant 0 <= j <= |out|
      invariant quads' == quads.(quads := InsertAll(quads.quads, out[..j]))
      invariant frontier == Positions(out[..j])
    {
      assert out[..j + 1][..j] == out[..j];
      quads' := quads'.(quads := quads'.quads[out[j].pos := out[j].quad]);
      frontier := frontier + [out[j].pos];
      j := j + 1;
    }
    assert out[..j] == out;
  }

  /** One round of the level loop: the accepted children become the next state and frontier. */
  lemma LevelsUnfold(s: Setup, st: QuadStructure, frontier: seq<Vec2>)
    requires s.Valid() && |st.sizes| > 0 && AllWithin(frontier, Last(st.sizes), s.img.Dimensions())
    requires |st.sizes| < s.maxDepth && |frontier| > 0 && AtLeast(Half(Last(st.sizes)).0, s.minSize)
    ensures var out := LevelOut(s, frontier, Last(st.sizes), |st.sizes|);
            && AllWithin(Positions(out), Half(Last(st.sizes)).0, s.img.Dimensions())
            && Levels(s, st, frontier)
               == Levels(s, QuadStructure(InsertAll(st.quads, out), st.sizes + [Half(Last(st.sizes)).0]), Positions(out))
  {
  }

  /** The level loop stops at the depth limit, on an empty frontier, or when the halved size is too small. */
  lemma LevelsStop(s: Setup, st: QuadStructure, frontier: seq<Vec2>)
    requires s.Valid() && |st.sizes| > 0 && AllWithin(frontier, Last(st.sizes), s.img.Dimensions())
    requires |st.sizes| >= s.maxDepth || |frontier| == 0 || Smaller(Half(Last(st.sizes)).0, s.minSize)
    ensures Levels(s, st, frontier) == st
  {
  }

  /**
   * The level loop of `calc_quads`: halve the quad size level by level while
   * it stays at least the minimum size, up to `max_depth` and while the
   * frontier is not empty, recording the accepted children and making them
   * the next frontier.
   */
  method LevelLoop(img: Image, minQuadSize: Vec2, minDepth: nat, threshold: Rgba, doCalcColor: bool,
                   ghost s: Setup)
    returns (quads: QuadStructure)
    requires s == SetupOf(img, minQuadSize, minDepth, threshold, doCalcColor) && s.Valid()
    ensures quads == Levels(s, Start(img), [ZERO])
  {
    var maxDepth := MaxDepth(img.width * img.height);
    quads := QuadStructure(map[], [img.Dimensions()]);
    var frontier: seq<Vec2> := [ZERO];
    var currDepth: nat := 1;
    while currDepth < maxDepth && |frontier| > 0
      invariant currDepth == |quads.sizes| >= 1
      invariant AllWithin(frontier, Last(quads.sizes), img.Dimensions())
      invariant Levels(s, quads, frontier) == Levels(s, Start(img), [ZERO])
      decreases maxDepth - currDepth
    {
      var (currSize, modulo) := Half(Last(quads.sizes));
      if Smaller(currSize, minQuadSize) {
        LevelsStop(s, quads, frontier);
        break;
      }
      LevelsUnfold(s, quads, frontier);
      var parent := Last(quads.sizes);
      quads := quads.(sizes := quads.sizes + [currSize]);
      var out := SplitFrontier(img, frontier, currSize, modulo, currDepth, minDepth, threshold,
                               doCalcColor, s, parent);
      quads, frontier := Merge(quads, out);
      currDepth := currDepth + 1;
    }
    if currDepth >= maxDepth || |frontier| == 0 {
      LevelsStop(s, quads, frontier);
    }
  }

  /**
   * `calc_quads`: the level loop from the whole image, then the depth-0 root
   * with the whole-image average when colours are kept and no leaf was
   * recorded at the origin.
   */
  method CalcQuads(img: Image, minQuadSize: Vec2, minDepth: nat, threshold: Rgba, doCalcColor: bool)
    returns (quads: QuadStructure)
    requires img.Valid() && NonEmpty(minQuadSize) && (doCalcColor ==> NonEmpty(img.Dimensions()))
    ensures quads == Build(img, minQuadSize, minDepth, threshold, doCalcColor)
  {
    ghost var s := SetupOf(img, minQuadSize, minDepth, threshold, doCalcColor);
    quads := LevelLoop(img, minQuadSize, minDepth, threshold, doCalcColor, s);
    if doCalcColor && ZERO !in quads.quads {
      var avg := AverageColors(img, ZERO, img.Dimensions());
      quads := quads.(quads := quads.quads[ZERO := Quad(0, Some(avg))]);
    }
  }
}
