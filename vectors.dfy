/**
 * The two-dimensional unsigned coordinate of src/utils.rs: a top-left
 * position or a (width, height) size, with the helpers that src/quad.rs
 * uses on it (the origin, floor-halving, the comparison against a minimum).
 */
module Vectors {

  /** Rust's `u32`. */
  type U32 = n: int | 0 <= n < 0x1_0000_0000

  datatype Vec2 = Vec2(x: U32, y: U32)

  /** `Vec2::ZERO`, the image origin. */
  const ZERO: Vec2 := Vec2(0, 0)

  /** `Vec2::new()`: the origin, below which no vector lies. */
  function New(): (v: Vec2)
    ensures v.x == 0 && v.y == 0
    ensures forall w :: !Smaller(w, v)
  {
    Vec2(0, 0)
  }

  /** `a.smaller(b)`: some component of `a` is below the same component of `b`. */
  predicate Smaller(a: Vec2, b: Vec2) {
    a.x < b.x || a.y < b.y
  }

  /** `a` is at least `b` on both axes: the negation of `Smaller`. */
  predicate AtLeast(a: Vec2, b: Vec2) {
    b.x <= a.x && b.y <= a.y
  }

  /**
   * The order a derived `PartialOrd` gives the struct `{x, y}`: `x` first,
   * then `y`. This is what `<` means at src/quad.rs:57 and src/args.rs:169.
   */
  predicate LexLess(a: Vec2, b: Vec2) {
    a.x < b.x || (a.x == b.x && a.y < b.y)
  }

  /** Both components are non-zero: a rectangle of this size holds pixels. */
  predicate NonEmpty(size: Vec2) {
    0 < size.x && 0 < size.y
  }

  /**
   * `v.half()`: the floor half of each component and the remainder (0 or 1)
   * that halving drops, so that half + remainder + half spans `v` exactly.
   */
  function Half(v: Vec2): (r: (Vec2, Vec2))
    ensures r.0.x + r.1.x + r.0.x == v.x && r.1.x <= 1
    ensures r.0.y + r.1.y + r.0.y == v.y && r.1.y <= 1
  {
    (Vec2(v.x / 2, v.y / 2), Vec2(v.x % 2, v.y % 2))
  }

  /** A rectangle at `pos` of `size` ends inside `bounds` on both axes. */
  predicate Within(pos: Vec2, size: Vec2, bounds: Vec2) {
    pos.x + size.x <= bounds.x && pos.y + size.y <= bounds.y
  }

  /** The pixel `(x, y)` lies in the rectangle at `pos` of `size`. */
  predicate InRect(pos: Vec2, size: Vec2, x: int, y: int) {
    pos.x <= x < pos.x + size.x && pos.y <= y < pos.y + size.y
  }

  /** The ASCII digit for `d`. */
  function DigitChar(d: nat): (c: char)
    requires d < 10
    ensures '0' <= c <= '9' && c as int - '0' as int == d
  {
    (d + '0' as int) as char
  }

  /** True when every character of `s` is an ASCII digit. */
  predicate AllDigits(s: string) {
    forall i :: 0 <= i < |s| ==> '0' <= s[i] <= '9'
  }

  /** The decimal rendering of `n` that Rust's `Display` gives an unsigned integer. */
  function Decimal(n: nat): (s: string)
    ensures 0 < |s| && AllDigits(s)
    ensures s[0] == '0' ==> n == 0
    decreases n
  {
    if n < 10 then [DigitChar(n)] else Decimal(n / 10) + [DigitChar(n % 10)]
  }

  /** `Display for Vec2`: `[x;y]`. */
  function Display(v: Vec2): string {
    "[" + Decimal(v.x) + ";" + Decimal(v.y) + "]"
  }

  /** `smaller` is irreflexive: no vector is smaller than itself. */
  lemma SmallerIsIrreflexive(v: Vec2)
    ensures !Smaller(v, v)
  {
  }

  /** `Smaller` and `AtLeast` are complementary. */
  lemma SmallerIffNotAtLeast(a: Vec2, b: Vec2)
    ensures Smaller(a, b) <==> !AtLeast(a, b)
  {
  }
}
