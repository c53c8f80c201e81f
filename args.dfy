/**
 * The command-line vector parser of src/args.rs: `parse_vec2` splits its
 * text on ASCII punctuation, expects two unsigned 32-bit numbers and rejects
 * sizes below the default minimum quad size.
 */
module Args {
  import opened Wrappers
  import opened Vectors
  import opened Quadtree

  /** The three failures of `parse_vec2`, in the order they are checked. */
  datatype VecError = NotVec2 | NotANumber | QuadTooSmall
  {
    /** `ERR_NOT_VEC2`, `ERR_NAN` and `ERR_QUAD_TOO_SMALL`. */
    function Message(): string {
      match this
      case NotVec2 => "not a vec2"
      case NotANumber => "not a valid number"
      case QuadTooSmall => "min quad size is too small"
    }
  }

  /** `char::is_ascii_punctuation`: the four ASCII punctuation ranges. */
  predicate IsAsciiPunctuation(c: char) {
    ('!' <= c <= '/') || (':' <= c <= '@') || ('[' <= c <= '`') || ('{' <= c <= '~')
  }

  /** No character of `s` is ASCII punctuation. */
  predicate NoPunctuation(s: string) {
    forall i :: 0 <= i < |s| ==> !IsAsciiPunctuation(s[i])
  }

  /**
   * `str::split` on punctuation: the maximal runs between separators, empty
   * ones included, so `n` separators give `n + 1` pieces.
   */
  function Split(s: string): (r: seq<string>)
    ensures |r| >= 1
    ensures forall k :: 0 <= k < |r| ==> NoPunctuation(r[k])
  {
    if s == [] then [[]]
    else
      var rest := Split(s[1..]);
      if IsAsciiPunctuation(s[0]) then [[]] + rest
      else [[s[0]] + rest[0]] + rest[1..]
  }

  /** `filter(|p| !p.is_empty())`. */
  function DropEmpty(pieces: seq<string>): (r: seq<string>)
    ensures forall k :: 0 <= k < |r| ==> r[k] != []
  {
    if pieces == [] then []
    else if pieces[0] == [] then DropEmpty(pieces[1..])
    else [pieces[0]] + DropEmpty(pieces[1..])
  }

  /** The non-empty pieces of `s` between punctuation, in order. */
  function Pieces(s: string): seq<string> {
    DropEmpty(Split(s))
  }

  /** The value of a string of decimal digits, most significant first. */
  function DigitsValue(s: string): nat
    requires AllDigits(s)
  {
    if s == [] then 0 else DigitsValue(s[..|s| - 1]) * 10 + (Last(s) as int - '0' as int)
  }

  /**
   * Decimal digits only, at least one, and a value that fits `u32`. What it
   * accepts is characterised by `ArgsProps.ParseDigitsDecimal` and
   * `ArgsProps.ParsedDigitsShape`.
   */
  function ParseDigits(s: string): Option<U32> {
    if |s| > 0 && AllDigits(s) && DigitsValue(s) < 0x1_0000_0000 then Some(DigitsValue(s)) else None
  }

  /** `str::parse::<u32>`: an optional `+` sign, then decimal digits that fit. */
  function ParseU32(s: string): Option<U32> {
    if |s| > 0 && s[0] == '+' then ParseDigits(s[1..]) else ParseDigits(s)
  }

  /** `parse_vec2` up to the size check: two pieces, each a `u32`, `x` checked before `y`. */
  function ParsePieces(s: string): Result<Vec2, VecError> {
    var pieces := Pieces(s);
    if |pieces| != 2 then Err(NotVec2)
    else
      match ParseU32(pieces[0])
      case None => Err(NotANumber)
      case Some(x) =>
        match ParseU32(pieces[1])
        case None => Err(NotANumber)
        case Some(y) => Ok(Vec2(x, y))
  }

  /**
   * `parse_vec2`, with the size check taken component-wise: a vector
   * smaller than `DEFAULT_MIN_SIZE` on either axis is too small.
   */
  function ParseVec2(s: string): (r: Result<Vec2, VecError>)
    ensures r.Ok? ==> AtLeast(r.value, DEFAULT_MIN_SIZE)
    ensures r.Ok? <==> ParsePieces(s).Ok? && !Smaller(ParsePieces(s).value, DEFAULT_MIN_SIZE)
  {
    match ParsePieces(s)
    case Err(e) => Err(e)
    case Ok(v) => if Smaller(v, DEFAULT_MIN_SIZE) then Err(QuadTooSmall) else Ok(v)
  }

  /** `parse_vec2` with the size check of src/args.rs:169 read as the lexicographic order. */
  function ParseVec2AsWritten(s: string): (r: Result<Vec2, VecError>)
    ensures r.Ok? ==> !LexLess(r.value, DEFAULT_MIN_SIZE)
  {
    match ParsePieces(s)
    case Err(e) => Err(e)
    case Ok(v) => if LexLess(v, DEFAULT_MIN_SIZE) then Err(QuadTooSmall) else Ok(v)
  }
}
