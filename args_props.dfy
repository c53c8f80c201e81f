/**
 * What `parse_vec2` of src/args.rs guarantees: its error cases and their
 * order, the values it returns, its indifference to punctuation noise and
 * leading zeros, and that it reads back what `Display for Vec2` writes.
 */
module ArgsProps {
  import opened Wrappers
  import opened Vectors
  import opened Quadtree
  import opened Args

  // ---------------------------------------------------------------------------
  // Splitting

  /** A string without punctuation is a single piece. */
  lemma {:induction false} SplitWord(w: string)
    requires NoPunctuation(w)
    ensures Split(w) == [w]
  {
    if w != [] {
      SplitWord(w[1..]);
      assert [w[0]] + w[1..] == w;
    }
  }

  /** A separator ends the pieces of `a` and starts those of `b`. */
  lemma {:induction false} SplitAround(a: string, p: char, b: string)
    requires IsAsciiPunctuation(p)
    ensures Split(a + [p] + b) == Split(a) + Split(b)
  {
    if a == [] {
      assert a + [p] + b == [p] + b;
      assert (a + [p] + b)[1..] == b;
    } else {
      assert (a + [p] + b)[1..] == a[1..] + [p] + b;
      SplitAround(a[1..], p, b);
    }
  }

  lemma {:induction false} DropEmptyAppend(x: seq<string>, y: seq<string>)
    ensures DropEmpty(x + y) == DropEmpty(x) + DropEmpty(y)
  {
    if x != [] {
      assert (x + y)[1..] == x[1..] + y;
      DropEmptyAppend(x[1..], y);
    } else {
      assert x + y == y;
    }
  }

  /** The pieces around a separator are the pieces of each side. */
  lemma PiecesAround(a: string, p: char, b: string)
    requires IsAsciiPunctuation(p)
    ensures Pieces(a + [p] + b) == Pieces(a) + Pieces(b)
  {
    SplitAround(a, p, b);
    DropEmptyAppend(Split(a), Split(b));
  }

  // ---------------------------------------------------------------------------
  // Numbers

  /** The digits `Decimal` writes read back as the number. */
  lemma {:induction false} DecimalValue(n: nat)
    ensures DigitsValue(Decimal(n)) == n
    decreases n
  {
    var s := Decimal(n);
    if n >= 10 {
      DecimalValue(n / 10);
      assert s[..|s| - 1] == Decimal(n / 10);
    }
  }

  /** Digits are not punctuation. */
  lemma DigitsHaveNoPunctuation(s: string)
    requires AllDigits(s)
    ensures NoPunctuation(s)
  {
  }

  /** A leading zero does not change the value of a digit string. */
  lemma {:induction false} LeadingZeroValue(d: string)
    requires AllDigits(d)
    ensures AllDigits(['0'] + d) && DigitsValue(['0'] + d) == DigitsValue(d)
  {
    if d != [] {
      var init := d[..|d| - 1];
      LeadingZeroValue(init);
      assert (['0'] + d)[..|d|] == ['0'] + init;
    }
  }

  /** `k` zero digits. */
  function Zeros(k: nat): string {
    if k == 0 then [] else ['0'] + Zeros(k - 1)
  }

  /** Zeros in front of a digit string do not change its value. */
  lemma {:induction false} ZerosValue(k: nat, d: string)
    requires AllDigits(d)
    ensures AllDigits(Zeros(k) + d) && DigitsValue(Zeros(k) + d) == DigitsValue(d)
  {
    if k > 0 {
      ZerosValue(k - 1, d);
      assert Zeros(k) + d == ['0'] + (Zeros(k - 1) + d);
      LeadingZeroValue(Zeros(k - 1) + d);
    } else {
      assert Zeros(k) + d == d;
    }
  }

  /**
   * Any run of zeros followed by the decimal form of `n` parses back to `n`
   * when it fits `u32`, and fails otherwise.
   */
  lemma ParseDigitsDecimal(k: nat, n: nat)
    ensures ParseDigits(Zeros(k) + Decimal(n)) == if n < 0x1_0000_0000 then Some(n) else None
  {
    ZerosValue(k, Decimal(n));
    DecimalValue(n);
  }

  /** A digit string without a leading zero is the decimal form of its positive value. */
  lemma {:induction false} NoLeadingZeroDecimal(s: string)
    requires |s| > 0 && AllDigits(s) && s[0] != '0'
    ensures 0 < DigitsValue(s) && s == Decimal(DigitsValue(s))
    decreases |s|
  {
    var d := Last(s) as int - '0' as int;
    var t := s[..|s| - 1];
    assert DigitsValue(s) == DigitsValue(t) * 10 + d;
    if |s| == 1 {
      assert t == [];
      assert DigitChar(d) as int == s[0] as int;
      assert Decimal(d) == [s[0]];
    } else {
      assert t[0] == s[0];
      NoLeadingZeroDecimal(t);
      var n := DigitsValue(s);
      assert n / 10 == DigitsValue(t) && n % 10 == d;
      assert DigitChar(d) as int == Last(s) as int;
      assert Decimal(n) == Decimal(n / 10) + [DigitChar(n % 10)];
      assert s == t + [Last(s)];
    }
  }

  /** Conversely, everything that parses is zeros followed by the decimal form of its value. */
  lemma {:induction false} ParsedDigitsShape(s: string) returns (k: nat)
    requires ParseDigits(s).Some?
    ensures s == Zeros(k) + Decimal(ParseDigits(s).value)
    decreases |s|
  {
    if s[0] != '0' {
      NoLeadingZeroDecimal(s);
      k := 0;
    } else if |s| == 1 {
      assert s == Decimal(0);
      k := 0;
    } else {
      var rest := s[1..];
      assert s == ['0'] + rest;
      LeadingZeroValue(rest);
      assert ParseDigits(rest) == ParseDigits(s);
      var k' := ParsedDigitsShape(rest);
      k := k' + 1;
    }
  }

  /** Leading zeros are accepted and ignored (src/args.rs:193-195). */
  lemma LeadingZeroParse(d: string)
    requires |d| > 0 && AllDigits(d)
    ensures ParseU32(['0'] + d) == ParseU32(d)
  {
    LeadingZeroValue(d);
  }

  // ---------------------------------------------------------------------------
  // parse_vec2

  /**
   * The three errors in the order src/args.rs:157-173 checks them: a piece
   * count other than two, then a piece that is not a `u32` (`x` first), then
   * a vector smaller than the default minimum; otherwise the two numbers.
   */
  lemma ParseVec2Cases(s: string)
    ensures var pieces := Pieces(s);
            && (ParseVec2(s) == Err(NotVec2) <==> |pieces| != 2)
            && (ParseVec2(s) == Err(NotANumber) <==>
                  |pieces| == 2 && (ParseU32(pieces[0]).None? || ParseU32(pieces[1]).None?))
            && (ParseVec2(s) == Err(QuadTooSmall) <==>
                  |pieces| == 2 && ParseU32(pieces[0]).Some? && ParseU32(pieces[1]).Some?
                  && Smaller(Vec2(ParseU32(pieces[0]).value, ParseU32(pieces[1]).value), DEFAULT_MIN_SIZE))
            && (ParseVec2(s).Ok? ==>
                  |pieces| == 2 && ParseVec2(s).value == Vec2(ParseU32(pieces[0]).value, ParseU32(pieces[1]).value))
  {
  }

  /** What `Display for Vec2` writes, `parse_vec2` reads back, size check aside. */
  lemma DisplayRoundTrip(v: Vec2)
    ensures ParsePieces(Display(v)) == Ok(v)
    ensures ParseVec2(Display(v)) == if Smaller(v, DEFAULT_MIN_SIZE) then Err(QuadTooSmall) else Ok(v)
  {
    var dx, dy := Decimal(v.x), Decimal(v.y);
    DigitsHaveNoPunctuation(dx);
    DigitsHaveNoPunctuation(dy);
    SplitWord(dx);
    SplitWord(dy);
    assert Display(v) == [] + ['['] + (dx + [';'] + (dy + [']'] + []));
    PiecesAround([], '[', dx + [';'] + (dy + [']'] + []));
    PiecesAround(dx, ';', dy + [']'] + []);
    PiecesAround(dy, ']', []);
    assert Pieces(Display(v)) == [dx, dy];
    DecimalValue(v.x);
    DecimalValue(v.y);
  }

  /** Punctuation before and after the text changes nothing (src/args.rs:192-196). */
  lemma {:induction false} PunctuationNoise(pre: string, s: string, post: string)
    requires forall i :: 0 <= i < |pre| ==> IsAsciiPunctuation(pre[i])
    requires forall i :: 0 <= i < |post| ==> IsAsciiPunctuation(post[i])
    ensures Pieces(pre + s + post) == Pieces(s)
    ensures ParseVec2(pre + s + post) == ParseVec2(s)
    decreases |pre| + |post|
  {
    if pre != [] {
      PunctuationNoise(pre[1..], s, post);
      assert pre + s + post == [] + [pre[0]] + (pre[1..] + s + post);
      PiecesAround([], pre[0], pre[1..] + s + post);
    } else if post != [] {
      var init := post[..|post| - 1];
      PunctuationNoise(pre, s, init);
      assert pre + s + post == (s + init) + [Last(post)] + [];
      assert pre + s + init == s + init;
      PiecesAround(s + init, Last(post), []);
    } else {
      assert pre + s + post == s;
    }
  }

  // ---------------------------------------------------------------------------
  // The cases of src/args.rs:191-205

  /** Two words around one separator are two pieces. */
  lemma TwoWords(a: string, p: char, b: string)
    requires a != [] && b != [] && NoPunctuation(a) && NoPunctuation(b) && IsAsciiPunctuation(p)
    ensures Pieces(a + [p] + b) == [a, b]
  {
    PiecesAround(a, p, b);
    SplitWord(a);
    SplitWord(b);
    assert DropEmpty([a]) == [a] + DropEmpty([a][1..]);
    assert DropEmpty([b]) == [b] + DropEmpty([b][1..]);
  }

  /** One more digit at the end multiplies the value by ten and adds it. */
  lemma DigitsAppend(s: string, c: char)
    requires AllDigits(s) && '0' <= c <= '9'
    ensures AllDigits(s + [c]) && DigitsValue(s + [c]) == DigitsValue(s) * 10 + (c as int - '0' as int)
  {
    assert (s + [c])[..|s|] == s;
  }

  /** Two numerals around one separator parse as the vector of their values. */
  lemma PairParses(a: string, p: char, b: string, x: U32, y: U32)
    requires a != [] && b != [] && NoPunctuation(a) && NoPunctuation(b) && IsAsciiPunctuation(p)
    requires ParseU32(a) == Some(x) && ParseU32(b) == Some(y)
    ensures ParsePieces(a + [p] + b) == Ok(Vec2(x, y))
  {
    TwoWords(a, p, b);
  }

  /** The value of a two-digit numeral. */
  lemma TwoDigits(s: string)
    requires |s| == 2 && AllDigits(s)
    ensures DigitsValue(s) == (s[0] as int - '0' as int) * 10 + (s[1] as int - '0' as int)
  {
    assert s[..1] == [] + [s[0]];
    DigitsAppend([], s[0]);
    assert s == s[..1] + [s[1]];
    DigitsAppend(s[..1], s[1]);
  }

  /** The value of a three-digit numeral. */
  lemma ThreeDigits(s: string)
    requires |s| == 3 && AllDigits(s)
    ensures DigitsValue(s) == (s[0] as int - '0' as int) * 100 + (s[1] as int - '0' as int) * 10 + (s[2] as int - '0' as int)
  {
    TwoDigits(s[..2]);
    assert s == s[..2] + [s[2]];
    DigitsAppend(s[..2], s[2]);
  }

  lemma ParsesPlain()
    ensures ParseVec2("10,20") == Ok(Vec2(10, 20))
  {
    assert "10,20" == "10" + [','] + "20";
    TwoDigits("10");
    TwoDigits("20");
    PairParses("10", ',', "20", 10, 20);
  }

  lemma ParsesNoise()
    ensures ParseVec2("-10,20-") == Ok(Vec2(10, 20))
  {
    assert "-10,20-" == "-" + "10,20" + "-";
    PunctuationNoise("-", "10,20", "-");
    ParsesPlain();
  }

  lemma ParsesEquals()
    ensures ParseVec2("007=006") == Ok(Vec2(7, 6))
  {
    assert "007=006" == "007" + ['='] + "006";
    ThreeDigits("007");
    ThreeDigits("006");
    PairParses("007", '=', "006", 7, 6);
  }

  lemma ParsesLeadingZero()
    ensures ParseVec2("015,27") == Ok(Vec2(15, 27))
  {
    assert "015,27" == "015" + [','] + "27";
    ThreeDigits("015");
    TwoDigits("27");
    PairParses("015", ',', "27", 15, 27);
  }

  lemma ParsesParens()
    ensures ParseVec2("(015,27)") == Ok(Vec2(15, 27))
  {
    assert "(015,27)" == "(" + "015,27" + ")";
    PunctuationNoise("(", "015,27", ")");
    ParsesLeadingZero();
  }

  lemma ParsesSecondLeadingZero()
    ensures ParseVec2("15,027") == Ok(Vec2(15, 27))
  {
    assert "15,027" == "15" + [','] + "027";
    TwoDigits("15");
    ThreeDigits("027");
    PairParses("15", ',', "027", 15, 27);
  }

  lemma ParsesBrackets()
    ensures ParseVec2("[15,027]") == Ok(Vec2(15, 27))
  {
    assert "[15,027]" == "[" + "15,027" + "]";
    PunctuationNoise("[", "15,027", "]");
    ParsesSecondLeadingZero();
  }

  lemma ParsesThreeDigits()
    ensures ParseVec2("264,664") == Ok(Vec2(264, 664))
  {
    assert "264,664" == "264" + [','] + "664";
    ThreeDigits("264");
    ThreeDigits("664");
    PairParses("264", ',', "664", 264, 664);
  }

  lemma ParsesBraces()
    ensures ParseVec2("{264,664}") == Ok(Vec2(264, 664))
  {
    assert "{264,664}" == "{" + "264,664" + "}";
    PunctuationNoise("{", "264,664", "}");
    ParsesThreeDigits();
  }

  lemma RejectsForeignSymbols()
    ensures ParseVec2("£€1@4$%") == Err(NotANumber)
  {
    assert "£€1@4$%" == "" + "£€1@4" + "$%";
    PunctuationNoise("", "£€1@4", "$%");
    assert "£€1@4" == "£€1" + ['@'] + "4";
    TwoWords("£€1", '@', "4");
  }

  lemma RejectsLetters()
    ensures ParseVec2("a-a") == Err(NotANumber)
  {
    assert "a-a" == "a" + ['-'] + "a";
    TwoWords("a", '-', "a");
  }

  lemma RejectsOneNumber()
    ensures ParseVec2("42") == Err(NotVec2)
  {
    SplitWord("42");
  }

  lemma RejectsThreeNumbers()
    ensures ParseVec2("10-11-12") == Err(NotVec2)
  {
    assert "10-11-12" == "10" + ['-'] + "11-12";
    PiecesAround("10", '-', "11-12");
    SplitWord("10");
    assert "11-12" == "11" + ['-'] + "12";
    TwoWords("11", '-', "12");
  }

  lemma RejectsSmall()
    ensures ParseVec2("2,2") == Err(QuadTooSmall)
  {
    assert "2,2" == "2" + [','] + "2";
    TwoWords("2", ',', "2");
  }

  /**
   * Read as the lexicographic order, the size check of src/args.rs:169 lets
   * `8,2` through although its height is below the minimum of 4; the
   * component-wise check rejects it. Both reject `2,8`.
   */
  lemma LexSizeCheckAdmitsThinSizes()
    ensures ParseVec2AsWritten("8,2") == Ok(Vec2(8, 2))
    ensures ParseVec2("8,2") == Err(QuadTooSmall)
    ensures ParseVec2AsWritten("2,8") == Err(QuadTooSmall) && ParseVec2("2,8") == Err(QuadTooSmall)
  {
    assert "8,2" == "8" + [','] + "2";
    TwoWords("8", ',', "2");
    assert "2,8" == "2" + [','] + "8";
    TwoWords("2", ',', "8");
  }
}
