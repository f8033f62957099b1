/** The part of Python's `float(str)` that the score parsers rely on: a decimal
    numeral with an optional sign and an optional fractional part, surrounded
    by any amount of whitespace. Anything else is a `ValueError`, modelled as
    `None`. */
module PyFloat {
  import opened Wrappers
  import opened PyStr

  datatype Sign = Unsigned | Plus | Minus

  /** The syntax of a decimal numeral: `whole` digits, then, when `point`
      holds, a '.' followed by the `frac` digits. */
  datatype Numeral = Numeral(sign: Sign, whole: string, point: bool, frac: string)

  predicate IsDigit(c: char) {
    '0' <= c <= '9'
  }

  /** The characters a numeral is written with. */
  predicate NumeralChar(c: char) {
    IsDigit(c) || c == '+' || c == '-' || c == '.'
  }

  predicate AllDigits(s: string) {
    forall k :: 0 <= k < |s| ==> IsDigit(s[k])
  }

  /** A numeral `float()` accepts: digits only, at least one digit on either
      side of the point ("5", "5.", ".5", "5.25"), and no fraction without a
      point. */
  predicate WellFormed(n: Numeral) {
    && AllDigits(n.whole)
    && AllDigits(n.frac)
    && |n.whole| + |n.frac| > 0
    && (!n.point ==> n.frac == "")
  }

  function SignText(sign: Sign): string {
    match sign
    case Unsigned => ""
    case Plus => "+"
    case Minus => "-"
  }

  /** The text of a numeral after its sign. */
  function Digits(n: Numeral): string {
    n.whole + (if n.point then "." + n.frac else "")
  }

  /** The text of a numeral. */
  function Render(n: Numeral): string {
    SignText(n.sign) + Digits(n)
  }

  function Pow10(k: nat): (r: nat)
    ensures r >= 1
  {
    if k == 0 then 1 else 10 * Pow10(k - 1)
  }

  /** The number a string of decimal digits denotes; it has no more digits
      than the string. */
  function DigitsValue(ds: string): (r: nat)
    requires AllDigits(ds)
    ensures r < Pow10(|ds|)
  {
    if |ds| == 0 then 0
    else 10 * DigitsValue(ds[..|ds| - 1]) + ((ds[|ds| - 1] as int) - ('0' as int))
  }

  /** The exact real number a numeral denotes: its sign is the numeral's
      (zero may carry either), and its magnitude is below the power of ten
      that has one digit more than the whole part. */
  function Value(n: Numeral): (r: real)
    requires WellFormed(n)
    ensures n.sign == Minus ==> r <= 0.0
    ensures n.sign != Minus ==> r >= 0.0
    ensures -(Pow10(|n.whole|) as real) < r < Pow10(|n.whole|) as real
  {
    var fraction := (DigitsValue(n.frac) as real) / (Pow10(|n.frac|) as real);
    assert 0.0 <= fraction < 1.0 by {
      ProperFraction(DigitsValue(n.frac), Pow10(|n.frac|));
    }
    var magnitude := DigitsValue(n.whole) as real + fraction;
    if n.sign == Minus then -magnitude else magnitude
  }

  /** A numerator below the denominator makes a fraction below one. */
  lemma ProperFraction(a: nat, b: nat)
    requires a < b
    ensures 0.0 <= (a as real) / (b as real) < 1.0
  {
    var q := (a as real) / (b as real);
    assert q * (b as real) == a as real;
  }

  /** Reads the unsigned part of a numeral: digits, or digits on both sides
      of its first point (a second point is not a digit, so it is refused). */
  function LexDigits(sign: Sign, body: string): (r: Option<Numeral>)
    ensures r.Some? ==> WellFormed(r.value) && r.value.sign == sign && Digits(r.value) == body
  {
    if '.' in body then
      var i := IndexOf(body, '.');
      var whole := body[..i];
      var frac := body[i + 1..];
      if AllDigits(whole) && AllDigits(frac) && |whole| + |frac| > 0 then
        assert body == whole + "." + frac;
        Some(Numeral(sign, whole, true, frac))
      else
        None
    else if |body| > 0 && AllDigits(body) then
      Some(Numeral(sign, body, false, ""))
    else
      None
  }

  /** Reads a numeral with no surrounding whitespace. Whatever it accepts is a
      well-formed numeral whose text is exactly `t`. */
  function Lex(t: string): (r: Option<Numeral>)
    ensures r.Some? ==> WellFormed(r.value) && Render(r.value) == t
  {
    if |t| > 0 && t[0] == '+' then
      assert t == "+" + t[1..];
      LexDigits(Plus, t[1..])
    else if |t| > 0 && t[0] == '-' then
      assert t == "-" + t[1..];
      LexDigits(Minus, t[1..])
    else
      LexDigits(Unsigned, t)
  }

  /** The first character of a numeral is a sign, a digit or the point, and
      the last one a digit or the point: neither is whitespace. */
  lemma RenderEnds(n: Numeral)
    requires WellFormed(n)
    ensures |Render(n)| > 0
    ensures !IsSpace(Render(n)[0]) && !IsSpace(Render(n)[|Render(n)| - 1])
  {
    var t := Render(n);
    var body := n.whole + (if n.point then "." + n.frac else "");
    assert t == SignText(n.sign) + body;
    if n.sign == Unsigned {
      assert t == body;
      if |n.whole| > 0 {
        assert t[0] == n.whole[0];
      } else {
        assert t[0] == '.';
      }
    }
    if n.point {
      if |n.frac| > 0 {
        assert t[|t| - 1] == n.frac[|n.frac| - 1];
      } else {
        assert t[|t| - 1] == '.';
      }
    } else {
      assert t[|t| - 1] == n.whole[|n.whole| - 1];
    }
  }

  lemma LexDigitsOfDigits(n: Numeral)
    requires WellFormed(n)
    ensures LexDigits(n.sign, Digits(n)) == Some(n)
  {
    if n.point {
      LexPointed(n);
    } else {
      assert '.' !in n.whole by {
        assert forall k :: 0 <= k < |n.whole| ==> n.whole[k] != '.';
      }
      assert Digits(n) == n.whole;
    }
  }

  /** With a point, the digits before the first '.' are the whole part and
      those after it the fraction. */
  lemma LexPointed(n: Numeral)
    requires WellFormed(n) && n.point
    ensures LexDigits(n.sign, Digits(n)) == Some(n)
  {
    var body := Digits(n);
    assert body == n.whole + ("." + n.frac);
    assert body[|n.whole|] == '.';
    var i := IndexOf(body, '.');
    assert i == |n.whole| by {
      assert forall k :: 0 <= k < |n.whole| ==> body[k] == n.whole[k] != '.';
    }
    assert body[..i] == n.whole;
    assert body[i + 1..] == n.frac;
  }

  /** A numeral is written with signs, digits and the point only, so it holds
      no whitespace, colon, slash or newline. */
  lemma NumeralText(n: Numeral)
    requires WellFormed(n)
    ensures forall k :: 0 <= k < |Render(n)| ==> NumeralChar(Render(n)[k])
    ensures ':' !in Render(n) && '/' !in Render(n) && '\n' !in Render(n)
    ensures forall k :: 0 <= k < |Render(n)| ==> !IsSpace(Render(n)[k])
  {
    var t := Render(n);
    assert t == SignText(n.sign) + n.whole + (if n.point then "." + n.frac else "");
    forall k | 0 <= k < |t|
      ensures NumeralChar(t[k])
    {
      var s := |SignText(n.sign)|;
      if k < s {
        assert t[k] == SignText(n.sign)[k];
      } else if k < s + |n.whole| {
        assert t[k] == n.whole[k - s];
        assert IsDigit(n.whole[k - s]);
      } else if k == s + |n.whole| {
        assert t[k] == '.';
      } else {
        assert t[k] == n.frac[k - s - |n.whole| - 1];
        assert IsDigit(n.frac[k - s - |n.whole| - 1]);
      }
    }
  }

  /** Round trip: reading the text of a well-formed numeral gives that numeral
      back, so `Lex` and `Render` are inverse to each other. */
  lemma LexRender(n: Numeral)
    requires WellFormed(n)
    ensures Lex(Render(n)) == Some(n)
  {
    LexDigitsOfDigits(n);
    LexSign(n);
  }

  /** `Lex` strips the sign of a rendered numeral and hands its digits on. */
  lemma LexSign(n: Numeral)
    requires WellFormed(n)
    ensures Lex(Render(n)) == LexDigits(n.sign, Digits(n))
  {
    var t := Render(n);
    var d := Digits(n);
    match n.sign
    case Unsigned =>
      assert t == d;
      assert d[0] != '+' && d[0] != '-' by {
        if |n.whole| > 0 {
          assert d[0] == n.whole[0];
        } else {
          assert d[0] == '.';
        }
      }
    case Plus =>
      assert t == "+" + d;
      assert t[1..] == d;
    case Minus =>
      assert t == "-" + d;
      assert t[1..] == d;
  }

  /** The whitespace `float()` skips around a numeral. CPython turns every
      non-ASCII whitespace character into a space and then skips ASCII
      whitespace only, so the four information separators U+001C..U+001F,
      although `str.isspace()` holds for them and `str.strip()` removes them,
      stay in the text: "7\x1c" is a `ValueError` where "7 " reads as 7. */
  predicate FloatSpace(c: char) {
    IsSpace(c) && !('\U{1C}' <= c <= '\U{1F}')
  }

  predicate AllFloatSpace(s: string) {
    forall k :: 0 <= k < |s| ==> FloatSpace(s[k])
  }

  /** Leading float whitespace removed: the longest suffix of `s` that does
      not start with it. */
  function FloatStripStart(s: string): (r: string)
    ensures |r| <= |s| && r == s[|s| - |r|..]
    ensures AllFloatSpace(s[..|s| - |r|])
    ensures |r| == 0 || !FloatSpace(r[0])
  {
    if |s| > 0 && FloatSpace(s[0]) then FloatStripStart(s[1..]) else s
  }

  /** Trailing float whitespace removed: the longest prefix of `s` that does
      not end with it. */
  function FloatStripEnd(s: string): (r: string)
    ensures |r| <= |s| && r == s[..|r|]
    ensures AllFloatSpace(s[|r|..])
    ensures |r| == 0 || !FloatSpace(r[|r| - 1])
  {
    if |s| > 0 && FloatSpace(s[|s| - 1]) then
      var t := s[..|s| - 1];
      var r := FloatStripEnd(t);
      assert s == t + [s[|s| - 1]];
      assert s[|r|..] == t[|r|..] + [s[|s| - 1]];
      r
    else
      s
  }

  /** The text `float()` reads: `s` without float whitespace at either end. */
  function FloatStrip(s: string): (r: string)
    ensures |r| <= |s|
    ensures |r| == 0 || (!FloatSpace(r[0]) && !FloatSpace(r[|r| - 1]))
  {
    FloatStripEnd(FloatStripStart(s))
  }

  lemma {:induction false} FloatStripStartPadded(w: string, t: string)
    requires AllFloatSpace(w)
    requires |t| == 0 || !FloatSpace(t[0])
    ensures FloatStripStart(w + t) == t
    decreases |w|
  {
    if |w| > 0 {
      assert (w + t)[1..] == w[1..] + t;
      FloatStripStartPadded(w[1..], t);
    } else {
      assert w + t == t;
    }
  }

  lemma {:induction false} FloatStripEndPadded(t: string, w: string)
    requires AllFloatSpace(w)
    requires |t| == 0 || !FloatSpace(t[|t| - 1])
    ensures FloatStripEnd(t + w) == t
    decreases |w|
  {
    if |w| > 0 {
      assert (t + w)[..|t + w| - 1] == t + w[..|w| - 1];
      FloatStripEndPadded(t, w[..|w| - 1]);
    } else {
      assert t + w == t;
    }
  }

  /** `float()`'s stripping undoes padding with float whitespace. */
  lemma FloatStripPadded(w1: string, t: string, w2: string)
    requires AllFloatSpace(w1) && AllFloatSpace(w2)
    requires |t| == 0 || (!FloatSpace(t[0]) && !FloatSpace(t[|t| - 1]))
    ensures FloatStrip(w1 + t + w2) == t
  {
    if |t| == 0 {
      var w := w1 + w2;
      assert w1 + t + w2 == w + t;
      assert AllFloatSpace(w) by {
        assert forall k :: 0 <= k < |w| ==> w[k] == (if k < |w1| then w1[k] else w2[k - |w1|]);
      }
      FloatStripStartPadded(w, t);
    } else {
      assert w1 + t + w2 == w1 + (t + w2);
      FloatStripStartPadded(w1, t + w2);
      FloatStripEndPadded(t, w2);
    }
  }

  /** Trailing float whitespace alone is stripped the same way. */
  lemma FloatStripTrailing(t: string, w: string)
    requires AllFloatSpace(w)
    requires |t| > 0 && !FloatSpace(t[0]) && !FloatSpace(t[|t| - 1])
    ensures FloatStrip(t + w) == t
  {
    assert (t + w)[0] == t[0];
    assert FloatStripStart(t + w) == t + w;
    FloatStripEndPadded(t, w);
  }

  /** Text without float whitespace at either end is left as it is. */
  lemma FloatStripBare(t: string)
    requires |t| == 0 || (!FloatSpace(t[0]) && !FloatSpace(t[|t| - 1]))
    ensures FloatStrip(t) == t
  {
    FloatStripStartBare(t);
    FloatStripEndBare(t);
  }

  lemma FloatStripStartBare(t: string)
    requires |t| == 0 || !FloatSpace(t[0])
    ensures FloatStripStart(t) == t
  {
  }

  lemma FloatStripEndBare(t: string)
    requires |t| == 0 || !FloatSpace(t[|t| - 1])
    ensures FloatStripEnd(t) == t
  {
  }

  /** Text already stripped by `str.strip()` has nothing left for `float()`
      to strip. */
  lemma FloatStripOfStripped(s: string)
    ensures FloatStrip(Strip(s)) == Strip(s)
  {
    FloatStripBare(Strip(s));
  }

  /** `float(s)` on the decimal numerals: once the float whitespace around
      it is removed, `s` must be the text of a well-formed numeral, and the
      result is that numeral's value; anything else is `None` (a
      `ValueError`). */
  function ParseFloat(s: string): (r: Option<real>)
    ensures r.Some? ==>
              exists n :: WellFormed(n) && Render(n) == FloatStrip(s) && Value(n) == r.value
  {
    match Lex(FloatStrip(s))
    case Some(n) => Some(Value(n))
    case None => None
  }

  /** `float` succeeds exactly on the padded text of a well-formed numeral,
      and then gives that numeral's value. */
  lemma ParseFloatExactly(s: string)
    ensures ParseFloat(s).Some? ==>
              exists n :: WellFormed(n) && Render(n) == FloatStrip(s) && Value(n) == ParseFloat(s).value
    ensures ParseFloat(s).None? ==> forall n :: WellFormed(n) ==> Render(n) != FloatStrip(s)
  {
    forall n | WellFormed(n)
      ensures Lex(Render(n)) == Some(n)
    {
      LexRender(n);
    }
  }

  /** A numeral with any float whitespace around it parses to its value. */
  lemma ParseFloatPadded(w1: string, n: Numeral, w2: string)
    requires AllFloatSpace(w1) && AllFloatSpace(w2)
    requires WellFormed(n)
    ensures ParseFloat(w1 + Render(n) + w2) == Some(Value(n))
  {
    RenderEnds(n);
    FloatStripPadded(w1, Render(n), w2);
    LexRender(n);
  }

  /** `float()` reads a rendered numeral back as its value. */
  lemma ParseRender(n: Numeral)
    requires WellFormed(n)
    ensures ParseFloat(Render(n)) == Some(Value(n))
  {
    RenderEnds(n);
    FloatStripBare(Render(n));
    LexRender(n);
  }

  /** A numeral followed by `str` whitespace is read exactly when that
      whitespace holds none of the four information separators, which
      `float()`, unlike `str.strip()`, does not skip. */
  lemma NumeralThenSpace(n: Numeral, w: string)
    requires WellFormed(n) && AllSpace(w)
    ensures ParseFloat(Render(n) + w) == (if AllFloatSpace(w) then Some(Value(n)) else None)
  {
    if AllFloatSpace(w) {
      NumeralThenFloatSpace(n, w);
    } else {
      var j :| 0 <= j < |w| && !FloatSpace(w[j]);
      NumeralThenSeparator(n, w, j);
    }
  }

  lemma NumeralThenFloatSpace(n: Numeral, w: string)
    requires WellFormed(n) && AllFloatSpace(w)
    ensures ParseFloat(Render(n) + w) == Some(Value(n))
  {
    RenderEnds(n);
    FloatStripTrailing(Render(n), w);
    LexRender(n);
  }

  lemma NumeralThenSeparator(n: Numeral, w: string, j: nat)
    requires WellFormed(n) && j < |w| && IsSpace(w[j]) && !FloatSpace(w[j])
    ensures ParseFloat(Render(n) + w) == None
  {
    RenderEnds(n);
    SeparatorKept(Render(n), w, j);
    SeparatorNotNumeral(Render(n) + w, |Render(n)| + j);
  }

  /** An information separator left after `float()`'s stripping is no part
      of a numeral. */
  lemma SeparatorNotNumeral(s: string, k: nat)
    requires k < |FloatStrip(s)| && IsSpace(FloatStrip(s)[k]) && !FloatSpace(FloatStrip(s)[k])
    ensures ParseFloat(s) == None
  {
    NotNumeral(s, k);
  }

  /** A character `float()` does not skip survives its stripping at the same
      place, when the text before it does not start with float whitespace. */
  lemma SeparatorKept(t: string, w: string, j: nat)
    requires |t| > 0 && !FloatSpace(t[0])
    requires j < |w| && !FloatSpace(w[j])
    ensures |t| + j < |FloatStrip(t + w)|
    ensures FloatStrip(t + w)[|t| + j] == w[j]
  {
    var s := t + w;
    var k := |t| + j;
    assert s[0] == t[0];
    assert FloatStripStart(s) == s;
    var r := FloatStripEnd(s);
    assert s[k] == w[j];
  }

  /** Text that holds a character no numeral is written with (a letter, a
      '/', a ',', an information separator) after `float()`'s stripping is a
      `ValueError`. */
  lemma NotNumeral(s: string, k: nat)
    requires k < |FloatStrip(s)| && !NumeralChar(FloatStrip(s)[k])
    ensures ParseFloat(s) == None
  {
    if ParseFloat(s).Some? {
      ParseFloatExactly(s);
      var n :| WellFormed(n) && Render(n) == FloatStrip(s);
      NumeralText(n);
    }
  }

  /** The same for a text without float whitespace at either end. */
  lemma NotNumeralText(t: string, k: nat)
    requires k < |t| && !NumeralChar(t[k])
    requires !FloatSpace(t[0]) && !FloatSpace(t[|t| - 1])
    ensures ParseFloat(t) == None
  {
    FloatStripBare(t);
    NotNumeral(t, k);
  }

  /** So is text that is all float whitespace. */
  lemma BlankNotNumeral(s: string)
    requires FloatStrip(s) == ""
    ensures ParseFloat(s) == None
  {
  }
}
