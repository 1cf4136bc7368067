/**
 * The few pieces of JavaScript string semantics the widget relies on:
 * `String.prototype.trim`, the coercion `Number(v) || 0` applied to effort
 * fields, and the decimal text of an integer produced by `String(n)` and by
 * template literals.
 */
module JsText {
  import opened Wrappers

  /**
   * The characters ECMAScript's `trim` removes (WhiteSpace and LineTerminator):
   * TAB, VT, FF, SPACE, NBSP, ZWNBSP, the other Zs space separators (including
   * the ideographic space U+3000) and LF, CR, LS, PS. `Number` strips the same set.
   */
  predicate IsWhitespace(c: char) {
    var n := c as int;
    n == 0x09 || n == 0x0B || n == 0x0C || n == 0x20 || n == 0xA0 || n == 0xFEFF ||
    n == 0x1680 || (0x2000 <= n <= 0x200A) || n == 0x202F || n == 0x205F || n == 0x3000 ||
    n == 0x0A || n == 0x0D || n == 0x2028 || n == 0x2029
  }

  predicate AllWhitespace(s: string) {
    forall i :: 0 <= i < |s| ==> IsWhitespace(s[i])
  }

  /** Drops leading whitespace: the result is the suffix starting at the first other character. */
  function TrimStart(s: string): (t: string)
    ensures |t| <= |s| && t == s[|s| - |t|..]
    ensures AllWhitespace(s[..|s| - |t|])
    ensures t == [] || !IsWhitespace(t[0])
  {
    if |s| == 0 || !IsWhitespace(s[0]) then s
    else
      var t := TrimStart(s[1..]);
      assert s[..|s| - |t|] == [s[0]] + s[1..][..|s[1..]| - |t|];
      t
  }

  /** Drops trailing whitespace: the result is the prefix ending at the last other character. */
  function TrimEnd(s: string): (t: string)
    ensures |t| <= |s| && t == s[..|t|]
    ensures AllWhitespace(s[|t|..])
    ensures t == [] || !IsWhitespace(t[|t| - 1])
  {
    if |s| == 0 || !IsWhitespace(s[|s| - 1]) then s
    else
      var t := TrimEnd(s[..|s| - 1]);
      assert s[|t|..] == s[..|s| - 1][|t|..] + [s[|s| - 1]];
      t
  }

  /** `s.trim()`. */
  function Trim(s: string): string {
    TrimEnd(TrimStart(s))
  }

  /** `t` sits at offset `i` of `s` with only whitespace before and after it. */
  predicate Surrounded(s: string, t: string, i: int) {
    0 <= i <= i + |t| <= |s| && t == s[i..i + |t|] &&
    AllWhitespace(s[..i]) && AllWhitespace(s[i + |t|..])
  }

  /** `trim` returns the substring between the first and the last non-whitespace character. */
  lemma TrimIsInnerSlice(s: string)
    ensures exists i :: Surrounded(s, Trim(s), i)
  {
    var u := TrimStart(s);
    var t := TrimEnd(u);
    var i := |s| - |u|;
    assert t == s[i..i + |t|] by {
      assert s[i..][..|t|] == s[i..i + |t|];
    }
    assert s[i + |t|..] == u[|t|..] by {
      assert s[i..][|t|..] == s[i + |t|..];
    }
    assert t == Trim(s);
    assert Surrounded(s, t, i);
  }

  /** A trimmed string starts and ends with a non-whitespace character. */
  lemma TrimEnds(s: string)
    ensures Trim(s) == [] || (!IsWhitespace(Trim(s)[0]) && !IsWhitespace(Trim(s)[|Trim(s)| - 1]))
  {
    var u := TrimStart(s);
    var t := TrimEnd(u);
    if t != [] {
      assert t[0] == u[0];
    }
  }

  /** A string is trimmed to nothing exactly when it is blank. */
  lemma {:induction false} TrimEmptyIffBlank(s: string)
    ensures Trim(s) == [] <==> AllWhitespace(s)
  {
    if s == [] {
    } else if !IsWhitespace(s[0]) {
      assert TrimStart(s) == s;
      assert s[|TrimEnd(s)|..] == s || TrimEnd(s) != [];
    } else {
      TrimEmptyIffBlank(s[1..]);
      assert AllWhitespace(s) <==> AllWhitespace(s[1..]) by {
        assert forall i :: 1 <= i < |s| ==> s[i] == s[1..][i - 1];
      }
    }
  }

  /** Trimming twice changes nothing more. */
  lemma TrimIdempotent(s: string)
    ensures Trim(Trim(s)) == Trim(s)
  {
    var t := Trim(s);
    TrimEnds(s);
    if t != [] {
      assert TrimStart(t) == t;
      assert TrimEnd(t) == t;
    }
  }

  predicate IsDigit(c: char) {
    '0' <= c <= '9'
  }

  predicate AllDigits(s: string) {
    forall i :: 0 <= i < |s| ==> IsDigit(s[i])
  }

  function DigitValue(c: char): nat
    requires IsDigit(c)
  {
    c as int - '0' as int
  }

  /** The value of a run of decimal digits, most significant first. */
  function DigitsValue(s: string): nat
    requires AllDigits(s)
  {
    if |s| == 0 then 0
    else DigitsValue(s[..|s| - 1]) * 10 + DigitValue(s[|s| - 1])
  }

  /**
   * The digits of `n` as `String(n)` writes them: no leading zero, "0" for zero.
   * From 10^21 up JavaScript switches to exponent form, which is not modelled.
   */
  function NaturalText(n: nat): (s: string)
    ensures |s| >= 1 && AllDigits(s)
    ensures |s| > 1 ==> s[0] != '0'
  {
    var last := ['0' + (n % 10) as char];
    if n < 10 then last
    else
      var s := NaturalText(n / 10) + last;
      assert s[0] == NaturalText(n / 10)[0];
      s
  }

  /** `String(n)` for an integer: a minus sign in front of negative values. */
  function IntegerText(n: int): string {
    if n < 0 then "-" + NaturalText(-n) else NaturalText(n)
  }

  /**
   * The integer literals read here: an optional sign and at least one decimal
   * digit, taken at their exact value. `Number` also accepts other literals that
   * denote integers (`1e3`, `0x10`, `1.0`); those give None here. The value is
   * what `Number` returns only below 2^53 in magnitude, where doubles are exact.
   */
  function ParseInteger(s: string): (r: Option<int>)
    ensures r.Some? <==> (|s| > 0 && AllDigits(s)) ||
                         (|s| > 1 && (s[0] == '+' || s[0] == '-') && AllDigits(s[1..]))
  {
    if |s| > 1 && s[0] == '-' && AllDigits(s[1..]) then Some(-(DigitsValue(s[1..]) as int))
    else if |s| > 1 && s[0] == '+' && AllDigits(s[1..]) then Some(DigitsValue(s[1..]))
    else if |s| > 0 && AllDigits(s) then Some(DigitsValue(s))
    else None
  }

  /**
   * `Number(v) || 0` on a field value: surrounding whitespace is ignored, and a
   * value that is absent, blank or not a decimal integer literal counts as 0
   * (NaN and 0 are both falsy). Exact, where the browser rounds to a double.
   */
  function NumberOrZero(v: Option<string>): int {
    match v
    case None => 0
    case Some(s) =>
      match ParseInteger(Trim(s))
      case Some(n) => n
      case None => 0
  }

  lemma {:induction false} NaturalTextValue(n: nat)
    ensures DigitsValue(NaturalText(n)) == n
  {
    var s := NaturalText(n);
    if n >= 10 {
      NaturalTextValue(n / 10);
      assert s[..|s| - 1] == NaturalText(n / 10);
    }
  }

  lemma NoWhitespaceTrimmed(s: string)
    requires forall i :: 0 <= i < |s| ==> !IsWhitespace(s[i])
    ensures Trim(s) == s
  {
    if s != [] {
      assert TrimStart(s) == s;
    }
  }

  lemma NumberTextHasNoWhitespace(n: int)
    ensures forall i :: 0 <= i < |IntegerText(n)| ==> !IsWhitespace(IntegerText(n)[i])
  {
    var s := IntegerText(n);
    if n < 0 {
      assert forall i :: 1 <= i < |s| ==> s[i] == NaturalText(-n)[i - 1];
    }
  }

  /** Reading back the text of an integer with `Number(...) || 0` gives that integer. */
  lemma IntegerTextRoundTrip(n: int)
    ensures NumberOrZero(Some(IntegerText(n))) == n
  {
    var s := IntegerText(n);
    NumberTextHasNoWhitespace(n);
    NoWhitespaceTrimmed(s);
    if n < 0 {
      NaturalTextValue(-n);
      assert s[1..] == NaturalText(-n);
      assert ParseInteger(s) == Some(n);
    } else {
      NaturalTextValue(n);
      assert ParseInteger(s) == Some(n);
    }
  }
}
