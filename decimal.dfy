/** Decimal digit strings and JavaScript's `parseInt(text, 10)`, as both
    pages of the board use them: the floor number read out of a cart's
    location, and the quantity typed into the default-stock editor. */
module Decimal {

  /** The characters the regular expression class `\d` matches (ASCII only,
      since the pattern carries no `u` flag). */
  predicate IsDigit(c: char) {
    '0' <= c <= '9'
  }

  predicate AllDigits(s: string) {
    forall k :: 0 <= k < |s| ==> IsDigit(s[k])
  }

  function DigitValue(c: char): (d: nat)
    requires IsDigit(c)
    ensures d < 10
  {
    c as int - '0' as int
  }

  /** The value of a string of decimal digits, most significant first;
      leading zeros contribute nothing. */
  function Value(ds: string): nat
    requires AllDigits(ds)
  {
    if ds == [] then 0 else 10 * Value(ds[..|ds| - 1]) + DigitValue(ds[|ds| - 1])
  }

  function DigitChar(d: nat): (c: char)
    requires d < 10
    ensures IsDigit(c) && DigitValue(c) == d
  {
    ('0' as int + d) as char
  }

  /** The canonical decimal spelling of a natural number (no leading zero). */
  function Digits(n: nat): (s: string)
    ensures AllDigits(s) && |s| > 0
    ensures |s| > 1 ==> s[0] != '0'
  {
    if n < 10 then [DigitChar(n)] else Digits(n / 10) + [DigitChar(n % 10)]
  }

  /** Reading back a number's spelling gives the number. */
  lemma {:induction false} ValueOfDigits(n: nat)
    ensures Value(Digits(n)) == n
  {
    if n >= 10 {
      var s := Digits(n);
      assert s[..|s| - 1] == Digits(n / 10);
      ValueOfDigits(n / 10);
    }
  }

  /** The end of the maximal run of digits that starts at `i`. */
  function RunEnd(s: string, i: nat): (j: nat)
    requires i <= |s|
    ensures i <= j <= |s|
    ensures forall k :: i <= k < j ==> IsDigit(s[k])
    ensures j == |s| || !IsDigit(s[j])
    decreases |s| - i
  {
    if i < |s| && IsDigit(s[i]) then RunEnd(s, i + 1) else i
  }

  /** The white space and line terminators `parseInt` skips before the
      number: TAB, LF, VT, FF, CR, SPACE, NO-BREAK SPACE, the other
      space separators of Unicode category Zs, LINE and PARAGRAPH
      SEPARATOR, and the byte-order mark. */
  predicate IsJsSpace(c: char) {
    c == '\t' || c == '\n' || c == '\U{000B}' || c == '\U{000C}' || c == '\r' ||
    c == ' ' || c == '\U{00A0}' || c == '\U{1680}' || ('\U{2000}' <= c <= '\U{200A}') ||
    c == '\U{2028}' || c == '\U{2029}' || c == '\U{202F}' || c == '\U{205F}' ||
    c == '\U{3000}' || c == '\U{FEFF}'
  }

  function SpaceEnd(s: string, i: nat): (j: nat)
    requires i <= |s|
    ensures i <= j <= |s|
    ensures forall k :: i <= k < j ==> IsJsSpace(s[k])
    ensures j == |s| || !IsJsSpace(s[j])
    decreases |s| - i
  {
    if i < |s| && IsJsSpace(s[i]) then SpaceEnd(s, i + 1) else i
  }

  /** What `parseInt(text, 10)` yields: an integer, or NaN. */
  datatype ParsedInt = Int(value: int) | NaN

  /** `parseInt(text, 10)`: skip leading white space, read an optional sign,
      then the maximal run of digits; NaN when that run is empty. Whatever
      follows the run (a decimal point, an exponent, letters) is ignored. */
  function ParseInt(text: string): (r: ParsedInt)
    ensures r.NaN? <==>
      var i := SpaceEnd(text, 0);
      var start := if i < |text| && (text[i] == '+' || text[i] == '-') then i + 1 else i;
      start == |text| || !IsDigit(text[start])
  {
    var i := SpaceEnd(text, 0);
    var negative := i < |text| && text[i] == '-';
    var start := if i < |text| && (text[i] == '+' || text[i] == '-') then i + 1 else i;
    var end := RunEnd(text, start);
    if end == start then NaN
    else
      var magnitude := Value(text[start..end]);
      Int(if negative then -(magnitude as int) else magnitude)
  }

  /** A string's digit prefix is read whatever follows it, as long as what
      follows does not begin with a digit: `parseInt("12.5")` is 12. */
  lemma ParseIntOfDigitsThen(n: nat, rest: string)
    requires rest == [] || !IsDigit(rest[0])
    ensures ParseInt(Digits(n) + rest) == Int(n)
    ensures ParseInt("-" + Digits(n) + rest) == Int(-(n as int))
    ensures ParseInt("+" + Digits(n) + rest) == Int(n)
  {
    var d := Digits(n);
    RunEndOfDigitsThen(d, rest, 0);
    assert (d + rest)[0..|d|] == d;
    var neg := "-" + d + rest;
    assert neg == "-" + (d + rest);
    RunEndOfDigitsThen("-" + d, rest, 1);
    assert neg[1..|d| + 1] == d;
    var pos := "+" + d + rest;
    RunEndOfDigitsThen("+" + d, rest, 1);
    assert pos[1..|d| + 1] == d;
    ValueOfDigits(n);
  }

  /** The run starting at `i` inside a digit block ends where the block
      ends, when the text after the block does not begin with a digit. */
  lemma RunEndOfDigitsThen(d: string, rest: string, i: nat)
    requires i <= |d|
    requires forall k :: i <= k < |d| ==> IsDigit(d[k])
    requires rest == [] || !IsDigit(rest[0])
    ensures RunEnd(d + rest, i) == |d|
  {
    var s := d + rest;
    assert forall k :: i <= k < |d| ==> IsDigit(s[k]);
    assert |d| < |s| ==> !IsDigit(s[|d|]);
  }

  /** Any spelling `parseInt` accepts is read as the value of its digits:
      leading white space, an optional sign, a non-empty digit run (leading
      zeros allowed, as in `"  007"`), then anything that does not begin
      with a digit. */
  lemma ParseIntOfSpelling(ws: string, sign: string, ds: string, rest: string)
    requires forall k :: 0 <= k < |ws| ==> IsJsSpace(ws[k])
    requires sign == "" || sign == "+" || sign == "-"
    requires ds != [] && AllDigits(ds)
    requires rest == [] || !IsDigit(rest[0])
    ensures ParseInt(ws + sign + ds + rest) == Int(if sign == "-" then -(Value(ds) as int) else Value(ds))
  {
    var text := ws + sign + ds + rest;
    var start := |ws| + |sign|;
    assert text == (ws + sign + ds) + rest;
    SpaceEndOverSpaces(text, ws);
    assert SpaceEnd(text, 0) == |ws|;
    if sign != "" {
      assert text[|ws|] == sign[0];
    } else {
      assert text[|ws|] == ds[0];
    }
    RunEndOfDigitsThen(ws + sign + ds, rest, start);
    assert text[start..start + |ds|] == ds;
  }

  /** White space at the front of a text, followed by a character that is
      not white space, ends where it ends. */
  lemma SpaceEndOverSpaces(text: string, ws: string)
    requires |ws| < |text| && text[..|ws|] == ws
    requires forall k :: 0 <= k < |ws| ==> IsJsSpace(ws[k])
    requires !IsJsSpace(text[|ws|])
    ensures SpaceEnd(text, 0) == |ws|
  {
    SpaceEndFrom(text, ws, 0);
  }

  lemma SpaceEndFrom(text: string, ws: string, i: nat)
    requires i <= |ws| < |text| && text[..|ws|] == ws
    requires forall k :: 0 <= k < |ws| ==> IsJsSpace(ws[k])
    requires !IsJsSpace(text[|ws|])
    ensures SpaceEnd(text, i) == |ws|
    decreases |ws| - i
  {
    if i < |ws| {
      assert text[i] == ws[i];
      SpaceEndFrom(text, ws, i + 1);
    }
  }

  /** The digits of a natural number, read back by `parseInt`. */
  lemma ParseIntRoundTrip(n: nat)
    ensures ParseInt(Digits(n)) == Int(n)
  {
    ParseIntOfDigitsThen(n, "");
    assert Digits(n) + "" == Digits(n);
  }
}
