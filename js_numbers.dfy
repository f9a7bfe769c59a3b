/** The global `parseInt` of JavaScript, called with one argument (no radix),
    on a string. `NaN` is `None`; every other result is an integer. */
module JsNumbers {
  import opened Wrappers

  /** A character matched by `\d` in a regular expression without the `u` flag. */
  predicate IsDecimalDigit(c: char) {
    '0' <= c <= '9'
  }

  /** The white space and line terminators that ECMAScript's TrimString removes:
      TAB, VT, FF, ZWNBSP, the Zs category, LF, CR, LS and PS. */
  predicate IsJsSpace(c: char) {
    c == '\t' || c == '\n' || c == '\U{000B}' || c == '\U{000C}' || c == '\r' ||
    c == ' ' || c == '\U{00A0}' || c == '\U{1680}' ||
    ('\U{2000}' <= c <= '\U{200A}') ||
    c == '\U{2028}' || c == '\U{2029}' || c == '\U{202F}' || c == '\U{205F}' ||
    c == '\U{3000}' || c == '\U{FEFF}'
  }

  /** The value of `c` as a digit of any radix up to 36; 36 when `c` is no digit at all. */
  function DigitValue(c: char): (d: nat)
    ensures d <= 36
    ensures IsDecimalDigit(c) <==> d < 10
  {
    if '0' <= c <= '9' then c as int - '0' as int
    else if 'a' <= c <= 'z' then c as int - 'a' as int + 10
    else if 'A' <= c <= 'Z' then c as int - 'A' as int + 10
    else 36
  }

  predicate IsRadixDigit(c: char, radix: nat) {
    DigitValue(c) < radix
  }

  /** `s` without its leading white space. */
  function TrimStart(s: string): (r: string)
    ensures |r| <= |s|
    ensures r == [] || !IsJsSpace(r[0])
  {
    if s != [] && IsJsSpace(s[0]) then TrimStart(s[1..]) else s
  }

  /** What `TrimStart` removes is all white space, and what it keeps is a suffix. */
  lemma {:induction false} TrimStartRemovesSpace(s: string)
    ensures forall k :: 0 <= k < |s| - |TrimStart(s)| ==> IsJsSpace(s[k])
    ensures TrimStart(s) == s[|s| - |TrimStart(s)|..]
  {
    if s != [] && IsJsSpace(s[0]) {
      TrimStartRemovesSpace(s[1..]);
    }
  }

  /** The longest prefix of `s` made of digits of the given radix. */
  function LeadingDigits(s: string, radix: nat): (z: string)
    ensures |z| <= |s|
    ensures z == [] <==> s == [] || !IsRadixDigit(s[0], radix)
  {
    if s != [] && IsRadixDigit(s[0], radix) then [s[0]] + LeadingDigits(s[1..], radix) else []
  }

  /** The number that the digit string `z` denotes in the given radix
      (most significant digit first). */
  function DigitsValue(z: string, radix: nat): nat {
    if z == [] then 0
    else DigitsValue(z[..|z| - 1], radix) * radix + DigitValue(z[|z| - 1])
  }

  /** `u` starts with the `0x` or `0X` that selects radix 16. */
  predicate HasHexPrefix(u: string) {
    |u| >= 2 && u[0] == '0' && (u[1] == 'x' || u[1] == 'X')
  }

  /** The digits after the sign: a `0x` or `0X` prefix switches to radix 16; the
      longest run of digits of the radix is read, and an empty run is `NaN`. */
  function ParseUnsigned(u: string): Option<nat> {
    var hex := HasHexPrefix(u);
    var radix := if hex then 16 else 10;
    var z := LeadingDigits(if hex then u[2..] else u, radix);
    if z == [] then None else Some(DigitsValue(z, radix))
  }

  /** `sign` times the parsed digits; `NaN` stays `NaN`. */
  function Signed(sign: int, p: Option<nat>): Option<int> {
    match p
    case None => None
    case Some(v) => Some(sign * v)
  }

  /** `parseInt` after the leading white space is gone: an optional sign, then the digits. */
  function ParseTrimmed(t: string): Option<int> {
    if t != [] && t[0] == '-' then Signed(-1, ParseUnsigned(t[1..]))
    else if t != [] && t[0] == '+' then Signed(1, ParseUnsigned(t[1..]))
    else Signed(1, ParseUnsigned(t))
  }

  /** `t` without one leading sign character. */
  function SignStripped(t: string): string {
    if t != [] && (t[0] == '-' || t[0] == '+') then t[1..] else t
  }

  /** JavaScript's `parseInt(s)`: skip leading white space, take an optional sign,
      then read the digits that follow. (`-0` is 0 here: it compares like 0.)
      The result is `NaN` exactly when no digit follows the white space and the
      sign, or when a `0x` prefix is followed by no hexadecimal digit. */
  function ParseInt(s: string): (r: Option<int>)
    ensures var u := SignStripped(TrimStart(s));
      r.None? <==>
        if HasHexPrefix(u) then |u| == 2 || !IsRadixDigit(u[2], 16)
        else u == [] || !IsDecimalDigit(u[0])
  {
    ParseTrimmed(TrimStart(s))
  }

  lemma {:induction false} LeadingDigitsOfRun(d: string, rest: string, radix: nat)
    requires forall k :: 0 <= k < |d| ==> IsRadixDigit(d[k], radix)
    requires rest == [] || !IsRadixDigit(rest[0], radix)
    ensures LeadingDigits(d + rest, radix) == d
  {
    if d != [] {
      assert (d + rest)[0] == d[0];
      assert (d + rest)[1..] == d[1..] + rest;
      LeadingDigitsOfRun(d[1..], rest, radix);
    } else {
      assert d + rest == rest;
    }
  }

  /** Unsigned decimal digits followed by anything that does not continue them
      read as their decimal value, unless they are a lone `0` followed by the `x`
      of a `0x` prefix. */
  lemma ParseUnsignedDecimal(d: string, rest: string)
    requires d != [] && forall k :: 0 <= k < |d| ==> IsDecimalDigit(d[k])
    requires rest == [] || !IsDecimalDigit(rest[0])
    requires d != "0" || rest == [] || (rest[0] != 'x' && rest[0] != 'X')
    ensures ParseUnsigned(d + rest) == Some(DigitsValue(d, 10))
  {
    var u := d + rest;
    if |u| >= 2 {
      assert u[1] == if |d| >= 2 then d[1] else rest[0];
    }
    assert forall k :: 0 <= k < |d| ==> IsRadixDigit(d[k], 10);
    LeadingDigitsOfRun(d, rest, 10);
  }

  /** After a `0x` prefix, hexadecimal digits read as their radix-16 value. */
  lemma ParseUnsignedHex(h: string)
    requires h != [] && forall k :: 0 <= k < |h| ==> IsRadixDigit(h[k], 16)
    ensures ParseUnsigned("0x" + h) == Some(DigitsValue(h, 16))
  {
    var u := "0x" + h;
    assert u[0] == '0' && u[1] == 'x' && u[2..] == h;
    assert h + [] == h;
    LeadingDigitsOfRun(h, [], 16);
  }

  /** A decimal numeral followed by anything that does not continue it parses to
      its value: `parseInt("50000 INR")` and `parseInt("12x")` are 50000 and 12.
      The one exception, a lone `0` followed by `x` or `X`, is excluded because
      it switches to radix 16. */
  lemma ParseIntDecimalPrefix(d: string, rest: string)
    requires d != [] && forall k :: 0 <= k < |d| ==> IsDecimalDigit(d[k])
    requires rest == [] || !IsDecimalDigit(rest[0])
    requires d != "0" || rest == [] || (rest[0] != 'x' && rest[0] != 'X')
    ensures ParseInt(d + rest) == Some(DigitsValue(d, 10))
  {
    var s := d + rest;
    assert s[0] == d[0];
    ParseIntUnsigned(s);
    ParseUnsignedDecimal(d, rest);
  }

  /** Leading white space never changes the result. */
  lemma {:induction false} ParseIntSkipsSpace(ws: string, s: string)
    requires forall k :: 0 <= k < |ws| ==> IsJsSpace(ws[k])
    ensures ParseInt(ws + s) == ParseInt(s)
  {
    TrimStartSpace(ws, s);
  }

  lemma {:induction false} TrimStartSpace(ws: string, s: string)
    requires forall k :: 0 <= k < |ws| ==> IsJsSpace(ws[k])
    ensures TrimStart(ws + s) == TrimStart(s)
  {
    if ws != [] {
      assert (ws + s)[0] == ws[0];
      assert (ws + s)[1..] == ws[1..] + s;
      TrimStartSpace(ws[1..], s);
    } else {
      assert ws + s == s;
    }
  }

  /** Text that starts with neither white space nor a sign is read as unsigned digits. */
  lemma ParseIntUnsigned(s: string)
    requires s == [] || (!IsJsSpace(s[0]) && s[0] != '-' && s[0] != '+')
    ensures ParseInt(s) == Signed(1, ParseUnsigned(s))
  {
    assert TrimStart(s) == s;
  }

  /** A minus sign negates the unsigned value that follows it, a plus sign keeps
      it, and text without a sign reads as that value. */
  lemma ParseIntSign(s: string)
    requires s == [] || (!IsJsSpace(s[0]) && s[0] != '-' && s[0] != '+')
    ensures ParseInt("-" + s) == Signed(-1, ParseUnsigned(s))
    ensures ParseInt("+" + s) == Signed(1, ParseUnsigned(s))
    ensures ParseInt(s) == Signed(1, ParseUnsigned(s))
  {
    ParseIntUnsigned(s);
    var t := "-" + s;
    assert t[0] == '-' && !IsJsSpace(t[0]);
    assert TrimStart(t) == t;
    assert t[1..] == s;
    assert ParseTrimmed(t) == Signed(-1, ParseUnsigned(s));
    var p := "+" + s;
    assert p[0] == '+' && !IsJsSpace(p[0]);
    assert TrimStart(p) == p;
    assert p[1..] == s;
    assert ParseTrimmed(p) == Signed(1, ParseUnsigned(s));
  }

  /** When the character after the white space and the optional sign is not a
      digit, the result is `NaN`, whatever follows: `parseInt("Rs 50000")`,
      `parseInt("--5")` and `parseInt("- 5")` are all `NaN`. */
  lemma ParseIntNoLeadingDigit(s: string)
    requires var u := SignStripped(TrimStart(s)); u == [] || !IsDecimalDigit(u[0])
    ensures ParseInt(s) == None
  {
  }

  lemma UnsignedNoDigits(u: string)
    requires forall k :: 0 <= k < |u| ==> !IsDecimalDigit(u[k])
    ensures ParseUnsigned(u) == None
  {
    if u != [] {
      assert !IsRadixDigit(u[0], 10);
    }
  }

  /** Text in which no character is a decimal digit parses to `NaN`. */
  lemma ParseIntNoDigits(s: string)
    requires forall k :: 0 <= k < |s| ==> !IsDecimalDigit(s[k])
    ensures ParseInt(s) == None
  {
    var t := TrimStart(s);
    TrimStartRemovesSpace(s);
    assert forall k :: 0 <= k < |t| ==> t[k] == s[|s| - |t| + k];
    if t != [] && (t[0] == '-' || t[0] == '+') {
      UnsignedNoDigits(t[1..]);
    } else {
      UnsignedNoDigits(t);
    }
  }

  lemma DigitsValueAppend(z: string, c: char, radix: nat)
    ensures DigitsValue(z + [c], radix) == DigitsValue(z, radix) * radix + DigitValue(c)
  {
    assert (z + [c])[..|z|] == z;
  }

  lemma DecimalDigits(d: string)
    requires forall k | 0 <= k < |d| :: IsDecimalDigit(d[k])
    requires d != []
    ensures ParseInt(d) == Some(DigitsValue(d, 10))
  {
    assert d + "" == d;
    ParseIntDecimalPrefix(d, "");
  }

  lemma FiftyThousandValue()
    ensures DigitsValue("50000", 10) == 50000
  {
    DigitsValueAppend("", '5', 10);
    assert "" + ['5'] == "5";
    DigitsValueAppend("5", '0', 10);
    assert "5" + ['0'] == "50";
    DigitsValueAppend("50", '0', 10);
    assert "50" + ['0'] == "500";
    DigitsValueAppend("500", '0', 10);
    assert "500" + ['0'] == "5000";
    DigitsValueAppend("5000", '0', 10);
    assert "5000" + ['0'] == "50000";
  }

  /** `parseInt("50000")` is 50000. */
  lemma ParseIntDecimalExample()
    ensures ParseInt("50000") == Some(50000)
  {
    DecimalDigits("50000");
    FiftyThousandValue();
  }

  lemma FortyTwoIsDecimalNumeral(d: string)
    requires d == "42"
    ensures forall k :: 0 <= k < |d| ==> IsDecimalDigit(d[k])
    ensures DigitsValue(d, 10) == 42
  {
    DigitsValueAppend("", '4', 10);
    assert "" + ['4'] == "4";
    DigitsValueAppend("4", '2', 10);
    assert "4" + ['2'] == d;
  }

  lemma UnsignedFortyTwo()
    ensures ParseUnsigned("42k") == Some(42)
  {
    var d, rest := "42", "k";
    FortyTwoIsDecimalNumeral(d);
    assert !IsDecimalDigit(rest[0]);
    ParseUnsignedDecimal(d, rest);
    assert d + rest == "42k";
  }

  /** `parseInt("  -42k")` is -42: white space and a trailing unit are ignored. */
  lemma ParseIntSignedExample()
    ensures ParseInt("  -42k") == Some(-42)
  {
    var ws, n := "  ", "42k";
    assert ws + ("-" + n) == "  -42k";
    assert forall k :: 0 <= k < |ws| ==> IsJsSpace(ws[k]);
    ParseIntSkipsSpace(ws, "-" + n);
    assert !IsJsSpace(n[0]);
    ParseIntSign(n);
    UnsignedFortyTwo();
  }

  lemma OneFIsHexNumeral(h: string)
    requires h == "1F"
    ensures forall k :: 0 <= k < |h| ==> IsRadixDigit(h[k], 16)
    ensures DigitsValue(h, 16) == 31
  {
    DigitsValueAppend("", '1', 16);
    assert "" + ['1'] == "1";
    DigitsValueAppend("1", 'F', 16);
    assert "1" + ['F'] == h;
  }

  /** `parseInt("0x1F")` is 31: without a radix, a `0x` prefix selects hexadecimal. */
  lemma ParseIntHexExample()
    ensures ParseInt("0x1F") == Some(31)
  {
    var h := "1F";
    OneFIsHexNumeral(h);
    ParseUnsignedHex(h);
    var s := "0x" + h;
    assert s == "0x1F";
    assert !IsJsSpace(s[0]);
    ParseIntSign(s);
  }

  /** A leading word or a doubled sign gives `NaN`. */
  lemma ParseIntNoLeadingDigitExample()
    ensures ParseInt("Rs 50000") == None
    ensures ParseInt("--5") == None
  {
    var a, b := "Rs 50000", "--5";
    assert TrimStart(a) == a && SignStripped(a) == a && a[0] == 'R';
    ParseIntNoLeadingDigit(a);
    assert TrimStart(b) == b && SignStripped(b) == b[1..] && b[1] == '-';
    ParseIntNoLeadingDigit(b);
  }

  /** Text without leading digits is `NaN`. */
  lemma ParseIntNaNExample()
    ensures ParseInt("abc") == None
  {
    assert forall k | 0 <= k < |"abc"| :: !IsDecimalDigit("abc"[k]);
    ParseIntNoDigits("abc");
  }
}
