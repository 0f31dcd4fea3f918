/** The global `parseInt` of the JavaScript runtime, for the two ways the
    templates call it: with radix 10, and with no radix (where a `0x` or `0X`
    prefix selects base 16). `NaN` is `None`. */
module JsNumber {
  import opened Wrappers
  import opened TextOps

  /** The value of a character as a digit of base 16 or less; 16 when it is
      not one. */
  function HexValue(c: char): (v: nat)
    ensures v <= 16
    ensures v < 10 <==> IsDigit(c)
  {
    if '0' <= c <= '9' then c as int - '0' as int
    else if 'a' <= c <= 'f' then c as int - 'a' as int + 10
    else if 'A' <= c <= 'F' then c as int - 'A' as int + 10
    else 16
  }

  /** Every character is a digit of `radix`. */
  predicate AllDigitsIn(ds: string, radix: nat) {
    forall i :: 0 <= i < |ds| ==> HexValue(ds[i]) < radix
  }

  /** Length of the longest prefix of `s` made of digits of `radix`. */
  function RunLength(s: string, radix: nat): (n: nat)
    ensures n <= |s|
    ensures AllDigitsIn(s[..n], radix)
    ensures n < |s| ==> HexValue(s[n]) >= radix
  {
    if s != [] && HexValue(s[0]) < radix then
      var n := 1 + RunLength(s[1..], radix);
      assert s[..n] == [s[0]] + s[1..][..n - 1];
      n
    else 0
  }

  /** The number the digits `ds` spell in `radix`, most significant first. */
  function DigitsValue(ds: string, radix: nat): nat {
    if ds == [] then 0
    else DigitsValue(ds[..|ds| - 1], radix) * radix + HexValue(ds[|ds| - 1])
  }

  function Pow10(k: nat): (p: nat)
    ensures p >= 1
  {
    if k == 0 then 1 else 10 * Pow10(k - 1)
  }

  /** `k` decimal digits spell a number below `10^k`. */
  lemma {:induction false} DigitsValueBound(ds: string)
    requires AllDigitsIn(ds, 10)
    ensures DigitsValue(ds, 10) < Pow10(|ds|)
  {
    if ds != [] {
      var init := ds[..|ds| - 1];
      assert forall i :: 0 <= i < |init| ==> init[i] == ds[i];
      DigitsValueBound(init);
    }
  }

  /** Drops one leading sign character. */
  function Unsigned(t: string): string {
    if t != [] && (t[0] == '-' || t[0] == '+') then t[1..] else t
  }

  /** The digit run at the start of the unsigned text and its value; with
      `autoRadix` a `0x`/`0X` prefix switches to base 16. */
  function ReadRun(u: string, autoRadix: bool): (r: Option<nat>)
    ensures !autoRadix ==> (r.Some? <==> u != [] && IsDigit(u[0]))
  {
    var hex := autoRadix && HexPrefixed(u);
    var radix := if hex then 16 else 10;
    var digits := if hex then u[2..] else u;
    var n := RunLength(digits, radix);
    if n == 0 then None else Some(DigitsValue(digits[..n], radix))
  }

  /** `parseInt` after the leading white space: an optional sign, then the
      digit run; no digits is `NaN`. */
  function ParseSigned(t: string, autoRadix: bool): (r: Option<int>)
    ensures r.Some? <==> ReadRun(Unsigned(t), autoRadix).Some?
  {
    match ReadRun(Unsigned(t), autoRadix)
    case None => None
    case Some(v) =>
      var n: int := v;
      Some(if t != [] && t[0] == '-' then -n else n)
  }

  /** `parseInt` skips the leading white space first. */
  function ParseIntWith(s: string, autoRadix: bool): (r: Option<int>) {
    ParseSigned(TrimStart(s), autoRadix)
  }

  /** `parseInt(s, 10)`. */
  function ParseIntDecimal(s: string): (r: Option<int>) {
    ParseIntWith(s, false)
  }

  /** `parseInt(s)` with no radix argument. */
  function ParseIntAuto(s: string): (r: Option<int>) {
    ParseIntWith(s, true)
  }

  /** The decimal numeral of `n`, without leading zeros. */
  function DecimalText(n: nat): (s: string)
    ensures s != []
    ensures AllDigitsIn(s, 10)
    ensures n > 0 ==> s[0] != '0'
  {
    if n < 10 then ['0' + n as char]
    else DecimalText(n / 10) + ['0' + (n % 10) as char]
  }

  /** Reading back the numeral of `n` gives `n`. */
  lemma {:induction false} DecimalTextValue(n: nat)
    ensures DigitsValue(DecimalText(n), 10) == n
  {
    var s := DecimalText(n);
    if n >= 10 {
      DecimalTextValue(n / 10);
      assert s[..|s| - 1] == DecimalText(n / 10);
    }
  }

  /** A digit run followed by a non-digit (or by nothing) is read whole. */
  lemma {:induction false} RunOfDigits(ds: string, rest: string)
    requires AllDigitsIn(ds, 10)
    requires rest == [] || !IsDigit(rest[0])
    ensures RunLength(ds + rest, 10) == |ds|
  {
    if ds == [] {
      assert ds + rest == rest;
    } else {
      assert (ds + rest)[0] == ds[0];
      assert (ds + rest)[1..] == ds[1..] + rest;
      assert AllDigitsIn(ds[1..], 10) by {
        assert forall i :: 0 <= i < |ds[1..]| ==> ds[1..][i] == ds[i + 1];
      }
      RunOfDigits(ds[1..], rest);
    }
  }

  /** The unsigned text starting with the digits `ds` reads as their value. */
  lemma {:induction false} ReadRunDigits(ds: string, rest: string)
    requires ds != [] && AllDigitsIn(ds, 10)
    requires rest == [] || !IsDigit(rest[0])
    ensures ReadRun(ds + rest, false) == Some(DigitsValue(ds, 10))
  {
    var u := ds + rest;
    RunOfDigits(ds, rest);
    assert u[..|ds|] == ds;
  }

  /** `parseInt(String(n), 10) == n` for every non-negative integer. */
  lemma {:induction false} ParseDecimalText(n: nat)
    ensures ParseIntDecimal(DecimalText(n)) == Some(n)
  {
    var s := DecimalText(n);
    assert HexValue(s[0]) < 10;
    TrimStartNoSpace(s);
    assert s + [] == s;
    ReadRunDigits(s, []);
    DecimalTextValue(n);
  }

  /** Leading white space and anything after the digit run are ignored:
      `parseInt("  2020 Marzo", 10) == 2020`. */
  lemma {:induction false} ParseDecimalPrefix(ws: string, ds: string, rest: string)
    requires AllSpace(ws)
    requires ds != [] && AllDigitsIn(ds, 10)
    requires rest == [] || !IsDigit(rest[0])
    ensures ParseIntDecimal(ws + ds + rest) == Some(DigitsValue(ds, 10))
  {
    var u := ds + rest;
    Associative(ws, ds, rest);
    assert u[0] == ds[0] && HexValue(ds[0]) < 10;
    TrimStartOfSpaces(ws, u);
    ParseDecimalDigits(ds, rest);
  }

  /** A digit run at the very start is read whole. */
  lemma {:induction false} ParseDecimalDigits(ds: string, rest: string)
    requires ds != [] && AllDigitsIn(ds, 10)
    requires rest == [] || !IsDigit(rest[0])
    ensures ParseIntDecimal(ds + rest) == Some(DigitsValue(ds, 10))
  {
    var u := ds + rest;
    assert u[0] == ds[0] && HexValue(ds[0]) < 10;
    TrimStartNoSpace(u);
    ParseSignedDigits(ds, rest);
  }

  lemma {:induction false} ParseSignedDigits(ds: string, rest: string)
    requires ds != [] && AllDigitsIn(ds, 10)
    requires rest == [] || !IsDigit(rest[0])
    ensures ParseSigned(ds + rest, false) == Some(DigitsValue(ds, 10))
  {
    var u := ds + rest;
    assert u[0] == ds[0] && HexValue(ds[0]) < 10;
    assert Unsigned(u) == u;
    ReadRunDigits(ds, rest);
  }

  lemma {:induction false} Associative(a: string, b: string, c: string)
    ensures a + b + c == a + (b + c)
  {
  }

  /** White space in front of a non-space start is what `TrimStart` removes. */
  lemma {:induction false} TrimStartOfSpaces(ws: string, t: string)
    requires AllSpace(ws)
    requires t != [] && !IsSpace(t[0])
    ensures TrimStart(ws + t) == TrimStart(t)
  {
    if ws != [] {
      assert (ws + t)[1..] == ws[1..] + t;
      assert (ws + t)[0] == ws[0];
      TrimStartOfSpaces(ws[1..], t);
    }
  }

  /** Without a radix, a digit run not followed by `x` (or made of two
      digits or more) is decimal: `parseInt("019 ") == 19`. */
  lemma {:induction false} ParseAutoPrefix(ds: string, rest: string)
    requires ds != [] && AllDigitsIn(ds, 10)
    requires rest == [] || !IsDigit(rest[0])
    requires |ds| >= 2 || rest == [] || (rest[0] != 'x' && rest[0] != 'X')
    ensures ParseIntAuto(ds + rest) == Some(DigitsValue(ds, 10))
  {
    DigitsFirst(ds, rest);
    AutoIsDecimal(ds + rest);
    ParseDecimalDigits(ds, rest);
  }

  /** Text starting with a digit has no sign and no leading space to drop,
      and starts with `0x` only when the digit run is the lone `0`. */
  lemma {:induction false} DigitsFirst(ds: string, rest: string)
    requires ds != [] && AllDigitsIn(ds, 10)
    requires |ds| >= 2 || rest == [] || (rest[0] != 'x' && rest[0] != 'X')
    ensures Unsigned(TrimStart(ds + rest)) == ds + rest
    ensures !HexPrefixed(ds + rest)
  {
    var u := ds + rest;
    assert u[0] == ds[0];
    assert IsDigit(u[0]) by {
      assert HexValue(ds[0]) < 10;
    }
    TrimStartNoSpace(u);
    assert TrimStart(u) == u;
    assert Unsigned(u) == u;
    if |ds| >= 2 {
      assert u[1] == ds[1];
      assert IsDigit(u[1]) by {
        assert HexValue(ds[1]) < 10;
      }
    } else if |u| >= 2 {
      assert u[1] == rest[0];
    }
  }

  /** `0x` or `0X`: the prefix that switches a radix-less `parseInt` to base 16. */
  predicate HexPrefixed(u: string) {
    |u| >= 2 && u[0] == '0' && (u[1] == 'x' || u[1] == 'X')
  }

  /** Without a `0x`/`0X` prefix the radix-less reading is the decimal one. */
  lemma {:induction false} AutoIsDecimal(s: string)
    requires !HexPrefixed(Unsigned(TrimStart(s)))
    ensures ParseIntAuto(s) == ParseIntDecimal(s)
  {
    var u := Unsigned(TrimStart(s));
    assert ReadRun(u, true) == ReadRun(u, false);
  }

  /** A string starting with a letter is not a number: `parseInt("Marzo 2020", 10)` is `NaN`. */
  lemma {:induction false} ParseDecimalNaN(s: string)
    requires s != [] && !IsSpace(s[0]) && !IsDigit(s[0]) && s[0] != '-' && s[0] != '+'
    ensures ParseIntDecimal(s) == None
  {
    TrimStartNoSpace(s);
  }

  /** Without a radix a `0x` prefix reads the rest as hexadecimal:
      `parseInt("0x1F") == 31`, where `parseInt("0x1F", 10) == 0`. */
  lemma {:induction false} ParseAutoHex()
    ensures ParseIntAuto("0x1F") == Some(31)
    ensures ParseIntDecimal("0x1F") == Some(0)
  {
    var u: string := "0x1F";
    TrimStartNoSpace(u);
    assert Unsigned(u) == u;
    var h: string := "1F";
    assert u[2..] == h;
    assert RunLength(h[1..], 16) == 1;
    assert RunLength(h, 16) == 2;
    assert h[..2] == h;
    assert h[..1] == "1";
    assert DigitsValue(h, 16) == 31;
    assert ReadRun(u, true) == Some(31);
    assert RunLength(u[1..], 10) == 0;
    assert RunLength(u, 10) == 1;
    assert u[..1] == "0";
    assert "0"[..0] == [];
    assert DigitsValue(u[..1], 10) == 0;
    assert ReadRun(u, false) == Some(0);
  }
}
