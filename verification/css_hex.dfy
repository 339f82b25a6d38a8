/**
 * `Color.init(cssHex:)` from the theme preview card: `#RGB`, `#RGBA`,
 * `#RRGGBB` or `#RRGGBBAA` to a colour, and clear for anything else. The
 * colour is kept as its byte channels; the source's division of each channel
 * by 255 into a floating-point component is not modelled.
 */
module CssHex {
  import opened Wrappers

  /** A colour as byte channels; `Clear` is SwiftUI's `.clear`. */
  datatype Rgba = Clear | Rgba(red: nat, green: nat, blue: nat, alpha: nat)

  function HexDigit(c: char): (r: Option<nat>)
    ensures r.Some? ==> r.value < 16
  {
    if '0' <= c <= '9' then Some(c as int - '0' as int)
    else if 'a' <= c <= 'f' then Some(c as int - 'a' as int + 10)
    else if 'A' <= c <= 'F' then Some(c as int - 'A' as int + 10)
    else None
  }

  predicate AllHex(s: string) {
    forall i :: 0 <= i < |s| ==> HexDigit(s[i]).Some?
  }

  /** Value of a string of hex digits, most significant first. */
  function HexValue(s: string): nat
    requires AllHex(s)
  {
    if s == [] then 0 else 16 * HexValue(s[..|s| - 1]) + HexDigit(s[|s| - 1]).value
  }

  /**
   * `UInt64(_:radix: 16)`: one optional sign, then at least one hex digit.
   * A minus sign is accepted only when the value is zero, since an unsigned
   * integer cannot hold anything below it. At most eight digits reach this
   * parser, so the 64-bit range is never exceeded.
   */
  function ParseHex(s: string): (r: Option<nat>)
    ensures s == [] ==> r.None?
    ensures s != [] && s[0] != '+' && s[0] != '-' ==> (r.Some? <==> AllHex(s))
    ensures r.Some? && s != [] && s[0] != '+' && s[0] != '-' ==> r.value == HexValue(s)
    ensures s != [] && (s[0] == '+' || s[0] == '-') ==>
      (r.Some? <==> |s| > 1 && AllHex(s[1..]) && (s[0] == '+' || HexValue(s[1..]) == 0))
    ensures r.Some? && s != [] && (s[0] == '+' || s[0] == '-') ==> r.value == HexValue(s[1..])
  {
    if s == [] then None
    else if s[0] == '+' || s[0] == '-' then
      var digits := s[1..];
      if digits == [] || !AllHex(digits) then None
      else if s[0] == '-' && HexValue(digits) != 0 then None
      else Some(if s[0] == '-' then 0 else HexValue(digits))
    else if AllHex(s) then Some(HexValue(s))
    else None
  }

  /** `trimmingCharacters(in: ["#"])`: drops `#` from both ends. */
  function TrimHash(s: string): (r: string)
    ensures |r| <= |s|
    ensures r != [] ==> r[0] != '#' && r[|r| - 1] != '#'
    decreases |s|
  {
    if s == [] then []
    else if s[0] == '#' then TrimHash(s[1..])
    else if s[|s| - 1] == '#' then TrimHash(s[..|s| - 1])
    else s
  }

  /** Each character written twice: the short forms' expansion. */
  function Double(s: string): (r: string)
    ensures |r| == 2 * |s|
    ensures forall i :: 0 <= i < |s| ==> r[2 * i] == s[i] && r[2 * i + 1] == s[i]
  {
    if s == [] then [] else [s[0], s[0]] + Double(s[1..])
  }

  /** The hex text the parser reads, or `None` for an unsupported length. */
  function Expand(hex: string): (r: Option<string>)
    ensures r.Some? ==> |r.value| == 6 || |r.value| == 8
  {
    if |hex| == 3 || |hex| == 4 then Some(Double(hex))
    else if |hex| == 6 || |hex| == 8 then Some(hex)
    else None
  }

  /** The byte of `v` that a shift right by `8 * k` and a mask with `0xFF` select. */
  function ByteAt(v: nat, k: nat): (r: nat)
    ensures r < 256
  {
    if k == 0 then v % 256 else ByteAt(v / 256, k - 1)
  }

  /** `init(cssHex:)`. */
  function FromCssHex(input: Option<string>): (c: Rgba) {
    if input.None? then Clear
    else
      var hex := TrimHash(input.value);
      if hex == [] then Clear
      else match Expand(hex)
        case None => Clear
        case Some(expanded) =>
          match ParseHex(expanded)
          case None => Clear
          case Some(v) =>
            if |expanded| == 8 then Rgba(ByteAt(v, 3), ByteAt(v, 2), ByteAt(v, 1), ByteAt(v, 0))
            else Rgba(ByteAt(v, 2), ByteAt(v, 1), ByteAt(v, 0), 255)
  }

  // ----- Rendering bytes as hex, the parser's inverse -----

  function HexChar(d: nat): (c: char)
    requires d < 16
    ensures HexDigit(c) == Some(d)
  {
    if d < 10 then ('0' as int + d) as char else ('a' as int + d - 10) as char
  }

  /** A byte as two lower-case hex digits. */
  function Hex2(b: nat): (r: string)
    requires b < 256
    ensures |r| == 2 && AllHex(r) && HexValue(r) == b
  {
    var r := [HexChar(b / 16), HexChar(b % 16)];
    assert r[..1] == [HexChar(b / 16)] && r[..1][..0] == [];
    assert HexValue(r[..1]) == b / 16;
    r
  }

  lemma {:induction false} HexAppend(x: string, y: string)
    requires AllHex(x) && AllHex(y)
    ensures AllHex(x + y)
    ensures HexValue(x + y) == HexValue(x) * Pow16(|y|) + HexValue(y)
    decreases |y|
  {
    if y == [] {
      assert x + y == x;
    } else {
      var z := x + y;
      var y' := y[..|y| - 1];
      assert z[..|z| - 1] == x + y';
      assert z[|z| - 1] == y[|y| - 1];
      HexAppend(x, y');
      var d := HexDigit(y[|y| - 1]).value;
      calc {
        HexValue(z);
        16 * HexValue(x + y') + d;
        16 * (HexValue(x) * Pow16(|y'|) + HexValue(y')) + d;
        { MulAssoc16(HexValue(x), Pow16(|y'|)); }
        HexValue(x) * Pow16(|y|) + (16 * HexValue(y') + d);
      }
    }
  }

  lemma MulAssoc16(a: nat, b: nat)
    ensures 16 * (a * b) == a * (16 * b)
  {
  }

  function Pow16(n: nat): (r: nat)
    ensures r >= 1
  {
    if n == 0 then 1 else 16 * Pow16(n - 1)
  }

  /** The byte `k` places up from the bottom of a base-256 numeral is that digit. */
  lemma ByteAtDigits(hi: nat, b: nat, k: nat)
    requires b < 256
    ensures ByteAt(hi * 256 + b, 0) == b
    ensures ByteAt(hi * 256 + b, k + 1) == ByteAt(hi, k)
  {
    assert (hi * 256 + b) / 256 == hi;
  }

  /** The channels of a 24-bit and a 32-bit value, high byte first. */
  lemma Bytes3(r: nat, g: nat, b: nat)
    requires r < 256 && g < 256 && b < 256
    ensures var v := (r * 256 + g) * 256 + b;
      ByteAt(v, 2) == r && ByteAt(v, 1) == g && ByteAt(v, 0) == b
  {
    ByteAtDigits(r * 256 + g, b, 0);
    ByteAtDigits(r * 256 + g, b, 1);
    ByteAtDigits(r, g, 0);
  }

  lemma Bytes4(r: nat, g: nat, b: nat, a: nat)
    requires r < 256 && g < 256 && b < 256 && a < 256
    ensures var v := ((r * 256 + g) * 256 + b) * 256 + a;
      ByteAt(v, 3) == r && ByteAt(v, 2) == g && ByteAt(v, 1) == b && ByteAt(v, 0) == a
  {
    var u := (r * 256 + g) * 256 + b;
    ByteAtDigits(u, a, 0);
    ByteAtDigits(u, a, 1);
    ByteAtDigits(u, a, 2);
    Bytes3(r, g, b);
  }

  /** The value of hex digits written for base-256 digits. */
  lemma Hex2Pair(x: string, b: nat)
    requires AllHex(x) && b < 256
    ensures AllHex(x + Hex2(b)) && HexValue(x + Hex2(b)) == HexValue(x) * 256 + b
  {
    HexAppend(x, Hex2(b));
    assert Pow16(2) == 256;
  }

  /** What `init(cssHex:)` does with `#` followed by six or eight plain hex digits. */
  lemma FromPlainHex(s: string)
    requires (|s| == 6 || |s| == 8) && AllHex(s)
    ensures var v := HexValue(s);
      FromCssHex(Some("#" + s))
        == if |s| == 8 then Rgba(ByteAt(v, 3), ByteAt(v, 2), ByteAt(v, 1), ByteAt(v, 0))
           else Rgba(ByteAt(v, 2), ByteAt(v, 1), ByteAt(v, 0), 255)
  {
    assert HexDigit(s[0]).Some? && HexDigit(s[|s| - 1]).Some?;
    TrimHashPlain("#" + s, s);
  }

  /** Six hex digits for three bytes, and eight for four, read back as those bytes. */
  lemma RoundTrip6(r: nat, g: nat, b: nat)
    requires r < 256 && g < 256 && b < 256
    ensures FromCssHex(Some("#" + (Hex2(r) + Hex2(g) + Hex2(b)))) == Rgba(r, g, b, 255)
  {
    Hex2Pair(Hex2(r), g);
    Hex2Pair(Hex2(r) + Hex2(g), b);
    FromPlainHex(Hex2(r) + Hex2(g) + Hex2(b));
    Bytes3(r, g, b);
  }

  lemma RoundTrip8(r: nat, g: nat, b: nat, a: nat)
    requires r < 256 && g < 256 && b < 256 && a < 256
    ensures FromCssHex(Some("#" + (Hex2(r) + Hex2(g) + Hex2(b) + Hex2(a)))) == Rgba(r, g, b, a)
  {
    Hex2Pair(Hex2(r), g);
    Hex2Pair(Hex2(r) + Hex2(g), b);
    Hex2Pair(Hex2(r) + Hex2(g) + Hex2(b), a);
    FromPlainHex(Hex2(r) + Hex2(g) + Hex2(b) + Hex2(a));
    Bytes4(r, g, b, a);
  }

  /** A single leading `#` in front of text without `#` at either end is dropped. */
  lemma TrimHashPlain(t: string, s: string)
    requires t == "#" + s && s != [] && s[0] != '#' && s[|s| - 1] != '#'
    ensures TrimHash(t) == s
  {
    assert t[1..] == s;
  }

  /** `#RGB` is `#RRGGBB` and `#RGBA` is `#RRGGBBAA`. */
  lemma ShortForm(hex: string)
    requires |hex| == 3 || |hex| == 4
    requires hex[0] != '#' && hex[|hex| - 1] != '#'
    ensures FromCssHex(Some(hex)) == FromCssHex(Some(Double(hex)))
  {
    var d := Double(hex);
    assert d[0] == hex[0] && d[|d| - 1] == hex[|hex| - 1];
  }

  /** Missing input, only `#`, or a length other than 3, 4, 6 or 8 gives clear. */
  lemma ClearCases(input: Option<string>)
    requires || input.None?
             || TrimHash(input.value) == []
             || var n := |TrimHash(input.value)|; n != 3 && n != 4 && n != 6 && n != 8
    ensures FromCssHex(input) == Clear
  {
  }

  /**
   * A character that is not a hex digit anywhere in the expanded text gives
   * clear, whatever the length; only a sign in front is read as such.
   */
  lemma NotHexIsClear(input: string, i: nat)
    requires var hex := TrimHash(input);
      && Expand(hex).Some? && i < |Expand(hex).value| && HexDigit(Expand(hex).value[i]).None?
      && (i == 0 ==> Expand(hex).value[0] != '+' && Expand(hex).value[0] != '-')
    ensures FromCssHex(Some(input)) == Clear
  {
    var e := Expand(TrimHash(input)).value;
    assert ParseHex(e).None? by {
      if e[0] == '+' || e[0] == '-' {
        assert e[1..][i - 1] == e[i];
      }
    }
  }

  /** Instances of each length: a `g` in the text, and a sign that is not in front. */
  lemma NotHexExamples()
    ensures FromCssHex(Some("#fg0")) == Clear
    ensures FromCssHex(Some("#12g4")) == Clear
    ensures FromCssHex(Some("#12345g")) == Clear
    ensures FromCssHex(Some("#1234+678")) == Clear
  {
    NotHexIsClear("#fg0", 2);
    NotHexIsClear("#12g4", 4);
    NotHexIsClear("#12345g", 5);
    NotHexIsClear("#1234+678", 4);
  }

  /** Swift's unsigned parser takes a sign: a minus in front of five hex digits is black when they are all zero and clear otherwise. */
  lemma SignedInput(s: string)
    requires |s| == 5 && AllHex(s)
    ensures FromCssHex(Some("#-" + s)) == if HexValue(s) == 0 then Rgba(0, 0, 0, 255) else Clear
  {
    var t := "-" + s;
    assert "#-" + s == "#" + t && t[1..] == s;
    assert HexDigit(t[|t| - 1]).Some?;
    TrimHashPlain("#" + t, t);
    assert ByteAt(0, 2) == 0 && ByteAt(0, 1) == 0;
  }

  /** An instance: five zeros behind the minus sign read as black. */
  lemma SignedZeros()
    ensures FromCssHex(Some("#-00000")) == Rgba(0, 0, 0, 255)
  {
    var z := "00000";
    Zeros(z);
    SignedInput(z);
    assert "#-" + z == "#-00000";
  }

  lemma {:induction false} Zeros(s: string)
    requires forall i :: 0 <= i < |s| ==> s[i] == '0'
    ensures AllHex(s) && HexValue(s) == 0
    decreases |s|
  {
    if s != [] {
      Zeros(s[..|s| - 1]);
    }
  }
}
