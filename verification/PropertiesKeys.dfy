/**
 * Keys with the escapes of `java.util.Properties` (`rv-export/src/metadata.rs`).
 *
 * A character outside printable ASCII is one `\uXXXX` per UTF-16 unit, two for a surrogate
 * pair (section 2 of RFC 2781). A `char` here is a Unicode scalar value.
 */
module PropertiesKeys {
  import opened Prelude

  // ----- UTF-16 -----

  type Utf16 = u: int | 0 <= u < 0x1_0000

  function EncodeChar(c: char): (units: seq<Utf16>)
    ensures 1 <= |units| <= 2
  {
    var v := c as int;
    if v < 0x1_0000 then [v] else [0xD800 + (v - 0x1_0000) / 0x400, 0xDC00 + (v - 0x1_0000) % 0x400]
  }

  function Encode(text: string): seq<Utf16> {
    if text == "" then [] else EncodeChar(text[0]) + Encode(text[1..])
  }

  predicate HighSurrogate(u: Utf16) {
    0xD800 <= u < 0xDC00
  }

  predicate LowSurrogate(u: Utf16) {
    0xDC00 <= u < 0xE000
  }

  /** `String::from_utf16_lossy`: an unpaired surrogate becomes U+FFFD. */
  function DecodeLossy(units: seq<Utf16>): string {
    if units == [] then ""
    else if HighSurrogate(units[0]) && |units| > 1 && LowSurrogate(units[1]) then
      var high: int, low: int := units[0], units[1];
      [(0x1_0000 + (high - 0xD800) * 0x400 + (low - 0xDC00)) as char] + DecodeLossy(units[2..])
    else if HighSurrogate(units[0]) || LowSurrogate(units[0]) then ['\U{FFFD}'] + DecodeLossy(units[1..])
    else [units[0] as char] + DecodeLossy(units[1..])
  }

  lemma DecodeFirst(c: char, more: seq<Utf16>)
    ensures DecodeLossy(EncodeChar(c) + more) == [c] + DecodeLossy(more)
  {
    var units := EncodeChar(c) + more;
    if c as int < 0x1_0000 {
      assert units[1..] == more;
    } else {
      assert units[2..] == more;
    }
  }

  lemma {:induction false} DecodeEncode(text: string)
    ensures DecodeLossy(Encode(text)) == text
  {
    if text != "" {
      DecodeEncode(text[1..]);
      DecodeFirst(text[0], Encode(text[1..]));
    }
  }

  lemma {:induction false} EncodeJoin(a: string, b: string)
    ensures Encode(a + b) == Encode(a) + Encode(b)
  {
    if a == "" {
      assert a + b == b;
    } else {
      assert (a + b)[1..] == a[1..] + b;
      EncodeJoin(a[1..], b);
    }
  }

  // ----- keys -----

  function HexDigit(d: int): char
    requires 0 <= d < 16
  {
    if d < 10 then ('0' as int + d) as char else ('A' as int + d - 10) as char
  }

  function HexValue(c: char): Option<int> {
    if '0' <= c <= '9' then Some(c as int - '0' as int)
    else if 'a' <= c <= 'f' then Some(c as int - 'a' as int + 10)
    else if 'A' <= c <= 'F' then Some(c as int - 'A' as int + 10)
    else None
  }

  /** The sixteen digits, in either case. */
  lemma HexValueMeans(c: char, value: int)
    ensures HexValue(c) == Some(value) <==>
            0 <= value < 16 && ("0123456789abcdef"[value] == c || "0123456789ABCDEF"[value] == c)
  {
  }

  /** `{unit:04X}` */
  function Hex4(u: Utf16): string {
    [HexDigit(u / 0x1000), HexDigit(u / 0x100 % 0x10), HexDigit(u / 0x10 % 0x10), HexDigit(u % 0x10)]
  }

  function ParseDigits(hex: string, value: int): Option<int>
  {
    if hex == "" then Some(value)
    else match HexValue(hex[0])
      case None => None
      case Some(digit) => ParseDigits(hex[1..], value * 16 + digit)
  }

  /** `u16::from_str_radix(hex, 16)` of four characters; a leading `+` is allowed. */
  function ParseHex4(hex: string): (unit: Option<Utf16>)
    requires |hex| == 4
  {
    var digits := if hex[0] == '+' then hex[1..] else hex;
    match ParseDigits(digits, 0)
    case None => None
    case Some(value) => if 0 <= value < 0x1_0000 then Some(value) else None
  }

  lemma HexDigitValue(d: int)
    requires 0 <= d < 16
    ensures HexValue(HexDigit(d)) == Some(d) && HexDigit(d) != '+'
  {
  }

  lemma ParseMore(d: int, rest: string, value: int)
    requires 0 <= d < 16
    ensures ParseDigits([HexDigit(d)] + rest, value) == ParseDigits(rest, value * 16 + d)
  {
    HexDigitValue(d);
    assert ([HexDigit(d)] + rest)[1..] == rest;
  }

  lemma ParseFour(a: int, b: int, c: int, d: int)
    requires 0 <= a < 16 && 0 <= b < 16 && 0 <= c < 16 && 0 <= d < 16
    ensures ParseDigits([HexDigit(a), HexDigit(b), HexDigit(c), HexDigit(d)], 0) ==
            Some(((a * 16 + b) * 16 + c) * 16 + d)
  {
    var one := [HexDigit(d)] + "";
    var two := [HexDigit(c)] + one;
    var three := [HexDigit(b)] + two;
    ParseMore(a, three, 0);
    ParseMore(b, two, a);
    ParseMore(c, one, a * 16 + b);
    ParseMore(d, "", (a * 16 + b) * 16 + c);
    assert [HexDigit(a)] + three == [HexDigit(a), HexDigit(b), HexDigit(c), HexDigit(d)];
  }

  lemma FourDigits(u: int)
    requires 0 <= u < 0x1_0000
    ensures 0 <= u / 0x1000 < 16
    ensures ((u / 0x1000 * 16 + u / 0x100 % 0x10) * 16 + u / 0x10 % 0x10) * 16 + u % 0x10 == u
  {
    assert u / 0x1000 == u / 0x100 / 0x10 && u / 0x100 == u / 0x10 / 0x10;
  }

  lemma ParseHex(u: Utf16)
    ensures ParseHex4(Hex4(u)) == Some(u)
  {
    FourDigits(u);
    HexDigitValue(u / 0x1000);
    ParseFour(u / 0x1000, u / 0x100 % 0x10, u / 0x10 % 0x10, u % 0x10);
  }

  function UnitEscapes(units: seq<Utf16>): string {
    if units == [] then "" else "\\u" + Hex4(units[0]) + UnitEscapes(units[1..])
  }

  function EscapeChar(c: char): (escaped: string)
    ensures escaped != ""
  {
    if c == '\\' then "\\\\"
    else if c in "=:#!> " then ['\\', c]
    else if c == '\t' then "\\t"
    else if c == '\n' then "\\n"
    else if c == '\r' then "\\r"
    else if c == '\U{0C}' then "\\f"
    else if ' ' <= c <= '~' then [c]
    else UnitEscapes(EncodeChar(c))
  }

  /** What `java.util.Properties` reads as itself anywhere in a key. */
  predicate IsPlainChar(c: char) {
    '!' < c <= '~' && c !in "\\=:#>"
  }

  function Escape(key: string): string {
    if key == "" then "" else EscapeChar(key[0]) + Escape(key[1..])
  }

  lemma EscapeCharMeans(c: char)
    ensures EscapeChar(c) == [c] <==> IsPlainChar(c)
    ensures IsPlainChar(c) || |EscapeChar(c)| > 1
  {
    if !IsPlainChar(c) && EscapeChar(c) == UnitEscapes(EncodeChar(c)) {
      assert EncodeChar(c) != [];
    }
  }

  lemma {:induction false} EscapeGrows(key: string)
    ensures |Escape(key)| >= |key|
    ensures Escape(key) == key <==> forall c | c in key :: IsPlainChar(c)
    ensures |Escape(key)| == |key| ==> Escape(key) == key
  {
    if key != "" {
      EscapeCharMeans(key[0]);
      EscapeGrows(key[1..]);
      assert key == [key[0]] + key[1..];
    }
  }

  /** A key is written as it is exactly when it has none of the characters that mean something there. */
  lemma PlainIsKept(key: string)
    ensures Escape(key) == key <==> forall c | c in key :: IsPlainChar(c)
  {
    EscapeGrows(key);
  }

  lemma EscapeMore(key: string, i: nat, out: string)
    requires i < |key| && Escape(key) == out + Escape(key[i..])
    ensures Escape(key) == out + EscapeChar(key[i]) + Escape(key[i + 1..])
  {
    assert key[i..][0] == key[i] && key[i..][1..] == key[i + 1..];
    Regroup(out, EscapeChar(key[i]), Escape(key[i + 1..]));
  }

  lemma EscapeEnds(key: string, out: string)
    ensures Escape(key) == "" + Escape(key[0..])
    ensures out + Escape(key[|key|..]) == out
  {
    assert key[0..] == key && key[|key|..] == "";
  }

  /** `escape_properties_key` */
  method EscapeKey(key: string) returns (out: string)
    ensures out == Escape(key)
  {
    out := "";
    EscapeEnds(key, "");
    for i := 0 to |key|
      invariant Escape(key) == out + Escape(key[i..])
    {
      EscapeMore(key, i, out);
      out := out + EscapeChar(key[i]);
    }
    EscapeEnds(key, out);
  }

  /** The units one reading step of `unescape_properties_key` yields, and the characters it takes. */
  function UnescapeStep(key: string): (step: (seq<Utf16>, nat))
    requires key != ""
    ensures 1 <= step.1 <= |key|
  {
    if key[0] != '\\' then (EncodeChar(key[0]), 1)
    else if |key| == 1 then (EncodeChar('\\'), 1)
    else match key[1]
      case 't' => (EncodeChar('\t'), 2)
      case 'n' => (EncodeChar('\n'), 2)
      case 'r' => (EncodeChar('\r'), 2)
      case 'f' => (EncodeChar('\U{0C}'), 2)
      case 'u' =>
        var hex := key[2..if |key| < 6 then |key| else 6];
        if |hex| == 4 && ParseHex4(hex).Some? then ([ParseHex4(hex).value], 6)
        else (Encode("\\u" + hex), 2 + |hex|)
      case other => (EncodeChar(other), 2)
  }

  function UnescapeUnits(key: string): seq<Utf16>
    decreases |key|
  {
    if key == "" then [] else var (units, taken) := UnescapeStep(key); units + UnescapeUnits(key[taken..])
  }

  function Unescape(key: string): string {
    DecodeLossy(UnescapeUnits(key))
  }

  /** The units read so far and those still to come make up the whole. */
  ghost predicate Collected(key: string, at: nat, out: seq<Utf16>) {
    at <= |key| && UnescapeUnits(key) == out + UnescapeUnits(key[at..])
  }

  lemma CollectedFirst(key: string)
    ensures Collected(key, 0, [])
  {
    assert key[0..] == key;
  }

  lemma CollectedMore(key: string, at: nat, out: seq<Utf16>)
    requires Collected(key, at, out) && at < |key|
    ensures var step := UnescapeStep(key[at..]); Collected(key, at + step.1, out + step.0)
  {
    var step := UnescapeStep(key[at..]);
    assert key[at..][step.1..] == key[at + step.1..];
    Regroup(out, step.0, UnescapeUnits(key[at + step.1..]));
  }

  lemma CollectedAll(key: string, out: seq<Utf16>)
    requires Collected(key, |key|, out)
    ensures UnescapeUnits(key) == out
  {
    assert key[|key|..] == "";
  }

  method CollectUnits(key: string) returns (out: seq<Utf16>)
    ensures out == UnescapeUnits(key)
  {
    out := [];
    var at := 0;
    CollectedFirst(key);
    while at < |key|
      invariant Collected(key, at, out)
    {
      var step := UnescapeStep(key[at..]);
      CollectedMore(key, at, out);
      out, at := out + step.0, at + step.1;
    }
    CollectedAll(key, out);
  }

  /** `unescape_properties_key` */
  method UnescapeKey(key: string) returns (text: string)
    ensures text == Unescape(key)
  {
    var out := CollectUnits(key);
    return DecodeLossy(out);
  }

  lemma UnescapeUnit(u: Utf16, more: string)
    ensures UnescapeUnits("\\u" + Hex4(u) + more) == [u] + UnescapeUnits(more)
  {
    var key := "\\u" + Hex4(u) + more;
    assert key[2..6] == Hex4(u) && key[6..] == more;
    ParseHex(u);
    assert UnescapeStep(key) == ([u], 6);
  }

  /** A backslash before a character other than `t`, `n`, `r`, `f` and `u` stands for the character. */
  lemma UnescapePair(c: char, more: string)
    requires c !in "tnrfu"
    ensures UnescapeUnits(['\\', c] + more) == EncodeChar(c) + UnescapeUnits(more)
  {
    var key := ['\\', c] + more;
    assert key[2..] == more;
    assert UnescapeStep(key) == (EncodeChar(c), 2);
  }

  lemma UnescapeControl(c: char, more: string)
    requires c in "\t\n\r\U{0C}"
    ensures UnescapeUnits(EscapeChar(c) + more) == EncodeChar(c) + UnescapeUnits(more)
  {
    var key := EscapeChar(c) + more;
    assert key[2..] == more;
    assert UnescapeStep(key) == (EncodeChar(c), 2);
  }

  lemma UnescapeTwo(a: Utf16, b: Utf16, more: string)
    ensures UnescapeUnits("\\u" + Hex4(a) + ("\\u" + Hex4(b)) + more) == [a, b] + UnescapeUnits(more)
  {
    var first, second := "\\u" + Hex4(a), "\\u" + Hex4(b);
    Regroup(first, second, more);
    UnescapeUnit(a, second + more);
    UnescapeUnit(b, more);
    Regroup([a], [b], UnescapeUnits(more));
  }

  lemma UnitEscapesOf(units: seq<Utf16>)
    ensures |units| == 1 ==> UnitEscapes(units) == "\\u" + Hex4(units[0])
    ensures |units| == 2 ==> UnitEscapes(units) == "\\u" + Hex4(units[0]) + ("\\u" + Hex4(units[1]))
  {
    if |units| == 2 {
      UnitEscapesOf(units[1..]);
    }
  }

  lemma UnescapeWide(c: char, more: string)
    ensures UnescapeUnits(UnitEscapes(EncodeChar(c)) + more) == EncodeChar(c) + UnescapeUnits(more)
  {
    var units := EncodeChar(c);
    UnitEscapesOf(units);
    if |units| == 1 {
      UnescapeUnit(units[0], more);
    } else {
      UnescapeTwo(units[0], units[1], more);
    }
  }

  lemma UnescapeFirst(c: char, more: string)
    ensures UnescapeUnits(EscapeChar(c) + more) == EncodeChar(c) + UnescapeUnits(more)
  {
    if c == '\\' || c in "=:#!> " {
      assert EscapeChar(c) == ['\\', c];
      UnescapePair(c, more);
    } else if c in "\t\n\r\U{0C}" {
      UnescapeControl(c, more);
    } else if ' ' <= c <= '~' {
      assert (EscapeChar(c) + more)[1..] == more;
    } else {
      UnescapeWide(c, more);
    }
  }

  /** Whatever follows it, an escaped key is read back as the key. */
  lemma {:induction false} UnescapeEscaped(key: string, more: string)
    ensures UnescapeUnits(Escape(key) + more) == Encode(key) + UnescapeUnits(more)
  {
    if key == "" {
      assert Escape(key) + more == more;
    } else {
      UnescapeEscaped(key[1..], more);
      UnescapeFirst(key[0], Escape(key[1..]) + more);
      Regroup(EscapeChar(key[0]), Escape(key[1..]), more);
      Regroup(EncodeChar(key[0]), Encode(key[1..]), UnescapeUnits(more));
    }
  }

  /** The round trip of one key, over all Unicode text. */
  lemma UnescapeEscape(key: string)
    ensures Unescape(Escape(key)) == key
  {
    UnescapeEscaped(key, "");
    assert Escape(key) + "" == Escape(key) && Encode(key) + UnescapeUnits("") == Encode(key);
    DecodeEncode(key);
  }
}
