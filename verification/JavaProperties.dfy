/**
 * What Maven reads of a marker file: `java.util.Properties.load` as its documentation describes it,
 * for one line without a continuation, with texts as sequences of UTF-16 units.
 */
module JavaProperties {
  import opened Prelude
  import opened PropertiesKeys
  import opened Markers

  // ----- reading a line -----

  datatype JavaLine = Skipped | Malformed | Property(key: seq<Utf16>, value: seq<Utf16>)

  function SkipSpace(text: string): string {
    if text != "" && text[0] in " \t\U{0C}" then SkipSpace(text[1..]) else text
  }

  /** How much of a line is the key: all up to a separator or space that is not escaped. */
  function KeyLength(line: string): (n: nat)
    ensures n <= |line|
  {
    if line == "" then 0
    else if line[0] == '\\' then if |line| == 1 then 1 else 2 + KeyLength(line[2..])
    else if line[0] in "=: \t\U{0C}" then 0
    else 1 + KeyLength(line[1..])
  }

  /** The text of the value: space, one separator and space again are skipped before it. */
  function ValueText(rest: string): string {
    var text := SkipSpace(rest);
    if text != "" && text[0] in "=:" then SkipSpace(text[1..]) else text
  }

  function Digits(a: char, b: char, c: char, d: char): Option<Utf16> {
    match (HexValue(a), HexValue(b), HexValue(c), HexValue(d))
    case (Some(p), Some(q), Some(r), Some(s)) =>
      var value := ((p * 16 + q) * 16 + r) * 16 + s;
      if 0 <= value < 0x1_0000 then Some(value) else None
    case _ => None
  }

  /** The character an escape stands for. */
  function Escaped(c: char): char {
    match c
    case 't' => '\t'
    case 'n' => '\n'
    case 'r' => '\r'
    case 'f' => '\U{0C}'
    case _ => c
  }

  function Prepended(units: seq<Utf16>, rest: Option<seq<Utf16>>): Option<seq<Utf16>> {
    if rest.None? then None else Some(units + rest.value)
  }

  /** Undoes the escapes; a `\u` without four hex digits is an error. */
  function Convert(text: string): Option<seq<Utf16>> {
    if text == "" then Some([])
    else if text[0] != '\\' then Prepended(EncodeChar(text[0]), Convert(text[1..]))
    else if |text| == 1 then None
    else if text[1] != 'u' then Prepended(EncodeChar(Escaped(text[1])), Convert(text[2..]))
    else if |text| < 6 || Digits(text[2], text[3], text[4], text[5]).None? then None
    else Prepended([Digits(text[2], text[3], text[4], text[5]).value], Convert(text[6..]))
  }

  function ReadLine(raw: string): JavaLine {
    var line := SkipSpace(raw);
    if line == "" || line[0] in "#!" then Skipped
    else
      var n := KeyLength(line);
      var key, value := Convert(line[..n]), Convert(ValueText(line[n..]));
      if key.None? || value.None? then Malformed else Property(key.value, value.value)
  }

  // ----- where the key of a rendered line ends -----

  lemma PlainIsKey(c: char, more: string)
    requires c != '\\' && c !in "=: \t\U{0C}"
    ensures KeyLength([c] + more) == 1 + KeyLength(more)
  {
    assert ([c] + more)[1..] == more;
  }

  lemma PairIsKey(c: char, more: string)
    ensures KeyLength(['\\', c] + more) == 2 + KeyLength(more)
  {
    assert (['\\', c] + more)[2..] == more;
  }

  lemma HexIsKey(u: Utf16, more: string)
    ensures KeyLength("\\u" + Hex4(u) + more) == 6 + KeyLength(more)
  {
    var hex := Hex4(u);
    PairIsKey('u', [hex[0]] + ([hex[1]] + ([hex[2]] + ([hex[3]] + more))));
    PlainIsKey(hex[0], [hex[1]] + ([hex[2]] + ([hex[3]] + more)));
    PlainIsKey(hex[1], [hex[2]] + ([hex[3]] + more));
    PlainIsKey(hex[2], [hex[3]] + more);
    PlainIsKey(hex[3], more);
    assert "\\u" + hex + more == ['\\', 'u'] + ([hex[0]] + ([hex[1]] + ([hex[2]] + ([hex[3]] + more))));
  }

  lemma {:induction false} UnitEscapesAreKey(units: seq<Utf16>, more: string)
    ensures KeyLength(UnitEscapes(units) + more) == |UnitEscapes(units)| + KeyLength(more)
  {
    if units == [] {
      assert UnitEscapes(units) + more == more;
    } else {
      UnitEscapesAreKey(units[1..], more);
      HexIsKey(units[0], UnitEscapes(units[1..]) + more);
      Regroup("\\u" + Hex4(units[0]), UnitEscapes(units[1..]), more);
    }
  }

  lemma EscapedCharIsKey(c: char, more: string)
    ensures KeyLength(EscapeChar(c) + more) == |EscapeChar(c)| + KeyLength(more)
  {
    if c == '\\' || c in "=:#!> \t\n\r\U{0C}" {
      assert EscapeChar(c) == ['\\', EscapeChar(c)[1]];
      PairIsKey(EscapeChar(c)[1], more);
    } else if ' ' <= c <= '~' {
      PlainIsKey(c, more);
    } else {
      UnitEscapesAreKey(EncodeChar(c), more);
    }
  }

  lemma {:induction false} EscapedIsKey(key: string, more: string)
    ensures KeyLength(Escape(key) + more) == |Escape(key)| + KeyLength(more)
  {
    if key == "" {
      assert Escape(key) + more == more;
    } else {
      EscapedIsKey(key[1..], more);
      EscapedCharIsKey(key[0], Escape(key[1..]) + more);
      Regroup(EscapeChar(key[0]), Escape(key[1..]), more);
    }
  }

  lemma NoComment(key: string)
    ensures key != "" ==> Escape(key) != "" && Escape(key)[0] != '!'
  {
    if key != "" && !(key[0] == '\\' || key[0] in "=:#!> \t\n\r\U{0C}" || ' ' <= key[0] <= '~') {
      UnitEscapesArePlain(EncodeChar(key[0]));
    }
  }

  lemma KeyEndsAtValue(entry: Entry)
    ensures KeyLength(RenderLine(entry)) == |RenderLine(entry)| - 1
  {
    var file, id := Escape(entry.file), Escape(entry.id);
    EscapedIsKey(entry.file, ">" + (id + "="));
    PlainIsKey('>', id + "=");
    EscapedIsKey(entry.id, "=");
    AroundKey(file, id);
  }

  lemma AroundKey(file: string, id: string)
    ensures file + ">" + id + "=" == file + (">" + (id + "="))
  {
  }

  // ----- what the key of a rendered line reads as -----

  lemma ConvertPlain(c: char, more: string)
    requires c != '\\'
    ensures Convert([c] + more) == Prepended(EncodeChar(c), Convert(more))
  {
    assert ([c] + more)[1..] == more;
  }

  lemma ConvertPair(c: char, more: string)
    requires c != 'u'
    ensures Convert(['\\', c] + more) == Prepended(EncodeChar(Escaped(c)), Convert(more))
  {
    assert (['\\', c] + more)[2..] == more;
  }

  lemma DigitsOf(u: Utf16)
    ensures var hex := Hex4(u); Digits(hex[0], hex[1], hex[2], hex[3]) == Some(u)
  {
    FourDigits(u);
    HexDigitValue(u / 0x1000);
    HexDigitValue(u / 0x100 % 0x10);
    HexDigitValue(u / 0x10 % 0x10);
    HexDigitValue(u % 0x10);
  }

  lemma ConvertUnit(u: Utf16, more: string)
    ensures Convert("\\u" + Hex4(u) + more) == Prepended([u], Convert(more))
  {
    var text := "\\u" + Hex4(u) + more;
    DigitsOf(u);
    assert text[6..] == more && text[0] == '\\' && text[1] == 'u';
    assert text[2] == Hex4(u)[0] && text[3] == Hex4(u)[1] && text[4] == Hex4(u)[2] && text[5] == Hex4(u)[3];
  }

  lemma PrependedTwice(a: seq<Utf16>, b: seq<Utf16>, rest: Option<seq<Utf16>>)
    ensures Prepended(a, Prepended(b, rest)) == Prepended(a + b, rest)
    ensures Prepended([], rest) == rest
  {
    if rest.Some? {
      Regroup(a, b, rest.value);
      assert [] + rest.value == rest.value;
    }
  }

  lemma {:induction false} ConvertUnits(units: seq<Utf16>, more: string)
    ensures Convert(UnitEscapes(units) + more) == Prepended(units, Convert(more))
  {
    if units == [] {
      assert UnitEscapes(units) + more == more;
      PrependedTwice([], [], Convert(more));
    } else {
      var rest := units[1..];
      ConvertUnits(rest, more);
      ConvertUnit(units[0], UnitEscapes(rest) + more);
      Regroup("\\u" + Hex4(units[0]), UnitEscapes(rest), more);
      PrependedTwice([units[0]], rest, Convert(more));
      HeadAndRest(units);
    }
  }

  lemma EscapedBack(c: char)
    requires c == '\\' || c in "=:#!> \t\n\r\U{0C}"
    ensures var second := EscapeChar(c)[1]; EscapeChar(c) == ['\\', second] && second != 'u' && Escaped(second) == c
  {
  }

  lemma ConvertChar(c: char, more: string)
    ensures Convert(EscapeChar(c) + more) == Prepended(EncodeChar(c), Convert(more))
  {
    if c == '\\' || c in "=:#!> \t\n\r\U{0C}" {
      EscapedBack(c);
      ConvertPair(EscapeChar(c)[1], more);
    } else if ' ' <= c <= '~' {
      ConvertPlain(c, more);
    } else {
      ConvertUnits(EncodeChar(c), more);
    }
  }

  lemma {:induction false} ConvertKey(key: string, more: string)
    ensures Convert(Escape(key) + more) == Prepended(Encode(key), Convert(more))
  {
    if key == "" {
      assert Escape(key) + more == more;
      PrependedTwice([], [], Convert(more));
    } else {
      var rest := key[1..];
      ConvertKey(rest, more);
      ConvertChar(key[0], Escape(rest) + more);
      Regroup(EscapeChar(key[0]), Escape(rest), more);
      PrependedTwice(EncodeChar(key[0]), Encode(rest), Convert(more));
    }
  }

  lemma KeyIsRead(entry: Entry)
    ensures Convert(Escape(entry.file) + (">" + Escape(entry.id))) == Some(Encode(entry.file + ">" + entry.id))
  {
    var id := Escape(entry.id);
    ConvertKey(entry.file, ">" + id);
    ConvertPlain('>', id);
    ConvertKey(entry.id, "");
    assert id + "" == id && Convert("") == Some([]) && Encode(entry.id) + [] == Encode(entry.id);
    EncodeJoin(entry.file + ">", entry.id);
    EncodeMore(entry.file, '>');
    Regroup(Encode(entry.file), EncodeChar('>'), Encode(entry.id));
  }

  // ----- what Maven reads -----

  lemma FirstIsKey(entry: Entry)
    ensures RenderLine(entry)[0] !in " \t\U{0C}" && RenderLine(entry)[0] !in "#!"
  {
    var line, file := RenderLine(entry), Escape(entry.file);
    assert line[0] == if file == "" then '>' else file[0];
    EscapedKey(entry.file);
    NoComment(entry.file);
  }

  lemma BeforeEquals(file: string, id: string)
    ensures var line := file + ">" + id + "=";
            line[..|line| - 1] == file + (">" + id) && line[|line| - 1..] == "="
  {
  }

  lemma NoValue()
    ensures ValueText("=") == "" && Convert("") == Some([])
  {
    assert "="[0] == '=' && "="[1..] == "";
  }

  /**
   * `java.util.Properties` reads a rendered line as one property with an empty value, and its key is
   * the file name, `>` and the id, whatever characters they hold.
   */
  lemma MavenReadsTheKey(entry: Entry)
    ensures ReadLine(RenderLine(entry)) == Property(Encode(entry.file + ">" + entry.id), [])
  {
    FirstIsKey(entry);
    KeyEndsAtValue(entry);
    BeforeEquals(Escape(entry.file), Escape(entry.id));
    KeyIsRead(entry);
    NoValue();
    assert SkipSpace(RenderLine(entry)) == RenderLine(entry);
  }
}
