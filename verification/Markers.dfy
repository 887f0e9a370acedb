/**
 * The `_remote.repositories` files next to exported artifacts (`rv-export/src/metadata.rs`).
 *
 * Each line is `<file name>><repository id>=`, both sides escaped as keys of `java.util.Properties`.
 */
module Markers {
  import opened Prelude
  import opened PropertiesKeys

  // ----- lines -----

  datatype Entry = Entry(file: string, id: string)

  function RFind(text: string, c: char): (at: Option<nat>)
    ensures at.Some? ==> at.value < |text| && text[at.value] == c && forall k | at.value < k < |text| :: text[k] != c
    ensures at.None? ==> forall k | 0 <= k < |text| :: text[k] != c
  {
    if text == "" then None
    else if text[|text| - 1] == c then Some(|text| - 1)
    else RFind(text[..|text| - 1], c)
  }

  /** Unicode `White_Space`. */
  predicate Whitespace(c: char) {
    || '\U{09}' <= c <= '\U{0D}' || c == ' ' || c == '\U{85}' || c == '\U{A0}' || c == '\U{1680}'
    || '\U{2000}' <= c <= '\U{200A}' || c == '\U{2028}' || c == '\U{2029}' || c == '\U{202F}'
    || c == '\U{205F}' || c == '\U{3000}'
  }

  function Trim(line: string): string {
    if line == "" then ""
    else if Whitespace(line[0]) then Trim(line[1..])
    else if Whitespace(line[|line| - 1]) then Trim(line[..|line| - 1])
    else line
  }

  /** `str::lines` */
  function Lines(text: string): seq<string>
    decreases |text|
  {
    if text == "" then [] else var (line, rest) := FirstLine(text); [line] + Lines(rest)
  }

  function FirstLine(text: string): (split: (string, string))
    requires text != ""
    ensures |split.1| < |text|
  {
    match FindChar(text, '\n')
    case None => (text, "")
    case Some(at) =>
      var line := text[..at];
      (if line != "" && line[at - 1] == '\r' then line[..at - 1] else line, text[at + 1..])
  }

  /** The escaped name and id of a line: what stands before and after its last `>`. */
  function SplitLine(raw: string): Option<(string, string)> {
    var line := Trim(raw);
    if line == "" || line[0] == '#' || line[|line| - 1] != '=' then None
    else
      var body := line[..|line| - 1];
      match RFind(body, '>')
      case None => None
      case Some(sep) => Some((body[..sep], body[sep + 1..]))
  }

  function ReadEntry(name: string, id: string): Option<Entry> {
    if Unescape(name) == "" then None else Some(Entry(Unescape(name), Unescape(id)))
  }

  function ParseLine(raw: string): Option<Entry> {
    match SplitLine(raw)
    case None => None
    case Some((name, id)) => ReadEntry(name, id)
  }

  function ParseLines(lines: seq<string>): set<Entry> {
    set i | 0 <= i < |lines| && ParseLine(lines[i]).Some? :: ParseLine(lines[i]).value
  }

  function Parse(text: string): set<Entry> {
    ParseLines(Lines(text))
  }

  lemma ParseLineMore(lines: seq<string>, line: string)
    ensures ParseLines(lines + [line]) ==
            ParseLines(lines) + (if ParseLine(line).Some? then {ParseLine(line).value} else {})
  {
    var all := lines + [line];
    assert all[|lines|] == line;
    forall e | e in ParseLines(lines) ensures e in ParseLines(all) {
      var i :| 0 <= i < |lines| && ParseLine(lines[i]) == Some(e);
      assert all[i] == lines[i];
    }
    if ParseLine(line).Some? {
      assert ParseLine(all[|lines|]).value in ParseLines(all);
    }
  }

  /** `parse_remote_repositories` */
  method ParseMarkers(contents: string) returns (entries: set<Entry>)
    ensures entries == Parse(contents)
  {
    entries := {};
    var lines := Lines(contents);
    for i := 0 to |lines|
      invariant entries == ParseLines(lines[..i])
    {
      ParseLineMore(lines[..i], lines[i]);
      assert lines[..i + 1] == lines[..i] + [lines[i]];
      var entry := ParseMarker(lines[i]);
      if entry.Some? {
        entries := entries + {entry.value};
      }
    }
    assert lines[..|lines|] == lines;
  }

  method ParseMarker(raw: string) returns (entry: Option<Entry>)
    ensures entry == ParseLine(raw)
  {
    var line := Trim(raw);
    if line == "" || line[0] == '#' {
      return None;
    }
    if line[|line| - 1] != '=' {
      return None;
    }
    var body := line[..|line| - 1];
    var sep := RFind(body, '>');
    if sep.None? {
      return None;
    }
    assert SplitLine(raw) == Some((body[..sep.value], body[sep.value + 1..]));
    entry := ReadMarker(body[..sep.value], body[sep.value + 1..]);
  }

  method ReadMarker(name: string, id: string) returns (entry: Option<Entry>)
    ensures entry == ReadEntry(name, id)
  {
    var file := UnescapeKey(name);
    var repository := UnescapeKey(id);
    entry := if file == "" then None else Some(Entry(file, repository));
  }

  const NOTE_HEAD: string := "#NOTE: This is a Maven Resolver"
  const NOTE_BODY: string := " internal implementation file,"
  const NOTE_MORE: string := " its format can be changed"
  const NOTE_TAIL: string := " without prior notice."
  const NOTE: string := NOTE_HEAD + NOTE_BODY + (NOTE_MORE + NOTE_TAIL)
  const STAMP: string := "#Thu Jan 01 00:00:00 UTC 1970"

  function RenderLine(entry: Entry): string {
    Escape(entry.file) + ">" + Escape(entry.id) + "="
  }

  function RenderLines(entries: seq<Entry>): (lines: seq<string>)
    ensures |lines| == |entries|
    ensures forall i | 0 <= i < |entries| :: lines[i] == RenderLine(entries[i])
  {
    seq(|entries|, i requires 0 <= i < |entries| => RenderLine(entries[i]))
  }

  function JoinLines(lines: seq<string>): string {
    if lines == [] then "" else lines[0] + "\n" + JoinLines(lines[1..])
  }

  lemma {:induction false} JoinMore(lines: seq<string>, line: string)
    ensures JoinLines(lines + [line]) == JoinLines(lines) + line + "\n"
  {
    if lines == [] {
      assert lines + [line] == [line] && JoinLines([line]) == line + "\n" + JoinLines([]);
    } else {
      assert (lines + [line])[1..] == lines[1..] + [line];
      JoinMore(lines[1..], line);
    }
  }

  function Render(entries: seq<Entry>): string {
    JoinLines([NOTE, STAMP] + RenderLines(entries))
  }

  lemma RenderMore(entries: seq<Entry>, entry: Entry)
    ensures Render(entries + [entry]) == Render(entries) + RenderLine(entry) + "\n"
  {
    assert [NOTE, STAMP] + RenderLines(entries + [entry]) == [NOTE, STAMP] + RenderLines(entries) + [RenderLine(entry)];
    JoinMore([NOTE, STAMP] + RenderLines(entries), RenderLine(entry));
  }

  lemma RenderNone()
    ensures Render([]) == NOTE + "\n" + STAMP + "\n"
  {
    JoinMore([], NOTE);
    JoinMore([NOTE], STAMP);
    assert [] + [NOTE] == [NOTE] && [NOTE] + [STAMP] == [NOTE, STAMP];
    assert [NOTE, STAMP] + RenderLines([]) == [NOTE, STAMP];
  }

  lemma TakeOneMore(entries: seq<Entry>, i: nat)
    requires i < |entries|
    ensures entries[..i + 1] == entries[..i] + [entries[i]]
  {
  }

  method RenderEntry(entry: Entry) returns (line: string)
    ensures line == RenderLine(entry)
  {
    var file := EscapeKey(entry.file);
    var id := EscapeKey(entry.id);
    line := file + ">" + id + "=";
  }

  method RenderInOrder(entries: seq<Entry>) returns (out: string)
    ensures out == Render(entries)
  {
    out := NOTE + "\n" + STAMP + "\n";
    RenderNone();
    assert entries[..0] == [];
    for i := 0 to |entries|
      invariant out == Render(entries[..i])
    {
      var line := RenderEntry(entries[i]);
      out := out + line + "\n";
      RenderMore(entries[..i], entries[i]);
      TakeOneMore(entries, i);
    }
    assert entries[..|entries|] == entries;
  }

  // ----- reading back what was rendered -----

  predicate Plain(text: string) {
    forall i | 0 <= i < |text| :: ' ' <= text[i] <= '~'
  }

  lemma EscapedChar(c: char)
    ensures Plain(EscapeChar(c)) && EscapeChar(c)[0] != ' ' && EscapeChar(c)[0] != '#'
    ensures '>' in EscapeChar(c) <==> c == '>'
  {
    if !(c == '\\' || c in "=:#!> " || c in "\t\n\r\U{0C}" || ' ' <= c <= '~') {
      UnitEscapesArePlain(EncodeChar(c));
    }
  }

  lemma {:induction false} UnitEscapesArePlain(units: seq<Utf16>)
    ensures Plain(UnitEscapes(units)) && '>' !in UnitEscapes(units)
    ensures units != [] ==> UnitEscapes(units)[0] == '\\'
  {
    if units != [] {
      UnitEscapesArePlain(units[1..]);
    }
  }

  /** An escaped key is printable ASCII, starts no comment, and holds a `>` only where the key does. */
  lemma {:induction false} EscapedKey(key: string)
    ensures Plain(Escape(key)) && ('>' in Escape(key) <==> '>' in key)
    ensures key != "" ==> Escape(key) != "" && Escape(key)[0] != ' ' && Escape(key)[0] != '#'
  {
    if key != "" {
      EscapedChar(key[0]);
      EscapedKey(key[1..]);
      assert key == [key[0]] + key[1..];
    }
  }

  lemma {:induction false} EscapeJoin(a: string, b: string)
    ensures Escape(a + b) == Escape(a) + Escape(b)
  {
    if a == "" {
      assert a + b == b;
    } else {
      assert (a + b)[1..] == a[1..] + b;
      EscapeJoin(a[1..], b);
    }
  }

  lemma RFindIs(text: string, c: char, at: nat)
    requires at < |text| && text[at] == c && forall k | at < k < |text| :: text[k] != c
    ensures RFind(text, c) == Some(at)
  {
  }

  predicate Representable(entry: Entry) {
    entry.file != "" && '>' !in entry.id
  }

  /** What is read back from the line of `entry`: the last `>` of the line is the separator. */
  function Survivor(entry: Entry): (s: Option<Entry>)
    ensures s.Some? ==> Representable(s.value)
    ensures Representable(entry) <==> s == Some(entry)
  {
    match RFind(entry.id, '>')
    case None => if entry.file == "" then None else Some(entry)
    case Some(at) => Some(Entry(entry.file + ">" + entry.id[..at] + "\\", entry.id[at + 1..]))
  }

  /** A line that is trimmed already, is no comment and ends in `=` is split at its last `>`. */
  lemma ParseSplit(name: string, id: string)
    requires Plain(name) && Plain(id) && '>' !in id && (name != "" ==> name[0] != ' ' && name[0] != '#')
    ensures SplitLine(name + ">" + id + "=") == Some((name, id))
  {
    var line, body := name + ">" + id + "=", name + ">" + id;
    LineShape(name, id);
    BodyShape(name, id);
    assert ' ' < line[0] <= '~';
    TrimKeeps(line);
    RFindIs(body, '>', |name|);
  }

  lemma LineShape(name: string, id: string)
    ensures var line := name + ">" + id + "=";
            && line[0] == (if name == "" then '>' else name[0]) && line[|line| - 1] == '='
            && line[..|line| - 1] == name + ">" + id
  {
  }

  lemma BodyShape(name: string, id: string)
    requires '>' !in id
    ensures var body := name + ">" + id;
            && body[|name|] == '>' && body[..|name|] == name && body[|name| + 1..] == id
            && forall k | |name| < k < |body| :: body[k] != '>'
  {
    var body := name + ">" + id;
    forall k | |name| < k < |body| ensures body[k] != '>' {
      assert body[k] == id[k - |name| - 1] && id[k - |name| - 1] in id;
    }
  }

  lemma UnescapeRaw(key: string, c: char, more: string)
    requires c != '\\'
    ensures UnescapeUnits(Escape(key) + [c] + more) == Encode(key + [c]) + UnescapeUnits(more)
  {
    Regroup(Escape(key), [c], more);
    Regroup(Encode(key), EncodeChar(c), UnescapeUnits(more));
    UnescapePlain(c, more);
    UnescapeEscaped(key, [c] + more);
    EncodeMore(key, c);
  }

  lemma EncodeMore(key: string, c: char)
    ensures Encode(key + [c]) == Encode(key) + EncodeChar(c)
  {
    EncodeJoin(key, [c]);
    EncodeOne(c);
  }

  lemma UnescapePlain(c: char, more: string)
    requires c != '\\'
    ensures UnescapeUnits([c] + more) == EncodeChar(c) + UnescapeUnits(more)
  {
    assert ([c] + more)[1..] == more;
  }

  lemma EncodeOne(c: char)
    ensures Encode([c]) == EncodeChar(c)
  {
    assert [c][1..] == "";
  }

  lemma UnescapeTrailing(key: string)
    ensures UnescapeUnits(Escape(key) + "\\") == Encode(key + "\\")
  {
    UnescapeEscaped(key, "\\");
    LoneBackslash();
    EncodeMore(key, '\\');
  }

  lemma LoneBackslash()
    ensures UnescapeUnits("\\") == EncodeChar('\\')
  {
    assert UnescapeStep("\\") == (EncodeChar('\\'), 1);
  }

  lemma UnescapeWithSuffix(file: string, id: string)
    ensures Unescape(Escape(file) + ">" + (Escape(id) + "\\")) == file + ">" + (id + "\\")
  {
    UnescapeRaw(file, '>', Escape(id) + "\\");
    UnescapeTrailing(id);
    EncodeJoin(file + ">", id + "\\");
    DecodeEncode(file + ">" + (id + "\\"));
  }

  lemma ParseRendered(entry: Entry)
    ensures ParseLine(RenderLine(entry)) == Survivor(entry)
  {
    match RFind(entry.id, '>')
    case None =>
      EscapedKey(entry.file);
      EscapedKey(entry.id);
      ParseSplit(Escape(entry.file), Escape(entry.id));
      UnescapeEscape(entry.file);
      UnescapeEscape(entry.id);
    case Some(at) =>
      ParseRenderedSplit(entry, at);
  }

  /** The line of an id with a `>` splits inside the id. */
  lemma ParseRenderedSplit(entry: Entry, at: nat)
    requires RFind(entry.id, '>') == Some(at)
    ensures ParseLine(RenderLine(entry)) == Survivor(entry)
  {
    var left, right := entry.id[..at], entry.id[at + 1..];
    var name := Escape(entry.file) + ">" + (Escape(left) + "\\");
    RenderedSplit(entry, at);
    SplitRendered(entry.file, left, right);
    UnescapeWithSuffix(entry.file, left);
    UnescapeEscape(right);
    assert entry.file + ">" + (left + "\\") == entry.file + ">" + left + "\\";
    assert ReadEntry(name, Escape(right)) == Survivor(entry);
  }

  lemma SplitRendered(file: string, left: string, right: string)
    requires '>' !in right
    ensures var name := Escape(file) + ">" + (Escape(left) + "\\");
            SplitLine(name + ">" + Escape(right) + "=") == Some((name, Escape(right)))
  {
    NameIsPlain(file, left);
    EscapedKey(right);
    ParseSplit(Escape(file) + ">" + (Escape(left) + "\\"), Escape(right));
  }

  lemma NameIsPlain(file: string, left: string)
    ensures var name := Escape(file) + ">" + (Escape(left) + "\\");
            Plain(name) && name[0] != ' ' && name[0] != '#'
  {
    EscapedKey(file);
    EscapedKey(left);
  }

  lemma EscapeSplit(id: string, at: nat)
    requires at < |id| && id[at] == '>'
    ensures Escape(id) == Escape(id[..at]) + ("\\>" + Escape(id[at + 1..]))
  {
    assert id == id[..at] + id[at..] && id[at..][1..] == id[at + 1..];
    EscapeJoin(id[..at], id[at..]);
  }

  lemma RenderedSplit(entry: Entry, at: nat)
    requires at < |entry.id| && entry.id[at] == '>'
    ensures RenderLine(entry) ==
            Escape(entry.file) + ">" + (Escape(entry.id[..at]) + "\\") + ">" + Escape(entry.id[at + 1..]) + "="
  {
    EscapeSplit(entry.id, at);
    AroundSplit(Escape(entry.file) + ">", Escape(entry.id[..at]), Escape(entry.id[at + 1..]));
  }

  lemma AroundSplit(file: string, left: string, right: string)
    ensures file + (left + ("\\>" + right)) == file + (left + "\\") + ">" + right
  {
  }

  /** A line `Lines` gives back as it is. */
  predicate OneLine(line: string) {
    (forall i | 0 <= i < |line| :: line[i] != '\n') && (line != "" ==> line[|line| - 1] != '\r')
  }

  lemma FirstOfJoined(line: string, more: string)
    requires OneLine(line)
    ensures FirstLine(line + "\n" + more) == (line, more)
  {
    var text := line + "\n" + more;
    assert forall k | 0 <= k < |line| :: text[k] == line[k];
    assert text[|line|] == '\n';
    assert FindChar(text, '\n') == Some(|line|);
    assert text[..|line|] == line && text[|line| + 1..] == more;
  }

  lemma {:induction false} LinesOfJoined(lines: seq<string>)
    requires forall line | line in lines :: OneLine(line)
    ensures Lines(JoinLines(lines)) == lines
  {
    if lines != [] {
      LinesOfJoined(lines[1..]);
      FirstOfJoined(lines[0], JoinLines(lines[1..]));
    }
  }

  lemma TrimKeeps(line: string)
    requires line != "" && !Whitespace(line[0]) && !Whitespace(line[|line| - 1])
    ensures Trim(line) == line
  {
  }

  lemma CommentIsSkipped(line: string)
    requires line != "" && line[0] == '#' && !Whitespace(line[|line| - 1])
    ensures ParseLine(line).None?
  {
    TrimKeeps(line);
  }

  lemma HeaderEnds()
    ensures NOTE != "" && NOTE[0] == '#' && NOTE[|NOTE| - 1] == '.'
    ensures STAMP != "" && STAMP[0] == '#' && STAMP[|STAMP| - 1] == '0'
  {
    assert NOTE_HEAD[0] == '#' && NOTE_TAIL[|NOTE_TAIL| - 1] == '.';
    assert NOTE[0] == NOTE_HEAD[0] && NOTE[|NOTE| - 1] == NOTE_TAIL[|NOTE_TAIL| - 1];
  }

  lemma PlainJoin(a: string, b: string)
    requires Plain(a) && Plain(b)
    ensures Plain(a + b)
  {
  }

  lemma HeadIsPlain()
    ensures Plain(NOTE_HEAD) && Plain(NOTE_BODY)
  {
  }

  lemma TailIsPlain()
    ensures Plain(NOTE_MORE) && Plain(NOTE_TAIL)
  {
  }

  lemma StampIsPlain()
    ensures Plain(STAMP)
  {
  }

  lemma NoteIsPlain()
    ensures Plain(NOTE)
  {
    HeadIsPlain();
    TailIsPlain();
    PlainJoin(NOTE_HEAD, NOTE_BODY);
    PlainJoin(NOTE_MORE, NOTE_TAIL);
    PlainJoin(NOTE_HEAD + NOTE_BODY, NOTE_MORE + NOTE_TAIL);
  }

  lemma PlainIsOneLine(line: string)
    requires Plain(line)
    ensures OneLine(line)
  {
  }

  lemma HeaderIsSkipped()
    ensures OneLine(NOTE) && OneLine(STAMP) && ParseLine(NOTE).None? && ParseLine(STAMP).None?
  {
    HeaderEnds();
    NoteIsPlain();
    StampIsPlain();
    PlainIsOneLine(NOTE);
    PlainIsOneLine(STAMP);
    CommentIsSkipped(NOTE);
    CommentIsSkipped(STAMP);
  }

  lemma RenderedIsOneLine(entry: Entry)
    ensures OneLine(RenderLine(entry))
  {
    EscapedKey(entry.file);
    EscapedKey(entry.id);
    PlainJoin(Escape(entry.file), ">");
    PlainJoin(Escape(entry.file) + ">", Escape(entry.id));
    PlainJoin(Escape(entry.file) + ">" + Escape(entry.id), "=");
    PlainIsOneLine(RenderLine(entry));
  }

  lemma LinesOfRendered(entries: seq<Entry>)
    ensures Lines(Render(entries)) == [NOTE, STAMP] + RenderLines(entries)
  {
    var lines := [NOTE, STAMP] + RenderLines(entries);
    HeaderIsSkipped();
    forall i | 0 <= i < |entries| ensures OneLine(RenderLines(entries)[i]) {
      RenderedIsOneLine(entries[i]);
    }
    LinesOfJoined(lines);
  }

  /** Reading a rendered file gives exactly what survives of each entry. */
  lemma ParseRender(entries: seq<Entry>)
    ensures Parse(Render(entries)) == set i | 0 <= i < |entries| && Survivor(entries[i]).Some? ::
            Survivor(entries[i]).value
  {
    var lines := RenderLines(entries);
    LinesOfRendered(entries);
    HeaderIsSkipped();
    SkipTwo(NOTE, STAMP, lines);
    forall i | 0 <= i < |entries| ensures ParseLine(lines[i]) == Survivor(entries[i]) {
      ParseRendered(entries[i]);
    }
  }

  lemma SkipTwo(a: string, b: string, lines: seq<string>)
    requires ParseLine(a).None? && ParseLine(b).None?
    ensures ParseLines([a, b] + lines) == ParseLines(lines)
  {
    forall e ensures e in ParseLines([a, b] + lines) <==> e in ParseLines(lines) {
      FromSomeLine([a, b] + lines, e);
      FromSomeLine(lines, e);
      SomeOfTwoMore(a, b, lines, e);
    }
  }

  ghost predicate SomeLine(lines: seq<string>, entry: Entry) {
    exists i | 0 <= i < |lines| :: ParseLine(lines[i]) == Some(entry)
  }

  lemma FromSomeLine(lines: seq<string>, entry: Entry)
    ensures entry in ParseLines(lines) <==> SomeLine(lines, entry)
  {
  }

  lemma SomeOfTwoMore(a: string, b: string, lines: seq<string>, entry: Entry)
    requires ParseLine(a).None? && ParseLine(b).None?
    ensures SomeLine([a, b] + lines, entry) <==> SomeLine(lines, entry)
  {
    var all := [a, b] + lines;
    assert forall i | 0 <= i < |lines| :: all[i + 2] == lines[i];
    if SomeLine(lines, entry) {
      var i :| 0 <= i < |lines| && ParseLine(lines[i]) == Some(entry);
      assert ParseLine(all[i + 2]) == Some(entry);
    }
  }

  /**
   * Rendering then parsing gives back the entries exactly when each has a file name and an id
   * without `>`: over all Unicode text, in any order, with repetitions or none.
   */
  lemma RoundTripExactly(entries: seq<Entry>)
    ensures Parse(Render(entries)) == (set e | e in entries) <==> forall e | e in entries :: Representable(e)
  {
    ParseRender(entries);
    SurvivorsAre(entries);
  }

  /** An id with a `>` is split there: part of it, and a backslash, end up in the file name. */
  lemma SeparatorInIdMoves()
    ensures Parse(Render([Entry("f.pom", "a>b")])) == {Entry("f.pom>a\\", "b")}
  {
    var entry := Entry("f.pom", "a>b");
    assert entry.id[1] == '>' && entry.id[..1] == "a" && entry.id[2..] == "b";
    RFindIs(entry.id, '>', 1);
    assert "f.pom" + ">" + "a" + "\\" == "f.pom>a\\";
    assert Survivor(entry) == Some(Entry("f.pom>a\\", "b"));
    ParseRender([entry]);
    assert [entry][0] == entry;
  }

  lemma SurvivorsAre(entries: seq<Entry>)
    ensures (set i | 0 <= i < |entries| && Survivor(entries[i]).Some? :: Survivor(entries[i]).value) ==
            (set e | e in entries)
            <==> forall e | e in entries :: Representable(e)
  {
    var read := set i | 0 <= i < |entries| && Survivor(entries[i]).Some? :: Survivor(entries[i]).value;
    if forall e | e in entries :: Representable(e) {
      forall e | e in entries ensures e in read {
        var i :| 0 <= i < |entries| && entries[i] == e;
        assert Survivor(entries[i]).value == e;
      }
    } else {
      var e :| e in entries && !Representable(e);
      assert e !in read;
    }
  }

  // ----- a set in its order -----

  /** The order of the pairs in a `BTreeSet`. */
  predicate EntryLess(a: Entry, b: Entry) {
    TextLess(a.file, b.file) || (a.file == b.file && TextLess(a.id, b.id))
  }

  lemma EntriesAreOrdered(a: Entry, b: Entry)
    ensures a == b || EntryLess(a, b) || EntryLess(b, a)
    ensures !(EntryLess(a, b) && EntryLess(b, a)) && !EntryLess(a, a)
  {
    TextTotal(a.file, b.file);
    TextTotal(a.id, b.id);
    TextAsymmetric(a.file, b.file);
    TextAsymmetric(a.id, b.id);
  }

  lemma EntryTransitive(a: Entry, b: Entry, c: Entry)
    ensures EntryLess(a, b) && EntryLess(b, c) ==> EntryLess(a, c)
  {
    TextTransitive(a.file, b.file, c.file);
    TextTransitive(a.id, b.id, c.id);
  }

  ghost predicate Sorted(order: seq<Entry>) {
    forall i, j | 0 <= i < j < |order| :: EntryLess(order[i], order[j])
  }

  /** The lines of a rendered set: file names in the order of their code points, and ids within one file name. */
  lemma LinesAreSorted(order: seq<Entry>, i: int, j: int)
    requires Sorted(order) && 0 <= i < j < |order|
    ensures var a, b := order[i], order[j];
            if a.file == b.file then ComesBefore(a.id, b.id) else ComesBefore(a.file, b.file)
    ensures RenderLines(order)[i] == Escape(order[i].file) + ">" + Escape(order[i].id) + "="
  {
    var a, b := order[i], order[j];
    assert EntryLess(a, b);
    TextLessMeans(a.file, b.file);
    TextLessMeans(a.id, b.id);
    TextAsymmetric(a.file, b.file);
  }

  ghost predicate ComesBefore(a: string, b: string) {
    a < b || exists p | 0 <= p < |a| && p < |b| :: a[..p] == b[..p] && a[p] < b[p]
  }

  function Elements(order: seq<Entry>): set<Entry> {
    set e | e in order
  }

  lemma ElementsOfJoined(a: seq<Entry>, b: seq<Entry>)
    ensures Elements(a + b) == Elements(a) + Elements(b)
    ensures Elements(a) == {} ==> a == []
  {
    if a != [] {
      assert a[0] in Elements(a);
    }
  }

  function Insert(order: seq<Entry>, e: Entry): seq<Entry> {
    if order == [] || EntryLess(e, order[0]) then [e] + order else [order[0]] + Insert(order[1..], e)
  }

  lemma {:induction false} InsertHas(order: seq<Entry>, e: Entry)
    ensures Elements(Insert(order, e)) == Elements(order) + {e}
  {
    if order == [] || EntryLess(e, order[0]) {
      ElementsOfJoined([e], order);
    } else {
      InsertHas(order[1..], e);
      HeadAndRest(order);
      ElementsOfJoined([order[0]], order[1..]);
      ElementsOfJoined([order[0]], Insert(order[1..], e));
    }
  }

  lemma {:induction false} InsertSorts(order: seq<Entry>, e: Entry)
    requires Sorted(order) && e !in order
    ensures Sorted(Insert(order, e))
  {
    if order != [] {
      var first, rest := order[0], order[1..];
      if EntryLess(e, first) {
        forall j | 0 <= j < |order| ensures EntryLess(e, order[j]) {
          EntryTransitive(e, first, order[j]);
        }
      } else {
        EntriesAreOrdered(first, e);
        InsertSorts(rest, e);
        InsertHas(rest, e);
        var more := Insert(rest, e);
        forall j | 0 <= j < |more| ensures EntryLess(first, more[j]) {
          assert more[j] in Elements(more);
          assert more[j] == e || more[j] in order[1..];
        }
      }
    }
  }

  /** The entries of a set in their order. */
  method InOrder(entries: set<Entry>) returns (order: seq<Entry>)
    ensures Sorted(order) && Elements(order) == entries
  {
    order := [];
    var left := entries;
    while left != {}
      invariant Sorted(order) && Elements(order) !! left && Elements(order) + left == entries
      decreases left
    {
      var e :| e in left;
      assert e !in Elements(order);
      InsertSorts(order, e);
      InsertHas(order, e);
      left := left - {e};
      order := Insert(order, e);
    }
  }

  lemma FirstIsLeast(a: seq<Entry>, e: Entry)
    requires Sorted(a) && e in a
    ensures e == a[0] || EntryLess(a[0], e)
  {
    var i :| 0 <= i < |a| && a[i] == e;
  }

  lemma WithoutFirst(a: seq<Entry>)
    requires Sorted(a) && a != []
    ensures Sorted(a[1..]) && Elements(a[1..]) == Elements(a) - {a[0]}
  {
    forall e | e in a[1..] ensures e != a[0] {
      EntriesAreOrdered(a[0], a[0]);
    }
    HeadAndRest(a);
  }

  /** A set has one sorted order. */
  lemma {:induction false} OneOrder(a: seq<Entry>, b: seq<Entry>)
    requires Sorted(a) && Sorted(b) && Elements(a) == Elements(b)
    ensures a == b
    decreases |a|
  {
    if a == [] {
      ElementsOfJoined(b, []);
    } else {
      assert a[0] in Elements(b);
      assert b[0] in Elements(a);
      FirstIsLeast(a, b[0]);
      FirstIsLeast(b, a[0]);
      EntriesAreOrdered(a[0], b[0]);
      WithoutFirst(a);
      WithoutFirst(b);
      OneOrder(a[1..], b[1..]);
      HeadAndRest(a);
      HeadAndRest(b);
    }
  }

  /** What `render_remote_repositories` makes of a set. */
  ghost predicate IsTextOf(text: string, entries: set<Entry>) {
    exists order | Sorted(order) && Elements(order) == entries :: text == Render(order)
  }

  /** Two texts of one set are the same. */
  lemma OneText(a: string, b: string, entries: set<Entry>)
    requires IsTextOf(a, entries) && IsTextOf(b, entries)
    ensures a == b
  {
    var order :| Sorted(order) && Elements(order) == entries && a == Render(order);
    var other :| Sorted(other) && Elements(other) == entries && b == Render(other);
    OneOrder(order, other);
  }

  // ----- merging with the files on disk -----

  /** A file that is not a regular file or not UTF-8 is read as no file. */
  datatype Stored = Text(text: string) | Unreadable

  /** The marker file of each directory that has one. */
  type Disk = map<string, Stored>

  /** What one export recorded for each directory. */
  type Pass = map<string, set<Entry>>

  predicate Read(disk: Disk, dir: string) {
    dir in disk && disk[dir].Text?
  }

  function Recorded(disk: Disk, dir: string): set<Entry> {
    if Read(disk, dir) then Parse(disk[dir].text) else {}
  }

  function Survivors(entries: set<Entry>): set<Entry> {
    set e | e in entries && Survivor(e).Some? :: Survivor(e).value
  }

  /**
   * What `write_all` leaves of one directory: a file that says all of it already is not touched, and
   * any other is the one text of what it held and what was recorded.
   */
  ghost predicate WrittenAt(before: Disk, entries: set<Entry>, after: Disk, dir: string) {
    if Read(before, dir) && entries <= Recorded(before, dir) then dir in after && after[dir] == before[dir]
    else Read(after, dir) && IsTextOf(after[dir].text, Recorded(before, dir) + entries)
  }

  ghost predicate SameAt(before: Disk, after: Disk, dir: string) {
    (dir in before <==> dir in after) && (dir in before ==> before[dir] == after[dir])
  }

  /** Directories whose file cannot be read, for another reason than that there is none, or written. */
  datatype Faults = Faults(reading: string -> bool, writing: string -> bool)

  predicate Stops(faults: Faults, disk: Disk, entries: set<Entry>, dir: string) {
    faults.reading(dir) || (faults.writing(dir) && !(Read(disk, dir) && entries <= Recorded(disk, dir)))
  }

  function Only(pass: Pass, dirs: set<string>): Pass {
    map dir | dir in pass && dir in dirs :: pass[dir]
  }

  ghost predicate Handled(before: Disk, pass: Pass, after: Disk, dir: string) {
    if dir in pass then WrittenAt(before, pass[dir], after, dir) else SameAt(before, after, dir)
  }

  ghost predicate Written(before: Disk, pass: Pass, after: Disk) {
    forall dir :: Handled(before, pass, after, dir)
  }

  /** A rendered set reads as what survives of it. */
  lemma RenderedSet(text: string, entries: set<Entry>)
    requires IsTextOf(text, entries)
    ensures Parse(text) == Survivors(entries)
  {
    var order :| Sorted(order) && Elements(order) == entries && text == Render(order);
    ParseRender(order);
    forall e | e in entries && Survivor(e).Some? ensures Survivor(e).value in Parse(text) {
      var i :| 0 <= i < |order| && order[i] == e;
      assert Survivor(order[i]).Some?;
    }
  }

  /** `render_remote_repositories` */
  method RenderMarkers(entries: set<Entry>) returns (text: string)
    ensures IsTextOf(text, entries) && Parse(text) == Survivors(entries)
  {
    var order := InOrder(entries);
    text := RenderInOrder(order);
    RenderedSet(text, entries);
  }

  /** `RemoteRepositoriesAccumulator` */
  class Accumulator {
    var dirs: Pass

    constructor ()
      ensures dirs == map[]
    {
      dirs := map[];
    }

    method Record(dir: string, file: string, id: string)
      modifies this
      ensures dirs.Keys == old(dirs).Keys + {dir}
      ensures dirs[dir] == (if dir in old(dirs) then old(dirs)[dir] else {}) + {Entry(file, id)}
      ensures forall other | other in old(dirs) && other != dir :: dirs[other] == old(dirs)[other]
    {
      dirs := dirs[dir := (if dir in dirs then dirs[dir] else {}) + {Entry(file, id)}];
    }

    /**
     * `write_all`, over the marker files as they are and as it leaves them: it stops at the first
     * directory whose file cannot be read or written, and is then like an export that recorded less.
     */
    method WriteAll(disk: Disk, faults: Faults) returns (ok: bool, after: Disk, ghost done: set<string>)
      ensures done <= dirs.Keys && Written(disk, Only(dirs, done), after)
      ensures ok ==> done == dirs.Keys
      ensures ok <==> forall dir | dir in dirs :: !Stops(faults, disk, dirs[dir], dir)
      ensures forall dir | dir in done :: !Stops(faults, disk, dirs[dir], dir)
    {
      after, ok, done := disk, true, {};
      var left := dirs.Keys;
      while left != {}
        invariant done !! left && done + left == dirs.Keys
        invariant Written(disk, Only(dirs, done), after)
        invariant forall dir | dir in done :: !Stops(faults, disk, dirs[dir], dir)
        decreases left
      {
        var dir :| dir in left;
        assert Handled(disk, Only(dirs, done), after, dir) && SameAt(disk, after, dir);
        ghost var earlier := after;
        ok, after := WriteOne(after, dir, dirs[dir], faults);
        if !ok {
          assert after == earlier && Stops(faults, disk, dirs[dir], dir);
          return;
        }
        OneMore(disk, dirs, done, earlier, after, dir);
        left, done := left - {dir}, done + {dir};
      }
    }
  }

  lemma OneMore(disk: Disk, pass: Pass, done: set<string>, earlier: Disk, after: Disk, dir: string)
    requires done <= pass.Keys && dir in pass && dir !in done && Written(disk, Only(pass, done), earlier)
    requires WrittenAt(earlier, pass[dir], after, dir) && forall other | other != dir :: SameAt(earlier, after, other)
    ensures Written(disk, Only(pass, done + {dir}), after)
  {
    var more, fewer := Only(pass, done + {dir}), Only(pass, done);
    assert Handled(disk, fewer, earlier, dir);
    forall other ensures Handled(disk, more, after, other) {
      assert Handled(disk, fewer, earlier, other);
      if other != dir {
        assert SameAt(earlier, after, other);
      }
    }
  }

  method WriteOne(disk: Disk, dir: string, entries: set<Entry>, faults: Faults) returns (ok: bool, after: Disk)
    ensures ok <==> !Stops(faults, disk, entries, dir)
    ensures !ok ==> after == disk
    ensures ok ==> WrittenAt(disk, entries, after, dir)
    ensures forall other | other != dir :: SameAt(disk, after, other)
  {
    after, ok := disk, !faults.reading(dir);
    if !ok {
      return;
    }
    var existing: set<Entry> := {};
    if Read(disk, dir) {
      existing := ParseMarkers(disk[dir].text);
      if entries <= existing {
        return;
      }
    }
    ok := !faults.writing(dir);
    if ok {
      var text := RenderMarkers(existing + entries);
      after := disk[dir := Text(text)];
      assert existing == Recorded(disk, dir) && after[dir] == Text(text);
    }
  }

  // ----- across exports -----

  ghost predicate Clean(entries: set<Entry>) {
    forall e | e in entries :: Representable(e)
  }

  ghost predicate CleanDisk(disk: Disk) {
    forall dir :: Clean(Recorded(disk, dir))
  }

  ghost predicate CleanPass(pass: Pass) {
    forall dir | dir in pass :: Clean(pass[dir])
  }

  ghost predicate IsExport(disks: seq<Disk>, passes: seq<Pass>, k: nat)
    requires |disks| == |passes| + 1 && k < |passes|
  {
    Written(disks[k], passes[k], disks[k + 1])
  }

  ghost predicate CleanPasses(passes: seq<Pass>) {
    forall pass | pass in passes :: CleanPass(pass)
  }

  /** The marker files before and after each of a sequence of exports. */
  ghost predicate IsHistory(disks: seq<Disk>, passes: seq<Pass>) {
    && |disks| == |passes| + 1
    && forall k: nat | k < |passes| :: IsExport(disks, passes, k)
  }

  function RecordedBy(passes: seq<Pass>, n: nat, dir: string): set<Entry>
    requires n <= |passes|
  {
    if n == 0 then {}
    else RecordedBy(passes, n - 1, dir) + (if dir in passes[n - 1] then passes[n - 1][dir] else {})
  }

  lemma CleanSurvives(entries: set<Entry>)
    requires Clean(entries)
    ensures Survivors(entries) == entries
  {
    forall e | e in entries ensures e in Survivors(entries) {
      assert Survivor(e).value == e;
    }
  }

  /** One export adds its entries and drops none. */
  lemma WriteAdds(before: Disk, pass: Pass, after: Disk, dir: string)
    requires Written(before, pass, after) && CleanPass(pass) && Clean(Recorded(before, dir))
    ensures Recorded(after, dir) == Recorded(before, dir) + (if dir in pass then pass[dir] else {})
    ensures Read(before, dir) || dir in pass ==> Read(after, dir)
  {
    assert Handled(before, pass, after, dir);
    if dir in pass {
      assert WrittenAt(before, pass[dir], after, dir);
      if !(Read(before, dir) && pass[dir] <= Recorded(before, dir)) {
        RenderedSet(after[dir].text, Recorded(before, dir) + pass[dir]);
        CleanSurvives(Recorded(before, dir) + pass[dir]);
      }
    } else {
      assert SameAt(before, after, dir);
    }
  }

  lemma OneExport(disks: seq<Disk>, passes: seq<Pass>, k: nat)
    requires IsHistory(disks, passes) && k < |passes|
    ensures Written(disks[k], passes[k], disks[k + 1]) && (CleanPasses(passes) ==> CleanPass(passes[k]))
  {
    assert IsExport(disks, passes, k) && passes[k] in passes;
  }

  lemma UnionStep(before: Disk, pass: Pass, after: Disk, dir: string, first: set<Entry>, recorded: set<Entry>)
    requires Written(before, pass, after) && CleanPass(pass) && Clean(Recorded(before, dir))
    requires Recorded(before, dir) == first + recorded
    ensures Recorded(after, dir) == first + (recorded + if dir in pass then pass[dir] else {})
    ensures Clean(Recorded(after, dir))
  {
    WriteAdds(before, pass, after, dir);
  }

  /** After any exports each marker file reads as what it first held and all that was recorded for it. */
  lemma {:induction false} HistoryIsUnion(disks: seq<Disk>, passes: seq<Pass>, n: nat, dir: string)
    requires IsHistory(disks, passes) && n <= |passes|
    requires CleanDisk(disks[0]) && CleanPasses(passes)
    ensures Recorded(disks[n], dir) == Recorded(disks[0], dir) + RecordedBy(passes, n, dir)
    ensures Clean(Recorded(disks[n], dir))
  {
    if n > 0 {
      HistoryIsUnion(disks, passes, n - 1, dir);
      OneExport(disks, passes, n - 1);
      UnionStep(disks[n - 1], passes[n - 1], disks[n], dir, Recorded(disks[0], dir), RecordedBy(passes, n - 1, dir));
    }
  }

  lemma {:induction false} ReadStays(disks: seq<Disk>, passes: seq<Pass>, k: nat, n: nat, dir: string)
    requires IsHistory(disks, passes) && k < n <= |passes| && dir in passes[k]
    ensures Read(disks[n], dir)
    decreases n
  {
    if k < n - 1 {
      ReadStays(disks, passes, k, n - 1, dir);
    }
    var before, pass, after := disks[n - 1], passes[n - 1], disks[n];
    OneExport(disks, passes, n - 1);
    assert Handled(before, pass, after, dir);
  }

  lemma {:induction false} RecordedByHas(passes: seq<Pass>, k: nat, n: nat, dir: string)
    requires k < n <= |passes| && dir in passes[k]
    ensures passes[k][dir] <= RecordedBy(passes, n, dir)
    decreases n
  {
    if k < n - 1 {
      RecordedByHas(passes, k, n - 1, dir);
    }
  }

  lemma RecordedStays(disks: seq<Disk>, passes: seq<Pass>, k: nat, n: nat, dir: string)
    requires IsHistory(disks, passes) && k < n <= |passes| && dir in passes[k]
    requires CleanDisk(disks[0]) && CleanPasses(passes)
    ensures Read(disks[n], dir) && passes[k][dir] <= Recorded(disks[n], dir)
  {
    ReadStays(disks, passes, k, n, dir);
    RecordedByHas(passes, k, n, dir);
    HistoryIsUnion(disks, passes, n, dir);
  }

  /** Repeating an export, however many others ran in between, changes no byte of any marker file. */
  lemma RepeatedPassChangesNothing(disks: seq<Disk>, passes: seq<Pass>, k: nat, n: nat)
    requires IsHistory(disks, passes) && k < n < |passes| && passes[n] == passes[k]
    requires CleanDisk(disks[0]) && CleanPasses(passes)
    ensures disks[n + 1] == disks[n]
  {
    var before, after := disks[n], disks[n + 1];
    OneExport(disks, passes, n);
    forall dir ensures SameAt(before, after, dir) {
      assert Handled(before, passes[n], after, dir);
      if dir in passes[n] {
        RecordedStays(disks, passes, k, n, dir);
      }
    }
    SameEverywhere(before, after);
    assert disks[n + 1] == disks[n];
  }

  // ----- the bytes of the marker files -----

  /** Every marker file that can be read is the text of what it says. */
  ghost predicate Tidy(disk: Disk) {
    forall dir | Read(disk, dir) :: IsTextOf(disk[dir].text, Recorded(disk, dir))
  }

  lemma TidyStep(before: Disk, pass: Pass, after: Disk)
    requires Written(before, pass, after) && CleanPass(pass) && CleanDisk(before) && Tidy(before)
    ensures Tidy(after)
  {
    forall dir | Read(after, dir) ensures IsTextOf(after[dir].text, Recorded(after, dir)) {
      assert Handled(before, pass, after, dir);
      if dir in pass {
        WriteAdds(before, pass, after, dir);
      }
    }
  }

  lemma {:induction false} HistoryIsTidy(disks: seq<Disk>, passes: seq<Pass>, n: nat)
    requires IsHistory(disks, passes) && n <= |passes|
    requires CleanDisk(disks[0]) && Tidy(disks[0]) && CleanPasses(passes)
    ensures Tidy(disks[n])
  {
    if n > 0 {
      HistoryIsTidy(disks, passes, n - 1);
      var before := disks[n - 1];
      forall dir ensures Clean(Recorded(before, dir)) {
        HistoryIsUnion(disks, passes, n - 1, dir);
      }
      OneExport(disks, passes, n - 1);
      TidyStep(disks[n - 1], passes[n - 1], disks[n]);
    }
  }

  /** Some of the exports recorded something for `dir`. */
  ghost predicate Touched(passes: seq<Pass>, n: nat, dir: string)
    requires n <= |passes|
  {
    exists k | 0 <= k < n :: dir in passes[k]
  }

  lemma {:induction false} UntouchedStays(disks: seq<Disk>, passes: seq<Pass>, n: nat, dir: string)
    requires IsHistory(disks, passes) && n <= |passes| && !Touched(passes, n, dir)
    ensures SameAt(disks[0], disks[n], dir)
  {
    if n > 0 {
      UntouchedStays(disks, passes, n - 1, dir);
      assert dir !in passes[n - 1];
      OneExport(disks, passes, n - 1);
      assert Handled(disks[n - 1], passes[n - 1], disks[n], dir);
    }
  }

  /** Two runs of exports from the same files record the same for the same directories. */
  ghost predicate SameRecords(a: seq<Pass>, b: seq<Pass>) {
    forall dir :: RecordedBy(a, |a|, dir) == RecordedBy(b, |b|, dir) && (Touched(a, |a|, dir) <==> Touched(b, |b|, dir))
  }

  lemma TouchedIsText(disks: seq<Disk>, passes: seq<Pass>, dir: string)
    requires IsHistory(disks, passes) && Touched(passes, |passes|, dir)
    requires CleanDisk(disks[0]) && Tidy(disks[0]) && CleanPasses(passes)
    ensures Read(disks[|passes|], dir)
    ensures IsTextOf(disks[|passes|][dir].text, Recorded(disks[0], dir) + RecordedBy(passes, |passes|, dir))
  {
    var k :| 0 <= k < |passes| && dir in passes[k];
    RecordedStays(disks, passes, k, |passes|, dir);
    HistoryIsTidy(disks, passes, |passes|);
    HistoryIsUnion(disks, passes, |passes|, dir);
  }

  /**
   * However the same entries are spread over exports, and in whatever order these run, they leave the
   * same bytes in every marker file.
   */
  lemma SameRecordsSameBytes(disks: seq<Disk>, passes: seq<Pass>, others: seq<Disk>, otherPasses: seq<Pass>)
    requires IsHistory(disks, passes) && IsHistory(others, otherPasses) && disks[0] == others[0]
    requires CleanDisk(disks[0]) && Tidy(disks[0])
    requires CleanPasses(passes) && CleanPasses(otherPasses)
    requires SameRecords(passes, otherPasses)
    ensures disks[|passes|] == others[|otherPasses|]
  {
    var one, two := disks[|passes|], others[|otherPasses|];
    forall dir ensures SameAt(one, two, dir) {
      if Touched(passes, |passes|, dir) {
        TouchedIsText(disks, passes, dir);
        TouchedIsText(others, otherPasses, dir);
        OneText(one[dir].text, two[dir].text, Recorded(disks[0], dir) + RecordedBy(passes, |passes|, dir));
      } else {
        UntouchedStays(disks, passes, |passes|, dir);
        UntouchedStays(others, otherPasses, |otherPasses|, dir);
      }
    }
    SameEverywhere(one, two);
  }

  lemma SameEverywhere(a: Disk, b: Disk)
    requires forall dir :: SameAt(a, b, dir)
    ensures a == b
  {
    forall dir ensures dir in a <==> dir in b {
      assert SameAt(a, b, dir);
    }
    assert a.Keys == b.Keys;
    forall dir | dir in a ensures a[dir] == b[dir] {
      assert SameAt(a, b, dir);
    }
  }

  /**
   * A rewritten file reads as what it held plus what was recorded exactly when all of that can be
   * represented; a foreign file may hold an id with an escaped `>`, and an export then garbles it.
   */
  lemma RewriteKeepsExactly(before: Disk, entries: set<Entry>, after: Disk, dir: string)
    requires WrittenAt(before, entries, after, dir) && !(Read(before, dir) && entries <= Recorded(before, dir))
    ensures Recorded(after, dir) == Recorded(before, dir) + entries <==> Clean(Recorded(before, dir) + entries)
  {
    var all := Recorded(before, dir) + entries;
    RenderedSet(after[dir].text, all);
    if Clean(all) {
      CleanSurvives(all);
    } else {
      var e :| e in all && !Representable(e);
      assert e !in Survivors(all);
    }
  }
}
