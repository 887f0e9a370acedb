/**
 * What `parse_remote_repositories` (`rv-export/src/metadata.rs`) reads of any text, also of one that
 * was edited by hand or written by another program.
 */
module MarkerText {
  import opened Prelude
  import opened PropertiesKeys
  import opened Markers

  // ----- lines of a text -----

  /** A line that has an end: a line feed, or a carriage return and a line feed. */
  datatype Ended = Ended(text: string, carriage: bool)

  predicate EndedOk(line: Ended) {
    '\n' !in line.text && (!line.carriage ==> !HasSuffix(line.text, "\r"))
  }

  function EndOf(line: Ended): string {
    if line.carriage then "\r\n" else "\n"
  }

  function TextOf(lines: seq<Ended>, last: string): string {
    if lines == [] then last else lines[0].text + EndOf(lines[0]) + TextOf(lines[1..], last)
  }

  function LinesIn(lines: seq<Ended>, last: string): seq<string> {
    if lines == [] then if last == "" then [] else [last]
    else [lines[0].text] + LinesIn(lines[1..], last)
  }

  lemma FirstOfText(line: Ended, more: string)
    requires EndedOk(line)
    ensures FirstLine(line.text + EndOf(line) + more) == (line.text, more)
  {
    var text := line.text + EndOf(line) + more;
    var at := |line.text| + |EndOf(line)| - 1;
    assert text[at] == '\n' && forall k | 0 <= k < at :: text[k] != '\n';
    assert FindChar(text, '\n') == Some(at);
    assert text[at + 1..] == more;
    if line.carriage {
      assert text[at - 1] == '\r' && text[..at][..at - 1] == line.text;
    } else {
      assert text[..at] == line.text;
      assert line.text != "" ==> line.text[|line.text| - 1..] == [line.text[at - 1]];
    }
  }

  /** A text reads as its lines; a last line without an end is one too, unless it is empty. */
  lemma {:induction false} LinesOfText(lines: seq<Ended>, last: string)
    requires '\n' !in last && forall i | 0 <= i < |lines| :: EndedOk(lines[i])
    ensures Lines(TextOf(lines, last)) == LinesIn(lines, last)
  {
    if lines == [] {
      assert last != "" ==> FirstLine(last) == (last, "");
    } else {
      FirstOfText(lines[0], TextOf(lines[1..], last));
      LinesOfText(lines[1..], last);
    }
  }

  /** Every text has such lines. */
  lemma {:induction false} TextHasLines(text: string) returns (lines: seq<Ended>, last: string)
    ensures '\n' !in last && (forall i | 0 <= i < |lines| :: EndedOk(lines[i])) && text == TextOf(lines, last)
    decreases |text|
  {
    var found := FindChar(text, '\n');
    if found.None? {
      lines, last := [], text;
    } else {
      var at := found.value;
      var carriage := HasSuffix(text[..at], "\r");
      var line := Ended(if carriage then text[..at - 1] else text[..at], carriage);
      assert line.text + EndOf(line) == text[..at + 1];
      var more;
      more, last := TextHasLines(text[at + 1..]);
      lines := [line] + more;
      assert lines[1..] == more;
    }
  }

  // ----- one line -----

  ghost predicate Blank(text: string) {
    forall c | c in text :: Whitespace(c)
  }

  predicate Trimmed(text: string) {
    text != "" ==> !Whitespace(text[0]) && !Whitespace(text[|text| - 1])
  }

  ghost predicate Within(line: string, before: string, text: string, after: string) {
    line == before + text + after && Blank(before) && Blank(after) && Trimmed(text)
  }

  lemma {:induction false} TrimLeaves(line: string) returns (before: string, after: string)
    ensures Within(line, before, Trim(line), after)
    decreases |line|
  {
    if line == "" {
      before, after := "", "";
    } else if Whitespace(line[0]) {
      var rest;
      rest, after := TrimLeaves(line[1..]);
      before := [line[0]] + rest;
      assert line == [line[0]] + line[1..];
      Regroup([line[0]], rest, Trim(line));
    } else if Whitespace(line[|line| - 1]) {
      var n, rest := |line| - 1, "";
      before, rest := TrimLeaves(line[..n]);
      after := rest + [line[n]];
      assert line == line[..n] + [line[n]];
      Regroup(before + Trim(line), rest, [line[n]]);
    } else {
      before, after := "", "";
    }
  }

  lemma {:induction false} TrimDrops(line: string, before: string, text: string, after: string)
    requires Within(line, before, text, after) && text != ""
    ensures Trim(line) == text
    decreases |line|
  {
    if before != "" {
      assert line[0] == before[0] && line[1..] == before[1..] + text + after;
      TrimDrops(line[1..], before[1..], text, after);
    } else if after != "" {
      var n, m := |line| - 1, |after| - 1;
      assert line[0] == text[0] && line[n] == after[m] && line[..n] == before + text + after[..m];
      TrimDrops(line[..n], before, text, after[..m]);
    } else {
      assert line == text;
    }
  }

  function Body(name: string, id: string): string {
    name + ">" + id + "="
  }

  /** The line holds a name and an id: between white space, not as a comment, the id without `>`. */
  ghost predicate Spells(line: string, name: string, id: string) {
    && '>' !in id && !Whitespace(Body(name, id)[0]) && Body(name, id)[0] != '#'
    && exists before, after :: Within(line, before, Body(name, id), after)
  }

  lemma BodyIsSplit(name: string, id: string)
    requires '>' !in id
    ensures var body := Body(name, id)[..|Body(name, id)| - 1];
            RFind(body, '>') == Some(|name|) && body[..|name|] == name && body[|name| + 1..] == id
  {
    var body := Body(name, id)[..|Body(name, id)| - 1];
    assert body == name + ">" + id && body[|name|] == '>';
    assert forall k | |name| < k < |body| :: body[k] == id[k - |name| - 1];
  }

  lemma BodyOfSplit(line: string, name: string, id: string)
    requires SplitLine(line) == Some((name, id))
    ensures Trim(line) == Body(name, id) && '>' !in id && Body(name, id)[0] != '#'
  {
    var trimmed := Trim(line);
    var body := trimmed[..|trimmed| - 1];
    assert body[|name|] == '>' && name == body[..|name|] && id == body[|name| + 1..];
    assert forall k | 0 <= k < |id| :: id[k] == body[|name| + 1 + k];
    assert body == name + ">" + id;
    assert trimmed == body + "=";
  }

  lemma SplitOfBody(line: string, name: string, id: string)
    requires Trim(line) == Body(name, id) && '>' !in id && Body(name, id)[0] != '#'
    ensures SplitLine(line) == Some((name, id))
  {
    BodyIsSplit(name, id);
  }

  /** A line is split into a name and an id exactly when it spells them. */
  lemma SplitMeans(line: string, name: string, id: string)
    ensures SplitLine(line) == Some((name, id)) <==> Spells(line, name, id)
  {
    if SplitLine(line) == Some((name, id)) {
      BodyOfSplit(line, name, id);
      var before, after := TrimLeaves(line);
      assert Within(line, before, Body(name, id), after);
    }
    if Spells(line, name, id) {
      var before, after :| Within(line, before, Body(name, id), after);
      TrimDrops(line, before, Body(name, id), after);
      SplitOfBody(line, name, id);
    }
  }

  // ----- the whole text -----

  ghost predicate SpellsEntry(line: string, entry: Entry) {
    exists name, id :: Spells(line, name, id) && entry == Entry(Unescape(name), Unescape(id)) && entry.file != ""
  }

  lemma LineMeans(line: string, entry: Entry)
    ensures ParseLine(line) == Some(entry) <==> SpellsEntry(line, entry)
  {
    if SplitLine(line).Some? {
      var (name, id) := SplitLine(line).value;
      SplitMeans(line, name, id);
    }
    if SpellsEntry(line, entry) {
      var name, id :| Spells(line, name, id) && entry == Entry(Unescape(name), Unescape(id)) && entry.file != "";
      SplitMeans(line, name, id);
    }
  }

  /** An entry is read exactly when some line of the text spells it, with its names unescaped; all else is ignored. */
  lemma ParseMeans(lines: seq<Ended>, last: string, entry: Entry)
    requires '\n' !in last && forall i | 0 <= i < |lines| :: EndedOk(lines[i])
    ensures entry in Parse(TextOf(lines, last)) <==>
            exists line :: line in LinesIn(lines, last) && SpellsEntry(line, entry)
  {
    LinesOfText(lines, last);
    var all := LinesIn(lines, last);
    forall i | 0 <= i < |all| ensures ParseLine(all[i]) == Some(entry) <==> SpellsEntry(all[i], entry) {
      LineMeans(all[i], entry);
    }
    if entry in ParseLines(all) {
      var i :| 0 <= i < |all| && ParseLine(all[i]).Some? && ParseLine(all[i]).value == entry;
      assert all[i] in all;
    }
    if line :| line in all && SpellsEntry(line, entry) {
      var i :| 0 <= i < |all| && all[i] == line;
      assert ParseLine(all[i]) == Some(entry);
    }
  }
}
