/**
 * Files of `-D` values and files of `-P` values: how each reads back, attached to the option or on the
 * line after it (`rv-config/src/maven_config.rs`). The proofs are for either option.
 */
module MavenFiles {
  import opened Prelude
  import opened MavenConfig

  // ----- files of lines -----

  /** The lines of a file, each with one of Java's three line ends. */
  function Terminated(lines: seq<string>, ends: seq<string>): string
    requires |lines| == |ends|
  {
    if lines == [] then "" else lines[0] + ends[0] + Terminated(lines[1..], ends[1..])
  }

  predicate LineEnds(ends: seq<string>) {
    forall i | 0 <= i < |ends| :: ends[i] == "\n" || ends[i] == "\r\n" || ends[i] == "\r"
  }

  predicate AllSingle(lines: seq<string>) {
    forall i | 0 <= i < |lines| :: SingleLine(lines[i])
  }

  lemma FirstEol(line: string, end: string, more: string)
    requires SingleLine(line) && (end == "\n" || end == "\r\n" || end == "\r")
    requires !(end == "\r" && StartsWith(more, '\n'))
    ensures FindEol(line + end + more) == Some(|line|)
    ensures AfterEol(line + end + more, |line|) == more && (line + end + more)[..|line|] == line
  {
    var text := line + end + more;
    assert forall k | 0 <= k < |line| :: text[k] == line[k];
    assert text[|line|] == end[0] && Eol(text[|line|]);
    assert FindEol(text).value == |line|;
    if end == "\r\n" {
      assert text[|line| + 1] == '\n' && text[|line| + 2..] == more;
    } else {
      assert text[|line| + 1..] == more;
      assert more != "" ==> text[|line| + 1] == more[0];
    }
  }

  /** A line that ends in `\r` before an empty one that ends in `\n` is read as one line. */
  lemma MergedEol(line: string, more: string)
    requires SingleLine(line)
    ensures FindEol(line + "\r" + ("\n" + more)) == Some(|line|)
    ensures AfterEol(line + "\r" + ("\n" + more), |line|) == more && (line + "\r" + ("\n" + more))[..|line|] == line
  {
    var text := line + "\r" + ("\n" + more);
    assert forall k | 0 <= k < |line| :: text[k] == line[k];
    assert text[|line|] == '\r' && text[|line| + 1] == '\n';
    assert FindEol(text).value == |line|;
    assert text[|line| + 2..] == more;
  }

  lemma KeptOfFirst(text: string)
    requires FindEol(text).Some?
    ensures var at := FindEol(text).value;
            Kept(JavaLines(text)) ==
              (if Dropped(text[..at]) then [] else [text[..at]]) + Kept(JavaLines(AfterEol(text, at)))
  {
    var at := FindEol(text).value;
    var tail := AfterEol(text, at);
    KeptMore(text[..at], if tail == "" then [] else JavaLines(tail));
    assert JavaLines("") == [""] && [""][1..] == [] && Kept([""]) == [];
  }

  /** Reading a file gives its lines, whichever line ends it uses, except for empty lines and comments. */
  lemma {:induction false} LinesOfFile(lines: seq<string>, ends: seq<string>)
    requires |lines| == |ends| && LineEnds(ends) && AllSingle(lines)
    ensures Kept(JavaLines(Terminated(lines, ends))) == Kept(lines)
    decreases |lines|
  {
    if lines == [] {
      assert JavaLines("") == [""] && [""][1..] == [];
    } else {
      var more := Terminated(lines[1..], ends[1..]);
      if ends[0] == "\r" && StartsWith(more, '\n') {
        EmptyLineNext(lines[1..], ends[1..]);
        MergedEol(lines[0], Terminated(lines[2..], ends[2..]));
        LinesOfFile(lines[2..], ends[2..]);
      } else {
        FirstEol(lines[0], ends[0], more);
        LinesOfFile(lines[1..], ends[1..]);
      }
      KeptOfFirst(Terminated(lines, ends));
    }
  }

  lemma EmptyLineNext(lines: seq<string>, ends: seq<string>)
    requires |lines| == |ends| && LineEnds(ends) && AllSingle(lines) && StartsWith(Terminated(lines, ends), '\n')
    ensures lines != [] && Terminated(lines, ends) == "\n" + Terminated(lines[1..], ends[1..])
    ensures Kept(lines) == Kept(lines[1..])
  {
    BlankFirst(lines[0], ends[0], Terminated(lines[1..], ends[1..]));
  }

  lemma BlankFirst(line: string, end: string, more: string)
    requires SingleLine(line) && (end == "\n" || end == "\r\n" || end == "\r")
    ensures StartsWith(line + end + more, '\n') ==> line == "" && line + end + more == "\n" + more
  {
    assert (line + end + more)[0] == if line == "" then end[0] else line[0];
    assert line == "" && end == "\n" ==> line + end + more == "\n" + more;
  }

  lemma KeptMore(line: string, rest: seq<string>)
    ensures Kept([line] + rest) == (if Dropped(line) then [] else [line]) + Kept(rest)
  {
    assert ([line] + rest)[1..] == rest;
  }

  // ----- the options `-D` and `-P` -----

  function Dash(c: char): (dash: string)
    ensures |dash| == 2 && dash[0] == '-' && dash[1] == c
  {
    ['-', c]
  }

  /** The values read for the option. */
  function ListOf(written: Written, c: char): seq<string> {
    if c == 'D' then written.defines else written.profiles
  }

  /** `written` with more values of the option, and nothing else changed. */
  function Plus(written: Written, c: char, values: seq<string>): Written {
    if c == 'D' then written.(defines := written.defines + values) else written.(profiles := written.profiles + values)
  }

  lemma PlusSame(written: Written, c: char, a: seq<string>, b: seq<string>)
    ensures Plus(written, c, a) == Plus(written, c, b) ==> a == b
  {
    var first := ListOf(written, c);
    if Plus(written, c, a) == Plus(written, c, b) {
      assert (first + a)[|first|..] == a && (first + b)[|first|..] == b;
    }
  }

  /** No option of the table is named by the letter and something more. */
  predicate OnlyOne(c: char, rows: seq<Row>) {
    forall i | 0 <= i < |rows| ::
      && (rows[i].short.Some? && StartsWith(rows[i].short.value, c) ==> rows[i].short.value == [c])
      && (rows[i].long.Some? ==> !StartsWith(rows[i].long.value, c))
  }

  lemma {:induction false} NoLonger(c: char, rows: seq<Row>, name: string)
    requires OnlyOne(c, rows) && |name| > 1 && name[0] == c
    ensures FindShort(rows, name).None? && FindLong(rows, name).None?
    decreases |rows|
  {
    if rows != [] {
      assert OnlyOne(c, rows[1..]);
      NoLonger(c, rows[1..], name);
    }
  }

  lemma OnlyOneJoin(c: char, a: seq<Row>, b: seq<Row>)
    requires OnlyOne(c, a) && OnlyOne(c, b)
    ensures OnlyOne(c, a + b)
  {
  }

  predicate IsLetter(c: char) {
    c == 'D' || c == 'P'
  }

  lemma FirstHaveOnlyOne(c: char)
    requires IsLetter(c)
    ensures OnlyOne(c, OPTIONS_1) && OnlyOne(c, OPTIONS_2) && OnlyOne(c, OPTIONS_3)
  {
  }

  lemma MiddleHaveOnlyOne(c: char)
    requires IsLetter(c)
    ensures OnlyOne(c, OPTIONS_4) && OnlyOne(c, OPTIONS_5)
  {
  }

  lemma LastHaveOnlyOne(c: char)
    requires IsLetter(c)
    ensures OnlyOne(c, OPTIONS_6) && OnlyOne(c, OPTIONS_7)
  {
  }

  lemma TableHasOnlyOne(c: char)
    requires IsLetter(c)
    ensures OnlyOne(c, OPTIONS)
  {
    FirstHaveOnlyOne(c);
    MiddleHaveOnlyOne(c);
    LastHaveOnlyOne(c);
    OnlyOneJoin(c, OPTIONS_6, OPTIONS_7);
    OnlyOneJoin(c, OPTIONS_5, OPTIONS_6 + OPTIONS_7);
    OnlyOneJoin(c, OPTIONS_4, OPTIONS_5 + (OPTIONS_6 + OPTIONS_7));
    OnlyOneJoin(c, OPTIONS_3, OPTIONS_4 + (OPTIONS_5 + (OPTIONS_6 + OPTIONS_7)));
    OnlyOneJoin(c, OPTIONS_2, OPTIONS_3 + (OPTIONS_4 + (OPTIONS_5 + (OPTIONS_6 + OPTIONS_7))));
    OnlyOneJoin(c, OPTIONS_1, OPTIONS_2 + (OPTIONS_3 + (OPTIONS_4 + (OPTIONS_5 + (OPTIONS_6 + OPTIONS_7)))));
  }

  predicate TakesValue(row: Option<Row>, c: char) {
    row.Some? && row.value.short == Some([c]) && row.value.takesValue && !row.value.valueOptional
  }

  /** What the proofs below use of the option table: the letter must be followed by a value. */
  predicate ValueTable(table: seq<Row>, c: char) {
    IsLetter(c) && OnlyOne(c, table) && TakesValue(FindShort(table, [c]), c)
  }

  lemma {:induction false} FoundLater(rows: seq<Row>, name: string, k: nat)
    requires k <= |rows| && forall i | 0 <= i < k :: rows[i].short != Some(name)
    ensures FindShort(rows, name) == FindShort(rows[k..], name)
  {
    if k == 0 {
      assert rows[0..] == rows;
    } else {
      FoundLater(rows[1..], name, k - 1);
      assert rows[1..][k - 1..] == rows[k..];
    }
  }

  lemma LetterRows()
    ensures |OPTIONS_1| == 6 && OPTIONS[2] == Both("D", "define", true)
    ensures OPTIONS[10] == Both("P", "activate-profiles", true)
    ensures forall i | 0 <= i < 2 :: OPTIONS[i].short != Some("D")
    ensures forall i | 0 <= i < 10 :: OPTIONS[i].short != Some("P")
  {
    var first, second := OPTIONS_1, OPTIONS_2;
    assert forall i | 0 <= i < 6 :: OPTIONS[i] == first[i] && OPTIONS[i + 6] == second[i];
    assert "D" == ['D'] && "P" == ['P'];
  }

  lemma OptionsTakeValues(c: char)
    requires IsLetter(c)
    ensures ValueTable(OPTIONS, c)
  {
    TableHasOnlyOne(c);
    LetterRows();
    var k := if c == 'D' then 2 else 10;
    assert [c] == if c == 'D' then "D" else "P";
    FoundLater(OPTIONS, [c], k);
    assert OPTIONS[k..][0] == OPTIONS[k];
  }

  lemma ValueOption(table: seq<Row>, c: char)
    requires ValueTable(table, c)
    ensures FindOption(table, Dash(c)) == FindOption(table, [c]) == FindShort(table, [c])
  {
    assert StripDashes(Dash(c)) == [c] && StripDashes([c]) == [c];
  }

  /** An attached value with its option is no option itself, nor is the part before its first `=`. */
  lemma AttachedIsNoOption(table: seq<Row>, c: char, value: string)
    requires ValueTable(table, c)
    requires value != ""
    ensures StripDashes(Dash(c) + value) == [c] + value
    ensures FindOption(table, Dash(c) + value).None? && FindOption(table, [c] + value).None?
  {
    var arg, name := Dash(c) + value, [c] + value;
    assert arg[0] == '-' && arg[1] == c && arg[1..] == name && name[0] == c;
    NoLonger(c, table, name);
  }

  /** How `flatten` cuts an attached value: one that starts with `=` loses it. */
  lemma FlattenValue(table: seq<Row>, c: char, value: string)
    requires ValueTable(table, c)
    ensures FlattenOne(table, Dash(c) + value) ==
            if value == "" then [Dash(c)] else if value[0] == '=' then [Dash(c), value[1..]] else [Dash(c), value]
  {
    ValueOption(table, c);
    if value == "" {
      assert Dash(c) + value == Dash(c);
    } else {
      AttachedIsNoOption(table, c, value);
      if value[0] == '=' {
        SplitAtFirst(c, value);
      } else {
        SplitAfterDash(c, value);
        NameIsNoOption(table, c, value);
      }
    }
  }

  lemma SplitAfterDash(c: char, value: string)
    ensures var arg := Dash(c) + value; StartsWith(arg, '-') && |arg| >= 2 && arg[..2] == Dash(c) && arg[2..] == value
  {
  }

  /** What stands before the first `=` of an attached value is no option either. */
  lemma NameIsNoOption(table: seq<Row>, c: char, value: string)
    requires ValueTable(table, c) && value != "" && value[0] != '='
    ensures var name := [c] + value;
            var equals := FindChar(name, '=');
            equals.Some? ==> FindOption(table, name[..equals.value]).None?
  {
    var name := [c] + value;
    var equals := FindChar(name, '=');
    if equals.Some? {
      assert name[equals.value] == '=' && name[0] == c && name[1] == value[0];
      var before := value[..equals.value - 1];
      assert before != "" && name[..equals.value] == [c] + before;
      AttachedIsNoOption(table, c, before);
    }
  }

  lemma SplitAtFirst(c: char, value: string)
    requires IsLetter(c) && StartsWith(value, '=')
    ensures var arg, name := Dash(c) + value, [c] + value;
            && FindChar(name, '=') == Some(1) && name[..1] == [c]
            && FindChar(arg, '=') == Some(2) && arg[..2] == Dash(c) && arg[3..] == value[1..]
  {
    var arg, name := Dash(c) + value, [c] + value;
    assert arg[0] == '-' && arg[1] == c && arg[2] == '=' && name[0] == c && name[1] == '=';
    assert FindChar(name, '=').value == 1 && FindChar(arg, '=').value == 2;
  }

  predicate OptionLike(table: seq<Row>, token: string) {
    StartsWith(token, '-') && FindOption(table, token).Some?
  }

  /** The option takes the next token as its value unless that is an option. */
  lemma ReadValue(table: seq<Row>, c: char, tokens: seq<string>, written: Written)
    requires ValueTable(table, c)
    requires tokens != [] && tokens[0] == Dash(c)
    ensures Read(table, tokens, written, []) ==
            if HasValue(table, tokens[1..])
            then Read(table, tokens[2..], Plus(written, c, [StripQuotes(tokens[1])]), [])
            else Err(MissingArgument([c]))
  {
    ValueOption(table, c);
    assert Dash(c)[0] == '-' && Dash(c)[1] == c && "--"[1] == '-';
    assert tokens[1..] != [] ==> tokens[1..][0] == tokens[1] && tokens[1..][1..] == tokens[2..];
    assert [c][0] == c && "llr"[0] == 'l' && "f"[0] == 'f' && "pl"[0] == 'p' && "am"[0] == 'a' && "amd"[0] == 'a';
    assert Selected(written, [c]) == written;
  }

  // ----- attached values -----

  function AttachedLines(c: char, values: seq<string>): (lines: seq<string>)
    ensures |lines| == |values|
    ensures forall i | 0 <= i < |values| :: lines[i] == Dash(c) + values[i]
  {
    if values == [] then [] else [Dash(c) + values[0]] + AttachedLines(c, values[1..])
  }

  /** What is left of an attached value: a leading `=` is taken for the separator. */
  function Cut(value: string): string {
    if StartsWith(value, '=') then value[1..] else value
  }

  function Each(values: seq<string>): (r: seq<string>)
    ensures |r| == |values| && forall i | 0 <= i < |values| :: r[i] == StripQuotes(values[i])
  {
    if values == [] then [] else [StripQuotes(values[0])] + Each(values[1..])
  }

  function EachCut(values: seq<string>): (r: seq<string>)
    ensures |r| == |values| && forall i | 0 <= i < |values| :: r[i] == StripQuotes(Cut(values[i]))
  {
    if values == [] then [] else [StripQuotes(Cut(values[0]))] + EachCut(values[1..])
  }

  predicate ReadAttached(table: seq<Row>, value: string) {
    value != "" && !StartsWith(value, '=') && !OptionLike(table, value)
  }

  lemma {:induction false} AttachedArePlain(c: char, values: seq<string>)
    ensures Kept(AttachedLines(c, values)) == AttachedLines(c, values)
    ensures Clean(AttachedLines(c, values), None) == Some(AttachedLines(c, values))
  {
    if values != [] {
      AttachedArePlain(c, values[1..]);
      var line := Dash(c) + values[0];
      assert line[0] == '-';
      var lines := AttachedLines(c, values);
      assert lines == [line] + AttachedLines(c, values[1..]) && lines[1..] == AttachedLines(c, values[1..]);
    }
  }

  lemma FlattenAttached(table: seq<Row>, c: char, values: seq<string>)
    requires IsLetter(c) && values != []
    ensures Flatten(table, AttachedLines(c, values)) ==
            FlattenOne(table, Dash(c) + values[0]) + Flatten(table, AttachedLines(c, values[1..]))
  {
    var lines := AttachedLines(c, values);
    assert lines[0][1] == c && "--"[1] == '-';
    assert lines[1..] == AttachedLines(c, values[1..]);
  }

  lemma FlattenedStartsWithOption(table: seq<Row>, c: char, values: seq<string>)
    requires ValueTable(table, c)
    ensures !HasValue(table, Flatten(table, AttachedLines(c, values)))
  {
    if values != [] {
      FlattenAttached(table, c, values);
      FlattenValue(table, c, values[0]);
      ValueOption(table, c);
      assert Flatten(table, AttachedLines(c, values))[0] == Dash(c) && Dash(c)[0] == '-';
    }
  }

  lemma ReadOneAttached(table: seq<Row>, c: char, values: seq<string>, written: Written)
    requires ValueTable(table, c)
    requires values != []
    ensures Read(table, Flatten(table, AttachedLines(c, values)), written, []) ==
            if values[0] == "" || OptionLike(table, Cut(values[0])) then Err(MissingArgument([c]))
            else Read(table, Flatten(table, AttachedLines(c, values[1..])),
                      Plus(written, c, [StripQuotes(Cut(values[0]))]), [])
  {
    var tokens, rest := Flatten(table, AttachedLines(c, values)), Flatten(table, AttachedLines(c, values[1..]));
    FlattenAttached(table, c, values);
    FlattenValue(table, c, values[0]);
    ReadValue(table, c, tokens, written);
    if values[0] == "" {
      assert tokens[1..] == rest;
      FlattenedStartsWithOption(table, c, values[1..]);
    } else {
      assert tokens == [Dash(c), Cut(values[0])] + rest;
      assert tokens[1..][0] == Cut(values[0]) && tokens[2..] == rest;
    }
  }

  predicate Taken(table: seq<Row>, value: string) {
    value != "" && !OptionLike(table, Cut(value))
  }

  predicate AllTaken(table: seq<Row>, values: seq<string>) {
    values == [] || (Taken(table, values[0]) && AllTaken(table, values[1..]))
  }

  lemma {:induction false} AllTakenMeans(table: seq<Row>, values: seq<string>)
    ensures AllTaken(table, values) <==> forall i | 0 <= i < |values| :: Taken(table, values[i])
  {
    if values != [] {
      AllTakenMeans(table, values[1..]);
      assert forall i | 0 < i < |values| :: values[i] == values[1..][i - 1];
    }
  }

  lemma {:induction false} ReadAllAttached(table: seq<Row>, c: char, values: seq<string>, written: Written)
    requires ValueTable(table, c)
    ensures var r := Read(table, Flatten(table, AttachedLines(c, values)), written, []);
            if AllTaken(table, values) then r == Ok(Plus(written, c, EachCut(values))) else r.Err?
  {
    if values == [] {
      assert ListOf(written, c) + [] == ListOf(written, c);
    } else {
      ReadOneAttached(table, c, values, written);
      var next := Plus(written, c, [StripQuotes(Cut(values[0]))]);
      ReadAllAttached(table, c, values[1..], next);
      ValuesMore(ListOf(written, c), values);
    }
  }

  lemma ValuesMore(defines: seq<string>, values: seq<string>)
    requires values != []
    ensures defines + [StripQuotes(Cut(values[0]))] + EachCut(values[1..]) == defines + EachCut(values)
  {
  }

  lemma StripNoLonger(value: string)
    ensures |StripQuotes(value)| <= |value|
    ensures StartsWith(value, '=') ==> StripQuotes(value) == value
  {
  }

  /** `AttachedFile`, for any option table in which the letter is like Maven's. */
  lemma AttachedFileFor(table: seq<Row>, c: char, values: seq<string>, ends: seq<string>)
    requires ValueTable(table, c)
    requires |values| == |ends| && LineEnds(ends) && forall i | 0 <= i < |values| :: SingleLine(values[i])
    ensures WrittenOf(table, JavaLines(Terminated(AttachedLines(c, values), ends))) ==
            Ok(Plus(NOTHING, c, Each(values))) <==>
            forall i | 0 <= i < |values| :: ReadAttached(table, values[i])
  {
    AttachedTokens(table, c, values, ends);
    ReadAllAttached(table, c, values, NOTHING);
    assert [] + EachCut(values) == EachCut(values);
    AttachedMeans(table, values);
  }

  lemma AttachedTokens(table: seq<Row>, c: char, values: seq<string>, ends: seq<string>)
    requires IsLetter(c) && |values| == |ends| && LineEnds(ends)
    requires forall i | 0 <= i < |values| :: SingleLine(values[i])
    ensures WrittenOf(table, JavaLines(Terminated(AttachedLines(c, values), ends))) ==
            Read(table, Flatten(table, AttachedLines(c, values)), NOTHING, [])
  {
    var lines := AttachedLines(c, values);
    forall i | 0 <= i < |lines| ensures SingleLine(lines[i]) {
      assert lines[i] == Dash(c) + values[i];
    }
    LinesOfFile(lines, ends);
    AttachedArePlain(c, values);
  }

  lemma AttachedMeans(table: seq<Row>, values: seq<string>)
    ensures (AllTaken(table, values) && EachCut(values) == Each(values)) <==>
            forall i | 0 <= i < |values| :: ReadAttached(table, values[i])
  {
    AllTakenMeans(table, values);
    forall i | 0 <= i < |values| ensures EachCut(values)[i] == Each(values)[i] <==> !StartsWith(values[i], '=') {
      StripNoLonger(values[i]);
      StripNoLonger(Cut(values[i]));
    }
    if AllTaken(table, values) && EachCut(values) == Each(values) {
      forall i | 0 <= i < |values| ensures ReadAttached(table, values[i]) {
        assert Taken(table, values[i]) && EachCut(values)[i] == Each(values)[i];
      }
    }
  }

  // ----- values on lines of their own -----

  function SeparateLines(c: char, values: seq<string>): (lines: seq<string>)
    ensures |lines| == 2 * |values|
  {
    if values == [] then [] else [Dash(c), values[0]] + SeparateLines(c, values[1..])
  }

  /** The one token `clean_args` makes of a value on its own, when it can. */
  function Alone(value: string): Option<string> {
    if !StartsWith(value, '"') then Some(value)
    else if |value| == 1 then None
    else if EndsWith(value, '"') then Some(value[1..|value| - 1])
    else Some(value[1..])
  }

  lemma CleanAlone(value: string)
    ensures Clean([value], None) == if Alone(value).None? then None else Some([Alone(value).value])
  {
    assert [value][1..] == [];
    assert [value] + [] == [value];
    if Alone(value).Some? {
      assert [Alone(value).value] + [] == [Alone(value).value] && [] + [Alone(value).value] == [Alone(value).value];
    }
  }

  /** A quoted value is accepted when its quotes are one pair around the whole of it. */
  lemma AcceptedShape(value: string)
    ensures Accept(value).Some? <==>
            || !StartsWith(value, '"')
            || (|value| >= 2 && EndsWith(value, '"') && FindChar(value[1..|value| - 1], '"').None?)
    ensures Accept(value).Some? ==> Alone(value).Some? && StripQuotes(Alone(value).value) == StripQuotes(value)
    ensures Accept(value).Some? ==> Accept(value) == Some(StripQuotes(value))
  {
    CleanAlone(value);
    if Alone(value).Some? && StartsWith(value, '"') {
      ShorterStrip(value);
    }
  }

  lemma ShorterStrip(value: string)
    requires Alone(value).Some? && StartsWith(value, '"')
    ensures StripQuotes(Alone(value).value) == StripQuotes(value) <==>
            EndsWith(value, '"') && FindChar(value[1..|value| - 1], '"').None?
  {
    var alone := Alone(value).value;
    assert |StripQuotes(alone)| <= |alone| < |value|;
  }

  /** Values `CommandLine::new` accepts, each on one line. */
  predicate AllAccepted(values: seq<string>) {
    values == [] || (SingleLine(values[0]) && Accept(values[0]).Some? && AllAccepted(values[1..]))
  }

  /** The token `clean_args` makes of an accepted value. */
  function TokenOf(value: string): (token: string)
    requires Accept(value).Some?
    ensures Alone(value) == Some(token) && StripQuotes(token) == StripQuotes(value)
  {
    AcceptedShape(value);
    Alone(value).value
  }

  function KeptSeparate(c: char, values: seq<string>): seq<string> {
    if values == [] then []
    else [Dash(c)] + ((if Dropped(values[0]) then [] else [values[0]]) + KeptSeparate(c, values[1..]))
  }

  /** The tokens of the lines that are kept. */
  function SeparateTokens(c: char, values: seq<string>): seq<string>
    requires AllAccepted(values)
  {
    if values == [] then []
    else [Dash(c)] + ((if Dropped(values[0]) then [] else [TokenOf(values[0])]) + SeparateTokens(c, values[1..]))
  }

  lemma {:induction false} KeptSeparateLines(c: char, values: seq<string>)
    ensures Kept(SeparateLines(c, values)) == KeptSeparate(c, values)
  {
    if values != [] {
      var rest := SeparateLines(c, values[1..]);
      KeptSeparateLines(c, values[1..]);
      KeptMore(values[0], rest);
      KeptMore(Dash(c), [values[0]] + rest);
      assert SeparateLines(c, values) == [Dash(c)] + ([values[0]] + rest);
      assert Dash(c)[0] == '-';
    }
  }

  lemma CleanMore(arg: string, rest: seq<string>)
    requires Accept(arg).Some?
    ensures Clean([arg] + rest, None) == Prepend([TokenOf(arg)], Clean(rest, None))
  {
    AcceptedShape(arg);
    assert ([arg] + rest)[1..] == rest && ([arg] + rest)[0] == arg;
    assert [] + [Alone(arg).value] == [Alone(arg).value];
  }

  lemma CleanDash(c: char, rest: seq<string>)
    ensures Clean([Dash(c)] + rest, None) == Prepend([Dash(c)], Clean(rest, None))
  {
    assert Dash(c)[0] == '-';
    assert ([Dash(c)] + rest)[1..] == rest && ([Dash(c)] + rest)[0] == Dash(c);
  }

  lemma {:induction false} CleanSeparate(c: char, values: seq<string>)
    requires AllAccepted(values)
    ensures Clean(KeptSeparate(c, values), None) == Some(SeparateTokens(c, values))
  {
    if values != [] {
      var kept := KeptSeparate(c, values[1..]);
      CleanSeparate(c, values[1..]);
      if Dropped(values[0]) {
        assert [] + kept == kept && [] + SeparateTokens(c, values[1..]) == SeparateTokens(c, values[1..]);
        CleanDash(c, kept);
      } else {
        CleanMore(values[0], kept);
        CleanDash(c, [values[0]] + kept);
      }
    }
  }

  // ----- how the tokens are read -----

  /** The tokens of `args`, which are left as they are behind a `--`. */
  function Tokens(table: seq<Row>, open: bool, args: seq<string>): seq<string> {
    if open then Flatten(table, args) else args
  }

  /**
   * Every value is read from its own line as it is: its line is no comment and not empty, its token
   * is no option, and `flatten` leaves the token alone, which it does with all tokens behind a `--`.
   */
  predicate ReadSeparate(table: seq<Row>, values: seq<string>, open: bool)
    requires AllAccepted(values)
  {
    values == [] ||
    (var token := TokenOf(values[0]);
     && !Dropped(values[0]) && !OptionLike(table, token) && (open ==> FlattenOne(table, token) == [token])
     && ReadSeparate(table, values[1..], open && token != "--"))
  }

  lemma TokensOfDash(table: seq<Row>, c: char, open: bool, rest: seq<string>)
    requires ValueTable(table, c)
    ensures Tokens(table, open, [Dash(c)] + rest) == [Dash(c)] + Tokens(table, open, rest)
  {
    ValueOption(table, c);
    assert ([Dash(c)] + rest)[1..] == rest;
    assert Dash(c)[0] == '-' && Dash(c)[1] == c && "--"[1] == '-';
  }

  lemma TokensOfOne(table: seq<Row>, open: bool, token: string, rest: seq<string>)
    ensures Tokens(table, open, [token] + rest) ==
            if open && token != "--" then FlattenOne(table, token) + Tokens(table, true, rest)
              else [token] + Tokens(table, false, rest)
  {
    assert ([token] + rest)[1..] == rest;
  }

  lemma NoValueBeforeDash(table: seq<Row>, c: char, open: bool, values: seq<string>)
    requires ValueTable(table, c) && AllAccepted(values)
    ensures !HasValue(table, Tokens(table, open, SeparateTokens(c, values)))
  {
    if values != [] {
      var rest := (if Dropped(values[0]) then [] else [TokenOf(values[0])]) + SeparateTokens(c, values[1..]);
      TokensOfDash(table, c, open, rest);
      ValueOption(table, c);
      assert Dash(c)[0] == '-';
    }
  }

  /** What is read after `written` does not give the text `text` as the next value. */
  predicate NextIsOther(c: char, r: Result<Written, Error>, written: Written, text: string) {
    r.Ok? ==> |ListOf(r.value, c)| > |ListOf(written, c)| && ListOf(r.value, c)[|ListOf(written, c)|] != text
  }

  lemma {:induction false} ValuesGrow(table: seq<Row>, c: char, tokens: seq<string>, written: Written,
                                      entries: seq<string>)
    ensures var r := Read(table, tokens, written, entries); r.Ok? ==> ListOf(written, c) <= ListOf(r.value, c)
    decreases |tokens|
  {
    if tokens != [] {
      var token, rest := tokens[0], tokens[1..];
      if token == "-" || !StartsWith(token, '-') {
        ValuesGrow(table, c, rest, written, entries + [token]);
      } else if token != "--" && FindOption(table, token).Some? {
        var row := FindOption(table, token).value;
        var selected := Selected(written, OptionName(row));
        ValuesGrow(table, c, rest, selected, entries);
        if HasValue(table, rest) {
          ValuesGrow(table, c, rest[1..], Take(selected, OptionName(row), StripQuotes(rest[0])), entries);
        }
      }
    }
  }

  /** A token that `flatten` cuts in two starts with a dash, and its first half is shorter. */
  lemma CutIsShorter(table: seq<Row>, token: string)
    requires FlattenOne(table, token) != [token]
    ensures StartsWith(token, '-') && |FlattenOne(table, token)| == 2 && |FlattenOne(table, token)[0]| < |token|
  {
    var name := StripDashes(token);
    var equals := FindChar(name, '=');
    if equals.Some? {
      EqualsIsThere(token, equals.value);
    }
    if |token| == 2 {
      assert token[..2] == token;
    }
  }

  lemma EqualsIsThere(token: string, at: nat)
    requires at < |StripDashes(token)| && StripDashes(token)[at] == '='
    ensures FindChar(token, '=').Some?
  {
    var cut := |token| - |StripDashes(token)|;
    assert token[cut + at] == '=';
  }

  lemma DashedIsNotStripped(token: string)
    requires StartsWith(token, '-')
    ensures StripQuotes(token) == token
  {
  }

  /** A value that is cut in two is not read back: its first half is an option, or taken for the value. */
  lemma CutIsNotRead(table: seq<Row>, c: char, token: string, rest: seq<string>, written: Written, text: string)
    requires ValueTable(table, c) && FlattenOne(table, token) != [token] && |text| >= |token|
    ensures NextIsOther(c, Read(table, [Dash(c)] + (FlattenOne(table, token) + rest), written, []), written, text)
  {
    CutIsShorter(table, token);
    var halves := FlattenOne(table, token);
    var tokens := [Dash(c)] + (halves + rest);
    ReadValue(table, c, tokens, written);
    assert tokens[1..] == halves + rest && tokens[1] == halves[0];
    if HasValue(table, tokens[1..]) {
      StripNoLonger(halves[0]);
      var next := Plus(written, c, [StripQuotes(halves[0])]);
      ValuesGrow(table, c, tokens[2..], next, []);
    }
  }

  /** The values of `written` and those of the file: what a file of separate values should give. */
  function Expected(c: char, written: Written, values: seq<string>): Result<Written, Error> {
    Ok(Plus(written, c, Each(values)))
  }

  lemma NotExpected(c: char, r: Result<Written, Error>, written: Written, values: seq<string>)
    requires values != [] && NextIsOther(c, r, written, StripQuotes(values[0]))
    ensures r != Expected(c, written, values)
  {
    var all := ListOf(written, c) + Each(values);
    assert all[|ListOf(written, c)|] == Each(values)[0] == StripQuotes(values[0]);
  }

  lemma EachMore(defines: seq<string>, values: seq<string>)
    requires values != []
    ensures defines + [StripQuotes(values[0])] + Each(values[1..]) == defines + Each(values)
  {
  }

  lemma {:induction false} SeparateIsRead(table: seq<Row>, c: char, values: seq<string>, open: bool, written: Written)
    requires ValueTable(table, c) && AllAccepted(values)
    ensures ReadSeparate(table, values, open) <==>
            Read(table, Tokens(table, open, SeparateTokens(c, values)), written, []) == Expected(c, written, values)
    decreases |values|
  {
    if values == [] {
      assert ListOf(written, c) + [] == ListOf(written, c);
    } else if Dropped(values[0]) {
      DroppedIsMissing(table, c, values, open, written);
    } else {
      var token := TokenOf(values[0]);
      if open && FlattenOne(table, token) != [token] {
        CutValueIsLost(table, c, values, written);
      } else {
        var next := Plus(written, c, [StripQuotes(values[0])]);
        SeparateIsRead(table, c, values[1..], open && token != "--", next);
        TakenValue(table, c, values, open, written);
        EachMore(ListOf(written, c), values);
      }
    }
  }

  lemma DroppedIsMissing(table: seq<Row>, c: char, values: seq<string>, open: bool, written: Written)
    requires ValueTable(table, c) && AllAccepted(values) && values != [] && Dropped(values[0])
    ensures Read(table, Tokens(table, open, SeparateTokens(c, values)), written, []) == Err(MissingArgument([c]))
  {
    var rest := SeparateTokens(c, values[1..]);
    assert [] + rest == rest;
    TokensOfDash(table, c, open, rest);
    NoValueBeforeDash(table, c, open, values[1..]);
    var tokens := [Dash(c)] + Tokens(table, open, rest);
    ReadValue(table, c, tokens, written);
    assert tokens[1..] == Tokens(table, open, rest);
  }

  lemma CutValueIsLost(table: seq<Row>, c: char, values: seq<string>, written: Written)
    requires ValueTable(table, c) && AllAccepted(values) && values != [] && !Dropped(values[0])
    requires FlattenOne(table, TokenOf(values[0])) != [TokenOf(values[0])]
    ensures Read(table, Tokens(table, true, SeparateTokens(c, values)), written, []) != Expected(c, written, values)
  {
    var token, rest := TokenOf(values[0]), SeparateTokens(c, values[1..]);
    CutIsShorter(table, token);
    DashedIsNotStripped(token);
    DashesAreLeft(table);
    TokensOfDash(table, c, true, [token] + rest);
    TokensOfOne(table, true, token, rest);
    CutIsNotRead(table, c, token, Tokens(table, true, rest), written, token);
    NotExpected(c, Read(table, Tokens(table, true, SeparateTokens(c, values)), written, []), written, values);
  }

  lemma DashesAreLeft(table: seq<Row>)
    ensures FlattenOne(table, "--") == ["--"]
  {
    assert StripDashes("--") == "" && "--"[..2] == "--";
  }

  lemma TakenValue(table: seq<Row>, c: char, values: seq<string>, open: bool, written: Written)
    requires ValueTable(table, c) && AllAccepted(values) && values != [] && !Dropped(values[0])
    requires open ==> FlattenOne(table, TokenOf(values[0])) == [TokenOf(values[0])]
    ensures var token := TokenOf(values[0]);
            Read(table, Tokens(table, open, SeparateTokens(c, values)), written, []) ==
            if OptionLike(table, token) then Err(MissingArgument([c]))
            else Read(table, Tokens(table, open && token != "--", SeparateTokens(c, values[1..])),
                      Plus(written, c, [StripQuotes(values[0])]), [])
  {
    var token, rest := TokenOf(values[0]), SeparateTokens(c, values[1..]);
    TokensOfDash(table, c, open, [token] + rest);
    TokensOfOne(table, open, token, rest);
    ReadTaken(table, c, token, Tokens(table, open && token != "--", rest), written);
  }

  lemma ReadTaken(table: seq<Row>, c: char, token: string, more: seq<string>, written: Written)
    requires ValueTable(table, c)
    ensures Read(table, [Dash(c)] + ([token] + more), written, []) ==
            if OptionLike(table, token) then Err(MissingArgument([c]))
            else Read(table, more, Plus(written, c, [StripQuotes(token)]), [])
  {
    var tokens := [Dash(c)] + ([token] + more);
    assert tokens[0] == Dash(c) && tokens[1..] == [token] + more && tokens[2..] == more;
    ReadValue(table, c, tokens, written);
  }

  lemma {:induction false} SeparateLinesAreSingle(c: char, values: seq<string>)
    requires IsLetter(c) && AllAccepted(values)
    ensures AllSingle(SeparateLines(c, values))
  {
    if values != [] {
      SeparateLinesAreSingle(c, values[1..]);
      assert Dash(c)[0] == '-' && Dash(c)[1] == c;
      assert SingleLine(Dash(c));
    }
  }

  /** `SeparateFile`, for any option table in which the letter is like Maven's. */
  lemma SeparateFileFor(table: seq<Row>, c: char, values: seq<string>, ends: seq<string>)
    requires ValueTable(table, c) && AllAccepted(values) && |ends| == 2 * |values| && LineEnds(ends)
    ensures WrittenOf(table, JavaLines(Terminated(SeparateLines(c, values), ends))) ==
            Ok(Plus(NOTHING, c, Each(values))) <==>
            ReadSeparate(table, values, true)
  {
    SeparateLinesAreSingle(c, values);
    LinesOfFile(SeparateLines(c, values), ends);
    KeptSeparateLines(c, values);
    CleanSeparate(c, values);
    SeparateIsRead(table, c, values, true, NOTHING);
    assert [] + Each(values) == Each(values);
  }

  // ----- the two ways to write one value -----

  /** What an attached value gives on its own. */
  lemma ReadAloneAttached(table: seq<Row>, c: char, value: string)
    requires ValueTable(table, c)
    ensures WrittenOf(table, [Dash(c) + value]) ==
            if value == "" || OptionLike(table, Cut(value)) then Err(MissingArgument([c]))
            else Ok(Plus(NOTHING, c, [StripQuotes(Cut(value))]))
  {
    var values := [value];
    assert AttachedLines(c, values) == [Dash(c) + value];
    AttachedArePlain(c, values);
    assert values[1..] == [] && AttachedLines(c, []) == [] && Flatten(table, []) == [];
    ReadOneAttached(table, c, values, NOTHING);
    assert [] + [StripQuotes(Cut(value))] == [StripQuotes(Cut(value))];
  }

  /** What the option and the value on the next line give on their own, unless `flatten` cuts the value. */
  lemma ReadAloneSeparate(table: seq<Row>, c: char, value: string)
    requires ValueTable(table, c)
             && (Alone(value).Some? ==> FlattenOne(table, Alone(value).value) == [Alone(value).value])
    ensures WrittenOf(table, [Dash(c), value]) ==
            if Dropped(value) then Err(MissingArgument([c]))
            else if Alone(value).None? then Err(BrokenQuote)
            else if OptionLike(table, Alone(value).value) then Err(MissingArgument([c]))
            else Ok(Plus(NOTHING, c, [StripQuotes(Alone(value).value)]))
  {
    CleanTwo(c, value);
    if Dropped(value) {
      TwoTokens(table, c, []);
    } else if Alone(value).Some? {
      TwoTokens(table, c, [Alone(value).value]);
      TokensOfOne(table, true, Alone(value).value, []);
      assert [Alone(value).value] + [] == [Alone(value).value];
      assert [] + [StripQuotes(Alone(value).value)] == [StripQuotes(Alone(value).value)];
    }
  }

  /** The arguments of the option and a value on the next line. */
  lemma CleanTwo(c: char, value: string)
    ensures Clean(Kept([Dash(c), value]), None) ==
            if Dropped(value) then Some([Dash(c)] + []) else if Alone(value).None? then None
              else Some([Dash(c)] + [Alone(value).value])
  {
    assert Dash(c)[0] == '-';
    KeptMore(value, []);
    KeptMore(Dash(c), [value]);
    assert [Dash(c)] + [value] == [Dash(c), value] && [value] + [] == [value];
    assert Kept([value]) == if Dropped(value) then [] else [value];
    CleanAlone(value);
    CleanDash(c, [value]);
    CleanDash(c, []);
    assert [Dash(c)] + [] == [Dash(c)];
  }

  /** What the option and at most one token behind it are read as. */
  lemma TwoTokens(table: seq<Row>, c: char, behind: seq<string>)
    requires ValueTable(table, c) && |behind| <= 1
    ensures Tokens(table, true, [Dash(c)] + behind) == [Dash(c)] + Tokens(table, true, behind)
    ensures Read(table, [Dash(c)] + behind, NOTHING, []) ==
            if behind == [] || OptionLike(table, behind[0]) then Err(MissingArgument([c]))
            else Ok(Plus(NOTHING, c, [StripQuotes(behind[0])]))
  {
    TokensOfDash(table, c, true, behind);
    var tokens := [Dash(c)] + behind;
    ReadValue(table, c, tokens, NOTHING);
    assert tokens[1..] == behind;
    if behind != [] {
      assert tokens[1] == behind[0] && tokens[2..] == [];
    }
  }

  /** A value that `flatten` cuts is not read alike in both places. */
  lemma CutIsNotAlike(table: seq<Row>, c: char, value: string)
    requires ValueTable(table, c) && Alone(value).Some? && FlattenOne(table, Alone(value).value) != [Alone(value).value]
    ensures WrittenOf(table, [Dash(c) + value]) != WrittenOf(table, [Dash(c), value])
  {
    var token := Alone(value).value;
    CutIsShorter(table, token);
    ReadAloneAttached(table, c, value);
    CleanTwo(c, value);
    DashesAreLeft(table);
    TokensOfDash(table, c, true, [token]);
    TokensOfOne(table, true, token, []);
    assert [token] + [] == [token];
    AttachedIsLong(table, value);
    CutIsNotRead(table, c, token, [], NOTHING, StripQuotes(value));
  }

  lemma AttachedIsLong(table: seq<Row>, value: string)
    requires Alone(value).Some? && FlattenOne(table, Alone(value).value) != [Alone(value).value]
    ensures !Dropped(value) && Cut(value) == value && !OptionLike(table, value)
            && |StripQuotes(value)| >= |Alone(value).value|
  {
    CutIsShorter(table, Alone(value).value);
  }

  // ----- with Maven's options -----

  lemma ReadsAlikeFor(table: seq<Row>, c: char, value: string)
    requires ValueTable(table, c)
    ensures WrittenOf(table, [Dash(c) + value]) == WrittenOf(table, [Dash(c), value]) <==>
            && Accept(value).Some? && !StartsWith(value, '=') && !StartsWith(value, '#')
            && FlattenOne(table, TokenOf(value)) == [TokenOf(value)]
            && (StartsWith(value, '"') ==> !OptionLike(table, TokenOf(value)))
  {
    CleanAlone(value);
    AcceptedShape(value);
    if Alone(value).Some? && FlattenOne(table, Alone(value).value) != [Alone(value).value] {
      CutIsNotAlike(table, c, value);
    } else {
      ReadAloneAttached(table, c, value);
      ReadAloneSeparate(table, c, value);
      StripNoLonger(value);
      StripNoLonger(Cut(value));
      if Alone(value).Some? {
        var one, other := [StripQuotes(Cut(value))], [StripQuotes(Alone(value).value)];
        PlusSame(NOTHING, c, one, other);
        assert one == other <==> one[0] == other[0];
      }
    }
  }

  /**
   * A file of attached `-Dvalue` lines, or of `-Pvalue` lines, gives back the values, unquoted and in
   * order, and nothing else, exactly when each is not empty, does not start with `=` and is not written
   * like one of Maven's options.
   */
  lemma AttachedFile(c: char, values: seq<string>, ends: seq<string>)
    requires IsLetter(c) && |values| == |ends| && LineEnds(ends)
    requires forall i | 0 <= i < |values| :: SingleLine(values[i])
    ensures WrittenOf(OPTIONS, JavaLines(Terminated(AttachedLines(c, values), ends))) ==
            Ok(Plus(NOTHING, c, Each(values))) <==>
            forall i | 0 <= i < |values| :: ReadAttached(OPTIONS, values[i])
  {
    OptionsTakeValues(c);
    AttachedFileFor(OPTIONS, c, values, ends);
  }

  /**
   * A file with each value on the line after its `-D` or `-P` gives back the values `CommandLine::new`
   * keeps, in order, exactly when none is empty or a comment, none is written like an option, and
   * none in front of the first `--` is cut in two.
   */
  lemma SeparateFile(c: char, values: seq<string>, ends: seq<string>)
    requires IsLetter(c) && AllAccepted(values) && |ends| == 2 * |values| && LineEnds(ends)
    ensures WrittenOf(OPTIONS, JavaLines(Terminated(SeparateLines(c, values), ends))) ==
            Ok(Plus(NOTHING, c, Each(values))) <==>
            ReadSeparate(OPTIONS, values, true)
  {
    OptionsTakeValues(c);
    SeparateFileFor(OPTIONS, c, values, ends);
  }

  /** An attached value that starts with `=` is read without it. */
  lemma LeadingEqualsIsLost()
    ensures WrittenOf(OPTIONS, ["-D=x"]) == Ok(NOTHING.(defines := ["x"]))
  {
    OptionsTakeValues('D');
    assert Dash('D') + "=x" == "-D=x" && "=x"[0] == '=' && "=x"[1..] == "x" && "x"[0] == 'x';
    ReadAloneAttached(OPTIONS, 'D', "=x");
    assert [] + ["x"] == ["x"];
  }

  /** A value that starts with `#`, on its own line, is a comment, and the `-D` before it has no value. */
  lemma CommentIsNoValue()
    ensures Accept("#x").Some? && WrittenOf(OPTIONS, ["-D", "#x"]) == Err(MissingArgument("D"))
  {
    OptionsTakeValues('D');
    assert "#x"[0] == '#' && Dash('D') == "-D" && ['D'] == "D";
    AcceptedShape("#x");
    ReadAloneSeparate(OPTIONS, 'D', "#x");
  }

  /**
   * Maven reads a value alike in both places exactly when `CommandLine::new` accepts it, it starts
   * with neither `=` nor `#`, and its token is left whole and, if it was quoted, is no option.
   */
  lemma ReadsAlikeExactly(c: char, value: string)
    requires IsLetter(c)
    ensures WrittenOf(OPTIONS, [Dash(c) + value]) == WrittenOf(OPTIONS, [Dash(c), value]) <==>
            && Accept(value).Some? && !StartsWith(value, '=') && !StartsWith(value, '#')
            && FlattenOne(OPTIONS, TokenOf(value)) == [TokenOf(value)]
            && (StartsWith(value, '"') ==> !OptionLike(OPTIONS, TokenOf(value)))
  {
    OptionsTakeValues(c);
    ReadsAlikeFor(OPTIONS, c, value);
  }
}
