/**
 * `.mvn/maven.config` read as Maven reads it (`rv-config/src/maven_config.rs`): lines, quote
 * joining, flattening of attached values, and the option table. Expanding `${...}` in the values
 * comes after and is not part of this model.
 */
module MavenConfig {
  import opened Prelude

  datatype Error =
    | UnrecognizedEntries(entries: seq<string>)
    | UnrecognizedOption(token: string)
    | MissingArgument(name: string)
    | UnsupportedOption
    | ProjectFile
    | BrokenQuote

  predicate StartsWith(text: string, c: char) {
    text != "" && text[0] == c
  }

  predicate EndsWith(text: string, c: char) {
    text != "" && text[|text| - 1] == c
  }

  // ----- options -----

  datatype Row = Row(short: Option<string>, long: Option<string>, takesValue: bool, valueOptional: bool)

  function Both(short: string, long: string, takesValue: bool): Row {
    Row(Some(short), Some(long), takesValue, false)
  }

  const OPTIONS_1: seq<Row> := [
    Both("h", "help", false), Both("f", "file", true), Both("D", "define", true), Both("o", "offline", false),
    Both("v", "version", false), Both("q", "quiet", false)]
  const OPTIONS_2: seq<Row> := [
    Both("X", "debug", false), Both("e", "errors", false), Both("N", "non-recursive", false),
    Both("U", "update-snapshots", false), Both("P", "activate-profiles", true), Both("B", "batch-mode", false)]
  const OPTIONS_3: seq<Row> := [
    Both("nsu", "no-snapshot-updates", false), Both("C", "strict-checksums", false), Both("c", "lax-checksums", false),
    Both("s", "settings", true), Both("gs", "global-settings", true), Both("t", "toolchains", true)]
  const OPTIONS_4: seq<Row> := [
    Both("gt", "global-toolchains", true), Both("ff", "fail-fast", false), Both("fae", "fail-at-end", false),
    Both("fn", "fail-never", false), Both("rf", "resume-from", true), Both("pl", "projects", true)]
  const OPTIONS_5: seq<Row> := [
    Both("am", "also-make", false), Both("amd", "also-make-dependents", false), Both("l", "log-file", true),
    Both("V", "show-version", false), Row(Some("emp"), Some("encrypt-master-password"), true, true),
    Row(Some("ep"), Some("encrypt-password"), true, true)]
  const OPTIONS_6: seq<Row> := [
    Both("T", "threads", true), Both("b", "builder", true), Both("ntp", "no-transfer-progress", false),
    Both("itr", "ignore-transitive-repositories", false), Both("npr", "no-plugin-registry", false),
    Both("cpu", "check-plugin-updates", false)]
  const OPTIONS_7: seq<Row> := [
    Both("up", "update-plugins", false), Both("npu", "no-plugin-updates", false),
    Both("llr", "legacy-local-repository", false), Row(None, Some("raw-streams"), false, false),
    Row(None, Some("color"), true, true)]

  /** Every option of Maven 3.9.11, in the order of its table. */
  const OPTIONS: seq<Row> := OPTIONS_1 + (OPTIONS_2 + (OPTIONS_3 + (OPTIONS_4 + (OPTIONS_5 + (OPTIONS_6 + OPTIONS_7)))))

  function FindShort(rows: seq<Row>, name: string): Option<Row> {
    if rows == [] then None else if rows[0].short == Some(name) then Some(rows[0]) else FindShort(rows[1..], name)
  }

  function FindLong(rows: seq<Row>, name: string): Option<Row> {
    if rows == [] then None else if rows[0].long == Some(name) then Some(rows[0]) else FindLong(rows[1..], name)
  }

  function StripDashes(token: string): string {
    if "--" <= token then token[2..] else if "-" <= token then token[1..] else token
  }

  /** `option`: the short names are tried before the long ones. */
  function FindOption(table: seq<Row>, token: string): Option<Row> {
    var name := StripDashes(token);
    var short := FindShort(table, name);
    if short.Some? then short else FindLong(table, name)
  }

  function OptionName(row: Row): string {
    if row.short.Some? then row.short.value else if row.long.Some? then row.long.value else ""
  }

  // ----- lines -----

  predicate Eol(c: char) {
    c == '\n' || c == '\r'
  }

  predicate SingleLine(text: string) {
    forall i | 0 <= i < |text| :: !Eol(text[i])
  }

  function FindEol(text: string): (at: Option<nat>)
    ensures at.Some? ==> at.value < |text| && Eol(text[at.value]) && forall k | 0 <= k < at.value :: !Eol(text[k])
    ensures at.None? ==> SingleLine(text)
  {
    if text == "" then None
    else if Eol(text[0]) then Some(0)
    else match FindEol(text[1..])
      case None => None
      case Some(at) => Some(at + 1)
  }

  /** What follows the line that ends at `at`. */
  function AfterEol(text: string, at: nat): (tail: string)
    requires at < |text|
    ensures |tail| < |text|
  {
    if text[at] == '\r' && at + 1 < |text| && text[at + 1] == '\n' then text[at + 2..] else text[at + 1..]
  }

  function JavaLines(text: string): seq<string>
    decreases |text|
  {
    match FindEol(text)
    case None => [text]
    case Some(at) =>
      var tail := AfterEol(text, at);
      [text[..at]] + if tail == "" then [] else JavaLines(tail)
  }

  /** What an iterator over the lines has still to give. */
  function LinesLeft(rest: Option<string>): seq<string> {
    if rest.Some? then JavaLines(rest.value) else []
  }

  function RestAfter(text: string): Option<string> {
    match FindEol(text)
    case None => None
    case Some(at) => if AfterEol(text, at) == "" then None else Some(AfterEol(text, at))
  }

  lemma LinesAfterFirst(lines: seq<string>, text: string)
    ensures var first := if FindEol(text).None? then text else text[..FindEol(text).value];
            lines + JavaLines(text) == lines + [first] + LinesLeft(RestAfter(text))
  {
  }

  /** `java_lines`, collected, with the iterator's `rest`. */
  method ReadLines(content: string) returns (lines: seq<string>)
    ensures lines == JavaLines(content)
  {
    lines := [];
    var rest := Some(content);
    while rest.Some?
      invariant JavaLines(content) == lines + LinesLeft(rest)
      decreases if rest.Some? then |rest.value| + 1 else 0
    {
      var text := rest.value;
      var end := FindEol(text);
      LinesAfterFirst(lines, text);
      if end.None? {
        rest := None;
        lines := lines + [text];
      } else {
        var tail := AfterEol(text, end.value);
        rest := if tail == "" then None else Some(tail);
        lines := lines + [text[..end.value]];
      }
    }
  }

  predicate Dropped(line: string) {
    line == "" || line[0] == '#'
  }

  function Kept(lines: seq<string>): seq<string> {
    if lines == [] then [] else (if Dropped(lines[0]) then [] else [lines[0]]) + Kept(lines[1..])
  }

  // ----- quotes -----

  /** `clean_args` from an open buffer on; `None` for a lone `"`. */
  function Clean(args: seq<string>, current: Option<string>): Option<seq<string>>
    decreases |args|
  {
    if args == [] then Some(if current.Some? then [current.value] else [])
    else
      var arg := args[0];
      if StartsWith(arg, '"') then
        var closed := if current.Some? then [current.value] else [];
        if EndsWith(arg, '"') then
          if |arg| == 1 then None else Prepend(closed + [arg[1..|arg| - 1]], Clean(args[1..], None))
        else Prepend(closed, Clean(args[1..], Some(arg[1..])))
      else if current.Some? then Clean(args[1..], Some(current.value + " " + arg))
      else Prepend([arg], Clean(args[1..], None))
  }

  function Prepend(first: seq<string>, rest: Option<seq<string>>): Option<seq<string>> {
    if rest.None? then None else Some(first + rest.value)
  }

  lemma PrependTwice(first: seq<string>, second: seq<string>, rest: Option<seq<string>>)
    ensures Prepend(first, Prepend(second, rest)) == Prepend(first + second, rest)
    ensures Prepend([], rest) == rest
  {
    if rest.Some? {
      assert first + (second + rest.value) == first + second + rest.value;
      assert [] + rest.value == rest.value;
    }
  }

  /** `clean_args` */
  method CleanArgs(args: seq<string>) returns (cleaned: Option<seq<string>>)
    ensures cleaned == Clean(args, None)
  {
    var out: seq<string> := [];
    var current: Option<string> := None;
    PrependTwice([], [], Clean(args, None));
    assert args[0..] == args;
    for i := 0 to |args|
      invariant Clean(args, None) == Prepend(out, Clean(args[i..], current))
    {
      var arg := args[i];
      assert args[i..][1..] == args[i + 1..];
      ghost var closed := if current.Some? then [current.value] else [];
      if StartsWith(arg, '"') {
        PrependTwice(out, closed, Clean(args[i + 1..], Some(arg[1..])));
        PrependTwice(out, closed + [arg[1..|arg| - if |arg| > 1 then 1 else 0]], Clean(args[i + 1..], None));
        ghost var before := out;
        if current.Some? {
          out := out + [current.value];
        }
        assert out == before + closed;
        current := Some(arg[1..]);
        if EndsWith(arg, '"') {
          var buffer := current.value;
          current := None;
          if buffer == "" {
            return None;
          }
          out := out + [buffer[..|buffer| - 1]];
          assert buffer[..|buffer| - 1] == arg[1..|arg| - 1];
          assert out == before + (closed + [arg[1..|arg| - 1]]);
        }
      } else if current.Some? {
        current := Some(current.value + " " + arg);
      } else {
        PrependTwice(out, [arg], Clean(args[i + 1..], None));
        out := out + [arg];
      }
    }
    assert args[|args|..] == [] && out + [] == out;
    return Some(if current.Some? then out + [current.value] else out);
  }

  /** `strip_quotes` */
  function StripQuotes(value: string): string {
    if |value| >= 2 && value[0] == '"' && value[|value| - 1] == '"' && FindChar(value[1..|value| - 1], '"').None?
    then value[1..|value| - 1] else value
  }

  // ----- flattening -----

  function FlattenOne(table: seq<Row>, arg: string): seq<string> {
    if arg == "-" || !StartsWith(arg, '-') || FindOption(table, arg).Some? then [arg]
    else
      var name := StripDashes(arg);
      var equals := FindChar(name, '=');
      if equals.Some? && FindOption(table, name[..equals.value]).Some? then
        var split := FindChar(arg, '=');
        if split.Some? then [arg[..split.value], arg[split.value + 1..]] else [arg, ""]
      else if |arg| >= 2 && FindOption(table, arg[..2]).Some? then [arg[..2], arg[2..]]
      else [arg]
  }

  function Flatten(table: seq<Row>, args: seq<string>): seq<string> {
    if args == [] then [] else if args[0] == "--" then args else FlattenOne(table, args[0]) + Flatten(table, args[1..])
  }

  /** `done` is what the arguments before the `i`th give. */
  ghost predicate FlattenedTo(table: seq<Row>, args: seq<string>, i: nat, done: seq<string>)
    requires i <= |args|
  {
    Flatten(table, args) == done + Flatten(table, args[i..])
  }

  lemma FlattenStep(table: seq<Row>, args: seq<string>, i: nat, done: seq<string>)
    requires i < |args| && FlattenedTo(table, args, i, done)
    ensures args[i] == "--" ==> Flatten(table, args) == done + args[i..]
    ensures args[i] != "--" ==> FlattenedTo(table, args, i + 1, done + FlattenOne(table, args[i]))
  {
    var left := args[i..];
    assert left[0] == args[i] && left[1..] == args[i + 1..];
    Regroup(done, FlattenOne(table, args[i]), Flatten(table, args[i + 1..]));
  }

  lemma FlattenEnds(table: seq<Row>, args: seq<string>, done: seq<string>)
    ensures FlattenedTo(table, args, 0, [])
    ensures FlattenedTo(table, args, |args|, done) ==> done == Flatten(table, args)
  {
    assert args[0..] == args && args[|args|..] == [];
    assert done + [] == done;
  }

  method FlattenArgs(table: seq<Row>, args: seq<string>) returns (tokens: seq<string>)
    ensures tokens == Flatten(table, args)
  {
    tokens := [];
    FlattenEnds(table, args, []);
    for i := 0 to |args|
      invariant FlattenedTo(table, args, i, tokens)
    {
      FlattenStep(table, args, i, tokens);
      if args[i] == "--" {
        return tokens + args[i..];
      }
      tokens := tokens + FlattenOne(table, args[i]);
    }
    FlattenEnds(table, args, tokens);
  }

  // ----- reading the tokens -----

  datatype Written = Written(defines: seq<string>, profiles: seq<string>, settings: bool, globalSettings: bool,
                             selection: seq<string>)

  function NotDashes(tokens: seq<string>): seq<string> {
    if tokens == [] then [] else (if tokens[0] == "--" then [] else [tokens[0]]) + NotDashes(tokens[1..])
  }

  function Finish(written: Written, entries: seq<string>): Result<Written, Error> {
    if entries == [] then Ok(written) else Err(UnrecognizedEntries(entries))
  }

  function Selected(written: Written, name: string): Written {
    if name in ["pl", "am", "amd"] && "-" + name !in written.selection
    then written.(selection := written.selection + ["-" + name]) else written
  }

  function Take(written: Written, name: string, value: string): Written {
    if name == "D" then written.(defines := written.defines + [value])
    else if name == "P" then written.(profiles := written.profiles + [value])
    else if name == "s" then written.(settings := true)
    else if name == "gs" then written.(globalSettings := true)
    else written
  }

  predicate HasValue(table: seq<Row>, tokens: seq<string>) {
    tokens != [] && !(StartsWith(tokens[0], '-') && FindOption(table, tokens[0]).Some?)
  }

  function Read(table: seq<Row>, tokens: seq<string>, written: Written, entries: seq<string>): Result<Written, Error>
    decreases |tokens|
  {
    if tokens == [] then Finish(written, entries)
    else
      var token, rest := tokens[0], tokens[1..];
      if token == "--" then Finish(written, entries + NotDashes(rest))
      else if token == "-" || !StartsWith(token, '-') then Read(table, rest, written, entries + [token])
      else match FindOption(table, token)
        case None => Err(UnrecognizedOption(token))
        case Some(row) =>
          var name := OptionName(row);
          if name == "llr" then Err(UnsupportedOption)
          else if name == "f" then Err(ProjectFile)
          else
            var selected := Selected(written, name);
            if !row.takesValue then Read(table, rest, selected, entries)
            else if HasValue(table, rest) then Read(table, rest[1..], Take(selected, name, StripQuotes(rest[0])),
                                                    entries)
            else if row.valueOptional then Read(table, rest, selected, entries)
            else Err(MissingArgument(name))
  }

  const NOTHING: Written := Written([], [], false, false, [])

  function WrittenOf(table: seq<Row>, lines: seq<string>): Result<Written, Error> {
    match Clean(Kept(lines), None)
    case None => Err(BrokenQuote)
    case Some(args) => Read(table, Flatten(table, args), NOTHING, [])
  }

  /** `written_values` */
  method WrittenValues(content: string) returns (r: Result<Written, Error>)
    ensures r == WrittenOf(OPTIONS, JavaLines(content))
  {
    var lines := ReadLines(content);
    var args := CleanArgs(Kept(lines));
    if args.None? {
      return Err(BrokenQuote);
    }
    var tokens := FlattenArgs(OPTIONS, args.value);
    r := ReadTokens(OPTIONS, tokens);
  }

  method ReadTokens(table: seq<Row>, tokens: seq<string>) returns (r: Result<Written, Error>)
    ensures r == Read(table, tokens, NOTHING, [])
  {
    var written, entries: seq<string> := NOTHING, [];
    var i := 0;
    while i < |tokens|
      invariant i <= |tokens|
      invariant Read(table, tokens, NOTHING, []) == Read(table, tokens[i..], written, entries)
    {
      var token := tokens[i];
      assert tokens[i..][1..] == tokens[i + 1..];
      i := i + 1;
      if token == "--" {
        return Finish(written, entries + NotDashes(tokens[i..]));
      }
      if token == "-" || !StartsWith(token, '-') {
        entries := entries + [token];
        continue;
      }
      var option := FindOption(table, token);
      if option.None? {
        return Err(UnrecognizedOption(token));
      }
      var name := OptionName(option.value);
      if name == "llr" {
        return Err(UnsupportedOption);
      }
      if name == "f" {
        return Err(ProjectFile);
      }
      written := Selected(written, name);
      if !option.value.takesValue {
        continue;
      }
      if HasValue(table, tokens[i..]) {
        assert tokens[i..][1..] == tokens[i + 1..];
        written := Take(written, name, StripQuotes(tokens[i]));
        i := i + 1;
      } else if !option.value.valueOptional {
        return Err(MissingArgument(name));
      }
    }
    return Finish(written, entries);
  }

  /** What `CommandLine::new` makes of one value: `None` when Maven reads it two ways. */
  function Accept(value: string): Option<string> {
    match Clean([value], None)
    case None => None
    case Some(args) =>
      if |args| == 1 && StripQuotes(args[0]) == StripQuotes(value) then Some(StripQuotes(value)) else None
  }
}
