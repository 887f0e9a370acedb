/**
 * What the stages of reading `.mvn/maven.config` mean (`rv-config/src/maven_config.rs`): how quoted
 * lines are joined, and what the tokens say, in terms of their parts.
 */
module MavenReading {
  import opened Prelude
  import opened MavenConfig

  // ----- quotes -----

  /** Arguments that belong together: one by itself, one in quotes, or an open quote with those behind it. */
  datatype Group = Whole(arg: string) | Quoted(text: string) | Open(first: string, more: seq<string>)

  function GroupArgs(group: Group): (args: seq<string>)
    ensures args != []
  {
    match group
    case Whole(arg) => [arg]
    case Quoted(text) => ["\"" + text + "\""]
    case Open(first, more) => ["\"" + first] + more
  }

  function Spaced(first: string, more: seq<string>): string
    decreases |more|
  {
    if more == [] then first else Spaced(first + " " + more[0], more[1..])
  }

  /** What the group stands for: an open quote takes the arguments behind it, with spaces between. */
  function GroupText(group: Group): string {
    match group
    case Whole(arg) => arg
    case Quoted(text) => text
    case Open(first, more) => Spaced(first, more)
  }

  predicate NoneQuoted(args: seq<string>) {
    forall i | 0 <= i < |args| :: !StartsWith(args[i], '"')
  }

  predicate GroupOk(group: Group) {
    match group
    case Whole(arg) => !StartsWith(arg, '"')
    case Quoted(_) => true
    case Open(first, more) => first != "" && !EndsWith(first, '"') && NoneQuoted(more)
  }

  /** The arguments are those of the groups, and an open quote reaches up to the next quote. */
  predicate Grouped(args: seq<string>, groups: seq<Group>)
    decreases |groups|
  {
    if groups == [] then args == []
    else
      var own := GroupArgs(groups[0]);
      && own <= args && GroupOk(groups[0])
      && (groups[0].Open? && |groups| > 1 ==> !groups[1].Whole?)
      && Grouped(args[|own|..], groups[1..])
  }

  function Texts(groups: seq<Group>): seq<string> {
    if groups == [] then [] else [GroupText(groups[0])] + Texts(groups[1..])
  }

  lemma {:induction false} CleanOpen(buffer: string, more: seq<string>, rest: seq<string>)
    requires NoneQuoted(more)
    ensures Clean(more + rest, Some(buffer)) == Clean(rest, Some(Spaced(buffer, more)))
    decreases |more|
  {
    if more == [] {
      assert more + rest == rest;
    } else {
      assert (more + rest)[0] == more[0] && (more + rest)[1..] == more[1..] + rest;
      CleanOpen(buffer + " " + more[0], more[1..], rest);
    }
  }

  /** The open buffer is closed by the end of the arguments or by the next quote. */
  lemma CleanClosed(buffer: string, args: seq<string>)
    requires args == [] || StartsWith(args[0], '"')
    ensures Clean(args, Some(buffer)) == Prepend([buffer], Clean(args, None))
  {
    if args != [] {
      var arg := args[0];
      if EndsWith(arg, '"') {
        if |arg| > 1 {
          PrependTwice([buffer], [arg[1..|arg| - 1]], Clean(args[1..], None));
          assert [] + [arg[1..|arg| - 1]] == [arg[1..|arg| - 1]];
        }
      } else {
        PrependTwice([buffer], [], Clean(args[1..], Some(arg[1..])));
      }
    } else {
      assert [buffer] + [] == [buffer];
    }
  }

  lemma NextIsQuoted(args: seq<string>, groups: seq<Group>)
    requires Grouped(args, groups) && (groups != [] ==> !groups[0].Whole?)
    ensures args == [] || StartsWith(args[0], '"')
  {
    if groups != [] {
      assert args[0] == GroupArgs(groups[0])[0];
    }
  }

  /** `clean_args` gives the texts of the groups. */
  lemma {:induction false} CleanMeans(args: seq<string>, groups: seq<Group>)
    requires Grouped(args, groups)
    ensures Clean(args, None) == Some(Texts(groups))
    decreases |groups|
  {
    if groups != [] {
      var group, own := groups[0], GroupArgs(groups[0]);
      var rest := args[|own|..];
      assert args == own + rest;
      CleanMeans(rest, groups[1..]);
      match group
      case Whole(arg) => assert args[0] == arg && args[1..] == rest;
      case Quoted(text) => CleanQuoted(text, rest);
      case Open(first, more) =>
        NextIsQuoted(rest, groups[1..]);
        CleanStarts(first, more, rest);
    }
  }

  lemma CleanQuoted(text: string, rest: seq<string>)
    ensures Clean(["\"" + text + "\""] + rest, None) == Prepend([text], Clean(rest, None))
  {
    var arg := "\"" + text + "\"";
    var args := [arg] + rest;
    assert args[0] == arg && args[1..] == rest && arg[1..|arg| - 1] == text;
    assert [] + [text] == [text];
  }

  lemma CleanStarts(first: string, more: seq<string>, rest: seq<string>)
    requires first != "" && !EndsWith(first, '"') && NoneQuoted(more) && (rest == [] || StartsWith(rest[0], '"'))
    ensures Clean(["\"" + first] + more + rest, None) == Prepend([Spaced(first, more)], Clean(rest, None))
  {
    var arg := "\"" + first;
    var args := [arg] + more + rest;
    assert args[0] == arg && args[1..] == more + rest && arg[1..] == first && arg[|arg| - 1] == first[|first| - 1];
    CleanOpen(first, more, rest);
    CleanClosed(Spaced(first, more), rest);
    PrependTwice([], [], Clean(more + rest, Some(first)));
  }

  /** How many arguments from the start do not start a quote. */
  function Unquoted(args: seq<string>): (n: nat)
    ensures n <= |args| && NoneQuoted(args[..n]) && (n < |args| ==> StartsWith(args[n], '"'))
  {
    if args == [] || StartsWith(args[0], '"') then 0
    else
      var n := 1 + Unquoted(args[1..]);
      assert forall i | 0 < i < n :: args[..n][i] == args[1..][..n - 1][i - 1];
      n
  }

  /** Arguments fall into groups unless one of them is a quote by itself. */
  lemma {:induction false} GroupsExist(args: seq<string>) returns (groups: seq<Group>)
    requires forall i | 0 <= i < |args| :: args[i] != "\""
    ensures Grouped(args, groups)
    decreases |args|
  {
    if args == [] {
      groups := [];
    } else {
      var group := FirstGroup(args);
      var own := GroupArgs(group);
      var later := GroupsExist(args[|own|..]);
      groups := [group] + later;
      if group.Open? && later != [] {
        assert GroupArgs(later[0])[0] == args[|own|..][0] == args[|own|];
      }
      assert groups[1..] == later;
    }
  }

  lemma FirstGroup(args: seq<string>) returns (group: Group)
    requires args != [] && args[0] != "\""
    ensures GroupOk(group) && GroupArgs(group) <= args
    ensures group.Open? && |GroupArgs(group)| < |args| ==> StartsWith(args[|GroupArgs(group)|], '"')
  {
    var arg := args[0];
    if !StartsWith(arg, '"') {
      group := Whole(arg);
    } else if EndsWith(arg, '"') {
      var text := arg[1..|arg| - 1];
      assert arg == "\"" + text + "\"";
      group := Quoted(text);
    } else {
      var n := Unquoted(args[1..]);
      var more := args[1..][..n];
      assert arg == "\"" + arg[1..] && ["\"" + arg[1..]] + more == args[..n + 1];
      assert n + 1 < |args| ==> args[1..][n] == args[n + 1];
      group := Open(arg[1..], more);
    }
  }

  /** A quote by itself is refused, whatever stands around it. */
  lemma {:induction false} LoneQuoteFails(args: seq<string>, current: Option<string>, i: nat)
    requires i < |args| && args[i] == "\""
    ensures Clean(args, current).None?
    decreases |args|
  {
    assert "\""[0] == '"';
    if i > 0 {
      forall next: Option<string> ensures Clean(args[1..], next).None? {
        assert args[1..][i - 1] == args[i];
        LoneQuoteFails(args[1..], next, i - 1);
      }
    }
  }

  /** `clean_args` for all arguments: it fails exactly for a quote by itself, and otherwise joins the groups. */
  lemma CleanExactly(args: seq<string>)
    ensures Clean(args, None).None? <==> exists i | 0 <= i < |args| :: args[i] == "\""
    ensures forall groups | Grouped(args, groups) :: Clean(args, None) == Some(Texts(groups))
    ensures Clean(args, None).Some? ==> exists groups :: Grouped(args, groups)
  {
    if i :| 0 <= i < |args| && args[i] == "\"" {
      LoneQuoteFails(args, None, i);
    } else {
      var groups := GroupsExist(args);
      CleanMeans(args, groups);
    }
    forall groups | Grouped(args, groups) ensures Clean(args, None) == Some(Texts(groups)) {
      CleanMeans(args, groups);
    }
  }

  // ----- options, values and entries -----

  /** An option with the value it takes, or an argument that is no option. */
  datatype Item = Use(token: string, value: Option<string>) | Entry(token: string)

  /** Where reading the items ends: with the tokens, at a `--`, or at an option it refuses. */
  datatype End = Over | Dashes(rest: seq<string>) | Bad(token: string, rest: seq<string>)

  function ItemTokens(item: Item): (tokens: seq<string>)
    ensures tokens != []
  {
    match item
    case Use(token, value) => [token] + if value.Some? then [value.value] else []
    case Entry(token) => [token]
  }

  function EndTokens(end: End): seq<string> {
    match end
    case Over => []
    case Dashes(rest) => ["--"] + rest
    case Bad(token, rest) => [token] + rest
  }

  predicate DashToken(token: string) {
    StartsWith(token, '-') && token != "-" && token != "--"
  }

  function NameOf(table: seq<Row>, token: string): string {
    var row := FindOption(table, token);
    if row.Some? then OptionName(row.value) else ""
  }

  /** An option takes the token behind it unless it takes none or that is an option itself. */
  predicate ItemOk(table: seq<Row>, item: Item, rest: seq<string>) {
    match item
    case Entry(token) => token == "-" || !StartsWith(token, '-')
    case Use(token, value) =>
      && DashToken(token) && FindOption(table, token).Some?
      && NameOf(table, token) != "llr" && NameOf(table, token) != "f"
      && var row := FindOption(table, token).value;
         if value.Some? then row.takesValue && HasValue(table, [value.value])
         else !row.takesValue || (row.valueOptional && !HasValue(table, rest))
  }

  predicate EndOk(table: seq<Row>, end: End) {
    end.Bad? ==>
      && DashToken(end.token)
      && (|| FindOption(table, end.token).None?
          || NameOf(table, end.token) == "llr" || NameOf(table, end.token) == "f"
          || (var row := FindOption(table, end.token).value;
              row.takesValue && !row.valueOptional && !HasValue(table, end.rest)))
  }

  predicate Parsed(table: seq<Row>, tokens: seq<string>, items: seq<Item>, end: End)
    decreases |items|
  {
    if items == [] then tokens == EndTokens(end) && EndOk(table, end)
    else
      var own := ItemTokens(items[0]);
      && own <= tokens && ItemOk(table, items[0], tokens[|own|..])
      && Parsed(table, tokens[|own|..], items[1..], end)
  }

  /** The values of one option, unquoted, in the order they are given. */
  function ValuesOf(table: seq<Row>, items: seq<Item>, name: string): seq<string> {
    if items == [] then []
    else
      var last := items[|items| - 1];
      ValuesOf(table, items[..|items| - 1], name) +
      if last.Use? && last.value.Some? && NameOf(table, last.token) == name then [StripQuotes(last.value.value)] else []
  }

  function EntriesOf(items: seq<Item>): seq<string> {
    if items == [] then []
    else
      var last := items[|items| - 1];
      EntriesOf(items[..|items| - 1]) + if last.Entry? then [last.token] else []
  }

  /** The option is used, with a value if one is asked for. */
  ghost predicate Given(table: seq<Row>, items: seq<Item>, name: string, valued: bool) {
    exists i | 0 <= i < |items| :: IsUse(table, items[i], name, valued)
  }

  predicate IsUse(table: seq<Row>, item: Item, name: string, valued: bool) {
    item.Use? && NameOf(table, item.token) == name && (valued ==> item.value.Some?)
  }

  const SELECTION: seq<string> := ["pl", "am", "amd"]

  /** The selection options that are used, each once, in the order of their first use. */
  ghost predicate SelectionIs(table: seq<Row>, items: seq<Item>, selection: seq<string>) {
    && (forall option :: option in selection <==> IsSelected(table, items, option))
    && (forall a, b | 0 <= a < b < |selection| :: Before(table, items, selection[a], selection[b]))
  }

  /** The option written `a` is used before any use of the one written `b`. */
  ghost predicate Before(table: seq<Row>, items: seq<Item>, a: string, b: string) {
    a != b && exists i | 0 <= i < |items| ::
      UsedAs(table, items[i], a) && forall j | 0 <= j <= i :: !UsedAs(table, items[j], b)
  }

  predicate UsedAs(table: seq<Row>, item: Item, written: string) {
    item.Use? && "-" + NameOf(table, item.token) == written
  }

  /** What was written, in terms of the items. */
  ghost predicate IsSummary(table: seq<Row>, items: seq<Item>, written: Written) {
    && written.defines == ValuesOf(table, items, "D") && written.profiles == ValuesOf(table, items, "P")
    && (written.settings <==> Given(table, items, "s", true))
    && (written.globalSettings <==> Given(table, items, "gs", true))
    && SelectionIs(table, items, written.selection)
  }

  function BadError(table: seq<Row>, end: End): Error
    requires end.Bad?
  {
    var name := NameOf(table, end.token);
    if FindOption(table, end.token).None? then UnrecognizedOption(end.token)
    else if name == "llr" then UnsupportedOption
    else if name == "f" then ProjectFile
    else MissingArgument(name)
  }

  // ----- behind a `--` -----

  /** The places `at` of `tokens`, in order, are those of tokens other than `--`. */
  ghost predicate OtherPlaces(tokens: seq<string>, at: seq<nat>) {
    && (forall i | 0 <= i < |at| :: at[i] < |tokens| && tokens[at[i]] != "--")
    && (forall i, j | 0 <= i < j < |at| :: at[i] < at[j])
    && (forall k: nat | k < |tokens| && tokens[k] != "--" :: k in at)
  }

  function Later(at: seq<nat>): (later: seq<nat>)
    ensures |later| == |at| && forall i | 0 <= i < |at| :: later[i] == at[i] + 1
  {
    seq(|at|, i requires 0 <= i < |at| => at[i] + 1)
  }

  lemma PlacesMore(token: string, rest: seq<string>, at: seq<nat>)
    requires OtherPlaces(rest, at)
    ensures OtherPlaces([token] + rest, if token == "--" then Later(at) else [0] + Later(at))
  {
    var tokens, later := [token] + rest, Later(at);
    forall k: nat | k < |tokens| && tokens[k] != "--" ensures k == 0 || k in later {
      if k > 0 {
        var i :| 0 <= i < |at| && at[i] == k - 1;
        assert later[i] == k;
      }
    }
  }

  /** The tokens at the places `at`. */
  ghost predicate TakenAt(tokens: seq<string>, at: seq<nat>, taken: seq<string>) {
    |taken| == |at| && forall i | 0 <= i < |at| :: at[i] < |tokens| && taken[i] == tokens[at[i]]
  }

  lemma TakenMore(token: string, rest: seq<string>, at: seq<nat>, taken: seq<string>)
    requires TakenAt(rest, at, taken)
    ensures TakenAt([token] + rest, Later(at), taken) && TakenAt([token] + rest, [0] + Later(at), [token] + taken)
  {
  }

  lemma NotDashesMore(tokens: seq<string>)
    requires tokens != []
    ensures var rest := NotDashes(tokens[1..]);
            NotDashes(tokens) == if tokens[0] == "--" then rest else [tokens[0]] + rest
  {
    assert [] + NotDashes(tokens[1..]) == NotDashes(tokens[1..]);
  }

  lemma PickedMore(tokens: seq<string>, places: seq<nat>, taken: seq<string>) returns (at: seq<nat>)
    requires tokens != [] && OtherPlaces(tokens[1..], places) && TakenAt(tokens[1..], places, taken)
    ensures OtherPlaces(tokens, at) && TakenAt(tokens, at, if tokens[0] == "--" then taken else [tokens[0]] + taken)
  {
    PlacesMore(tokens[0], tokens[1..], places);
    TakenMore(tokens[0], tokens[1..], places, taken);
    HeadAndRest(tokens);
    at := if tokens[0] == "--" then Later(places) else [0] + Later(places);
  }

  /** Of the tokens behind a `--` all but further `--` are taken, in order. */
  lemma {:induction false} NotDashesAre(tokens: seq<string>) returns (at: seq<nat>)
    ensures OtherPlaces(tokens, at) && TakenAt(tokens, at, NotDashes(tokens))
  {
    if tokens == [] {
      at := [];
    } else {
      var places := NotDashesAre(tokens[1..]);
      NotDashesMore(tokens);
      at := PickedMore(tokens, places, NotDashes(tokens[1..]));
    }
  }

  // ----- attached values -----

  /** `opt` is what stands in front of the first `=`, and `value` what stands behind it. */
  predicate AtEquals(arg: string, opt: string, value: string) {
    arg == opt + "=" + value && '=' !in opt
  }

  ghost predicate NamesOption(table: seq<Row>, arg: string) {
    exists opt, value :: AtEquals(arg, opt, value) && FindOption(table, StripDashes(opt)).Some?
  }

  /** `arg` is no option of the table but one with a value behind a `=` or, failing that, behind its letter. */
  ghost predicate IsCut(table: seq<Row>, arg: string, opt: string, value: string) {
    && DashToken(arg) && FindOption(table, arg).None?
    && if NamesOption(table, arg) then AtEquals(arg, opt, value)
       else |opt| == 2 && arg == opt + value && FindOption(table, opt).Some?
  }

  lemma FirstEquals(arg: string, opt: string, value: string)
    requires AtEquals(arg, opt, value)
    ensures FindChar(arg, '=') == Some(|opt|) && arg[..|opt|] == opt && arg[|opt| + 1..] == value
  {
    assert arg[|opt|] == '=' && forall k | 0 <= k < |opt| :: arg[k] == opt[k];
  }

  lemma StrippedEquals(arg: string, opt: string, value: string)
    requires AtEquals(arg, opt, value)
    ensures AtEquals(StripDashes(arg), StripDashes(opt), value)
  {
    assert forall k | 0 <= k < |opt| :: arg[k] == opt[k];
    assert arg[|opt|] == '=';
    var cut := |opt| - |StripDashes(opt)|;
    assert StripDashes(opt) == opt[cut..];
    assert StripDashes(arg) == arg[cut..];
    assert arg[cut..] == opt[cut..] + "=" + value;
  }

  /** The text up to the first `=` names an option exactly when the text without its dashes has one there. */
  lemma NamedByName(table: seq<Row>, arg: string, at: nat)
    requires FindChar(arg, '=') == Some(at)
    ensures var name := StripDashes(arg); var equals := FindChar(name, '=');
            && equals.Some? && AtEquals(arg, arg[..at], arg[at + 1..])
            && (NamesOption(table, arg) <==> FindOption(table, name[..equals.value]).Some?)
  {
    var opt, value := arg[..at], arg[at + 1..];
    assert AtEquals(arg, opt, value);
    StrippedEquals(arg, opt, value);
    FirstEquals(StripDashes(arg), StripDashes(opt), value);
    forall o, v | AtEquals(arg, o, v) ensures o == opt {
      FirstEquals(arg, o, v);
    }
  }

  lemma NoEquals(table: seq<Row>, arg: string)
    requires FindChar(arg, '=').None?
    ensures FindChar(StripDashes(arg), '=').None? && !NamesOption(table, arg)
  {
    forall k | 0 <= k < |StripDashes(arg)| ensures StripDashes(arg)[k] != '=' {
      assert StripDashes(arg)[k] == arg[|arg| - |StripDashes(arg)| + k];
    }
    forall o, v | AtEquals(arg, o, v) ensures false {
      FirstEquals(arg, o, v);
    }
  }

  lemma CutAtEquals(table: seq<Row>, arg: string, opt: string, value: string)
    requires DashToken(arg) && FindOption(table, arg).None? && NamesOption(table, arg)
    ensures FlattenOne(table, arg) == [opt, value] <==> AtEquals(arg, opt, value)
    ensures |FlattenOne(table, arg)| == 2
  {
    if FindChar(arg, '=').None? {
      NoEquals(table, arg);
    }
    var at := FindChar(arg, '=').value;
    NamedByName(table, arg, at);
    if AtEquals(arg, opt, value) {
      FirstEquals(arg, opt, value);
    }
  }

  lemma SplitAtTwo(arg: string, opt: string, value: string)
    requires |arg| >= 2
    ensures |opt| == 2 && arg == opt + value <==> opt == arg[..2] && value == arg[2..]
  {
    assert arg == arg[..2] + arg[2..];
  }

  lemma CutAtLetter(table: seq<Row>, arg: string, opt: string, value: string)
    requires DashToken(arg) && FindOption(table, arg).None? && !NamesOption(table, arg)
    ensures FlattenOne(table, arg) == [opt, value] <==> |opt| == 2 && arg == opt + value && FindOption(table, opt).Some?
    ensures |FlattenOne(table, arg)| == 2 || FlattenOne(table, arg) == [arg]
  {
    var equals := FindChar(arg, '=');
    if equals.None? {
      NoEquals(table, arg);
    } else {
      NamedByName(table, arg, equals.value);
    }
    SplitAtTwo(arg, opt, value);
  }

  /** `flatten` on one argument, for every argument: it is cut in two exactly where it should be. */
  lemma FlattenExactly(table: seq<Row>, arg: string, opt: string, value: string)
    ensures FlattenOne(table, arg) == [opt, value] <==> IsCut(table, arg, opt, value)
    ensures |FlattenOne(table, arg)| == 2 || FlattenOne(table, arg) == [arg]
  {
    if arg == "--" {
      assert arg[..2] == arg;
    }
    if DashToken(arg) && FindOption(table, arg).None? {
      if NamesOption(table, arg) {
        CutAtEquals(table, arg, opt, value);
      } else {
        CutAtLetter(table, arg, opt, value);
      }
    }
  }

  // ----- one item -----

  function ApplyOne(table: seq<Row>, written: Written, item: Item): Written {
    if item.Entry? then written
    else
      var name := NameOf(table, item.token);
      var selected := Selected(written, name);
      if item.value.Some? then Take(selected, name, StripQuotes(item.value.value)) else selected
  }

  lemma ReadItem(table: seq<Row>, item: Item, rest: seq<string>, written: Written, entries: seq<string>)
    requires ItemOk(table, item, rest)
    ensures Read(table, ItemTokens(item) + rest, written, entries) ==
            Read(table, rest, ApplyOne(table, written, item), entries + OwnEntry(item))
  {
    var tokens := ItemTokens(item) + rest;
    assert tokens[0] == item.token;
    if item.Use? && item.value.Some? {
      var value := item.value.value;
      assert tokens[1..] == [value] + rest && tokens[1..][0] == value && tokens[1..][1..] == rest;
      assert [value][0] == value;
    } else {
      assert tokens[1..] == rest;
    }
    assert entries + [] == entries;
  }

  lemma ReadEnd(table: seq<Row>, end: End, written: Written, entries: seq<string>)
    requires EndOk(table, end)
    ensures Read(table, EndTokens(end), written, entries) ==
            if end.Bad? then Err(BadError(table, end))
            else Finish(written, entries + if end.Dashes? then NotDashes(end.rest) else [])
  {
    var tokens := EndTokens(end);
    assert entries + [] == entries;
    if !end.Over? {
      assert tokens[1..] == end.rest;
    }
  }

  function Applied(table: seq<Row>, items: seq<Item>, written: Written): Written {
    if items == [] then written
    else ApplyOne(table, Applied(table, items[..|items| - 1], written), items[|items| - 1])
  }

  lemma AppliedLast(table: seq<Row>, front: seq<Item>, item: Item, written: Written)
    ensures Applied(table, front + [item], written) == ApplyOne(table, Applied(table, front, written), item)
  {
    var items := front + [item];
    assert items[..|items| - 1] == front && items[|items| - 1] == item;
  }

  function OwnEntry(item: Item): seq<string> {
    if item.Entry? then [item.token] else []
  }

  lemma EntriesLast(front: seq<Item>, item: Item)
    ensures EntriesOf(front + [item]) == EntriesOf(front) + OwnEntry(item)
  {
    var items := front + [item];
    assert items[..|items| - 1] == front && items[|items| - 1] == item;
  }

  lemma FirstAndLast(first: Item, rest: seq<Item>)
    requires rest != []
    ensures var n := |rest| - 1; [first] + rest == ([first] + rest[..n]) + [rest[n]] && rest == rest[..n] + [rest[n]]
  {
  }

  lemma {:induction false} AppliedFirst(table: seq<Row>, first: Item, rest: seq<Item>, written: Written)
    ensures Applied(table, [first] + rest, written) == Applied(table, rest, ApplyOne(table, written, first))
    decreases |rest|
  {
    if rest == [] {
      AppliedLast(table, [], first, written);
      assert [first] + rest == [] + [first];
    } else {
      var front, last := rest[..|rest| - 1], rest[|rest| - 1];
      AppliedFirst(table, first, front, written);
      AppliedLast(table, [first] + front, last, written);
      AppliedLast(table, front, last, ApplyOne(table, written, first));
      FirstAndLast(first, rest);
    }
  }

  lemma {:induction false} EntriesFirst(first: Item, rest: seq<Item>)
    ensures EntriesOf([first] + rest) == OwnEntry(first) + EntriesOf(rest)
    decreases |rest|
  {
    if rest == [] {
      EntriesLast([], first);
      assert [first] + rest == [] + [first];
    } else {
      var front, last := rest[..|rest| - 1], rest[|rest| - 1];
      EntriesFirst(first, front);
      EntriesLast([first] + front, last);
      EntriesLast(front, last);
      FirstAndLast(first, rest);
      Regroup(OwnEntry(first), EntriesOf(front), OwnEntry(last));
    }
  }

  lemma {:induction false} ReadParsed(table: seq<Row>, tokens: seq<string>, items: seq<Item>, end: End,
                                      written: Written, entries: seq<string>)
    requires Parsed(table, tokens, items, end)
    ensures Read(table, tokens, written, entries) ==
            Read(table, EndTokens(end), Applied(table, items, written), entries + EntriesOf(items))
    decreases |items|
  {
    if items == [] {
      assert entries + [] == entries;
    } else {
      var item, own := items[0], ItemTokens(items[0]);
      var rest := tokens[|own|..];
      assert tokens == own + rest;
      ReadItem(table, item, rest, written, entries);
      ReadParsed(table, rest, items[1..], end, ApplyOne(table, written, item), entries + OwnEntry(item));
      AppliedFirst(table, item, items[1..], written);
      EntriesFirst(item, items[1..]);
      HeadAndRest(items);
      Regroup(entries, OwnEntry(item), EntriesOf(items[1..]));
    }
  }

  // ----- the summary -----

  lemma GivenMore(table: seq<Row>, items: seq<Item>, item: Item, name: string, valued: bool)
    ensures Given(table, items + [item], name, valued) <==>
            Given(table, items, name, valued) || IsUse(table, item, name, valued)
  {
    var more := items + [item];
    assert more[|items|] == item && forall i | 0 <= i < |items| :: more[i] == items[i];
  }

  lemma BeforeMore(table: seq<Row>, items: seq<Item>, item: Item, a: string, b: string)
    requires Before(table, items, a, b)
    ensures Before(table, items + [item], a, b)
  {
    var more := items + [item];
    var i :| 0 <= i < |items| && UsedAs(table, items[i], a) && forall j | 0 <= j <= i :: !UsedAs(table, items[j], b);
    assert forall j | 0 <= j <= i :: more[j] == items[j];
    assert UsedAs(table, more[i], a);
  }

  lemma SameWritten(a: string, b: string)
    ensures "-" + a == "-" + b ==> a == b
  {
    assert ("-" + a)[1..] == a && ("-" + b)[1..] == b;
  }

  /** One more use of an option keeps the selection right. */
  lemma SelectionMore(table: seq<Row>, items: seq<Item>, item: Item, written: Written)
    requires SelectionIs(table, items, written.selection)
    ensures SelectionIs(table, items + [item], ApplyOne(table, written, item).selection)
  {
    var more, was, now := items + [item], written.selection, ApplyOne(table, written, item).selection;
    SelectionGrows(table, items, item, written);
    forall option ensures option in now <==> IsSelected(table, more, option) {
      SelectedMore(table, items, item, option);
    }
    forall a, b | 0 <= a < b < |now| ensures Before(table, more, now[a], now[b]) {
      if b < |was| {
        assert now[a] == was[a] && now[b] == was[b];
        BeforeMore(table, items, item, was[a], was[b]);
      } else {
        assert now[a] == was[a] && was[a] in was;
        NewIsLast(table, items, item, was[a], now[b]);
      }
    }
  }

  /** A new use adds its option at the end, unless it is no selection option or was used before. */
  lemma SelectionGrows(table: seq<Row>, items: seq<Item>, item: Item, written: Written)
    requires SelectionIs(table, items, written.selection)
    ensures var was, now := written.selection, ApplyOne(table, written, item).selection;
            if && item.Use? && NameOf(table, item.token) in SELECTION
               && !Given(table, items, NameOf(table, item.token), false)
            then now == was + ["-" + NameOf(table, item.token)] else now == was
  {
    if item.Use? {
      var name := NameOf(table, item.token);
      var selected := Selected(written, name);
      assert ApplyOne(table, written, item).selection == selected.selection;
      if name in SELECTION && "-" + name in written.selection {
        assert IsSelected(table, items, "-" + name);
        var other :| other in SELECTION && "-" + name == "-" + other && Given(table, items, other, false);
        SameWritten(name, other);
      }
    }
  }

  ghost predicate IsSelected(table: seq<Row>, items: seq<Item>, written: string) {
    exists name :: name in SELECTION && written == "-" + name && Given(table, items, name, false)
  }

  lemma SelectedMore(table: seq<Row>, items: seq<Item>, item: Item, written: string)
    ensures IsSelected(table, items + [item], written) <==>
            || IsSelected(table, items, written)
            || (item.Use? && NameOf(table, item.token) in SELECTION && written == "-" + NameOf(table, item.token))
  {
    forall name ensures Given(table, items + [item], name, false) <==>
                        Given(table, items, name, false) || IsUse(table, item, name, false) {
      GivenMore(table, items, item, name, false);
    }
    assert item.Use? ==> IsUse(table, item, NameOf(table, item.token), false);
  }

  lemma NewIsLast(table: seq<Row>, items: seq<Item>, item: Item, a: string, b: string)
    requires item.Use? && b == "-" + NameOf(table, item.token) && !Given(table, items, NameOf(table, item.token), false)
    requires IsSelected(table, items, a)
    ensures Before(table, items + [item], a, b)
  {
    var more := items + [item];
    var name :| name in SELECTION && a == "-" + name && Given(table, items, name, false);
    var i :| 0 <= i < |items| && IsUse(table, items[i], name, false);
    assert more[i] == items[i] && UsedAs(table, more[i], a);
    forall j | 0 <= j <= i ensures !UsedAs(table, more[j], b) {
      assert more[j] == items[j];
      if UsedAs(table, items[j], b) {
        SameWritten(NameOf(table, items[j].token), NameOf(table, item.token));
        assert IsUse(table, items[j], NameOf(table, item.token), false);
      }
    }
    if a == b {
      SameWritten(name, NameOf(table, item.token));
    }
  }

  lemma {:induction false} AppliedIsSummary(table: seq<Row>, items: seq<Item>)
    ensures IsSummary(table, items, Applied(table, items, NOTHING))
  {
    if items != [] {
      var n := |items| - 1;
      var front, item, written := items[..n], items[n], Applied(table, items[..n], NOTHING);
      AppliedIsSummary(table, front);
      assert items == front + [item];
      SelectionMore(table, front, item, written);
      GivenMore(table, front, item, "s", true);
      GivenMore(table, front, item, "gs", true);
      TakesOwn(table, written, item);
    }
  }

  /** An item adds its value to its own list or flag, and to no other. */
  lemma TakesOwn(table: seq<Row>, written: Written, item: Item)
    ensures var after := ApplyOne(table, written, item);
            && after.defines == written.defines + OwnValue(table, item, "D")
            && after.profiles == written.profiles + OwnValue(table, item, "P")
            && (after.settings <==> written.settings || IsUse(table, item, "s", true))
            && (after.globalSettings <==> written.globalSettings || IsUse(table, item, "gs", true))
  {
    assert "D"[0] == 'D' && "P"[0] == 'P' && "s"[0] == 's' && "gs"[0] == 'g';
    assert written.defines + [] == written.defines && written.profiles + [] == written.profiles;
  }

  function OwnValue(table: seq<Row>, item: Item, name: string): seq<string> {
    if item.Use? && item.value.Some? && NameOf(table, item.token) == name then [StripQuotes(item.value.value)] else []
  }

  // ----- every sequence of tokens -----

  lemma {:induction false} ParseExists(table: seq<Row>, tokens: seq<string>) returns (items: seq<Item>, end: End)
    ensures Parsed(table, tokens, items, end)
    decreases |tokens|
  {
    var item, last := FirstItem(table, tokens);
    if item.None? {
      items, end := [], last;
    } else {
      var own := ItemTokens(item.value);
      var later, e := ParseExists(table, tokens[|own|..]);
      items, end := [item.value] + later, e;
      assert items[1..] == later;
    }
  }

  lemma FirstItem(table: seq<Row>, tokens: seq<string>) returns (item: Option<Item>, end: End)
    ensures item.Some? ==>
              var own := ItemTokens(item.value); own <= tokens && ItemOk(table, item.value, tokens[|own|..])
    ensures item.None? ==> tokens == EndTokens(end) && EndOk(table, end)
  {
    item, end := None, Over;
    if tokens == [] {
      return;
    }
    var token, rest := tokens[0], tokens[1..];
    HeadAndRest(tokens);
    if token == "--" {
      end := Dashes(rest);
    } else if token == "-" || !StartsWith(token, '-') {
      item := Some(Entry(token));
    } else {
      item, end := FirstOption(table, token, rest);
      assert item.Some? && item.value.value.Some? ==> tokens[2..] == rest[1..];
    }
  }

  lemma FirstOption(table: seq<Row>, token: string, rest: seq<string>) returns (item: Option<Item>, end: End)
    requires DashToken(token)
    ensures item.Some? ==>
              && item.value.Use? && item.value.token == token
              && (item.value.value.Some? ==> rest != [] && item.value.value.value == rest[0])
              && ItemOk(table, item.value, if item.value.value.Some? then rest[1..] else rest)
    ensures item.None? ==> end == Bad(token, rest) && EndOk(table, end)
  {
    item, end := None, Bad(token, rest);
    if FindOption(table, token).Some? && NameOf(table, token) != "llr" && NameOf(table, token) != "f" {
      var row := FindOption(table, token).value;
      if row.takesValue && HasValue(table, rest) {
        assert [rest[0]][0] == rest[0];
        item := Some(Use(token, Some(rest[0])));
      } else if !row.takesValue || row.valueOptional {
        item := Some(Use(token, None));
      }
    }
  }

  lemma {:induction false} ParsedEnd(table: seq<Row>, tokens: seq<string>, items: seq<Item>, end: End)
    requires Parsed(table, tokens, items, end)
    ensures EndOk(table, end)
    decreases |items|
  {
    if items != [] {
      ParsedEnd(table, tokens[|ItemTokens(items[0])|..], items[1..], end);
    }
  }

  /**
   * What `written_values` makes of its tokens, in terms of the options, values and entries they
   * fall into: the first option it refuses decides; else the entries are refused; else the values of
   * `-D` and of `-P` are those given, in order, and so are the flags and the selection.
   */
  lemma ReadMeans(table: seq<Row>, tokens: seq<string>, items: seq<Item>, end: End)
    requires Parsed(table, tokens, items, end)
    ensures var r := Read(table, tokens, NOTHING, []);
            var entries := EntriesOf(items) + if end.Dashes? then NotDashes(end.rest) else [];
            if end.Bad? then r == Err(BadError(table, end))
            else if entries != [] then r == Err(UnrecognizedEntries(entries))
            else r.Ok? && IsSummary(table, items, r.value)
  {
    ReadParsed(table, tokens, items, end, NOTHING, []);
    ParsedEnd(table, tokens, items, end);
    ReadEnd(table, end, Applied(table, items, NOTHING), EntriesOf(items));
    AppliedIsSummary(table, items);
    assert [] + EntriesOf(items) == EntriesOf(items) && EntriesOf(items) + [] == EntriesOf(items);
  }

  /** The whole of `written_values` on the text of a file, in terms of its quoted groups and its items. */
  lemma FileMeans(content: string, groups: seq<Group>, items: seq<Item>, end: End)
    requires Grouped(Kept(JavaLines(content)), groups)
    requires Parsed(OPTIONS, Flatten(OPTIONS, Texts(groups)), items, end)
    ensures var r := WrittenOf(OPTIONS, JavaLines(content));
            var entries := EntriesOf(items) + if end.Dashes? then NotDashes(end.rest) else [];
            if end.Bad? then r == Err(BadError(OPTIONS, end))
            else if entries != [] then r == Err(UnrecognizedEntries(entries))
            else r.Ok? && IsSummary(OPTIONS, items, r.value)
  {
    CleanMeans(Kept(JavaLines(content)), groups);
    ReadMeans(OPTIONS, Flatten(OPTIONS, Texts(groups)), items, end);
  }
}
