/**
 * The names of the host values a resolution consulted (`rv-lock/src/ambient.rs`): how they
 * print, parse and compare. The JSON of a property lookup is opaque: `recode` stands for
 * parsing it and encoding it again, and is `None` for text that is no lookup.
 */
module Ambient {
  import opened Prelude

  datatype HostCondition =
    | Jdk(spec: string)
    | Property(name: string, value: Option<string>)
    | File(path: string)
    | Settings(key: string)

  datatype AmbientInput =
    | Env(name: string)
    | JavaHome
    | JavaVersion
    | OsRelease
    | SettingsProperty(name: string)
    | UserProperty(name: string)
    | UserPropertyLookup(template: string)
    | Condition(condition: HostCondition, holds: bool)

  // ----- the checks -----

  const MAX_ENV_NAME_LEN: nat := 255
  const MAX_SETTINGS_PROPERTY_NAME_LEN: nat := 128
  const MAX_CONDITION_TEXT_LEN: nat := 256

  predicate Alphabetic(c: char) {
    'a' <= c <= 'z' || 'A' <= c <= 'Z'
  }

  predicate Digit(c: char) {
    '0' <= c <= '9'
  }

  predicate IsEnvVarName(name: string) {
    && 0 < |name| <= MAX_ENV_NAME_LEN
    && (Alphabetic(name[0]) || name[0] == '_')
    && forall i | 0 <= i < |name| :: Alphabetic(name[i]) || Digit(name[i]) || name[i] == '_'
  }

  predicate IsSettingsPropertyName(name: string) {
    && 0 < |name| <= MAX_SETTINGS_PROPERTY_NAME_LEN
    && forall i | 0 <= i < |name| :: Alphabetic(name[i]) || Digit(name[i]) || name[i] in ".-_"
  }

  /** Printable ASCII without `=` and space. */
  predicate IsOptionName(name: string) {
    1 <= |name| <= 256 && forall i | 0 <= i < |name| :: '!' <= name[i] <= '~' && name[i] != '='
  }

  predicate UnsafeChar(c: char) {
    || c <= '\U{1F}' || '\U{7F}' <= c <= '\U{9F}' || c == '\U{AD}' || c == '\U{34F}' || c == '\U{61C}'
    || '\U{115F}' <= c <= '\U{1160}' || '\U{17B4}' <= c <= '\U{17B5}' || '\U{180B}' <= c <= '\U{180F}'
    || '\U{200B}' <= c <= '\U{200F}' || '\U{2028}' <= c <= '\U{202E}' || '\U{2060}' <= c <= '\U{206F}'
    || c == '\U{3164}' || '\U{FE00}' <= c <= '\U{FE0F}' || c == '\U{FEFF}' || c == '\U{FFA0}'
    || '\U{FFF0}' <= c <= '\U{FFFB}' || '\U{1BCA0}' <= c <= '\U{1BCA3}' || '\U{1D173}' <= c <= '\U{1D17A}'
    || '\U{E0000}' <= c <= '\U{E0FFF}'
  }

  predicate TerminalSafe(text: string) {
    forall i | 0 <= i < |text| :: !UnsafeChar(text[i])
  }

  predicate IsConditionText(text: string) {
    0 < |text| <= MAX_CONDITION_TEXT_LEN && TerminalSafe(text)
  }

  predicate IsSettingsKey(key: string) {
    |key| == 16 && forall i | 0 <= i < 16 :: Digit(key[i]) || 'a' <= key[i] <= 'f'
  }

  // ----- project paths -----

  /** How far below the project the first `k` names lead: a `..` goes up, any other name down. */
  function DepthAfter(names: seq<string>, k: nat): int
    requires k <= |names|
  {
    if k == 0 then 0 else DepthAfter(names, k - 1) + (if names[k - 1] == ".." then -1 else 1)
  }

  /** Every name is a real one and no prefix of the path leads above the project. */
  predicate StaysInside(names: seq<string>) {
    && (forall i | 0 <= i < |names| :: names[i] != "" && names[i] != ".")
    && (forall k | 0 <= k <= |names| :: DepthAfter(names, k) >= 0)
  }

  predicate IsProjectPath(path: string) {
    && IsConditionText(path)
    && (forall i | 0 <= i < |path| :: path[i] != '\\' && path[i] != ':')
    && StaysInside(Segments(path))
  }

  /** `is_project_path`, with its running depth. */
  method CheckProjectPath(path: string) returns (inside: bool)
    ensures inside <==> IsProjectPath(path)
  {
    if !IsConditionText(path) || exists i | 0 <= i < |path| :: path[i] == '\\' || path[i] == ':' {
      return false;
    }
    var names := Segments(path);
    var depth: nat := 0;
    for i := 0 to |names|
      invariant depth == DepthAfter(names, i)
      invariant forall k | 0 <= k < i :: names[k] != "" && names[k] != "."
      invariant forall k | 0 <= k <= i :: DepthAfter(names, k) >= 0
    {
      if names[i] == "" || names[i] == "." {
        return false;
      }
      if names[i] == ".." {
        if depth == 0 {
          assert DepthAfter(names, i + 1) < 0;
          return false;
        }
        depth := depth - 1;
      } else {
        depth := depth + 1;
      }
    }
    return true;
  }

  // ----- the checked constructors -----

  /** What a checked constructor accepts: a condition on the host, as activation read it. */
  predicate ValidCondition(condition: HostCondition) {
    match condition
    case Jdk(spec) => IsConditionText(spec)
    case Property(name, value) => IsHostName(name) && (value.Some? ==> IsConditionText(value.value))
    case File(path) => IsProjectPath(path)
    case Settings(key) => IsSettingsKey(key)
  }

  predicate IsHostName(name: string) {
    var property := if "!" <= name then name[1..] else name;
    property == "java.version" || property == "java.home" || ("env." <= property && IsEnvVarName(property[4..]))
  }

  /** The inputs the constructors give: a lookup is the encoding of a lookup, with no other check. */
  predicate Constructed(input: AmbientInput, recode: string -> Option<string>) {
    match input
    case Env(name) => IsEnvVarName(name)
    case SettingsProperty(name) => IsSettingsPropertyName(name)
    case UserProperty(name) => IsOptionName(name)
    case UserPropertyLookup(template) => recode(template) == Some(template)
    case Condition(condition, _) => ValidCondition(condition)
    case _ => true
  }

  // ----- printing -----

  function ConditionPieces(condition: HostCondition): seq<string> {
    match condition
    case Jdk(spec) => ["jdk:", spec, "", ""]
    case File(path) => ["file:", path, "", ""]
    case Settings(key) => ["settings:", key, "", ""]
    case Property(name, None) => ["property:", name, "", ""]
    case Property(name, Some(value)) => ["property:", name, "=", value]
  }

  function Outcome(holds: bool): string {
    if holds then " is true" else " is false"
  }

  function Pieces(input: AmbientInput): (pieces: seq<string>)
    ensures |pieces| == 6
  {
    match input
    case Env(name) => ["env.", name, "", "", "", ""]
    case JavaHome => ["java.home", "", "", "", "", ""]
    case JavaVersion => ["java.version", "", "", "", "", ""]
    case OsRelease => ["os-release", "", "", "", "", ""]
    case SettingsProperty(name) => ["settings-property:", name, "", "", "", ""]
    case UserProperty(name) => ["user-property:", name, "", "", "", ""]
    case UserPropertyLookup(template) => ["user-property-lookup:", template, "", "", "", ""]
    case Condition(condition, holds) => ConditionPieces(condition) + [Outcome(holds), ""]
  }

  function Flat<T>(pieces: seq<seq<T>>): seq<T> {
    if pieces == [] then [] else pieces[0] + Flat(pieces[1..])
  }

  function Print(input: AmbientInput): string {
    Flat(Pieces(input))
  }

  // ----- parsing -----

  /** The last place at or before `from` where `pattern` starts in `text`. */
  function RFindFrom(text: string, pattern: string, from: nat): (at: Option<nat>)
    ensures at.Some? ==> OccursAt(text, pattern, at.value) && at.value <= from
    ensures at.Some? ==> forall k: nat | at.value < k <= from :: !OccursAt(text, pattern, k)
    ensures at.None? ==> forall k: nat | k <= from :: !OccursAt(text, pattern, k)
  {
    if OccursAt(text, pattern, from) then Some(from)
    else if from == 0 then None
    else RFindFrom(text, pattern, from - 1)
  }

  function RFind(text: string, pattern: string): (at: Option<nat>)
    ensures at.Some? ==> OccursAt(text, pattern, at.value)
  {
    RFindFrom(text, pattern, |text|)
  }

  function ParseCondition(condition: string): Option<HostCondition> {
    if "jdk:" <= condition then Some(Jdk(condition[4..]))
    else if "file:" <= condition then Some(File(condition[5..]))
    else if "settings:" <= condition then Some(Settings(condition[9..]))
    else if "property:" <= condition then
      var property := condition[9..];
      match FindChar(property, '=')
      case Some(at) => Some(Property(property[..at], Some(property[at + 1..])))
      case None => Some(Property(property, None))
    else None
  }

  function ParseOutcome(holds: string): Option<bool> {
    if holds == "true" then Some(true) else if holds == "false" then Some(false) else None
  }

  /** The condition and outcome a text names, split at its last ` is `. */
  function ParseTested(text: string): Option<AmbientInput> {
    match RFind(text, " is ")
    case None => None
    case Some(at) =>
      match (ParseOutcome(text[at + 4..]), ParseCondition(text[..at]))
      case (Some(holds), Some(condition)) => if ValidCondition(condition) then Some(Condition(condition, holds))
        else None
      case _ => None
  }

  /** `AmbientInput::from_str` */
  function Parse(text: string, recode: string -> Option<string>): Option<AmbientInput> {
    if text == "java.home" then Some(JavaHome)
    else if text == "java.version" then Some(JavaVersion)
    else if text == "os-release" then Some(OsRelease)
    else if "user-property:" <= text then
      if IsOptionName(text[14..]) then Some(UserProperty(text[14..])) else None
    else if "user-property-lookup:" <= text then
      if TerminalSafe(text[21..]) && recode(text[21..]).Some? then Some(UserPropertyLookup(recode(text[21..]).value))
        else None
    else if "env." <= text then
      if IsEnvVarName(text[4..]) then Some(Env(text[4..])) else None
    else if "settings-property:" <= text then
      if IsSettingsPropertyName(text[18..]) then Some(SettingsProperty(text[18..])) else None
    else ParseTested(text)
  }

  // ----- the round trip -----

  lemma FlatMore(first: string, rest: seq<string>)
    ensures Flat([first] + rest) == first + Flat(rest)
  {
    assert ([first] + rest)[1..] == rest;
  }

  lemma FlatBlanks()
    ensures Flat(["", "", "", ""]) == "" && Flat([""]) == ""
  {
    FlatMore("", []);
    FlatMore("", [""]);
    FlatMore("", ["", ""]);
    FlatMore("", ["", "", ""]);
    assert [""] + [] == [""] && [""] + [""] == ["", ""] && [""] + ["", ""] == ["", "", ""];
    assert [""] + ["", "", ""] == ["", "", "", ""];
  }

  lemma FlatPair(a: string, b: string)
    ensures Flat([a, b, "", "", "", ""]) == a + b
  {
    FlatBlanks();
    FlatMore(b, ["", "", "", ""]);
    FlatMore(a, [b] + ["", "", "", ""]);
    assert [a] + ([b] + ["", "", "", ""]) == [a, b, "", "", "", ""];
  }

  lemma FlatCondition(a: string, b: string, c: string, d: string, e: string)
    ensures Flat([a, b, c, d] + [e, ""]) == a + b + c + d + e
  {
    FlatBlanks();
    FlatMore(e, [""]);
    FlatMore(d, [e] + [""]);
    FlatMore(c, [d] + ([e] + [""]));
    FlatMore(b, [c] + ([d] + ([e] + [""])));
    FlatMore(a, [b] + ([c] + ([d] + ([e] + [""]))));
    assert [a] + ([b] + ([c] + ([d] + ([e] + [""])))) == [a, b, c, d] + [e, ""];
  }

  function PrintCondition(condition: HostCondition): string {
    match condition
    case Jdk(spec) => "jdk:" + spec
    case File(path) => "file:" + path
    case Settings(key) => "settings:" + key
    case Property(name, None) => "property:" + name
    case Property(name, Some(value)) => "property:" + (name + "=" + value)
  }

  lemma ConditionText(condition: HostCondition)
    ensures var p := ConditionPieces(condition); p[0] + p[1] + p[2] + p[3] == PrintCondition(condition)
  {
    if condition.Property? && condition.value.Some? {
      JoinProperty("property:", condition.name, condition.value.value);
    }
  }

  lemma JoinProperty(prefix: string, name: string, value: string)
    ensures prefix + name + "=" + value == prefix + (name + "=" + value)
  {
  }

  lemma PrintOfCondition(condition: HostCondition, holds: bool)
    ensures Print(Condition(condition, holds)) == PrintCondition(condition) + Outcome(holds)
  {
    var p := ConditionPieces(condition);
    ConditionText(condition);
    FlatCondition(p[0], p[1], p[2], p[3], Outcome(holds));
    assert p == [p[0], p[1], p[2], p[3]];
  }

  lemma ParseProperty(property: string)
    ensures ParseCondition("property:" + property) ==
            match FindChar(property, '=')
            case Some(at) => Some(Property(property[..at], Some(property[at + 1..])))
            case None => Some(Property(property, None))
  {
    var text := "property:" + property;
    assert text[9..] == property;
    assert text[0] == "property:"[0];
  }

  lemma ParsePrintedProperty(name: string, value: Option<string>)
    requires forall i | 0 <= i < |name| :: name[i] != '='
    ensures ParseCondition(PrintCondition(Property(name, value))) == Some(Property(name, value))
  {
    if value.Some? {
      FirstEquals(name, value.value);
      ParseProperty(name + "=" + value.value);
    } else {
      ParseProperty(name);
    }
  }

  lemma FirstEquals(name: string, value: string)
    requires forall i | 0 <= i < |name| :: name[i] != '='
    ensures var property := name + "=" + value;
            && FindChar(property, '=') == Some(|name|)
            && property[..|name|] == name && property[|name| + 1..] == value
  {
    var property := name + "=" + value;
    assert property[|name|] == '=' && forall k | 0 <= k < |name| :: property[k] == name[k];
  }

  lemma ParsePrintedCondition(condition: HostCondition)
    requires ValidCondition(condition)
    ensures ParseCondition(PrintCondition(condition)) == Some(condition)
  {
    match condition
    case Property(name, value) =>
      HostNameHasNoEquals(name);
      ParsePrintedProperty(name, value);
    case Jdk(spec) => assert PrintCondition(condition)[4..] == spec;
    case File(path) => assert PrintCondition(condition)[5..] == path && PrintCondition(condition)[0] == 'f';
    case Settings(key) => assert PrintCondition(condition)[9..] == key && PrintCondition(condition)[0] == 's';
  }

  lemma HostNameHasNoEquals(name: string)
    requires IsHostName(name)
    ensures forall i | 0 <= i < |name| :: name[i] != '='
  {
  }

  /** The last ` is ` of a printed condition is the one before its outcome, whatever its text holds. */
  lemma LastIs(condition: string, holds: bool)
    ensures RFind(condition + Outcome(holds), " is ") == Some(|condition|)
    ensures ParseOutcome((condition + Outcome(holds))[|condition| + 4..]) == Some(holds)
    ensures (condition + Outcome(holds))[..|condition|] == condition
  {
    var text := condition + Outcome(holds);
    var at := |condition|;
    assert text[at..at + 4] == " is ";
    assert text[at + 4..] == if holds then "true" else "false";
    assert OccursAt(text, " is ", at);
    forall k: nat | at < k <= |text| ensures !OccursAt(text, " is ", k) {
      if k + 4 <= |text| {
        assert text[k..k + 4] == Outcome(holds)[k - at..k - at + 4];
        NoOtherIs(holds, k - at);
      }
    }
  }

  lemma NoOtherIs(holds: bool, at: int)
    requires 0 < at && at + 4 <= |Outcome(holds)|
    ensures Outcome(holds)[at..at + 4] != " is "
  {
    var part := Outcome(holds)[at..at + 4];
    assert part[0] == Outcome(holds)[at] && part[1] == Outcome(holds)[at + 1];
    assert " is "[0] == ' ' && " is "[1] == 'i';
  }

  /** How a text of the other forms differs from a printed condition. */
  predicate StartsTested(text: string) {
    || "jdk:" <= text || "file:" <= text || "settings:" <= text || "property:" <= text
  }

  lemma StartOfTested(condition: HostCondition, rest: string)
    ensures StartsTested(PrintCondition(condition) + rest)
  {
    var text := PrintCondition(condition);
    assert StartsTested(text);
    assert forall k | 0 <= k < |text| :: (text + rest)[k] == text[k];
  }

  lemma TestedIsNotPlain(text: string)
    requires StartsTested(text)
    ensures !("user-property:" <= text) && !("user-property-lookup:" <= text)
    ensures !("env." <= text) && !("settings-property:" <= text)
    ensures text != "java.home" && text != "java.version" && text != "os-release"
  {
    if text[0] == 'j' {
      assert text[1] == 'd';
    } else if text[0] == 's' {
      assert text[8] == ':';
    }
  }

  lemma ParseIsTested(text: string, recode: string -> Option<string>)
    requires StartsTested(text)
    ensures Parse(text, recode) == ParseTested(text)
  {
    TestedIsNotPlain(text);
  }

  lemma PrintParseCondition(condition: HostCondition, holds: bool, recode: string -> Option<string>)
    requires ValidCondition(condition)
    ensures Parse(Print(Condition(condition, holds)), recode) == Some(Condition(condition, holds))
  {
    PrintOfCondition(condition, holds);
    StartOfTested(condition, Outcome(holds));
    ParseIsTested(PrintCondition(condition) + Outcome(holds), recode);
    ParseSplit(condition, holds);
  }

  lemma ParseSplit(condition: HostCondition, holds: bool)
    requires ValidCondition(condition)
    ensures ParseTested(PrintCondition(condition) + Outcome(holds)) == Some(Condition(condition, holds))
  {
    LastIs(PrintCondition(condition), holds);
    ParsePrintedCondition(condition);
  }

  lemma ParseEnv(name: string, recode: string -> Option<string>)
    ensures Parse("env." + name, recode) == if IsEnvVarName(name) then Some(Env(name)) else None
  {
    assert ("env." + name)[4..] == name && ("env." + name)[0] == 'e';
  }

  lemma ParseSettingsProperty(name: string, recode: string -> Option<string>)
    ensures Parse("settings-property:" + name, recode) ==
            if IsSettingsPropertyName(name) then Some(SettingsProperty(name)) else None
  {
    assert ("settings-property:" + name)[18..] == name && ("settings-property:" + name)[0] == 's';
  }

  lemma ParseUserProperty(name: string, recode: string -> Option<string>)
    ensures Parse("user-property:" + name, recode) == if IsOptionName(name) then Some(UserProperty(name)) else None
  {
    assert ("user-property:" + name)[14..] == name && ("user-property:" + name)[0] == 'u';
  }

  lemma ParseLookup(template: string, recode: string -> Option<string>)
    ensures Parse("user-property-lookup:" + template, recode) ==
            if TerminalSafe(template) && recode(template).Some? then Some(UserPropertyLookup(recode(template).value))
              else None
  {
    var text := "user-property-lookup:" + template;
    assert text[21..] == template && text[0] == 'u' && text[13] == '-';
  }

  /**
   * Printing then parsing gives back every input the constructors build, with one exception: a
   * lookup whose JSON holds a character that is not terminal-safe, which no constructor checks.
   */
  lemma PrintThenParse(input: AmbientInput, recode: string -> Option<string>)
    requires Constructed(input, recode)
    ensures Parse(Print(input), recode) == Some(input) <==> (input.UserPropertyLookup? ==> TerminalSafe(input.template))
  {
    PrintOfPlain(input);
    match input
    case Condition(condition, holds) => PrintParseCondition(condition, holds, recode);
    case Env(name) => ParseEnv(name, recode);
    case SettingsProperty(name) => ParseSettingsProperty(name, recode);
    case UserProperty(name) => ParseUserProperty(name, recode);
    case UserPropertyLookup(template) => ParseLookup(template, recode);
    case _ =>
  }

  const LOOKUP_START: string := "{\"expression\":\"${a"
  const LOOKUP_MIDDLE: string := "}\",\"properties\":{},"
  const LOOKUP_END: string := "\"source\":\"user\",\"mode\":\"property\"}"

  /** The lookup of an expression with a DEL character, which JSON leaves as it is. */
  const LOOKUP: string := LOOKUP_START + ("\U{7F}" + (LOOKUP_MIDDLE + LOOKUP_END))

  /** That lookup is constructed and printed, but not read back. */
  lemma UnsafeLookupIsLost(recode: string -> Option<string>)
    requires recode(LOOKUP) == Some(LOOKUP)
    ensures Constructed(UserPropertyLookup(LOOKUP), recode) && Parse(Print(UserPropertyLookup(LOOKUP)), recode).None?
  {
    assert LOOKUP[|LOOKUP_START|] == "\U{7F}"[0] == '\U{7F}';
    assert UnsafeChar(LOOKUP[|LOOKUP_START|]);
    PrintOfPlain(UserPropertyLookup(LOOKUP));
    ParseLookup(LOOKUP, recode);
  }

  function PrintPlain(input: AmbientInput): string
    requires !input.Condition?
  {
    match input
    case Env(name) => "env." + name
    case JavaHome => "java.home"
    case JavaVersion => "java.version"
    case OsRelease => "os-release"
    case SettingsProperty(name) => "settings-property:" + name
    case UserProperty(name) => "user-property:" + name
    case UserPropertyLookup(template) => "user-property-lookup:" + template
  }

  lemma PrintOfPlain(input: AmbientInput)
    ensures !input.Condition? ==> Print(input) == PrintPlain(input)
  {
    if !input.Condition? {
      var p := Pieces(input);
      FlatPair(p[0], p[1]);
      assert p == [p[0], p[1], "", "", "", ""];
    }
  }

  lemma PrintParsedProperty(text: string)
    requires "property:" <= text
    ensures var property := text[9..];
            match FindChar(property, '=')
            case Some(at) => "property:" + (property[..at] + "=" + property[at + 1..]) == text
            case None => "property:" + property == text
  {
    var property := text[9..];
    assert text == "property:" + property;
    var at := FindChar(property, '=');
    if at.Some? {
      assert property == property[..at.value] + "=" + property[at.value + 1..];
    }
  }

  lemma PrintParsedCondition(text: string, condition: HostCondition)
    requires ParseCondition(text) == Some(condition)
    ensures PrintCondition(condition) == text
  {
    if condition.Property? {
      PrintParsedProperty(text);
    }
  }

  /** Parsing then printing gives back the text, except that the JSON of a lookup is normalized. */
  lemma ParseThenPrint(text: string, recode: string -> Option<string>)
    requires Parse(text, recode).Some?
    ensures var input := Parse(text, recode).value;
            if input.UserPropertyLookup? then
              && "user-property-lookup:" <= text && recode(text[21..]) == Some(input.template)
              && Print(input) == "user-property-lookup:" + input.template
            else Constructed(input, recode) && Print(input) == text
  {
    var input := Parse(text, recode).value;
    if input.Condition? {
      ParsedTested(text, input.condition, input.holds);
    } else {
      PrintParsedPlain(text, recode);
    }
  }

  lemma PrintParsedPlain(text: string, recode: string -> Option<string>)
    requires Parse(text, recode).Some? && !Parse(text, recode).value.Condition?
    ensures var input := Parse(text, recode).value;
            if input.UserPropertyLookup? then
              && "user-property-lookup:" <= text && recode(text[21..]) == Some(input.template)
              && Print(input) == "user-property-lookup:" + input.template
            else Constructed(input, recode) && Print(input) == text
  {
    var input := Parse(text, recode).value;
    PrintOfPlain(input);
    ParsedPlain(text, recode);
  }

  lemma ParsedEnv(text: string, recode: string -> Option<string>)
    requires "env." <= text && Parse(text, recode).Some?
    ensures var input := Parse(text, recode).value;
            Constructed(input, recode) && input.Env? && PrintPlain(input) == text
  {
    assert text == "env." + text[4..];
    ParseEnv(text[4..], recode);
  }

  lemma ParsedSettingsProperty(text: string, recode: string -> Option<string>)
    requires "settings-property:" <= text && Parse(text, recode).Some?
    ensures var input := Parse(text, recode).value;
            Constructed(input, recode) && input.SettingsProperty? && PrintPlain(input) == text
  {
    assert text == "settings-property:" + text[18..];
    ParseSettingsProperty(text[18..], recode);
  }

  lemma ParsedUserProperty(text: string, recode: string -> Option<string>)
    requires "user-property:" <= text && Parse(text, recode).Some?
    ensures var input := Parse(text, recode).value;
            Constructed(input, recode) && input.UserProperty? && PrintPlain(input) == text
  {
    assert text == "user-property:" + text[14..];
    ParseUserProperty(text[14..], recode);
  }

  lemma ParsedLookup(text: string, recode: string -> Option<string>)
    requires "user-property-lookup:" <= text && Parse(text, recode).Some?
    ensures Parse(text, recode).value.UserPropertyLookup?
            && recode(text[21..]) == Some(Parse(text, recode).value.template)
  {
    assert text == "user-property-lookup:" + text[21..];
    ParseLookup(text[21..], recode);
  }

  lemma ParsedPlain(text: string, recode: string -> Option<string>)
    requires Parse(text, recode).Some? && !Parse(text, recode).value.Condition?
    ensures var input := Parse(text, recode).value;
            if input.UserPropertyLookup? then "user-property-lookup:" <= text
              && recode(text[21..]) == Some(input.template)
            else Constructed(input, recode) && PrintPlain(input) == text
  {
    if "env." <= text {
      ParsedEnv(text, recode);
    } else if "settings-property:" <= text {
      ParsedSettingsProperty(text, recode);
    } else if "user-property:" <= text {
      ParsedUserProperty(text, recode);
    } else if "user-property-lookup:" <= text {
      ParsedLookup(text, recode);
    }
  }

  lemma ParsedTested(text: string, condition: HostCondition, holds: bool)
    requires ParseTested(text) == Some(Condition(condition, holds))
    ensures Print(Condition(condition, holds)) == text && ValidCondition(condition)
  {
    var at := RFind(text, " is ").value;
    PrintParsedCondition(text[..at], condition);
    PrintOfCondition(condition, holds);
    SplitText(text, at, holds);
  }

  lemma SplitText(text: string, at: nat, holds: bool)
    requires OccursAt(text, " is ", at) && ParseOutcome(text[at + 4..]) == Some(holds)
    ensures text == text[..at] + Outcome(holds)
  {
    assert text == text[..at] + (text[at..at + 4] + text[at + 4..]);
  }

  // ----- order -----

  datatype Ordering = Less | Equal | Greater

  /** The order of byte strings, a prefix before what it starts. */
  function Lex(a: seq<int>, b: seq<int>): Ordering {
    if a == [] && b == [] then Equal
    else if a == [] then Less
    else if b == [] then Greater
    else if a[0] < b[0] then Less
    else if a[0] > b[0] then Greater
    else Lex(a[1..], b[1..])
  }

  lemma {:induction false} LexCommonPrefix(p: seq<int>, a: seq<int>, b: seq<int>)
    ensures Lex(p + a, p + b) == Lex(a, b)
  {
    if p == [] {
      assert p + a == a && p + b == b;
    } else {
      assert (p + a)[1..] == p[1..] + a && (p + b)[1..] == p[1..] + b;
      LexCommonPrefix(p[1..], a, b);
    }
  }

  lemma {:induction false} LexDecided(a: seq<int>, b: seq<int>, c: seq<int>, d: seq<int>)
    requires |a| == |b| && Lex(a, b) != Equal
    ensures Lex(a + c, b + d) == Lex(a, b)
  {
    if a[0] == b[0] {
      assert (a + c)[1..] == a[1..] + c && (b + d)[1..] == b[1..] + d;
      LexDecided(a[1..], b[1..], c, d);
    }
  }

  lemma {:induction false} LexEqual(a: seq<int>, b: seq<int>)
    ensures Lex(a, b) == Equal <==> a == b
  {
    if a != [] && b != [] && a[0] == b[0] {
      LexEqual(a[1..], b[1..]);
      assert a == [a[0]] + a[1..] && b == [b[0]] + b[1..];
    }
  }

  lemma {:induction false} LexFlips(a: seq<int>, b: seq<int>)
    ensures Lex(a, b) == Less <==> Lex(b, a) == Greater
  {
    if a != [] && b != [] && a[0] == b[0] {
      LexFlips(a[1..], b[1..]);
    }
  }

  lemma {:induction false} LexTransitive(a: seq<int>, b: seq<int>, c: seq<int>)
    requires Lex(a, b) != Greater && Lex(b, c) != Greater
    ensures Lex(a, c) != Greater
  {
    if a != [] && b != [] && c != [] && a[0] == b[0] == c[0] {
      LexTransitive(a[1..], b[1..], c[1..]);
    }
  }

  /** What is left of a text: the rest of one piece and the pieces from `at` on. */
  function Left(run: seq<int>, pieces: seq<seq<int>>, at: nat): seq<int>
    requires at <= |pieces|
  {
    run + Flat(pieces[at..])
  }

  lemma LeftStarts(pieces: seq<seq<int>>)
    ensures Left([], pieces, 0) == Flat(pieces)
  {
    assert pieces[0..] == pieces;
  }

  lemma LeftFurther(pieces: seq<seq<int>>, at: nat)
    requires at < |pieces|
    ensures Left([], pieces, at) == Left(pieces[at], pieces, at + 1)
  {
    assert pieces[at..][1..] == pieces[at + 1..];
  }

  /** Takes the next piece that is not empty, once the run is used up. */
  method NextRun(run: seq<int>, pieces: seq<seq<int>>, at: nat) returns (next: seq<int>, after: nat)
    requires at <= |pieces|
    ensures at <= after <= |pieces| && (after == at ==> next == run) && (next == [] ==> after == |pieces|)
    ensures Left(next, pieces, after) == Left(run, pieces, at)
  {
    next, after := run, at;
    while next == [] && after < |pieces|
      invariant at <= after <= |pieces| && (after == at ==> next == run)
      invariant Left(next, pieces, after) == Left(run, pieces, at)
    {
      LeftFurther(pieces, after);
      next, after := pieces[after], after + 1;
    }
  }

  lemma OneEnded(a: seq<int>, ours: seq<seq<int>>, b: seq<int>, theirs: seq<seq<int>>, i: nat, j: nat)
    requires i <= |ours| && j <= |theirs| && (a == [] ==> i == |ours|) && (b == [] ==> j == |theirs|)
             && (a == [] || b == [])
    ensures Lex(Left(a, ours, i), Left(b, theirs, j)) == if |a| < |b| then Less else if |a| == |b| then Equal
            else Greater
  {
    assert a == [] ==> Left(a, ours, i) == [];
    assert b == [] ==> Left(b, theirs, j) == [];
  }

  /** The loop of `cmp`: both texts a run of bytes at a time, wherever their pieces end. */
  method ComparePieces(ours: seq<seq<int>>, theirs: seq<seq<int>>) returns (order: Ordering)
    ensures order == Lex(Flat(ours), Flat(theirs))
  {
    var a: seq<int>, b: seq<int> := [], [];
    var i, j := 0, 0;
    LeftStarts(ours);
    LeftStarts(theirs);
    while true
      invariant i <= |ours| && j <= |theirs|
      invariant Lex(Flat(ours), Flat(theirs)) == Lex(Left(a, ours, i), Left(b, theirs, j))
      decreases |ours| - i + |theirs| - j, |a| + |b|
    {
      a, i := NextRun(a, ours, i);
      b, j := NextRun(b, theirs, j);
      if a == [] || b == [] {
        OneEnded(a, ours, b, theirs, i, j);
        return if |a| < |b| then Less else if |a| == |b| then Equal else Greater;
      }
      var n := if |a| < |b| then |a| else |b|;
      var run := Lex(a[..n], b[..n]);
      RunDecides(a, b, n, Flat(ours[i..]), Flat(theirs[j..]));
      if run != Equal {
        return run;
      }
      a, b := a[n..], b[n..];
    }
  }

  lemma RunDecides(a: seq<int>, b: seq<int>, n: nat, c: seq<int>, d: seq<int>)
    requires n <= |a| && n <= |b|
    ensures var run := Lex(a[..n], b[..n]);
            Lex(a + c, b + d) == if run == Equal then Lex(a[n..] + c, b[n..] + d) else run
  {
    assert a + c == a[..n] + (a[n..] + c) && b + d == b[..n] + (b[n..] + d);
    LexEqual(a[..n], b[..n]);
    if a[..n] == b[..n] {
      LexCommonPrefix(a[..n], a[n..] + c, b[n..] + d);
    } else {
      LexDecided(a[..n], b[..n], a[n..] + c, b[n..] + d);
    }
  }

  // ----- UTF-8 -----

  function TwoBytes(v: int): seq<int> {
    [0xC0 + v / 0x40, 0x80 + v % 0x40]
  }

  function ThreeBytes(v: int): seq<int> {
    [0xE0 + v / 0x1000, 0x80 + v / 0x40 % 0x40, 0x80 + v % 0x40]
  }

  function FourBytes(v: int): seq<int> {
    [0xF0 + v / 0x4_0000, 0x80 + v / 0x1000 % 0x40, 0x80 + v / 0x40 % 0x40, 0x80 + v % 0x40]
  }

  function Utf8Char(c: char): (bytes: seq<int>)
    ensures 1 <= |bytes| <= 4 && forall i | 0 <= i < |bytes| :: 0 <= bytes[i] < 256
  {
    var v := c as int;
    if v < 0x80 then [v] else if v < 0x800 then TwoBytes(v) else if v < 0x1_0000 then ThreeBytes(v) else FourBytes(v)
  }

  function Utf8(text: string): seq<int> {
    if text == "" then [] else Utf8Char(text[0]) + Utf8(text[1..])
  }

  lemma {:induction false} Utf8Join(a: string, b: string)
    ensures Utf8(a + b) == Utf8(a) + Utf8(b)
  {
    if a == "" {
      assert a + b == b;
    } else {
      assert (a + b)[1..] == a[1..] + b;
      Utf8Join(a[1..], b);
    }
  }

  predicate Follows(byte: int) {
    0x80 <= byte < 0xC0
  }

  /** The first byte tells the length of an encoding, and the bytes behind it are of a kind no first byte has. */
  lemma Utf8Shape(c: char)
    ensures var bytes := Utf8Char(c);
            && (forall i | 1 <= i < |bytes| :: Follows(bytes[i]))
            && |bytes| == (if bytes[0] < 0x80 then 1 else if bytes[0] < 0xE0 then 2
                           else if bytes[0] < 0xF0 then 3 else 4)
            && (0 <= bytes[0] < 0x80 || 0xC2 <= bytes[0] < 0xF5)
  {
    Digit64(c as int);
  }

  /** No encoding of a character starts the encoding of another. */
  lemma Utf8PrefixFree(c: char, d: char, more: seq<int>, rest: seq<int>)
    requires Utf8Char(c) + more == Utf8Char(d) + rest
    ensures c == d && more == rest
  {
    var x, y := Utf8Char(c), Utf8Char(d);
    assert x[0] == (x + more)[0] == (y + rest)[0] == y[0];
    assert |x| == |y|;
    assert x == (x + more)[..|x|] == y;
    assert more == (x + more)[|x|..] == rest;
    Utf8CharInjective(c, d);
  }

  function Utf8Value(bytes: seq<int>): int
    requires 1 <= |bytes| <= 4
  {
    match |bytes|
    case 1 => bytes[0]
    case 2 => (bytes[0] - 0xC0) * 0x40 + (bytes[1] - 0x80)
    case 3 => (bytes[0] - 0xE0) * 0x1000 + (bytes[1] - 0x80) * 0x40 + (bytes[2] - 0x80)
    case _ => (bytes[0] - 0xF0) * 0x4_0000 + (bytes[1] - 0x80) * 0x1000 + (bytes[2] - 0x80) * 0x40 + (bytes[3] - 0x80)
  }

  lemma Digit64(v: int)
    requires 0 <= v
    ensures v == v / 0x40 * 0x40 + v % 0x40
    ensures v / 0x1000 == v / 0x40 / 0x40 && v / 0x4_0000 == v / 0x1000 / 0x40
  {
  }

  lemma Digits64(v: int)
    requires 0 <= v
    ensures v == v / 0x40 * 0x40 + v % 0x40
    ensures v == v / 0x1000 * 0x1000 + v / 0x40 % 0x40 * 0x40 + v % 0x40
    ensures v == v / 0x4_0000 * 0x4_0000 + v / 0x1000 % 0x40 * 0x1000 + v / 0x40 % 0x40 * 0x40 + v % 0x40
  {
    Digit64(v);
    Digit64(v / 0x40);
    Digit64(v / 0x1000);
  }

  lemma Utf8CharValue(c: char)
    ensures Utf8Value(Utf8Char(c)) == c as int
  {
    Digits64(c as int);
  }

  lemma Utf8CharInjective(c: char, d: char)
    requires Utf8Char(c) == Utf8Char(d)
    ensures c == d
  {
    Utf8CharValue(c);
    Utf8CharValue(d);
  }

  lemma {:induction false} Utf8Injective(a: string, b: string)
    requires Utf8(a) == Utf8(b)
    ensures a == b
  {
    if a != "" && b != "" {
      Utf8PrefixFree(a[0], b[0], Utf8(a[1..]), Utf8(b[1..]));
      Utf8Injective(a[1..], b[1..]);
      assert a == [a[0]] + a[1..] && b == [b[0]] + b[1..];
    }
  }

  predicate FirstLess(a: seq<int>, b: seq<int>, p: nat) {
    p < |a| && p < |b| && a[..p] == b[..p] && a[p] < b[p]
  }

  /** A first difference decides. */
  lemma LexFirst(a: seq<int>, b: seq<int>, p: nat)
    requires FirstLess(a, b, p)
    ensures Lex(a, b) == Less
  {
    assert a == a[..p] + a[p..] && b == b[..p] + b[p..];
    LexCommonPrefix(a[..p], a[p..], b[p..]);
  }

  lemma Split64(v: int, w: int)
    requires 0 <= v < w
    ensures v / 0x40 < w / 0x40 || (v / 0x40 == w / 0x40 && v % 0x40 < w % 0x40)
  {
    Digit64(v);
    Digit64(w);
  }

  lemma TwoBytesOrder(v: int, w: int) returns (p: nat)
    requires 0 <= v < w
    ensures FirstLess(TwoBytes(v), TwoBytes(w), p)
  {
    Split64(v, w);
    p := if v / 0x40 < w / 0x40 then 0 else 1;
  }

  lemma ThreeBytesOrder(v: int, w: int) returns (p: nat)
    requires 0 <= v < w
    ensures FirstLess(ThreeBytes(v), ThreeBytes(w), p)
  {
    Digit64(v);
    Digit64(w);
    Split64(v, w);
    if v / 0x40 < w / 0x40 {
      Split64(v / 0x40, w / 0x40);
      p := if v / 0x1000 < w / 0x1000 then 0 else 1;
    } else {
      p := 2;
    }
  }

  lemma FourBytesOrder(v: int, w: int) returns (p: nat)
    requires 0 <= v < w
    ensures FirstLess(FourBytes(v), FourBytes(w), p)
  {
    Digit64(v);
    Digit64(w);
    Split64(v, w);
    if v / 0x40 < w / 0x40 {
      Split64(v / 0x40, w / 0x40);
      if v / 0x1000 < w / 0x1000 {
        Split64(v / 0x1000, w / 0x1000);
        p := if v / 0x4_0000 < w / 0x4_0000 then 0 else 1;
      } else {
        p := 2;
      }
    } else {
      p := 3;
    }
  }

  lemma FirstByteOrder(c: char, d: char)
    requires c < d && (c as int < 0x80 || |Utf8Char(c)| != |Utf8Char(d)|)
    ensures Utf8Char(c)[0] < Utf8Char(d)[0]
  {
  }

  /** Where the bytes of two characters first differ, those of the smaller one are smaller. */
  lemma CharOrder(c: char, d: char) returns (p: nat)
    requires c < d
    ensures FirstLess(Utf8Char(c), Utf8Char(d), p)
  {
    var v, w := c as int, d as int;
    if v < 0x80 || |Utf8Char(c)| != |Utf8Char(d)| {
      FirstByteOrder(c, d);
      p := 0;
    } else if w < 0x800 {
      p := TwoBytesOrder(v, w);
    } else if w < 0x1_0000 {
      p := ThreeBytesOrder(v, w);
    } else {
      p := FourBytesOrder(v, w);
    }
  }

  lemma CharDecides(c: char, d: char, more: seq<int>, rest: seq<int>)
    requires c < d
    ensures Lex(Utf8Char(c) + more, Utf8Char(d) + rest) == Less
  {
    var p := CharOrder(c, d);
    var x, y := Utf8Char(c), Utf8Char(d);
    assert (x + more)[..p] == x[..p] && (y + rest)[..p] == y[..p];
    LexFirst(x + more, y + rest, p);
  }

  /** The order of the bytes is the order of the code points. */
  lemma {:induction false} Utf8Order(a: string, b: string)
    ensures Lex(Utf8(a), Utf8(b)) == Less <==> TextLess(a, b)
  {
    if a != "" && b != "" {
      var more, rest := Utf8(a[1..]), Utf8(b[1..]);
      if a[0] == b[0] {
        Utf8Order(a[1..], b[1..]);
        LexCommonPrefix(Utf8Char(a[0]), more, rest);
      } else if a[0] < b[0] {
        CharDecides(a[0], b[0], more, rest);
      } else {
        CharDecides(b[0], a[0], rest, more);
        LexFlips(Utf8(b), Utf8(a));
      }
    }
  }

  function AllUtf8(pieces: seq<string>): seq<seq<int>> {
    if pieces == [] then [] else [Utf8(pieces[0])] + AllUtf8(pieces[1..])
  }

  lemma {:induction false} FlatUtf8(pieces: seq<string>)
    ensures Flat(AllUtf8(pieces)) == Utf8(Flat(pieces))
  {
    if pieces != [] {
      FlatUtf8(pieces[1..]);
      Utf8Join(pieces[0], Flat(pieces[1..]));
    }
  }

  /** `Ord::cmp`: the order of the printed texts, by their bytes. */
  method Compare(a: AmbientInput, b: AmbientInput) returns (order: Ordering)
    ensures order == Lex(Utf8(Print(a)), Utf8(Print(b)))
    ensures order == Less <==> TextLess(Print(a), Print(b))
    ensures order == Greater <==> TextLess(Print(b), Print(a))
  {
    Utf8Order(Print(a), Print(b));
    Utf8Order(Print(b), Print(a));
    LexFlips(Utf8(Print(b)), Utf8(Print(a)));
    FlatUtf8(Pieces(a));
    FlatUtf8(Pieces(b));
    order := ComparePieces(AllUtf8(Pieces(a)), AllUtf8(Pieces(b)));
  }

  /** Only equal inputs print alike, so only they compare equal. */
  lemma EqualOnlyWhenSame(a: AmbientInput, b: AmbientInput, recode: string -> Option<string>)
    requires Constructed(a, recode) && Constructed(b, recode)
    ensures Lex(Utf8(Print(a)), Utf8(Print(b))) == Equal <==> a == b
  {
    LexEqual(Utf8(Print(a)), Utf8(Print(b)));
    if Utf8(Print(a)) == Utf8(Print(b)) {
      Utf8Injective(Print(a), Print(b));
      SamePrintSameInput(a, b, recode);
    }
  }

  lemma SamePrintSameInput(a: AmbientInput, b: AmbientInput, recode: string -> Option<string>)
    requires Constructed(a, recode) && Constructed(b, recode) && Print(a) == Print(b)
    ensures a == b
  {
    PrintThenParse(a, recode);
    PrintThenParse(b, recode);
    if a.UserPropertyLookup? {
      LookupPrefix(a);
      LookupPrefix(b);
      assert Print(a)[21..] == a.template && Print(b)[21..] == b.template;
    } else if b.UserPropertyLookup? {
      LookupPrefix(b);
      LookupPrefix(a);
    }
  }

  lemma LookupPrefix(input: AmbientInput)
    ensures "user-property-lookup:" <= Print(input) <==> input.UserPropertyLookup?
    ensures input.UserPropertyLookup? ==> Print(input) == "user-property-lookup:" + input.template
  {
    PrintOfPlain(input);
    match input
    case Condition(condition, holds) =>
      PrintOfCondition(condition, holds);
      StartOfTested(condition, Outcome(holds));
      TestedIsNotPlain(PrintCondition(condition) + Outcome(holds));
    case Env(_) => assert Print(input)[0] == 'e';
    case SettingsProperty(_) => assert Print(input)[0] == 's';
    case UserProperty(_) => assert Print(input)[13] == ':';
    case _ =>
  }
}
