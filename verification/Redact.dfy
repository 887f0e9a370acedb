/**
 * Finding a secret value in a URL path or a message (`rv-config/src/redact.rs`).
 *
 * A `${...}` left in the value stands for any text, so the value is cut into literal
 * parts, and a greedy scan places the parts one after the other. Text is a sequence of
 * Unicode characters; the source's byte offsets all fall on character boundaries.
 */
module Redact {
  import opened Prelude

  // ----- searching -----

  /** `text[from..].find(part)`, as a position in `text`. */
  function Find(text: string, from: nat, part: string): (found: Option<nat>)
    requires from <= |text|
    ensures found.Some? ==> from <= found.value && OccursAt(text, part, found.value)
    ensures found.Some? ==> forall k | from <= k < found.value :: !OccursAt(text, part, k)
    ensures found.None? ==> forall k | from <= k :: !OccursAt(text, part, k)
    decreases |text| - from
  {
    if OccursAt(text, part, from) then Some(from)
    else if from < |text| then Find(text, from + 1, part)
    else None
  }

  /** Each place `part` starts in `text`, overlapping ones too, from a moving cursor. */
  class Occurrences {
    const text: string
    const part: string
    var at: nat

    constructor (text: string, from: nat, part: string)
      ensures this.text == text && this.part == part && at == from
    {
      this.text, this.part, this.at := text, part, from;
    }

    /** The next place; no occurrence between the old cursor and the result is passed over. */
    method Next() returns (found: Option<nat>)
      modifies this
      ensures found.Some? ==>
                && old(at) <= found.value && OccursAt(text, part, found.value)
                && (forall k | old(at) <= k < found.value :: !OccursAt(text, part, k))
                && at == found.value + 1
      ensures found.None? ==> at == old(at) && forall k | at <= k :: !OccursAt(text, part, k)
    {
      if at > |text| {
        return None;
      }
      found := Find(text, at, part);
      if found.Some? {
        at := found.value + 1;
      }
    }
  }

  // ----- the literal parts of a value -----

  /** How many braces are open after the first `k` characters, one being open at the start. */
  function Depth(text: string, k: nat): int
    requires k <= |text|
  {
    if k == 0 then 1
    else Depth(text, k - 1) + (if text[k - 1] == '{' then 1 else if text[k - 1] == '}' then -1 else 0)
  }

  /** The brace at `at` closes the one opened before `text`. */
  ghost predicate Closes(text: string, at: nat) {
    at < |text| && Depth(text, at + 1) == 0 && forall k | 0 <= k <= at :: Depth(text, k) > 0
  }

  /** `closing_brace`: the first position whose brace brings the count to zero. */
  method ClosingBrace(text: string) returns (at: Option<nat>)
    ensures at == ClosingBraceFrom(text, 0)
    ensures at.Some? ==> Closes(text, at.value)
    ensures at.None? ==> forall k :: !Closes(text, k)
  {
    var depth := 1;
    for i := 0 to |text|
      invariant depth == Depth(text, i)
      invariant forall k | 0 <= k <= i :: Depth(text, k) > 0
      invariant ClosingBraceFrom(text, 0) == ClosingBraceFrom(text, i)
    {
      if text[i] == '{' {
        depth := depth + 1;
      } else if text[i] == '}' {
        depth := depth - 1;
      }
      if depth == 0 {
        return Some(i);
      }
    }
    return None;
  }

  function ClosingBraceFrom(text: string, i: nat): (at: Option<nat>)
    requires i <= |text|
    ensures at.Some? ==> i <= at.value < |text| && Depth(text, at.value + 1) == 0
    ensures at.Some? ==> forall k | i < k <= at.value :: Depth(text, k) != 0
    ensures at.None? ==> forall k | i < k <= |text| :: Depth(text, k) != 0
    decreases |text| - i
  {
    if i == |text| then None
    else if Depth(text, i + 1) == 0 then Some(i)
    else ClosingBraceFrom(text, i + 1)
  }

  /** The text before the first closed `${`, the text inside it, and the text after it. */
  datatype Cut = Whole | Cut(before: string, hole: string, after: string)

  function FirstCut(value: string): (cut: Cut)
    ensures cut.Cut? ==> |cut.after| < |value|
  {
    match Find(value, 0, "${")
    case None => Whole
    case Some(start) =>
      var inner := value[start + 2..];
      match ClosingBraceFrom(inner, 0)
      case None => Whole
      case Some(end) => Cut(value[..start], inner[..end], inner[end + 1..])
  }

  /** A cut puts the value back together. */
  lemma CutRebuilds(value: string)
    requires FirstCut(value).Cut?
    ensures var cut := FirstCut(value); value == cut.before + "${" + cut.hole + "}" + cut.after
  {
    var start := Find(value, 0, "${").value;
    var inner := value[start + 2..];
    var end := ClosingBraceFrom(inner, 0).value;
    ClosingCharacter(inner, end);
    assert value[start..start + 2] == "${";
    assert value == value[..start] + "${" + inner[..end] + "}" + inner[end + 1..];
  }

  /** A count that moves by one a character first reaches zero at a closing brace. */
  lemma ClosingCharacter(text: string, end: nat)
    requires ClosingBraceFrom(text, 0) == Some(end)
    ensures text[end] == '}' && Closes(text, end)
  {
    PositiveBefore(text, end);
    assert Depth(text, end + 1) <= Depth(text, end) <= Depth(text, end + 1) + 1;
  }

  lemma {:induction false} PositiveBefore(text: string, end: nat)
    requires end <= |text| && forall k | 0 < k <= end :: Depth(text, k) != 0
    ensures forall k | 0 <= k <= end :: Depth(text, k) > 0
  {
    if end > 0 {
      PositiveBefore(text, end - 1);
    }
  }

  /** `literal_parts`, one cut at a time. */
  function LiteralParts(value: string): (parts: seq<string>)
    ensures |parts| > 0
    decreases |value|
  {
    match FirstCut(value)
    case Whole => [value]
    case Cut(before, _, after) => [before] + LiteralParts(after)
  }

  method SplitLiteralParts(value: string) returns (parts: seq<string>)
    ensures parts == LiteralParts(value)
  {
    parts := [];
    var rest := value;
    SplitStarts(value);
    while true
      invariant Splits(value, parts, rest)
      decreases |rest|
    {
      var cut := NextCut(rest);
      if cut.Whole? {
        break;
      }
      SplitStep(value, parts, rest);
      parts := parts + [cut.before];
      rest := cut.after;
    }
    SplitEnds(value, parts, rest);
    return parts + [rest];
  }

  /** The guard of the loop: the first `${`, and the brace that closes it. */
  method NextCut(rest: string) returns (cut: Cut)
    ensures cut == FirstCut(rest)
  {
    var start := Find(rest, 0, "${");
    if start.None? {
      return Whole;
    }
    var inner := rest[start.value + 2..];
    var end := ClosingBrace(inner);
    if end.None? {
      return Whole;
    }
    CutEnds(rest, start.value, end.value);
    return Cut(rest[..start.value], inner[..end.value], rest[start.value + 2 + end.value + 1..]);
  }

  lemma CutEnds(rest: string, start: nat, end: nat)
    requires start + 2 <= |rest| && end < |rest[start + 2..]|
    ensures rest[start + 2..][end + 1..] == rest[start + 2 + end + 1..]
  {
  }

  lemma SplitStarts(value: string)
    ensures Splits(value, [], value)
  {
  }

  lemma SplitStep(value: string, parts: seq<string>, rest: string)
    requires Splits(value, parts, rest) && FirstCut(rest).Cut?
    ensures Splits(value, parts + [FirstCut(rest).before], FirstCut(rest).after)
  {
    PartsOfCut(rest);
    Regroup(parts, [FirstCut(rest).before], LiteralParts(FirstCut(rest).after));
  }

  lemma SplitEnds(value: string, parts: seq<string>, rest: string)
    requires Splits(value, parts, rest) && FirstCut(rest).Whole?
    ensures parts + [rest] == LiteralParts(value)
  {
  }

  lemma PartsOfCut(value: string)
    requires FirstCut(value).Cut?
    ensures LiteralParts(value) == [FirstCut(value).before] + LiteralParts(FirstCut(value).after)
    ensures Holes(value) == [FirstCut(value).hole] + Holes(FirstCut(value).after)
  {
  }

  /** The parts found so far and those of the rest make up the whole. */
  ghost predicate Splits(value: string, parts: seq<string>, rest: string) {
    LiteralParts(value) == parts + LiteralParts(rest)
  }

  /** The value written back from its parts and the text inside each `${...}`. */
  function Rebuild(parts: seq<string>, holes: seq<string>): string
    requires |parts| == |holes| + 1
  {
    if holes == [] then parts[0]
    else parts[0] + "${" + holes[0] + "}" + Rebuild(parts[1..], holes[1..])
  }

  /** A brace-balanced text, whose own closing brace would be the next character. */
  ghost predicate Balanced(hole: string) {
    Closes(hole + "}", |hole|)
  }

  predicate HasOpening(part: string) {
    Find(part, 0, "${").Some?
  }

  /** The first `${` of `rest`, if it has one, never closes. */
  ghost predicate NeverCloses(rest: string) {
    HasOpening(rest) ==> forall end: nat :: !Closes(Inner(rest), end)
  }

  /** What follows the first `${`. */
  function Inner(text: string): string
    requires HasOpening(text)
  {
    text[Find(text, 0, "${").value + 2..]
  }

  /**
   * What the parts are, apart from how they are found: the value is the parts with a
   * balanced `${...}` between each two, no part but the last holds a `${`, and the last
   * holds none that closes.
   */
  ghost predicate Decomposes(value: string, parts: seq<string>, holes: seq<string>) {
    && |parts| == |holes| + 1
    && value == Rebuild(parts, holes)
    && (forall i | 0 <= i < |holes| :: Balanced(holes[i]) && !HasOpening(parts[i]))
    && NeverCloses(parts[|holes|])
  }

  function Holes(value: string): (holes: seq<string>)
    decreases |value|
  {
    match FirstCut(value)
    case Whole => []
    case Cut(_, hole, after) => [hole] + Holes(after)
  }

  /** Every value decomposes into its literal parts. */
  lemma {:induction false} PartsDecompose(value: string)
    ensures Decomposes(value, LiteralParts(value), Holes(value))
    decreases |value|
  {
    var cut := FirstCut(value);
    if cut.Cut? {
      PartsDecompose(cut.after);
      CutIsBalanced(value);
      CutRebuilds(value);
    } else {
      UncutNeverCloses(value);
    }
  }

  lemma {:induction false} DepthOfPrefix(a: string, b: string, k: nat)
    requires k <= |a| && k <= |b| && a[..k] == b[..k]
    ensures Depth(a, k) == Depth(b, k)
  {
    if k > 0 {
      assert a[..k - 1] == a[..k][..k - 1] && b[..k - 1] == b[..k][..k - 1];
      assert a[k - 1] == a[..k][k - 1] && b[k - 1] == b[..k][k - 1];
      DepthOfPrefix(a, b, k - 1);
    }
  }

  lemma ClosesOfPrefix(a: string, b: string, at: nat)
    requires at < |a| && at < |b| && a[..at + 1] == b[..at + 1] && Closes(a, at)
    ensures Closes(b, at)
  {
    forall k | 0 <= k <= at + 1 ensures Depth(a, k) == Depth(b, k) {
      assert a[..k] == a[..at + 1][..k] && b[..k] == b[..at + 1][..k];
      DepthOfPrefix(a, b, k);
    }
  }

  lemma CutIsBalanced(value: string)
    requires FirstCut(value).Cut?
    ensures Balanced(FirstCut(value).hole) && !HasOpening(FirstCut(value).before)
  {
    var start := Find(value, 0, "${").value;
    var inner := value[start + 2..];
    HoleIsBalanced(inner, ClosingBraceFrom(inner, 0).value);
    OpeningSurvives(value[..start], value[start..]);
    assert value == value[..start] + value[start..];
  }

  lemma HoleIsBalanced(inner: string, end: nat)
    requires ClosingBraceFrom(inner, 0) == Some(end)
    ensures Balanced(inner[..end])
  {
    ClosingCharacter(inner, end);
    var hole := inner[..end] + "}";
    assert inner[..end + 1] == hole == hole[..end + 1];
    ClosesOfPrefix(inner, hole, end);
  }

  /** A `${` inside a text is still there, or came earlier, when more text follows. */
  lemma OpeningSurvives(part: string, more: string)
    ensures HasOpening(part) ==> Find(part + more, 0, "${").Some? && Find(part + more, 0, "${").value < |part|
  {
    if HasOpening(part) {
      var at := Find(part, 0, "${").value;
      assert (part + more)[at..at + 2] == part[at..at + 2];
      assert OccursAt(part + more, "${", at);
    }
  }

  lemma ClosesIsFound(text: string, end: nat)
    ensures Closes(text, end) ==> ClosingBraceFrom(text, 0) == Some(end)
  {
  }

  lemma UncutNeverCloses(value: string)
    requires FirstCut(value).Whole?
    ensures NeverCloses(value)
  {
    if HasOpening(value) {
      var inner := Inner(value);
      forall end: nat ensures !Closes(inner, end) {
        ClosesIsFound(inner, end);
      }
    }
  }

  /** No other decomposition exists, so the parts are determined by what they mean. */
  lemma {:induction false} DecompositionIsUnique(value: string, parts: seq<string>, holes: seq<string>)
    requires Decomposes(value, parts, holes)
    ensures parts == LiteralParts(value) && holes == Holes(value)
    decreases |holes|
  {
    if holes == [] {
      assert parts == [value];
      UncutWhenNeverCloses(value);
    } else {
      DecomposesRest(value, parts, holes);
      DecompositionIsUnique(FirstCut(value).after, parts[1..], holes[1..]);
      PartsOfCut(value);
      HeadAndRest(parts);
      HeadAndRest(holes);
    }
  }

  lemma DecomposesRest(value: string, parts: seq<string>, holes: seq<string>)
    requires Decomposes(value, parts, holes) && holes != []
    ensures FirstCut(value) == Cut(parts[0], holes[0], Rebuild(parts[1..], holes[1..]))
    ensures Decomposes(FirstCut(value).after, parts[1..], holes[1..])
  {
    assert Balanced(holes[0]) && !HasOpening(parts[0]);
    FirstCutOfRebuilt(parts[0], holes[0], Rebuild(parts[1..], holes[1..]));
  }

  lemma UncutWhenNeverCloses(value: string)
    requires NeverCloses(value)
    ensures FirstCut(value).Whole?
  {
    if HasOpening(value) {
      var inner := Inner(value);
      var end := ClosingBraceFrom(inner, 0);
      if end.Some? {
        PositiveBefore(inner, end.value);
        assert Closes(inner, end.value);
      }
    }
  }

  lemma FirstCutOfRebuilt(before: string, hole: string, after: string)
    requires !HasOpening(before) && Balanced(hole)
    ensures FirstCut(before + "${" + hole + "}" + after) == Cut(before, hole, after)
  {
    var value := before + "${" + hole + "}" + after;
    var inner := hole + "}" + after;
    assert value == before + "${" + inner;
    FirstOpening(before, inner);
    assert value[|before| + 2..] == inner && value[..|before|] == before;
    HoleCloses(hole, after);
  }

  lemma HoleCloses(hole: string, after: string)
    requires Balanced(hole)
    ensures var inner := hole + "}" + after;
            ClosingBraceFrom(inner, 0) == Some(|hole|) && inner[..|hole|] == hole && inner[|hole| + 1..] == after
  {
    var inner := hole + "}" + after;
    assert inner[..|hole| + 1] == hole + "}" == (hole + "}")[..|hole| + 1];
    ClosesOfPrefix(hole + "}", inner, |hole|);
    ClosesIsFound(inner, |hole|);
  }

  lemma OpeningBefore(before: string, more: string, at: nat)
    ensures OccursAt(before + more, "${", at) && at + 2 <= |before| ==> OccursAt(before, "${", at)
  {
    if OccursAt(before + more, "${", at) && at + 2 <= |before| {
      assert before[at..at + 2] == (before + more)[at..at + 2];
    }
  }

  lemma FirstOpening(before: string, more: string)
    requires !HasOpening(before)
    ensures Find(before + "${" + more, 0, "${") == Some(|before|)
  {
    var value := before + "${" + more;
    assert value[|before|..|before| + 2] == "${";
    assert OccursAt(value, "${", |before|);
    var at := Find(value, 0, "${").value;
    assert value[at..at + 2] == "${";
    assert value[at] == value[at..at + 2][0] && value[at + 1] == value[at..at + 2][1];
    OpeningBefore(before, "${" + more, at);
    assert value == before + ("${" + more);
  }

  // ----- holding a value -----

  predicate Separator(c: char) {
    c == '/' || c == '\\'
  }

  predicate Textual(part: string) {
    exists i | 0 <= i < |part| :: !Separator(part[i])
  }

  /** Some part has a character that is no separator. */
  predicate SomeTextual(parts: seq<string>) {
    exists i | 0 <= i < |parts| :: Textual(parts[i])
  }

  predicate StartsSegment(text: string, at: nat, part: string, segments: bool)
    requires at <= |text|
  {
    !segments || at == 0 || Separator(text[at - 1]) || part == "" || Separator(part[0])
  }

  predicate EndsSegment(text: string, at: nat, part: string, segments: bool)
    requires at + |part| <= |text|
  {
    !segments || at + |part| == |text| || Separator(text[at + |part|]) || part == "" || Separator(part[|part| - 1])
  }

  /** The parts stand in `text` in order without overlap, between two segment edges. */
  ghost predicate Placed(text: string, parts: seq<string>, segments: bool, places: seq<nat>) {
    && |places| == |parts| > 0
    && (forall i | 0 <= i < |parts| :: OccursAt(text, parts[i], places[i]))
    && (forall i | 0 < i < |parts| :: places[i - 1] + |parts[i - 1]| <= places[i])
    && StartsSegment(text, places[0], parts[0], segments)
    && EndsSegment(text, places[|parts| - 1], parts[|parts| - 1], segments)
  }

  ghost predicate Holds(text: string, value: string, segments: bool) {
    var parts := LiteralParts(value);
    SomeTextual(parts) && exists places: seq<nat> :: Placed(text, parts, segments, places)
  }

  /** `holds_value`: the greedy scan decides exactly whether some placement exists. */
  method HoldsValue(text: string, value: string, segments: bool) returns (holds: bool)
    ensures holds <==> Holds(text, value, segments)
  {
    var parts := SplitLiteralParts(value);
    if !SomeTextual(parts) {
      return false;
    }
    if |parts| == 1 {
      holds := PlaceLast(text, 0, parts[0], segments, true);
      SinglePart(text, parts, segments);
    } else {
      holds := PlaceParts(text, parts, segments);
    }
  }

  /** No placement ends its part `i` before `end`. */
  ghost predicate EarliestEnd(text: string, parts: seq<string>, segments: bool, i: nat, end: nat) {
    forall places: seq<nat> | Placed(text, parts, segments, places) && i < |parts| :: end <= places[i] + |parts[i]|
  }

  /** The first parts stand in `text` in order, the last of them ending at `end`. */
  ghost predicate Begun(text: string, parts: seq<string>, segments: bool, places: seq<nat>, end: nat) {
    && 0 < |places| <= |parts|
    && (forall i | 0 <= i < |places| :: OccursAt(text, parts[i], places[i]))
    && (forall i | 0 < i < |places| :: places[i - 1] + |parts[i - 1]| <= places[i])
    && StartsSegment(text, places[0], parts[0], segments)
    && end == places[|places| - 1] + |parts[|places| - 1]|
  }

  /** Two parts or more: the earliest start leaves the most room for the rest. */
  method PlaceParts(text: string, parts: seq<string>, segments: bool) returns (holds: bool)
    requires |parts| > 1
    ensures holds <==> exists places: seq<nat> :: Placed(text, parts, segments, places)
  {
    var n := |parts|;
    var start := EarliestStart(text, parts[0], segments);
    if start.None? {
      return false;
    }
    var at: nat := start.value + |parts[0]|;
    ghost var greedy: seq<nat> := [start.value];
    for i := 1 to n - 1
      invariant |greedy| == i && at <= |text|
      invariant Begun(text, parts, segments, greedy, at)
      invariant EarliestEnd(text, parts, segments, i - 1, at)
    {
      var found := Find(text, at, parts[i]);
      NextIsLater(text, parts, segments, i, at);
      if found.None? {
        return false;
      }
      BegunFurther(text, parts, segments, greedy, at, found.value);
      greedy := greedy + [found.value];
      at := found.value + |parts[i]|;
    }
    holds := PlaceLast(text, at, parts[n - 1], segments, false);
    NextIsLater(text, parts, segments, n - 1, at);
    if holds {
      LastPlaced(text, parts, segments, greedy, at);
    }
  }

  lemma LastPlaced(text: string, parts: seq<string>, segments: bool, greedy: seq<nat>, at: nat)
    requires |parts| == |greedy| + 1 && Begun(text, parts, segments, greedy, at)
    requires exists k: nat ::
             at <= k && OccursAt(text, parts[|greedy|], k) && EndsSegment(text, k, parts[|greedy|], segments)
    ensures exists places: seq<nat> :: Placed(text, parts, segments, places)
  {
    var last: nat :| at <= last && OccursAt(text, parts[|greedy|], last)
      && EndsSegment(text, last, parts[|greedy|], segments);
    BegunFurther(text, parts, segments, greedy, at, last);
    assert Placed(text, parts, segments, greedy + [last]);
  }

  lemma BegunFurther(text: string, parts: seq<string>, segments: bool, places: seq<nat>, end: nat, next: nat)
    requires Begun(text, parts, segments, places, end) && |places| < |parts|
    requires end <= next && OccursAt(text, parts[|places|], next)
    ensures Begun(text, parts, segments, places + [next], next + |parts[|places|]|)
  {
  }

  /** The exchange step: every placement has its part `i` at or after the greedy end. */
  lemma NextIsLater(text: string, parts: seq<string>, segments: bool, i: nat, at: nat)
    requires 0 < i < |parts| && EarliestEnd(text, parts, segments, i - 1, at)
    ensures forall places: seq<nat> | Placed(text, parts, segments, places) ::
              at <= places[i] && OccursAt(text, parts[i], places[i])
  {
  }

  lemma SinglePart(text: string, parts: seq<string>, segments: bool)
    requires |parts| == 1
    ensures (exists places: seq<nat> :: Placed(text, parts, segments, places)) <==>
            exists at: nat ::
              && OccursAt(text, parts[0], at) && EndsSegment(text, at, parts[0], segments)
              && StartsSegment(text, at, parts[0], segments)
  {
    forall at: nat | && OccursAt(text, parts[0], at) && EndsSegment(text, at, parts[0], segments)
                     && StartsSegment(text, at, parts[0], segments)
      ensures exists places: seq<nat> :: Placed(text, parts, segments, places)
    {
      assert Placed(text, parts, segments, [at]);
    }
  }

  /** The first place of the first part that starts a segment. */
  method EarliestStart(text: string, part: string, segments: bool) returns (start: Option<nat>)
    ensures start.Some? ==> OccursAt(text, part, start.value) && StartsSegment(text, start.value, part, segments)
    ensures start.Some? ==>
              forall k: nat | OccursAt(text, part, k) && StartsSegment(text, k, part, segments) :: start.value <= k
    ensures start.None? ==> forall k: nat | OccursAt(text, part, k) :: !StartsSegment(text, k, part, segments)
  {
    var found := new Occurrences(text, 0, part);
    while true
      invariant found.text == text && found.part == part
      invariant forall k: nat | k < found.at && OccursAt(text, part, k) :: !StartsSegment(text, k, part, segments)
      decreases |text| + 1 - found.at
    {
      var at := found.Next();
      if at.None? {
        return None;
      }
      if StartsSegment(text, at.value, part, segments) {
        return Some(at.value);
      }
    }
  }

  /** Whether some place of the last part ends a segment, and starts one as well when `starts`. */
  method PlaceLast(text: string, from: nat, part: string, segments: bool, starts: bool) returns (placed: bool)
    ensures placed <==> exists k: nat ::
                          && from <= k && OccursAt(text, part, k) && EndsSegment(text, k, part, segments)
                          && (starts ==> StartsSegment(text, k, part, segments))
  {
    var found := new Occurrences(text, from, part);
    while true
      invariant found.text == text && found.part == part && from <= found.at
      invariant forall k: nat | from <= k < found.at && OccursAt(text, part, k) ::
                  !(EndsSegment(text, k, part, segments) && (starts ==> StartsSegment(text, k, part, segments)))
      decreases |text| + 1 - found.at
    {
      var at := found.Next();
      if at.None? {
        return false;
      }
      if (!starts || StartsSegment(text, at.value, part, segments)) && EndsSegment(text, at.value, part, segments) {
        return true;
      }
    }
  }

  // ----- what holding means -----

  /** The parts with `gaps` in place of the `${...}` between them. */
  function Fill(parts: seq<string>, gaps: seq<string>): string
    requires |parts| == |gaps| + 1
  {
    if gaps == [] then parts[0] else parts[0] + gaps[0] + Fill(parts[1..], gaps[1..])
  }

  lemma {:induction false} FillLength(parts: seq<string>, gaps: seq<string>)
    requires |parts| == |gaps| + 1
    ensures |Fill(parts, gaps)| >= |parts[|gaps|]|
  {
    if gaps != [] {
      FillLength(parts[1..], gaps[1..]);
    }
  }

  /** `text` has, at `at`, the parts with `gaps` between them, the first and the last at a segment edge. */
  ghost predicate LaidOut(text: string, parts: seq<string>, segments: bool, gaps: seq<string>, at: nat) {
    && |parts| == |gaps| + 1
    && OccursAt(text, Fill(parts, gaps), at)
    && StartsSegment(text, at, parts[0], segments)
    && |Fill(parts, gaps)| >= |parts[|gaps|]|
    && EndsSegment(text, at + |Fill(parts, gaps)| - |parts[|gaps|]|, parts[|gaps|], segments)
  }

  /** `text` has, at `at`, the value with some text for each `${...}`, whole, from one segment edge to another. */
  ghost predicate HasFilled(text: string, parts: seq<string>, segments: bool, gaps: seq<string>, at: nat) {
    && |parts| == |gaps| + 1 && Fill(parts, gaps) != ""
    && OccursAt(text, Fill(parts, gaps), at)
    && StartsSegment(text, at, Fill(parts, gaps), segments) && EndsSegment(text, at, Fill(parts, gaps), segments)
  }

  /**
   * Placing the parts is the same as replacing each `${...}` by some text and finding the
   * result, whole, in `text`, with a segment edge at both its ends.
   */
  lemma HoldsMeansSomeFilling(text: string, value: string, segments: bool)
    ensures Holds(text, value, segments) <==>
            && SomeTextual(LiteralParts(value))
            && exists gaps: seq<string>, at: nat :: HasFilled(text, LiteralParts(value), segments, gaps, at)
  {
    var parts := LiteralParts(value);
    PlacedIffFilled(text, parts, segments);
    if SomeTextual(parts) {
      if gaps: seq<string>, at: nat :| LaidOut(text, parts, segments, gaps, at) {
        LaidOutIsFilled(text, parts, segments, gaps, at);
      }
      if gaps: seq<string>, at: nat :| HasFilled(text, parts, segments, gaps, at) {
        FilledIsLaidOut(text, parts, segments, gaps, at);
      }
    }
  }

  // ----- moving the edges -----

  lemma {:induction false} FillHolds(parts: seq<string>, gaps: seq<string>, i: nat)
    requires |parts| == |gaps| + 1 && i < |parts|
    ensures |Fill(parts, gaps)| >= |parts[i]|
    decreases |gaps|
  {
    if gaps != [] && i > 0 {
      FillHolds(parts[1..], gaps[1..], i - 1);
    }
  }

  lemma FillStarts(parts: seq<string>, gaps: seq<string>)
    requires |parts| == |gaps| + 1
    ensures parts[0] <= Fill(parts, gaps)
  {
  }

  lemma {:induction false} FillEnds(parts: seq<string>, gaps: seq<string>)
    requires |parts| == |gaps| + 1
    ensures HasSuffix(Fill(parts, gaps), parts[|gaps|])
    decreases |gaps|
  {
    if gaps != [] {
      FillEnds(parts[1..], gaps[1..]);
      SuffixOfJoined(parts[0] + gaps[0], Fill(parts[1..], gaps[1..]), parts[|gaps|]);
    }
  }

  lemma SuffixOfJoined(front: string, text: string, end: string)
    requires HasSuffix(text, end)
    ensures HasSuffix(front + text, end)
  {
    assert (front + text)[|front + text| - |end|..] == text[|text| - |end|..];
  }

  lemma SuffixEnds(text: string, end: string)
    requires HasSuffix(text, end) && end != ""
    ensures text != "" && text[|text| - 1] == end[|end| - 1]
  {
    assert text[|text| - |end|..][|end| - 1] == text[|text| - 1];
  }

  /** An edge of the whole is an edge of the part that stands there. */
  lemma FilledIsLaidOut(text: string, parts: seq<string>, segments: bool, gaps: seq<string>, at: nat)
    requires HasFilled(text, parts, segments, gaps, at)
    ensures LaidOut(text, parts, segments, gaps, at)
  {
    var filled := Fill(parts, gaps);
    FillStarts(parts, gaps);
    FillEnds(parts, gaps);
    if parts[|gaps|] != "" {
      SuffixEnds(filled, parts[|gaps|]);
    }
  }

  /** A `${...}` at an end of the value may as well reach to that end of the text. */
  lemma LaidOutIsFilled(text: string, parts: seq<string>, segments: bool, gaps: seq<string>, at: nat)
    requires LaidOut(text, parts, segments, gaps, at) && SomeTextual(parts)
    ensures exists gaps: seq<string>, at: nat :: HasFilled(text, parts, segments, gaps, at)
  {
    SomeTextStands(parts);
    var front, start := ReachFront(text, parts, segments, gaps, at);
    var back := ReachBack(text, parts, segments, front, start);
    var i :| 0 <= i < |parts| && parts[i] != "";
    FillHolds(parts, back, i);
    assert HasFilled(text, parts, segments, back, start);
  }

  lemma SomeTextStands(parts: seq<string>)
    requires SomeTextual(parts)
    ensures exists i | 0 <= i < |parts| :: parts[i] != ""
    ensures |parts| == 1 ==> parts[0] != ""
  {
    var i :| 0 <= i < |parts| && Textual(parts[i]);
    assert parts[i] != "";
  }

  /** The same place with a genuine edge at the start. */
  lemma ReachFront(text: string, parts: seq<string>, segments: bool, gaps: seq<string>, at: nat)
    returns (front: seq<string>, start: nat)
    requires LaidOut(text, parts, segments, gaps, at) && (|parts| == 1 ==> parts[0] != "")
    ensures LaidOut(text, parts, segments, front, start) && (parts[0] == "" ==> start == 0)
    ensures Fill(parts, front) != "" ==> StartsSegment(text, start, Fill(parts, front), segments)
  {
    if parts[0] == "" {
      front, start := gaps[0 := text[..at] + gaps[0]], 0;
      var filled := Fill(parts, gaps);
      FillFront(parts, gaps, text[..at]);
      assert Fill(parts, front) == text[..at + |filled|];
      FillHolds(parts, front, |gaps|);
    } else {
      front, start := gaps, at;
      FillStarts(parts, gaps);
    }
  }

  lemma FillFront(parts: seq<string>, gaps: seq<string>, more: string)
    requires |parts| == |gaps| + 1 && gaps != [] && parts[0] == ""
    ensures Fill(parts, gaps[0 := more + gaps[0]]) == more + Fill(parts, gaps)
  {
    var longer := gaps[0 := more + gaps[0]];
    assert longer[1..] == gaps[1..];
    Regroup(more, gaps[0], Fill(parts[1..], gaps[1..]));
  }

  /** The same start with a genuine edge at the end. */
  lemma ReachBack(text: string, parts: seq<string>, segments: bool, gaps: seq<string>, at: nat)
    returns (back: seq<string>)
    requires LaidOut(text, parts, segments, gaps, at) && (|parts| == 1 ==> parts[0] != "")
             && (parts[0] == "" ==> at == 0)
    requires Fill(parts, gaps) != "" ==> StartsSegment(text, at, Fill(parts, gaps), segments)
    ensures |parts| == |back| + 1 && OccursAt(text, Fill(parts, back), at)
    ensures Fill(parts, back) != "" ==> StartsSegment(text, at, Fill(parts, back), segments)
    ensures EndsSegment(text, at, Fill(parts, back), segments)
  {
    var n, filled := |gaps|, Fill(parts, gaps);
    if parts[n] == "" {
      var more := text[at + |filled|..];
      back := gaps[n - 1 := gaps[n - 1] + more];
      FillBack(parts, gaps, more);
      assert Fill(parts, back) == text[at..];
      BackKeepsFront(text, parts, segments, gaps, at, more);
    } else {
      back := gaps;
      FillEnds(parts, gaps);
      SuffixEnds(filled, parts[n]);
    }
  }

  lemma BackKeepsFront(text: string, parts: seq<string>, segments: bool, gaps: seq<string>, at: nat, more: string)
    requires LaidOut(text, parts, segments, gaps, at)
    requires Fill(parts, gaps) != "" ==> StartsSegment(text, at, Fill(parts, gaps), segments)
    requires parts[0] != "" || at == 0 || Fill(parts, gaps) != ""
    ensures Fill(parts, gaps) + more != "" ==> StartsSegment(text, at, Fill(parts, gaps) + more, segments)
  {
    FillStarts(parts, gaps);
  }

  lemma {:induction false} FillBack(parts: seq<string>, gaps: seq<string>, more: string)
    requires |parts| == |gaps| + 1 && gaps != [] && parts[|gaps|] == ""
    ensures Fill(parts, gaps[|gaps| - 1 := gaps[|gaps| - 1] + more]) == Fill(parts, gaps) + more
    decreases |gaps|
  {
    var n := |gaps|;
    var longer := gaps[n - 1 := gaps[n - 1] + more];
    if n == 1 {
      assert longer[1..] == [] && gaps[1..] == [];
      assert Fill(parts[1..], []) == "";
      assert Fill(parts, gaps) == parts[0] + gaps[0] && Fill(parts, longer) == parts[0] + longer[0];
      Regroup(parts[0], gaps[0], more);
    } else {
      FillBack(parts[1..], gaps[1..], more);
      assert longer[1..] == gaps[1..][n - 2 := gaps[1..][n - 2] + more];
      Regroup(parts[0] + gaps[0], Fill(parts[1..], gaps[1..]), more);
    }
  }

  lemma PlacedIffFilled(text: string, parts: seq<string>, segments: bool)
    ensures (exists places: seq<nat> :: Placed(text, parts, segments, places)) <==>
            (exists gaps: seq<string>, at: nat :: LaidOut(text, parts, segments, gaps, at))
  {
    forall places: seq<nat> | Placed(text, parts, segments, places)
      ensures exists gaps: seq<string>, at: nat :: LaidOut(text, parts, segments, gaps, at)
    {
      PlacedIsFilled(text, parts, segments, places);
    }
    forall gaps: seq<string>, at: nat | LaidOut(text, parts, segments, gaps, at)
      ensures exists places: seq<nat> :: Placed(text, parts, segments, places)
    {
      FilledIsPlaced(text, parts, segments, gaps, at);
    }
  }

  lemma PlacedIsFilled(text: string, parts: seq<string>, segments: bool, places: seq<nat>)
    requires Placed(text, parts, segments, places)
    ensures LaidOut(text, parts, segments, GapsBetween(text, parts, places), places[0])
  {
    var gaps := GapsBetween(text, parts, places);
    var n := |gaps|;
    FillsBetween(text, parts, places);
    FillLength(parts, gaps);
    assert places[0] + |Fill(parts, gaps)| == places[n] + |parts[n]|;
    assert OccursAt(text, Fill(parts, gaps), places[0]);
    assert StartsSegment(text, places[0], parts[0], segments);
    assert EndsSegment(text, places[n], parts[n], segments);
  }

  lemma FilledIsPlaced(text: string, parts: seq<string>, segments: bool, gaps: seq<string>, at: nat)
    requires LaidOut(text, parts, segments, gaps, at)
    ensures Placed(text, parts, segments, PlacesOf(parts, gaps, at))
  {
    PlacesOccur(text, parts, gaps, at);
  }

  ghost predicate Chain(text: string, parts: seq<string>, places: seq<nat>) {
    && |places| == |parts| > 0
    && (forall i | 0 <= i < |parts| :: OccursAt(text, parts[i], places[i]))
    && (forall i | 0 < i < |parts| :: places[i - 1] + |parts[i - 1]| <= places[i])
  }

  lemma ChainRest(text: string, parts: seq<string>, places: seq<nat>)
    requires Chain(text, parts, places) && |parts| > 1
    ensures Chain(text, parts[1..], places[1..])
  {
    forall i | 0 < i < |parts[1..]| ensures places[1..][i - 1] + |parts[1..][i - 1]| <= places[1..][i] {
      assert places[i] + |parts[i]| <= places[i + 1];
    }
  }

  lemma ChainLonger(text: string, parts: seq<string>, places: seq<nat>)
    requires |places| == |parts| > 1 && Chain(text, parts[1..], places[1..])
    requires OccursAt(text, parts[0], places[0]) && places[0] + |parts[0]| <= places[1]
    ensures Chain(text, parts, places)
  {
    forall i | 0 < i < |parts| ensures places[i - 1] + |parts[i - 1]| <= places[i] {
      if i > 1 {
        assert places[1..][i - 2] + |parts[1..][i - 2]| <= places[1..][i - 1];
      }
    }
    forall i | 0 <= i < |parts| ensures OccursAt(text, parts[i], places[i]) {
      if i > 0 {
        assert OccursAt(text, parts[1..][i - 1], places[1..][i - 1]);
      }
    }
  }

  /** The text between each part and the next. */
  ghost function GapsBetween(text: string, parts: seq<string>, places: seq<nat>): (gaps: seq<string>)
    requires Chain(text, parts, places)
    ensures |gaps| + 1 == |parts|
  {
    if |parts| == 1 then [] else
      ChainRest(text, parts, places);
      assert OccursAt(text, parts[1], places[1]);
      assert places[1 - 1] + |parts[1 - 1]| <= places[1];
      [text[places[0] + |parts[0]|..places[1]]] + GapsBetween(text, parts[1..], places[1..])
  }

  lemma {:induction false} FillsBetween(text: string, parts: seq<string>, places: seq<nat>)
    requires Chain(text, parts, places)
    ensures var n := |parts| - 1;
            && places[0] <= places[n] + |parts[n]| <= |text|
            && text[places[0]..places[n] + |parts[n]|] == Fill(parts, GapsBetween(text, parts, places))
    decreases |parts|
  {
    var n := |parts| - 1;
    assert OccursAt(text, parts[0], places[0]);
    if n > 0 {
      ChainRest(text, parts, places);
      FillsBetween(text, parts[1..], places[1..]);
      assert places[1 - 1] + |parts[1 - 1]| <= places[1];
      Joined(text, places[0], places[0] + |parts[0]|, places[1], places[n] + |parts[n]|);
    }
  }

  lemma Joined(text: string, a: nat, b: nat, c: nat, d: nat)
    requires a <= b <= c <= d <= |text|
    ensures text[a..d] == text[a..b] + text[b..c] + text[c..d]
  {
  }

  /** Where each part lands when the filled text starts at `at`. */
  function PlacesOf(parts: seq<string>, gaps: seq<string>, at: nat): (places: seq<nat>)
    requires |parts| == |gaps| + 1
    ensures |places| == |parts| && places[0] == at
  {
    if gaps == [] then [at] else [at] + PlacesOf(parts[1..], gaps[1..], at + |parts[0]| + |gaps[0]|)
  }

  lemma {:induction false} PlacesOccur(text: string, parts: seq<string>, gaps: seq<string>, at: nat)
    requires |parts| == |gaps| + 1 && OccursAt(text, Fill(parts, gaps), at)
    ensures Chain(text, parts, PlacesOf(parts, gaps, at))
    ensures PlacesOf(parts, gaps, at)[|gaps|] == at + |Fill(parts, gaps)| - |parts[|gaps|]|
    decreases |gaps|
  {
    if gaps != [] {
      var next := at + |parts[0]| + |gaps[0]|;
      OccursInPieces(text, parts[0], gaps[0], Fill(parts[1..], gaps[1..]), at);
      PlacesOccur(text, parts[1..], gaps[1..], next);
      var places := PlacesOf(parts, gaps, at);
      assert places[1..] == PlacesOf(parts[1..], gaps[1..], next);
      ChainLonger(text, parts, places);
    }
  }

  lemma OccursInPieces(text: string, a: string, b: string, c: string, at: nat)
    requires OccursAt(text, a + b + c, at)
    ensures OccursAt(text, a, at) && OccursAt(text, c, at + |a| + |b|)
  {
    var whole := text[at..at + |a + b + c|];
    assert text[at..at + |a|] == whole[..|a|];
    assert text[at + |a| + |b|..at + |a + b + c|] == whole[|a| + |b|..];
  }

  // ----- values that are one segment -----

  predicate Solid(text: string) {
    '/' !in text && '\\' !in text
  }

  /** The first slash or backslash. */
  function FirstSeparator(text: string): (at: Option<nat>)
    ensures at.Some? ==> at.value < |text| && text[at.value] in "/\\"
    ensures at.Some? ==> forall k | 0 <= k < at.value :: text[k] !in "/\\"
    ensures at.None? ==> Solid(text)
  {
    if text == "" then None
    else if text[0] in "/\\" then Some(0)
    else match FirstSeparator(text[1..])
      case None => None
      case Some(at) => Some(at + 1)
  }

  lemma FirstIs(text: string, at: nat)
    requires at < |text| && Separator(text[at]) && Solid(text[..at])
    ensures FirstSeparator(text) == Some(at)
  {
    assert forall k | 0 <= k < at :: text[..at][k] == text[k];
  }

  /** The text cut at its separators. */
  function Pieces(text: string): (pieces: seq<string>)
    ensures pieces != []
    decreases |text|
  {
    match FirstSeparator(text)
    case None => [text]
    case Some(at) => [text[..at]] + Pieces(text[at + 1..])
  }

  lemma {:induction false} PiecesOfTwo(a: string, c: char, b: string)
    requires Separator(c)
    ensures Pieces(a + [c] + b) == Pieces(a) + Pieces(b)
    decreases |a|
  {
    var text := a + [c] + b;
    match FirstSeparator(a)
    case None =>
      assert text[|a|] == c && text[..|a|] == a && text[|a| + 1..] == b;
      FirstIs(text, |a|);
    case Some(at) =>
      assert text[at] == a[at] && text[..at] == a[..at] && text[at + 1..] == a[at + 1..] + [c] + b;
      assert forall k | 0 <= k < at :: a[..at][k] == a[k];
      FirstIs(text, at);
      PiecesOfTwo(a[at + 1..], c, b);
      Regroup([a[..at]], Pieces(a[at + 1..]), Pieces(b));
  }

  lemma SolidPiece(text: string)
    requires Solid(text)
    ensures Pieces(text) == [text]
  {
  }

  /** A text that stands between separators or ends is a piece. */
  lemma StandingIsPiece(text: string, value: string, at: nat)
    requires OccursAt(text, value, at) && value != "" && Solid(value)
    requires StartsSegment(text, at, value, true) && EndsSegment(text, at, value, true)
    ensures value in Pieces(text)
  {
    var tail := text[at..];
    assert value <= tail && (tail == value || tail[|value|] == text[at + |value|]);
    FirstPiece(tail, value);
    if at > 0 {
      LaterPiece(text, at - 1);
    } else {
      assert text == tail;
    }
  }

  /** The first piece behind a separator is a piece. */
  lemma LaterPiece(text: string, at: nat)
    requires at < |text| && Separator(text[at])
    ensures Pieces(text[at + 1..])[0] in Pieces(text)
  {
    var front, tail := text[..at], text[at + 1..];
    assert text == front + [text[at]] + tail;
    PiecesOfTwo(front, text[at], tail);
    assert (Pieces(front) + Pieces(tail))[|Pieces(front)|] == Pieces(tail)[0];
  }

  lemma FirstPiece(tail: string, value: string)
    requires value <= tail && Solid(value) && (tail == value || Separator(tail[|value|]))
    ensures Pieces(tail)[0] == value
  {
    SolidPiece(value);
    if tail != value {
      FirstIs(tail, |value|);
    }
  }

  ghost predicate Stands(text: string, piece: string, at: nat) {
    && OccursAt(text, piece, at) && (at == 0 || Separator(text[at - 1]))
    && (at + |piece| == |text| || Separator(text[at + |piece|]))
  }

  lemma StandsLater(text: string, first: nat, piece: string, at: nat)
    requires first < |text| && Separator(text[first]) && Stands(text[first + 1..], piece, at)
    ensures Stands(text, piece, first + 1 + at)
  {
    var rest := text[first + 1..];
    assert text[first + 1 + at..first + 1 + at + |piece|] == rest[at..at + |piece|];
  }

  ghost predicate EachStands(text: string, pieces: seq<string>) {
    forall piece | piece in pieces :: exists at: nat :: Stands(text, piece, at)
  }

  /** What stands behind the first separator stands in the text, and so does what comes before it. */
  lemma EachStandsLater(text: string, first: nat, pieces: seq<string>)
    requires first < |text| && Separator(text[first]) && EachStands(text[first + 1..], pieces)
    ensures EachStands(text, [text[..first]] + pieces)
  {
    assert text[0..first] == text[..first];
    assert Stands(text, text[..first], 0);
    forall piece | piece in pieces ensures exists at: nat :: Stands(text, piece, at) {
      var at: nat :| Stands(text[first + 1..], piece, at);
      StandsLater(text, first, piece, at);
    }
  }

  /** The pieces of a text stand in it between separators or ends. */
  lemma {:induction false} PiecesStand(text: string)
    ensures EachStands(text, Pieces(text))
    decreases |text|
  {
    match FirstSeparator(text)
    case None =>
      assert text[0..|text|] == text;
      assert Stands(text, text, 0);
    case Some(first) =>
      PiecesStand(text[first + 1..]);
      EachStandsLater(text, first, Pieces(text[first + 1..]));
  }

  lemma OneLiteral(value: string)
    requires FirstCut(value).Whole?
    ensures LiteralParts(value) == [value]
  {
  }

  /** A value without `${...}` and separators is held as a whole segment exactly when it is one. */
  lemma HoldsMeansIsSegment(text: string, value: string)
    requires value != "" && Solid(value) && FirstCut(value).Whole?
    ensures Holds(text, value, true) <==> value in Pieces(text)
  {
    OneLiteral(value);
    SolidIsTextual(value);
    if places: seq<nat> :| Placed(text, [value], true, places) {
      StandingIsPiece(text, value, places[0]);
    }
    if value in Pieces(text) {
      PiecesStand(text);
      var at: nat :| Stands(text, value, at);
      StandsIsPlaced(text, value, at);
    }
  }

  lemma SolidIsTextual(value: string)
    requires value != "" && Solid(value)
    ensures SomeTextual([value])
  {
    var parts := [value];
    assert !Separator(value[0]);
    assert Textual(parts[0]);
  }

  lemma StandsIsPlaced(text: string, value: string, at: nat)
    requires Stands(text, value, at)
    ensures Placed(text, [value], true, [at])
  {
  }

  /** Outside segments it is held exactly when it occurs. */
  lemma HoldsMeansOccurs(text: string, value: string)
    requires value != "" && Solid(value) && FirstCut(value).Whole?
    ensures Holds(text, value, false) <==> exists at: nat :: OccursAt(text, value, at)
  {
    OneLiteral(value);
    SolidIsTextual(value);
    var parts := [value];
    if places: seq<nat> :| Placed(text, parts, false, places) {
      assert OccursAt(text, value, places[0]);
    }
    if at: nat :| OccursAt(text, value, at) {
      assert Placed(text, parts, false, [at]);
    }
  }
}
