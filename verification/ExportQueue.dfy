/**
 * The files one export will write (`rv-export/src/export.rs`): `ExportQueue::push` collapses
 * the recordings of one Maven path into one unit. Repository ids are a set, as the markers
 * that name them are.
 */
module ExportQueue {
  import opened Prelude

  datatype Key = Key(group: string, artifact: string, version: string, extension: string, classifier: Option<string>)

  datatype Gav = Gav(group: string, artifact: string, version: string)

  datatype Source = Package | CompanionPom | SupportPom

  datatype Unit = Unit(key: Key, blob: string, source: Source, repoIds: set<string>, recorded: bool, replace: bool)

  /** A companion POM whose ids were only inferred from the package that names it. */
  predicate Guessed(unit: Unit) {
    unit.source.CompanionPom? && !unit.recorded
  }

  /** One queued unit after another recording of its file. */
  function Collapse(previous: Unit, unit: Unit): Unit {
    if unit.recorded && Guessed(previous) then previous.(repoIds := unit.repoIds, recorded := true)
    else if previous.recorded && Guessed(unit) then previous
    else previous.(repoIds := previous.repoIds + unit.repoIds, recorded := previous.recorded || unit.recorded)
  }

  function Collapsed(log: seq<Unit>): Unit
    requires log != []
  {
    if |log| == 1 then log[0] else Collapse(Collapsed(log[..|log| - 1]), log[|log| - 1])
  }

  /** The pushes of one file, in order. */
  function Of(log: seq<Unit>, key: Key): (of: seq<Unit>)
    ensures forall unit :: unit in of <==> unit in log && unit.key == key
  {
    if log == [] then []
    else
      var last := log[|log| - 1];
      assert forall unit :: unit in log <==> unit in log[..|log| - 1] || unit == last;
      if last.key == key then Of(log[..|log| - 1], key) + [last] else Of(log[..|log| - 1], key)
  }

  ghost predicate AgreesWith(log: seq<Unit>, unit: Unit) {
    forall earlier | earlier in log && earlier.key == unit.key :: earlier.blob == unit.blob
  }

  // ----- which ids are kept -----

  /** Where the first recorded ids stand in `log`, or its length. */
  function FirstRecorded(log: seq<Unit>): (at: nat)
    ensures at <= |log| && (at < |log| ==> log[at].recorded)
    ensures forall k | 0 <= k < at :: !log[k].recorded
  {
    if log == [] then 0
    else
      var at := FirstRecorded(log[..|log| - 1]);
      if at < |log| - 1 || log[|log| - 1].recorded then at else |log|
  }

  /**
   * Push `k` contributes its ids: guesses count only before anything recorded arrives, and
   * recorded ids displace all that a guess began.
   */
  predicate Counts(log: seq<Unit>, k: int)
    requires 0 <= k < |log|
  {
    var at := FirstRecorded(log);
    if k < at then at == |log| || !Guessed(log[0]) else !Guessed(log[k])
  }

  ghost predicate SomeCounts(log: seq<Unit>, id: string) {
    exists k | 0 <= k < |log| :: Counts(log, k) && id in log[k].repoIds
  }

  /** The unit that any number of pushes of one file leave, without following them one by one. */
  lemma {:induction false} CollapsedMeaning(log: seq<Unit>)
    requires log != []
    ensures var unit := Collapsed(log);
            && unit.key == log[0].key && unit.blob == log[0].blob
            && unit.source == log[0].source && unit.replace == log[0].replace
            && (unit.recorded <==> FirstRecorded(log) < |log|)
            && forall id :: id in unit.repoIds <==> SomeCounts(log, id)
  {
    var n := |log| - 1;
    if n == 0 {
      assert forall id :: id in log[0].repoIds ==> Counts(log, 0) && id in log[0].repoIds;
    } else {
      CollapsedMeaning(log[..n]);
      forall id ensures id in Collapsed(log).repoIds <==> SomeCounts(log, id) {
        CountsAfter(log, id);
      }
    }
  }

  lemma CountsAfter(log: seq<Unit>, id: string)
    requires |log| > 1
    ensures var before, last := log[..|log| - 1], log[|log| - 1];
            var recorded := FirstRecorded(before) < |before|;
            SomeCounts(log, id) <==>
            if last.recorded && !recorded && Guessed(log[0]) then id in last.repoIds
            else SomeCounts(before, id) || (!(recorded && Guessed(last)) && id in last.repoIds)
  {
    var n := |log| - 1;
    var before := log[..n];
    assert forall k | 0 <= k < n :: before[k] == log[k];
    if SomeCounts(before, id) {
      var k :| 0 <= k < n && Counts(before, k) && id in before[k].repoIds;
      assert Counts(log, k) || (log[n].recorded && FirstRecorded(before) == n && Guessed(log[0]));
    }
    if SomeCounts(log, id) {
      var k :| 0 <= k <= n && Counts(log, k) && id in log[k].repoIds;
      assert k < n ==> Counts(before, k);
    }
    assert Counts(log, n) <==> !(FirstRecorded(before) < n && Guessed(log[n]));
  }

  /** Two recordings of a new file leave the same ids in either order. */
  lemma TwoPushesCommute(a: Unit, b: Unit)
    ensures Collapsed([a, b]).repoIds == Collapsed([b, a]).repoIds
    ensures Collapsed([a, b]).recorded == Collapsed([b, a]).recorded
  {
    assert [a, b][..1] == [a] && [b, a][..1] == [b];
  }

  /** Three do not: a guess before the recorded id of a package's file stays, one after it is dropped. */
  lemma ThreePushesDoNot(key: Key, blob: string)
    ensures var package := Unit(key, blob, Package, {"a"}, false, false);
            var guess := Unit(key, blob, CompanionPom, {"b"}, false, false);
            var pin := Unit(key, blob, SupportPom, {"c"}, true, false);
            Collapsed([package, guess, pin]).repoIds != Collapsed([package, pin, guess]).repoIds
  {
    var package := Unit(key, blob, Package, {"a"}, false, false);
    var guess := Unit(key, blob, CompanionPom, {"b"}, false, false);
    var pin := Unit(key, blob, SupportPom, {"c"}, true, false);
    assert [package, guess, pin][..2] == [package, guess] && [package, pin, guess][..2] == [package, pin];
    assert [package, guess][..1] == [package] && [package, pin][..1] == [package];
    assert Collapsed([package, guess]) == Collapse(package, guess)
           && Collapsed([package, pin]) == Collapse(package, pin);
    assert Collapsed([package, guess, pin]).repoIds == {"a", "b", "c"};
    assert Collapsed([package, pin, guess]).repoIds == {"a", "c"};
    assert "b" in {"a", "b", "c"} && "b" !in {"a", "c"};
  }

  // ----- when the order matters -----

  /** Every order of the same pushes keeps the same ids. */
  ghost predicate SameInAnyOrder(log: seq<Unit>)
    requires log != []
  {
    forall other: seq<Unit> | other != [] && multiset(other) == multiset(log) ::
      Collapsed(other).repoIds == Collapsed(log).repoIds
  }

  ghost predicate NoneGuessed(log: seq<Unit>) {
    forall unit | unit in log :: !Guessed(unit)
  }

  ghost predicate NoneRecorded(log: seq<Unit>) {
    forall unit | unit in log :: !unit.recorded
  }

  ghost predicate GuessedOrRecorded(log: seq<Unit>) {
    forall unit | unit in log :: Guessed(unit) || unit.recorded
  }

  ghost predicate SomeId(log: seq<Unit>, id: string) {
    exists unit :: unit in log && id in unit.repoIds
  }

  ghost predicate RecordedId(log: seq<Unit>, id: string) {
    exists unit :: unit in log && unit.recorded && id in unit.repoIds
  }

  ghost predicate AllIdsRecorded(log: seq<Unit>) {
    forall id | SomeId(log, id) :: RecordedId(log, id)
  }

  ghost predicate Steady(log: seq<Unit>) {
    NoneGuessed(log) || NoneRecorded(log) || GuessedOrRecorded(log) || AllIdsRecorded(log)
  }

  /**
   * The ids of one file do not depend on the order of its pushes exactly when no push is a guess,
   * or none is recorded, or each is one or the other, or every id is a recorded one anyway.
   */
  lemma OrderMattersExactly(log: seq<Unit>)
    requires log != []
    ensures SameInAnyOrder(log) <==> Steady(log)
  {
    if Steady(log) {
      forall other: seq<Unit> | other != [] && multiset(other) == multiset(log)
        ensures Collapsed(other).repoIds == Collapsed(log).repoIds
      {
        SteadyKeeps(log, other);
      }
    } else {
      UnsteadyDoesNot(log);
    }
  }

  lemma SteadyKeeps(log: seq<Unit>, other: seq<Unit>)
    requires log != [] && other != [] && multiset(other) == multiset(log) && Steady(log)
    ensures Collapsed(other).repoIds == Collapsed(log).repoIds
  {
    SameMembers(log, other);
    SteadySame(log, other);
    forall id ensures id in Collapsed(other).repoIds <==> id in Collapsed(log).repoIds {
      SameIds(log, other, id);
      SteadyIds(log, id);
      SteadyIds(other, id);
    }
  }

  lemma UnsteadyDoesNot(log: seq<Unit>)
    requires log != [] && !Steady(log)
    ensures !SameInAnyOrder(log)
  {
    var guess :| guess in log && Guessed(guess);
    var pin :| pin in log && pin.recorded;
    var plain :| plain in log && !Guessed(plain) && !plain.recorded;
    var id :| SomeId(log, id) && !RecordedId(log, id);
    FirstDecides(log, guess, pin, id);
    FirstDecides(log, plain, pin, id);
    assert Collapsed(Ordered(log, guess)).repoIds != Collapsed(Ordered(log, plain)).repoIds;
  }

  lemma SameIds(log: seq<Unit>, other: seq<Unit>, id: string)
    requires forall unit :: unit in other <==> unit in log
    ensures SomeId(other, id) <==> SomeId(log, id)
    ensures RecordedId(other, id) <==> RecordedId(log, id)
  {
  }

  lemma SteadySame(log: seq<Unit>, other: seq<Unit>)
    requires (forall unit :: unit in other <==> unit in log) && Steady(log)
    ensures Steady(other) && (NoneGuessed(other) <==> NoneGuessed(log)) && (NoneRecorded(other) <==> NoneRecorded(log))
  {
    forall id ensures (SomeId(other, id) <==> SomeId(log, id)) && (RecordedId(other, id) <==> RecordedId(log, id)) {
      SameIds(log, other, id);
    }
  }

  lemma SameMembers(log: seq<Unit>, other: seq<Unit>)
    requires multiset(other) == multiset(log)
    ensures forall unit :: unit in other <==> unit in log
  {
    forall unit ensures unit in other <==> unit in log {
      assert unit in other <==> unit in multiset(other);
      assert unit in log <==> unit in multiset(log);
    }
  }

  /** What a steady log keeps, in terms of which pushes it has and not of their order. */
  lemma SteadyIds(log: seq<Unit>, id: string)
    requires log != [] && Steady(log)
    ensures id in Collapsed(log).repoIds <==>
            if NoneGuessed(log) || NoneRecorded(log) then SomeId(log, id) else RecordedId(log, id)
  {
    CollapsedMeaning(log);
    assert log[0] in log;
    assert forall k | 0 <= k < |log| :: log[k] in log;
    if RecordedId(log, id) {
      RecordedIsKept(log, id);
    }
    if (NoneGuessed(log) || NoneRecorded(log)) && SomeId(log, id) {
      var unit :| unit in log && id in unit.repoIds;
      var k :| 0 <= k < |log| && log[k] == unit;
      assert Counts(log, k);
    }
    if SomeCounts(log, id) && !NoneGuessed(log) && !NoneRecorded(log) {
      var k :| 0 <= k < |log| && Counts(log, k) && id in log[k].repoIds;
      assert SomeId(log, id);
      CountedIsRecorded(log, k);
    }
  }

  /** A recorded id is never lost. */
  lemma RecordedIsKept(log: seq<Unit>, id: string)
    requires log != [] && RecordedId(log, id)
    ensures SomeCounts(log, id)
  {
    var unit :| unit in log && unit.recorded && id in unit.repoIds;
    var k :| 0 <= k < |log| && log[k] == unit;
    assert Counts(log, k);
  }

  lemma CountedIsRecorded(log: seq<Unit>, k: nat)
    requires k < |log| && Counts(log, k) && !NoneRecorded(log)
    ensures GuessedOrRecorded(log) ==> log[k].recorded
  {
    var unit :| unit in log && unit.recorded;
    var at :| 0 <= at < |log| && log[at] == unit;
    assert FirstRecorded(log) <= at;
    assert log[0] in log && log[k] in log;
  }

  /** The pushes that are recorded, or those that are not, in their order. */
  function Only(log: seq<Unit>, recorded: bool): (only: seq<Unit>)
    ensures forall unit :: unit in only <==> unit in log && unit.recorded == recorded
  {
    if log == [] then []
    else
      assert log == [log[0]] + log[1..];
      (if log[0].recorded == recorded then [log[0]] else []) + Only(log[1..], recorded)
  }

  lemma {:induction false} OnlyTwoKinds(log: seq<Unit>)
    ensures multiset(Only(log, false)) + multiset(Only(log, true)) == multiset(log)
  {
    if log != [] {
      OnlyTwoKinds(log[1..]);
      assert log == [log[0]] + log[1..];
    }
  }

  /** `unit` moved to the front. */
  function Fronted(log: seq<Unit>, unit: Unit): (fronted: seq<Unit>)
    requires unit in log
    ensures fronted != [] && fronted[0] == unit && multiset(fronted) == multiset(log)
  {
    if log[0] == unit then log
    else
      assert log == [log[0]] + log[1..];
      var rest := Fronted(log[1..], unit);
      assert rest == [rest[0]] + rest[1..];
      [unit, log[0]] + rest[1..]
  }

  /** The same pushes with `first` in front, then the others that are not recorded, then the recorded ones. */
  function Ordered(log: seq<Unit>, first: Unit): (ordered: seq<Unit>)
    requires first in log && !first.recorded
    ensures ordered != []
  {
    Fronted(Only(log, false), first) + Only(log, true)
  }

  lemma OrderedIsSame(log: seq<Unit>, first: Unit)
    requires first in log && !first.recorded
    ensures multiset(Ordered(log, first)) == multiset(log)
  {
    OnlyTwoKinds(log);
  }

  /** With all recorded pushes last, the first push decides whether the ids of the unrecorded ones stay. */
  lemma FirstDecides(log: seq<Unit>, first: Unit, pin: Unit, id: string)
    requires first in log && !first.recorded && pin in log && pin.recorded
    requires SomeId(log, id) && !RecordedId(log, id)
    ensures multiset(Ordered(log, first)) == multiset(log)
    ensures id in Collapsed(Ordered(log, first)).repoIds <==> !Guessed(first)
  {
    OrderedIsSame(log, first);
    var front, ordered := Fronted(Only(log, false), first), Ordered(log, first);
    SameMembers(Only(log, false), front);
    LastRecorded(front, Only(log, true));
    CollapsedMeaning(ordered);
    var unit :| unit in log && id in unit.repoIds;
    assert unit in front;
    var k :| 0 <= k < |front| && front[k] == unit;
    assert ordered[k] == unit && ordered[0] == first;
    assert Counts(ordered, k) <==> !Guessed(first);
    if SomeCounts(ordered, id) {
      var j :| 0 <= j < |ordered| && Counts(ordered, j) && id in ordered[j].repoIds;
      assert j >= |front| ==> ordered[j] in Only(log, true);
    }
  }

  lemma LastRecorded(front: seq<Unit>, back: seq<Unit>)
    requires front != [] && back != [] && NoneRecorded(front) && forall unit | unit in back :: unit.recorded
    ensures FirstRecorded(front + back) == |front|
  {
    var log := front + back;
    var at := FirstRecorded(log);
    assert forall k | 0 <= k < |front| :: log[k] in front;
    assert log[|front|] in back;
  }

  /** The recorded pushes come first: what an export leaves, whose seeds are recorded and nothing else is. */
  ghost predicate RecordedFirst(log: seq<Unit>) {
    forall i, j | 0 <= i < j < |log| && log[j].recorded :: log[i].recorded
  }

  lemma {:induction false} RecordedFirstOf(log: seq<Unit>, key: Key)
    requires RecordedFirst(log)
    ensures RecordedFirst(Of(log, key))
  {
    if log != [] {
      var n := |log| - 1;
      RecordedFirstOf(log[..n], key);
      if log[n].key == key {
        assert log == log[..n] + [log[n]];
        RecordedFirstMore(Of(log[..n], key), log[..n], log[n]);
      }
    }
  }

  lemma RecordedFirstMore(of: seq<Unit>, before: seq<Unit>, last: Unit)
    requires RecordedFirst(of) && RecordedFirst(before + [last]) && forall unit | unit in of :: unit in before
    ensures RecordedFirst(of + [last])
  {
    if last.recorded {
      forall i | 0 <= i < |of| ensures of[i].recorded {
        assert of[i] in of;
        var k :| 0 <= k < |before| && before[k] == of[i];
        assert (before + [last])[k] == of[i] && (before + [last])[|before|] == last;
      }
    }
  }

  /** Then the order of the pushes does not matter: recorded ids displace guesses, and all others stay. */
  lemma RecordedFirstIds(log: seq<Unit>, id: string)
    requires log != [] && RecordedFirst(log)
    ensures id in Collapsed(log).repoIds <==>
            if NoneRecorded(log) then SomeId(log, id) else exists unit ::
              unit in log && !Guessed(unit) && id in unit.repoIds
  {
    CollapsedMeaning(log);
    assert log[0] in log;
    if !NoneRecorded(log) {
      var unit :| unit in log && unit.recorded;
      var k :| 0 <= k < |log| && log[k] == unit;
      assert log[0].recorded && FirstRecorded(log) == 0;
    }
    forall unit | unit in log && id in unit.repoIds && (NoneRecorded(log) || !Guessed(unit))
      ensures SomeCounts(log, id)
    {
      var k :| 0 <= k < |log| && log[k] == unit;
      assert Counts(log, k);
    }
  }

  // ----- the queue -----

  /** `byKey` indexes `units` exactly. */
  ghost predicate Indexed(units: seq<Unit>, byKey: map<Key, nat>) {
    && (forall key | key in byKey :: byKey[key] < |units| && units[byKey[key]].key == key)
    && (forall i | 0 <= i < |units| :: units[i].key in byKey && byKey[units[i].key] == i)
  }

  /** Each unit is what the pushes of its file collapse to. */
  ghost predicate AllCollapsed(units: seq<Unit>, log: seq<Unit>) {
    forall i | 0 <= i < |units| :: IsCollapsed(units[i], log)
  }

  /** Every push has its file among the units, with the bytes it named. */
  ghost predicate AllQueued(units: seq<Unit>, byKey: map<Key, nat>, log: seq<Unit>)
    requires Indexed(units, byKey)
  {
    forall unit | unit in log :: unit.key in byKey && units[byKey[unit.key]].blob == unit.blob
  }

  ghost predicate Reflects(units: seq<Unit>, byKey: map<Key, nat>, log: seq<Unit>) {
    Indexed(units, byKey) && AllCollapsed(units, log) && AllQueued(units, byKey, log)
  }

  ghost predicate IsCollapsed(unit: Unit, log: seq<Unit>) {
    Of(log, unit.key) != [] && unit == Collapsed(Of(log, unit.key))
  }

  class Queue {
    var units: seq<Unit>
    var byKey: map<Key, nat>
    /** The POM coordinates queued or about to be, which break cycles of the parent walk. */
    var enqueuedPoms: set<Gav>
    var supportNodes: nat
    ghost var log: seq<Unit>
    /** The coordinates `supportNodes` counts. */
    ghost var walked: set<Gav>

    ghost predicate Valid()
      reads this`units, this`byKey, this`log
    {
      Reflects(units, byKey, log)
    }

    constructor ()
      ensures Valid() && log == [] && units == [] && byKey == map[]
      ensures enqueuedPoms == walked == {} && supportNodes == 0
    {
      units, byKey, log := [], map[], [];
      enqueuedPoms, walked, supportNodes := {}, {}, 0;
    }

    /** `holds` */
    predicate Holds(key: Key)
      reads this
    {
      key in byKey
    }

    /** A file that is queued already keeps its bytes: a push that disagrees fails and changes nothing. */
    method Push(unit: Unit) returns (ok: bool)
      requires Valid()
      modifies this`units, this`byKey, this`log
      ensures Valid()
      ensures ok <==> AgreesWith(old(log), unit)
      ensures !ok ==> units == old(units) && byKey == old(byKey) && log == old(log) && unit.key in byKey
      ensures ok ==> log == old(log) + [unit] && byKey.Keys == old(byKey.Keys) + {unit.key}
    {
      if unit.key !in byKey {
        PushNew(units, byKey, log, unit);
        Append(unit);
        return true;
      }
      AgreesWithAll(units, byKey, log, unit);
      if units[byKey[unit.key]].blob != unit.blob {
        return false;
      }
      PushAgain(units, byKey, log, unit);
      Merge(unit);
      assert byKey.Keys == byKey.Keys + {unit.key};
      return true;
    }

    /** The first push of a file. */
    method Append(unit: Unit)
      modifies this`units, this`byKey, this`log
      ensures units == old(units) + [unit] && byKey == old(byKey)[unit.key := |old(units)|] && log == old(log) + [unit]
    {
      byKey := byKey[unit.key := |units|];
      units := units + [unit];
      log := log + [unit];
    }

    /** A later push of a file, whose bytes agree. */
    method Merge(unit: Unit)
      requires unit.key in byKey && byKey[unit.key] < |units|
      modifies this`units, this`log
      ensures units == old(units)[byKey[unit.key] := Collapse(old(units)[byKey[unit.key]], unit)]
              && log == old(log) + [unit]
    {
      var existing := byKey[unit.key];
      units := units[existing := Collapse(units[existing], unit)];
      log := log + [unit];
    }
  }

  /** No two units name one file, and each has the bytes of every push of its file, of which there is one. */
  lemma QueuedBytes(units: seq<Unit>, byKey: map<Key, nat>, log: seq<Unit>, i: nat)
    requires Reflects(units, byKey, log) && i < |units|
    ensures forall j | 0 <= j < |units| && units[j].key == units[i].key :: j == i
    ensures forall unit | unit in log && unit.key == units[i].key :: unit.blob == units[i].blob
    ensures exists unit | unit in log ::
              unit.key == units[i].key && unit.blob == units[i].blob && unit.source == units[i].source
  {
    assert IsCollapsed(units[i], log);
    var of := Of(log, units[i].key);
    CollapsedMeaning(of);
    assert of[0] in of;
  }

  /** Push `unit` is one whose ids its file keeps: a guess only when none of the file's pushes is recorded. */
  ghost predicate KeepsIds(log: seq<Unit>, unit: Unit) {
    unit in log && (Guessed(unit) ==> forall other | other in log && other.key == unit.key :: !other.recorded)
  }

  /** When the recorded pushes come first, the ids of a unit are told by which pushes there were. */
  lemma UnitIds(units: seq<Unit>, byKey: map<Key, nat>, log: seq<Unit>, i: nat, id: string)
    requires Reflects(units, byKey, log) && i < |units| && RecordedFirst(log)
    ensures id in units[i].repoIds <==>
            exists unit :: KeepsIds(log, unit) && unit.key == units[i].key && id in unit.repoIds
  {
    assert IsCollapsed(units[i], log);
    var of := Of(log, units[i].key);
    RecordedFirstOf(log, units[i].key);
    RecordedFirstIds(of, id);
    assert NoneRecorded(of) <==> forall other | other in log && other.key == units[i].key :: !other.recorded;
    if id in units[i].repoIds {
      var unit :| unit in of && id in unit.repoIds && (NoneRecorded(of) || !Guessed(unit));
      assert KeepsIds(log, unit);
    }
    if unit :| KeepsIds(log, unit) && unit.key == units[i].key && id in unit.repoIds {
      assert unit in of;
    }
  }

  lemma AgreesWithAll(units: seq<Unit>, byKey: map<Key, nat>, log: seq<Unit>, unit: Unit)
    requires Reflects(units, byKey, log) && unit.key in byKey
    ensures AgreesWith(log, unit) <==> units[byKey[unit.key]].blob == unit.blob
  {
    QueuedBytes(units, byKey, log, byKey[unit.key]);
  }

  lemma PushNew(units: seq<Unit>, byKey: map<Key, nat>, log: seq<Unit>, unit: Unit)
    requires Reflects(units, byKey, log) && unit.key !in byKey
    ensures Reflects(units + [unit], byKey[unit.key := |units|], log + [unit]) && AgreesWith(log, unit)
  {
    NewCollapsed(units, byKey, log, unit);
    assert Indexed(units + [unit], byKey[unit.key := |units|]);
  }

  lemma NewCollapsed(units: seq<Unit>, byKey: map<Key, nat>, log: seq<Unit>, unit: Unit)
    requires Reflects(units, byKey, log) && unit.key !in byKey
    ensures AllCollapsed(units + [unit], log + [unit])
  {
    NewIsCollapsed(log, unit);
    forall i | 0 <= i < |units + [unit]| ensures IsCollapsed((units + [unit])[i], log + [unit]) {
      if i < |units| {
        CollapsedElsewhere(units[i], log, unit);
      }
    }
  }

  lemma NewIsCollapsed(log: seq<Unit>, unit: Unit)
    requires forall other | other in log :: other.key != unit.key
    ensures IsCollapsed(unit, log + [unit])
  {
    NonePushed(log, unit.key);
    OfGrows(log, unit, unit.key);
    assert Of(log + [unit], unit.key) == [unit];
  }

  lemma PushAgain(units: seq<Unit>, byKey: map<Key, nat>, log: seq<Unit>, unit: Unit)
    requires Reflects(units, byKey, log) && unit.key in byKey && units[byKey[unit.key]].blob == unit.blob
    ensures Reflects(units[byKey[unit.key] := Collapse(units[byKey[unit.key]], unit)], byKey, log + [unit])
  {
    var at := byKey[unit.key];
    AgainCollapsed(units, byKey, log, unit);
    IndexedAgain(units, byKey, at, Collapse(units[at], unit));
    QueuedAgain(units, byKey, log, at, Collapse(units[at], unit), unit);
  }

  lemma QueuedAgain(units: seq<Unit>, byKey: map<Key, nat>, log: seq<Unit>, at: nat, merged: Unit, unit: Unit)
    requires Indexed(units, byKey) && AllQueued(units, byKey, log) && at < |units|
    requires units[at].key == merged.key == unit.key && units[at].blob == merged.blob == unit.blob
    ensures Indexed(units[at := merged], byKey) && AllQueued(units[at := merged], byKey, log + [unit])
  {
    IndexedAgain(units, byKey, at, merged);
  }

  lemma IndexedAgain(units: seq<Unit>, byKey: map<Key, nat>, at: nat, unit: Unit)
    requires Indexed(units, byKey) && at < |units| && units[at].key == unit.key
    ensures Indexed(units[at := unit], byKey)
  {
  }

  lemma AgainCollapsed(units: seq<Unit>, byKey: map<Key, nat>, log: seq<Unit>, unit: Unit)
    requires Indexed(units, byKey) && AllCollapsed(units, log) && unit.key in byKey
    ensures AllCollapsed(units[byKey[unit.key] := Collapse(units[byKey[unit.key]], unit)], log + [unit])
  {
    var at := byKey[unit.key];
    CollapsedFurther(units[at], log, unit);
    forall i | 0 <= i < |units| && i != at ensures IsCollapsed(units[i], log + [unit]) {
      CollapsedElsewhere(units[i], log, unit);
    }
  }

  lemma {:induction false} NonePushed(log: seq<Unit>, key: Key)
    requires forall unit | unit in log :: unit.key != key
    ensures Of(log, key) == []
  {
    if log != [] {
      assert log[|log| - 1] in log;
      NonePushed(log[..|log| - 1], key);
    }
  }

  lemma CollapsedElsewhere(unit: Unit, log: seq<Unit>, added: Unit)
    requires IsCollapsed(unit, log) && added.key != unit.key
    ensures IsCollapsed(unit, log + [added])
  {
    OfGrows(log, added, unit.key);
  }

  lemma CollapsedFurther(unit: Unit, log: seq<Unit>, added: Unit)
    requires IsCollapsed(unit, log) && added.key == unit.key
    ensures IsCollapsed(Collapse(unit, added), log + [added])
  {
    OfGrows(log, added, unit.key);
    var of := Of(log, unit.key);
    assert (of + [added])[..|of|] == of;
  }

  lemma OfGrows(log: seq<Unit>, unit: Unit, key: Key)
    ensures Of(log + [unit], key) == if unit.key == key then Of(log, key) + [unit] else Of(log, key)
  {
    assert (log + [unit])[..|log|] == log;
  }
}
