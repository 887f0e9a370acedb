/**
 * Which repositories label the files of an export, and which bytes a plain snapshot file has, in terms
 * of the plan and the locked rows (`rv-export/src/export.rs`).
 */
module QueuedLabels {
  import opened Prelude
  import opened ExportQueue
  import opened SupportClosure
  import opened QueueingPass

  // ----- the repositories of a file -----

  /** A support POM is recorded to come from `id`: its file, or its plain copy unless it is pinned to a build. */
  ghost predicate PinLabels(plan: Plan, key: Key, id: string) {
    exists g, unit :: PushOf(plan, g, unit) && unit.key == key && id in unit.repoIds
  }

  ghost predicate RowLabels(items: seq<Item>, key: Key, id: string) {
    exists i | 0 <= i < |items| :: items[i].key == key && id in items[i].repoIds
  }

  /** A row that is no POM names `key` as its companion POM and comes from `id`. */
  predicate Guesses(plan: Plan, item: Item, key: Key, id: string) {
    item.key.extension != "pom" && item.pom in plan.pomDigests && PomKey(item.pom) == key && id in item.repoIds
  }

  ghost predicate RowGuesses(plan: Plan, items: seq<Item>, key: Key, id: string) {
    exists i | 0 <= i < |items| :: Guesses(plan, items[i], key, id)
  }

  /** Such a row with no POM row of its coordinate before it. */
  ghost predicate RowSurelyGuesses(plan: Plan, items: seq<Item>, key: Key, id: string) {
    exists i | 0 <= i < |items| :: Guesses(plan, items[i], key, id) && !HasPomRow(items[..i], items[i].pom)
  }

  /** What a successful pass leaves. */
  ghost predicate IsExport(plan: Plan, items: seq<Item>, requested: set<Gav>, units: seq<Unit>, byKey: map<Key, nat>,
                           log: seq<Unit>) {
    && Reflects(units, byKey, log) && RecordedFirst(log) && AllFrom(log, Sources(plan, items, requested))
    && PinsPushed(plan, log) && RowsPushed(plan, items, log)
  }

  /** Every label of a push is one the plan or the rows give its file. */
  lemma LabelIsTold(plan: Plan, items: seq<Item>, requested: set<Gav>, unit: Unit, id: string)
    requires Sources(plan, items, requested)(unit) && id in unit.repoIds
    ensures unit.recorded ==> PinLabels(plan, unit.key, id)
    ensures !unit.recorded && !Guessed(unit) ==> RowLabels(items, unit.key, id)
    ensures Guessed(unit) ==> RowGuesses(plan, items, unit.key, id)
  {
    assert RowSource(plan, items, unit);
    if PinPush(plan, unit) {
      var g :| PushOf(plan, g, unit);
    }
  }

  lemma PinIsRecorded(plan: Plan, items: seq<Item>, requested: set<Gav>, unit: Unit)
    requires Sources(plan, items, requested)(unit) && unit.recorded
    ensures PinFile(plan, unit.key)
  {
    var g :| PushOf(plan, g, unit);
    PushedKey(plan, g, unit);
  }

  /** With the pins apart, each file of a pin was pushed as the pin says. */
  lemma PinIsPushed(plan: Plan, log: seq<Unit>, g: Gav, unit: Unit)
    requires PinsPushed(plan, log) && Apart(plan) && PushOf(plan, g, unit)
    ensures exists other :: other in log && other.recorded && other.key == unit.key && other.repoIds == unit.repoIds
  {
    if IsMain(plan, g, unit) {
      var other :| other in log && PushOf(plan, g, other) && IsMain(plan, g, other);
      assert other.recorded && other.key == unit.key && other.repoIds == unit.repoIds;
    } else {
      var other :| other in log && PushOf(plan, g, other) && IsCopy(plan, g, other);
      assert other.recorded && other.key == unit.key && other.repoIds == unit.repoIds;
    }
  }

  lemma FileIsRecorded(plan: Plan, log: seq<Unit>, key: Key)
    requires PinsPushed(plan, log) && Apart(plan) && PinFile(plan, key)
    ensures exists other :: other in log && other.recorded && other.key == key
  {
    var g :| g in plan.pins && key in PinKeys(plan, g);
    PinIsPushed(plan, log, g, PinUnit(plan, g, key));
  }

  /** A push whose ids its file keeps puts them into the unit. */
  lemma Kept(units: seq<Unit>, byKey: map<Key, nat>, log: seq<Unit>, i: nat, unit: Unit, id: string)
    requires Reflects(units, byKey, log) && i < |units| && RecordedFirst(log)
    requires KeepsIds(log, unit) && unit.key == units[i].key && id in unit.repoIds
    ensures id in units[i].repoIds
  {
    UnitIds(units, byKey, log, i, id);
  }

  /**
   * The labels of a file of an export. A label comes from a support POM, from a row for the file itself,
   * or, when no support POM has the file, from a row whose companion POM it is. Labels of rows
   * are always there, those of support POMs when the pins are apart, and those of companion POMs when no
   * support POM has the file and no POM row of the coordinate came before.
   */
  lemma UnitLabels(plan: Plan, items: seq<Item>, requested: set<Gav>, units: seq<Unit>, byKey: map<Key, nat>,
                   log: seq<Unit>, i: nat, id: string)
    requires IsExport(plan, items, requested, units, byKey, log) && i < |units|
    ensures var key := units[i].key;
            && (id in units[i].repoIds ==>
                  || PinLabels(plan, key, id) || RowLabels(items, key, id)
                  || (RowGuesses(plan, items, key, id) && (Apart(plan) ==> !PinFile(plan, key))))
            && (RowLabels(items, key, id) ==> id in units[i].repoIds)
            && (Apart(plan) && PinLabels(plan, key, id) ==> id in units[i].repoIds)
            && (RowSurelyGuesses(plan, items, key, id) && !PinFile(plan, key) ==> id in units[i].repoIds)
  {
    LabelsAreTold(plan, items, requested, units, byKey, log, i, id);
    RowLabelsAreThere(plan, items, units, byKey, log, i, id);
    PinLabelsAreThere(plan, units, byKey, log, i, id);
    GuessesAreThere(plan, items, requested, units, byKey, log, i, id);
  }

  lemma LabelsAreTold(plan: Plan, items: seq<Item>, requested: set<Gav>, units: seq<Unit>, byKey: map<Key, nat>,
                      log: seq<Unit>, i: nat, id: string)
    requires IsExport(plan, items, requested, units, byKey, log) && i < |units|
    ensures var key := units[i].key;
            id in units[i].repoIds ==>
              || PinLabels(plan, key, id) || RowLabels(items, key, id)
              || (RowGuesses(plan, items, key, id) && (Apart(plan) ==> !PinFile(plan, key)))
  {
    UnitIds(units, byKey, log, i, id);
    if id in units[i].repoIds {
      var unit :| KeepsIds(log, unit) && unit.key == units[i].key && id in unit.repoIds;
      assert Sources(plan, items, requested)(unit);
      LabelIsTold(plan, items, requested, unit, id);
      if Guessed(unit) && Apart(plan) && PinFile(plan, unit.key) {
        FileIsRecorded(plan, log, unit.key);
      }
    }
  }

  lemma RowLabelsAreThere(plan: Plan, items: seq<Item>, units: seq<Unit>, byKey: map<Key, nat>, log: seq<Unit>, i: nat,
                          id: string)
    requires Reflects(units, byKey, log) && RecordedFirst(log) && RowsPushed(plan, items, log) && i < |units|
    ensures RowLabels(items, units[i].key, id) ==> id in units[i].repoIds
  {
    if k: nat :| k < |items| && items[k].key == units[i].key && id in items[k].repoIds {
      assert RowIsPushed(plan, items, k, log);
      var unit :| unit in log && IsFile(items[k], unit);
      Kept(units, byKey, log, i, unit, id);
    }
  }

  lemma PinLabelsAreThere(plan: Plan, units: seq<Unit>, byKey: map<Key, nat>, log: seq<Unit>, i: nat, id: string)
    requires Reflects(units, byKey, log) && RecordedFirst(log) && PinsPushed(plan, log) && i < |units|
    ensures Apart(plan) && PinLabels(plan, units[i].key, id) ==> id in units[i].repoIds
  {
    if Apart(plan) && PinLabels(plan, units[i].key, id) {
      var g, unit :| PushOf(plan, g, unit) && unit.key == units[i].key && id in unit.repoIds;
      PinIsPushed(plan, log, g, unit);
      var other :| other in log && other.recorded && other.key == unit.key && other.repoIds == unit.repoIds;
      Kept(units, byKey, log, i, other, id);
    }
  }

  lemma GuessesAreThere(plan: Plan, items: seq<Item>, requested: set<Gav>, units: seq<Unit>, byKey: map<Key, nat>,
                        log: seq<Unit>, i: nat, id: string)
    requires IsExport(plan, items, requested, units, byKey, log) && i < |units|
    ensures RowSurelyGuesses(plan, items, units[i].key, id) && !PinFile(plan, units[i].key) ==> id in units[i].repoIds
  {
    var key := units[i].key;
    if RowSurelyGuesses(plan, items, key, id) && !PinFile(plan, key) {
      var k: nat :| k < |items| && Guesses(plan, items[k], key, id) && !HasPomRow(items[..k], items[k].pom);
      assert RowIsPushed(plan, items, k, log);
      var unit :| unit in log && IsCompanion(plan, items[k], unit);
      forall other | other in log && other.key == key ensures !other.recorded {
        assert Sources(plan, items, requested)(other);
        if other.recorded {
          PinIsRecorded(plan, items, requested, other);
        }
      }
      Kept(units, byKey, log, i, unit, id);
    }
  }

  /** What `QueueExport` returns is such an export. */
  method LabelledExport(plan: Plan, projectParents: seq<Gav>, items: seq<Item>, requested: set<Gav>)
    returns (r: Outcome, q: Queue)
    requires ValidPlan(plan)
    ensures r.Done? ==> IsExport(plan, items, requested, q.units, q.byKey, q.log)
  {
    ghost var seeds, rows;
    r, q, seeds, rows := QueueExport(plan, projectParents, items, requested);
  }

  // ----- the bytes of a plain snapshot file -----

  /** The pin `h` is a build of the snapshot `b`. */
  predicate IsBuildOf(plan: Plan, h: Gav, b: Gav) {
    && h in plan.pins && SameArtifact(h, b)
    && plan.buildOf(h.version).Some? && plan.buildOf(h.version).value.base == b.version
  }

  function BuildRank(plan: Plan, g: Gav): real {
    if plan.buildOf(g.version).Some? then plan.buildOf(g.version).value.rank else 0.0
  }

  ghost predicate IsHighest(plan: Plan, g: Gav, b: Gav) {
    && IsBuildOf(plan, g, b)
    && forall h | IsBuildOf(plan, h, b) :: BuildRank(plan, h) <= BuildRank(plan, g)
  }

  /** What is pushed under the coordinate of a snapshot that is not pinned is its highest build. */
  lemma CopyIsLatest(plan: Plan, g: Gav, b: Gav, unit: Unit)
    requires PushOf(plan, g, unit) && unit.key == PomKey(b) && b !in plan.pins && plan.pins[g].build.None?
    ensures IsHighest(plan, g, b)
  {
    assert Twin(plan, g) == Some(b);
  }

  lemma {:induction false} HighestAmong(plan: Plan, b: Gav, some: set<Gav>) returns (g: Gav)
    requires some != {} && forall h | h in some :: IsBuildOf(plan, h, b)
    ensures g in some
    ensures forall h | h in some :: BuildRank(plan, h) <= BuildRank(plan, g)
    decreases some
  {
    var first :| first in some;
    var rest := some - {first};
    g := first;
    if rest != {} {
      var best := HighestAmong(plan, b, rest);
      g := if BuildRank(plan, first) < BuildRank(plan, best) then best else first;
    }
    forall h | h in some ensures BuildRank(plan, h) <= BuildRank(plan, g) {
      assert h == first || h in rest;
    }
  }

  /** A snapshot that is not pinned but has pinned builds gets a plain file with the bytes of the highest. */
  lemma PlainFileIsLatest(plan: Plan, b: Gav, log: seq<Unit>, h: Gav)
    requires PinsPushed(plan, log) && Apart(plan) && b !in plan.pins && IsBuildOf(plan, h, b)
    requires forall g | IsBuildOf(plan, g, b) :: plan.pins[g].build.None?
    ensures exists g, unit ::
              unit in log && unit.key == PomKey(b) && IsHighest(plan, g, b) && unit.blob == plan.pins[g].blob
  {
    var builds := set g | g in plan.pins && IsBuildOf(plan, g, b);
    assert h in builds;
    var g := HighestAmong(plan, b, builds);
    assert forall other | IsBuildOf(plan, other, b) :: other in builds;
    LatestHasCopy(plan, g, b);
    var unit :| unit in log && PushOf(plan, g, unit) && IsCopy(plan, g, unit);
    assert IsHighest(plan, g, b);
  }

  lemma LatestHasCopy(plan: Plan, g: Gav, b: Gav)
    requires IsHighest(plan, g, b) && b !in plan.pins && plan.pins[g].build.None?
    ensures Twin(plan, g) == Some(b)
  {
    assert g.(version := b.version) == b;
    forall h | h in plan.pins
      ensures SameArtifact(h, g) && plan.buildOf(h.version).Some?
              && plan.buildOf(h.version).value.base == plan.buildOf(g.version).value.base ==>
                plan.buildOf(h.version).value.rank <= plan.buildOf(g.version).value.rank
    {
      if SameArtifact(h, g) && plan.buildOf(h.version).Some? && plan.buildOf(h.version).value.base == b.version {
        assert IsBuildOf(plan, h, b);
      }
    }
  }
}
