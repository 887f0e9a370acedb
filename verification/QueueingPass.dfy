/**
 * The queueing pass of one export (`rv-export/src/export.rs`, `export_queue`): the seeds, the
 * parents of the project's own POMs, the locked rows with their companion POMs, and the plain
 * `-SNAPSHOT` copies. Nothing is written unless the whole pass succeeds.
 */
module QueueingPass {
  import opened Prelude
  import opened ExportQueue
  import opened SupportClosure

  /**
   * One locked artifact: its file, the bytes found for it, its repositories, the coordinate of its
   * companion POM, and whether that POM is the plain one of a snapshot.
   */
  datatype Item = Item(key: Key, blob: Option<string>, repoIds: set<string>, pom: Gav, pomBase: bool)

  // ----- what the pass is told -----

  predicate IsPlain(item: Item) {
    HasSuffix(item.key.version, "SNAPSHOT")
  }

  /** The file of a row: its bytes, labelled with the row's repositories; a plain snapshot replaces. */
  predicate IsFile(item: Item, unit: Unit) {
    && unit.key == item.key && item.blob == Some(unit.blob) && unit.source == Package
    && unit.repoIds == item.repoIds && !unit.recorded && unit.replace == IsPlain(item)
  }

  /** The companion POM of a row that is no POM: the bytes the lock pins, with the row's repositories as a guess. */
  predicate IsCompanion(plan: Plan, item: Item, unit: Unit) {
    && item.key.extension != "pom" && item.pom in plan.pomDigests
    && unit.key == PomKey(item.pom) && unit.blob == plan.pomDigests[item.pom] && unit.source == CompanionPom
    && unit.repoIds == item.repoIds && !unit.recorded && unit.replace == (IsPlain(item) || item.pomBase)
  }

  predicate ItemUnit(plan: Plan, item: Item, unit: Unit) {
    IsFile(item, unit) || IsCompanion(plan, item, unit)
  }

  /** What the plan and the rows say is to be pushed. */
  ghost predicate RowSource(plan: Plan, items: seq<Item>, unit: Unit) {
    PinPush(plan, unit) || exists i | 0 <= i < |items| :: ItemUnit(plan, items[i], unit)
  }

  /** A row asks for `from` as a `-SNAPSHOT`, whose plain file is `key`. */
  predicate CopiedTo(plan: Plan, requested: set<Gav>, from: Key, key: Key) {
    && (exists g | g in requested :: g.group == from.group && g.artifact == from.artifact && g.version == from.version)
    && from.group == key.group && from.artifact == key.artifact && plan.snapshotBase(from.version) == Some(key.version)
    && from.extension == key.extension && from.classifier == key.classifier
  }

  /** The plain `-SNAPSHOT` file a queued file is copied to. */
  function CopyKey(plan: Plan, requested: set<Gav>, key: Key): (copy: Option<Key>)
    ensures forall to :: copy == Some(to) <==> CopiedTo(plan, requested, key, to)
  {
    var base := plan.snapshotBase(key.version);
    if Gav(key.group, key.artifact, key.version) in requested && base.Some? then Some(key.(version := base.value))
    else None
  }

  /** The plain copy of the file of `from`: its bytes, without labels, in place of any earlier one. */
  predicate IsPlainCopy(plan: Plan, requested: set<Gav>, from: Unit, unit: Unit) {
    && CopiedTo(plan, requested, from.key, unit.key) && unit.blob == from.blob && unit.source == from.source
    && unit.repoIds == {} && !unit.recorded && unit.replace
  }

  ghost predicate Source(plan: Plan, items: seq<Item>, requested: set<Gav>, unit: Unit) {
    || RowSource(plan, items, unit)
    || exists from :: RowSource(plan, items, from) && IsPlainCopy(plan, requested, from, unit)
  }

  ghost function RowSources(plan: Plan, items: seq<Item>): Unit -> bool {
    unit => RowSource(plan, items, unit)
  }

  ghost function Sources(plan: Plan, items: seq<Item>, requested: set<Gav>): Unit -> bool {
    unit => Source(plan, items, requested, unit)
  }

  ghost predicate AllFrom(log: seq<Unit>, from: Unit -> bool) {
    forall unit | unit in log :: from(unit)
  }

  // ----- after the seeds -----

  /** Every pin is marked and queued, and every push so far is recorded, so later walks change nothing. */
  ghost predicate Seeded(plan: Plan, q: Queue)
    reads q
  {
    Consistent(plan, q) && plan.pins.Keys <= q.enqueuedPoms && RecordedFirst(q.log)
  }

  predicate NeedsCover(plan: Plan, unit: Unit) {
    unit.key.extension == "pom" && plan.parentOf(unit.blob).Some?
  }

  ghost predicate TwoSources(from: Unit -> bool) {
    exists a: Unit, b: Unit :: a.key == b.key && a.blob != b.blob && from(a) && from(b)
  }

  lemma SoundAfterPush(plan: Plan, t: Intake, unit: Unit)
    requires Sound(plan, t, []) && RecordedFirst(t.log) && !unit.recorded
    requires NeedsCover(plan, unit) ==> Covered(plan, t.keys, plan.parentOf(unit.blob).value)
    ensures Sound(plan, t.(keys := t.keys + {unit.key}, log := t.log + [unit]), []) && RecordedFirst(t.log + [unit])
  {
    var more := t.keys + {unit.key};
    forall other | other in t.log + [unit] && NeedsCover(plan, other)
      ensures Covered(plan, more, plan.parentOf(other.blob).value)
    {
      CoveredStays(plan, t.keys, more, plan.parentOf(other.blob).value);
    }
  }

  function WithUnit(t: Intake, unit: Unit): Intake {
    t.(keys := t.keys + {unit.key}, log := t.log + [unit])
  }

  /** A push after the seeds, of a file whose parent is covered whenever the push succeeds. */
  method PushLater(plan: Plan, unit: Unit, q: Queue, ghost from: Unit -> bool) returns (r: Outcome)
    requires Seeded(plan, q) && !unit.recorded && AllFrom(q.log, from) && from(unit)
    requires NeedsCover(plan, unit) && AgreesWith(q.log, unit) ==>
               Covered(plan, q.byKey.Keys, plan.parentOf(unit.blob).value)
    modifies q`units, q`byKey, q`log
    ensures r.Done? ==> Seeded(plan, q) && AllFrom(q.log, from) && q.byKey.Keys == old(q.byKey.Keys) + {unit.key}
    ensures r.Done? ==> q.log == old(q.log) + [unit] && Taken(q) == WithUnit(old(Taken(q)), unit)
    ensures r.Done? || (r.ConflictingExportSources? && TwoSources(from))
  {
    ghost var t := Taken(q);
    var ok := q.Push(unit);
    if ok {
      SoundAfterPush(plan, t, unit);
      assert Taken(q) == t.(keys := t.keys + {unit.key}, log := t.log + [unit]);
    } else {
      Disagrees(t.log, unit, from);
    }
    r := if ok then Done else ConflictingExportSources;
  }

  lemma Disagrees(log: seq<Unit>, unit: Unit, from: Unit -> bool)
    requires !AgreesWith(log, unit) && AllFrom(log, from) && from(unit)
    ensures TwoSources(from)
  {
    var earlier :| earlier in log && earlier.key == unit.key && earlier.blob != unit.blob;
    assert from(earlier);
  }

  /** The parent of the bytes `blob` is covered already, or the export fails: nothing is added any more. */
  method EnqueueParent(plan: Plan, blob: string, q: Queue) returns (r: Outcome)
    requires ValidPlan(plan) && Seeded(plan, q)
    modifies q
    ensures Seeded(plan, q) && Taken(q) == old(Taken(q)) && q.units == old(q.units) && q.byKey == old(q.byKey)
    ensures r.Done? && plan.parentOf(blob).Some? ==> Covered(plan, q.byKey.Keys, plan.parentOf(blob).value)
    ensures r.Done? || (r.UnpinnedPom? && Missing(plan, r.coordinate) && plan.parentOf(blob) == Some(r.coordinate))
  {
    var parent := plan.parentOf(blob);
    r := CheckRefs(plan, if parent.Some? then [parent.value] else [], q);
    assert r.Done? && parent.Some? ==> parent.value in [parent.value];
  }

  ghost predicate Missing(plan: Plan, c: Gav) {
    Unresolved(plan, c) && c !in plan.modules
  }

  /** A walk after the seeds: every reference is covered already, or one of them is not pinned. */
  method CheckRefs(plan: Plan, refs: seq<Gav>, q: Queue) returns (r: Outcome)
    requires ValidPlan(plan) && Seeded(plan, q)
    modifies q
    ensures Seeded(plan, q) && Taken(q) == old(Taken(q)) && q.units == old(q.units) && q.byKey == old(q.byKey)
    ensures r.Done? ==> forall ref | ref in refs :: Covered(plan, q.byKey.Keys, ref)
    ensures r.Done? || (r.UnpinnedPom? && Missing(plan, r.coordinate) && r.coordinate in refs)
  {
    r := EnqueueSupportClosure(plan, refs, q);
  }

  // ----- the seeds -----

  /** The file of some pin. */
  ghost predicate PinFile(plan: Plan, key: Key) {
    exists g :: g in plan.pins && key in PinKeys(plan, g)
  }

  lemma SmallerSet<T>(a: set<T>, b: set<T>)
    requires a <= b
    ensures |a| <= |b|
  {
    assert b == a + (b - a) && a !! (b - a);
  }

  /** No pin is the other coordinate of one. */
  ghost predicate NoPinIsTwin(plan: Plan) {
    forall g, h | g in plan.pins && h in plan.pins :: Twin(plan, g) != Some(h)
  }

  /** No two pins have the same other coordinate. */
  ghost predicate TwinsDiffer(plan: Plan) {
    forall g, h | g in plan.pins && h in plan.pins && g != h && Twin(plan, g).Some? :: Twin(plan, g) != Twin(plan, h)
  }

  /** The coordinates of the pins are apart. */
  ghost predicate Apart(plan: Plan) {
    NoPinIsTwin(plan) && TwinsDiffer(plan)
  }

  const NOTHING: Intake := Intake({}, [], {}, {})

  /** What the seeds leave: files of pins only, those of every pin, and all of them when the pins are apart. */
  ghost predicate SeedFiles(plan: Plan, keys: set<Key>) {
    && (forall key | key in keys :: PinFile(plan, key))
    && (forall g | g in plan.pins :: PomKey(g) in keys)
    && (NoPinIsTwin(plan) ==> forall key | PinFile(plan, key) :: key in keys)
  }

  lemma SeedsAreFiles(plan: Plan, refs: seq<Gav>, t: Intake)
    requires Grown(plan, refs, NOTHING, t) && Sound(plan, t, []) && plan.pins.Keys <= t.marked
    ensures SeedFiles(plan, t.keys)
  {
    forall key | key in t.keys ensures PinFile(plan, key) {
      assert FileOfNew(plan, {}, t.walked, key);
    }
    if NoPinIsTwin(plan) {
      forall key | PinFile(plan, key) ensures key in t.keys {
        var g :| g in plan.pins && key in PinKeys(plan, g);
        PinIsWalked(plan, {}, t.walked, g);
        DoneIsQueued(plan, refs, t, g);
      }
    }
  }

  /** A marked pin was counted, unless it is the other coordinate of one that was. */
  lemma PinIsWalked(plan: Plan, before: set<Gav>, walked: set<Gav>, g: Gav)
    requires g in plan.pins && NoPinIsTwin(plan) && MarkOfNew(plan, before, walked, g)
    ensures g in walked && g !in before
  {
  }

  lemma DoneIsQueued(plan: Plan, refs: seq<Gav>, t: Intake, g: Gav)
    requires Grown(plan, refs, NOTHING, t) && g in plan.pins && g in t.walked
    ensures PinKeys(plan, g) <= t.keys
  {
    assert NewAreQueued({}, {}, {}) && NewAreDone(plan, {}, t.walked, t.keys);
  }

  /** Every pin's file is pushed, or the coordinate is another pin's; when the pins are apart, all their files are. */
  ghost predicate PinsPushed(plan: Plan, log: seq<Unit>) {
    && (forall g | g in plan.pins ::
          HasMain(plan, g, log) || exists h :: h in plan.pins && Twin(plan, h) == Some(g))
    && (Apart(plan) ==>
          forall g | g in plan.pins :: HasMain(plan, g, log) && (Twin(plan, g).Some? ==> HasCopy(plan, g, log)))
  }

  lemma SeedsArePushed(plan: Plan, refs: seq<Gav>, t: Intake)
    requires Grown(plan, refs, NOTHING, t) && plan.pins.Keys <= t.marked
    ensures PinsPushed(plan, t.log)
  {
    forall g | g in plan.pins
      ensures HasMain(plan, g, t.log) || exists h :: h in plan.pins && Twin(plan, h) == Some(g)
    {
      assert MarkOfNew(plan, {}, t.walked, g);
    }
    if Apart(plan) {
      forall g | g in plan.pins ensures HasMain(plan, g, t.log) && (Twin(plan, g).Some? ==> HasCopy(plan, g, t.log)) {
        assert MarkOfNew(plan, {}, t.walked, g);
        PinIsWalked(plan, {}, t.walked, g);
        WalkedIsPushed(plan, t, g);
      }
    }
  }

  lemma WalkedIsPushed(plan: Plan, t: Intake, g: Gav)
    requires NewArePushed(plan, NOTHING, t) && TwinsDiffer(plan) && g in plan.pins && g in t.walked
    ensures HasMain(plan, g, t.log) && (Twin(plan, g).Some? ==> HasCopy(plan, g, t.log))
  {
    assert Twin(plan, g).Some? ==> HasCopy(plan, g, t.log) || TwinTaken(plan, NOTHING, t.walked, g);
  }

  lemma PinsStayPushed(plan: Plan, log: seq<Unit>, longer: seq<Unit>)
    requires PinsPushed(plan, log) && log <= longer
    ensures PinsPushed(plan, longer)
  {
    forall g ensures HasMain(plan, g, log) ==> HasMain(plan, g, longer)
             ensures HasCopy(plan, g, log) ==> HasCopy(plan, g, longer) {
      PushesStay(plan, g, log, longer);
    }
  }

  lemma SeedsAreRecorded(plan: Plan, log: seq<Unit>)
    requires PinPushes(plan, [], log)
    ensures RecordedFirst(log)
  {
    forall i | 0 <= i < |log| ensures log[i].recorded {
      assert PinPush(plan, log[i]);
    }
  }

  lemma PinsAreSources(plan: Plan, items: seq<Item>, log: seq<Unit>)
    requires PinPushes(plan, [], log)
    ensures AllFrom(log, RowSources(plan, items))
  {
    forall unit | unit in log ensures RowSource(plan, items, unit) {
      var i :| 0 <= i < |log| && log[i] == unit;
      assert PinPush(plan, log[i]);
    }
  }

  /** The bytes of some POM the pass is told of name `c` as their parent. */
  ghost predicate ParentNamed(plan: Plan, from: Unit -> bool, c: Gav) {
    exists unit: Unit :: from(unit) && unit.key.extension == "pom" && plan.parentOf(unit.blob) == Some(c)
  }

  /** A row that is a companion POM itself has the bytes the lock pins for that. */
  predicate PinAgrees(plan: Plan, item: Item) {
    && item.key == PomKey(Gav(item.key.group, item.key.artifact, item.key.version))
    && item.pom in plan.pomDigests && item.blob.Some? ==>
      item.blob.value == plan.pomDigests[item.pom]
  }

  /** Why the pass failed, in terms of what it was told. */
  ghost predicate PassFailure(plan: Plan, refs: seq<Gav>, items: seq<Item>, from: Unit -> bool, r: Outcome) {
    match r
    case Done => true
    case UnpinnedPom(c) => Missing(plan, c) && (c in refs || ParentNamed(plan, from, c))
    case SupportClosureTooLarge => |plan.pins.Keys| > plan.limit
    case MissingPinnedPom(g) => (g in plan.pins && !plan.stored(g)) || (g in plan.pomDigests && !plan.storedPom(g))
    case ConflictingExportSources => TwoSources(from)
    case ConflictingPomPackagedPin => exists i | 0 <= i < |items| :: !PinAgrees(plan, items[i])
    case MissingBlob => exists i | 0 <= i < |items| :: items[i].blob.None?
  }

  /** A row that is a companion POM itself, with other bytes than the lock pins for it. */
  method IsPinConflict(plan: Plan, item: Item) returns (conflict: bool)
    ensures conflict <==> !PinAgrees(plan, item)
  {
    conflict := && item.key.extension == "pom" && item.key.classifier.None? && item.blob.Some?
                && item.pom in plan.pomDigests && plan.pomDigests[item.pom] != item.blob.value;
  }

  /** The walk from every pin: afterwards each is queued, and nothing but files of pins is. */
  method Seed(plan: Plan, items: seq<Item>, q: Queue) returns (r: Outcome)
    requires ValidPlan(plan) && q.Valid() && Taken(q) == NOTHING && q.supportNodes == 0
    modifies q
    ensures r.Done? ==>
              Seeded(plan, q) && SeedFiles(plan, q.byKey.Keys) && NewAreQueued({}, q.enqueuedPoms, q.byKey.Keys)
    ensures r.Done? ==> AllFrom(q.log, RowSources(plan, items)) && PinsPushed(plan, q.log)
    ensures PassFailure(plan, [], items, RowSources(plan, items), r)
  {
    r := EnqueueSupportClosure(plan, plan.listing, q);
    PinsAreSources(plan, items, q.log);
    SeedFailure(plan, items, Taken(q), r);
    if r.Done? {
      SeedsAreRecorded(plan, q.log);
      forall g | g in plan.pins ensures g in q.enqueuedPoms {
        assert g in plan.listing;
      }
      SeedsAreFiles(plan, plan.listing, Taken(q));
      SeedsArePushed(plan, plan.listing, Taken(q));
    }
  }

  /** The unit pushed for the pin, whichever of its files it is. */
  function PinUnit(plan: Plan, g: Gav, key: Key): (unit: Unit)
    requires g in plan.pins && key in PinKeys(plan, g)
    ensures PushOf(plan, g, unit) && unit.key == key
  {
    var pin := plan.pins[g];
    if pin.build.Some? then
      if key == PomKey(g.(version := pin.build.value)) then Unit(key, pin.blob, SupportPom, pin.repoIds, true, false)
      else Unit(key, pin.blob, SupportPom, {}, true, true)
    else if key == PomKey(g) then Unit(key, pin.blob, SupportPom, pin.repoIds, true, HasSuffix(g.version, "SNAPSHOT"))
    else Unit(key, pin.blob, SupportPom, pin.repoIds, true, true)
  }

  lemma PinIsSource(plan: Plan, items: seq<Item>, g: Gav, key: Key)
    requires g in plan.pins && key in PinKeys(plan, g)
    ensures RowSources(plan, items)(PinUnit(plan, g, key))
  {
    assert PinPush(plan, PinUnit(plan, g, key));
  }

  lemma SeedFailure(plan: Plan, items: seq<Item>, t: Intake, r: Outcome)
    requires ValidPlan(plan) && Failure(plan, plan.listing, {}, t, r) && AllFrom(t.log, RowSources(plan, items))
    ensures PassFailure(plan, [], items, RowSources(plan, items), r)
  {
    var from := RowSources(plan, items);
    match r
    case UnpinnedPom(c) =>
      assert c !in plan.listing;
      var g :| g in plan.pins && Reachable(plan, plan.listing, g) && plan.parentOf(plan.pins[g].blob) == Some(c);
      PinIsSource(plan, items, g, PomKey(g));
      assert from(PinUnit(plan, g, PomKey(g)));
    case SupportClosureTooLarge =>
      SmallerSet(t.walked, plan.pins.Keys);
    case ConflictingExportSources =>
      var g :| Clashes(plan, t.log, g) && Reachable(plan, plan.listing, g);
      var unit :| unit in t.log && unit.key in PinKeys(plan, g) && unit.blob != plan.pins[g].blob;
      PinIsSource(plan, items, g, unit.key);
      assert from(unit) && from(PinUnit(plan, g, unit.key));
    case _ =>
  }

  // ----- one row -----

  /** Whether a row queues its companion POM: the lock pins it, and it is neither queued nor marked. */
  predicate Adds(plan: Plan, item: Item, keys: set<Key>, marked: set<Gav>) {
    item.key.extension != "pom" && item.pom in plan.pomDigests && PomKey(item.pom) !in keys && item.pom !in marked
  }

  function CompanionKeys(plan: Plan, item: Item, keys: set<Key>, marked: set<Gav>): set<Key> {
    keys + if Adds(plan, item, keys, marked) then {PomKey(item.pom)} else {}
  }

  /** The files queued after a row. */
  function RowKeys(plan: Plan, item: Item, keys: set<Key>, marked: set<Gav>): set<Key> {
    CompanionKeys(plan, item, keys, marked) + {item.key}
  }

  /** The coordinates marked after a row: a POM row marks its own even when it has a classifier. */
  function RowMarks(plan: Plan, item: Item, keys: set<Key>, marked: set<Gav>): set<Gav> {
    marked + if item.key.extension == "pom" || Adds(plan, item, keys, marked) then {item.pom} else {}
  }

  lemma CompanionCases(plan: Plan, item: Item, keys: set<Key>, marked: set<Gav>)
    requires item.key.extension != "pom"
    ensures Adds(plan, item, keys, marked) ==>
              CompanionKeys(plan, item, keys, marked) == keys + {PomKey(item.pom)}
                && RowMarks(plan, item, keys, marked) == marked + {item.pom}
    ensures !Adds(plan, item, keys, marked) ==>
              CompanionKeys(plan, item, keys, marked) == keys && RowMarks(plan, item, keys, marked) == marked
    ensures PomKey(item.pom) in keys ==> keys + {PomKey(item.pom)} == keys
  {
  }

  lemma PomCase(plan: Plan, item: Item, keys: set<Key>, marked: set<Gav>)
    requires item.key.extension == "pom"
    ensures RowKeys(plan, item, keys, marked) == keys + {item.key}
            && RowMarks(plan, item, keys, marked) == marked + {item.pom}
  {
  }

  ghost predicate RowFailure(plan: Plan, item: Item, from: Unit -> bool, r: Outcome) {
    match r
    case Done => true
    case UnpinnedPom(c) => Missing(plan, c) && ParentNamed(plan, from, c)
    case MissingPinnedPom(g) => g in plan.pomDigests && !plan.storedPom(g)
    case ConflictingExportSources => TwoSources(from)
    case ConflictingPomPackagedPin => !PinAgrees(plan, item)
    case MissingBlob => item.blob.None?
    case SupportClosureTooLarge => false
  }

  /** A file that is queued already has its parent covered, if the new pin agrees with its bytes. */
  lemma HeldParent(plan: Plan, q: Queue, unit: Unit)
    requires Seeded(plan, q) && unit.key in q.byKey && unit.key.extension == "pom"
    ensures NeedsCover(plan, unit) && AgreesWith(q.log, unit) ==>
              Covered(plan, q.byKey.Keys, plan.parentOf(unit.blob).value)
  {
    AgreesWithAll(q.units, q.byKey, q.log, unit);
    QueuedBytes(q.units, q.byKey, q.log, q.byKey[unit.key]);
  }

  lemma SoundAfterMark(plan: Plan, t: Intake, g: Gav)
    requires Sound(plan, t, []) && plan.pins.Keys <= t.marked
    ensures Sound(plan, t.(marked := t.marked + {g}), [])
  {
  }

  /** Marks a coordinate as queued. */
  method Mark(plan: Plan, g: Gav, q: Queue)
    requires Seeded(plan, q)
    modifies q`enqueuedPoms
    ensures Seeded(plan, q) && q.enqueuedPoms == old(q.enqueuedPoms) + {g}
  {
    ghost var t := Taken(q);
    SoundAfterMark(plan, t, g);
    q.enqueuedPoms := q.enqueuedPoms + {g};
    assert Taken(q) == t.(marked := t.marked + {g});
  }

  /** A unit like this is among the pushes. */
  ghost predicate FilePushed(item: Item, log: seq<Unit>) {
    exists unit :: unit in log && IsFile(item, unit)
  }

  ghost predicate CompanionPushed(plan: Plan, item: Item, log: seq<Unit>) {
    exists unit :: unit in log && IsCompanion(plan, item, unit)
  }

  /** The row has a companion POM to push, and it is queued already or not marked. */
  predicate Submits(plan: Plan, item: Item, keys: set<Key>, marked: set<Gav>) {
    item.key.extension != "pom" && item.pom in plan.pomDigests && (PomKey(item.pom) in keys || item.pom !in marked)
  }

  /** What a row that is no POM does about its companion POM. */
  ghost predicate CompanionDone(plan: Plan, item: Item, a: Intake, b: Intake) {
    && a.log <= b.log && b.keys == CompanionKeys(plan, item, a.keys, a.marked)
    && b.marked == RowMarks(plan, item, a.keys, a.marked)
    && (Submits(plan, item, a.keys, a.marked) ==> CompanionPushed(plan, item, b.log))
  }

  lemma NoCompanion(plan: Plan, item: Item, a: Intake)
    requires item.key.extension != "pom" && item.pom !in plan.pomDigests
    ensures CompanionDone(plan, item, a, a)
  {
    CompanionCases(plan, item, a.keys, a.marked);
  }

  lemma CompanionFails(plan: Plan, item: Item, from: Unit -> bool, r: Outcome)
    requires item.pom in plan.pomDigests && CompanionFailure(plan, item.pom, from, r)
    ensures RowFailure(plan, item, from, r)
  {
  }

  /** The companion POM of a row that is not a POM itself. */
  method QueueCompanion(plan: Plan, item: Item, q: Queue, ghost from: Unit -> bool) returns (r: Outcome)
    requires ValidPlan(plan) && Seeded(plan, q) && AllFrom(q.log, from) && item.key.extension != "pom"
    requires forall unit | ItemUnit(plan, item, unit) :: from(unit)
    modifies q
    ensures r.Done? ==> Seeded(plan, q) && AllFrom(q.log, from) && CompanionDone(plan, item, old(Taken(q)), Taken(q))
    ensures RowFailure(plan, item, from, r)
  {
    ghost var before := Taken(q);
    if item.pom !in plan.pomDigests {
      NoCompanion(plan, item, before);
      return Done;
    }
    var replace := HasSuffix(item.key.version, "SNAPSHOT") || item.pomBase;
    var unit := Unit(PomKey(item.pom), plan.pomDigests[item.pom], CompanionPom, item.repoIds, false, replace);
    assert ItemUnit(plan, item, unit);
    r := SubmitCompanion(plan, item.pom, unit, q, from);
    CompanionFails(plan, item, from, r);
    if r.Done? {
      SubmittedMeans(plan, item, unit, before, Taken(q));
    }
  }

  ghost predicate CompanionFailure(plan: Plan, pom: Gav, from: Unit -> bool, r: Outcome) {
    match r
    case Done => true
    case UnpinnedPom(c) => Missing(plan, c) && ParentNamed(plan, from, c)
    case MissingPinnedPom(g) => g == pom && !plan.storedPom(g)
    case ConflictingExportSources => TwoSources(from)
    case _ => false
  }

  /** What becomes of the pinned bytes of a companion POM. */
  ghost predicate Submitted(pom: Gav, unit: Unit, a: Intake, b: Intake) {
    if unit.key in a.keys then b == a.(log := a.log + [unit])
    else if pom in a.marked then b == a
    else b == WithUnit(a.(marked := a.marked + {pom}), unit)
  }

  /** The pinned bytes of a companion POM: compared with those queued, or queued when nothing marked them. */
  method SubmitCompanion(plan: Plan, pom: Gav, unit: Unit, q: Queue, ghost from: Unit -> bool) returns (r: Outcome)
    requires ValidPlan(plan) && Seeded(plan, q) && AllFrom(q.log, from)
    requires unit.key == PomKey(pom) && !unit.recorded && from(unit)
    modifies q
    ensures r.Done? ==> Seeded(plan, q) && AllFrom(q.log, from) && Submitted(pom, unit, old(Taken(q)), Taken(q))
    ensures CompanionFailure(plan, pom, from, r)
  {
    r := Done;
    if q.Holds(unit.key) {
      r := SubmitHeld(plan, unit, q, from);
    } else if pom !in q.enqueuedPoms {
      r := NewCompanion(plan, pom, unit, q, from);
    }
  }

  /** The pinned bytes of a companion POM that is queued already, compared with those queued. */
  method SubmitHeld(plan: Plan, unit: Unit, q: Queue, ghost from: Unit -> bool) returns (r: Outcome)
    requires Seeded(plan, q) && AllFrom(q.log, from) && unit.key in q.byKey
    requires unit.key.extension == "pom" && !unit.recorded && from(unit)
    modifies q`units, q`byKey, q`log
    ensures r.Done? ==> Seeded(plan, q) && AllFrom(q.log, from)
    ensures r.Done? ==> Taken(q) == old(Taken(q)).(log := old(q.log) + [unit])
    ensures r.Done? || (r.ConflictingExportSources? && TwoSources(from))
  {
    HeldParent(plan, q, unit);
    assert q.byKey.Keys + {unit.key} == q.byKey.Keys;
    r := PushLater(plan, unit, q, from);
  }

  /** A companion POM no pass has queued or marked. */
  method NewCompanion(plan: Plan, pom: Gav, unit: Unit, q: Queue, ghost from: Unit -> bool) returns (r: Outcome)
    requires ValidPlan(plan) && Seeded(plan, q) && AllFrom(q.log, from)
    requires unit.key == PomKey(pom) && !unit.recorded && from(unit)
    modifies q
    ensures r.Done? ==> Seeded(plan, q) && AllFrom(q.log, from)
    ensures r.Done? ==> Taken(q) == WithUnit(old(Taken(q)).(marked := old(q.enqueuedPoms) + {pom}), unit)
    ensures CompanionFailure(plan, pom, from, r)
  {
    if !plan.storedPom(pom) {
      return MissingPinnedPom(pom);
    }
    Mark(plan, pom, q);
    r := EnqueueParent(plan, unit.blob, q);
    if r.Done? {
      r := PushLater(plan, unit, q, from);
    }
  }

  lemma SubmittedMeans(plan: Plan, item: Item, unit: Unit, a: Intake, b: Intake)
    requires IsCompanion(plan, item, unit) && Submitted(item.pom, unit, a, b)
    ensures CompanionDone(plan, item, a, b)
  {
    CompanionCases(plan, item, a.keys, a.marked);
    if Submits(plan, item, a.keys, a.marked) {
      assert unit in b.log;
    }
  }

  /** What one row leaves in the log: its file, and its companion POM when it is submitted. */
  ghost predicate RowPushed(plan: Plan, item: Item, keys: set<Key>, marked: set<Gav>, log: seq<Unit>) {
    && FilePushed(item, log) && PinAgrees(plan, item)
    && (Submits(plan, item, keys, marked) ==> CompanionPushed(plan, item, log))
  }

  /** The unit of a row's own file. */
  method PushFile(plan: Plan, item: Item, blob: string, q: Queue, ghost from: Unit -> bool) returns (r: Outcome)
    requires Seeded(plan, q) && AllFrom(q.log, from) && item.blob == Some(blob)
    requires forall unit | ItemUnit(plan, item, unit) :: from(unit)
    requires item.key.extension == "pom" && plan.parentOf(blob).Some? ==>
               Covered(plan, q.byKey.Keys, plan.parentOf(blob).value)
    modifies q`units, q`byKey, q`log
    ensures r.Done? ==> Seeded(plan, q) && AllFrom(q.log, from) && old(q.log) <= q.log && FilePushed(item, q.log)
    ensures r.Done? ==> q.byKey.Keys == old(q.byKey.Keys) + {item.key}
    ensures r.Done? || (r.ConflictingExportSources? && TwoSources(from))
  {
    var unit := Unit(item.key, blob, Package, item.repoIds, false, HasSuffix(item.key.version, "SNAPSHOT"));
    assert IsFile(item, unit) && ItemUnit(plan, item, unit);
    r := PushLater(plan, unit, q, from);
  }

  /** A locked artifact that is not a POM, after its companion POM. */
  method QueueFile(plan: Plan, item: Item, blob: string, q: Queue, ghost from: Unit -> bool) returns (r: Outcome)
    requires ValidPlan(plan) && Seeded(plan, q) && AllFrom(q.log, from) && item.key.extension != "pom"
    requires item.blob == Some(blob) && forall unit | ItemUnit(plan, item, unit) :: from(unit)
    modifies q
    ensures r.Done? ==> Seeded(plan, q) && AllFrom(q.log, from) && old(q.log) <= q.log
    ensures r.Done? ==> RowPushed(plan, item, old(q.byKey.Keys), old(q.enqueuedPoms), q.log)
    ensures r.Done? ==> q.byKey.Keys == RowKeys(plan, item, old(q.byKey.Keys), old(q.enqueuedPoms))
    ensures r.Done? ==> q.enqueuedPoms == RowMarks(plan, item, old(q.byKey.Keys), old(q.enqueuedPoms))
    ensures RowFailure(plan, item, from, r)
  {
    r := QueueCompanion(plan, item, q, from);
    if r.Done? {
      ghost var mid := q.log;
      r := PushFile(plan, item, blob, q, from);
      CompanionStays(plan, item, mid, q.log);
    }
  }

  lemma CompanionStays(plan: Plan, item: Item, log: seq<Unit>, longer: seq<Unit>)
    ensures log <= longer && CompanionPushed(plan, item, log) ==> CompanionPushed(plan, item, longer)
    ensures log <= longer && FilePushed(item, log) ==> FilePushed(item, longer)
  {
    assert log <= longer ==> forall unit | unit in log :: unit in longer;
  }

  /** A locked artifact that is a POM, after its parents. */
  method QueuePom(plan: Plan, item: Item, blob: string, q: Queue, ghost from: Unit -> bool) returns (r: Outcome)
    requires ValidPlan(plan) && Seeded(plan, q) && AllFrom(q.log, from) && item.key.extension == "pom"
    requires item.blob == Some(blob) && forall unit | ItemUnit(plan, item, unit) :: from(unit)
    modifies q
    ensures r.Done? ==> Seeded(plan, q) && AllFrom(q.log, from) && old(q.log) <= q.log
    ensures r.Done? ==> RowPushed(plan, item, old(q.byKey.Keys), old(q.enqueuedPoms), q.log)
    ensures r.Done? ==> q.byKey.Keys == RowKeys(plan, item, old(q.byKey.Keys), old(q.enqueuedPoms))
    ensures r.Done? ==> q.enqueuedPoms == RowMarks(plan, item, old(q.byKey.Keys), old(q.enqueuedPoms))
    ensures RowFailure(plan, item, from, r)
  {
    var conflict := IsPinConflict(plan, item);
    if conflict {
      return ConflictingPomPackagedPin;
    }
    PomCase(plan, item, q.byKey.Keys, q.enqueuedPoms);
    Mark(plan, item.pom, q);
    r := EnqueueParent(plan, blob, q);
    if r.Done? {
      r := PushFile(plan, item, blob, q, from);
    } else {
      ParentIsNamed(plan, item, blob, from, r.coordinate);
    }
  }

  lemma ParentIsNamed(plan: Plan, item: Item, blob: string, from: Unit -> bool, c: Gav)
    requires item.key.extension == "pom" && item.blob == Some(blob) && plan.parentOf(blob) == Some(c)
    requires forall unit | ItemUnit(plan, item, unit) :: from(unit)
    ensures ParentNamed(plan, from, c)
  {
    var unit := Unit(item.key, blob, Package, item.repoIds, false, IsPlain(item));
    assert IsFile(item, unit) && ItemUnit(plan, item, unit);
  }

  /** One locked artifact and, when it has one, its companion POM. */
  method QueueItem(plan: Plan, item: Item, q: Queue, ghost from: Unit -> bool) returns (r: Outcome)
    requires ValidPlan(plan) && Seeded(plan, q) && AllFrom(q.log, from)
    requires forall unit | ItemUnit(plan, item, unit) :: from(unit)
    modifies q
    ensures r.Done? ==> Seeded(plan, q) && AllFrom(q.log, from) && old(q.log) <= q.log
    ensures r.Done? ==> RowPushed(plan, item, old(q.byKey.Keys), old(q.enqueuedPoms), q.log)
    ensures r.Done? ==> q.byKey.Keys == RowKeys(plan, item, old(q.byKey.Keys), old(q.enqueuedPoms))
    ensures r.Done? ==> q.enqueuedPoms == RowMarks(plan, item, old(q.byKey.Keys), old(q.enqueuedPoms))
    ensures RowFailure(plan, item, from, r)
  {
    if item.blob.None? {
      return MissingBlob;
    }
    if item.key.extension != "pom" {
      r := QueueFile(plan, item, item.blob.value, q, from);
    } else {
      r := QueuePom(plan, item, item.blob.value, q, from);
    }
  }

  // ----- all rows -----

  /** Some row has the companion coordinate `g`. */
  ghost predicate Mentioned(items: seq<Item>, g: Gav) {
    exists i | 0 <= i < |items| :: items[i].pom == g
  }

  ghost predicate IsRow(items: seq<Item>, key: Key) {
    exists i | 0 <= i < |items| :: items[i].key == key
  }

  /** Row `i` is the first with its companion coordinate. */
  ghost predicate First(items: seq<Item>, i: int) {
    0 <= i < |items| && forall j | 0 <= j < i :: items[j].pom != items[i].pom
  }

  /** The rows queue the companion POM of `g`: as a row, or because the first row of `g` is not a POM. */
  ghost predicate RowsQueue(items: seq<Item>, g: Gav) {
    IsRow(items, PomKey(g)) || exists i :: First(items, i) && items[i].pom == g && items[i].key.extension != "pom"
  }

  /** What the rows so far did to the companion POM of `g`. */
  ghost predicate RowInv(plan: Plan, rows: seq<Item>, seeds: set<Key>, keys: set<Key>, marked: set<Gav>, g: Gav) {
    && (g in plan.pomDigests ==> (PomKey(g) in keys <==> PomKey(g) in seeds || RowsQueue(rows, g)))
    && (g in marked && PomKey(g) !in keys ==> HasPomRow(rows, g))
    && (g in plan.pomDigests && Mentioned(rows, g) ==> g in marked || PomKey(g) in keys)
  }

  /** Some row of `g` is a POM; with a classifier it is a file of its own. */
  ghost predicate HasPomRow(items: seq<Item>, g: Gav) {
    exists i | 0 <= i < |items| :: items[i].pom == g && items[i].key.extension == "pom"
  }

  ghost predicate RowsInv(plan: Plan, rows: seq<Item>, seeds: set<Key>, keys: set<Key>, marked: set<Gav>) {
    && seeds <= keys && (forall i | 0 <= i < |rows| :: rows[i].key in keys)
    && (forall g :: RowInv(plan, rows, seeds, keys, marked, g))
  }

  lemma MentionedMore(rows: seq<Item>, item: Item, g: Gav)
    ensures Mentioned(rows + [item], g) <==> Mentioned(rows, g) || item.pom == g
    ensures IsRow(rows + [item], PomKey(g)) <==> IsRow(rows, PomKey(g)) || item.key == PomKey(g)
    ensures HasPomRow(rows + [item], g) <==> HasPomRow(rows, g) || (item.pom == g && item.key.extension == "pom")
    ensures HasPomRow(rows, g) ==> Mentioned(rows, g)
  {
    var more := rows + [item];
    assert more[|rows|] == item && forall i | 0 <= i < |rows| :: more[i] == rows[i];
  }

  lemma FirstStays(rows: seq<Item>, item: Item, i: nat)
    requires i < |rows|
    ensures First(rows + [item], i) <==> First(rows, i)
  {
    var more := rows + [item];
    assert forall j | 0 <= j < |rows| :: more[j] == rows[j];
  }

  lemma RowsQueueMore(rows: seq<Item>, item: Item, g: Gav)
    ensures RowsQueue(rows + [item], g) <==>
            || RowsQueue(rows, g) || item.key == PomKey(g)
            || (item.pom == g && item.key.extension != "pom" && !Mentioned(rows, g))
  {
    var more := rows + [item];
    MentionedMore(rows, item, g);
    assert more[|rows|] == item && forall i | 0 <= i < |rows| :: more[i] == rows[i];
    if item.pom == g {
      assert First(more, |rows|) <==> !Mentioned(rows, g);
    }
    forall i | 0 <= i < |rows| ensures First(more, i) <==> First(rows, i) {
      FirstStays(rows, item, i);
    }
  }

  lemma RowStep(plan: Plan, rows: seq<Item>, item: Item, seeds: set<Key>, keys: set<Key>, marked: set<Gav>, g: Gav)
    requires RowInv(plan, rows, seeds, keys, marked, g)
    ensures RowInv(plan, rows + [item], seeds, RowKeys(plan, item, keys, marked), RowMarks(plan, item, keys, marked), g)
  {
    MentionedMore(rows, item, g);
    RowsQueueMore(rows, item, g);
    KeyAfterRow(plan, item, keys, marked, g);
  }

  lemma KeyAfterRow(plan: Plan, item: Item, keys: set<Key>, marked: set<Gav>, g: Gav)
    ensures PomKey(g) in RowKeys(plan, item, keys, marked) <==>
            PomKey(g) in keys || item.key == PomKey(g) || (item.pom == g && Adds(plan, item, keys, marked))
    ensures g in RowMarks(plan, item, keys, marked) <==>
            g in marked || (item.pom == g && (item.key.extension == "pom" || Adds(plan, item, keys, marked)))
  {
  }

  lemma RowsStep(plan: Plan, items: seq<Item>, i: nat, seeds: set<Key>, keys: set<Key>, marked: set<Gav>)
    requires i < |items| && RowsInv(plan, items[..i], seeds, keys, marked)
    ensures RowsInv(plan, items[..i + 1], seeds, RowKeys(plan, items[i], keys, marked),
                    RowMarks(plan, items[i], keys, marked))
  {
    var rows, more, marks := items[..i + 1], RowKeys(plan, items[i], keys, marked),
      RowMarks(plan, items[i], keys, marked);
    assert rows == items[..i] + [items[i]];
    forall g ensures RowInv(plan, rows, seeds, more, marks, g) {
      RowStep(plan, items[..i], items[i], seeds, keys, marked, g);
    }
  }

  lemma ItemIsSource(plan: Plan, items: seq<Item>, i: nat)
    requires i < |items|
    ensures forall unit | ItemUnit(plan, items[i], unit) :: RowSources(plan, items)(unit)
  {
  }

  lemma LiftFailure(plan: Plan, refs: seq<Gav>, items: seq<Item>, i: nat, from: Unit -> bool, r: Outcome)
    requires i < |items| && RowFailure(plan, items[i], from, r)
    ensures PassFailure(plan, refs, items, from, r)
  {
  }

  /**
   * Every row agreed with its pin and pushed its file, and its companion POM unless a POM row of that
   * coordinate came before.
   */
  ghost predicate RowsPushed(plan: Plan, rows: seq<Item>, log: seq<Unit>) {
    forall i | 0 <= i < |rows| :: RowIsPushed(plan, rows, i, log)
  }

  ghost predicate RowIsPushed(plan: Plan, rows: seq<Item>, i: nat, log: seq<Unit>)
    requires i < |rows|
  {
    && FilePushed(rows[i], log) && PinAgrees(plan, rows[i])
    && (rows[i].key.extension != "pom" && rows[i].pom in plan.pomDigests ==>
          CompanionPushed(plan, rows[i], log) || HasPomRow(rows[..i], rows[i].pom))
  }

  lemma PushedStep(plan: Plan, items: seq<Item>, i: nat, seeds: set<Key>, keys: set<Key>, marked: set<Gav>,
                   log: seq<Unit>, longer: seq<Unit>)
    requires i < |items| && RowsInv(plan, items[..i], seeds, keys, marked) && RowsPushed(plan, items[..i], log)
    requires log <= longer && RowPushed(plan, items[i], keys, marked, longer)
    ensures RowsPushed(plan, items[..i + 1], longer)
  {
    var rows := items[..i + 1];
    forall k: nat | k < |rows| ensures RowIsPushed(plan, rows, k, longer) {
      if k < i {
        assert RowIsPushed(plan, items[..i], k, log) && rows[k] == items[..i][k] && rows[..k] == items[..i][..k];
        CompanionStays(plan, rows[k], log, longer);
      } else {
        assert rows[..k] == items[..i];
        assert RowInv(plan, items[..i], seeds, keys, marked, rows[k].pom);
      }
    }
  }

  /** All rows, in order; what they queue and mark is told exactly. */
  method QueueItems(plan: Plan, items: seq<Item>, q: Queue) returns (r: Outcome)
    requires ValidPlan(plan) && Seeded(plan, q) && AllFrom(q.log, RowSources(plan, items))
    requires NewAreQueued({}, q.enqueuedPoms, q.byKey.Keys)
    modifies q
    ensures r.Done? ==> Seeded(plan, q) && AllFrom(q.log, RowSources(plan, items)) && old(q.log) <= q.log
    ensures r.Done? ==> RowsPushed(plan, items, q.log)
    ensures r.Done? ==> RowsInv(plan, items, old(q.byKey.Keys), q.byKey.Keys, q.enqueuedPoms)
    ensures PassFailure(plan, [], items, RowSources(plan, items), r)
  {
    ghost var seeds, from := q.byKey.Keys, RowSources(plan, items);
    RowsInvStarts(plan, seeds, q.enqueuedPoms);
    for i := 0 to |items|
      invariant Seeded(plan, q) && AllFrom(q.log, from) && old(q.log) <= q.log
      invariant RowsInv(plan, items[..i], seeds, q.byKey.Keys, q.enqueuedPoms) && RowsPushed(plan, items[..i], q.log)
    {
      ItemIsSource(plan, items, i);
      RowsStep(plan, items, i, seeds, q.byKey.Keys, q.enqueuedPoms);
      ghost var keys, marked, log := q.byKey.Keys, q.enqueuedPoms, q.log;
      r := QueueItem(plan, items[i], q, from);
      LiftFailure(plan, [], items, i, from, r);
      if !r.Done? {
        return;
      }
      PushedStep(plan, items, i, seeds, keys, marked, log, q.log);
    }
    assert items[..|items|] == items;
    return Done;
  }

  // ----- the plain copies -----

  ghost predicate UnitsCovered(plan: Plan, units: seq<Unit>, keys: set<Key>) {
    forall k | 0 <= k < |units| && NeedsCover(plan, units[k]) :: Covered(plan, keys, plan.parentOf(units[k].blob).value)
  }

  /** In terms of the files that get written: the parent of every POM among the units is covered. */
  lemma UnitParentCovered(plan: Plan, q: Queue, i: nat)
    requires q.Valid() && ParentsCovered(plan, q.log, q.byKey.Keys, [])
    requires i < |q.units| && NeedsCover(plan, q.units[i])
    ensures Covered(plan, q.byKey.Keys, plan.parentOf(q.units[i].blob).value)
  {
    QueuedBytes(q.units, q.byKey, q.log, i);
  }

  lemma AllUnitsCovered(plan: Plan, q: Queue)
    requires Seeded(plan, q)
    ensures UnitsCovered(plan, q.units, q.byKey.Keys)
  {
    forall k | 0 <= k < |q.units| && NeedsCover(plan, q.units[k])
      ensures Covered(plan, q.byKey.Keys, plan.parentOf(q.units[k].blob).value)
    {
      UnitParentCovered(plan, q, k);
    }
  }

  /** The files queued are those of `before` and the copies of the first `n` units. */
  ghost predicate Copied(plan: Plan, requested: set<Gav>, units: seq<Unit>, n: int, before: set<Key>, keys: set<Key>)
    requires 0 <= n <= |units|
  {
    forall key :: key in keys <==>
      key in before || exists k | 0 <= k < n :: CopyKey(plan, requested, units[k].key) == Some(key)
  }

  /** The file, bytes and source of the unit are those of some push. */
  ghost predicate FromSome(unit: Unit, from: Unit -> bool) {
    exists other: Unit :: from(other) && other.key == unit.key && other.blob == unit.blob && other.source == unit.source
  }

  ghost predicate UnitsFrom(units: seq<Unit>, from: Unit -> bool) {
    forall k | 0 <= k < |units| :: FromSome(units[k], from)
  }

  lemma AllUnitsFrom(q: Queue, from: Unit -> bool)
    requires q.Valid() && AllFrom(q.log, from)
    ensures UnitsFrom(q.units, from)
  {
    forall k | 0 <= k < |q.units| ensures FromSome(q.units[k], from) {
      QueuedBytes(q.units, q.byKey, q.log, k);
      var unit :| && unit in q.log && unit.key == q.units[k].key && unit.blob == q.units[k].blob
                  && unit.source == q.units[k].source;
      assert from(unit);
    }
  }

  lemma CopyIsSource(plan: Plan, items: seq<Item>, requested: set<Gav>, unit: Unit, copy: Unit)
    requires FromSome(unit, RowSources(plan, items)) && IsPlainCopy(plan, requested, unit, copy)
    ensures Sources(plan, items, requested)(copy)
  {
    var other: Unit :| && RowSources(plan, items)(other) && other.key == unit.key && other.blob == unit.blob
                       && other.source == unit.source;
    assert RowSource(plan, items, other) && IsPlainCopy(plan, requested, other, copy);
  }

  lemma RowsAreSources(plan: Plan, items: seq<Item>, requested: set<Gav>, log: seq<Unit>)
    requires AllFrom(log, RowSources(plan, items))
    ensures AllFrom(log, Sources(plan, items, requested))
  {
    forall unit | unit in log ensures Sources(plan, items, requested)(unit) {
      assert RowSources(plan, items)(unit);
    }
  }

  lemma CopiedMore(plan: Plan, requested: set<Gav>, units: seq<Unit>, n: nat, before: set<Key>, keys: set<Key>,
                   more: set<Key>)
    requires n < |units| && Copied(plan, requested, units, n, before, keys)
    requires var copy := CopyKey(plan, requested, units[n].key); more == keys + if copy.Some? then {copy.value} else {}
    ensures Copied(plan, requested, units, n + 1, before, more)
  {
    forall key
      ensures key in more <==>
              key in before || exists k | 0 <= k < n + 1 :: CopyKey(plan, requested, units[k].key) == Some(key)
    {
      if k :| 0 <= k < n + 1 && CopyKey(plan, requested, units[k].key) == Some(key) {
        assert k < n || CopyKey(plan, requested, units[n].key) == Some(key);
      }
    }
  }

  lemma UnitsStayCovered(plan: Plan, units: seq<Unit>, keys: set<Key>, more: set<Key>)
    requires UnitsCovered(plan, units, keys) && keys <= more
    ensures UnitsCovered(plan, units, more)
  {
    forall k | 0 <= k < |units| && NeedsCover(plan, units[k])
      ensures Covered(plan, more, plan.parentOf(units[k].blob).value)
    {
      CoveredStays(plan, keys, more, plan.parentOf(units[k].blob).value);
    }
  }

  /** What holds while the copies of the first `i` units are queued. */
  ghost predicate Copying(plan: Plan, items: seq<Item>, requested: set<Gav>, units: seq<Unit>, i: int, before: set<Key>,
                          q: Queue)
    requires 0 <= i <= |units|
    reads q
  {
    && Seeded(plan, q) && AllFrom(q.log, Sources(plan, items, requested)) && UnitsFrom(units, RowSources(plan, items))
    && UnitsCovered(plan, units, q.byKey.Keys) && Copied(plan, requested, units, i, before, q.byKey.Keys)
  }

  lemma RowsStayPushed(plan: Plan, rows: seq<Item>, log: seq<Unit>, longer: seq<Unit>)
    requires RowsPushed(plan, rows, log) && log <= longer
    ensures RowsPushed(plan, rows, longer)
  {
    forall i: nat | i < |rows| ensures RowIsPushed(plan, rows, i, longer) {
      assert RowIsPushed(plan, rows, i, log);
      CompanionStays(plan, rows[i], log, longer);
    }
  }

  method QueueCopy(plan: Plan, items: seq<Item>, requested: set<Gav>, units: seq<Unit>, i: int, q: Queue,
                   ghost before: set<Key>)
    returns (r: Outcome)
    requires 0 <= i < |units| && Copying(plan, items, requested, units, i, before, q)
    modifies q`units, q`byKey, q`log
    ensures r.Done? ==> Copying(plan, items, requested, units, i + 1, before, q) && old(q.log) <= q.log
    ensures r.Done? || (r.ConflictingExportSources? && TwoSources(Sources(plan, items, requested)))
  {
    ghost var keys := q.byKey.Keys;
    var copy := CopyKey(plan, requested, units[i].key);
    r := Done;
    if copy.Some? {
      var unit := Unit(copy.value, units[i].blob, units[i].source, {}, false, true);
      CopyIsSource(plan, items, requested, units[i], unit);
      r := PushLater(plan, unit, q, Sources(plan, items, requested));
    }
    if r.Done? {
      CopiedMore(plan, requested, units, i, before, keys, q.byKey.Keys);
      UnitsStayCovered(plan, units, keys, q.byKey.Keys);
    }
  }

  /** `queue_plain_snapshot_copies`, for the coordinates a row asks for as a `-SNAPSHOT`. */
  method QueuePlainCopies(plan: Plan, items: seq<Item>, requested: set<Gav>, q: Queue) returns (r: Outcome)
    requires Seeded(plan, q) && AllFrom(q.log, RowSources(plan, items))
    modifies q`units, q`byKey, q`log
    ensures r.Done? ==> Copying(plan, items, requested, old(q.units), |old(q.units)|, old(q.byKey.Keys), q)
    ensures r.Done? ==> old(q.log) <= q.log
    ensures r.Done? || (r.ConflictingExportSources? && TwoSources(Sources(plan, items, requested)))
  {
    var units := q.units;
    ghost var before := q.byKey.Keys;
    StartsCopying(plan, items, requested, q);
    for i := 0 to |units|
      invariant Copying(plan, items, requested, units, i, before, q) && old(q.log) <= q.log
    {
      r := QueueCopy(plan, items, requested, units, i, q, before);
      if !r.Done? {
        return;
      }
    }
    return Done;
  }

  lemma StartsCopying(plan: Plan, items: seq<Item>, requested: set<Gav>, q: Queue)
    requires Seeded(plan, q) && AllFrom(q.log, RowSources(plan, items))
    ensures Copying(plan, items, requested, q.units, 0, q.byKey.Keys, q)
  {
    AllUnitsCovered(plan, q);
    AllUnitsFrom(q, RowSources(plan, items));
    RowsAreSources(plan, items, requested, q.log);
  }

  // ----- the whole pass -----

  lemma FailureLifts(plan: Plan, refs: seq<Gav>, items: seq<Item>, requested: set<Gav>, r: Outcome)
    requires PassFailure(plan, [], items, RowSources(plan, items), r)
    ensures PassFailure(plan, refs, items, Sources(plan, items, requested), r)
  {
    var from, all := RowSources(plan, items), Sources(plan, items, requested);
    match r
    case UnpinnedPom(c) =>
      var unit: Unit :| from(unit) && unit.key.extension == "pom" && plan.parentOf(unit.blob) == Some(c);
      assert all(unit);
    case ConflictingExportSources =>
      var a: Unit, b: Unit :| a.key == b.key && a.blob != b.blob && from(a) && from(b);
      assert all(a) && all(b);
    case _ =>
  }

  /** The files of an export: those of the seeds and rows, and the copies of those. */
  ghost predicate WithCopies(plan: Plan, requested: set<Gav>, rows: set<Key>, keys: set<Key>) {
    forall key :: key in keys <==>
      key in rows || exists from :: from in rows && CopiedTo(plan, requested, from, key)
  }

  lemma CopiedKeys(plan: Plan, requested: set<Gav>, units: seq<Unit>, byKey: map<Key, nat>, keys: set<Key>)
    requires Indexed(units, byKey) && Copied(plan, requested, units, |units|, byKey.Keys, keys)
    ensures WithCopies(plan, requested, byKey.Keys, keys)
  {
    forall key
      ensures key in keys <==>
              key in byKey || exists from :: from in byKey && CopiedTo(plan, requested, from, key)
    {
      if from :| from in byKey && CopiedTo(plan, requested, from, key) {
        assert units[byKey[from]].key == from;
      }
    }
  }

  /** Every pinned companion POM, told exactly: it is queued as a seed or by the rows, or it is missing. */
  ghost predicate CompanionsExactly(plan: Plan, items: seq<Item>, seeds: set<Key>, rows: set<Key>) {
    forall g | g in plan.pomDigests :: PomKey(g) in rows <==> PomKey(g) in seeds || RowsQueue(items, g)
  }

  lemma RowsInvMeans(plan: Plan, items: seq<Item>, seeds: set<Key>, rows: set<Key>, marked: set<Gav>)
    requires RowsInv(plan, items, seeds, rows, marked)
    ensures CompanionsExactly(plan, items, seeds, rows)
  {
    forall g | g in plan.pomDigests ensures PomKey(g) in rows <==> PomKey(g) in seeds || RowsQueue(items, g) {
      assert RowInv(plan, items, seeds, rows, marked, g);
    }
  }

  lemma RowsInvStarts(plan: Plan, seeds: set<Key>, marked: set<Gav>)
    requires NewAreQueued({}, marked, seeds)
    ensures RowsInv(plan, [], seeds, seeds, marked)
  {
  }

  /**
   * The queueing pass of one export. When it succeeds, every pin, every row and every project
   * parent is there, and so is the parent of every POM queued, whichever step queued it; which
   * companion POMs are there is told exactly; nothing else is queued; and the recorded pushes come
   * first. When it fails, what it was told holds the cause.
   */
  method QueueExport(plan: Plan, projectParents: seq<Gav>, items: seq<Item>, requested: set<Gav>)
    returns (r: Outcome, q: Queue, ghost seeds: set<Key>, ghost rows: set<Key>)
    requires ValidPlan(plan)
    ensures fresh(q)
    ensures r.Done? ==> q.Valid() && RecordedFirst(q.log) && ParentsCovered(plan, q.log, q.byKey.Keys, [])
    ensures r.Done? ==> q.supportNodes == |q.walked| <= plan.limit && AllFrom(q.log, Sources(plan, items, requested))
    ensures r.Done? ==> forall ref | ref in projectParents :: Covered(plan, q.byKey.Keys, ref)
    ensures r.Done? ==> SeedFiles(plan, seeds) && seeds <= rows && forall i | 0 <= i < |items| :: items[i].key in rows
    ensures r.Done? ==> CompanionsExactly(plan, items, seeds, rows) && WithCopies(plan, requested, rows, q.byKey.Keys)
    ensures r.Done? ==> PinsPushed(plan, q.log) && RowsPushed(plan, items, q.log)
    ensures PassFailure(plan, projectParents, items, Sources(plan, items, requested), r)
  {
    q := new Queue();
    seeds, rows := {}, {};
    r := QueueRows(plan, projectParents, items, q);
    if !r.Done? {
      RefsLift(plan, projectParents, items, requested, r);
      return;
    }
    seeds :| SeedFiles(plan, seeds) && seeds <= q.byKey.Keys && CompanionsExactly(plan, items, seeds, q.byKey.Keys);
    rows := q.byKey.Keys;
    ghost var units, byKey, log := q.units, q.byKey, q.log;
    r := QueuePlainCopies(plan, items, requested, q);
    if r.Done? {
      CopiedKeys(plan, requested, units, byKey, q.byKey.Keys);
      PinsStayPushed(plan, log, q.log);
      RowsStayPushed(plan, items, log, q.log);
      forall ref | ref in projectParents ensures Covered(plan, q.byKey.Keys, ref) {
        CoveredStays(plan, rows, q.byKey.Keys, ref);
      }
    }
  }

  lemma RefsLift(plan: Plan, refs: seq<Gav>, items: seq<Item>, requested: set<Gav>, r: Outcome)
    requires PassFailure(plan, [], items, RowSources(plan, items), r)
             || (r.UnpinnedPom? && Missing(plan, r.coordinate) && r.coordinate in refs)
    ensures PassFailure(plan, refs, items, Sources(plan, items, requested), r)
  {
    if PassFailure(plan, [], items, RowSources(plan, items), r) {
      FailureLifts(plan, refs, items, requested, r);
    }
  }

  /** The pass up to the plain copies. */
  method QueueRows(plan: Plan, projectParents: seq<Gav>, items: seq<Item>, q: Queue) returns (r: Outcome)
    requires ValidPlan(plan) && q.Valid() && Taken(q) == NOTHING && q.supportNodes == 0
    modifies q
    ensures r.Done? ==> Seeded(plan, q) && AllFrom(q.log, RowSources(plan, items))
    ensures r.Done? ==> forall ref | ref in projectParents :: Covered(plan, q.byKey.Keys, ref)
    ensures r.Done? ==> forall i | 0 <= i < |items| :: items[i].key in q.byKey
    ensures r.Done? ==> PinsPushed(plan, q.log) && RowsPushed(plan, items, q.log)
    ensures r.Done? ==> exists seeds ::
                          SeedFiles(plan, seeds) && seeds <= q.byKey.Keys
                            && CompanionsExactly(plan, items, seeds, q.byKey.Keys)
    ensures PassFailure(plan, [], items, RowSources(plan, items), r)
            || (r.UnpinnedPom? && Missing(plan, r.coordinate) && r.coordinate in projectParents)
  {
    r := Seed(plan, items, q);
    if !r.Done? {
      return;
    }
    r := CheckRefs(plan, projectParents, q);
    if !r.Done? {
      return;
    }
    ghost var seeds, log := q.byKey.Keys, q.log;
    r := QueueItems(plan, items, q);
    if r.Done? {
      PinsStayPushed(plan, log, q.log);
      RowsInvMeans(plan, items, seeds, q.byKey.Keys, q.enqueuedPoms);
      forall ref | ref in projectParents ensures Covered(plan, q.byKey.Keys, ref) {
        CoveredStays(plan, seeds, q.byKey.Keys, ref);
      }
    }
  }
}
