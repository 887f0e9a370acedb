/**
 * The POMs an offline build needs besides the locked artifacts (`rv-export/src/export.rs`):
 * the support POMs the lock pins, and the literal `<parent>` ancestry of every POM queued.
 *
 * Reading a POM's `<parent>`, the version order, version ranges, snapshot names and whether
 * the store has admitted bytes for a pin are functions of the plan: the walk must work for
 * every parent graph, cycles included.
 */
module SupportClosure {
  import opened Prelude
  import opened ExportQueue

  datatype Pin = Pin(repoIds: set<string>, blob: string, build: Option<string>)

  /** A timestamped snapshot version: its `-SNAPSHOT` base and its place in the order of builds. */
  datatype Build = Build(base: string, rank: real)

  datatype Plan = Plan(
    pins: map<Gav, Pin>,
    /** The pins in some order. */
    listing: seq<Gav>,
    modules: set<Gav>,
    limit: nat,
    stored: Gav -> bool,
    parentOf: string -> Option<Gav>,
    /** The first text is a version range and the second a version in it. */
    inRange: (string, string) -> bool,
    /** The place of each version in the order of versions; any order of texts fits into the reals. */
    rank: string -> real,
    buildOf: string -> Option<Build>,
    pomDigests: map<Gav, string>,
    storedPom: Gav -> bool,
    snapshotBase: string -> Option<string>)

  ghost predicate ValidPlan(plan: Plan) {
    forall g :: g in plan.listing <==> g in plan.pins
  }

  datatype Outcome = Done | UnpinnedPom(coordinate: Gav) | SupportClosureTooLarge | MissingPinnedPom(pin: Gav)
                   | ConflictingExportSources | ConflictingPomPackagedPin | MissingBlob

  function PomKey(g: Gav): Key {
    Key(g.group, g.artifact, g.version, "pom", None)
  }

  // ----- resolving a reference -----

  predicate SameArtifact(a: Gav, b: Gav) {
    a.group == b.group && a.artifact == b.artifact
  }

  /** `ref` names the pin `g`: the exact one, or the highest in its range when it is not pinned itself. */
  ghost predicate Resolves(plan: Plan, ref: Gav, g: Gav) {
    && g in plan.pins && SameArtifact(g, ref)
    && if ref in plan.pins then g == ref
       else
         && plan.inRange(ref.version, g.version)
         && forall h | h in plan.pins && SameArtifact(h, ref) && plan.inRange(ref.version, h.version) ::
              plan.rank(h.version) <= plan.rank(g.version)
  }

  ghost predicate Unresolved(plan: Plan, ref: Gav) {
    ref !in plan.pins && forall h | h in plan.pins && SameArtifact(h, ref) :: !plan.inRange(ref.version, h.version)
  }

  /** `support_pom_for`; of pins of equal rank the last one listed is taken. */
  method SupportPomFor(plan: Plan, ref: Gav) returns (pinned: Option<Gav>)
    requires ValidPlan(plan)
    ensures pinned.Some? ==> Resolves(plan, ref, pinned.value)
    ensures pinned.None? ==> Unresolved(plan, ref)
  {
    if ref in plan.pins {
      return Some(ref);
    }
    pinned := None;
    for i := 0 to |plan.listing|
      invariant pinned.Some? ==>
                  && pinned.value in plan.pins && SameArtifact(pinned.value, ref)
                  && plan.inRange(ref.version, pinned.value.version)
      invariant forall k | 0 <= k < i && SameArtifact(plan.listing[k], ref)
                && plan.inRange(ref.version, plan.listing[k].version) ::
                  pinned.Some? && plan.rank(plan.listing[k].version) <= plan.rank(pinned.value.version)
    {
      var g := plan.listing[i];
      assert g in plan.pins;
      if SameArtifact(g, ref) && plan.inRange(ref.version, g.version)
         && (pinned.None? || plan.rank(pinned.value.version) <= plan.rank(g.version)) {
        pinned := Some(g);
      }
    }
  }

  /** `is_latest_support_build` */
  predicate IsLatestBuild(plan: Plan, g: Gav) {
    var build := plan.buildOf(g.version);
    && build.Some?
    && g.(version := build.value.base) !in plan.pins
    && forall h | h in plan.pins ::
         SameArtifact(h, g) && plan.buildOf(h.version).Some?
           && plan.buildOf(h.version).value.base == build.value.base ==>
           plan.buildOf(h.version).value.rank <= build.value.rank
  }

  /** The coordinate a pin is queued under besides its own: its build, or its plain `-SNAPSHOT` version. */
  function Twin(plan: Plan, g: Gav): Option<Gav>
    requires g in plan.pins
  {
    if plan.pins[g].build.Some? then Some(g.(version := plan.pins[g].build.value))
    else if IsLatestBuild(plan, g) then Some(g.(version := plan.buildOf(g.version).value.base))
    else None
  }

  /** The files of a pin. */
  function PinKeys(plan: Plan, g: Gav): set<Key>
    requires g in plan.pins
  {
    {PomKey(g)} + if Twin(plan, g).Some? then {PomKey(Twin(plan, g).value)} else {}
  }

  // ----- what can be reached -----

  /** The parent of the pin `g` names the pin `h`. */
  ghost predicate Leads(plan: Plan, g: Gav, h: Gav) {
    g in plan.pins && plan.parentOf(plan.pins[g].blob).Some?
      && Resolves(plan, plan.parentOf(plan.pins[g].blob).value, h)
  }

  ghost predicate IsPath(plan: Plan, refs: seq<Gav>, path: seq<Gav>) {
    && path != [] && (exists ref :: ref in refs && Resolves(plan, ref, path[0]))
    && forall k | 0 < k < |path| :: Leads(plan, path[k - 1], path[k])
  }

  /** A chain of parents from a pin that one of `refs` names ends at `g`. */
  ghost predicate Reachable(plan: Plan, refs: seq<Gav>, g: Gav) {
    exists path: seq<Gav> :: IsPath(plan, refs, path) && path[|path| - 1] == g
  }

  /** One of `refs`, or the parent of a pin reached from them. */
  ghost predicate ReachableRef(plan: Plan, refs: seq<Gav>, ref: Gav) {
    ref in refs || exists g ::
      g in plan.pins && Reachable(plan, refs, g) && plan.parentOf(plan.pins[g].blob) == Some(ref)
  }

  lemma StartsPath(plan: Plan, refs: seq<Gav>, ref: Gav, g: Gav)
    requires ref in refs && Resolves(plan, ref, g)
    ensures Reachable(plan, refs, g)
  {
    assert IsPath(plan, refs, [g]) && [g][0] == g;
  }

  lemma ReachFurther(plan: Plan, refs: seq<Gav>, ref: Gav, g: Gav)
    requires ReachableRef(plan, refs, ref) && Resolves(plan, ref, g)
    ensures Reachable(plan, refs, g)
  {
    if ref in refs {
      StartsPath(plan, refs, ref, g);
    } else {
      var h :| h in plan.pins && Reachable(plan, refs, h) && plan.parentOf(plan.pins[h].blob) == Some(ref);
      ReachNext(plan, refs, h, g);
    }
  }

  lemma ReachNext(plan: Plan, refs: seq<Gav>, h: Gav, g: Gav)
    requires Reachable(plan, refs, h) && Leads(plan, h, g)
    ensures Reachable(plan, refs, g)
  {
    var path: seq<Gav> :| IsPath(plan, refs, path) && path[|path| - 1] == h;
    PathLonger(plan, refs, path, g);
    assert (path + [g])[|path|] == g;
  }

  lemma PathLonger(plan: Plan, refs: seq<Gav>, path: seq<Gav>, g: Gav)
    requires IsPath(plan, refs, path) && Leads(plan, path[|path| - 1], g)
    ensures IsPath(plan, refs, path + [g])
  {
    var longer := path + [g];
    assert longer[0] == path[0];
    forall k | 0 < k < |longer| ensures Leads(plan, longer[k - 1], longer[k]) {
      if k < |path| {
        assert Leads(plan, path[k - 1], path[k]);
      }
    }
  }

  // ----- what the queue covers -----

  /** A build that reads `ref` offline finds it: its pin is queued, or the reactor has it. */
  ghost predicate Covered(plan: Plan, keys: set<Key>, ref: Gav) {
    || (exists g :: Resolves(plan, ref, g) && PomKey(g) in keys)
    || (Unresolved(plan, ref) && ref in plan.modules)
  }

  lemma CoveredStays(plan: Plan, keys: set<Key>, more: set<Key>, ref: Gav)
    requires Covered(plan, keys, ref) && keys <= more
    ensures Covered(plan, more, ref)
  {
  }

  /** Every queued POM's parent is covered or still on the worklist. */
  ghost predicate ParentsCovered(plan: Plan, log: seq<Unit>, keys: set<Key>, worklist: seq<Gav>) {
    forall unit | unit in log && unit.key.extension == "pom" && plan.parentOf(unit.blob).Some? ::
      Covered(plan, keys, plan.parentOf(unit.blob).value) || plan.parentOf(unit.blob).value in worklist
  }

  /** The dedupe set never hides a pin that is not queued. */
  ghost predicate EnqueuedAreQueued(plan: Plan, enqueued: set<Gav>, keys: set<Key>) {
    forall g | g in enqueued && g in plan.pins :: PomKey(g) in keys
  }

  /** Every coordinate marked since `before` is queued. */
  ghost predicate NewAreQueued(before: set<Gav>, after: set<Gav>, keys: set<Key>) {
    forall g | g in after && g !in before :: PomKey(g) in keys
  }

  /** What a queue has taken in: the files, the pushes, the marks of the dedupe set, and the pins counted. */
  datatype Intake = Intake(keys: set<Key>, log: seq<Unit>, marked: set<Gav>, walked: set<Gav>)

  ghost function Taken(q: Queue): Intake
    reads q`byKey, q`log, q`enqueuedPoms, q`walked
  {
    Intake(q.byKey.Keys, q.log, q.enqueuedPoms, q.walked)
  }

  ghost predicate Sound(plan: Plan, t: Intake, worklist: seq<Gav>) {
    && EnqueuedAreQueued(plan, t.marked, t.keys)
    && ParentsCovered(plan, t.log, t.keys, worklist)
    && |t.walked| <= plan.limit && t.walked <= plan.pins.Keys && t.walked <= t.marked
  }

  ghost predicate Consistent(plan: Plan, q: Queue)
    reads q
  {
    q.Valid() && q.supportNodes == |q.walked| && Sound(plan, Taken(q), [])
  }

  /**
   * The file Maven keeps of the pin `g`, under the build when it has one: it is labelled with the pin's
   * repositories, and a plain `-SNAPSHOT` file replaces an earlier one.
   */
  predicate IsMain(plan: Plan, g: Gav, unit: Unit)
    requires g in plan.pins
  {
    var pin := plan.pins[g];
    && unit.key == PomKey(if pin.build.Some? then g.(version := pin.build.value) else g) && unit.repoIds == pin.repoIds
    && unit.replace == (pin.build.None? && HasSuffix(g.version, "SNAPSHOT"))
  }

  /**
   * The plain copy of the pin `g`: of a pinned build without labels, of the latest build of a snapshot
   * with the pin's; either replaces an earlier one.
   */
  predicate IsCopy(plan: Plan, g: Gav, unit: Unit)
    requires g in plan.pins
  {
    var pin := plan.pins[g];
    && Twin(plan, g).Some? && unit.replace
    && if pin.build.Some? then unit.key == PomKey(g) && unit.repoIds == {}
       else unit.key == PomKey(Twin(plan, g).value) && unit.repoIds == pin.repoIds
  }

  /** A recorded push of one of the files of the pin `g`. */
  predicate PushOf(plan: Plan, g: Gav, unit: Unit) {
    && g in plan.pins && unit.recorded && unit.source == SupportPom && unit.blob == plan.pins[g].blob
    && (IsMain(plan, g, unit) || IsCopy(plan, g, unit))
  }

  lemma PushedKey(plan: Plan, g: Gav, unit: Unit)
    requires PushOf(plan, g, unit)
    ensures unit.key in PinKeys(plan, g)
  {
  }

  ghost predicate HasMain(plan: Plan, g: Gav, log: seq<Unit>) {
    exists unit :: unit in log && PushOf(plan, g, unit) && IsMain(plan, g, unit)
  }

  ghost predicate HasCopy(plan: Plan, g: Gav, log: seq<Unit>) {
    exists unit :: unit in log && PushOf(plan, g, unit) && IsCopy(plan, g, unit)
  }

  lemma PushesStay(plan: Plan, g: Gav, log: seq<Unit>, longer: seq<Unit>)
    requires log <= longer
    ensures HasMain(plan, g, log) ==> HasMain(plan, g, longer)
    ensures HasCopy(plan, g, log) ==> HasCopy(plan, g, longer)
  {
    assert forall unit | unit in log :: unit in longer;
  }

  ghost predicate PinPush(plan: Plan, unit: Unit) {
    exists g :: PushOf(plan, g, unit)
  }

  /** `longer` is `log` with pushes of the files of `g` after it. */
  ghost predicate Extends(plan: Plan, g: Gav, log: seq<Unit>, longer: seq<Unit>) {
    log <= longer && forall i | |log| <= i < |longer| :: PushOf(plan, g, longer[i])
  }

  /** `longer` is `log` with pushes of files of pins after it. */
  ghost predicate PinPushes(plan: Plan, log: seq<Unit>, longer: seq<Unit>) {
    log <= longer && forall i | |log| <= i < |longer| :: PinPush(plan, longer[i])
  }

  lemma ExtendsIsPushes(plan: Plan, g: Gav, a: seq<Unit>, b: seq<Unit>, c: seq<Unit>)
    requires PinPushes(plan, a, b) && Extends(plan, g, b, c)
    ensures PinPushes(plan, a, c)
  {
    forall i | |a| <= i < |c| ensures PinPush(plan, c[i]) {
      if i < |b| {
        assert c[i] == b[i];
      } else {
        assert PushOf(plan, g, c[i]);
      }
    }
  }

  // ----- what a walk adds -----

  /**
   * From `a` to `b` a walk from `refs` counted only pins it can reach, queued only files of those
   * pins, pushed only those, and queued whatever it marked; if everything marked before
   * was queued, it queued all files of the pins it counted.
   */
  ghost predicate Grown(plan: Plan, refs: seq<Gav>, a: Intake, b: Intake) {
    && a.keys <= b.keys && PinPushes(plan, a.log, b.log) && a.marked <= b.marked && a.walked <= b.walked
    && (forall g | g in b.walked && g !in a.walked :: g in plan.pins && Reachable(plan, refs, g))
    && (forall key | key in b.keys && key !in a.keys :: FileOfNew(plan, a.walked, b.walked, key))
    && (forall g | g in b.marked && g !in a.marked :: MarkOfNew(plan, a.walked, b.walked, g))
    && NewAreQueued(a.marked, b.marked, b.keys)
    && (NewAreQueued({}, a.marked, a.keys) ==> NewAreDone(plan, a.walked, b.walked, b.keys))
    && NewArePushed(plan, a, b)
  }

  /** The files of every pin counted were pushed, but for a copy under a coordinate that was taken. */
  ghost predicate NewArePushed(plan: Plan, a: Intake, b: Intake) {
    forall g | g in b.walked && g !in a.walked && g in plan.pins ::
      HasMain(plan, g, b.log) && (Twin(plan, g).Some? ==> HasCopy(plan, g, b.log) || TwinTaken(plan, a, b.walked, g))
  }

  /** The other coordinate of `g` was marked before, or it is that of another pin counted. */
  ghost predicate TwinTaken(plan: Plan, a: Intake, walked: set<Gav>, g: Gav) {
    g in plan.pins && plan.pins[g].build.None? && Twin(plan, g).Some? &&
    (|| Twin(plan, g).value in a.marked
     || exists h :: h in walked && h !in a.walked && h in plan.pins && h != g && Twin(plan, h) == Twin(plan, g))
  }

  /** `g` was counted, or it is the other coordinate of a pin that was. */
  ghost predicate MarkOfNew(plan: Plan, before: set<Gav>, after: set<Gav>, g: Gav) {
    || (g in after && g !in before)
    || exists h :: h in after && h !in before && h in plan.pins && Twin(plan, h) == Some(g)
  }

  ghost predicate FileOfNew(plan: Plan, before: set<Gav>, after: set<Gav>, key: Key) {
    exists g :: g in after && g !in before && g in plan.pins && key in PinKeys(plan, g)
  }

  ghost predicate NewAreDone(plan: Plan, before: set<Gav>, after: set<Gav>, keys: set<Key>) {
    forall g | g in after && g !in before && g in plan.pins :: PinKeys(plan, g) <= keys
  }

  /** From `a` to `b` the pin `g` was counted and its files queued. */
  ghost predicate Visited(plan: Plan, a: Intake, b: Intake, g: Gav) {
    && g in plan.pins && b.walked == a.walked + {g}
    && a.keys <= b.keys <= a.keys + PinKeys(plan, g) && PomKey(g) in b.keys
    && Extends(plan, g, a.log, b.log)
    && b.marked == a.marked + {g} + (if Twin(plan, g).Some? then {Twin(plan, g).value} else {})
    && NewAreQueued(a.marked, b.marked, b.keys)
    && (NewAreQueued({}, a.marked, a.keys) ==> PinKeys(plan, g) <= b.keys)
    && HasMain(plan, g, b.log)
    && (Twin(plan, g).Some? ==>
          HasCopy(plan, g, b.log) || (plan.pins[g].build.None? && Twin(plan, g).value in a.marked + {g}))
  }

  lemma GrownNothing(plan: Plan, refs: seq<Gav>, a: Intake)
    ensures Grown(plan, refs, a, a)
  {
  }

  lemma GrownMore(plan: Plan, refs: seq<Gav>, a: Intake, b: Intake, c: Intake, g: Gav)
    requires Grown(plan, refs, a, b) && Visited(plan, b, c, g) && Reachable(plan, refs, g) && g !in b.walked
    ensures Grown(plan, refs, a, c)
  {
    forall key | key in c.keys && key !in a.keys ensures FileOfNew(plan, a.walked, c.walked, key) {
      if key in b.keys {
        var h :| h in b.walked && h !in a.walked && h in plan.pins && key in PinKeys(plan, h);
        assert h in c.walked;
      } else {
        assert g in c.walked && key in PinKeys(plan, g);
      }
    }
    ExtendsIsPushes(plan, g, a.log, b.log, c.log);
    MarksMore(plan, a, b, c, g);
    if NewAreQueued({}, a.marked, a.keys) {
      DoneMore(plan, a, b, c, g);
    }
    PushedMore(plan, a, b, c, g);
  }

  lemma PushedMore(plan: Plan, a: Intake, b: Intake, c: Intake, g: Gav)
    requires NewArePushed(plan, a, b) && Visited(plan, b, c, g) && a.walked <= b.walked && g !in b.walked
    requires forall h | h in b.marked && h !in a.marked :: MarkOfNew(plan, a.walked, b.walked, h)
    requires forall h | h in b.walked && h !in a.walked :: h in plan.pins
    ensures NewArePushed(plan, a, c)
  {
    forall h | h in c.walked && h !in a.walked && h in plan.pins
      ensures HasMain(plan, h, c.log)
      ensures Twin(plan, h).Some? ==> HasCopy(plan, h, c.log) || TwinTaken(plan, a, c.walked, h)
    {
      if h in b.walked {
        PushesStay(plan, h, b.log, c.log);
        TakenStays(plan, a, b.walked, c.walked, h);
      } else {
        TakenNow(plan, a, b, c, g);
      }
    }
  }

  lemma TakenStays(plan: Plan, a: Intake, walked: set<Gav>, more: set<Gav>, g: Gav)
    requires walked <= more
    ensures TwinTaken(plan, a, walked, g) ==> TwinTaken(plan, a, more, g)
  {
  }

  lemma TakenNow(plan: Plan, a: Intake, b: Intake, c: Intake, g: Gav)
    requires Visited(plan, b, c, g) && a.walked <= b.walked && g !in b.walked
    requires forall h | h in b.marked && h !in a.marked :: MarkOfNew(plan, a.walked, b.walked, h)
    requires forall h | h in b.walked && h !in a.walked :: h in plan.pins
    ensures Twin(plan, g).Some? ==> HasCopy(plan, g, c.log) || TwinTaken(plan, a, c.walked, g)
  {
    if Twin(plan, g).Some? && !HasCopy(plan, g, c.log) {
      var twin := Twin(plan, g).value;
      assert twin !in plan.pins;
      if twin !in a.marked {
        assert MarkOfNew(plan, a.walked, b.walked, twin);
        var h :| h in b.walked && h !in a.walked && h in plan.pins && Twin(plan, h) == Some(twin);
        assert h in c.walked && h != g;
      }
    }
  }

  lemma MarksMore(plan: Plan, a: Intake, b: Intake, c: Intake, g: Gav)
    requires forall h | h in b.marked && h !in a.marked :: MarkOfNew(plan, a.walked, b.walked, h)
    requires Visited(plan, b, c, g) && a.walked <= b.walked && g !in b.walked
    ensures forall h | h in c.marked && h !in a.marked :: MarkOfNew(plan, a.walked, c.walked, h)
  {
    forall h | h in c.marked && h !in a.marked ensures MarkOfNew(plan, a.walked, c.walked, h) {
      if h in b.marked {
        assert MarkOfNew(plan, a.walked, b.walked, h);
      } else {
        assert h == g || Twin(plan, g) == Some(h);
      }
    }
  }

  lemma DoneMore(plan: Plan, a: Intake, b: Intake, c: Intake, g: Gav)
    requires NewAreQueued({}, a.marked, a.keys) && a.keys <= b.keys && NewAreQueued(a.marked, b.marked, b.keys)
    requires NewAreDone(plan, a.walked, b.walked, b.keys) && Visited(plan, b, c, g)
    ensures NewAreDone(plan, a.walked, c.walked, c.keys)
  {
    assert NewAreQueued({}, b.marked, b.keys);
  }

  // ----- the invariants of the walk -----

  /** `refs` are covered or still listed. */
  ghost predicate RefsCovered(plan: Plan, refs: seq<Gav>, keys: set<Key>, worklist: seq<Gav>) {
    forall ref | ref in refs :: Covered(plan, keys, ref) || ref in worklist
  }

  /** The pins among `refs` are marked or still listed. */
  ghost predicate PinsMarked(plan: Plan, refs: seq<Gav>, marked: set<Gav>, worklist: seq<Gav>) {
    forall ref | ref in refs && ref in plan.pins :: ref in marked || ref in worklist
  }

  ghost predicate AllReachable(plan: Plan, refs: seq<Gav>, worklist: seq<Gav>) {
    forall ref | ref in worklist :: ReachableRef(plan, refs, ref)
  }

  lemma ListedStays(plan: Plan, keys: set<Key>, ref: Gav, worklist: seq<Gav>, more: set<Key>, rest: seq<Gav>,
                    other: Gav)
    requires Covered(plan, keys, other) || other in [ref] + worklist
    requires Covered(plan, more, ref) && keys <= more && worklist <= rest
    ensures Covered(plan, more, other) || other in rest
  {
    if Covered(plan, keys, other) {
      CoveredStays(plan, keys, more, other);
    } else if other in worklist {
      assert forall x | x in worklist :: x in rest;
    }
  }

  lemma RefsStay(plan: Plan, refs: seq<Gav>, keys: set<Key>, ref: Gav, worklist: seq<Gav>, more: set<Key>,
                 rest: seq<Gav>)
    requires RefsCovered(plan, refs, keys, [ref] + worklist)
    requires Covered(plan, more, ref) && keys <= more && worklist <= rest
    ensures RefsCovered(plan, refs, more, rest)
  {
    forall other | other in refs ensures Covered(plan, more, other) || other in rest {
      ListedStays(plan, keys, ref, worklist, more, rest, other);
    }
  }

  /** The parents stay covered while the walk takes `ref` off the list and queues the pin it names. */
  lemma ParentsStay(plan: Plan, log: seq<Unit>, keys: set<Key>, ref: Gav, worklist: seq<Gav>,
                    longer: seq<Unit>, more: set<Key>, rest: seq<Gav>, blob: string)
    requires ParentsCovered(plan, log, keys, [ref] + worklist) && keys <= more
    requires log <= longer && forall i | |log| <= i < |longer| :: longer[i].blob == blob
    requires Covered(plan, more, ref) && worklist <= rest
    requires longer == log || plan.parentOf(blob).None? || plan.parentOf(blob).value in rest
    ensures ParentsCovered(plan, longer, more, rest)
  {
    forall unit | unit in longer && unit.key.extension == "pom" && plan.parentOf(unit.blob).Some?
      ensures Covered(plan, more, plan.parentOf(unit.blob).value) || plan.parentOf(unit.blob).value in rest
    {
      var i :| 0 <= i < |longer| && longer[i] == unit;
      if i < |log| {
        assert unit in log;
        ListedStays(plan, keys, ref, worklist, more, rest, plan.parentOf(unit.blob).value);
      }
    }
  }

  function WithParent(plan: Plan, rest: seq<Gav>, g: Gav): seq<Gav>
    requires g in plan.pins
  {
    var parent := plan.parentOf(plan.pins[g].blob);
    rest + if parent.Some? then [parent.value] else []
  }

  /** A turn that finds its reference covered changes only the worklist. */
  lemma TurnSkips(plan: Plan, refs: seq<Gav>, t: Intake, ref: Gav, rest: seq<Gav>)
    requires Sound(plan, t, [ref] + rest) && RefsCovered(plan, refs, t.keys, [ref] + rest)
    requires AllReachable(plan, refs, [ref] + rest) && Covered(plan, t.keys, ref)
    requires PinsMarked(plan, refs, t.marked, [ref] + rest) && (ref in plan.pins ==> ref in t.marked)
    ensures Sound(plan, t, rest) && RefsCovered(plan, refs, t.keys, rest) && AllReachable(plan, refs, rest)
    ensures PinsMarked(plan, refs, t.marked, rest)
  {
    ParentsStay(plan, t.log, t.keys, ref, rest, t.log, t.keys, rest, "");
    RefsStay(plan, refs, t.keys, ref, rest, t.keys, rest);
    assert forall other | other in rest :: other in [ref] + rest;
  }

  /** A turn that visits a pin lists the parent of the pin. */
  lemma TurnVisits(plan: Plan, refs: seq<Gav>, a: Intake, b: Intake, ref: Gav, rest: seq<Gav>, g: Gav)
    requires Sound(plan, a, [ref] + rest) && RefsCovered(plan, refs, a.keys, [ref] + rest)
    requires AllReachable(plan, refs, [ref] + rest) && Resolves(plan, ref, g)
    requires Visited(plan, a, b, g) && |b.walked| <= plan.limit && PinsMarked(plan, refs, a.marked, [ref] + rest)
    ensures Sound(plan, b, WithParent(plan, rest, g)) && RefsCovered(plan, refs, b.keys, WithParent(plan, rest, g))
    ensures PinsMarked(plan, refs, b.marked, WithParent(plan, rest, g))
  {
    var worklist := WithParent(plan, rest, g);
    assert Covered(plan, b.keys, ref);
    assert rest <= worklist;
    ParentListed(plan, rest, g);
    ParentsStay(plan, a.log, a.keys, ref, rest, b.log, b.keys, worklist, plan.pins[g].blob);
    RefsStay(plan, refs, a.keys, ref, rest, b.keys, worklist);
    assert EnqueuedAreQueued(plan, b.marked, b.keys);
  }

  lemma ParentListed(plan: Plan, rest: seq<Gav>, g: Gav)
    requires g in plan.pins
    ensures var parent := plan.parentOf(plan.pins[g].blob); parent.Some? ==> parent.value in WithParent(plan, rest, g)
  {
    var parent := plan.parentOf(plan.pins[g].blob);
    if parent.Some? {
      assert WithParent(plan, rest, g)[|rest|] == parent.value;
    }
  }

  lemma TurnReaches(plan: Plan, refs: seq<Gav>, ref: Gav, rest: seq<Gav>, g: Gav)
    requires AllReachable(plan, refs, [ref] + rest) && Resolves(plan, ref, g)
    ensures Reachable(plan, refs, g) && AllReachable(plan, refs, WithParent(plan, rest, g))
  {
    assert ref == ([ref] + rest)[0];
    ReachFurther(plan, refs, ref, g);
    assert forall other | other in rest :: other in [ref] + rest;
  }

  // ----- the walk -----

  /** Some push of a file of the pin `g` names other bytes than the pin. */
  ghost predicate Clashes(plan: Plan, log: seq<Unit>, g: Gav) {
    g in plan.pins && exists unit :: unit in log && unit.key in PinKeys(plan, g) && unit.blob != plan.pins[g].blob
  }

  /** From `a` to `b` the file `key` of the pin `g` was pushed, or refused for other bytes. */
  ghost predicate Pushed(plan: Plan, g: Gav, key: Key, a: Intake, b: Intake, ok: bool) {
    && Extends(plan, g, a.log, b.log)
    && if ok then b.keys == a.keys + {key} else b.keys == a.keys && Clashes(plan, b.log, g)
  }

  lemma NowPushed(plan: Plan, g: Gav, unit: Unit, a: Intake, b: Intake, ok: bool)
    requires PushOf(plan, g, unit)
    requires if ok then b.log == a.log + [unit] && b.keys == a.keys + {unit.key}
             else b.log == a.log && b.keys == a.keys && !AgreesWith(a.log, unit)
    ensures Pushed(plan, g, unit.key, a, b, ok)
  {
    PushedKey(plan, g, unit);
  }

  /** One file of the pin `g`. */
  method PushPin(plan: Plan, g: Gav, unit: Unit, q: Queue) returns (ok: bool)
    requires PushOf(plan, g, unit) && q.Valid()
    modifies q`units, q`byKey, q`log
    ensures q.Valid() && Pushed(plan, g, unit.key, old(Taken(q)), Taken(q), ok) && (ok ==> unit in q.log)
  {
    ghost var before := Taken(q);
    ok := q.Push(unit);
    NowPushed(plan, g, unit, before, Taken(q), ok);
  }

  lemma ExtendsTwice(plan: Plan, g: Gav, a: seq<Unit>, b: seq<Unit>, c: seq<Unit>)
    requires Extends(plan, g, a, b) && Extends(plan, g, b, c)
    ensures Extends(plan, g, a, c)
  {
    forall i | |a| <= i < |c| ensures PushOf(plan, g, c[i]) {
      if i < |b| {
        assert c[i] == b[i];
      }
    }
  }

  /**
   * The files of one pinned coordinate: a pin to a build has the timestamped file and a plain copy;
   * any other pin its file, and a plain copy when a `-SNAPSHOT` request resolves to it.
   */
  method QueueNode(plan: Plan, g: Gav, q: Queue) returns (r: Outcome)
    requires g in plan.pins && q.Valid()
    modifies q`units, q`byKey, q`log, q`enqueuedPoms
    ensures q.Valid() && Extends(plan, g, old(q.log), q.log)
    ensures old(q.byKey.Keys) <= q.byKey.Keys <= old(q.byKey.Keys) + PinKeys(plan, g)
    ensures q.enqueuedPoms == old(q.enqueuedPoms) + if Twin(plan, g).Some? then {Twin(plan, g).value} else {}
    ensures r.Done? || (r.ConflictingExportSources? && Clashes(plan, q.log, g))
    ensures r.Done? ==> PomKey(g) in q.byKey
    ensures r.Done? && Twin(plan, g).Some? ==>
              PomKey(Twin(plan, g).value) in q.byKey || Twin(plan, g).value in old(q.enqueuedPoms)
    ensures r.Done? ==> HasMain(plan, g, q.log)
    ensures r.Done? && Twin(plan, g).Some? ==>
              HasCopy(plan, g, q.log) || (plan.pins[g].build.None? && Twin(plan, g).value in old(q.enqueuedPoms))
  {
    var pin, twin := plan.pins[g], Twin(plan, g);
    if pin.build.Some? {
      q.enqueuedPoms := q.enqueuedPoms + {twin.value};
      r := PushTwo(plan, g, Unit(PomKey(twin.value), pin.blob, SupportPom, pin.repoIds, true, false),
                   Some(Unit(PomKey(g), pin.blob, SupportPom, {}, true, true)), q);
    } else {
      var main := Unit(PomKey(g), pin.blob, SupportPom, pin.repoIds, true, HasSuffix(g.version, "SNAPSHOT"));
      if twin.Some? && twin.value !in q.enqueuedPoms {
        q.enqueuedPoms := q.enqueuedPoms + {twin.value};
        r := PushTwo(plan, g, main, Some(Unit(PomKey(twin.value), pin.blob, SupportPom, pin.repoIds, true, true)), q);
      } else {
        assert twin.Some? ==> old(q.enqueuedPoms) + {twin.value} == old(q.enqueuedPoms);
        r := PushTwo(plan, g, main, None, q);
      }
    }
  }

  /** The file of the pin and, after it, the copy that replaces others. */
  method PushTwo(plan: Plan, g: Gav, main: Unit, copy: Option<Unit>, q: Queue) returns (r: Outcome)
    requires q.Valid() && PushOf(plan, g, main) && IsMain(plan, g, main)
    requires copy.Some? ==> PushOf(plan, g, copy.value) && IsCopy(plan, g, copy.value)
    modifies q`units, q`byKey, q`log
    ensures q.Valid() && Extends(plan, g, old(q.log), q.log)
    ensures old(q.byKey.Keys) <= q.byKey.Keys <= old(q.byKey.Keys) + PinKeys(plan, g)
    ensures r.Done? || (r.ConflictingExportSources? && Clashes(plan, q.log, g))
    ensures r.Done? ==> main.key in q.byKey && HasMain(plan, g, q.log)
    ensures r.Done? && copy.Some? ==> copy.value.key in q.byKey && HasCopy(plan, g, q.log)
  {
    PushedKey(plan, g, main);
    var ok := PushPin(plan, g, main, q);
    ghost var mid := q.log;
    if ok && copy.Some? {
      PushedKey(plan, g, copy.value);
      ok := PushPin(plan, g, copy.value, q);
      ExtendsTwice(plan, g, old(q.log), mid, q.log);
    }
    r := if ok then Done else ConflictingExportSources;
  }

  /** One more unique support POM, unless the limit is reached. */
  method Count(plan: Plan, g: Gav, q: Queue) returns (ok: bool)
    requires g !in q.walked && q.supportNodes == |q.walked|
    modifies q`enqueuedPoms, q`supportNodes, q`walked
    ensures q.enqueuedPoms == old(q.enqueuedPoms) + {g} && q.walked == old(q.walked) + {g}
            && q.supportNodes == |q.walked| == old(q.supportNodes) + 1
    ensures ok <==> |q.walked| <= plan.limit
  {
    q.enqueuedPoms := q.enqueuedPoms + {g};
    q.supportNodes := q.supportNodes + 1;
    q.walked := q.walked + {g};
    ok := q.supportNodes <= plan.limit;
  }

  /** A pin the walk has not seen: it is counted, its bytes are looked up, and its files are queued. */
  method Visit(plan: Plan, g: Gav, q: Queue) returns (r: Outcome)
    requires g in plan.pins && g !in q.enqueuedPoms && g !in q.walked && q.Valid() && q.supportNodes == |q.walked|
    modifies q
    ensures q.Valid() && q.supportNodes == |q.walked| == old(q.supportNodes) + 1
    ensures VisitResult(plan, old(Taken(q)), Taken(q), g, r)
  {
    ghost var before := Taken(q);
    var counted := Count(plan, g, q);
    if counted {
      r := QueueCounted(plan, g, q, before);
    } else {
      r := SupportClosureTooLarge;
    }
  }

  ghost predicate VisitResult(plan: Plan, a: Intake, b: Intake, g: Gav, r: Outcome) {
    && b.walked == a.walked + {g} && Extends(plan, g, a.log, b.log)
    && match r
       case Done => |b.walked| <= plan.limit && Visited(plan, a, b, g)
       case SupportClosureTooLarge => |b.walked| > plan.limit
       case MissingPinnedPom(pin) => pin == g && !plan.stored(g)
       case ConflictingExportSources => Clashes(plan, b.log, g)
       case _ => false
  }

  /** The files of a pin that was just counted, if the store has its bytes. */
  method QueueCounted(plan: Plan, g: Gav, q: Queue, ghost before: Intake) returns (r: Outcome)
    requires g in plan.pins && q.Valid() && |q.walked| <= plan.limit
    requires Taken(q) == before.(marked := before.marked + {g}, walked := before.walked + {g})
    modifies q`units, q`byKey, q`log, q`enqueuedPoms
    ensures q.Valid() && VisitResult(plan, before, Taken(q), g, r)
  {
    if !plan.stored(g) {
      return MissingPinnedPom(g);
    }
    ghost var counted := Taken(q);
    r := QueueNode(plan, g, q);
    if r.Done? {
      NowVisited(plan, before, counted, Taken(q), g);
    }
  }

  lemma NowVisited(plan: Plan, a: Intake, b: Intake, c: Intake, g: Gav)
    requires g in plan.pins && b == a.(marked := a.marked + {g}, walked := a.walked + {g}) && c.walked == b.walked
    requires a.keys <= c.keys <= a.keys + PinKeys(plan, g) && PomKey(g) in c.keys && Extends(plan, g, a.log, c.log)
    requires c.marked == b.marked + if Twin(plan, g).Some? then {Twin(plan, g).value} else {}
    requires Twin(plan, g).Some? ==> PomKey(Twin(plan, g).value) in c.keys || Twin(plan, g).value in b.marked
    requires HasMain(plan, g, c.log)
    requires Twin(plan, g).Some? ==>
               HasCopy(plan, g, c.log) || (plan.pins[g].build.None? && Twin(plan, g).value in b.marked)
    ensures Visited(plan, a, c, g)
  {
  }

  /** Why a walk from `refs` failed. */
  ghost predicate Failure(plan: Plan, refs: seq<Gav>, walked: set<Gav>, t: Intake, r: Outcome) {
    match r
    case Done => true
    case UnpinnedPom(c) => Unresolved(plan, c) && c !in plan.modules && ReachableRef(plan, refs, c)
    case SupportClosureTooLarge =>
      |t.walked| > plan.limit && forall g | g in t.walked && g !in walked :: g in plan.pins && Reachable(plan, refs, g)
    case MissingPinnedPom(g) => g in plan.pins && !plan.stored(g) && Reachable(plan, refs, g)
    case ConflictingExportSources => exists g :: Clashes(plan, t.log, g) && Reachable(plan, refs, g)
    case _ => false
  }

  /** What every turn of the walk keeps. */
  ghost predicate Walking(plan: Plan, refs: seq<Gav>, start: Intake, q: Queue, worklist: seq<Gav>)
    reads q
  {
    && q.Valid() && q.supportNodes == |q.walked|
    && Sound(plan, Taken(q), worklist) && Grown(plan, refs, start, Taken(q))
    && RefsCovered(plan, refs, q.byKey.Keys, worklist) && AllReachable(plan, refs, worklist)
    && PinsMarked(plan, refs, q.enqueuedPoms, worklist)
  }

  ghost predicate Unchanged(before: Intake, units: seq<Unit>, byKey: map<Key, nat>, nodes: nat, q: Queue)
    reads q
  {
    Taken(q) == before && q.units == units && q.byKey == byKey && q.supportNodes == nodes
  }

  ghost predicate AllAmong(some: seq<Gav>, all: seq<Gav>) {
    forall g | g in some :: g in all
  }

  lemma RestAmong(some: seq<Gav>, all: seq<Gav>)
    requires some != []
    ensures AllAmong(some, all) ==> some[0] in all && AllAmong(some[1..], all)
  {
  }

  /** One turn of the walk, for the reference `ref` at the head of the worklist. */
  method Turn(plan: Plan, refs: seq<Gav>, ref: Gav, rest: seq<Gav>, q: Queue, ghost start: Intake)
    returns (r: Outcome, worklist: seq<Gav>)
    requires ValidPlan(plan) && Walking(plan, refs, start, q, [ref] + rest)
    modifies q
    ensures q.Valid() && PinPushes(plan, start.log, q.log)
    ensures (r.Done? ==> Walking(plan, refs, start, q, worklist)) && Failure(plan, refs, start.walked, Taken(q), r)
    ensures r.Done? ==>
              q.supportNodes == old(q.supportNodes) + 1 || (q.supportNodes == old(q.supportNodes) && worklist == rest)
    ensures plan.pins.Keys <= old(q.enqueuedPoms) ==>
              && Unchanged(old(Taken(q)), old(q.units), old(q.byKey), old(q.supportNodes), q)
              && ((r.Done? && worklist == rest) || r == UnpinnedPom(ref))
  {
    worklist := rest;
    assert ref == ([ref] + rest)[0];
    var pinned := SupportPomFor(plan, ref);
    if pinned.None? && ref !in plan.modules {
      r := UnpinnedPom(ref);
    } else if pinned.Some? && pinned.value !in q.enqueuedPoms {
      r, worklist := VisitTurn(plan, refs, ref, rest, pinned.value, q, start);
    } else {
      TurnSkips(plan, refs, Taken(q), ref, rest);
      r := Done;
    }
  }

  method VisitTurn(plan: Plan, refs: seq<Gav>, ref: Gav, rest: seq<Gav>, g: Gav, q: Queue, ghost start: Intake)
    returns (r: Outcome, worklist: seq<Gav>)
    requires Walking(plan, refs, start, q, [ref] + rest) && Resolves(plan, ref, g) && g !in q.enqueuedPoms
    modifies q
    ensures q.Valid() && PinPushes(plan, start.log, q.log)
    ensures (r.Done? ==> Walking(plan, refs, start, q, worklist)) && Failure(plan, refs, start.walked, Taken(q), r)
    ensures r.Done? ==> q.supportNodes == old(q.supportNodes) + 1
  {
    ghost var t := Taken(q);
    worklist := WithParent(plan, rest, g);
    TurnReaches(plan, refs, ref, rest, g);
    r := Visit(plan, g, q);
    ExtendsIsPushes(plan, g, start.log, t.log, q.log);
    if r.Done? {
      TurnVisits(plan, refs, t, Taken(q), ref, rest, g);
      GrownMore(plan, refs, start, t, Taken(q), g);
    }
  }

  /**
   * `enqueue_support_closure`: it ends on every parent graph. When it succeeds, every reference it
   * was given and the parent of every POM queued is covered; it counts and queues nothing that the
   * references do not lead to; and each failure names its cause. Once every pin is marked it
   * changes nothing, and fails only for a reference that is not pinned.
   */
  method EnqueueSupportClosure(plan: Plan, refs: seq<Gav>, q: Queue) returns (r: Outcome)
    requires ValidPlan(plan) && Consistent(plan, q)
    modifies q
    ensures q.Valid() && PinPushes(plan, old(q.log), q.log)
    ensures r.Done? ==> Consistent(plan, q) && Grown(plan, refs, old(Taken(q)), Taken(q))
    ensures r.Done? ==> forall ref | ref in refs ::
            Covered(plan, q.byKey.Keys, ref) && (ref in plan.pins ==> ref in q.enqueuedPoms)
    ensures Failure(plan, refs, old(q.walked), Taken(q), r)
    ensures plan.pins.Keys <= old(q.enqueuedPoms) ==>
              && Unchanged(old(Taken(q)), old(q.units), old(q.byKey), old(q.supportNodes), q)
              && (r.Done? || (r.UnpinnedPom? && r.coordinate in refs))
  {
    ghost var start := Taken(q);
    var worklist := refs;
    StartsWalking(plan, refs, q);
    while worklist != []
      invariant Walking(plan, refs, start, q, worklist)
      invariant plan.pins.Keys <= start.marked ==> Unchanged(start, old(q.units), old(q.byKey), old(q.supportNodes), q)
      invariant plan.pins.Keys <= start.marked ==> AllAmong(worklist, refs)
      decreases plan.limit - q.supportNodes, |worklist|
    {
      var ref, rest := worklist[0], worklist[1..];
      HeadAndRest(worklist);
      RestAmong(worklist, refs);
      r, worklist := Turn(plan, refs, ref, rest, q, start);
      if !r.Done? {
        return;
      }
    }
    return Done;
  }

  lemma StartsWalking(plan: Plan, refs: seq<Gav>, q: Queue)
    requires Consistent(plan, q)
    ensures Walking(plan, refs, Taken(q), q, refs)
  {
    GrownNothing(plan, refs, Taken(q));
    assert ParentsCovered(plan, q.log, q.byKey.Keys, refs);
  }
}
