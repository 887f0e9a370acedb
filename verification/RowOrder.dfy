/**
 * The order in which locked rows reach the queueing pass (`rv-export/src/plan.rs` and
 * `rv-export/src/export.rs`): by group, artifact, version, extension and classifier, each row
 * once. In this order it is told which companion POMs an export leaves out.
 */
module RowOrder {
  import opened Prelude
  import opened ExportQueue
  import opened SupportClosure
  import opened QueueingPass

  // ----- the order of coordinates -----

  predicate ClassifierLess(a: Option<string>, b: Option<string>) {
    b.Some? && (a.None? || TextLess(a.value, b.value))
  }

  /** The derived order of `ArtifactCoord`. */
  predicate KeyLess(a: Key, b: Key) {
    || TextLess(a.group, b.group)
    || (a.group == b.group
        && (|| TextLess(a.artifact, b.artifact)
            || (a.artifact == b.artifact
                && (|| TextLess(a.version, b.version)
                    || (a.version == b.version
                        && (TextLess(a.extension, b.extension)
                            || (a.extension == b.extension && ClassifierLess(a.classifier, b.classifier))))))))
  }

  ghost predicate Sorted(items: seq<Item>) {
    forall i, j | 0 <= i < j < |items| :: KeyLess(items[i].key, items[j].key)
  }

  function GavOf(key: Key): Gav {
    Gav(key.group, key.artifact, key.version)
  }

  /** The rows of `g` are those of a release: their file has the coordinate of their companion POM. */
  ghost predicate Release(items: seq<Item>, g: Gav) {
    forall i | 0 <= i < |items| && items[i].pom == g :: GavOf(items[i].key) == g
  }

  lemma SortedExtensions(items: seq<Item>, g: Gav, i: int, j: int)
    requires Sorted(items) && Release(items, g) && 0 <= i < j < |items| && items[i].pom == g && items[j].pom == g
    ensures items[i].key.extension == items[j].key.extension || TextLess(items[i].key.extension, items[j].key.extension)
  {
    var a, b := items[i].key, items[j].key;
    assert KeyLess(a, b);
    assert GavOf(a) == g && GavOf(b) == g;
    TextAsymmetric(g.group, g.group);
    TextAsymmetric(g.artifact, g.artifact);
    TextAsymmetric(g.version, g.version);
  }

  // ----- which companion POMs are missing -----

  /** No row of `g` has an extension that sorts before `pom`. */
  ghost predicate NoneBeforePom(items: seq<Item>, g: Gav) {
    forall i | 0 <= i < |items| && items[i].pom == g :: !TextLess(items[i].key.extension, "pom")
  }

  lemma {:induction false} FirstRow(items: seq<Item>, g: Gav, i: nat) returns (f: nat)
    requires i < |items| && items[i].pom == g
    ensures f <= i && First(items, f) && items[f].pom == g
  {
    if First(items, i) {
      f := i;
    } else {
      var j :| 0 <= j < i && items[j].pom == items[i].pom;
      f := FirstRow(items, g, j);
    }
  }

  /**
   * In sorted rows of a release, the rows leave the companion POM of `g` unqueued exactly when it is
   * no row itself, some POM row of `g` has a classifier, and no row of `g` sorts before `pom`.
   */
  lemma CompanionMissingExactly(items: seq<Item>, g: Gav)
    requires Sorted(items) && Release(items, g) && Mentioned(items, g)
    ensures RowsQueue(items, g) <==> IsRow(items, PomKey(g)) || !HasPomRow(items, g) || !NoneBeforePom(items, g)
  {
    var some :| 0 <= some < |items| && items[some].pom == g;
    var f := FirstRow(items, g, some);
    FirstRowDecides(items, g, f);
    if items[f].key.extension == "pom" {
      FirstPomIsLeast(items, g, f);
    } else {
      FirstOtherIsLeast(items, g, f);
    }
  }

  /**
   * The export has the companion POM of `g`: as a file of a support POM, as a row, as a plain copy, or
   * because no row of `g` is a POM or some row sorts before `pom`.
   */
  ghost predicate Provided(plan: Plan, items: seq<Item>, requested: set<Gav>, seeds: set<Key>, rows: set<Key>, g: Gav) {
    || PomKey(g) in seeds || IsRow(items, PomKey(g)) || !HasPomRow(items, g) || !NoneBeforePom(items, g)
    || exists from :: from in rows && CopiedTo(plan, requested, from, PomKey(g))
  }

  /** Of the pinned companion POMs of releases, `keys` has exactly those that are provided. */
  ghost predicate AllProvided(plan: Plan, items: seq<Item>, requested: set<Gav>, seeds: set<Key>, rows: set<Key>,
                              keys: set<Key>) {
    forall g | g in plan.pomDigests && Mentioned(items, g) && Release(items, g) ::
      PomKey(g) in keys <==> Provided(plan, items, requested, seeds, rows, g)
  }

  lemma CompanionsAreProvided(plan: Plan, items: seq<Item>, requested: set<Gav>, seeds: set<Key>, rows: set<Key>,
                              keys: set<Key>)
    requires Sorted(items) && CompanionsExactly(plan, items, seeds, rows) && WithCopies(plan, requested, rows, keys)
    ensures AllProvided(plan, items, requested, seeds, rows, keys)
  {
    forall g | g in plan.pomDigests && Mentioned(items, g) && Release(items, g)
      ensures PomKey(g) in keys <==> Provided(plan, items, requested, seeds, rows, g)
    {
      CompanionMissingExactly(items, g);
    }
  }

  /** An export of sorted rows has a pinned companion POM of a release exactly when it is provided. */
  method ExportSorted(plan: Plan, projectParents: seq<Gav>, items: seq<Item>, requested: set<Gav>)
    returns (r: Outcome, q: Queue, ghost seeds: set<Key>, ghost rows: set<Key>)
    requires ValidPlan(plan) && Sorted(items)
    ensures r.Done? ==> SeedFiles(plan, seeds) && WithCopies(plan, requested, rows, q.byKey.Keys)
    ensures r.Done? ==> AllProvided(plan, items, requested, seeds, rows, q.byKey.Keys)
  {
    r, q, seeds, rows := QueueExport(plan, projectParents, items, requested);
    if r.Done? {
      CompanionsAreProvided(plan, items, requested, seeds, rows, q.byKey.Keys);
    }
  }

  lemma FirstRowDecides(items: seq<Item>, g: Gav, f: nat)
    requires First(items, f) && items[f].pom == g
    ensures RowsQueue(items, g) <==> IsRow(items, PomKey(g)) || items[f].key.extension != "pom"
  {
    if i :| First(items, i) && items[i].pom == g && items[i].key.extension != "pom" {
      assert i == f;
    }
  }

  lemma FirstPomIsLeast(items: seq<Item>, g: Gav, f: nat)
    requires Sorted(items) && Release(items, g) && First(items, f) && items[f].pom == g
             && items[f].key.extension == "pom"
    ensures HasPomRow(items, g) && NoneBeforePom(items, g)
  {
    forall i | 0 <= i < |items| && items[i].pom == g ensures !TextLess(items[i].key.extension, "pom") {
      TextAsymmetric("pom", items[i].key.extension);
      if f < i {
        SortedExtensions(items, g, f, i);
      }
    }
  }

  lemma FirstOtherIsLeast(items: seq<Item>, g: Gav, f: nat)
    requires Sorted(items) && Release(items, g) && First(items, f) && items[f].pom == g
             && items[f].key.extension != "pom"
    ensures !HasPomRow(items, g) || !NoneBeforePom(items, g)
  {
    if HasPomRow(items, g) {
      var i :| 0 <= i < |items| && items[i].pom == g && items[i].key.extension == "pom";
      assert f < i;
      SortedExtensions(items, g, f, i);
    }
  }

  // ----- an export that leaves one out -----

  const G: Gav := Gav("g", "a", "1")
  const CLASSIFIED: Item := Item(PomKey(G).(classifier := Some("c")), Some("pom"), {}, G, false)
  const WAR: Item := Item(Key("g", "a", "1", "war", None), Some("war"), {}, G, false)
  const ROWS: seq<Item> := [CLASSIFIED, WAR]

  /** No support POMs, and one pinned companion POM, which the store has. */
  const PLAN: Plan := Plan(map[], [], {}, 1000, g => true, blob => None, (a, b) => false, a => 0.0, a => None,
                           map[G := "companion"], g => true, a => None)

  lemma RowsAreSorted()
    ensures Sorted(ROWS) && Release(ROWS, G) && Mentioned(ROWS, G)
  {
    assert "pom"[0] == 'p' && "war"[0] == 'w';
    assert TextLess("pom", "war");
    assert ROWS[0] == CLASSIFIED && ROWS[1] == WAR;
  }

  lemma RowsDoNotQueue()
    ensures !RowsQueue(ROWS, G)
  {
    RowsAreSorted();
    assert ROWS[0] == CLASSIFIED && ROWS[1] == WAR;
    assert First(ROWS, 0);
    FirstRowDecides(ROWS, G, 0);
    assert "pom"[0] == 'p' && "war"[0] == 'w';
  }

  lemma OneSourceEach(unit: Unit)
    requires Sources(PLAN, ROWS, {})(unit)
    ensures unit.blob ==
            if unit.key == CLASSIFIED.key then "pom" else if unit.key == WAR.key then "war" else "companion"
  {
    assert RowSource(PLAN, ROWS, unit) && !PinPush(PLAN, unit);
    var i :| 0 <= i < |ROWS| && ItemUnit(PLAN, ROWS[i], unit);
    assert ROWS[0] == CLASSIFIED && ROWS[1] == WAR;
    assert "pom"[0] == 'p' && "war"[0] == 'w';
  }

  lemma NoTwoSources()
    ensures !TwoSources(Sources(PLAN, ROWS, {}))
  {
    var from := Sources(PLAN, ROWS, {});
    forall a: Unit, b: Unit | from(a) && from(b) && a.key == b.key ensures a.blob == b.blob {
      OneSourceEach(a);
      OneSourceEach(b);
    }
  }

  lemma NothingFails(r: Outcome)
    requires PassFailure(PLAN, [], ROWS, Sources(PLAN, ROWS, {}), r)
    ensures r.Done?
  {
    NoTwoSources();
    assert ROWS[0] == CLASSIFIED && ROWS[1] == WAR;
  }

  /**
   * A POM with a classifier is a file of its own, yet it marks the coordinate of the companion POM:
   * an export of that POM and a `war`, in their order, succeeds without the POM the lock pins for the `war`.
   */
  method CompanionIsMissed() returns (r: Outcome, q: Queue)
    ensures Sorted(ROWS) && r.Done? && WAR.key in q.byKey && G in PLAN.pomDigests && PomKey(G) !in q.byKey
  {
    ghost var seeds, rows;
    r, q, seeds, rows := QueueExport(PLAN, [], ROWS, {});
    NothingFails(r);
    RowsAreSorted();
    RowsDoNotQueue();
    assert ROWS[1] == WAR;
    assert PomKey(G) !in rows;
    assert forall from :: CopyKey(PLAN, {}, from).None?;
  }
}
