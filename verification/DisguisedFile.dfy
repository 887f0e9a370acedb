/**
 * A plan that is accepted although its cleanup can delete a planned file: on a volume that folds
 * case, a snapshot's own file can be one of the metadata lists that are removed from its
 * directory, under a spelling the check does not take for one.
 */
module DisguisedFile {
  import opened Prelude
  import opened DestinationClaims
  import opened DestinationPlan
  import opened MetadataCleanup
  import opened Destinations

  // ----- a volume that folds the case of ASCII -----

  const NAMES: Path -> set<string> := NamesBy([AsciiLower])

  ghost predicate Same(a: Path, b: Path) {
    |a| == |b| && forall i | 0 <= i < |a| :: AsciiLower(a[i]) == AsciiLower(b[i])
  }

  ghost const SAME: (Path, Path) -> bool := (a, b) => Same(a, b)

  lemma NamesAre(path: Path)
    ensures NAMES(path) == {AsciiLower(Joined(path))}
  {
    var rules := [AsciiLower];
    assert rules[0](Joined(path)) == AsciiLower(Joined(path));
  }

  lemma LowerAppend(a: string, b: string)
    ensures AsciiLower(a + b) == AsciiLower(a) + AsciiLower(b)
  {
  }

  lemma {:induction false} LowerJoined(a: Path, b: Path)
    requires Same(a, b)
    ensures AsciiLower(Joined(a)) == AsciiLower(Joined(b))
  {
    if |a| > 1 {
      LowerJoined(a[1..], b[1..]);
      JoinedFirst(a);
      JoinedFirst(b);
    }
  }

  lemma JoinedFirst(a: Path)
    requires |a| > 1
    ensures AsciiLower(Joined(a)) == AsciiLower(a[0]) + AsciiLower("/") + AsciiLower(Joined(a[1..]))
  {
    LowerAppend(a[0] + "/", Joined(a[1..]));
    LowerAppend(a[0], "/");
  }

  lemma SameParents(a: Path, b: Path)
    requires Same(a, b) && a != []
    ensures Same(a[..|a| - 1], b[..|b| - 1])
  {
  }

  lemma SameShares(a: Path, b: Path)
    requires Same(a, b)
    ensures Same(b, a) && ShareName(NAMES, a, b)
  {
    NamesAre(a);
    NamesAre(b);
    LowerJoined(a, b);
  }

  lemma SameFurther(a: Path, b: Path, c: Path)
    requires Same(a, b) && Same(b, c)
    ensures Same(a, c)
  {
  }

  lemma VolumeFits()
    ensures Fits(NAMES, SAME)
  {
    forall a, b | SAME(a, b) ensures SAME(b, a) && ShareName(NAMES, a, b) {
      SameShares(a, b);
    }
    forall a, b, c | SAME(a, b) && SAME(b, c) ensures SAME(a, c) {
      SameFurther(a, b, c);
    }
    forall a, b | SAME(a, b) && a != [] && b != [] ensures SAME(a[..|a| - 1], b[..|b| - 1]) {
      SameParents(a, b);
    }
  }

  // ----- the plan -----

  const VERSION: string := "metadata-1-SNAPSHOT"
  const DIR: Path := ["g", "MAVEN", VERSION]
  const NAME: string := "MAVEN" + "-metadata-1-SNAPSHOT.xml"

  /** The row `g:MAVEN:metadata-1-SNAPSHOT:xml`. */
  const FILE: PlannedFile := PlannedFile("g:MAVEN:metadata-1-SNAPSHOT:xml", DIR + [NAME], 1, true)

  const RULES: Rules := Rules(id => true, AsciiLower, AsciiLower, group => [group])

  /** The metadata of a pass over that row, which a repository serves without builds. */
  const META: Meta := Meta(map[], map[("g", "MAVEN", VERSION, "central") := false], {("g", "MAVEN", VERSION)}, false,
                           {"local"}, false)

  lemma NoLists(home: Home, id: string, owner: Owner)
    ensures !NeedsList(RULES, META, home, id, owner)
  {
  }

  /** The four files of the row lie in one directory, under names of different lengths. */
  lemma NameOf(path: Path, owner: Owner) returns (n: string)
    requires OfFile(FILE, path, owner)
    ensures path == DIR + [n] && n != "" && n[0] != 'm'
    ensures (|n| == 29 && owner == Artifact(FILE.coordinate))
         || (|n| == 34 && owner == Checksum(Artifact(FILE.coordinate), "sha1"))
         || (|n| == 36 && owner == Checksum(Artifact(FILE.coordinate), "sha256"))
         || (|n| == 20 && owner == Markers(DIR))
  {
    n := path[|path| - 1];
    assert FILE.path[..|FILE.path| - 1] == DIR && FILE.path[3] == NAME && |NAME| == 29 && NAME[0] == 'M'
           && |MARKERS| == 20;
  }

  lemma AskedIsOfFile(path: Path, owner: Owner, depth: nat)
    requires AskedFile(RULES, META, [FILE], path, owner, depth)
    ensures OfFile(FILE, path, owner)
  {
    if home :| OfHome(RULES, META, home, path, owner) && depth == HomeDepth(RULES, home) {
      var id, list :| AskedList(RULES, META, home, id, list) && OfList(HomeDir(RULES, home), id, list, path, owner);
      NoLists(home, id, list);
    }
  }

  lemma RequestShape(n: string, owner: Owner, depth: nat, r: Record)
    requires r in FileRecords(DIR + [n], owner, depth)
    ensures if r.directory then 1 <= |r.path| <= 3 && r.path == DIR[..|r.path|]
            else r.path == DIR + [n] && r.owner == owner
  {
    var all := FileRecords(DIR + [n], owner, depth);
    var i :| 0 <= i < |all| && all[i] == r;
    if i < 3 {
      assert (DIR + [n])[..i + 1] == DIR[..i + 1];
    } else {
      assert (DIR + [n])[..4] == DIR + [n];
    }
  }

  lemma AskedShape(r: Record)
    requires Asked(RULES, META, [FILE], r)
    ensures if r.directory then 1 <= |r.path| <= 3 && r.path == DIR[..|r.path|] else OfFile(FILE, r.path, r.owner)
  {
    var path, owner, depth :| AskedFile(RULES, META, [FILE], path, owner, depth)
      && r in FileRecords(path, owner, depth);
    AskedIsOfFile(path, owner, depth);
    var n := NameOf(path, owner);
    RequestShape(n, owner, depth, r);
  }

  /** The length of the path's name. */
  function Length(path: Path): nat {
    |Joined(path)|
  }

  lemma SharedLength(a: Path, b: Path)
    requires ShareName(NAMES, a, b)
    ensures Length(a) == Length(b)
  {
    NamesAre(a);
    NamesAre(b);
  }

  lemma DirLengths(path: Path)
    requires 1 <= |path| <= 3 && path == DIR[..|path|]
    ensures Length(path) == if |path| == 1 then 1 else if |path| == 2 then 7 else 27
  {
    assert Joined(["g"]) == "g";
    JoinedLast(["g"], "MAVEN");
    JoinedLast(["g", "MAVEN"], VERSION);
    assert DIR[..1] == ["g"] && DIR[..2] == ["g"] + ["MAVEN"] && DIR[..3] == ["g", "MAVEN"] + [VERSION];
  }

  lemma FileLength(n: string)
    ensures Length(DIR + [n]) == 28 + |n|
  {
    JoinedLast(DIR, n);
    assert DIR[..3] == DIR;
    DirLengths(DIR);
  }

  lemma NoClash(a: Record, b: Record)
    requires Asked(RULES, META, [FILE], a) && Asked(RULES, META, [FILE], b) && ShareName(NAMES, a.path, b.path)
    ensures !Clash(a, b)
  {
    SharedLength(a.path, b.path);
    LengthTells(a);
    LengthTells(b);
  }

  function OwnerAt(length: nat): Owner {
    if length == 57 then Artifact(FILE.coordinate)
    else if length == 62 then Checksum(Artifact(FILE.coordinate), "sha1")
    else if length == 64 then Checksum(Artifact(FILE.coordinate), "sha256")
    else Markers(DIR)
  }

  /** What is asked for is told by the length of its path. */
  lemma LengthTells(r: Record)
    requires Asked(RULES, META, [FILE], r)
    ensures r.directory <==> Length(r.path) <= 27
    ensures r.directory ==>
              r.path == if Length(r.path) == 1 then DIR[..1] else if Length(r.path) == 7 then DIR[..2] else DIR
    ensures !r.directory ==> r.owner == OwnerAt(Length(r.path))
  {
    AskedShape(r);
    if r.directory {
      DirLengths(r.path);
      assert DIR[..3] == DIR;
    } else {
      var n := NameOf(r.path, r.owner);
      FileLength(n);
    }
  }

  lemma NotListName(name: string)
    requires |name| < 2 || name[0] != 'm' || name[1] != 'a'
    ensures !IsListName(StripChecksum(name))
  {
    var base := StripChecksum(name);
    assert base == name[..|base|];
    assert "maven-metadata-"[0] == 'm' && "maven-metadata-"[1] == 'a';
  }

  lemma NotStray(r: Record)
    requires Asked(RULES, META, [FILE], r)
    ensures !ListLike(r.path)
  {
    AskedShape(r);
    if r.directory {
      assert r.path[|r.path| - 1] == DIR[|r.path| - 1];
      assert "g"[0] == 'g' && "MAVEN"[0] == 'M' && VERSION[1] == 'e';
    } else {
      var n := NameOf(r.path, r.owner);
    }
    NotListName(r.path[|r.path| - 1]);
  }

  lemma PlanIsAcceptable(lists: set<Path>)
    ensures OneNameEach(NAMES, AskedBy(RULES, META, [FILE])) && !Unacceptable(RULES, META, NAMES, [FILE], lists)
  {
    forall path ensures OneName(NAMES, path) {
      NamesAre(path);
    }
    forall a, b | Asked(RULES, META, [FILE], a) && Asked(RULES, META, [FILE], b) ensures !Conflict(NAMES, a, b) {
      if ShareName(NAMES, a.path, b.path) {
        NoClash(a, b);
      }
    }
    forall r | Asked(RULES, META, [FILE], r) ensures !Stray(RULES, META, NAMES, lists, r.path) {
      NotStray(r);
    }
  }

  // ----- what its cleanup can delete -----

  const ID: string := "1-SNAPSHOT"

  lemma SpelledAlike()
    ensures Same(ListPath(DIR, ID), FILE.path)
  {
    NamesLower();
    var list := ListPath(DIR, ID);
    assert list[3] == ListName(ID) && FILE.path[3] == NAME;
    assert forall i | 0 <= i < 3 :: list[i] == DIR[i] == FILE.path[i];
  }

  lemma NamesLower()
    ensures AsciiLower(ListName(ID)) == AsciiLower(NAME)
  {
    assert ListName(ID) == "maven" + "-metadata-1-SNAPSHOT.xml";
    LowerAppend("maven", "-metadata-1-SNAPSHOT.xml");
    LowerAppend("MAVEN", "-metadata-1-SNAPSHOT.xml");
    LowerMaven();
  }

  lemma LowerMaven()
    ensures AsciiLower("MAVEN") == AsciiLower("maven")
  {
    var upper, lower := "MAVEN", "maven";
    assert upper[0] == 'M' && upper[1] == 'A' && upper[2] == 'V' && upper[3] == 'E' && upper[4] == 'N';
    assert lower[0] == 'm' && lower[1] == 'a' && lower[2] == 'v' && lower[3] == 'e' && lower[4] == 'n';
  }

  lemma FileCanGo()
    ensures CanDelete(RULES, META, SAME, FILE.path)
  {
    var version := ("g", "MAVEN", VERSION);
    assert VersionIds(RULES, META, version) == {} && VersionDir(RULES, version) == DIR;
    assert Removes(RULES, META, DIR, {"local"}, false);
    assert |ID| == 10 && |"local"| == 5;
    SpelledAlike();
    assert Deletes(RULES, META, SAME, DIR, {"local"}, false, ID, ListPath(DIR, ID), FILE.path);
  }

  lemma FileIsPlanned()
    ensures OfFiles([FILE], FILE.path, Artifact(FILE.coordinate)) && !ListLike(FILE.path)
  {
    var files := [FILE];
    assert OfFile(files[0], FILE.path, Artifact(FILE.coordinate));
    assert FILE.path[3] == NAME && NAME[0] == 'M';
    NotListName(NAME);
  }

  lemma EveryPathHasName()
    ensures forall path :: NAMES(path) != {}
  {
    forall path ensures NAMES(path) != {} {
      NamesAre(path);
    }
  }

  /** The removal of other metadata can delete the row's file on a volume that the names fit. */
  ghost predicate IsLost() {
    && Fits(NAMES, SAME) && CanDelete(RULES, META, SAME, FILE.path)
    && OfFiles([FILE], FILE.path, Artifact(FILE.coordinate)) && !ListLike(FILE.path)
  }

  lemma FileIsLost()
    ensures IsLost()
  {
    VolumeFits();
    FileIsPlanned();
    FileCanGo();
  }

  /**
   * The plan is accepted, and the removal of other metadata can delete the row's own file, which the
   * directory may hold as `maven-metadata-1-SNAPSHOT.xml`.
   */
  method PlannedIsDeleted() returns (ok: bool, paths: DestinationPaths)
    ensures ok && IsLost()
  {
    EveryPathHasName();
    ok, paths := PlannedDestinations(RULES, NAMES, [FILE], META, SAME);
    PlanIsAcceptable(paths.lists);
    FileIsLost();
  }

  // ----- a list where a file is planned -----

  /** The row `x:maven:metadata-central:xml`, whose file has the name of a list. */
  const OTHER: PlannedFile := PlannedFile("x:maven:metadata-central:xml",
                                          ["x", "maven", "metadata-central", "maven-metadata-central.xml"], 1, true)

  const OTHER_RULES: Rules := Rules(id => true, AsciiLower, AsciiLower,
                                    group => if group == "x.maven" then ["x", "maven"] else [group])

  /** An artifact of another group whose directory is that row's, with a version listed under `central`. */
  const OTHER_META: Meta :=
    Meta(map[("x.maven", "metadata-central") := map["central" := true]], map[], {}, true, {}, true)

  lemma OnePath()
    ensures ListPath(HomeDir(OTHER_RULES, ArtifactHome(("x.maven", "metadata-central"))), "central") == OTHER.path
  {
    assert ListName("central") == "maven-metadata-central.xml";
  }

  lemma ListIsNeeded()
    ensures var home := ArtifactHome(("x.maven", "metadata-central"));
            NeedsList(OTHER_RULES, OTHER_META, home, "central", Listing(HomeText(home), "central"))
  {
  }

  /** The plan is refused, since the export would write the list over the row's file. */
  method ListIsRefused() returns (ok: bool, paths: DestinationPaths)
    ensures !ok
  {
    EveryPathHasName();
    ok, paths := PlannedDestinations(OTHER_RULES, NAMES, [OTHER], OTHER_META, SAME);
    if ok {
      ListIsNeeded();
      OnePath();
      assert OTHER.path in paths.lists;
      var files := [OTHER];
      assert OfFile(files[0], OTHER.path, Artifact(OTHER.coordinate));
      PlannedIsFile(paths.records, files, OTHER.path, Artifact(OTHER.coordinate));
      Overwritten(paths.records, paths.lists);
    }
  }

  lemma Overwritten(records: seq<Record>, lists: set<Path>)
    requires HasFile(records, OTHER.path, Artifact(OTHER.coordinate)) && OTHER.path in lists
    ensures !ListsAreMetadata(NAMES, records, lists)
  {
    var group :| DestinationClaim(OTHER.path, Artifact(OTHER.coordinate), false, group) in records;
    var r := DestinationClaim(OTHER.path, Artifact(OTHER.coordinate), false, group);
    NamesAre(OTHER.path);
    assert ShareName(NAMES, OTHER.path, r.path) && OrChecksum(OTHER.path, OTHER.path);
  }
}
