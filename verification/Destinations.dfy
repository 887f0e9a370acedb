/**
 * The destinations of one export (`rv-export/src/export.rs`, `DestinationPaths` and
 * `planned_destinations`): every planned file, checksum, marker file and metadata list is claimed,
 * and the metadata the export rewrites and removes is compared with what is planned.
 */
module Destinations {
  import opened Prelude
  import opened DestinationClaims
  import opened DestinationPlan
  import opened MetadataCleanup

  class DestinationPaths {
    const names: Path -> set<string>
    var claims: seq<DestinationClaim>
    var index: map<string, nat>
    /** The names of the metadata files the export writes. */
    var metadata: set<string>
    /** The names of the directories whose other metadata it removes. */
    var cleanup: set<string>
    ghost var records: seq<Record>
    ghost var lists: set<Path>

    ghost predicate Valid()
      reads this`claims, this`index, this`records
    {
      (forall path :: names(path) != {}) && Reflects(names, claims, index, records)
    }

    constructor (names: Path -> set<string>)
      requires forall path :: names(path) != {}
      ensures Valid() && this.names == names && records == [] && lists == {} && metadata == cleanup == {}
    {
      this.names := names;
      claims, index, records, lists := [], map[], [], {};
      metadata, cleanup := {}, {};
    }

    /** The loop of `claim`: every claim that a name of the path leads to takes the request in, or one refuses. */
    method TakeIn(r: Record) returns (ok: bool, at: nat)
      modifies this`claims
      ensures ok ==> AllAdmit(old(claims), names(r.path), index, r) && Lands(old(claims), names(r.path), index, at)
      ensures ok ==> claims == AbsorbAll(old(claims), names(r.path), index, r, |old(claims)|)
      ensures !ok ==> SomeRefuses(old(claims), names(r.path), index, r)
    {
      var own := names(r.path);
      ghost var before := claims;
      var n := |claims|;
      at := n;
      for k := 0 to n
        invariant claims == AbsorbAll(before, own, index, r, k)
        invariant AdmitUpTo(before, own, index, r, k) && LandsUpTo(n, own, index, k, at)
      {
        AbsorbOneMore(before, own, index, r, k);
        if Matched(own, index, k) {
          if !Admits(claims[k], r) {
            return false, at;
          }
          claims := claims[k := Absorb(claims[k], r)];
          if at == n {
            at := k;
          }
        }
      }
      return true, at;
    }

    /** `claim`: granted only when nothing granted before conflicts, and refused only for a conflict. */
    method Claim(path: Path, owner: Owner, directory: bool, group: bool) returns (ok: bool)
      requires Valid()
      modifies this`claims, this`index, this`records
      ensures ok ==> Valid() && records == old(records) + [DestinationClaim(path, owner, directory, group)]
      ensures ok ==> NoConflict(names, old(records), DestinationClaim(path, owner, directory, group))
      ensures !ok && (!directory || group || DirsHaveOneName(names, old(records))) ==>
                !NoConflict(names, old(records), DestinationClaim(path, owner, directory, group))
    {
      var r := DestinationClaim(path, owner, directory, group);
      ghost var before := claims;
      var at;
      ok, at := TakeIn(r);
      if ok {
        if at == |claims| {
          claims := claims + [r];
        }
        assert claims == ClaimsAfter(before, names(path), index, r, at);
        Granted(names, before, index, records, r, at);
        index := IndexMore(names(path), index, at);
        records := records + [r];
      } else if !directory || group || DirsHaveOneName(names, records) {
        RefusedHasConflict(names, before, index, records, r);
      }
    }

    /** `file`: the file and every directory on its way, refused exactly when one of them conflicts. */
    method File(path: Path, owner: Owner, groupDepth: nat) returns (ok: bool)
      requires Valid()
      modifies this`claims, this`index, this`records
      ensures ok ==> Valid() && records == old(records) + FileRecords(path, owner, groupDepth)
      ensures ok ==> !Refused(names, old(records), FileRecords(path, owner, groupDepth))
      ensures !ok && DirsHaveOneName(names, old(records) + FileRecords(path, owner, groupDepth)) ==>
                Refused(names, old(records), FileRecords(path, owner, groupDepth))
    {
      ghost var all := FileRecords(path, owner, groupDepth);
      for i := 0 to |path|
        invariant Valid() && records == old(records) + all[..i] && GrantedUpTo(names, old(records), all, i)
      {
        ghost var before := records;
        DirsOfSome(names, before, old(records) + all);
        OneMoreRecord(old(records), all, i);
        ok := Claim(path[..i + 1], owner, i + 1 < |path|, i < groupDepth);
        if !ok {
          return false;
        }
      }
      assert all[..|path|] == all;
      return true;
    }

    /** The metadata lists and their names belong together, and all of it is claimed. */
    ghost predicate Planning()
      reads this`claims, this`index, this`metadata, this`records, this`lists
    {
      Valid() && AllClaimed(records, lists) && metadata == NamesOf(names, lists)
    }

    /** A file of the plan: refused only when two requests of the plan conflict. */
    method Ask(path: Path, owner: Owner, depth: nat, ghost asked: Record -> bool) returns (ok: bool)
      requires Valid() && AllAsked(records, asked) && path != [] && AllAsked(FileRecords(path, owner, depth), asked)
      modifies this`claims, this`index, this`records
      ensures ok ==> Valid() && old(records) <= records && AllAsked(records, asked)
      ensures ok ==> Contains(records, FileRecords(path, owner, depth)) && HasFile(records, path, owner)
      ensures !ok && OneNameEach(names, asked) ==> Clashing(names, asked)
    {
      RefusedClashes(names, records, FileRecords(path, owner, depth), asked);
      ok := File(path, owner, depth);
      if ok {
        FileIsRecorded(records, path, owner, depth);
      }
    }

    /** `metadata`: one metadata file and the checksums that replacing it removes. */
    method Metadata(rules: Rules, place: Place, owner: Owner, id: string, ghost asked: Record -> bool)
      returns (ok: bool)
      requires Planning() && AllAsked(records, asked)
      requires PlaceList(rules, place, id, owner) && AsksPlace(rules, place, asked)
      modifies this`claims, this`index, this`records, this`metadata, this`lists
      ensures ok ==> Planning() && AllAsked(records, asked) && old(records) <= records
      ensures ok ==> lists == old(lists) + {ListPath(place.dir, id)}
      ensures !ok && OneNameEach(names, asked) ==> Clashing(names, asked)
    {
      var path := ListPath(place.dir, id);
      assert OfList(place.dir, id, owner, path, owner) && OfPlace(rules, place, path, owner);
      ok := Ask(path, owner, place.depth, asked);
      if !ok {
        return;
      }
      ghost var before := records;
      metadata := metadata + names(path);
      ok := ClaimChecksums(rules, place, owner, id, asked);
      if ok {
        ListIsXml(place.dir, id);
        ClaimedMore(old(records), records, lists, path, owner);
        NamesOfMore(names, lists, path);
        lists := lists + {path};
      }
    }

    method ClaimChecksums(rules: Rules, place: Place, owner: Owner, id: string, ghost asked: Record -> bool)
      returns (ok: bool)
      requires Valid() && AllAsked(records, asked)
      requires PlaceList(rules, place, id, owner) && AsksPlace(rules, place, asked)
      modifies this`claims, this`index, this`records
      ensures ok ==> Valid() && AllAsked(records, asked) && old(records) <= records
      ensures ok ==> forall k | 0 <= k < |EXTENSIONS| ::
                       HasFile(records, WithExtension(ListPath(place.dir, id), EXTENSIONS[k]),
                               Checksum(owner, EXTENSIONS[k]))
      ensures !ok && OneNameEach(names, asked) ==> Clashing(names, asked)
    {
      var path := ListPath(place.dir, id);
      for i := 0 to |EXTENSIONS|
        invariant Valid() && AllAsked(records, asked) && old(records) <= records
        invariant forall k | 0 <= k < i ::
                  HasFile(records, WithExtension(path, EXTENSIONS[k]), Checksum(owner, EXTENSIONS[k]))
      {
        var sum, sumOwner := WithExtension(path, EXTENSIONS[i]), Checksum(owner, EXTENSIONS[i]);
        assert OfList(place.dir, id, owner, sum, sumOwner) && OfPlace(rules, place, sum, sumOwner);
        ok := Ask(sum, sumOwner, place.depth, asked);
        if !ok {
          return;
        }
      }
      return true;
    }

    /** The lists of the ids that name a version, and the names their ids fold to. */
    method ListPopulated(rules: Rules, place: Place, ghost asked: Record -> bool)
      returns (ok: bool, written: set<string>)
      requires Planning() && AllAsked(records, asked) && AsksPlace(rules, place, asked)
      modifies this`claims, this`index, this`records, this`metadata, this`lists
      ensures ok ==> Planning() && AllAsked(records, asked) && old(records) <= records && old(lists) <= lists
      ensures ok ==> AllListed(rules, place.dir, place.listed, lists) && AllFolded(rules, place.dir, written, lists)
      ensures ok ==> forall id | id in place.listed && rules.usable(id) :: rules.fold(id) in written
      ensures !ok && OneNameEach(names, asked) ==> Clashing(names, asked)
    {
      written := {};
      var left := place.listed;
      while left != {}
        invariant Planning() && AllAsked(records, asked) && old(records) <= records && old(lists) <= lists
        invariant left <= place.listed && AllListed(rules, place.dir, place.listed - left, lists)
        invariant AllFolded(rules, place.dir, written, lists)
        invariant forall id | id in place.listed - left && rules.usable(id) :: rules.fold(id) in written
        decreases left
      {
        var id :| id in left;
        if rules.usable(id) {
          ghost var before := lists;
          ok := Metadata(rules, place, Listing(place.coordinate, id), id, asked);
          if !ok {
            return;
          }
          FoldedMore(rules, place.dir, written, before, lists, id);
          written := written + {rules.fold(id)};
        }
        left := left - {id};
      }
      return true, written;
    }

    /** The empty lists of the ids that fold to none of the names written. */
    method ListEmpty(rules: Rules, place: Place, before: set<string>, ghost asked: Record -> bool) returns (ok: bool)
      requires Planning() && AllAsked(records, asked) && AsksPlace(rules, place, asked)
      requires AllFolded(rules, place.dir, before, lists)
      requires forall id | id in place.listed && rules.usable(id) :: rules.fold(id) in before
      modifies this`claims, this`index, this`records, this`metadata, this`lists
      ensures ok ==> Planning() && AllAsked(records, asked) && old(records) <= records && old(lists) <= lists
      ensures ok ==> forall id | id in place.empty :: Folded(rules, place.dir, rules.fold(id), lists)
      ensures !ok && OneNameEach(names, asked) ==> Clashing(names, asked)
    {
      var written := before;
      var left := place.empty;
      while left != {}
        invariant Planning() && AllAsked(records, asked) && old(records) <= records && old(lists) <= lists
        invariant left <= place.empty && before <= written && AllFolded(rules, place.dir, written, lists)
        invariant forall id | id in place.empty - left :: rules.fold(id) in written
        decreases left
      {
        var id :| id in left;
        left := left - {id};
        if rules.fold(id) !in written {
          ghost var earlier := lists;
          ok := Metadata(rules, place, EmptyListing(place.coordinate, id), id, asked);
          if !ok {
            return;
          }
          FoldedMore(rules, place.dir, written, earlier, lists, id);
          written := written + {rules.fold(id)};
        }
      }
      return true;
    }

    /** `metadata_lists`: a populated list wins over an empty one whose id folds to the same name. */
    method MetadataLists(rules: Rules, place: Place, ghost asked: Record -> bool) returns (ok: bool)
      requires Planning() && AllAsked(records, asked) && AsksPlace(rules, place, asked)
      modifies this`claims, this`index, this`records, this`metadata, this`lists
      ensures ok ==> Planning() && AllAsked(records, asked) && old(records) <= records && old(lists) <= lists
      ensures ok ==> ListsFor(rules, place, lists)
      ensures !ok && OneNameEach(names, asked) ==> Clashing(names, asked)
    {
      var written;
      ok, written := ListPopulated(rules, place, asked);
      if ok {
        ok := ListEmpty(rules, place, written, asked);
      }
    }

    /** The files of one exported coordinate: the artifact, its two checksums and its marker file. */
    method PlanFile(file: PlannedFile, ghost asked: Record -> bool) returns (ok: bool)
      requires Valid() && AllAsked(records, asked) && file.path != [] && AsksFile(file, asked)
      modifies this`claims, this`index, this`records
      ensures ok ==> Valid() && AllAsked(records, asked) && old(records) <= records && Planned(records, file)
      ensures !ok && OneNameEach(names, asked) ==> Clashing(names, asked)
    {
      var owner := Artifact(file.coordinate);
      var sha1, sha256 := WithExtension(file.path, "sha1"), WithExtension(file.path, "sha256");
      assert OfFile(file, file.path, owner);
      ok := Ask(file.path, owner, file.depth, asked);
      if !ok {
        return;
      }
      ghost var first := records;
      assert OfFile(file, sha1, Checksum(owner, "sha1"));
      ok := Ask(sha1, Checksum(owner, "sha1"), file.depth, asked);
      if !ok {
        return;
      }
      ghost var second := records;
      assert OfFile(file, sha256, Checksum(owner, "sha256"));
      ok := Ask(sha256, Checksum(owner, "sha256"), file.depth, asked);
      if !ok {
        return;
      }
      ghost var third := records;
      if file.marked {
        var dir := file.path[..|file.path| - 1];
        assert OfFile(file, dir + [MARKERS], Markers(dir));
        ok := Ask(dir + [MARKERS], Markers(dir), file.depth, asked);
      }
      if ok {
        NowPlanned(first, second, third, records, file);
      }
    }

    method PlanFiles(files: seq<PlannedFile>, ghost asked: Record -> bool) returns (ok: bool)
      requires Valid() && AllAsked(records, asked)
      requires forall i | 0 <= i < |files| :: files[i].path != [] && AsksFile(files[i], asked)
      modifies this`claims, this`index, this`records
      ensures ok ==>
                Valid() && AllAsked(records, asked) && old(records) <= records && AllPlanned(records, files, |files|)
      ensures !ok && OneNameEach(names, asked) ==> Clashing(names, asked)
    {
      for i := 0 to |files|
        invariant Valid() && AllAsked(records, asked) && old(records) <= records && AllPlanned(records, files, i)
      {
        ghost var before := records;
        ok := PlanFile(files[i], asked);
        if !ok {
          return;
        }
        StillPlanned(before, records, files, i);
      }
      return true;
    }

    /** The lists of one directory, which counts as cleaned when other lists are removed there. */
    method PlanPlace(rules: Rules, place: Place, ghost done: set<Place>, ghost asked: Record -> bool) returns (ok: bool)
      requires Planning() && AllAsked(records, asked) && AsksPlace(rules, place, asked)
      requires PlacesDone(rules, names, done, lists, cleanup)
      modifies this`claims, this`index, this`records, this`metadata, this`lists, this`cleanup
      ensures ok ==> Planning() && AllAsked(records, asked) && old(records) <= records
      ensures ok ==> PlacesDone(rules, names, done + {place}, lists, cleanup)
      ensures !ok && OneNameEach(names, asked) ==> Clashing(names, asked)
    {
      if place.cleaned {
        cleanup := cleanup + names(place.dir);
      }
      ok := MetadataLists(rules, place, asked);
      if ok {
        PlacesMore(rules, names, done, old(lists), old(cleanup), lists, place);
        assert cleanup == old(cleanup) + if place.cleaned then names(place.dir) else {};
      }
    }

    /** The lists of all artifacts, or of all snapshot versions. */
    method PlanPlaces(rules: Rules, places: set<Place>, ghost done: set<Place>, ghost asked: Record -> bool)
      returns (ok: bool)
      requires Planning() && AllAsked(records, asked) && forall place | place in places ::
               AsksPlace(rules, place, asked)
      requires PlacesDone(rules, names, done, lists, cleanup)
      modifies this`claims, this`index, this`records, this`metadata, this`lists, this`cleanup
      ensures ok ==> Planning() && AllAsked(records, asked) && old(records) <= records
      ensures ok ==> PlacesDone(rules, names, done + places, lists, cleanup)
      ensures !ok && OneNameEach(names, asked) ==> Clashing(names, asked)
    {
      var left := places;
      ghost var sofar := done;
      while left != {}
        invariant Planning() && AllAsked(records, asked) && old(records) <= records && left <= places
        invariant PlacesDone(rules, names, sofar, lists, cleanup) && sofar + left == done + places
        decreases left
      {
        var place :| place in left;
        ok := PlanPlace(rules, place, sofar, asked);
        if !ok {
          return;
        }
        sofar := sofar + {place};
        left := left - {place};
      }
      assert sofar == done + places;
      return true;
    }

    /** The last loop: no claim stands where a cleanup would take it for metadata. */
    method CheckCleanup() returns (ok: bool)
      ensures ok <==> AllSpared(names, claims, metadata, cleanup)
    {
      for k := 0 to |claims|
        invariant forall j | 0 <= j < k :: Spared(names, cleanup, metadata, claims[j].path)
      {
        if !Spared(names, cleanup, metadata, claims[k].path) {
          return false;
        }
      }
      return true;
    }
  }

  /** A claim that is not spared is a request of the plan that is spelled as metadata and is none. */
  lemma UnsparedIsAsked(rules: Rules, meta: Meta, paths: DestinationPaths, asked: Record -> bool)
    requires paths.Planning() && AllAsked(paths.records, asked)
    requires PlacesDone(rules, paths.names, Places(rules, meta), paths.lists, paths.cleanup)
    requires !AllSpared(paths.names, paths.claims, paths.metadata, paths.cleanup)
    ensures exists r :: asked(r) && Stray(rules, meta, paths.names, paths.lists, r.path)
  {
    var k :| 0 <= k < |paths.claims| && !Spared(paths.names, paths.cleanup, paths.metadata, paths.claims[k].path);
    NotSparedIsStray(rules, meta, paths.names, paths.lists, paths.cleanup, paths.metadata, paths.claims[k].path);
    assert Spelled(paths.names, paths.claims, paths.index, paths.records, k);
    var r, n :| r in paths.records && SpelledBy(paths.names, paths.claims, paths.index, k, r, n);
    assert asked(r);
  }

  /** Two requests of the plan conflict, or one is spelled as metadata in a cleaned directory and is none. */
  ghost predicate Unacceptable(rules: Rules, meta: Meta, names: Path -> set<string>, files: seq<PlannedFile>,
                               lists: set<Path>) {
    || Clashing(names, AskedBy(rules, meta, files))
    || exists r :: Asked(rules, meta, files, r) && Stray(rules, meta, names, lists, r.path)
  }

  lemma AllIsAsked(rules: Rules, meta: Meta, files: seq<PlannedFile>)
    ensures forall i | 0 <= i < |files| :: AsksFile(files[i], AskedBy(rules, meta, files))
    ensures forall place | place in Places(rules, meta) :: AsksPlace(rules, place, AskedBy(rules, meta, files))
  {
    forall i | 0 <= i < |files| ensures AsksFile(files[i], AskedBy(rules, meta, files)) {
      FileIsAsked(rules, meta, files, i);
    }
    forall place | place in Places(rules, meta) ensures AsksPlace(rules, place, AskedBy(rules, meta, files)) {
      PlaceIsAsked(rules, meta, files, place);
    }
  }

  /** Everything that is claimed before the check: the files, the artifact lists and the version lists. */
  method MakeClaims(rules: Rules, files: seq<PlannedFile>, meta: Meta, paths: DestinationPaths) returns (ok: bool)
    requires paths.Valid() && paths.records == [] && paths.lists == {} && paths.metadata == paths.cleanup == {}
    requires forall file | file in files :: file.path != []
    modifies paths
    ensures ok ==> paths.Planning() && AllAsked(paths.records, AskedBy(rules, meta, files))
    ensures ok ==> AllPlanned(paths.records, files, |files|)
    ensures ok ==> PlacesDone(rules, paths.names, Places(rules, meta), paths.lists, paths.cleanup)
    ensures !ok && OneNameEach(paths.names, AskedBy(rules, meta, files)) ==>
              Clashing(paths.names, AskedBy(rules, meta, files))
  {
    ghost var asked := AskedBy(rules, meta, files);
    AllIsAsked(rules, meta, files);
    ok := paths.PlanFiles(files, asked);
    if !ok {
      return;
    }
    ghost var before := paths.records;
    ok := paths.PlanPlaces(rules, ArtifactPlaces(rules, meta), {}, asked);
    if !ok {
      return;
    }
    ok := paths.PlanPlaces(rules, VersionPlaces(rules, meta), ArtifactPlaces(rules, meta), asked);
    if ok {
      assert {} + ArtifactPlaces(rules, meta) == ArtifactPlaces(rules, meta);
      StillPlanned(before, paths.records, files, |files|);
    }
  }

  lemma AcceptedPlan(rules: Rules, meta: Meta, names: Path -> set<string>, same: (Path, Path) -> bool,
                     files: seq<PlannedFile>, paths: DestinationPaths)
    requires paths.names == names
    requires Accepted(rules, meta, names, files, paths.claims, paths.index, paths.records, paths.lists, paths.metadata,
                      paths.cleanup)
    ensures AllSeparate(names, paths.records) && AllLists(rules, meta, paths.lists)
    ensures ListsAreMetadata(names, paths.records, paths.lists)
    ensures Fits(names, same) && FoldsTogether(rules, same) ==> RewritesMetadata(rules, meta, same, paths.records)
    ensures Fits(names, same) && NoFolding(names) ==> NothingLost(rules, meta, same, files)
    ensures Fits(names, same) && SumsShare(names) && OnePathEach(files) && NoColons(rules, meta) ==>
              (NothingLost(rules, meta, same, files) <==> NoneDisguised(rules, meta, same, files))
  {
    var records, lists := paths.records, paths.lists;
    IndexedIsSeparate(names, paths.claims, paths.index, records);
    PlacesHaveLists(rules, meta, names, lists, paths.cleanup);
    ListedFilesAreMetadata(names, records, lists);
    if Fits(names, same) {
      if FoldsTogether(rules, same) {
        RewrittenIsMetadata(rules, meta, names, same, records, lists);
      }
      AcceptedIsSafe(rules, meta, names, same, files, paths.claims, paths.index, records, lists, paths.metadata,
                     paths.cleanup);
    }
  }

  /**
   * `planned_destinations`: an accepted plan keeps all its files apart and has a list for every id
   * it must list. Writing those lists replaces and removes metadata only. Removing other metadata
   * deletes no planned file on a volume that does not fold names, and on any other exactly when
   * none is a removed list under another spelling. A plan is refused only for a conflict or a
   * file that is spelled as metadata.
   */
  method PlannedDestinations(rules: Rules, names: Path -> set<string>, files: seq<PlannedFile>, meta: Meta,
                             ghost same: (Path, Path) -> bool)
    returns (ok: bool, paths: DestinationPaths)
    requires (forall path :: names(path) != {}) && forall file | file in files :: file.path != []
    ensures fresh(paths) && paths.names == names
    ensures ok ==> AllSeparate(names, paths.records)
    ensures ok ==> AllPlanned(paths.records, files, |files|) && AllLists(rules, meta, paths.lists)
    ensures ok ==> ListsAreMetadata(names, paths.records, paths.lists)
    ensures ok && Fits(names, same) && FoldsTogether(rules, same) ==> RewritesMetadata(rules, meta, same, paths.records)
    ensures ok && Fits(names, same) && NoFolding(names) ==> NothingLost(rules, meta, same, files)
    ensures ok && Fits(names, same) && SumsShare(names) && OnePathEach(files) && NoColons(rules, meta) ==>
              (NothingLost(rules, meta, same, files) <==> NoneDisguised(rules, meta, same, files))
    ensures !ok && OneNameEach(names, AskedBy(rules, meta, files)) ==>
              Unacceptable(rules, meta, names, files, paths.lists)
  {
    paths := new DestinationPaths(names);
    ok := MakeClaims(rules, files, meta, paths);
    if !ok {
      return;
    }
    ok := paths.CheckCleanup();
    if ok {
      AcceptedPlan(rules, meta, names, same, files, paths);
    } else {
      UnsparedIsAsked(rules, meta, paths, AskedBy(rules, meta, files));
    }
  }
}
