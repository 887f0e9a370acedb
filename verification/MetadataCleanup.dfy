/**
 * Whether rewriting and removing metadata can touch a planned file (`rv-export/src/export.rs`,
 * `write_metadata_blocking` and the last loop of `planned_destinations`).
 *
 * `same` tells which paths are one file on the volume, and may be any relation the names allow.
 * A list is removed under the spelling the directory holds, a planned file may be spelled
 * otherwise there.
 */
module MetadataCleanup {
  import opened Prelude
  import opened DestinationClaims
  import opened DestinationPlan

  // ----- the volume -----

  /** Paths that are one file share a name and lie in one directory. */
  ghost predicate Fits(names: Path -> set<string>, same: (Path, Path) -> bool) {
    && (forall a :: same(a, a))
    && (forall a, b | same(a, b) :: same(b, a) && ShareName(names, a, b))
    && (forall a, b, c | same(a, b) && same(b, c) :: same(a, c))
    && (forall a, b | same(a, b) && a != [] && b != [] :: same(a[..|a| - 1], b[..|b| - 1]))
  }

  /** A volume that does not fold names: different paths share none. */
  ghost predicate NoFolding(names: Path -> set<string>) {
    forall a, b | ShareName(names, a, b) :: a == b
  }

  ghost predicate SharesWithSums(names: Path -> set<string>, p: Path, q: Path)
    requires p != [] && q != []
  {
    forall k | 0 <= k < |EXTENSIONS| ::
      ShareName(names, WithExtension(p, EXTENSIONS[k]), WithExtension(q, EXTENSIONS[k]))
  }

  /** Checksums of metadata files that share a name share one. */
  ghost predicate SumsShare(names: Path -> set<string>) {
    forall p, q | IsXml(p) && IsXml(q) && ShareName(names, p, q) :: SharesWithSums(names, p, q)
  }

  lemma UnfoldedSumsShare(names: Path -> set<string>)
    requires NoFolding(names) && forall path :: names(path) != {}
    ensures SumsShare(names)
  {
    forall p, q | IsXml(p) && IsXml(q) && ShareName(names, p, q) ensures SharesWithSums(names, p, q) {
      forall k | 0 <= k < |EXTENSIONS|
        ensures ShareName(names, WithExtension(p, EXTENSIONS[k]), WithExtension(q, EXTENSIONS[k]))
      {
        var n :| n in names(WithExtension(p, EXTENSIONS[k]));
      }
    }
  }

  /** Folding a text that ends in `.xml` does not depend on a checksum extension behind it. */
  ghost predicate FoldsSums(rules: seq<string -> string>) {
    forall i, text, k | 0 <= i < |rules| && HasSuffix(text, ".xml") && 0 <= k < |EXTENSIONS| ::
      rules[i](text + ("." + EXTENSIONS[k])) == rules[i](text) + ("." + EXTENSIONS[k])
  }

  lemma JoinedSum(path: Path, extension: string)
    requires path != []
    ensures Joined(WithExtension(path, extension)) == Joined(path) + ("." + extension)
  {
    var dir, name := path[..|path| - 1], path[|path| - 1];
    assert path == dir + [name] && WithExtension(path, extension) == dir + [name + "." + extension];
    Regroup(name, ".", extension);
    if dir != [] {
      JoinedLast(dir, name);
      JoinedLast(dir, name + "." + extension);
      Regroup(Joined(dir) + "/", name, "." + extension);
    }
  }

  lemma JoinedXml(path: Path)
    requires IsXml(path)
    ensures HasSuffix(Joined(path), ".xml")
  {
    var dir, name := path[..|path| - 1], path[|path| - 1];
    assert path == dir + [name];
    if dir != [] {
      JoinedLast(dir, name);
      assert (Joined(dir) + "/" + name)[|Joined(dir) + "/" + name| - 4..] == name[|name| - 4..];
    }
  }

  /** Sharing a name is by one rule or two: either way the checksums share the longer name. */
  lemma FoldedSumsShare(rules: seq<string -> string>)
    requires FoldsSums(rules)
    ensures SumsShare(NamesBy(rules))
  {
    var names := NamesBy(rules);
    forall p, q | IsXml(p) && IsXml(q) && ShareName(names, p, q) ensures SharesWithSums(names, p, q) {
      var n :| n in names(p) && n in names(q);
      forall k | 0 <= k < |EXTENSIONS|
        ensures ShareName(names, WithExtension(p, EXTENSIONS[k]), WithExtension(q, EXTENSIONS[k]))
      {
        SumHasName(rules, p, n, k);
        SumHasName(rules, q, n, k);
      }
    }
  }

  lemma SumHasName(rules: seq<string -> string>, path: Path, n: string, k: nat)
    requires FoldsSums(rules) && IsXml(path) && n in NamesBy(rules)(path) && k < |EXTENSIONS|
    ensures n + ("." + EXTENSIONS[k]) in NamesBy(rules)(WithExtension(path, EXTENSIONS[k]))
  {
    var i :| 0 <= i < |rules| && n == rules[i](Joined(path));
    JoinedXml(path);
    JoinedSum(path, EXTENSIONS[k]);
    assert rules[i](Joined(path) + ("." + EXTENSIONS[k])) == n + ("." + EXTENSIONS[k]);
  }

  // ----- what the export rewrites -----

  /** The lists `write_metadata_blocking` writes: those that name a version or a build, and the empty ones. */
  ghost predicate Rewrites(rules: Rules, meta: Meta, dir: Path, id: string) {
    exists home, owner :: NeedsList(rules, meta, home, id, owner) && dir == HomeDir(rules, home)
  }

  /** Every list that names something is claimed, and for every empty one a list under an id that folds alike. */
  ghost predicate AllLists(rules: Rules, meta: Meta, lists: set<Path>) {
    forall home, id, owner | NeedsList(rules, meta, home, id, owner) ::
      if owner.Listing? then ListPath(HomeDir(rules, home), id) in lists
      else Folded(rules, HomeDir(rules, home), rules.fold(id), lists)
  }

  lemma PlacesHaveLists(rules: Rules, meta: Meta, names: Path -> set<string>, lists: set<Path>, cleanup: set<string>)
    requires PlacesDone(rules, names, Places(rules, meta), lists, cleanup)
    ensures AllLists(rules, meta, lists)
  {
    forall home, id, owner | NeedsList(rules, meta, home, id, owner)
      ensures if owner.Listing? then ListPath(HomeDir(rules, home), id) in lists
              else Folded(rules, HomeDir(rules, home), rules.fold(id), lists)
    {
      var place := HomePlace(rules, meta, home);
      assert ListsFor(rules, place, lists);
    }
  }

  /** Every list the export writes is claimed, or one in the same directory whose id folds alike is. */
  lemma RewrittenIsListed(rules: Rules, meta: Meta, lists: set<Path>, dir: Path, id: string)
    requires AllLists(rules, meta, lists) && Rewrites(rules, meta, dir, id)
    ensures Folded(rules, dir, rules.fold(id), lists)
  {
    var home, owner :| NeedsList(rules, meta, home, id, owner) && dir == HomeDir(rules, home);
    assert owner.Listing? ==> ListPath(dir, id) in lists;
  }

  /** Two ids that fold alike name one list of a directory, and one of each checksum. */
  ghost predicate FoldsTogether(rules: Rules, same: (Path, Path) -> bool) {
    forall dir, a, b | rules.fold(a) == rules.fold(b) :: SameWithSums(same, ListPath(dir, a), ListPath(dir, b))
  }

  ghost predicate SameWithSums(same: (Path, Path) -> bool, p: Path, q: Path) {
    && p != [] && q != [] && same(p, q)
    && forall k | 0 <= k < |EXTENSIONS| :: same(WithExtension(p, EXTENSIONS[k]), WithExtension(q, EXTENSIONS[k]))
  }

  /** A planned file that can be the same file as a claimed list, or a checksum of one, is metadata. */
  ghost predicate ListsAreMetadata(names: Path -> set<string>, records: seq<Record>, lists: set<Path>) {
    forall r, list, c | r in records && !r.directory && list in lists && list != [] && OrChecksum(list, c)
                        && ShareName(names, c, r.path) ::
      ForMetadata(r.owner)
  }

  /** A planned file that is a list the export writes, or a checksum it removes with it, is metadata. */
  ghost predicate RewritesMetadata(rules: Rules, meta: Meta, same: (Path, Path) -> bool, records: seq<Record>) {
    forall r, dir, id, c | r in records && !r.directory && Rewrites(rules, meta, dir, id)
                           && OrChecksum(ListPath(dir, id), c) && same(c, r.path) ::
      ForMetadata(r.owner)
  }

  /** Two files that share a name have one owner. */
  lemma OneOwner(names: Path -> set<string>, records: seq<Record>, r: Record, path: Path, owner: Owner)
    requires AllSeparate(names, records) && r in records && !r.directory && ShareName(names, path, r.path)
    requires HasFile(records, path, owner)
    ensures r.owner == owner
  {
    var group :| DestinationClaim(path, owner, false, group) in records;
    assert !Conflict(names, DestinationClaim(path, owner, false, group), r);
  }

  /** A planned file that shares a name with a list, or with a checksum of one, is there for that list. */
  lemma FileOfList(names: Path -> set<string>, records: seq<Record>, r: Record, path: Path, c: Path)
    requires AllSeparate(names, records) && r in records && !r.directory
    requires ListClaimed(records, path) && OrChecksum(path, c) && ShareName(names, c, r.path)
    ensures ForMetadata(r.owner)
  {
    var owner: Owner :|
      && (owner.Listing? || owner.EmptyListing?) && HasFile(records, path, owner)
      && forall k | 0 <= k < |EXTENSIONS| ::
           HasFile(records, WithExtension(path, EXTENSIONS[k]), Checksum(owner, EXTENSIONS[k]));
    if c == path {
      OneOwner(names, records, r, path, owner);
    } else {
      var k :| 0 <= k < |EXTENSIONS| && c == WithExtension(path, EXTENSIONS[k]);
      OneOwner(names, records, r, c, Checksum(owner, EXTENSIONS[k]));
    }
  }

  lemma ListedFilesAreMetadata(names: Path -> set<string>, records: seq<Record>, lists: set<Path>)
    requires AllSeparate(names, records) && AllClaimed(records, lists)
    ensures ListsAreMetadata(names, records, lists)
  {
    forall r, list, c | r in records && !r.directory && list in lists && list != [] && OrChecksum(list, c)
                        && ShareName(names, c, r.path)
      ensures ForMetadata(r.owner)
    {
      FileOfList(names, records, r, list, c);
    }
  }

  lemma RewrittenIsMetadata(rules: Rules, meta: Meta, names: Path -> set<string>, same: (Path, Path) -> bool,
                            records: seq<Record>, lists: set<Path>)
    requires AllLists(rules, meta, lists) && ListsAreMetadata(names, records, lists)
    requires Fits(names, same) && FoldsTogether(rules, same)
    ensures RewritesMetadata(rules, meta, same, records)
  {
    forall r, dir, id, c | r in records && !r.directory && Rewrites(rules, meta, dir, id)
                           && OrChecksum(ListPath(dir, id), c) && same(c, r.path)
      ensures ForMetadata(r.owner)
    {
      RewrittenIsListed(rules, meta, lists, dir, id);
      var other :| rules.fold(other) == rules.fold(id) && ListPath(dir, other) in lists;
      assert SameWithSums(same, ListPath(dir, other), ListPath(dir, id));
      var d := SameCounterpart(names, same, ListPath(dir, other), ListPath(dir, id), c, r.path);
    }
  }

  lemma SameCounterpart(names: Path -> set<string>, same: (Path, Path) -> bool, p: Path, q: Path, c: Path, file: Path)
    returns (d: Path)
    requires Fits(names, same) && SameWithSums(same, p, q) && OrChecksum(q, c) && same(c, file)
    ensures OrChecksum(p, d) && ShareName(names, d, file)
  {
    if c == q {
      d := p;
    } else {
      var k :| 0 <= k < |EXTENSIONS| && c == WithExtension(q, EXTENSIONS[k]);
      d := WithExtension(p, EXTENSIONS[k]);
    }
    assert same(d, c) && same(d, file);
  }

  // ----- what the export removes -----

  function KeptIds(rules: Rules, meta: Meta, artifact: (string, string)): set<string>
    requires artifact in meta.artifacts
  {
    set id | id in meta.artifacts[artifact].Keys + (meta.emptyIds - ListedIds(meta, artifact)) && rules.usable(id)
  }

  /**
   * The directories from which `write_metadata_blocking` removes metadata, with the ids whose
   * files it keeps there, and whether it compares whole names or ids.
   */
  ghost predicate Removes(rules: Rules, meta: Meta, dir: Path, keep: set<string>, whole: bool) {
    && !meta.shared
    && (|| (exists version ::
              && VersionIds(rules, meta, version) != {} && meta.replacesListings && !whole
              && dir == VersionDir(rules, version) && keep == VersionIds(rules, meta, version) + meta.emptyIds)
        || (exists version ::
              && version in meta.plainSnapshots && VersionIds(rules, meta, version) == {} && !whole
              && dir == VersionDir(rules, version) && keep == meta.emptyIds)
        || (exists artifact ::
              && artifact in meta.artifacts && dir == ArtifactDir(rules, artifact) && whole
              && keep == KeptIds(rules, meta, artifact)))
  }

  /** Every directory the export removes metadata from is one the plan counted as cleaned. */
  lemma RemovalIsPlanned(rules: Rules, meta: Meta, names: Path -> set<string>, lists: set<Path>, cleanup: set<string>,
                         dir: Path, keep: set<string>, whole: bool)
    requires Removes(rules, meta, dir, keep, whole) && PlacesDone(rules, names, Places(rules, meta), lists, cleanup)
    ensures names(dir) <= cleanup
  {
    var place := RemovalPlace(rules, meta, dir, keep, whole);
  }

  lemma RemovalPlace(rules: Rules, meta: Meta, dir: Path, keep: set<string>, whole: bool) returns (place: Place)
    requires Removes(rules, meta, dir, keep, whole)
    ensures place in Places(rules, meta) && place.cleaned && place.dir == dir
  {
    if whole {
      var artifact :| artifact in meta.artifacts && dir == ArtifactDir(rules, artifact);
      place := ArtifactPlace(rules, meta, artifact);
    } else {
      forall version | VersionIds(rules, meta, version) != {} ensures version in Versions(rules, meta) {
        ListedVersion(rules, meta, version);
      }
      var version :| && version in Versions(rules, meta) && dir == VersionDir(rules, version)
                     && (meta.replacesListings || VersionIds(rules, meta, version) == {});
      place := VersionPlace(rules, meta, version);
    }
  }

  predicate Alike(rules: Rules, whole: bool, a: string, b: string) {
    if whole then rules.lower(ListName(a)) == rules.lower(ListName(b)) else rules.lower(a) == rules.lower(b)
  }

  /** The list spelled with `id` is one that is kept under another spelling. */
  ghost predicate KeptAs(rules: Rules, same: (Path, Path) -> bool, dir: Path, keep: set<string>, whole: bool,
                         id: string) {
    exists other | other in keep :: Alike(rules, whole, id, other) && same(ListPath(dir, id), ListPath(dir, other))
  }

  /** Removing the list that `dir` spells with `id`, and its checksums, removes `file`. */
  ghost predicate Deletes(rules: Rules, meta: Meta, same: (Path, Path) -> bool, dir: Path, keep: set<string>,
                          whole: bool, id: string, c: Path, file: Path) {
    && Removes(rules, meta, dir, keep, whole) && id !in keep && !KeptAs(rules, same, dir, keep, whole, id)
    && OrChecksum(ListPath(dir, id), c) && same(c, file)
  }

  /**
   * When list files of one name have one name in lower case, the removal takes exactly the lists, with
   * their checksums, that are no kept list under any spelling.
   */
  lemma RemovedExactly(rules: Rules, meta: Meta, same: (Path, Path) -> bool, dir: Path, keep: set<string>, whole: bool,
                       id: string, c: Path)
    requires Removes(rules, meta, dir, keep, whole) && OrChecksum(ListPath(dir, id), c)
    requires forall p :: same(p, p)
    requires forall other | other in keep && same(ListPath(dir, id), ListPath(dir, other)) ::
               if whole then rules.lower(ListName(id)) == rules.lower(ListName(other))
               else rules.lower(id) == rules.lower(other)
    ensures Deletes(rules, meta, same, dir, keep, whole, id, c, c) <==>
            forall other | other in keep :: !same(ListPath(dir, id), ListPath(dir, other))
  {
    forall other | other in keep && same(ListPath(dir, id), ListPath(dir, other))
      ensures KeptAs(rules, same, dir, keep, whole, id)
    {
      assert Alike(rules, whole, id, other);
    }
  }

  /** The removal of other metadata can delete `file`, whatever spellings the directories hold. */
  ghost predicate CanDelete(rules: Rules, meta: Meta, same: (Path, Path) -> bool, file: Path) {
    exists dir, keep, whole, id, c :: Deletes(rules, meta, same, dir, keep, whole, id, c, file)
  }

  // ----- the check -----

  /** The name without the first of the four checksum extensions that it ends in. */
  function StripChecksum(name: string): string {
    if HasSuffix(name, ".md5") then name[..|name| - 4]
    else if HasSuffix(name, ".sha1") then name[..|name| - 5]
    else if HasSuffix(name, ".sha256") then name[..|name| - 7]
    else if HasSuffix(name, ".sha512") then name[..|name| - 7]
    else name
  }

  predicate IsListName(name: string) {
    "maven-metadata-" <= name && HasSuffix(name, ".xml")
  }

  /** The path is spelled as a list or a checksum of one. */
  predicate ListLike(path: Path) {
    path != [] && IsListName(StripChecksum(path[|path| - 1]))
  }

  function BasePath(path: Path): Path
    requires path != []
  {
    path[..|path| - 1] + [StripChecksum(path[|path| - 1])]
  }

  /** The last loop of `planned_destinations`: a claim spelled as metadata in a cleaned directory is metadata. */
  predicate Spared(names: Path -> set<string>, cleanup: set<string>, metadata: set<string>, path: Path) {
    ListLike(path) && (exists n | n in names(path[..|path| - 1]) :: n in cleanup) ==>
      exists n | n in names(BasePath(path)) :: n in metadata
  }

  /** The export removes other metadata from the directory. */
  ghost predicate IsCleaned(rules: Rules, meta: Meta, dir: Path) {
    exists keep, whole :: Removes(rules, meta, dir, keep, whole)
  }

  /** A path that is spelled as metadata, in a directory that is cleaned, and is no list of the plan. */
  ghost predicate Stray(rules: Rules, meta: Meta, names: Path -> set<string>, lists: set<Path>, path: Path) {
    && ListLike(path)
    && (exists dir :: IsCleaned(rules, meta, dir) && ShareName(names, path[..|path| - 1], dir))
    && forall list | list in lists :: !ShareName(names, BasePath(path), list)
  }

  lemma NotSparedIsStray(rules: Rules, meta: Meta, names: Path -> set<string>, lists: set<Path>, cleanup: set<string>,
                         metadata: set<string>, path: Path)
    requires PlacesDone(rules, names, Places(rules, meta), lists, cleanup) && metadata == NamesOf(names, lists)
    ensures Spared(names, cleanup, metadata, path) <==> !Stray(rules, meta, names, lists, path)
  {
    if ListLike(path) {
      CleanedDir(rules, meta, names, lists, cleanup, path[..|path| - 1]);
      NamedList(names, metadata, lists, BasePath(path));
    }
  }

  lemma CleanedDir(rules: Rules, meta: Meta, names: Path -> set<string>, lists: set<Path>, cleanup: set<string>,
                   dir: Path)
    requires PlacesDone(rules, names, Places(rules, meta), lists, cleanup)
    ensures (exists n | n in names(dir) :: n in cleanup) <==>
            exists other :: IsCleaned(rules, meta, other) && ShareName(names, dir, other)
  {
    if n :| n in names(dir) && n in cleanup {
      var place :| place in Places(rules, meta) && place.cleaned && n in names(place.dir);
      CleanedIsRemoved(rules, meta, place);
      assert ShareName(names, dir, place.dir);
    }
    if other :| IsCleaned(rules, meta, other) && ShareName(names, dir, other) {
      var keep, whole :| Removes(rules, meta, other, keep, whole);
      RemovalIsPlanned(rules, meta, names, lists, cleanup, other, keep, whole);
    }
  }

  /** What the planner counts as cleaned is a directory the writer removes metadata from. */
  lemma CleanedIsRemoved(rules: Rules, meta: Meta, place: Place)
    requires place in Places(rules, meta) && place.cleaned
    ensures IsCleaned(rules, meta, place.dir)
  {
    if place in ArtifactPlaces(rules, meta) {
      var artifact :| artifact in meta.artifacts && place == ArtifactPlace(rules, meta, artifact);
      assert Removes(rules, meta, place.dir, KeptIds(rules, meta, artifact), true);
    } else {
      var version :| version in Versions(rules, meta) && place == VersionPlace(rules, meta, version);
      VersionIdsAre(rules, meta, version);
      var ids := VersionIds(rules, meta, version);
      assert Removes(rules, meta, place.dir, if ids != {} then ids + meta.emptyIds else meta.emptyIds, false);
    }
  }

  lemma NamedList(names: Path -> set<string>, metadata: set<string>, lists: set<Path>, path: Path)
    requires metadata == NamesOf(names, lists)
    ensures (exists n | n in names(path) :: n in metadata) <==>
            exists list | list in lists :: ShareName(names, path, list)
  {
    if n :| n in names(path) && n in metadata {
      var list :| list in lists && n in names(list);
      assert ShareName(names, path, list);
    }
  }

  // ----- spellings -----

  lemma LastOf(name: string, end: string)
    requires end != ""
    ensures HasSuffix(name, end) ==> name != "" && name[|name| - 1] == end[|end| - 1]
  {
    if HasSuffix(name, end) {
      assert name[|name| - |end|..][|end| - 1] == name[|name| - 1];
    }
  }

  /** The four extensions end in different characters, so a name ends in at most one of them. */
  lemma StripEnd(name: string)
    requires name != ""
    ensures name[|name| - 1] !in "5162" ==> StripChecksum(name) == name
    ensures HasSuffix(name, ".md5") ==> StripChecksum(name) == name[..|name| - 4]
    ensures HasSuffix(name, ".sha1") ==> StripChecksum(name) == name[..|name| - 5]
    ensures HasSuffix(name, ".sha256") ==> StripChecksum(name) == name[..|name| - 7]
    ensures HasSuffix(name, ".sha512") ==> StripChecksum(name) == name[..|name| - 7]
  {
    LastOf(name, ".md5");
    LastOf(name, ".sha1");
    LastOf(name, ".sha256");
    LastOf(name, ".sha512");
  }

  lemma DottedExtension(k: nat)
    requires k < |EXTENSIONS|
    ensures var end := "." + EXTENSIONS[k]; end == ".md5" || end == ".sha1" || end == ".sha256" || end == ".sha512"
  {
    assert "." + "md5" == ".md5" && "." + "sha1" == ".sha1" && "." + "sha256" == ".sha256"
           && "." + "sha512" == ".sha512";
  }

  lemma StripJoined(base: string, end: string)
    requires end == ".md5" || end == ".sha1" || end == ".sha256" || end == ".sha512"
    ensures StripChecksum(base + end) == base
  {
    var name := base + end;
    assert name[|name| - |end|..] == end && name[..|name| - |end|] == base;
    StripEnd(name);
  }

  lemma StripSum(base: string, k: nat)
    requires k < |EXTENSIONS|
    ensures StripChecksum(base + "." + EXTENSIONS[k]) == base
  {
    DottedExtension(k);
    Regroup(base, ".", EXTENSIONS[k]);
    StripJoined(base, "." + EXTENSIONS[k]);
  }

  /** What is stripped off is a checksum extension. */
  lemma StripKeeps(name: string)
    ensures var base := StripChecksum(name);
            name == base || exists k | 0 <= k < |EXTENSIONS| :: name == base + "." + EXTENSIONS[k]
  {
    var base := StripChecksum(name);
    if name != base {
      var end := name[|base|..];
      assert name == base + end;
      SomeExtension(end);
      var k :| 0 <= k < |EXTENSIONS| && end == "." + EXTENSIONS[k];
      Regroup(base, ".", EXTENSIONS[k]);
    }
  }

  lemma SomeExtension(end: string)
    requires end == ".md5" || end == ".sha1" || end == ".sha256" || end == ".sha512"
    ensures exists k | 0 <= k < |EXTENSIONS| :: end == "." + EXTENSIONS[k]
  {
    assert "." + EXTENSIONS[0] == ".md5" && "." + EXTENSIONS[1] == ".sha1";
    assert "." + EXTENSIONS[2] == ".sha256" && "." + EXTENSIONS[3] == ".sha512";
  }

  lemma StripListName(id: string)
    ensures StripChecksum(ListName(id)) == ListName(id) && IsListName(ListName(id))
  {
    var name := ListName(id);
    assert name[|name| - 4..] == ".xml" && HasSuffix(name, ".xml");
    LastOf(name, ".xml");
    StripEnd(name);
  }

  /** Lists and their checksums are spelled as such. */
  lemma ListIsListLike(dir: Path, id: string, path: Path)
    requires OrChecksum(ListPath(dir, id), path)
    ensures ListLike(path) && path[..|path| - 1] == dir
  {
    var list := ListPath(dir, id);
    assert list[..|list| - 1] == dir && list[|list| - 1] == ListName(id);
    StripListName(id);
    if path != list {
      var k :| 0 <= k < |EXTENSIONS| && path == WithExtension(list, EXTENSIONS[k]);
      StripSum(ListName(id), k);
      assert path[..|path| - 1] == dir;
    }
  }

  lemma BaseOrChecksum(path: Path)
    requires path != []
    ensures BasePath(path) != [] && OrChecksum(BasePath(path), path)
  {
    var dir, name := path[..|path| - 1], path[|path| - 1];
    var base := BasePath(path);
    StripKeeps(name);
    assert path == dir + [name] && base[..|base| - 1] == dir && base[|base| - 1] == StripChecksum(name);
    if name != StripChecksum(name) {
      var k :| 0 <= k < |EXTENSIONS| && name == StripChecksum(name) + "." + EXTENSIONS[k];
      assert path == WithExtension(base, EXTENSIONS[k]);
    }
  }

  // ----- why cleaning is safe, and when it is not -----

  /** What `file` is to the list `q`, the list itself or a checksum, some path is to `p`. */
  lemma Counterpart(names: Path -> set<string>, p: Path, q: Path, file: Path) returns (c: Path)
    requires p != [] && q != [] && ShareName(names, p, q) && SharesWithSums(names, p, q) && OrChecksum(q, file)
    ensures OrChecksum(p, c) && ShareName(names, c, file)
  {
    if file == q {
      c := p;
    } else {
      var k :| 0 <= k < |EXTENSIONS| && file == WithExtension(q, EXTENSIONS[k]);
      c := WithExtension(p, EXTENSIONS[k]);
    }
  }

  /** A planned file that the check let stand in a cleaned directory, spelled as metadata, is a list's. */
  lemma SparedIsMetadata(names: Path -> set<string>, records: seq<Record>, cleanup: set<string>, metadata: set<string>,
                         lists: set<Path>, r: Record)
    requires AllSeparate(names, records) && SumsShare(names)
    requires AllClaimed(records, lists) && metadata == NamesOf(names, lists)
    requires r in records && !r.directory && ListLike(r.path) && Spared(names, cleanup, metadata, r.path)
    requires exists n | n in names(r.path[..|r.path| - 1]) :: n in cleanup
    ensures ForMetadata(r.owner)
  {
    var base := BasePath(r.path);
    BaseOrChecksum(r.path);
    NamedList(names, metadata, lists, base);
    var list :| list in lists && ShareName(names, base, list);
    assert ListClaimed(records, list) && ShareName(names, list, base) && IsXml(base);
    var c := Counterpart(names, list, base, r.path);
    FileOfList(names, records, r, list, c);
  }

  /** The claim behind a planned file carries its path. */
  lemma ClaimOfRecord(names: Path -> set<string>, claims: seq<DestinationClaim>, index: map<string, nat>,
                      records: seq<Record>, r: Record) returns (k: nat)
    requires Reflects(names, claims, index, records) && names(r.path) != {} && r in records && !r.directory
    requires NoFolding(names) || OwnersHaveOnePath(records)
    ensures k < |claims| && claims[k].path == r.path
  {
    var n :| n in names(r.path);
    k := index[n];
    assert Answers(claims[k], r) && Spelled(names, claims, index, records, k);
    var e, m :| e in records && SpelledBy(names, claims, index, k, e, m);
    assert Answers(claims[k], e);
    if NoFolding(names) {
      assert OneRule(names);
      assert m in names(r.path);
      assert ShareName(names, e.path, r.path);
    }
  }

  /** Everything is claimed and the check found nothing. */
  ghost predicate Accepted(rules: Rules, meta: Meta, names: Path -> set<string>, files: seq<PlannedFile>,
                           claims: seq<DestinationClaim>, index: map<string, nat>, records: seq<Record>,
                           lists: set<Path>, metadata: set<string>, cleanup: set<string>) {
    && (forall path :: names(path) != {}) && Reflects(names, claims, index, records)
    && AllPlanned(records, files, |files|) && AllAsked(records, AskedBy(rules, meta, files))
    && AllClaimed(records, lists) && metadata == NamesOf(names, lists)
    && PlacesDone(rules, names, Places(rules, meta), lists, cleanup)
    && AllSpared(names, claims, metadata, cleanup)
  }

  /** No file of a coordinate can be deleted. */
  ghost predicate NothingLost(rules: Rules, meta: Meta, same: (Path, Path) -> bool, files: seq<PlannedFile>) {
    forall path, owner | OfFiles(files, path, owner) :: !CanDelete(rules, meta, same, path)
  }

  /** Every file of a coordinate that is a removed list or checksum on the volume is spelled as one in the plan. */
  ghost predicate NoneDisguised(rules: Rules, meta: Meta, same: (Path, Path) -> bool, files: seq<PlannedFile>) {
    forall path, owner | OfFiles(files, path, owner) && CanDelete(rules, meta, same, path) :: ListLike(path)
  }

  /** What is deleted lies in a directory counted as cleaned. */
  lemma DeletedDir(rules: Rules, meta: Meta, names: Path -> set<string>, same: (Path, Path) -> bool, lists: set<Path>,
                   cleanup: set<string>, path: Path)
    requires PlacesDone(rules, names, Places(rules, meta), lists, cleanup) && Fits(names, same)
    requires CanDelete(rules, meta, same, path) && path != []
    ensures exists n | n in names(path[..|path| - 1]) :: n in cleanup
  {
    var dir, keep, whole, id, c :| Deletes(rules, meta, same, dir, keep, whole, id, c, path);
    RemovalIsPlanned(rules, meta, names, lists, cleanup, dir, keep, whole);
    ListIsListLike(dir, id, c);
    SameDir(names, same, c, path);
  }

  lemma SameDir(names: Path -> set<string>, same: (Path, Path) -> bool, c: Path, path: Path)
    requires Fits(names, same) && same(c, path) && c != [] && path != []
    ensures ShareName(names, c[..|c| - 1], path[..|path| - 1])
  {
    assert same(c[..|c| - 1], path[..|path| - 1]);
  }

  /** The check passed every claim. */
  ghost predicate AllSpared(names: Path -> set<string>, claims: seq<DestinationClaim>, metadata: set<string>,
                            cleanup: set<string>) {
    forall k | 0 <= k < |claims| :: Spared(names, cleanup, metadata, claims[k].path)
  }

  /** The file of a coordinate as it was claimed, with the check passed on its own path. */
  lemma CheckedFile(names: Path -> set<string>, files: seq<PlannedFile>, claims: seq<DestinationClaim>,
                    index: map<string, nat>, records: seq<Record>, metadata: set<string>, cleanup: set<string>,
                    path: Path, owner: Owner) returns (r: Record)
    requires Reflects(names, claims, index, records) && AllPlanned(records, files, |files|) && names(path) != {}
    requires AllSpared(names, claims, metadata, cleanup)
    requires (NoFolding(names) || OwnersHaveOnePath(records)) && OfFiles(files, path, owner)
    ensures r in records && !r.directory && r.path == path && r.owner == owner && Spared(names, cleanup, metadata, path)
  {
    PlannedIsFile(records, files, path, owner);
    var group :| DestinationClaim(path, owner, false, group) in records;
    r := DestinationClaim(path, owner, false, group);
    var k := ClaimOfRecord(names, claims, index, records, r);
  }

  /** A file that is spelled as metadata in a cleaned directory, and passed the check, is metadata. */
  lemma LookalikeIsList(names: Path -> set<string>, files: seq<PlannedFile>, claims: seq<DestinationClaim>,
                        index: map<string, nat>, records: seq<Record>, lists: set<Path>, metadata: set<string>,
                        cleanup: set<string>, path: Path, owner: Owner)
    requires Reflects(names, claims, index, records) && AllPlanned(records, files, |files|) && names(path) != {}
    requires AllSpared(names, claims, metadata, cleanup) && AllClaimed(records, lists)
             && metadata == NamesOf(names, lists)
    requires (NoFolding(names) || OwnersHaveOnePath(records)) && OfFiles(files, path, owner) && SumsShare(names)
    requires ListLike(path) && exists n | n in names(path[..|path| - 1]) :: n in cleanup
    ensures ForMetadata(owner)
  {
    var r := CheckedFile(names, files, claims, index, records, metadata, cleanup, path, owner);
    IndexedIsSeparate(names, claims, index, records);
    SparedIsMetadata(names, records, cleanup, metadata, lists, r);
  }

  /** A file of a coordinate that is spelled as metadata cannot be deleted: the check would have refused it. */
  lemma UndisguisedIsKept(rules: Rules, meta: Meta, names: Path -> set<string>, same: (Path, Path) -> bool,
                          files: seq<PlannedFile>, claims: seq<DestinationClaim>, index: map<string, nat>,
                          records: seq<Record>, lists: set<Path>, metadata: set<string>, cleanup: set<string>,
                          path: Path, owner: Owner)
    requires Accepted(rules, meta, names, files, claims, index, records, lists, metadata, cleanup)
    requires Fits(names, same) && SumsShare(names) && (NoFolding(names) || OwnersHaveOnePath(records))
    requires OfFiles(files, path, owner)
    ensures CanDelete(rules, meta, same, path) ==> !ListLike(path)
  {
    if CanDelete(rules, meta, same, path) && ListLike(path) {
      DeletedDir(rules, meta, names, same, lists, cleanup, path);
      LookalikeIsList(names, files, claims, index, records, lists, metadata, cleanup, path, owner);
      FileOwner(files, path, owner);
      assert false;
    }
  }

  /**
   * The cleanup of an accepted plan deletes no file of a coordinate on a volume that does not fold
   * names. On any other it deletes none exactly when none is a removed list under another spelling:
   * the check compares spellings.
   */
  lemma AcceptedIsSafe(rules: Rules, meta: Meta, names: Path -> set<string>, same: (Path, Path) -> bool,
                       files: seq<PlannedFile>, claims: seq<DestinationClaim>, index: map<string, nat>,
                       records: seq<Record>, lists: set<Path>, metadata: set<string>, cleanup: set<string>)
    requires Accepted(rules, meta, names, files, claims, index, records, lists, metadata, cleanup) && Fits(names, same)
    ensures NoFolding(names) ==> NothingLost(rules, meta, same, files)
    ensures SumsShare(names) && OnePathEach(files) && NoColons(rules, meta) ==>
              (NothingLost(rules, meta, same, files) <==> NoneDisguised(rules, meta, same, files))
  {
    if NoFolding(names) {
      UnfoldedSumsShare(names);
      Unfolded(rules, meta, names, same, files);
    }
    if OnePathEach(files) && NoColons(rules, meta) {
      OwnersAreOne(rules, meta, files, records);
    }
    if SumsShare(names) && (NoFolding(names) || (OnePathEach(files) && NoColons(rules, meta))) {
      forall path, owner | OfFiles(files, path, owner)
        ensures CanDelete(rules, meta, same, path) ==> !ListLike(path)
      {
        UndisguisedIsKept(rules, meta, names, same, files, claims, index, records, lists, metadata, cleanup, path,
                          owner);
      }
    }
  }

  lemma DeletedListLike(rules: Rules, meta: Meta, names: Path -> set<string>, same: (Path, Path) -> bool, path: Path)
    requires NoFolding(names) && Fits(names, same) && CanDelete(rules, meta, same, path)
    ensures ListLike(path)
  {
    var dir, keep, whole, id, c :| Deletes(rules, meta, same, dir, keep, whole, id, c, path);
    assert ShareName(names, c, path);
    ListIsListLike(dir, id, c);
  }

  lemma Unfolded(rules: Rules, meta: Meta, names: Path -> set<string>, same: (Path, Path) -> bool,
                 files: seq<PlannedFile>)
    requires NoFolding(names) && Fits(names, same)
    ensures NoneDisguised(rules, meta, same, files)
  {
    forall path, owner | OfFiles(files, path, owner) && CanDelete(rules, meta, same, path) ensures ListLike(path) {
      DeletedListLike(rules, meta, names, same, path);
    }
  }
}
