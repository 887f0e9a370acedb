/**
 * What one export asks of its destination (`rv-export/src/export.rs`, `planned_destinations`): the
 * files of every coordinate with their checksums and marker files, and the metadata lists of
 * every artifact and snapshot version with their checksums.
 */
module DestinationPlan {
  import opened Prelude
  import opened DestinationClaims

  // ----- file names -----

  const MARKERS: string := "_remote.repositories"

  const EXTENSIONS: seq<string> := ["md5", "sha1", "sha256", "sha512"]

  function ListName(id: string): string {
    "maven-metadata-" + id + ".xml"
  }

  function ListPath(dir: Path, id: string): (path: Path)
    ensures path != []
  {
    dir + [ListName(id)]
  }

  function WithExtension(path: Path, extension: string): (sum: Path)
    requires path != []
    ensures sum != []
  {
    path[..|path| - 1] + [path[|path| - 1] + "." + extension]
  }

  predicate IsXml(path: Path) {
    path != [] && HasSuffix(path[|path| - 1], ".xml")
  }

  lemma ListIsXml(dir: Path, id: string)
    ensures IsXml(ListPath(dir, id))
  {
    var name := ListName(id);
    assert name[|name| - 4..] == ".xml";
  }

  /** `path` or one of its checksums: what `remove_metadata_file` removes. */
  ghost predicate OrChecksum(path: Path, file: Path)
    requires path != []
  {
    file == path || exists k | 0 <= k < |EXTENSIONS| :: file == WithExtension(path, EXTENSIONS[k])
  }

  // ----- the files of the coordinates -----

  datatype PlannedFile = PlannedFile(coordinate: string, path: Path, depth: nat, marked: bool)

  /** `path` is one of the four files of an exported coordinate, and `owner` what it is claimed for. */
  predicate OfFile(file: PlannedFile, path: Path, owner: Owner) {
    && file.path != []
    && (|| (path == file.path && owner == Artifact(file.coordinate))
        || (path == WithExtension(file.path, "sha1") && owner == Checksum(Artifact(file.coordinate), "sha1"))
        || (path == WithExtension(file.path, "sha256") && owner == Checksum(Artifact(file.coordinate), "sha256"))
        || (var dir := file.path[..|file.path| - 1];
            file.marked && path == dir + [MARKERS] && owner == Markers(dir)))
  }

  ghost predicate OfFiles(files: seq<PlannedFile>, path: Path, owner: Owner) {
    exists i | 0 <= i < |files| :: OfFile(files[i], path, owner)
  }

  /** The files of a coordinate are claimed, each with every directory on its way. */
  ghost predicate Planned(records: seq<Record>, file: PlannedFile) {
    forall path, owner | OfFile(file, path, owner) :: Contains(records, FileRecords(path, owner, file.depth))
  }

  ghost predicate AllPlanned(records: seq<Record>, files: seq<PlannedFile>, n: nat)
    requires n <= |files|
  {
    forall i | 0 <= i < n :: Planned(records, files[i])
  }

  lemma NowPlanned(first: seq<Record>, second: seq<Record>, third: seq<Record>, all: seq<Record>, file: PlannedFile)
    requires first <= second <= third <= all && file.path != []
    requires Contains(first, FileRecords(file.path, Artifact(file.coordinate), file.depth))
    requires var sum := WithExtension(file.path, "sha1");
             Contains(second, FileRecords(sum, Checksum(Artifact(file.coordinate), "sha1"), file.depth))
    requires var sum := WithExtension(file.path, "sha256");
             Contains(third, FileRecords(sum, Checksum(Artifact(file.coordinate), "sha256"), file.depth))
    requires var dir := file.path[..|file.path| - 1];
             file.marked ==> Contains(all, FileRecords(dir + [MARKERS], Markers(dir), file.depth))
    ensures Planned(all, file)
  {
    forall path, owner | OfFile(file, path, owner) ensures Contains(all, FileRecords(path, owner, file.depth)) {
      assert forall r | r in first || r in second || r in third :: r in all;
    }
  }

  lemma StillPlanned(records: seq<Record>, longer: seq<Record>, files: seq<PlannedFile>, n: nat)
    requires n <= |files| && records <= longer && AllPlanned(records, files, n)
    ensures AllPlanned(longer, files, n)
  {
    forall i, path, owner | 0 <= i < n && OfFile(files[i], path, owner)
      ensures Contains(longer, FileRecords(path, owner, files[i].depth))
    {
      assert Planned(records, files[i]);
      assert Contains(records, FileRecords(path, owner, files[i].depth));
      assert forall r | r in records :: r in longer;
    }
  }

  lemma PlannedIsFile(records: seq<Record>, files: seq<PlannedFile>, path: Path, owner: Owner)
    requires AllPlanned(records, files, |files|) && OfFiles(files, path, owner)
    ensures HasFile(records, path, owner)
  {
    var i :| 0 <= i < |files| && OfFile(files[i], path, owner);
    assert Planned(records, files[i]);
    FileIsRecorded(records, path, owner, files[i].depth);
  }

  // ----- the metadata of one export -----

  /** Which repository ids can name a metadata file, what ids fold to, and where a group lies. */
  datatype Rules = Rules(usable: string -> bool, fold: string -> string, lower: string -> string,
                         groupPath: string -> Path)

  /**
   * `MetadataAccumulator`: the ids of each artifact's version lists with whether a list names a
   * version, and the ids of each snapshot's lists with whether a list names a build.
   */
  datatype Meta = Meta(
    artifacts: map<(string, string), map<string, bool>>,
    snapshots: map<(string, string, string, string), bool>,
    plainSnapshots: set<(string, string, string)>,
    replacesListings: bool,
    emptyIds: set<string>,
    shared: bool)

  function ArtifactDir(rules: Rules, artifact: (string, string)): Path {
    rules.groupPath(artifact.0) + [artifact.1]
  }

  function VersionDir(rules: Rules, version: (string, string, string)): Path {
    rules.groupPath(version.0) + [version.1, version.2]
  }

  function ListedIds(meta: Meta, artifact: (string, string)): set<string>
    requires artifact in meta.artifacts
  {
    set id | id in meta.artifacts[artifact] && meta.artifacts[artifact][id]
  }

  /** The ids under which a build of the snapshot is listed. */
  function VersionIds(rules: Rules, meta: Meta, version: (string, string, string)): set<string> {
    set key | key in meta.snapshots && meta.snapshots[key] && rules.usable(key.3) && (key.0, key.1, key.2) == version ::
      key.3
  }

  function Versions(rules: Rules, meta: Meta): set<(string, string, string)> {
    (set key | key in meta.snapshots && meta.snapshots[key] && rules.usable(key.3) :: (key.0, key.1, key.2)) +
    (if meta.shared then {} else meta.plainSnapshots)
  }

  lemma ListedVersion(rules: Rules, meta: Meta, version: (string, string, string))
    requires VersionIds(rules, meta, version) != {}
    ensures version in Versions(rules, meta)
  {
    var id :| id in VersionIds(rules, meta, version);
  }

  // ----- the lists an export needs -----

  /** A directory that has lists: an artifact's, or a snapshot version's, with its coordinate. */
  datatype Home = ArtifactHome(artifact: (string, string)) | VersionHome(version: (string, string, string))

  function HomeDir(rules: Rules, home: Home): Path {
    match home
    case ArtifactHome(artifact) => ArtifactDir(rules, artifact)
    case VersionHome(version) => VersionDir(rules, version)
  }

  function HomeText(home: Home): string {
    match home
    case ArtifactHome(artifact) => artifact.0 + ":" + artifact.1
    case VersionHome(version) => version.0 + ":" + (version.1 + ":" + version.2)
  }

  function HomeDepth(rules: Rules, home: Home): nat {
    |rules.groupPath(match home case ArtifactHome(artifact) => artifact.0 case VersionHome(version) => version.0)|
  }

  /** The export lists a version of the artifact, or a build of the snapshot, under `id`. */
  predicate ListsUnder(meta: Meta, home: Home, id: string) {
    match home
    case ArtifactHome(artifact) =>
      artifact in meta.artifacts && id in meta.artifacts[artifact] && meta.artifacts[artifact][id]
    case VersionHome(version) =>
      var key := (version.0, version.1, version.2, id);
      key in meta.snapshots && meta.snapshots[key]
  }

  /** The export lists something in the directory. */
  ghost predicate HasBuild(rules: Rules, meta: Meta, version: (string, string, string)) {
    exists id :: ListsUnder(meta, VersionHome(version), id) && rules.usable(id)
  }

  /**
   * The directories the export is about: those of all artifacts, those of the versions it lists a
   * build of, and those of plain snapshots in a repository that is not shared.
   */
  ghost predicate IsHome(rules: Rules, meta: Meta, home: Home) {
    match home
    case ArtifactHome(artifact) => artifact in meta.artifacts
    case VersionHome(version) => HasBuild(rules, meta, version) || (!meta.shared && version in meta.plainSnapshots)
  }

  /** The ids that get an empty list there: only a main pass writes them into version directories. */
  predicate EmptyUnder(meta: Meta, home: Home, id: string) {
    id in meta.emptyIds && (home.VersionHome? ==> meta.replacesListings && !meta.shared)
  }

  /** The list the export must write in the directory under `id`, and what it is claimed for. */
  ghost predicate NeedsList(rules: Rules, meta: Meta, home: Home, id: string, owner: Owner) {
    && IsHome(rules, meta, home)
    && (|| (ListsUnder(meta, home, id) && rules.usable(id) && owner == Listing(HomeText(home), id))
        || (EmptyUnder(meta, home, id) && owner == EmptyListing(HomeText(home), id)))
  }

  /** An empty list gives way to one that lists something under an id that folds alike. */
  ghost predicate GivesWay(rules: Rules, meta: Meta, home: Home, id: string) {
    exists other :: ListsUnder(meta, home, other) && rules.usable(other) && rules.fold(other) == rules.fold(id)
  }

  /** The list of `id` is asked for. */
  ghost predicate AskedList(rules: Rules, meta: Meta, home: Home, id: string, owner: Owner) {
    NeedsList(rules, meta, home, id, owner) && (owner.EmptyListing? ==> !GivesWay(rules, meta, home, id))
  }

  // ----- the places of lists -----

  /**
   * A directory with metadata lists: the ids that list something there, those that get an empty
   * list, and whether other lists are removed.
   */
  datatype Place = Place(dir: Path, depth: nat, coordinate: string, listed: set<string>, empty: set<string>,
                         cleaned: bool)

  function ArtifactPlace(rules: Rules, meta: Meta, artifact: (string, string)): Place
    requires artifact in meta.artifacts
  {
    Place(ArtifactDir(rules, artifact), |rules.groupPath(artifact.0)|, artifact.0 + ":" + artifact.1,
          ListedIds(meta, artifact), meta.emptyIds, !meta.shared)
  }

  function VersionPlace(rules: Rules, meta: Meta, version: (string, string, string)): Place {
    var ids := VersionIds(rules, meta, version);
    Place(VersionDir(rules, version), |rules.groupPath(version.0)|, version.0 + ":" + (version.1 + ":" + version.2),
          ids, if meta.replacesListings && !meta.shared then meta.emptyIds else {},
          !meta.shared && (meta.replacesListings || ids == {}))
  }

  function ArtifactPlaces(rules: Rules, meta: Meta): set<Place> {
    set artifact | artifact in meta.artifacts :: ArtifactPlace(rules, meta, artifact)
  }

  function VersionPlaces(rules: Rules, meta: Meta): set<Place> {
    set version | version in Versions(rules, meta) :: VersionPlace(rules, meta, version)
  }

  function Places(rules: Rules, meta: Meta): set<Place> {
    ArtifactPlaces(rules, meta) + VersionPlaces(rules, meta)
  }

  /** The place of lists that a directory is. */
  ghost predicate IsPlaceOf(rules: Rules, meta: Meta, place: Place, home: Home) {
    && IsHome(rules, meta, home) && place.dir == HomeDir(rules, home) && place.depth == HomeDepth(rules, home)
    && place.coordinate == HomeText(home)
    && (forall id :: id in place.listed && rules.usable(id) <==> ListsUnder(meta, home, id) && rules.usable(id))
    && (forall id :: id in place.empty <==> EmptyUnder(meta, home, id))
  }

  lemma VersionIdsAre(rules: Rules, meta: Meta, version: (string, string, string))
    ensures forall id :: id in VersionIds(rules, meta, version) <==>
                         ListsUnder(meta, VersionHome(version), id) && rules.usable(id)
    ensures VersionIds(rules, meta, version) != {} <==> HasBuild(rules, meta, version)
    ensures version in Versions(rules, meta) <==> IsHome(rules, meta, VersionHome(version))
  {
    forall id | ListsUnder(meta, VersionHome(version), id) && rules.usable(id)
      ensures id in VersionIds(rules, meta, version) && version in Versions(rules, meta)
    {
      var key := (version.0, version.1, version.2, id);
      assert key in meta.snapshots && meta.snapshots[key] && rules.usable(key.3) && (key.0, key.1, key.2) == version;
    }
    if VersionIds(rules, meta, version) != {} {
      var id :| id in VersionIds(rules, meta, version);
    }
    if version in Versions(rules, meta) && !(!meta.shared && version in meta.plainSnapshots) {
      var key :| && key in meta.snapshots && meta.snapshots[key] && rules.usable(key.3)
                 && (key.0, key.1, key.2) == version;
      assert ListsUnder(meta, VersionHome(version), key.3);
    }
  }

  /** Every place the planner goes through is a directory the export is about. */
  lemma PlaceHome(rules: Rules, meta: Meta, place: Place) returns (home: Home)
    requires place in Places(rules, meta)
    ensures IsPlaceOf(rules, meta, place, home)
  {
    if place in ArtifactPlaces(rules, meta) {
      var artifact :| artifact in meta.artifacts && place == ArtifactPlace(rules, meta, artifact);
      home := ArtifactHome(artifact);
    } else {
      var version :| version in Versions(rules, meta) && place == VersionPlace(rules, meta, version);
      VersionIdsAre(rules, meta, version);
      home := VersionHome(version);
    }
  }

  /** The planner goes through every directory the export is about. */
  lemma HomePlace(rules: Rules, meta: Meta, home: Home) returns (place: Place)
    requires IsHome(rules, meta, home)
    ensures place in Places(rules, meta) && IsPlaceOf(rules, meta, place, home)
  {
    match home
    case ArtifactHome(artifact) =>
      place := ArtifactPlace(rules, meta, artifact);
    case VersionHome(version) =>
      VersionIdsAre(rules, meta, version);
      place := VersionPlace(rules, meta, version);
  }

  /** A file of the list of `id`: the list or one of its checksums. */
  ghost predicate OfList(dir: Path, id: string, list: Owner, path: Path, owner: Owner) {
    || (path == ListPath(dir, id) && owner == list)
    || (&& owner.Checksum? && owner.of == list && owner.extension in EXTENSIONS
        && path == WithExtension(ListPath(dir, id), owner.extension))
  }

  /** What the planner asks for in a place: lists that name something, and empty ones that fold to none of them. */
  ghost predicate PlaceList(rules: Rules, place: Place, id: string, owner: Owner) {
    || (id in place.listed && rules.usable(id) && owner == Listing(place.coordinate, id))
    || (&& id in place.empty && owner == EmptyListing(place.coordinate, id)
        && forall other | other in place.listed && rules.usable(other) :: rules.fold(other) != rules.fold(id))
  }

  ghost predicate OfPlace(rules: Rules, place: Place, path: Path, owner: Owner) {
    exists id, list :: PlaceList(rules, place, id, list) && OfList(place.dir, id, list, path, owner)
  }

  ghost predicate OfHome(rules: Rules, meta: Meta, home: Home, path: Path, owner: Owner) {
    exists id, list :: AskedList(rules, meta, home, id, list) && OfList(HomeDir(rules, home), id, list, path, owner)
  }

  lemma PlaceListIsAsked(rules: Rules, meta: Meta, place: Place, home: Home, id: string, owner: Owner)
    requires IsPlaceOf(rules, meta, place, home) && PlaceList(rules, place, id, owner)
    ensures AskedList(rules, meta, home, id, owner)
  {
  }

  // ----- everything asked for -----

  ghost predicate AskedFile(rules: Rules, meta: Meta, files: seq<PlannedFile>, path: Path, owner: Owner, depth: nat) {
    || (exists i | 0 <= i < |files| :: OfFile(files[i], path, owner) && depth == files[i].depth)
    || (exists home :: OfHome(rules, meta, home, path, owner) && depth == HomeDepth(rules, home))
  }

  ghost predicate Asked(rules: Rules, meta: Meta, files: seq<PlannedFile>, r: Record) {
    exists path, owner, depth ::
      AskedFile(rules, meta, files, path, owner, depth) && r in FileRecords(path, owner, depth)
  }

  ghost function AskedBy(rules: Rules, meta: Meta, files: seq<PlannedFile>): Record -> bool {
    r => Asked(rules, meta, files, r)
  }

  /** All files of the place are among what is asked for. */
  ghost predicate AsksPlace(rules: Rules, place: Place, asked: Record -> bool) {
    forall path, owner | OfPlace(rules, place, path, owner) :: AllAsked(FileRecords(path, owner, place.depth), asked)
  }

  ghost predicate AsksFile(file: PlannedFile, asked: Record -> bool) {
    forall path, owner | OfFile(file, path, owner) :: AllAsked(FileRecords(path, owner, file.depth), asked)
  }

  lemma PlaceIsAsked(rules: Rules, meta: Meta, files: seq<PlannedFile>, place: Place)
    requires place in Places(rules, meta)
    ensures AsksPlace(rules, place, AskedBy(rules, meta, files))
  {
    var asked := AskedBy(rules, meta, files);
    var home := PlaceHome(rules, meta, place);
    forall path, owner | OfPlace(rules, place, path, owner)
      ensures AllAsked(FileRecords(path, owner, place.depth), asked)
    {
      var id, list :| PlaceList(rules, place, id, list) && OfList(place.dir, id, list, path, owner);
      PlaceListIsAsked(rules, meta, place, home, id, list);
      assert OfHome(rules, meta, home, path, owner);
      assert AskedFile(rules, meta, files, path, owner, place.depth);
    }
  }

  lemma FileIsAsked(rules: Rules, meta: Meta, files: seq<PlannedFile>, i: nat)
    requires i < |files|
    ensures AsksFile(files[i], AskedBy(rules, meta, files))
  {
    var asked := AskedBy(rules, meta, files);
    forall path, owner | OfFile(files[i], path, owner)
      ensures AllAsked(FileRecords(path, owner, files[i].depth), asked)
    {
      assert AskedFile(rules, meta, files, path, owner, files[i].depth);
    }
  }

  // ----- one path for each owner -----

  /** A coordinate has one path. */
  ghost predicate OnePathEach(files: seq<PlannedFile>) {
    forall i, j | 0 <= i < |files| && 0 <= j < |files| && files[i].coordinate == files[j].coordinate ::
      files[i].path == files[j].path
  }

  predicate ColonFree(home: Home) {
    match home
    case ArtifactHome(artifact) => ':' !in artifact.0 && ':' !in artifact.1
    case VersionHome(version) => ':' !in version.0 && ':' !in version.1
  }

  /** No group or artifact holds a colon, as the source checks of every coordinate. */
  ghost predicate NoColons(rules: Rules, meta: Meta) {
    forall home | IsHome(rules, meta, home) :: ColonFree(home)
  }

  lemma FirstColon(a: string, b: string)
    requires ':' !in a
    ensures FindChar(a + ":" + b, ':') == Some(|a|)
  {
    var text := a + ":" + b;
    assert text[|a|] == ':' && forall k | 0 <= k < |a| :: text[k] == a[k] && a[k] in a;
  }

  /** The text before the first colon and the text behind it are determined. */
  lemma SplitAtColon(a: string, b: string, c: string, d: string)
    requires ':' !in a && ':' !in c && a + ":" + b == c + ":" + d
    ensures a == c && b == d
  {
    FirstColon(a, b);
    FirstColon(c, d);
    assert a == (a + ":" + b)[..|a|] && b == (a + ":" + b)[|a| + 1..];
    assert c == (c + ":" + d)[..|c|] && d == (c + ":" + d)[|c| + 1..];
  }

  lemma ColonInside(a: string, b: string)
    ensures ':' in a + ":" + b
  {
    assert (a + ":" + b)[|a|] == ':';
  }

  /** The coordinate text of a directory tells the directory. */
  lemma OneHomeEach(a: Home, b: Home)
    requires ColonFree(a) && ColonFree(b)
    ensures HomeText(a) == HomeText(b) ==> a == b
  {
    if HomeText(a) == HomeText(b) {
      match (a, b)
      case (ArtifactHome(p), ArtifactHome(q)) => SplitAtColon(p.0, p.1, q.0, q.1);
      case (VersionHome(p), VersionHome(q)) =>
        SplitAtColon(p.0, p.1 + ":" + p.2, q.0, q.1 + ":" + q.2);
        SplitAtColon(p.1, p.2, q.1, q.2);
      case (ArtifactHome(p), VersionHome(q)) => NotBoth(p, q);
      case (VersionHome(q), ArtifactHome(p)) => NotBoth(p, q);
    }
  }

  lemma NotBoth(p: (string, string), q: (string, string, string))
    requires ColonFree(ArtifactHome(p)) && ColonFree(VersionHome(q))
    ensures HomeText(ArtifactHome(p)) != HomeText(VersionHome(q))
  {
    ColonInside(q.1, q.2);
    if HomeText(ArtifactHome(p)) == HomeText(VersionHome(q)) {
      SplitAtColon(p.0, p.1, q.0, q.1 + ":" + q.2);
    }
  }

  /** Files with one owner have one path. */
  ghost predicate OwnersHaveOnePath(records: seq<Record>) {
    forall r, s | r in records && s in records && !r.directory && !s.directory && r.owner == s.owner :: r.path == s.path
  }

  predicate ForMetadata(owner: Owner) {
    owner.Listing? || owner.EmptyListing? || (owner.Checksum? && (owner.of.Listing? || owner.of.EmptyListing?))
  }

  lemma FileOwner(files: seq<PlannedFile>, path: Path, owner: Owner)
    ensures OfFiles(files, path, owner) ==> !ForMetadata(owner)
  {
  }

  lemma ListOwner(rules: Rules, meta: Meta, home: Home, path: Path, owner: Owner)
    ensures OfHome(rules, meta, home, path, owner) ==> ForMetadata(owner)
  {
  }

  /** A file is asked for by a directory of lists or with a coordinate, as its owner tells. */
  lemma AskedPath(rules: Rules, meta: Meta, files: seq<PlannedFile>, r: Record)
    requires Asked(rules, meta, files, r) && !r.directory
    ensures if ForMetadata(r.owner) then exists home :: OfHome(rules, meta, home, r.path, r.owner)
            else OfFiles(files, r.path, r.owner)
  {
    var path, owner, depth :| AskedFile(rules, meta, files, path, owner, depth) && r in FileRecords(path, owner, depth);
    assert path[..|path|] == path;
    FileOwner(files, path, owner);
    if home :| OfHome(rules, meta, home, path, owner) && depth == HomeDepth(rules, home) {
      ListOwner(rules, meta, home, path, owner);
    }
  }

  lemma OneFilePath(files: seq<PlannedFile>, p: Path, q: Path, owner: Owner)
    requires OnePathEach(files) && OfFiles(files, p, owner) && OfFiles(files, q, owner)
    ensures p == q
  {
    var i :| 0 <= i < |files| && OfFile(files[i], p, owner);
    var j :| 0 <= j < |files| && OfFile(files[j], q, owner);
  }

  function ListOwnerOf(owner: Owner): Owner {
    if owner.Checksum? then owner.of else owner
  }

  function ListFile(dir: Path, id: string, owner: Owner): Path {
    if owner.Checksum? then WithExtension(ListPath(dir, id), owner.extension) else ListPath(dir, id)
  }

  /** The list and its path are told by the owner of any of its files. */
  lemma ListOfFile(rules: Rules, meta: Meta, home: Home, path: Path, owner: Owner) returns (id: string)
    requires OfHome(rules, meta, home, path, owner)
    ensures AskedList(rules, meta, home, id, ListOwnerOf(owner)) && path == ListFile(HomeDir(rules, home), id, owner)
  {
    var i, list :| AskedList(rules, meta, home, i, list) && OfList(HomeDir(rules, home), i, list, path, owner);
    id := i;
  }

  lemma OneListPath(rules: Rules, meta: Meta, p: Path, q: Path, owner: Owner, a: Home, b: Home)
    requires NoColons(rules, meta) && OfHome(rules, meta, a, p, owner) && OfHome(rules, meta, b, q, owner)
    ensures p == q
  {
    var id := ListOfFile(rules, meta, a, p, owner);
    var other := ListOfFile(rules, meta, b, q, owner);
    OneHomeEach(a, b);
  }

  /** The inputs of a plan give each owner one path. */
  lemma OwnersAreOne(rules: Rules, meta: Meta, files: seq<PlannedFile>, records: seq<Record>)
    requires OnePathEach(files) && NoColons(rules, meta) && AllAsked(records, AskedBy(rules, meta, files))
    ensures OwnersHaveOnePath(records)
  {
    forall r, s | r in records && s in records && !r.directory && !s.directory && r.owner == s.owner
      ensures r.path == s.path
    {
      AskedPath(rules, meta, files, r);
      AskedPath(rules, meta, files, s);
      if ForMetadata(r.owner) {
        var a :| OfHome(rules, meta, a, r.path, r.owner);
        var b :| OfHome(rules, meta, b, s.path, s.owner);
        OneListPath(rules, meta, r.path, s.path, r.owner, a, b);
      } else {
        OneFilePath(files, r.path, s.path, r.owner);
      }
    }
  }

  // ----- which lists are claimed -----

  /** A metadata file is claimed for a list, and its checksums for that list's checksums. */
  ghost predicate ListClaimed(records: seq<Record>, path: Path) {
    IsXml(path) && exists owner: Owner ::
      && (owner.Listing? || owner.EmptyListing?) && HasFile(records, path, owner)
      && forall k | 0 <= k < |EXTENSIONS| ::
           HasFile(records, WithExtension(path, EXTENSIONS[k]), Checksum(owner, EXTENSIONS[k]))
  }

  ghost predicate AllClaimed(records: seq<Record>, lists: set<Path>) {
    forall path | path in lists :: ListClaimed(records, path)
  }

  lemma ClaimedMore(records: seq<Record>, longer: seq<Record>, lists: set<Path>, path: Path, owner: Owner)
    requires records <= longer && AllClaimed(records, lists)
    requires IsXml(path) && (owner.Listing? || owner.EmptyListing?) && HasFile(longer, path, owner)
    requires forall k | 0 <= k < |EXTENSIONS| ::
               HasFile(longer, WithExtension(path, EXTENSIONS[k]), Checksum(owner, EXTENSIONS[k]))
    ensures AllClaimed(longer, lists + {path})
  {
    forall p | p in lists + {path} ensures ListClaimed(longer, p) {
      if p in lists {
        ClaimedLater(records, longer, p);
      }
    }
  }

  lemma ClaimedLater(records: seq<Record>, longer: seq<Record>, path: Path)
    requires records <= longer && ListClaimed(records, path)
    ensures ListClaimed(longer, path)
  {
  }

  /** The names of all `lists`. */
  ghost function NamesOf(names: Path -> set<string>, lists: set<Path>): set<string> {
    set path, n | path in lists && n in names(path) :: n
  }

  lemma NamesOfMore(names: Path -> set<string>, lists: set<Path>, path: Path)
    ensures NamesOf(names, lists + {path}) == NamesOf(names, lists) + names(path)
  {
  }

  ghost predicate AllListed(rules: Rules, dir: Path, ids: set<string>, lists: set<Path>) {
    forall id | id in ids && rules.usable(id) :: ListPath(dir, id) in lists
  }

  /** Some list in `dir` has an id that folds to `name`. */
  ghost predicate Folded(rules: Rules, dir: Path, name: string, lists: set<Path>) {
    exists id :: rules.fold(id) == name && ListPath(dir, id) in lists
  }

  ghost predicate AllFolded(rules: Rules, dir: Path, written: set<string>, lists: set<Path>) {
    forall name | name in written :: Folded(rules, dir, name, lists)
  }

  /** Every usable listed id has its list, and every empty one a list under an id that folds alike. */
  ghost predicate ListsFor(rules: Rules, place: Place, lists: set<Path>) {
    && AllListed(rules, place.dir, place.listed, lists)
    && forall id | id in place.empty :: Folded(rules, place.dir, rules.fold(id), lists)
  }

  lemma FoldedMore(rules: Rules, dir: Path, written: set<string>, before: set<Path>, after: set<Path>, id: string)
    requires AllFolded(rules, dir, written, before) && after == before + {ListPath(dir, id)}
    ensures AllFolded(rules, dir, written + {rules.fold(id)}, after)
  {
    forall name | name in written + {rules.fold(id)} ensures Folded(rules, dir, name, after) {
      if name in written {
        var other :| rules.fold(other) == name && ListPath(dir, other) in before;
        assert ListPath(dir, other) in after;
      } else {
        assert ListPath(dir, id) in after;
      }
    }
  }

  lemma ListsForLater(rules: Rules, place: Place, lists: set<Path>, more: set<Path>)
    requires ListsFor(rules, place, lists) && lists <= more
    ensures ListsFor(rules, place, more)
  {
    forall id | id in place.empty ensures Folded(rules, place.dir, rules.fold(id), more) {
      assert Folded(rules, place.dir, rules.fold(id), lists);
    }
  }

  /** The names of the directories that are cleaned. */
  ghost function CleanedNames(names: Path -> set<string>, places: set<Place>): set<string> {
    set place, n | place in places && place.cleaned && n in names(place.dir) :: n
  }

  /** The lists of all `places` are claimed, and the names of the cleaned ones, and only these, are counted. */
  ghost predicate PlacesDone(rules: Rules, names: Path -> set<string>, places: set<Place>, lists: set<Path>,
                             cleanup: set<string>) {
    (forall place | place in places :: ListsFor(rules, place, lists)) && cleanup == CleanedNames(names, places)
  }

  lemma PlacesMore(rules: Rules, names: Path -> set<string>, places: set<Place>, lists: set<Path>, cleanup: set<string>,
                   more: set<Path>, place: Place)
    requires PlacesDone(rules, names, places, lists, cleanup) && lists <= more && ListsFor(rules, place, more)
    ensures PlacesDone(rules, names, places + {place}, more, cleanup + if place.cleaned then names(place.dir) else {})
  {
    forall p | p in places + {place} ensures ListsFor(rules, p, more) {
      if p in places {
        ListsForLater(rules, p, lists, more);
      }
    }
    CleanedMore(names, places, place);
  }

  lemma CleanedMore(names: Path -> set<string>, places: set<Place>, place: Place)
    ensures CleanedNames(names, places + {place}) ==
            CleanedNames(names, places) + if place.cleaned then names(place.dir) else {}
  {
  }
}
