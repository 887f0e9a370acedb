/**
 * Whether any two planned files or directories can land on one name of the destination volume
 * (`rv-export/src/export.rs`, `DestinationPaths`).
 *
 * A path is the sequence of its components. `names` gives every name a path may take on the
 * volume; it is an arbitrary function to non-empty sets, so what is proved holds for every
 * folding rule. Sharing a name is not transitive, and one claim stands for many paths.
 */
module DestinationClaims {
  import opened Prelude

  type Path = seq<string>

  /** What a file is claimed for. The source builds a distinct text for each. */
  datatype Owner =
    | Artifact(coordinate: string)
    | Markers(dir: Path)
    | Listing(coordinate: string, id: string)
    | EmptyListing(coordinate: string, id: string)
    | Checksum(of: Owner, extension: string)

  datatype DestinationClaim = DestinationClaim(path: Path, owner: Owner, directory: bool, group: bool)

  /** One request made of `claim`; a claim may answer for several. */
  type Record = DestinationClaim

  // ----- conflicts -----

  ghost predicate ShareName(names: Path -> set<string>, a: Path, b: Path) {
    exists n :: n in names(a) && n in names(b)
  }

  /** Two requests that cannot both be granted when their paths share a name. */
  predicate Clash(a: Record, b: Record) {
    || a.directory != b.directory
    || (!a.directory && a.owner != b.owner)
    || (a.directory && !a.group && !b.group && a.path != b.path)
  }

  ghost predicate Conflict(names: Path -> set<string>, a: Record, b: Record) {
    ShareName(names, a.path, b.path) && Clash(a, b)
  }

  /** Sharing a name makes two paths one: true of any volume whose names come from one folding rule. */
  ghost predicate OneRule(names: Path -> set<string>) {
    forall a, b | ShareName(names, a, b) :: names(a) == names(b)
  }

  // ----- the index -----

  /** Claim `c` answers for record `r`. */
  predicate Answers(c: DestinationClaim, r: Record) {
    && c.directory == r.directory
    && (!r.directory ==> c.owner == r.owner)
    && (r.directory && !r.group ==> !c.group && c.path == r.path)
  }

  /** Every name of every record leads to a claim that answers for it. */
  ghost predicate Indexed(names: Path -> set<string>, claims: seq<DestinationClaim>, index: map<string, nat>,
                          records: seq<Record>) {
    && (forall n | n in index :: index[n] < |claims|)
    && (forall r, n | r in records && n in names(r.path) :: n in index && Answers(claims[index[n]], r))
  }

  /** Every indexed name and every claim comes from a record. */
  ghost predicate Grounded(names: Path -> set<string>, claims: seq<DestinationClaim>, index: map<string, nat>,
                           records: seq<Record>) {
    && (forall n | n in index :: exists r :: r in records && n in names(r.path))
    && (forall k | 0 <= k < |claims| :: Spelled(names, claims, index, records, k))
  }

  /** Claim `k` carries the path of one of its records, of a non-group one if it is not a group's. */
  ghost predicate Spelled(names: Path -> set<string>, claims: seq<DestinationClaim>, index: map<string, nat>,
                          records: seq<Record>, k: nat)
    requires k < |claims|
  {
    exists r, n :: r in records && SpelledBy(names, claims, index, k, r, n)
  }

  predicate SpelledBy(names: Path -> set<string>, claims: seq<DestinationClaim>, index: map<string, nat>, k: nat,
                      r: Record, n: string)
    requires k < |claims|
  {
    && r.path == claims[k].path && (claims[k].directory && !claims[k].group ==> !r.group)
    && n in names(r.path) && n in index && index[n] == k
  }

  /** With one folding rule the names of a claim are the names of any of its records. */
  ghost predicate OneClass(names: Path -> set<string>, index: map<string, nat>, records: seq<Record>) {
    forall r, n, m | r in records && n in names(r.path) && n in index && m in index && index[n] == index[m] ::
      m in names(r.path)
  }

  ghost predicate OneName(names: Path -> set<string>, path: Path) {
    exists n :: names(path) == {n}
  }

  /** Every directory claimed has one name, as directories of ASCII text have on every volume. */
  ghost predicate DirsHaveOneName(names: Path -> set<string>, records: seq<Record>) {
    forall r | r in records && r.directory :: OneName(names, r.path)
  }

  /** No two names lead to one claim of a directory. */
  ghost predicate DirsApart(claims: seq<DestinationClaim>, index: map<string, nat>) {
    forall n, m | n in index && m in index && index[n] == index[m] && index[n] < |claims|
      && claims[index[n]].directory :: n == m
  }

  ghost predicate NoConflict(names: Path -> set<string>, records: seq<Record>, r: Record) {
    forall other | other in records :: !Conflict(names, other, r)
  }

  /** The safety of the whole plan: no two granted requests conflict. */
  ghost predicate AllSeparate(names: Path -> set<string>, records: seq<Record>) {
    forall a, b | a in records && b in records :: !Conflict(names, a, b)
  }

  lemma IndexedIsSeparate(names: Path -> set<string>, claims: seq<DestinationClaim>, index: map<string, nat>,
                          records: seq<Record>)
    requires Indexed(names, claims, index, records)
    ensures AllSeparate(names, records)
  {
    forall a, b | a in records && b in records && ShareName(names, a.path, b.path) ensures !Clash(a, b) {
      var n :| n in names(a.path) && n in names(b.path);
      assert Answers(claims[index[n]], a) && Answers(claims[index[n]], b);
    }
  }

  // ----- one claim -----

  /** What `claim` asks of each claim one of the path's names leads to. */
  predicate Admits(c: DestinationClaim, r: Record) {
    if c.directory && r.directory then c.path == r.path || c.group || r.group
    else !c.directory && !r.directory && c.owner == r.owner
  }

  /** An admitting claim after it took the request in. */
  function Absorb(c: DestinationClaim, r: Record): DestinationClaim {
    if c.directory && r.directory && !r.group then c.(path := r.path, owner := r.owner, group := false) else c
  }

  predicate Matched(names: set<string>, index: map<string, nat>, k: nat) {
    exists n | n in names :: n in index && index[n] == k
  }

  /** The claims after all matched ones took the request in. */
  function AbsorbAll(claims: seq<DestinationClaim>, names: set<string>, index: map<string, nat>, r: Record,
                     upTo: nat): (after: seq<DestinationClaim>)
    requires upTo <= |claims|
    ensures |after| == |claims|
    ensures forall k | 0 <= k < |claims| ::
              after[k] == if k < upTo && Matched(names, index, k) then Absorb(claims[k], r) else claims[k]
  {
    seq(|claims|, k requires 0 <= k < |claims| =>
      if k < upTo && Matched(names, index, k) then Absorb(claims[k], r) else claims[k])
  }

  function IndexMore(names: set<string>, index: map<string, nat>, at: nat): (after: map<string, nat>)
    ensures forall n :: n in after <==> n in index || n in names
    ensures forall n | n in after :: after[n] == if n in index then index[n] else at
  {
    map n | n in index.Keys + names :: if n in index then index[n] else at
  }

  lemma AbsorbKeepsAnswers(c: DestinationClaim, r: Record, earlier: Record)
    requires Admits(c, r) && Answers(c, earlier)
    ensures Answers(Absorb(c, r), earlier) && Answers(Absorb(c, r), r)
  {
  }

  /** The claim a request's new names lead to: one that is matched, or a new one when none is. */
  ghost predicate Lands(claims: seq<DestinationClaim>, names: set<string>, index: map<string, nat>, at: nat) {
    if at < |claims| then Matched(names, index, at)
    else at == |claims| && forall k: nat | k < |claims| :: !Matched(names, index, k)
  }

  function ClaimsAfter(claims: seq<DestinationClaim>, names: set<string>, index: map<string, nat>, r: Record,
                       at: nat): seq<DestinationClaim> {
    AbsorbAll(claims, names, index, r, |claims|) + if at < |claims| then [] else [r]
  }

  ghost predicate AdmitUpTo(claims: seq<DestinationClaim>, names: set<string>, index: map<string, nat>, r: Record,
                            upTo: nat)
    requires upTo <= |claims|
  {
    forall k: nat | k < upTo && Matched(names, index, k) :: Admits(claims[k], r)
  }

  /** `at` is a claim matched among those before `upTo`, or `n` when none is. */
  ghost predicate LandsUpTo(n: nat, names: set<string>, index: map<string, nat>, upTo: nat, at: nat) {
    if at < n then at < upTo && Matched(names, index, at)
    else at == n && forall k: nat | k < upTo :: !Matched(names, index, k)
  }

  /** Some claim that a name leads to does not admit the request. */
  ghost predicate SomeRefuses(claims: seq<DestinationClaim>, names: set<string>, index: map<string, nat>, r: Record) {
    exists k: nat | k < |claims| :: Matched(names, index, k) && !Admits(claims[k], r)
  }

  ghost predicate AllAdmit(claims: seq<DestinationClaim>, names: set<string>, index: map<string, nat>, r: Record) {
    forall k: nat | k < |claims| && Matched(names, index, k) :: Admits(claims[k], r)
  }

  lemma GrantedIndexed(names: Path -> set<string>, claims: seq<DestinationClaim>, index: map<string, nat>,
                       records: seq<Record>, r: Record, at: nat)
    requires Indexed(names, claims, index, records)
    requires AllAdmit(claims, names(r.path), index, r) && Lands(claims, names(r.path), index, at)
    ensures Indexed(names, ClaimsAfter(claims, names(r.path), index, r, at), IndexMore(names(r.path), index, at),
                    records + [r])
  {
    var own := names(r.path);
    var after, more := ClaimsAfter(claims, own, index, r, at), IndexMore(own, index, at);
    forall e, n | e in records + [r] && n in names(e.path) ensures n in more && Answers(after[more[n]], e) {
      if e in records && n in index {
        assert Answers(claims[index[n]], e);
        if Matched(own, index, index[n]) {
          AbsorbKeepsAnswers(claims[index[n]], r, e);
        }
      }
    }
  }

  lemma GrantedGrounded(names: Path -> set<string>, claims: seq<DestinationClaim>, index: map<string, nat>,
                        records: seq<Record>, r: Record, at: nat)
    requires Indexed(names, claims, index, records) && Grounded(names, claims, index, records) && names(r.path) != {}
    requires AllAdmit(claims, names(r.path), index, r) && Lands(claims, names(r.path), index, at)
    ensures Grounded(names, ClaimsAfter(claims, names(r.path), index, r, at), IndexMore(names(r.path), index, at),
                     records + [r])
  {
    var own := names(r.path);
    var after, more, longer := ClaimsAfter(claims, own, index, r, at), IndexMore(own, index, at), records + [r];
    assert r in longer && forall e | e in records :: e in longer;
    forall k: nat | k < |after| ensures Spelled(names, after, more, longer, k) {
      GrantedSpelled(names, claims, index, records, r, at, k);
    }
  }

  lemma GrantedSpelled(names: Path -> set<string>, claims: seq<DestinationClaim>, index: map<string, nat>,
                       records: seq<Record>, r: Record, at: nat, k: nat)
    requires Indexed(names, claims, index, records) && Grounded(names, claims, index, records) && names(r.path) != {}
    requires Lands(claims, names(r.path), index, at)
    requires k < |ClaimsAfter(claims, names(r.path), index, r, at)|
    ensures Spelled(names, ClaimsAfter(claims, names(r.path), index, r, at), IndexMore(names(r.path), index, at),
                    records + [r], k)
  {
    var own := names(r.path);
    var after, more := ClaimsAfter(claims, own, index, r, at), IndexMore(own, index, at);
    assert r in records + [r] && forall e | e in records :: e in records + [r];
    if k == |claims| {
      var n :| n in own;
      assert n in index ==> Matched(own, index, index[n]);
      assert SpelledBy(names, after, more, k, r, n);
    } else if Matched(own, index, k) && claims[k].directory && r.directory && !r.group {
      var n :| n in own && n in index && index[n] == k;
      assert SpelledBy(names, after, more, k, r, n);
    } else {
      assert Spelled(names, claims, index, records, k);
      var e, n :| e in records && SpelledBy(names, claims, index, k, e, n);
      assert after[k] == claims[k];
      assert SpelledBy(names, after, more, k, e, n);
    }
  }

  lemma GrantedOneClass(names: Path -> set<string>, claims: seq<DestinationClaim>, index: map<string, nat>,
                        records: seq<Record>, r: Record, at: nat)
    requires OneRule(names) && Indexed(names, claims, index, records)
    requires Grounded(names, claims, index, records) && OneClass(names, index, records)
    requires Lands(claims, names(r.path), index, at)
    ensures OneClass(names, IndexMore(names(r.path), index, at), records + [r])
  {
    var own := names(r.path);
    var more := IndexMore(own, index, at);
    forall e, n, m | e in records + [r] && n in names(e.path) && n in more && m in more && more[n] == more[m]
      ensures m in names(e.path)
    {
      var a := Rooted(names, claims, index, records, r, at, n);
      var b := Rooted(names, claims, index, records, r, at, m);
      assert ShareName(names, a, e.path);
      OneRoot(names, claims, index, records, r, at, n, m, a, b);
    }
  }

  /** A record's path, or the new one, that has the name `n`. */
  lemma Rooted(names: Path -> set<string>, claims: seq<DestinationClaim>, index: map<string, nat>, records: seq<Record>,
               r: Record, at: nat, n: string) returns (path: Path)
    requires Grounded(names, claims, index, records) && n in IndexMore(names(r.path), index, at)
    ensures n in names(path) && (path == r.path || (n in index && exists e :: e in records && e.path == path))
  {
    if n in names(r.path) {
      path := r.path;
    } else {
      var e :| e in records && n in names(e.path);
      path := e.path;
    }
  }

  lemma OneRoot(names: Path -> set<string>, claims: seq<DestinationClaim>, index: map<string, nat>,
                records: seq<Record>, r: Record, at: nat, n: string, m: string, a: Path, b: Path)
    requires OneRule(names) && Indexed(names, claims, index, records)
    requires Grounded(names, claims, index, records) && OneClass(names, index, records)
    requires Lands(claims, names(r.path), index, at)
    requires var more := IndexMore(names(r.path), index, at); n in more && m in more && more[n] == more[m]
    requires n in names(a) && (a == r.path || (n in index && exists e :: e in records && e.path == a))
    requires m in names(b) && (b == r.path || (m in index && exists e :: e in records && e.path == b))
    ensures names(a) == names(b)
  {
    if n in index && m in index {
      BothKnown(names, index, records, n, m, a, b);
    } else if n in index {
      OneKnown(names, claims, index, records, r, at, n, a);
    } else if m in index {
      OneKnown(names, claims, index, records, r, at, m, b);
    }
  }

  lemma BothKnown(names: Path -> set<string>, index: map<string, nat>, records: seq<Record>, n: string, m: string,
                  a: Path, b: Path)
    requires OneRule(names) && OneClass(names, index, records)
    requires exists e :: e in records && n in names(e.path)
    requires n in index && m in index && index[n] == index[m] && n in names(a) && m in names(b)
    ensures names(a) == names(b)
  {
    var e :| e in records && n in names(e.path);
    assert m in names(e.path);
    assert ShareName(names, a, e.path) && ShareName(names, b, e.path);
  }

  lemma OneKnown(names: Path -> set<string>, claims: seq<DestinationClaim>, index: map<string, nat>,
                 records: seq<Record>, r: Record, at: nat, n: string, a: Path)
    requires OneRule(names) && OneClass(names, index, records)
    requires exists e :: e in records && n in names(e.path)
    requires Lands(claims, names(r.path), index, at) && at < |claims|
    requires n in index && index[n] == at && n in names(a)
    ensures names(a) == names(r.path)
  {
    var p :| p in names(r.path) && p in index && index[p] == at;
    var e :| e in records && n in names(e.path);
    assert p in names(e.path);
    assert ShareName(names, a, e.path) && ShareName(names, e.path, r.path);
  }

  /** With one name for every directory, a claim of a directory keeps a single name. */
  lemma GrantedDirsApart(names: Path -> set<string>, claims: seq<DestinationClaim>, index: map<string, nat>,
                         records: seq<Record>, r: Record, at: nat)
    requires Indexed(names, claims, index, records) && DirsApart(claims, index)
             && (r.directory ==> OneName(names, r.path))
    requires AllAdmit(claims, names(r.path), index, r) && Lands(claims, names(r.path), index, at)
    ensures DirsApart(ClaimsAfter(claims, names(r.path), index, r, at), IndexMore(names(r.path), index, at))
  {
    var own := names(r.path);
    var after, more := ClaimsAfter(claims, own, index, r, at), IndexMore(own, index, at);
    forall n, m | n in more && m in more && more[n] == more[m] && more[n] < |after| && after[more[n]].directory
      ensures n == m
    {
      NewNameIsAlone(names, claims, index, records, r, at, n, m);
      NewNameIsAlone(names, claims, index, records, r, at, m, n);
    }
  }

  /** A new name leads to a claim of a directory only as the one name of a new directory. */
  lemma NewNameIsAlone(names: Path -> set<string>, claims: seq<DestinationClaim>, index: map<string, nat>,
                       records: seq<Record>, r: Record, at: nat, n: string, m: string)
    requires Indexed(names, claims, index, records) && (r.directory ==> OneName(names, r.path))
    requires AllAdmit(claims, names(r.path), index, r) && Lands(claims, names(r.path), index, at)
    requires var after, more := ClaimsAfter(claims, names(r.path), index, r, at), IndexMore(names(r.path), index, at);
             n in more && m in more && more[n] == more[m] && more[n] < |after| && after[more[n]].directory
    ensures n !in index ==> n == m
  {
    assert at < |claims| ==> Admits(claims[at], r);
  }

  /**
   * A refusal is for a reason: the path shares a name with one that clashes. For a directory
   * below the group this rests on every directory having one name.
   */
  lemma RefusedHasConflict(names: Path -> set<string>, claims: seq<DestinationClaim>, index: map<string, nat>,
                           records: seq<Record>, r: Record)
    requires Reflects(names, claims, index, records) && SomeRefuses(claims, names(r.path), index, r)
    requires !r.directory || r.group || DirsHaveOneName(names, records)
    ensures !NoConflict(names, records, r)
  {
    var k: nat :| k < |claims| && Matched(names(r.path), index, k) && !Admits(claims[k], r);
    var n :| n in names(r.path) && n in index && index[n] == k;
    var e :| e in records && n in names(e.path);
    assert Answers(claims[k], e) && ShareName(names, e.path, r.path);
    if claims[k].directory && r.directory {
      assert Spelled(names, claims, index, records, k);
      var s, m :| s in records && SpelledBy(names, claims, index, k, s, m);
      assert Answers(claims[k], s) && n == m;
      assert ShareName(names, s.path, r.path) && Conflict(names, s, r);
    } else {
      assert Conflict(names, e, r);
    }
  }

  /** The invariants of the index, all together. */
  ghost predicate Reflects(names: Path -> set<string>, claims: seq<DestinationClaim>, index: map<string, nat>,
                           records: seq<Record>) {
    && Indexed(names, claims, index, records)
    && Grounded(names, claims, index, records)
    && (OneRule(names) ==> OneClass(names, index, records))
    && (DirsHaveOneName(names, records) ==> DirsApart(claims, index))
  }

  lemma Granted(names: Path -> set<string>, claims: seq<DestinationClaim>, index: map<string, nat>,
                records: seq<Record>, r: Record, at: nat)
    requires Reflects(names, claims, index, records) && names(r.path) != {}
    requires AllAdmit(claims, names(r.path), index, r) && Lands(claims, names(r.path), index, at)
    ensures Reflects(names, ClaimsAfter(claims, names(r.path), index, r, at), IndexMore(names(r.path), index, at),
                     records + [r])
    ensures NoConflict(names, records, r)
  {
    GrantedIndexed(names, claims, index, records, r, at);
    GrantedGrounded(names, claims, index, records, r, at);
    if OneRule(names) {
      GrantedOneClass(names, claims, index, records, r, at);
    }
    if DirsHaveOneName(names, records + [r]) {
      assert r in records + [r] && forall e | e in records :: e in records + [r];
      GrantedDirsApart(names, claims, index, records, r, at);
    }
    GrantedSeparate(names, claims, index, records, r, at);
  }

  lemma GrantedSeparate(names: Path -> set<string>, claims: seq<DestinationClaim>, index: map<string, nat>,
                        records: seq<Record>, r: Record, at: nat)
    requires Indexed(names, claims, index, records)
    requires AllAdmit(claims, names(r.path), index, r) && Lands(claims, names(r.path), index, at)
    ensures NoConflict(names, records, r)
  {
    GrantedIndexed(names, claims, index, records, r, at);
    IndexedIsSeparate(names, ClaimsAfter(claims, names(r.path), index, r, at), IndexMore(names(r.path), index, at),
                      records + [r]);
    assert r in records + [r];
  }

  lemma AbsorbOneMore(claims: seq<DestinationClaim>, names: set<string>, index: map<string, nat>, r: Record, k: nat)
    requires k < |claims|
    ensures AbsorbAll(claims, names, index, r, k)[k] == claims[k]
    ensures AbsorbAll(claims, names, index, r, k + 1) ==
            if Matched(names, index, k) then AbsorbAll(claims, names, index, r, k)[k := Absorb(claims[k], r)]
            else AbsorbAll(claims, names, index, r, k)
  {
  }

  lemma DirsOfSome(names: Path -> set<string>, some: seq<Record>, all: seq<Record>)
    requires some <= all
    ensures DirsHaveOneName(names, all) ==> DirsHaveOneName(names, some)
  {
    assert forall r | r in some :: r in all;
  }

  /** Claims of one request per component, the last of them a file. */
  function FileRecords(path: Path, owner: Owner, groupDepth: nat): (r: seq<Record>)
    ensures |r| == |path|
    ensures forall i | 0 <= i < |path| :: r[i] == DestinationClaim(path[..i + 1], owner, i + 1 < |path|, i < groupDepth)
  {
    seq(|path|, i requires 0 <= i < |path| => DestinationClaim(path[..i + 1], owner, i + 1 < |path|, i < groupDepth))
  }

  lemma FileIsLast(path: Path, owner: Owner, groupDepth: nat)
    requires path != []
    ensures DestinationClaim(path, owner, false, |path| <= groupDepth) in FileRecords(path, owner, groupDepth)
  {
    var all := FileRecords(path, owner, groupDepth);
    assert path[..|path|] == path;
    assert all[|path| - 1] in all;
  }

  ghost predicate Contains(records: seq<Record>, some: seq<Record>) {
    forall r | r in some :: r in records
  }

  ghost predicate HasFile(records: seq<Record>, path: Path, owner: Owner) {
    exists group :: DestinationClaim(path, owner, false, group) in records
  }

  lemma FileIsRecorded(records: seq<Record>, path: Path, owner: Owner, groupDepth: nat)
    requires path != [] && Contains(records, FileRecords(path, owner, groupDepth))
    ensures HasFile(records, path, owner)
  {
    FileIsLast(path, owner, groupDepth);
  }

  /** None of the first `n` requests conflicts with one granted before it. */
  ghost predicate GrantedUpTo(names: Path -> set<string>, records: seq<Record>, asked: seq<Record>, n: int)
    requires 0 <= n <= |asked|
  {
    forall k | 0 <= k < n :: NoConflict(names, records + asked[..k], asked[k])
  }

  /** Some request of `asked` conflicts with one granted before it. */
  ghost predicate Refused(names: Path -> set<string>, records: seq<Record>, asked: seq<Record>) {
    exists i | 0 <= i < |asked| :: !NoConflict(names, records + asked[..i], asked[i])
  }

  lemma OneMoreRecord(records: seq<Record>, asked: seq<Record>, i: nat)
    requires i < |asked|
    ensures records + asked[..i] + [asked[i]] == records + asked[..i + 1]
  {
    assert asked[..i + 1] == asked[..i] + [asked[i]];
  }

  /**
   * What granting all files of a plan means: two files that share a name have one owner, no file
   * shares a name with a directory on the way to another, and two directories below the group
   * that share a name are spelled the same.
   */
  lemma FilesAreSeparate(names: Path -> set<string>, records: seq<Record>,
                         p: Path, owner: Owner, depth: nat, q: Path, other: Owner, otherDepth: nat)
    requires AllSeparate(names, records) && p != [] && q != []
    requires Contains(records, FileRecords(p, owner, depth)) && Contains(records, FileRecords(q, other, otherDepth))
    ensures ShareName(names, p, q) ==> owner == other
    ensures forall j | 0 < j < |q| :: !ShareName(names, p, q[..j])
    ensures forall i, j | depth < i < |p| && otherDepth < j < |q| && ShareName(names, p[..i], q[..j]) ::
              p[..i] == q[..j]
  {
    var ps, qs := FileRecords(p, owner, depth), FileRecords(q, other, otherDepth);
    assert p[..|p|] == p && q[..|q|] == q;
    assert ps[|p| - 1] in ps && qs[|q| - 1] in qs;
    forall j | 0 < j < |q| ensures !ShareName(names, p, q[..j]) {
      assert qs[j - 1] in qs && !Conflict(names, ps[|p| - 1], qs[j - 1]);
    }
    forall i, j | depth < i < |p| && otherDepth < j < |q| && ShareName(names, p[..i], q[..j])
      ensures p[..i] == q[..j]
    {
      assert ps[i - 1] in ps && qs[j - 1] in qs && !Conflict(names, ps[i - 1], qs[j - 1]);
    }
    assert !Conflict(names, ps[|p| - 1], qs[|q| - 1]);
  }

  // ----- all requests of a plan -----

  ghost predicate AllAsked(some: seq<Record>, asked: Record -> bool) {
    forall r | r in some :: asked(r)
  }

  ghost predicate OneNameEach(names: Path -> set<string>, asked: Record -> bool) {
    forall r | asked(r) && r.directory :: OneName(names, r.path)
  }

  /** Two requests of the plan conflict. */
  ghost predicate Clashing(names: Path -> set<string>, asked: Record -> bool) {
    exists a, b :: asked(a) && asked(b) && Conflict(names, a, b)
  }

  /** A refusal of one of the plan's requests means that two of them conflict. */
  lemma RefusedClashes(names: Path -> set<string>, records: seq<Record>, some: seq<Record>, asked: Record -> bool)
    requires AllAsked(records, asked) && AllAsked(some, asked)
    ensures OneNameEach(names, asked) ==> DirsHaveOneName(names, records + some)
    ensures Refused(names, records, some) ==> Clashing(names, asked)
  {
    if i :| 0 <= i < |some| && !NoConflict(names, records + some[..i], some[i]) {
      var other :| other in records + some[..i] && Conflict(names, other, some[i]);
      assert asked(other) && asked(some[i]);
    }
  }

  // ----- the names of a path -----

  predicate Ascii(text: string) {
    forall i | 0 <= i < |text| :: text[i] < '\U{80}'
  }

  function LowerChar(c: char): char {
    if 'A' <= c <= 'Z' then (c as int + 32) as char else c
  }

  function AsciiLower(text: string): (lower: string)
    ensures |lower| == |text| && forall i | 0 <= i < |text| :: lower[i] == LowerChar(text[i])
  {
    seq(|text|, i requires 0 <= i < |text| => LowerChar(text[i]))
  }

  /** The names a volume may give a path: one for each of its folding rules. */
  function NamesBy(rules: seq<string -> string>): Path -> set<string> {
    path => set i | 0 <= i < |rules| :: rules[i](Joined(path))
  }

  /** Folding and normalization act on ASCII text as lowercasing does. */
  ghost predicate FoldsAscii(rules: seq<string -> string>) {
    rules != [] && forall i, text | 0 <= i < |rules| && Ascii(text) :: rules[i](text) == AsciiLower(text)
  }

  lemma AsciiHasOneName(rules: seq<string -> string>, path: Path)
    requires FoldsAscii(rules) && Ascii(Joined(path))
    ensures NamesBy(rules)(path) == {AsciiLower(Joined(path))} && OneName(NamesBy(rules), path)
  {
    var lower := AsciiLower(Joined(path));
    assert rules[0](Joined(path)) == lower;
    assert NamesBy(rules)(path) == {lower};
  }
}
