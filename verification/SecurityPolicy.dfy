/**
 * The `[security]` policy (`rv-config/src/config.rs`): a project file can only narrow what the
 * user's file allows. `parse` stands for reading HTTP(S) URLs, `validName` for the rule on
 * variable names.
 */
module SecurityPolicy {
  import opened Prelude

  /** A parsed HTTP(S) URL: scheme, host and port as one origin, and the path. */
  datatype Url = Url(origin: string, path: string)

  datatype Policy = Policy(variables: seq<string>, allowAll: bool, allowlist: seq<string>)

  /** The table as written: a key that is left out inherits. */
  datatype Table = Table(variables: Option<seq<string>>, allowAll: Option<bool>, allowlist: Option<seq<string>>)

  datatype Rules = Rules(parse: string -> Option<Url>, validName: string -> bool)

  datatype Key = EnvSubstitution | TransitiveRepositories | RepositoryAllowlist

  datatype Refusal = InvalidUser | InvalidProject

  // ----- matching -----

  predicate EndsWithSlash(path: string) {
    path != "" && path[|path| - 1] == '/'
  }

  /** `url_origin_matches`: one origin, and a path prefix that ends at a segment. */
  predicate Under(allowed: Url, candidate: Url) {
    && allowed.origin == candidate.origin
    && (|| candidate.path == allowed.path
        || (allowed.path <= candidate.path
            && (EndsWithSlash(allowed.path)
              || (|candidate.path| > |allowed.path| && candidate.path[|allowed.path|] == '/'))))
  }

  lemma UnderTransitive(a: Url, b: Url, c: Url)
    requires Under(a, b) && Under(b, c)
    ensures Under(a, c)
  {
    if a.path != b.path && b.path != c.path {
      assert a.path == b.path[..|a.path|] == c.path[..|b.path|][..|a.path|] == c.path[..|a.path|];
      assert a.path <= c.path;
    }
  }

  /** The segments of one path lead into the other; a final slash stands for anything below. */
  predicate LeadsInto(allowed: seq<string>, candidate: seq<string>)
    requires allowed != []
  {
    var n := |allowed| - 1;
    if n > 0 && allowed[n] == "" then allowed[..n] <= candidate && |candidate| > n else allowed <= candidate
  }

  lemma SlashIsLast(path: string)
    ensures EndsWithSlash(path) ==>
              path == path[..|path| - 1] + "/" + "" && Segments(path) == Segments(path[..|path| - 1]) + [""]
    ensures var segments := Segments(path);
            EndsWithSlash(path) <==> |segments| > 1 && segments[|segments| - 1] == ""
  {
    if EndsWithSlash(path) {
      SegmentsOfTwo(path[..|path| - 1], "");
      assert path == path[..|path| - 1] + "/" + "";
    }
    var segments := Segments(path);
    var n := |segments| - 1;
    if n > 0 && segments[n] == "" {
      JoinedSegments(path);
      JoinedLast(segments[..n], "");
      assert segments == segments[..n] + [""];
    }
  }

  /** `url_origin_matches` by segments: one origin, and every segment of the allowed path is there. */
  lemma UnderMeans(allowed: Url, candidate: Url)
    ensures Under(allowed, candidate) <==>
            allowed.origin == candidate.origin && LeadsInto(Segments(allowed.path), Segments(candidate.path))
  {
    var a, c := allowed.path, candidate.path;
    SlashIsLast(a);
    if EndsWithSlash(a) {
      var dir := a[..|a| - 1];
      BelowSegments(dir, c);
      assert Segments(a)[..|Segments(a)| - 1] == Segments(dir);
      assert a <= c <==> dir + "/" <= c by {
        assert a == dir + "/";
      }
    } else {
      BelowSegments(a, c);
      SamePath(a, c);
      assert a <= c && |c| > |a| && c[|a|] == '/' <==> a + "/" <= c;
    }
  }

  lemma SamePath(a: string, c: string)
    ensures Segments(a) == Segments(c) <==> a == c
  {
    JoinedSegments(a);
    JoinedSegments(c);
  }

  /** A path lies below a directory when the directory's segments come first and there are more. */
  lemma BelowSegments(dir: string, path: string)
    ensures dir + "/" <= path <==> Segments(dir) < Segments(path)
  {
    if dir + "/" <= path {
      var rest := path[|dir| + 1..];
      assert path == dir + "/" + rest;
      SegmentsOfTwo(dir, rest);
    }
    if Segments(dir) < Segments(path) {
      var rest := Segments(path)[|Segments(dir)|..];
      assert Segments(path) == Segments(dir) + rest;
      JoinedTwo(Segments(dir), rest);
      JoinedSegments(dir);
      JoinedSegments(path);
    }
  }

  predicate UnderSome(rules: Rules, allowlist: seq<string>, candidate: Url) {
    exists i | 0 <= i < |allowlist| ::
      rules.parse(allowlist[i]).Some? && Under(rules.parse(allowlist[i]).value, candidate)
  }

  /** `allows_transitive_repo_url` */
  predicate Allows(rules: Rules, policy: Policy, url: string) {
    rules.parse(url).Some? && (policy.allowAll || UnderSome(rules, policy.allowlist, rules.parse(url).value))
  }

  predicate Valid(rules: Rules, policy: Policy) {
    && (forall name | name in policy.variables :: rules.validName(name))
    && (forall entry | entry in policy.allowlist :: rules.parse(entry).Some?)
  }

  // ----- merging -----

  function Keep(entries: seq<string>, wanted: string -> bool): (kept: seq<string>)
    ensures forall e :: e in kept <==> e in entries && wanted(e)
  {
    if entries == [] then []
    else
      assert entries == [entries[0]] + entries[1..];
      (if wanted(entries[0]) then [entries[0]] else []) + Keep(entries[1..], wanted)
  }

  lemma {:induction false} KeepAgain(entries: seq<string>, wanted: string -> bool, again: string -> bool)
    requires forall e | e in entries :: wanted(e) <==> again(e)
    ensures Keep(entries, wanted) == Keep(entries, again)
  {
    if entries != [] {
      KeepAgain(entries[1..], wanted, again);
    }
  }

  function Among(names: seq<string>): string -> bool {
    name => name in names
  }

  function AllowedBy(rules: Rules, policy: Policy): string -> bool {
    url => Allows(rules, policy, url)
  }

  function UserPolicy(user: Option<Table>): Policy {
    match user
    case None => Policy([], false, [])
    case Some(t) =>
      Policy(if t.variables.Some? then t.variables.value else [], t.allowAll == Some(true),
             if t.allowlist.Some? then t.allowlist.value else [])
  }

  function Merged(rules: Rules, project: Table, user: Policy): Policy {
    Policy(if project.variables.Some? then Keep(project.variables.value, Among(user.variables)) else user.variables,
           if project.allowAll.Some? then project.allowAll.value && user.allowAll else user.allowAll,
           if project.allowlist.Some? then Keep(project.allowlist.value, AllowedBy(rules, user)) else user.allowlist)
  }

  /** The project asks for something under `key` that the user does not allow. */
  ghost predicate AsksForMore(rules: Rules, project: Table, user: Policy, key: Key) {
    match key
    case EnvSubstitution => project.variables.Some? && exists name ::
      name in project.variables.value && name !in user.variables
    case TransitiveRepositories => project.allowAll == Some(true) && !user.allowAll
    case RepositoryAllowlist =>
      project.allowlist.Some? && exists url :: url in project.allowlist.value && !Allows(rules, user, url)
  }

  lemma KeepFirst(entries: seq<string>, wanted: string -> bool, i: nat)
    requires i < |entries|
    ensures Keep(entries[i..], wanted) ==
            if wanted(entries[i]) then [entries[i]] + Keep(entries[i + 1..], wanted) else Keep(entries[i + 1..], wanted)
  {
    assert entries[i..][1..] == entries[i + 1..];
  }

  lemma KeepStarts(entries: seq<string>, wanted: string -> bool)
    ensures Keep(entries, wanted) == [] + Keep(entries[0..], wanted)
  {
    assert entries[0..] == entries;
  }

  lemma KeepEnds(entries: seq<string>, wanted: string -> bool, kept: seq<string>)
    requires Keep(entries, wanted) == kept + Keep(entries[|entries|..], wanted)
    ensures Keep(entries, wanted) == kept
  {
    assert entries[|entries|..] == [];
  }

  /** `partition`, in the order of the entries. */
  method Partition(entries: seq<string>, wanted: string -> bool) returns (kept: seq<string>, dropped: seq<string>)
    ensures kept == Keep(entries, wanted)
    ensures dropped == [] <==> forall e | e in entries :: wanted(e)
  {
    kept, dropped := [], [];
    KeepStarts(entries, wanted);
    for i := 0 to |entries|
      invariant Keep(entries, wanted) == kept + Keep(entries[i..], wanted)
      invariant dropped == [] <==> forall k | 0 <= k < i :: wanted(entries[k])
    {
      KeepFirst(entries, wanted, i);
      if wanted(entries[i]) {
        Regroup(kept, [entries[i]], Keep(entries[i + 1..], wanted));
        kept := kept + [entries[i]];
      } else {
        dropped := dropped + [entries[i]];
      }
    }
    KeepEnds(entries, wanted, kept);
  }

  /** Some entry of the list is not wanted. */
  ghost predicate DropsSome(entries: Option<seq<string>>, wanted: string -> bool) {
    entries.Some? && exists e :: e in entries.value && !wanted(e)
  }

  lemma DroppingIsAsking(rules: Rules, project: Table, user: Policy)
    ensures DropsSome(project.variables, Among(user.variables)) <==> AsksForMore(rules, project, user, EnvSubstitution)
    ensures DropsSome(project.allowlist, AllowedBy(rules, user)) <==>
            AsksForMore(rules, project, user, RepositoryAllowlist)
  {
  }

  /** One list of the project: its entries that are wanted, or the inherited list when it has none. */
  method NarrowList(entries: Option<seq<string>>, wanted: string -> bool, inherited: seq<string>)
    returns (merged: seq<string>, more: bool)
    ensures merged == if entries.Some? then Keep(entries.value, wanted) else inherited
    ensures more <==> DropsSome(entries, wanted)
  {
    if entries.None? {
      return inherited, false;
    }
    var kept, dropped := Partition(entries.value, wanted);
    return kept, dropped != [];
  }

  /** `merge_security` */
  method MergeSecurity(rules: Rules, project: Option<Table>, user: Option<Table>)
    returns (r: Result<(Policy, set<Key>), Refusal>)
    ensures r == Err(InvalidUser) <==> !Valid(rules, UserPolicy(user))
    ensures r == Err(InvalidProject) <==>
            && Valid(rules, UserPolicy(user)) && project.Some? && project.value.allowlist.Some?
            && !Valid(rules, Policy([], false, project.value.allowlist.value))
    ensures r.Ok? && project.None? ==> r.value == (UserPolicy(user), {})
    ensures r.Ok? && project.Some? ==>
              && r.value.0 == Merged(rules, project.value, UserPolicy(user))
              && forall key :: key in r.value.1 <==> AsksForMore(rules, project.value, UserPolicy(user), key)
  {
    var policy := UserPolicy(user);
    if !Valid(rules, policy) {
      return Err(InvalidUser);
    }
    if project.None? {
      return Ok((policy, {}));
    }
    var table := project.value;
    if table.allowlist.Some? && !Valid(rules, Policy([], false, table.allowlist.value)) {
      return Err(InvalidProject);
    }
    var merged, widened := MergeTables(rules, table, policy);
    return Ok((merged, widened));
  }

  method MergeTables(rules: Rules, table: Table, policy: Policy) returns (merged: Policy, widened: set<Key>)
    ensures merged == Merged(rules, table, policy)
    ensures forall key :: key in widened <==> AsksForMore(rules, table, policy, key)
  {
    merged, widened := policy, {};
    var variables, moreVariables := NarrowList(table.variables, Among(policy.variables), policy.variables);
    merged := merged.(variables := variables);
    if moreVariables {
      widened := widened + {EnvSubstitution};
    }
    if table.allowAll.Some? {
      if table.allowAll.value && !policy.allowAll {
        widened := widened + {TransitiveRepositories};
      }
      merged := merged.(allowAll := table.allowAll.value && policy.allowAll);
    }
    var allowlist, moreUrls := NarrowList(table.allowlist, AllowedBy(rules, policy), policy.allowlist);
    merged := merged.(allowlist := allowlist);
    if moreUrls {
      widened := widened + {RepositoryAllowlist};
    }
    DroppingIsAsking(rules, table, policy);
    forall key ensures key in widened <==> AsksForMore(rules, table, policy, key) {
      match key
      case EnvSubstitution =>
      case TransitiveRepositories =>
      case RepositoryAllowlist =>
    }
  }

  // ----- what the policies allow -----

  /** What a user's file allows is what it says; a key that is left out allows nothing. */
  lemma UserAllows(rules: Rules, user: Option<Table>, text: string)
    ensures text in UserPolicy(user).variables <==>
            user.Some? && user.value.variables.Some? && text in user.value.variables.value
    ensures Allows(rules, UserPolicy(user), text) <==>
            && rules.parse(text).Some? && user.Some?
            && (|| user.value.allowAll == Some(true)
                || (&& user.value.allowlist.Some?
                    && UnderSome(rules, user.value.allowlist.value, rules.parse(text).value)))
  {
  }

  /**
   * The merged policy allows a URL when both files allow all, or when it lies under an entry: of the
   * project that the user's file allows, or of the user when the project names none. Its variables
   * are those both files name, or the user's when the project names none.
   */
  lemma MergedAllows(rules: Rules, project: Table, user: Policy, text: string)
    ensures text in Merged(rules, project, user).variables <==>
            text in user.variables && (project.variables.Some? ==> text in project.variables.value)
    ensures Allows(rules, Merged(rules, project, user), text) <==>
            && rules.parse(text).Some?
            && (|| (user.allowAll && project.allowAll != Some(false))
                || (if project.allowlist.Some?
                    then exists entry :: && entry in project.allowlist.value && Allows(rules, user, entry)
                                         && Under(rules.parse(entry).value, rules.parse(text).value)
                    else UnderSome(rules, user.allowlist, rules.parse(text).value)))
  {
    var merged := Merged(rules, project, user);
    if rules.parse(text).Some? && project.allowlist.Some? {
      var candidate := rules.parse(text).value;
      if i :| && 0 <= i < |merged.allowlist| && rules.parse(merged.allowlist[i]).Some?
              && Under(rules.parse(merged.allowlist[i]).value, candidate) {
        assert merged.allowlist[i] in merged.allowlist;
      }
      if entry :| && entry in project.allowlist.value && Allows(rules, user, entry)
                  && Under(rules.parse(entry).value, candidate) {
        assert entry in merged.allowlist;
        var i :| 0 <= i < |merged.allowlist| && merged.allowlist[i] == entry;
      }
    }
  }

  // ----- narrowing -----

  /** Whatever the merged policy allows, the user's does. */
  lemma MergedOnlyNarrows(rules: Rules, project: Table, user: Policy, text: string)
    ensures Allows(rules, Merged(rules, project, user), text) ==> Allows(rules, user, text)
    ensures text in Merged(rules, project, user).variables ==> text in user.variables
  {
    var merged := Merged(rules, project, user);
    if Allows(rules, merged, text) && !merged.allowAll && project.allowlist.Some? {
      var candidate := rules.parse(text).value;
      var i :| 0 <= i < |merged.allowlist| && rules.parse(merged.allowlist[i]).Some?
               && Under(rules.parse(merged.allowlist[i]).value, candidate);
      var entry := merged.allowlist[i];
      assert entry in merged.allowlist;
      if !user.allowAll {
        UnderSomeFurther(rules, user.allowlist, rules.parse(entry).value, candidate);
      }
    }
  }

  lemma UnderSomeFurther(rules: Rules, allowlist: seq<string>, entry: Url, candidate: Url)
    requires UnderSome(rules, allowlist, entry) && Under(entry, candidate)
    ensures UnderSome(rules, allowlist, candidate)
  {
    var i :| 0 <= i < |allowlist| && rules.parse(allowlist[i]).Some? && Under(rules.parse(allowlist[i]).value, entry);
    UnderTransitive(rules.parse(allowlist[i]).value, entry, candidate);
  }

  /** Every project entry that was kept is allowed by what it was kept in. */
  lemma KeptEntryIsAllowed(rules: Rules, project: Table, user: Policy, url: string)
    requires project.allowlist.Some? && url in project.allowlist.value
    ensures Allows(rules, Merged(rules, project, user), url) <==> Allows(rules, user, url)
  {
    var merged := Merged(rules, project, user);
    MergedOnlyNarrows(rules, project, user, url);
    if Allows(rules, user, url) {
      assert url in merged.allowlist;
      var i :| 0 <= i < |merged.allowlist| && merged.allowlist[i] == url;
      assert Under(rules.parse(merged.allowlist[i]).value, rules.parse(url).value);
    }
  }

  /** Merging the same project again over the result changes nothing. */
  lemma MergingAgainChangesNothing(rules: Rules, project: Table, user: Policy)
    ensures Merged(rules, project, Merged(rules, project, user)) == Merged(rules, project, user)
  {
    var merged := Merged(rules, project, user);
    if project.variables.Some? {
      KeepAgain(project.variables.value, Among(user.variables), Among(merged.variables));
    }
    if project.allowlist.Some? {
      forall url | url in project.allowlist.value ensures Allows(rules, merged, url) <==> Allows(rules, user, url) {
        KeptEntryIsAllowed(rules, project, user, url);
      }
      KeepAgain(project.allowlist.value, AllowedBy(rules, user), AllowedBy(rules, merged));
    }
  }
}
