/** Restoring tracked files from HEAD, and rolling a rejected document draft back with it. */
module TrackedRestore {
  import opened Wrappers
  import opened Ordering
  import opened Sequences

  type Content = string

  type Files = map<string, Content>

  /** Repositories as Git reports them: the root of a path, its content at HEAD, what checking that
      out writes, whether it has staged changes, and in which repositories a restore fails, with the
      paths it has written by then. */
  datatype Git = Git(
    root: string -> Option<string>,
    head: string -> Option<Content>,
    checkedOut: Content -> Content,
    staged: string -> bool,
    fails: string -> Option<set<string>>)

  datatype Error = BadRequest | NoRepository | NotAtBaseline | StagedChanges | GitFailed | NotRestored
                 | PathMoved | EditedLater | Missing

  predicate Restorable(git: Git, expected: map<string, string>, digest: Content -> string, p: string) {
    && p in expected
    && git.root(p).Some?
    && git.head(p).Some? && digest(git.head(p).value) == expected[p]
    && !git.staged(p)
  }

  predicate WellAsked(paths: seq<string>, expected: map<string, string>) {
    && paths != [] && Unique(paths)
    && ToSet(paths) == expected.Keys
    && (forall p :: p in expected ==> !Blank(expected[p]))
  }

  /** `was` with the paths in `done` checked out from HEAD. */
  ghost predicate Written(files: Files, was: Files, git: Git, done: set<string>) {
    && (forall p :: p in files <==> p in was || p in done)
    && (forall p :: p in done ==> git.head(p).Some? && files[p] == git.checkedOut(git.head(p).value))
    && (forall p :: p in was && p !in done ==> files[p] == was[p])
  }

  // ----- paths by repository ------------------------------------------------------------------

  /** An insertion-ordered dictionary of lists, as Python builds one with `setdefault`. */
  datatype Repositories = Repositories(order: seq<string>, paths: map<string, seq<string>>)

  function Enter(r: Repositories, root: string, p: string): Repositories {
    if root in r.paths then Repositories(r.order, r.paths[root := r.paths[root] + [p]])
    else Repositories(r.order + [root], r.paths[root := [p]])
  }

  ghost predicate Groups(r: Repositories, git: Git, done: set<string>) {
    && (forall root :: root in r.paths <==> root in r.order)
    && (forall root, p :: root in r.paths && p in r.paths[root] ==> p in done && git.root(p) == Some(root))
    && (forall p :: p in done ==> git.root(p).Some? && git.root(p).value in r.paths && p in r.paths[git.root(p).value])
  }

  lemma EnterGroups(r: Repositories, root: string, p: string, git: Git, done: set<string>)
    requires Groups(r, git, done) && git.root(p) == Some(root)
    ensures Groups(Enter(r, root, p), git, done + {p})
  {
    var r' := Enter(r, root, p);
    assert p in r'.paths[root] by {
      assert r'.paths[root][|r'.paths[root]| - 1] == p;
    }
    forall other | other in r.paths && other != root ensures r'.paths[other] == r.paths[other] {
    }
    assert root in r.paths ==> forall q :: q in r.paths[root] ==> q in r'.paths[root];
  }

  /** The paths that belong to the repositories `roots`. */
  function In(paths: seq<string>, git: Git, roots: seq<string>): set<string> {
    set p | p in paths && git.root(p).Some? && git.root(p).value in roots
  }

  // ----- rejected drafts ------------------------------------------------------------------------

  /** A document before and after its draft was published. */
  datatype Draft = Draft(id: string, source: string, target: string, sourceDigest: string, targetDigest: string)

  predicate DistinctIds(drafts: seq<Draft>) {
    forall i, j :: 0 <= i < j < |drafts| ==> drafts[i].id != drafts[j].id
  }

  predicate DistinctSources(drafts: seq<Draft>) {
    forall d, e :: d in drafts && e in drafts && d.source == e.source ==> d == e
  }

  predicate AtSourceOrTarget(files: Files, digest: Content -> string, d: Draft) {
    && d.source == d.target && d.source in files
    && (digest(files[d.source]) == d.sourceDigest || digest(files[d.source]) == d.targetDigest)
  }

  /** Some draft of `p` is still published there. */
  predicate NeedsRestoring(files: Files, digest: Content -> string, drafts: seq<Draft>, p: string) {
    exists d :: d in drafts && d.source == p && p in files && digest(files[p]) != d.sourceDigest
  }

  ghost predicate Surveyed(files: Files, digest: Content -> string, drafts: seq<Draft>, restore: seq<string>,
                           expected: map<string, string>)
  {
    && (forall p :: p in restore <==> NeedsRestoring(files, digest, drafts, p))
    && (forall p :: p in expected <==> p in restore)
    && (forall p :: p in expected ==> exists d :: d in drafts && d.source == p && expected[p] == d.sourceDigest)
  }

  method CheckRequest(paths: seq<string>, expected: map<string, string>) returns (ok: bool)
    ensures ok <==> WellAsked(paths, expected)
  {
    UniqueCount(paths);
    if paths == [] || |paths| != |ToSet(paths)| {
      return false;
    }
    ok := ToSet(paths) == expected.Keys && !(exists p :: p in expected && Blank(expected[p]));
  }

  function Only(paths: seq<string>, some: set<string>): (r: seq<string>)
    ensures forall p :: p in r <==> p in paths && p in some
  {
    if paths == [] then []
    else
      var last := paths[|paths| - 1];
      assert paths == paths[..|paths| - 1] + [last];
      Only(paths[..|paths| - 1], some) + if last in some then [last] else []
  }

  /** The repositories before the `n`-th are restored, and of that one the paths Git wrote before it failed. */
  function DoneBy(r: Repositories, paths: seq<string>, git: Git, n: nat): set<string>
    requires n <= |r.order|
  {
    In(paths, git, r.order[..n])
    + if n < |r.order| && git.fails(r.order[n]).Some? then In(paths, git, [r.order[n]]) * git.fails(r.order[n]).value else {}
  }

  class Worktree {
    var files: Files

    constructor (files: Files)
      ensures this.files == files
    {
      this.files := files;
    }

    /** Everything is checked, and the paths are grouped by repository, before anything is written. */
    method CheckAll(paths: seq<string>, expected: map<string, string>, git: Git, digest: Content -> string)
      returns (r: Result<Repositories, Error>)
      requires forall p :: p in paths ==> p in expected
      ensures r.Ok? <==> forall p :: p in paths ==> Restorable(git, expected, digest, p)
      ensures r.Ok? ==> Groups(r.value, git, ToSet(paths))
    {
      var repositories := Repositories([], map[]);
      for i := 0 to |paths|
        invariant forall j :: 0 <= j < i ==> Restorable(git, expected, digest, paths[j])
        invariant Groups(repositories, git, ToSet(paths[..i]))
      {
        var p := paths[i];
        assert p in paths;
        assert ToSet(paths[..i + 1]) == ToSet(paths[..i]) + {p} by {
          assert paths[..i + 1] == paths[..i] + [p];
        }
        if git.root(p).None? {
          return Err(NoRepository);
        }
        if git.head(p).None? {
          return Err(GitFailed);
        }
        if digest(git.head(p).value) != expected[p] {
          return Err(NotAtBaseline);
        }
        if git.staged(p) {
          return Err(StagedChanges);
        }
        EnterGroups(repositories, git.root(p).value, p, git, ToSet(paths[..i]));
        repositories := Enter(repositories, git.root(p).value, p);
      }
      assert paths[..|paths|] == paths;
      return Ok(repositories);
    }

    /** `git restore` of some paths of one repository. */
    method RestorePaths(paths: seq<string>, git: Git)
      requires forall p :: p in paths ==> git.head(p).Some?
      modifies this
      ensures Written(files, old(files), git, ToSet(paths))
    {
      ghost var was := files;
      for i := 0 to |paths|
        invariant Written(files, was, git, ToSet(paths[..i]))
      {
        assert paths[i] in paths;
        assert ToSet(paths[..i + 1]) == ToSet(paths[..i]) + {paths[i]} by {
          assert paths[..i + 1] == paths[..i] + [paths[i]];
        }
        files := files[paths[i] := git.checkedOut(git.head(paths[i]).value)];
      }
      assert paths[..|paths|] == paths;
    }

    /** Restores repository by repository, up to the first in which Git fails. */
    method RestoreRepositories(r: Repositories, paths: seq<string>, git: Git) returns (n: nat)
      requires Groups(r, git, ToSet(paths)) && forall p :: p in paths ==> git.head(p).Some?
      modifies this
      ensures n <= |r.order| && (n < |r.order| ==> git.fails(r.order[n]).Some?)
      ensures Written(files, old(files), git, DoneBy(r, paths, git, n))
    {
      ghost var was := files;
      n := 0;
      while n < |r.order|
        invariant n <= |r.order| && Written(files, was, git, In(paths, git, r.order[..n]))
      {
        var root := r.order[n];
        assert root in r.order;
        ghost var before := files;
        GroupIs(r, paths, git, root);
        if git.fails(root).Some? {
          var written := Only(r.paths[root], git.fails(root).value);
          RestorePaths(written, git);
          WrittenTwice(was, before, files, git, In(paths, git, r.order[..n]), ToSet(written));
          assert ToSet(written) == In(paths, git, [root]) * git.fails(root).value;
          return;
        }
        RestorePaths(r.paths[root], git);
        OneMoreRepository(r, paths, git, n);
        WrittenTwice(was, before, files, git, In(paths, git, r.order[..n]), ToSet(r.paths[root]));
        n := n + 1;
      }
    }

    /** True when every path now has its expected digest. */
    method VerifyAll(paths: seq<string>, expected: map<string, string>, digest: Content -> string) returns (ok: bool)
      requires forall p :: p in paths ==> p in files && p in expected
      ensures ok <==> forall p :: p in paths ==> digest(files[p]) == expected[p]
    {
      for i := 0 to |paths|
        invariant forall j :: 0 <= j < i ==> digest(files[paths[j]]) == expected[paths[j]]
      {
        assert paths[i] in paths;
        if digest(files[paths[i]]) != expected[paths[i]] {
          return false;
        }
      }
      return true;
    }

    /** `restore_tracked_files`: nothing is written unless every path passed every check. */
    method RestoreTrackedFiles(paths: seq<string>, expected: map<string, string>, git: Git, digest: Content -> string)
      returns (r: Result<(), Error>)
      modifies this
      ensures files != old(files) || r.Ok? ==>
                WellAsked(paths, expected) && forall p :: p in paths ==> Restorable(git, expected, digest, p)
      ensures r.Ok? ==> Written(files, old(files), git, ToSet(paths))
      ensures r.Ok? ==> forall p :: p in paths ==> p in files && p in expected && digest(files[p]) == expected[p]
      ensures exists done :: done <= ToSet(paths) && Written(files, old(files), git, done)
    {
      assert {} <= ToSet(paths) && Written(files, files, git, {});
      var wellAsked := CheckRequest(paths, expected);
      if !wellAsked {
        return Err(BadRequest);
      }
      assert forall p :: p in paths ==> p in ToSet(paths);
      var checked := CheckAll(paths, expected, git, digest);
      if checked.Err? {
        return Err(checked.error);
      }
      var n := RestoreRepositories(checked.value, paths, git);
      assert DoneBy(checked.value, paths, git, n) <= ToSet(paths);
      if n < |checked.value.order| {
        return Err(GitFailed);
      }
      AllRepositories(checked.value, paths, git);
      var restored := VerifyAll(paths, expected, digest);
      return if restored then Ok(()) else Err(NotRestored);
    }

    /** Sorts the drafts into those to restore and those already at their source. */
    method Survey(drafts: seq<Draft>, digest: Content -> string) returns (r: Result<(seq<string>, map<string, string>), Error>)
      ensures r.Ok? <==> forall d :: d in drafts ==> AtSourceOrTarget(files, digest, d)
      ensures r.Ok? ==> Surveyed(files, digest, drafts, r.value.0, r.value.1)
    {
      var restore: seq<string> := [];
      var expected: map<string, string> := map[];
      for i := 0 to |drafts|
        invariant forall j :: 0 <= j < i ==> AtSourceOrTarget(files, digest, drafts[j])
        invariant Surveyed(files, digest, drafts[..i], restore, expected)
      {
        var d := drafts[i];
        assert d in drafts;
        assert drafts[..i + 1] == drafts[..i] + [d];
        if d.source !in files || d.target !in files {
          return Err(Missing);
        }
        if d.source != d.target {
          return Err(PathMoved);
        }
        var current := digest(files[d.source]);
        if current != d.sourceDigest {
          if current != d.targetDigest {
            return Err(EditedLater);
          }
          restore := restore + [d.source];
          expected := expected[d.source := d.sourceDigest];
        }
      }
      assert drafts[..|drafts|] == drafts;
      return Ok((restore, expected));
    }

    /** `rollback_materialized`, over the drafts in document id order. */
    method RollbackMaterialized(drafts: seq<Draft>, git: Git, digest: Content -> string) returns (r: Result<(), Error>)
      modifies this
      ensures files != old(files) || r.Ok? ==>
                drafts != [] && DistinctIds(drafts) && forall d :: d in drafts ==> AtSourceOrTarget(old(files), digest, d)
      ensures r.Ok? && DistinctSources(drafts) ==>
                forall d :: d in drafts ==> d.source in files && digest(files[d.source]) == d.sourceDigest
      ensures forall p :: p in old(files) && !NeedsRestoring(old(files), digest, drafts, p) ==> p in files && files[p] == old(files)[p]
    {
      ghost var was := files;
      if drafts == [] || !DistinctIds(drafts) {
        return Err(BadRequest);
      }
      var survey := Survey(drafts, digest);
      if survey.Err? {
        return Err(survey.error);
      }
      if survey.value.0 != [] {
        r := RestoreTrackedFiles(survey.value.0, survey.value.1, git, digest);
        OnlyTheRestored(was, files, drafts, digest, survey.value.0, git);
      } else {
        r := Ok(());
      }
      if r.Ok? && DistinctSources(drafts) {
        forall d | d in drafts ensures d.source in files && digest(files[d.source]) == d.sourceDigest {
          assert AtSourceOrTarget(was, digest, d);
          if digest(was[d.source]) != d.sourceDigest {
            assert d.source in survey.value.0 && survey.value.1[d.source] == d.sourceDigest;
          } else {
            NotRestoredIfAtSource(was, digest, drafts, d);
          }
        }
      }
    }
  }

  lemma GroupIs(r: Repositories, paths: seq<string>, git: Git, root: string)
    requires Groups(r, git, ToSet(paths)) && root in r.order
    ensures root in r.paths && forall p :: p in r.paths[root] <==> p in In(paths, git, [root])
    ensures forall p :: p in r.paths[root] ==> p in paths
  {
    forall p | p in r.paths[root] ensures p in paths && p in In(paths, git, [root]) {
      assert p in ToSet(paths);
    }
    forall p | p in In(paths, git, [root]) ensures p in r.paths[root] {
      assert p in ToSet(paths);
    }
  }

  lemma OneMoreRepository(r: Repositories, paths: seq<string>, git: Git, n: nat)
    requires n < |r.order| && r.order[n] in r.paths && Groups(r, git, ToSet(paths))
    ensures In(paths, git, r.order[..n + 1]) == In(paths, git, r.order[..n]) + ToSet(r.paths[r.order[n]])
  {
    assert r.order[..n + 1] == r.order[..n] + [r.order[n]];
    forall p | p in In(paths, git, r.order[..n + 1]) ensures p in In(paths, git, r.order[..n]) + ToSet(r.paths[r.order[n]]) {
      assert p in ToSet(paths);
    }
    forall p | p in r.paths[r.order[n]] ensures p in In(paths, git, r.order[..n + 1]) {
      assert p in ToSet(paths);
    }
  }

  lemma AllRepositories(r: Repositories, paths: seq<string>, git: Git)
    requires Groups(r, git, ToSet(paths))
    ensures In(paths, git, r.order[..|r.order|]) == ToSet(paths)
  {
    assert r.order[..|r.order|] == r.order;
    forall p | p in paths ensures p in In(paths, git, r.order) {
      assert p in ToSet(paths);
    }
  }

  lemma WrittenTwice(was: Files, before: Files, files: Files, git: Git, done: set<string>, more: set<string>)
    requires Written(before, was, git, done) && Written(files, before, git, more)
    ensures Written(files, was, git, done + more)
  {
  }

  lemma OnlyTheRestored(was: Files, files: Files, drafts: seq<Draft>, digest: Content -> string, restore: seq<string>, git: Git)
    requires forall p :: p in restore <==> NeedsRestoring(was, digest, drafts, p)
    requires exists done :: done <= ToSet(restore) && Written(files, was, git, done)
    ensures forall p :: p in was && !NeedsRestoring(was, digest, drafts, p) ==> p in files && files[p] == was[p]
  {
    var done :| done <= ToSet(restore) && Written(files, was, git, done);
    assert forall p :: p in done ==> p in restore;
  }

  lemma NotRestoredIfAtSource(was: Files, digest: Content -> string, drafts: seq<Draft>, d: Draft)
    requires DistinctSources(drafts) && d in drafts && d.source in was && digest(was[d.source]) == d.sourceDigest
    ensures !NeedsRestoring(was, digest, drafts, d.source)
  {
  }
}
