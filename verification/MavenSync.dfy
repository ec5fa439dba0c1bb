/**
 Directory synchronisation of Maven repositories (internal/backup/maven_sync.go): which files are copied,
 skipped and deleted, and when the target ends up equal to the source.
 */
module MavenSync {
  import opened Common
  import opened CopyPool

  datatype Mode = Mirror | Backup | Incremental

  datatype Options = Options(
    mode: Mode, verifyChecksum: bool, confirmDelete: bool, excludePatterns: seq<string>, workers: int, dryRun: bool)

  const DEFAULT_OPTIONS := Options(Backup, false, false, [], 4, false)

  /** The file checksum and the file-name matcher, kept abstract. */
  datatype World = World(checksum: Bytes -> string, matches: (string, string) -> bool)

  ghost predicate CollisionFree(w: World) {
    forall a, b :: w.checksum(a) == w.checksum(b) ==> a == b
  }

  // ---- Exclusion and change detection ----

  const DEFAULT_EXCLUDES := [
    "*.tmp", "*.lock", "*.part", "_remote.repositories", "_maven.repositories", "resolver-status.properties",
    "*.lastUpdated"]

  /** The last element of a cleaned relative path. */
  function Base(path: string): string {
    if path == "" || path[|path| - 1] == '/' then "" else Base(path[..|path| - 1]) + [path[|path| - 1]]
  }

  predicate Contains(s: string, part: string) {
    part <= s || (s != "" && Contains(s[1..], part))
  }

  predicate Excluded(w: World, o: Options, path: Path) {
    var patterns := DEFAULT_EXCLUDES + o.excludePatterns;
    exists i :: 0 <= i < |patterns| && (w.matches(patterns[i], Base(path)) || Contains(path, patterns[i]))
  }

  ghost predicate Within(s: string, part: string) {
    exists before, after :: s == before + part + after
  }

  lemma {:induction false} ContainsIff(s: string, part: string)
    ensures Contains(s, part) <==> Within(s, part)
  {
    if part <= s {
      assert s == "" + part + s[|part|..];
    } else {
      if s != "" {
        ContainsIff(s[1..], part);
        if Within(s[1..], part) {
          var before, after :| s[1..] == before + part + after;
          assert s == ([s[0]] + before) + part + after;
        }
      }
      forall before: string, after: string | s == before + part + after
        ensures s != "" && Within(s[1..], part)
      {
        PartIsLater(s, before, part, after);
      }
    }
  }

  lemma PartIsLater(s: string, before: string, part: string, after: string)
    requires s == before + part + after && !(part <= s)
    ensures before != "" && s != "" && s[1..] == before[1..] + part + after
  {
    assert before == "" ==> part <= s;
  }

  /** The last element is what follows the last slash. */
  lemma {:induction false} BaseIsLast(path: string)
    ensures exists dir :: path == dir + Base(path) && (dir == "" || dir[|dir| - 1] == '/')
    ensures forall i :: 0 <= i < |Base(path)| ==> Base(path)[i] != '/'
  {
    if path == "" || path[|path| - 1] == '/' {
      assert path == path + Base(path);
    } else {
      var init, last := path[..|path| - 1], path[|path| - 1];
      BaseIsLast(init);
      var dir :| init == dir + Base(init) && (dir == "" || dir[|dir| - 1] == '/');
      assert path == dir + Base(path);
    }
  }

  /** A file is excluded by the default patterns and by the user's, matched against its name or contained in its path. */
  lemma ExcludedIff(w: World, o: Options, path: Path)
    ensures Excluded(w, o, path) <==> exists pattern :: ExcludedBy(w, o, path, pattern)
  {
    var patterns := DEFAULT_EXCLUDES + o.excludePatterns;
    forall pattern
      ensures ExcludedBy(w, o, path, pattern) <==>
              pattern in patterns && (w.matches(pattern, Base(path)) || Contains(path, pattern))
    {
      ContainsIff(path, pattern);
    }
    if Excluded(w, o, path) {
      var i :| 0 <= i < |patterns| && (w.matches(patterns[i], Base(path)) || Contains(path, patterns[i]));
      assert ExcludedBy(w, o, path, patterns[i]);
    }
  }

  ghost predicate ExcludedBy(w: World, o: Options, path: Path, pattern: string) {
    && (|| pattern in {"*.tmp", "*.lock", "*.part", "_remote.repositories", "_maven.repositories", "resolver-status.properties", "*.lastUpdated"}
        || pattern in o.excludePatterns)
    && (w.matches(pattern, Base(path)) || Within(path, pattern))
  }

  function NeedsSync(w: World, o: Options, src: File, dst: Option<File>): bool {
    match dst
    case None => true
    case Some(d) =>
      || |src.bytes| != |d.bytes|
      || (o.mode.Incremental? && src.modTime > d.modTime)
      || (o.verifyChecksum && w.checksum(src.bytes) != w.checksum(d.bytes))
  }

  // ---- What a sync does to the target ----

  function Jobs(w: World, o: Options, source: Tree): set<Path> {
    set p | p in source && !Excluded(w, o, p)
  }

  /** A finished copy has the source's bytes and modification time. */
  function PlanFor(w: World, o: Options, source: Tree, target: Tree): (plan: Plan)
    ensures plan.Valid() && plan.jobs == Jobs(w, o, source) && plan.source == source && plan.target == target
    ensures plan.dryRun == o.dryRun
    ensures forall p :: p in source ==> plan.Needed(p) == NeedsSync(w, o, source[p], Lookup(target, p))
    ensures forall f :: plan.copyOf(f) == f
  {
    Plan(source, target, Jobs(w, o, source), (p, src, dst) => NeedsSync(w, o, src, dst), f => f, o.dryRun)
  }

  function AfterCopying(w: World, o: Options, source: Tree, target: Tree): Tree {
    if o.workers >= 1 then PlanFor(w, o, source, target).Outcome() else target
  }

  /** Target files that are neither in the source nor excluded. */
  function Extra(w: World, o: Options, source: Tree, target: Tree): set<Path> {
    set p | p in target && p !in Jobs(w, o, source) && !Excluded(w, o, p)
  }

  predicate Deletes(o: Options) {
    o.mode.Mirror? && !o.dryRun && !o.confirmDelete
  }

  function AfterSync(w: World, o: Options, source: Tree, target: Tree): Tree {
    var copied := AfterCopying(w, o, source, target);
    if Deletes(o) then copied - Extra(w, o, source, copied) else copied
  }

  datatype SyncResult = SyncResult(filesCopied: nat, filesDeleted: nat, filesSkipped: nat)

  // ---- The synchroniser as it runs ----

  method CollectSourceFiles(w: World, o: Options, source: Tree) returns (files: set<Path>)
    ensures files == Jobs(w, o, source)
  {
    files := {};
    var todo := source.Keys;
    while todo != {}
      invariant todo <= source.Keys
      invariant files == set p | p in source && p !in todo && !Excluded(w, o, p)
      decreases todo
    {
      var p :| p in todo;
      todo := todo - {p};
      if !Excluded(w, o, p) {
        files := files + {p};
      }
    }
  }

  /** The walk over the target in mirror mode. Files are removed while walking, which does not disturb the others. */
  method CleanupTarget(w: World, o: Options, source: Tree, sourceFiles: set<Path>, target: Tree)
    returns (cleaned: Tree, deleted: nat)
    requires sourceFiles == Jobs(w, o, source)
    ensures cleaned == if !o.dryRun && !o.confirmDelete then target - Extra(w, o, source, target) else target
    ensures deleted == if o.dryRun || !o.confirmDelete then |Extra(w, o, source, target)| else 0
  {
    cleaned, deleted := target, 0;
    var todo := target.Keys;
    ghost var extra: set<Path> := {};
    assert target - extra == target;
    while todo != {}
      invariant todo <= target.Keys
      invariant extra == set p | p in target && p !in todo && p !in sourceFiles && !Excluded(w, o, p)
      invariant cleaned == if !o.dryRun && !o.confirmDelete then target - extra else target
      invariant deleted == if o.dryRun || !o.confirmDelete then |extra| else 0
      decreases todo
    {
      var p :| p in todo;
      todo := todo - {p};
      if p !in sourceFiles && !Excluded(w, o, p) {
        if o.dryRun {
          deleted := deleted + 1;
        } else if !o.confirmDelete {
          assert target - extra - {p} == target - (extra + {p});
          cleaned := cleaned - {p};
          deleted := deleted + 1;
        }
        extra := extra + {p};
      }
    }
    assert extra == Extra(w, o, source, target);
  }

  /** A whole synchronisation; without options it is a plain backup on four workers. */
  method Sync(w: World, source: Tree, target: Tree, options: Option<Options>) returns (after: Tree, r: SyncResult)
    ensures var o := if options.Some? then options.value else DEFAULT_OPTIONS;
            && after == AfterSync(w, o, source, target)
            && (o.workers >= 1 ==>
                  && r.filesCopied == |PlanFor(w, o, source, target).NeededJobs()|
                  && r.filesCopied + r.filesSkipped == |Jobs(w, o, source)|)
            && (o.workers < 1 ==> r.filesCopied == r.filesSkipped == 0)
            && r.filesDeleted == if o.mode.Mirror? && (o.dryRun || !o.confirmDelete)
                                 then |Extra(w, o, source, AfterCopying(w, o, source, target))| else 0
    ensures options == None ==> after == AfterSync(w, Options(Backup, false, false, [], 4, false), source, target)
  {
    var o := if options.Some? then options.value else DEFAULT_OPTIONS;
    var sourceFiles := CollectSourceFiles(w, o, source);
    var copied, skipped, deleted := 0, 0, 0;
    after, copied, skipped := RunJobs(PlanFor(w, o, source, target), o.workers);
    if o.mode.Mirror? {
      after, deleted := CleanupTarget(w, o, source, sourceFiles, after);
    }
    r := SyncResult(copied, deleted, skipped);
  }

  // ---- When the target equals the source ----

  lemma CopiedAt(w: World, o: Options, source: Tree, target: Tree, p: Path)
    requires o.workers >= 1 && !o.dryRun
    ensures Lookup(AfterCopying(w, o, source, target), p) ==
            if p in Jobs(w, o, source) && NeedsSync(w, o, source[p], Lookup(target, p)) then Some(source[p])
            else Lookup(target, p)
  {
  }

  /** What a sync does at each path, in every mode. */
  lemma SyncAt(w: World, o: Options, source: Tree, target: Tree, p: Path)
    ensures var after := AfterSync(w, o, source, target);
            && (o.dryRun || Excluded(w, o, p) ==> Lookup(after, p) == Lookup(target, p))
            && (!o.dryRun && !Excluded(w, o, p) && p !in source ==>
                  Lookup(after, p) == if o.mode == Mirror && !o.confirmDelete then None else Lookup(target, p))
            && (!o.dryRun && !Excluded(w, o, p) && p in source ==>
                  Lookup(after, p) ==
                    if o.workers < 1 then Lookup(target, p)
                    else if p !in target || |target[p].bytes| != |source[p].bytes| then Some(source[p])
                    else if o.mode == Incremental && source[p].modTime > target[p].modTime then Some(source[p])
                    else if o.verifyChecksum && w.checksum(source[p].bytes) != w.checksum(target[p].bytes) then Some(source[p])
                    else Lookup(target, p))
  {
    if o.workers >= 1 && !o.dryRun {
      CopiedAt(w, o, source, target, p);
    }
  }

  /** Whether the target holds a faithful copy of a source file. */
  predicate SameBytes(source: Tree, target: Tree, p: Path)
    requires p in source
  {
    p in target && target[p].bytes == source[p].bytes
  }

  /** The files change detection is blind to: same size, no newer time that counts, no checksum compared, other bytes. */
  ghost predicate Overlooked(w: World, o: Options, source: Tree, target: Tree, p: Path)
    requires p in source
  {
    && p in target && |target[p].bytes| == |source[p].bytes| && target[p].bytes != source[p].bytes
    && (o.mode.Incremental? ==> source[p].modTime <= target[p].modTime)
    && !o.verifyChecksum
  }

  /** A file ends up copied faithfully exactly when change detection does not overlook it. */
  lemma FaithfulIffNotOverlooked(w: World, o: Options, source: Tree, target: Tree, p: Path)
    requires CollisionFree(w) && o.workers >= 1 && !o.dryRun && p in Jobs(w, o, source)
    ensures SameBytes(source, AfterSync(w, o, source, target), p) <==> !Overlooked(w, o, source, target, p)
  {
    CopiedAt(w, o, source, target, p);
    var copied := AfterCopying(w, o, source, target);
    assert p in copied && p !in Extra(w, o, source, copied);
  }

  /**
   Without checksums, an edit that keeps the size reaches a target synced before exactly in incremental mode and with a
   later stamp.
   */
  lemma SameSizeEditReachesIff(w: World, o: Options, p: Path, first: File, second: File)
    requires CollisionFree(w) && o.workers >= 1 && !o.dryRun && !o.verifyChecksum && !Excluded(w, o, p)
    requires |first.bytes| == |second.bytes| && first.bytes != second.bytes
    ensures var target := AfterSync(w, o, map[p := first], map[]);
            SameBytes(map[p := second], AfterSync(w, o, map[p := second], target), p) <==>
            o.mode.Incremental? && second.modTime > first.modTime
  {
    var target := AfterSync(w, o, map[p := first], map[]);
    CopiedAt(w, o, map[p := first], map[], p);
    assert p in Jobs(w, o, map[p := first]) && p in Jobs(w, o, map[p := second]);
    assert Lookup(target, p) == Some(first);
    FaithfulIffNotOverlooked(w, o, map[p := second], target, p);
  }

  /**
   A mirror sync with checksums makes the non-excluded target equal to the non-excluded source and leaves
   excluded target files alone, whatever the workers' order.
   */
  lemma MirrorEqualsSource(w: World, o: Options, source: Tree, target: Tree, p: Path)
    requires CollisionFree(w) && Deletes(o) && o.verifyChecksum && o.workers >= 1
    ensures var after := AfterSync(w, o, source, target);
            if Excluded(w, o, p) then Lookup(after, p) == Lookup(target, p)
            else (p in after <==> p in source) && (p in source ==> after[p].bytes == source[p].bytes)
  {
    CopiedAt(w, o, source, target, p);
    if p in Jobs(w, o, source) {
      FaithfulIffNotOverlooked(w, o, source, target, p);
    }
  }

  lemma IdleCopying(w: World, o: Options, source: Tree, target: Tree)
    requires PlanFor(w, o, source, target).NeededJobs() == {}
    ensures AfterCopying(w, o, source, target) == target
  {
    var plan := PlanFor(w, o, source, target);
    assert forall p :: p in plan.jobs ==> !plan.Needed(p) by {
      forall p | p in plan.jobs
        ensures !plan.Needed(p)
      {
        assert p !in plan.NeededJobs();
      }
    }
    assert plan.Outcome() == target;
  }

  /** Right after a sync nothing needs copying and nothing is left to delete, in every mode and with any detection. */
  lemma SecondSyncIsIdle(w: World, o: Options, source: Tree, target: Tree)
    requires o.workers >= 1 && !o.dryRun
    ensures var after := AfterSync(w, o, source, target);
            && PlanFor(w, o, source, after).NeededJobs() == {}
            && (Deletes(o) ==> Extra(w, o, source, AfterCopying(w, o, source, after)) == {})
            && AfterSync(w, o, source, after) == after
  {
    var after := AfterSync(w, o, source, target);
    forall p | p in Jobs(w, o, source)
      ensures !NeedsSync(w, o, source[p], Lookup(after, p))
    {
      CopiedAt(w, o, source, target, p);
    }
    assert PlanFor(w, o, source, after).NeededJobs() == {};
    IdleCopying(w, o, source, after);
    if Deletes(o) {
      assert Extra(w, o, source, after) == {};
      assert after - {} == after;
    }
  }
}
