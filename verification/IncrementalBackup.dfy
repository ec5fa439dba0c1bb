/**
 Incremental backups (internal/backup/maven_incremental_backup.go): a backup directory with a metadata file that
 remembers checksums and the time of the last backup, and when every source file has an identical copy in it.
 */
module IncrementalBackup {
  import opened Common
  import opened CopyPool

  datatype Metadata = Metadata(lastBackupTime: int, checksums: map<Path, string>)

  /** The checksum, the exclusion rule and the JSON encoding of metadata, kept abstract. */
  datatype World = World(
    checksum: Bytes -> string, excluded: Path -> bool,
    marshal: Metadata -> Bytes, unmarshal: Bytes -> Option<Metadata>)

  ghost predicate Sane(w: World) {
    && (forall a, b :: w.checksum(a) == w.checksum(b) ==> a == b)
    && (forall m :: w.unmarshal(w.marshal(m)) == Some(m))
  }

  /** The metadata file's own path in the backup directory. */
  const METADATA_PATH := ".backup-metadata.json"

  /** Go's zero time, which a first backup compares modification times with. */
  const ZERO_TIME := 0

  /** The metadata of the previous backup: empty for a first backup, nothing if the file cannot be decoded. */
  function Load(w: World, dir: Tree): Option<Metadata> {
    if METADATA_PATH in dir then w.unmarshal(dir[METADATA_PATH].bytes) else Some(Metadata(ZERO_TIME, map[]))
  }

  // ---- What one backup does ----

  function Candidates(w: World, source: Tree): set<Path> {
    set p | p in source && !w.excluded(p)
  }

  function NeedsBackup(w: World, previous: Metadata, useChecksum: bool, p: Path, f: File): bool {
    if useChecksum then p !in previous.checksums || previous.checksums[p] != w.checksum(f.bytes)
    else f.modTime > previous.lastBackupTime
  }

  function Chosen(w: World, previous: Metadata, useChecksum: bool, source: Tree): set<Path> {
    set p | p in source && !w.excluded(p) && NeedsBackup(w, previous, useChecksum, p, source[p])
  }

  /** Only a checksum backup records checksums. */
  function NewChecksums(w: World, useChecksum: bool, source: Tree): map<Path, string> {
    if useChecksum then map p | p in Candidates(w, source) :: w.checksum(source[p].bytes) else map[]
  }

  function NewMetadata(w: World, useChecksum: bool, source: Tree, now: int): Metadata {
    Metadata(now, NewChecksums(w, useChecksum, source))
  }

  /** Every chosen file is copied; the copy carries the time of the backup. */
  function PlanFor(chosen: set<Path>, source: Tree, dir: Tree, now: int): (plan: Plan)
    requires chosen <= source.Keys
    ensures plan.Valid() && plan.jobs == chosen && plan.source == source && plan.target == dir && !plan.dryRun
    ensures forall p :: p in source ==> plan.Needed(p)
    ensures forall f :: plan.copyOf(f) == File(f.bytes, now)
  {
    Plan(source, dir, chosen, (p, src, dst) => true, (f: File) => File(f.bytes, now), false)
  }

  /** The backup directory after a successful backup. */
  function AfterBackup(w: World, dir: Tree, source: Tree, useChecksum: bool, now: int): Tree
    requires Load(w, dir).Some?
  {
    var chosen := Chosen(w, Load(w, dir).value, useChecksum, source);
    PlanFor(chosen, source, dir, now).Outcome()[METADATA_PATH := File(w.marshal(NewMetadata(w, useChecksum, source, now)), now)]
  }

  // ---- The backup as it runs ----

  class Backup {
    const world: World
    var dir: Tree

    constructor (world: World, dir: Tree)
      ensures this.world == world && this.dir == dir
    {
      this.world := world;
      this.dir := dir;
    }

    /** The walk over the source that picks the files to back up and gathers the new checksums. */
    method Collect(source: Tree, previous: Metadata, useChecksum: bool)
      returns (files: set<Path>, checksums: map<Path, string>)
      ensures files == Chosen(world, previous, useChecksum, source)
      ensures checksums == NewChecksums(world, useChecksum, source)
    {
      files, checksums := {}, map[];
      var todo := source.Keys;
      while todo != {}
        invariant todo <= source.Keys
        invariant files == set p | p in source && p !in todo && !world.excluded(p) && NeedsBackup(world, previous, useChecksum, p, source[p])
        invariant checksums == if useChecksum
                               then map p | p in Candidates(world, source) && p !in todo :: world.checksum(source[p].bytes)
                               else map[]
        decreases todo
      {
        var p :| p in todo;
        todo := todo - {p};
        if !world.excluded(p) {
          var needsBackup := false;
          if useChecksum {
            var checksum := world.checksum(source[p].bytes);
            checksums := checksums[p := checksum];
            needsBackup := p !in previous.checksums || previous.checksums[p] != checksum;
          } else {
            needsBackup := source[p].modTime > previous.lastBackupTime;
          }
          if needsBackup {
            files := files + {p};
          }
        }
      }
    }

    /** Succeeds unless the old metadata cannot be decoded, and then leaves the directory as it was. */
    method PerformBackup(source: Tree, useChecksum: bool, workers: int, now: int) returns (ok: bool)
      modifies this
      ensures ok <==> Load(world, old(dir)).Some?
      ensures dir == if ok then AfterBackup(world, old(dir), source, useChecksum, now) else old(dir)
    {
      var loaded := Load(world, dir);
      if loaded.None? {
        return false;
      }
      var files, checksums := Collect(source, loaded.value, useChecksum);
      BackupFiles(source, files, workers, now);
      dir := dir[METADATA_PATH := File(world.marshal(Metadata(now, checksums)), now)];
      ok := true;
    }

    /** Copies the chosen files on the requested number of workers, or on four. */
    method BackupFiles(source: Tree, files: set<Path>, workers: int, now: int)
      requires files <= source.Keys
      modifies this
      ensures dir == PlanFor(files, source, old(dir), now).Outcome()
    {
      if files == {} {
        NothingToCopy(source, dir, now);
        return;
      }
      var workerCount := if workers <= 0 then 4 else workers;
      var copied, skipped;
      dir, copied, skipped := RunJobs(PlanFor(files, source, dir, now), workerCount);
    }
  }

  lemma NothingToCopy(source: Tree, dir: Tree, now: int)
    ensures PlanFor({}, source, dir, now).Outcome() == dir
  {
  }

  // ---- Histories ----

  /** Recorded checksums are those of the copies in the backup. */
  ghost predicate Honest(w: World, dir: Tree) {
    Load(w, dir).Some? &&
    forall p :: p in Load(w, dir).value.checksums && p != METADATA_PATH ==>
      p in dir && w.checksum(dir[p].bytes) == Load(w, dir).value.checksums[p]
  }

  /** Every file that should be backed up has an identical copy. */
  ghost predicate Complete(w: World, source: Tree, dir: Tree) {
    forall p :: p in Candidates(w, source) && p != METADATA_PATH ==> p in dir && dir[p].bytes == source[p].bytes
  }

  lemma BackedUpAt(w: World, dir: Tree, source: Tree, useChecksum: bool, now: int, p: Path)
    requires Load(w, dir).Some? && p != METADATA_PATH
    ensures Lookup(AfterBackup(w, dir, source, useChecksum, now), p) ==
            if p in Chosen(w, Load(w, dir).value, useChecksum, source) then Some(File(source[p].bytes, now))
            else Lookup(dir, p)
  {
  }

  lemma LoadAfterBackup(w: World, dir: Tree, source: Tree, useChecksum: bool, now: int)
    requires Sane(w) && Load(w, dir).Some?
    ensures Load(w, AfterBackup(w, dir, source, useChecksum, now)) == Some(NewMetadata(w, useChecksum, source, now))
  {
  }

  /** A checksum backup of any source is complete; a backup in either mode leaves honest metadata. */
  lemma BackupKeepsHonest(w: World, dir: Tree, source: Tree, useChecksum: bool, now: int)
    requires Sane(w) && Honest(w, dir)
    ensures var after := AfterBackup(w, dir, source, useChecksum, now);
            Honest(w, after) && (useChecksum ==> Complete(w, source, after))
  {
    var after := AfterBackup(w, dir, source, useChecksum, now);
    LoadAfterBackup(w, dir, source, useChecksum, now);
    if useChecksum {
      forall p | p in Candidates(w, source) && p != METADATA_PATH
        ensures p in after && after[p].bytes == source[p].bytes
      {
        BackedUpAt(w, dir, source, useChecksum, now, p);
      }
    }
  }

  /** One backup of a history: the source as it was then, the mode, and the time. */
  datatype Run = Run(source: Tree, useChecksum: bool, now: int)

  /** The backup directory after a history of backups between which the source changed in any way. */
  ghost function Replay(w: World, history: seq<Run>): (dir: Tree)
    requires Sane(w)
    ensures Honest(w, dir)
  {
    if history == [] then map[] else
    var before, last := Replay(w, history[..|history| - 1]), history[|history| - 1];
    BackupKeepsHonest(w, before, last.source, last.useChecksum, last.now);
    AfterBackup(w, before, last.source, last.useChecksum, last.now)
  }

  /** Whatever happened before, right after a checksum backup every file has an identical copy. */
  lemma ChecksumBackupIsComplete(w: World, history: seq<Run>)
    requires Sane(w) && history != [] && history[|history| - 1].useChecksum
    ensures Complete(w, history[|history| - 1].source, Replay(w, history))
  {
    var before, last := Replay(w, history[..|history| - 1]), history[|history| - 1];
    BackupKeepsHonest(w, before, last.source, last.useChecksum, last.now);
  }

  /** Every file that a timestamp backup passes over already has an identical copy. */
  ghost predicate UnselectedAreCopied(w: World, dir: Tree, source: Tree, last: int) {
    forall p :: p in Candidates(w, source) && p != METADATA_PATH && source[p].modTime <= last ==>
      p in dir && dir[p].bytes == source[p].bytes
  }

  /** A timestamp backup is complete exactly when no file is both unchanged in time and different from its copy. */
  lemma TimestampBackupCompleteIff(w: World, dir: Tree, source: Tree, now: int)
    requires Load(w, dir).Some?
    ensures Complete(w, source, AfterBackup(w, dir, source, false, now)) <==>
            UnselectedAreCopied(w, dir, source, Load(w, dir).value.lastBackupTime)
  {
    forall p | p in Candidates(w, source) && p != METADATA_PATH
      ensures Lookup(AfterBackup(w, dir, source, false, now), p) ==
              if source[p].modTime > Load(w, dir).value.lastBackupTime then Some(File(source[p].bytes, now)) else Lookup(dir, p)
    {
      BackedUpAt(w, dir, source, false, now, p);
    }
  }

  /** Between two backups, every file that is new or changed got a modification time after the earlier backup. */
  ghost predicate HonestTimes(w: World, before: Tree, backupTime: int, after: Tree) {
    forall p :: p in Candidates(w, after) ==>
      (p in before && before[p].bytes == after[p].bytes) || after[p].modTime > backupTime
  }

  ghost predicate HonestClock(w: World, history: seq<Run>) {
    history != [] ==>
      var init, last := history[..|history| - 1], history[|history| - 1];
      HonestClock(w, init) &&
      if init == [] then HonestTimes(w, map[], ZERO_TIME, last.source)
      else HonestTimes(w, init[|init| - 1].source, init[|init| - 1].now, last.source)
  }

  lemma LastBackupTime(w: World, history: seq<Run>)
    requires Sane(w)
    ensures Load(w, Replay(w, history)).value.lastBackupTime ==
            if history == [] then ZERO_TIME else history[|history| - 1].now
  {
    if history != [] {
      var before, last := Replay(w, history[..|history| - 1]), history[|history| - 1];
      LoadAfterBackup(w, before, last.source, last.useChecksum, last.now);
    }
  }

  // ---- Exactly when a backup is complete ----

  ghost function LatestTime(history: seq<Run>): int {
    if history == [] then ZERO_TIME else history[|history| - 1].now
  }

  ghost function Contents(dir: Tree, p: Path): Option<Bytes> {
    if p in dir then Some(dir[p].bytes) else None
  }

  /** The contents the file had at the last backup that saved it: one with checksums, or one that found it stamped since. */
  ghost function LastSaved(w: World, history: seq<Run>, p: Path): Option<Bytes> {
    if history == [] then None else
    var init, last := history[..|history| - 1], history[|history| - 1];
    if p in Candidates(w, last.source) && (last.useChecksum || last.source[p].modTime > LatestTime(init))
    then Some(last.source[p].bytes) else LastSaved(w, init, p)
  }

  /** Whatever the history, the copy of a file is what was last saved of it. */
  lemma {:induction false} CopyIsLastSaved(w: World, history: seq<Run>, p: Path)
    requires Sane(w) && p != METADATA_PATH
    ensures Contents(Replay(w, history), p) == LastSaved(w, history, p)
  {
    if history != [] {
      var init, last := history[..|history| - 1], history[|history| - 1];
      CopyIsLastSaved(w, init, p);
      LastBackupTime(w, init);
      BackedUpAt(w, Replay(w, init), last.source, last.useChecksum, last.now, p);
    }
  }

  /** Every file is stamped after the latest backup, or is as it was last saved. */
  ghost predicate SavedOrStamped(w: World, history: seq<Run>, source: Tree) {
    forall p :: p in Candidates(w, source) && p != METADATA_PATH ==>
      source[p].modTime > LatestTime(history) || LastSaved(w, history, p) == Some(source[p].bytes)
  }

  lemma CopyMatchesIff(w: World, history: seq<Run>, p: Path)
    requires Sane(w) && history != [] && !history[|history| - 1].useChecksum
    requires p in Candidates(w, history[|history| - 1].source) && p != METADATA_PATH
    ensures var init, last, dir := history[..|history| - 1], history[|history| - 1], Replay(w, history);
            (p in dir && dir[p].bytes == last.source[p].bytes) <==>
            last.source[p].modTime > LatestTime(init) || LastSaved(w, init, p) == Some(last.source[p].bytes)
  {
    CopyIsLastSaved(w, history, p);
  }

  /**
   After any history, complete or not, the last backup is complete exactly if it used checksums or every file is stamped
   after the backup before it or is as it was last saved.
   */
  lemma BackupCompleteIff(w: World, history: seq<Run>)
    requires Sane(w) && history != []
    ensures var init, last := history[..|history| - 1], history[|history| - 1];
            Complete(w, last.source, Replay(w, history)) <==> last.useChecksum || SavedOrStamped(w, init, last.source)
  {
    var init, last := history[..|history| - 1], history[|history| - 1];
    if last.useChecksum {
      ChecksumBackupIsComplete(w, history);
    } else {
      forall p | p in Candidates(w, last.source) && p != METADATA_PATH
        ensures (p in Replay(w, history) && Replay(w, history)[p].bytes == last.source[p].bytes) <==>
                last.source[p].modTime > LatestTime(init) || LastSaved(w, init, p) == Some(last.source[p].bytes)
      {
        CopyMatchesIff(w, history, p);
      }
    }
  }

  /** A file edited without a later stamp is missing its edit after a second timestamp backup. */
  lemma UnstampedEditIsMissed(w: World, p: Path, first: File, second: File, now: int, later: int)
    requires Sane(w) && !w.excluded(p) && p != METADATA_PATH && first.bytes != second.bytes
    requires ZERO_TIME < first.modTime && second.modTime <= now
    ensures var history := [Run(map[p := first], false, now), Run(map[p := second], false, later)];
            !Complete(w, map[p := second], Replay(w, history))
  {
    var one, two := Run(map[p := first], false, now), Run(map[p := second], false, later);
    var history := [one, two];
    assert history[..1] == [one];
    SavedOnce(w, one, p);
    assert p in Candidates(w, two.source);
    BackupCompleteIff(w, history);
    assert !SavedOrStamped(w, [one], two.source);
  }

  lemma SavedOnce(w: World, run: Run, p: Path)
    requires p in Candidates(w, run.source) && run.source[p].modTime > ZERO_TIME
    ensures LastSaved(w, [run], p) == Some(run.source[p].bytes) && LatestTime([run]) == run.now
  {
    assert [run][..0] == [];
  }

  lemma MetadataAfter(w: World, history: seq<Run>)
    requires Sane(w) && history != []
    ensures var last := history[|history| - 1];
            Load(w, Replay(w, history)) == Some(NewMetadata(w, last.useChecksum, last.source, last.now))
  {
    var init, last := history[..|history| - 1], history[|history| - 1];
    LoadAfterBackup(w, Replay(w, init), last.source, last.useChecksum, last.now);
  }

  /**
   What a backup leaves alone: with checksums, a file whose contents the backup before recorded; by time, a file not stamped
   after the backup before.
   */
  lemma UnchangedIsLeftAlone(w: World, history: seq<Run>, p: Path)
    requires Sane(w) && |history| >= 2 && p != METADATA_PATH
    requires var last, before := history[|history| - 1], history[|history| - 2];
             p in Candidates(w, last.source) &&
             if last.useChecksum
             then before.useChecksum && p in Candidates(w, before.source) && before.source[p].bytes == last.source[p].bytes
             else last.source[p].modTime <= before.now
    ensures Lookup(Replay(w, history), p) == Lookup(Replay(w, history[..|history| - 1]), p)
  {
    var init, last, before := history[..|history| - 1], history[|history| - 1], history[|history| - 2];
    assert init[|init| - 1] == before;
    MetadataAfter(w, init);
    BackedUpAt(w, Replay(w, init), last.source, last.useChecksum, last.now, p);
  }

  /** Excluded files never get into the backup. */
  lemma {:induction false} ExcludedStaysOut(w: World, history: seq<Run>, p: Path)
    requires Sane(w) && w.excluded(p) && p != METADATA_PATH
    ensures p !in Replay(w, history)
  {
    if history != [] {
      var init, last := history[..|history| - 1], history[|history| - 1];
      ExcludedStaysOut(w, init, p);
      BackedUpAt(w, Replay(w, init), last.source, last.useChecksum, last.now, p);
    }
  }

  // ---- Exactly when every backup of a history is complete ----

  /** The contents the file had when a backup last saw it. */
  ghost function LastSeen(w: World, history: seq<Run>, p: Path): Option<Bytes> {
    if history == [] then None else
    var init, last := history[..|history| - 1], history[|history| - 1];
    if p in Candidates(w, last.source) then Some(last.source[p].bytes) else LastSeen(w, init, p)
  }

  /** Every file is as a backup last saw it, or was stamped after the latest backup. */
  ghost predicate TimelyEdits(w: World, history: seq<Run>, source: Tree) {
    forall p :: p in Candidates(w, source) && p != METADATA_PATH ==>
      LastSeen(w, history, p) == Some(source[p].bytes) || source[p].modTime > LatestTime(history)
  }

  ghost predicate AllTimely(w: World, history: seq<Run>) {
    history != [] ==>
      var init, last := history[..|history| - 1], history[|history| - 1];
      AllTimely(w, init) && (last.useChecksum || TimelyEdits(w, init, last.source))
  }

  ghost predicate AllComplete(w: World, history: seq<Run>)
    requires Sane(w)
  {
    history != [] ==> AllComplete(w, history[..|history| - 1]) && Complete(w, history[|history| - 1].source, Replay(w, history))
  }

  /** After complete backups the copy of a file is what a backup last saw of it, even if the file is gone. */
  lemma {:induction false} CopyIsLastSeen(w: World, history: seq<Run>, p: Path)
    requires Sane(w) && AllComplete(w, history) && p != METADATA_PATH
    ensures Contents(Replay(w, history), p) == LastSeen(w, history, p)
  {
    if history != [] {
      var init, last := history[..|history| - 1], history[|history| - 1];
      CopyIsLastSeen(w, init, p);
      BackedUpAt(w, Replay(w, init), last.source, last.useChecksum, last.now, p);
    }
  }

  lemma TimestampCompleteIff(w: World, init: seq<Run>, source: Tree, now: int)
    requires Sane(w) && AllComplete(w, init)
    ensures Complete(w, source, AfterBackup(w, Replay(w, init), source, false, now)) <==> TimelyEdits(w, init, source)
  {
    LastBackupTime(w, init);
    TimestampBackupCompleteIff(w, Replay(w, init), source, now);
    UnselectedAreTimely(w, init, source);
  }

  lemma UnselectedAreTimely(w: World, init: seq<Run>, source: Tree)
    requires Sane(w) && AllComplete(w, init)
    ensures UnselectedAreCopied(w, Replay(w, init), source, LatestTime(init)) <==> TimelyEdits(w, init, source)
  {
    var dir := Replay(w, init);
    forall p | p in Candidates(w, source) && p != METADATA_PATH
      ensures (p in dir && dir[p].bytes == source[p].bytes) <==> LastSeen(w, init, p) == Some(source[p].bytes)
    {
      CopyIsLastSeen(w, init, p);
    }
  }

  /**
   All backups of a history, in any mixture of modes, are complete exactly if at each timestamp backup every file that
   differs from what a backup last saw of it is stamped after the backup before.
   */
  lemma {:induction false} EveryBackupCompleteIff(w: World, history: seq<Run>)
    requires Sane(w)
    ensures AllComplete(w, history) <==> AllTimely(w, history)
  {
    if history != [] {
      var init, last := history[..|history| - 1], history[|history| - 1];
      EveryBackupCompleteIff(w, init);
      if last.useChecksum {
        ChecksumBackupIsComplete(w, history);
      } else if AllComplete(w, init) {
        TimestampCompleteIff(w, init, last.source, last.now);
      }
    }
  }

  lemma {:induction false} HonestClockIsTimely(w: World, history: seq<Run>)
    requires HonestClock(w, history)
    ensures AllTimely(w, history)
  {
    if history != [] {
      HonestClockIsTimely(w, history[..|history| - 1]);
    }
  }

  /** If edits are always stamped after the latest backup, every backup is complete, in either mode and any mixture. */
  lemma HonestClockIsComplete(w: World, history: seq<Run>)
    requires Sane(w) && history != [] && HonestClock(w, history)
    ensures Complete(w, history[|history| - 1].source, Replay(w, history))
  {
    HonestClockIsTimely(w, history);
    EveryBackupCompleteIff(w, history);
  }
}
