/**
 Parallel copying of disjoint files: the job channel and worker loops that `syncFiles`
 (internal/backup/maven_sync.go) and `backupFiles` (internal/backup/maven_incremental_backup.go) share. Workers
 are interchangeable, so the pool is the queued jobs plus the jobs in some worker's hands, and a scheduler that
 may let any of them take its next step stands for every interleaving.
 */
module CopyPool {
  import opened Common

  type Path = string

  datatype File = File(bytes: Bytes, modTime: int)

  type Tree = map<Path, File>

  function Lookup(tree: Tree, p: Path): Option<File> {
    if p in tree then Some(tree[p]) else None
  }

  /** What stays fixed while the workers run. */
  datatype Plan = Plan(
    source: Tree,
    target: Tree,
    jobs: set<Path>,
    /** Whether a worker that compares the source file with the target's finds a copy necessary. */
    needs: (Path, File, Option<File>) -> bool,
    /** The target file a finished copy leaves. */
    copyOf: File -> File,
    dryRun: bool)
  {
    predicate Valid() {
      jobs <= source.Keys && forall p :: p in jobs ==> copyOf(source[p]).bytes == source[p].bytes
    }

    predicate Needed(p: Path)
      requires p in source
    {
      needs(p, source[p], Lookup(target, p))
    }

    /** The target once all jobs are done. */
    function Outcome(): Tree
      requires Valid()
    {
      if dryRun then target else target + map p | p in jobs && Needed(p) :: copyOf(source[p])
    }

    function NeededJobs(): set<Path>
      requires jobs <= source.Keys
    {
      set p | p in jobs && Needed(p)
    }
  }

  /** A job in a worker's hands: not yet decided, or partly copied. */
  datatype Phase = Deciding | Copying(copied: nat)

  datatype Pool = Pool(target: Tree, queue: set<Path>, active: map<Path, Phase>)

  /** What the target holds at one path, given how far that path's job has come. */
  ghost predicate PathOk(plan: Plan, pool: Pool, p: Path)
    requires plan.Valid()
  {
    if p !in plan.jobs then
      p !in pool.queue && p !in pool.active && Lookup(pool.target, p) == Lookup(plan.target, p)
    else if p in pool.queue then
      p !in pool.active && Lookup(pool.target, p) == Lookup(plan.target, p)
    else if p in pool.active then
      match pool.active[p]
      case Deciding => Lookup(pool.target, p) == Lookup(plan.target, p)
      case Copying(k) =>
        && plan.Needed(p) && !plan.dryRun && k <= |plan.source[p].bytes|
        && p in pool.target && pool.target[p].bytes == plan.source[p].bytes[..k]
    else
      Lookup(pool.target, p) ==
        if plan.Needed(p) && !plan.dryRun then Some(plan.copyOf(plan.source[p])) else Lookup(plan.target, p)
  }

  ghost predicate PoolOk(plan: Plan, pool: Pool)
    requires plan.Valid()
  {
    forall p :: PathOk(plan, pool, p)
  }

  /** A pool that differs from a sound one at a single path is sound if it is sound there. */
  lemma OnePathChanges(plan: Plan, before: Pool, after: Pool, p: Path)
    requires plan.Valid() && PoolOk(plan, before) && PathOk(plan, after, p)
    requires forall q :: q != p ==>
      && (q in after.queue <==> q in before.queue) && Lookup(after.target, q) == Lookup(before.target, q)
      && (q in after.active <==> q in before.active) && (q in after.active ==> after.active[q] == before.active[q])
    ensures PoolOk(plan, after)
  {
    forall q
      ensures PathOk(plan, after, q)
    {
      assert PathOk(plan, before, q);
    }
  }

  lemma AllDone(plan: Plan, pool: Pool)
    requires plan.Valid() && PoolOk(plan, pool) && pool.queue == {} && pool.active == map[]
    ensures pool.target == plan.Outcome()
  {
    forall p
      ensures Lookup(pool.target, p) == Lookup(plan.Outcome(), p)
    {
      assert PathOk(plan, pool, p);
    }
    assert forall p :: p in pool.target <==> p in plan.Outcome() by {
      forall p
        ensures p in pool.target <==> p in plan.Outcome()
      {
        assert Lookup(pool.target, p) == Lookup(plan.Outcome(), p);
      }
    }
    forall p | p in pool.target
      ensures pool.target[p] == plan.Outcome()[p]
    {
      assert Lookup(pool.target, p) == Lookup(plan.Outcome(), p);
    }
  }

  /** The number of a step in a job's life, for counting down the work that is left. */
  function StageOf(phase: Phase): nat {
    match phase
    case Deciding => 0
    case Copying(k) => 1 + k
  }

  /** Every step an active job may still take is on the list of work left. */
  ghost predicate WorkListed(plan: Plan, active: map<Path, Phase>, left: set<(Path, nat)>)
    requires plan.jobs <= plan.source.Keys
  {
    forall p, n: nat :: p in active && p in plan.jobs && StageOf(active[p]) <= n <= |plan.source[p].bytes| + 1 ==> (p, n) in left
  }

  /** The steps a job may take, numbered. */
  ghost function StepsOf(plan: Plan, p: Path): set<(Path, nat)>
    requires p in plan.source
  {
    set n: nat | n <= |plan.source[p].bytes| + 1 :: (p, n)
  }

  datatype Progress = Working | Skipped | Copied

  /** One step of the worker that holds job `p`. */
  method Advance(plan: Plan, pool: Pool, p: Path) returns (after: Pool, progress: Progress)
    requires plan.Valid() && PoolOk(plan, pool) && p in pool.active
    ensures PoolOk(plan, after) && after.queue == pool.queue && p in plan.jobs && p !in pool.queue
    ensures progress == Working ==>
              && p in after.active && after.active == pool.active[p := after.active[p]]
              && StageOf(pool.active[p]) < StageOf(after.active[p]) <= |plan.source[p].bytes| + 1
    ensures progress != Working ==>
              && after.active == pool.active - {p} && (progress == Copied <==> plan.Needed(p))
  {
    assert PathOk(plan, pool, p);
    var src := plan.source[p];
    match pool.active[p] {
    case Deciding =>
      if !plan.needs(p, src, Lookup(pool.target, p)) {
        after, progress := pool.(active := pool.active - {p}), Skipped;
      } else if plan.dryRun {
        after, progress := pool.(active := pool.active - {p}), Copied;
      } else {
        var created: int := *;
        after, progress := pool.(target := pool.target[p := File([], created)], active := pool.active[p := Copying(0)]), Working;
      }
    case Copying(k) =>
      if k < |src.bytes| {
        var n: nat :| 1 <= n <= |src.bytes| - k;
        var file := pool.target[p];
        assert src.bytes[..k + n] == src.bytes[..k] + src.bytes[k..k + n];
        after := pool.(target := pool.target[p := file.(bytes := file.bytes + src.bytes[k..k + n])],
                       active := pool.active[p := Copying(k + n)]);
        progress := Working;
      } else {
        after := pool.(target := pool.target[p := plan.copyOf(src)], active := pool.active - {p});
        progress := Copied;
      }
    }
    OnePathChanges(plan, pool, after, p);
  }

  lemma TakeJob(plan: Plan, pool: Pool, p: Path)
    requires plan.Valid() && PoolOk(plan, pool) && p in pool.queue
    ensures p in plan.jobs && PoolOk(plan, pool.(queue := pool.queue - {p}, active := pool.active[p := Deciding]))
  {
    assert PathOk(plan, pool, p);
    OnePathChanges(plan, pool, pool.(queue := pool.queue - {p}, active := pool.active[p := Deciding]), p);
  }

  lemma TakeListsWork(plan: Plan, active: map<Path, Phase>, left: set<(Path, nat)>, p: Path)
    requires plan.jobs <= plan.source.Keys && WorkListed(plan, active, left) && p in plan.jobs
    ensures WorkListed(plan, active[p := Deciding], left + StepsOf(plan, p))
  {
  }

  /** Advancing a job uses up at least the step it stood on. */
  lemma AdvanceUsesWork(plan: Plan, active: map<Path, Phase>, after: map<Path, Phase>, left: set<(Path, nat)>, p: Path)
    requires plan.jobs <= plan.source.Keys && WorkListed(plan, active, left) && p in active && p in plan.jobs
    requires StageOf(active[p]) <= |plan.source[p].bytes| + 1
    requires after == active - {p} ||
             (p in after && after == active[p := after[p]] && StageOf(active[p]) < StageOf(after[p]))
    ensures WorkListed(plan, after, left - {(p, StageOf(active[p]))})
    ensures (p, StageOf(active[p])) in left
  {
  }

  /**
   Runs the jobs on a number of workers in any interleaving. All schedules end, and end with the same target
   and the same counts. With no worker at all, nothing happens to the queued jobs.
   */
  method RunJobs(plan: Plan, workers: int) returns (target: Tree, copied: nat, skipped: nat)
    requires plan.Valid()
    ensures workers >= 1 ==> target == plan.Outcome()
    ensures workers >= 1 ==> copied == |plan.NeededJobs()| && skipped == |plan.jobs| - copied
    ensures workers < 1 ==> target == plan.target && copied == skipped == 0
  {
    if workers < 1 {
      return plan.target, 0, 0;
    }
    var pool := Pool(plan.target, plan.jobs, map[]);
    copied, skipped := 0, 0;
    ghost var account := Account({}, {}, {});
    while pool.queue != {} || pool.active != map[]
      invariant Sound(plan, pool, account) && copied == |account.done| && skipped == |account.gone|
      decreases pool.queue, account.left
    {
      if
      case pool.queue != {} && |pool.active| < workers =>
        pool, account := Take(plan, pool, account);
      case pool.active != map[] =>
        var progress: Progress;
        pool, progress, account := AdvanceAny(plan, pool, account);
        if progress == Copied {
          copied := copied + 1;
        } else if progress == Skipped {
          skipped := skipped + 1;
        }
    }
    AllDone(plan, pool);
    target := pool.target;
    TallyDone(plan, account.done, account.gone);
  }

  /** For the proof: the work left, and the jobs that ended copied or skipped. */
  datatype Account = Account(left: set<(Path, nat)>, done: set<Path>, gone: set<Path>)

  ghost predicate Sound(plan: Plan, pool: Pool, account: Account)
    requires plan.Valid()
  {
    && PoolOk(plan, pool) && WorkListed(plan, pool.active, account.left)
    && Tally(plan, pool.queue, pool.active.Keys, account.done, account.gone)
  }

  /** An idle worker receives some queued job. */
  method Take(plan: Plan, pool: Pool, ghost account: Account) returns (after: Pool, ghost account': Account)
    requires plan.Valid() && Sound(plan, pool, account) && pool.queue != {}
    ensures Sound(plan, after, account') && after.queue < pool.queue
    ensures account'.done == account.done && account'.gone == account.gone
  {
    var p :| p in pool.queue;
    TakeJob(plan, pool, p);
    TakeListsWork(plan, pool.active, account.left, p);
    TallyTake(plan, pool.queue, pool.active, account.done, account.gone, p);
    after := pool.(queue := pool.queue - {p}, active := pool.active[p := Deciding]);
    account' := account.(left := account.left + StepsOf(plan, p));
  }

  /** Some busy worker takes its next step. */
  method AdvanceAny(plan: Plan, pool: Pool, ghost account: Account)
    returns (after: Pool, progress: Progress, ghost account': Account)
    requires plan.Valid() && Sound(plan, pool, account) && pool.active != map[]
    ensures Sound(plan, after, account') && after.queue == pool.queue && account'.left < account.left
    ensures |account'.done| == |account.done| + if progress == Copied then 1 else 0
    ensures |account'.gone| == |account.gone| + if progress == Skipped then 1 else 0
  {
    var p :| p in pool.active;
    assert PathOk(plan, pool, p);
    after, progress := Advance(plan, pool, p);
    AdvanceUsesWork(plan, pool.active, after.active, account.left, p);
    account' := account.(left := account.left - {(p, StageOf(pool.active[p]))});
    if progress == Working {
      assert after.active.Keys == pool.active.Keys;
    } else {
      TallyEnd(plan, pool.queue, pool.active, account.done, account.gone, p);
      if progress == Copied {
        account' := account'.(done := account.done + {p});
      } else {
        account' := account'.(gone := account.gone + {p});
      }
    }
  }

  /** Every job is queued, in hand, counted as copied or counted as skipped. */
  ghost predicate Tally(plan: Plan, queue: set<Path>, active: set<Path>, done: set<Path>, gone: set<Path>)
    requires plan.jobs <= plan.source.Keys
  {
    && plan.jobs == queue + active + done + gone
    && queue !! active && queue + active !! done && queue + active !! gone
    && (forall p :: p in done ==> p in plan.jobs && plan.Needed(p))
    && (forall p :: p in gone ==> p in plan.jobs && !plan.Needed(p))
  }

  lemma TallyTake(plan: Plan, queue: set<Path>, active: map<Path, Phase>, done: set<Path>, gone: set<Path>, p: Path)
    requires plan.jobs <= plan.source.Keys && Tally(plan, queue, active.Keys, done, gone) && p in queue
    ensures Tally(plan, queue - {p}, active[p := Deciding].Keys, done, gone)
  {
    assert active[p := Deciding].Keys == active.Keys + {p};
  }

  lemma TallyEnd(plan: Plan, queue: set<Path>, active: map<Path, Phase>, done: set<Path>, gone: set<Path>, p: Path)
    requires plan.jobs <= plan.source.Keys && Tally(plan, queue, active.Keys, done, gone) && p in active && p in plan.jobs
    ensures p !in done && p !in gone
    ensures plan.Needed(p) ==> Tally(plan, queue, (active - {p}).Keys, done + {p}, gone)
    ensures !plan.Needed(p) ==> Tally(plan, queue, (active - {p}).Keys, done, gone + {p})
  {
    assert (active - {p}).Keys == active.Keys - {p};
  }

  lemma TallyDone(plan: Plan, done: set<Path>, gone: set<Path>)
    requires plan.jobs <= plan.source.Keys && Tally(plan, {}, {}, done, gone)
    ensures |done| == |plan.NeededJobs()| && |gone| == |plan.jobs| - |done|
  {
    assert done == plan.NeededJobs();
    assert gone == plan.jobs - done;
  }
}
