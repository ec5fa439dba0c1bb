/**
 The worker pool of internal/goroutine/worker_pool.go as a state machine. One step is one atomic action of a
 calling goroutine (`Start`, `Submit`, `Shutdown`), of a worker, or of the surroundings. Steps that Go would
 answer with a panic set `panicked`.
 */
module WorkerPool {
  import opened Common

  /** A task value; the same value may be submitted many times. */
  type Task = nat

  datatype Config = Config(workers: int, bufferSize: nat)

  /** What `Submit` answers: no error, or the reason for refusing the task. */
  datatype Answer = Accepted | PoolClosed | PoolCancelled | QueueFull

  /** Where a goroutine inside one of the pool's public calls stands. */
  datatype Caller =
    | SubmitCalled(task: Task) | SubmitLocked(task: Task) | SubmitChecked(task: Task)
    | SubmitLeaving(answer: Answer) | SubmitReturned(answer: Answer)
    | StartCalled | StartLocked | StartSpawning | StartLeaving | StartReturned
    | ShutdownCalled | ShutdownLocked | ShutdownMarked | ShutdownTasksClosed | ShutdownCancelled | ShutdownWaited
    | ShutdownLeaving | ShutdownReturned
    | QueryCalled | QueryLocked | QueryReturned
  {
    /** The call has begun and not yet got the lock. */
    predicate Waits() {
      SubmitCalled? || StartCalled? || ShutdownCalled? || QueryCalled?
    }

    predicate Returned() {
      SubmitReturned? || StartReturned? || ShutdownReturned? || QueryReturned?
    }

    predicate Reading() {
      SubmitLocked? || SubmitChecked? || SubmitLeaving? || QueryLocked?
    }

    predicate Writing() {
      StartLocked? || StartSpawning? || StartLeaving? || ShutdownLocked? || ShuttingDown() || ShutdownLeaving?
    }

    /** Between setting `closed` and closing the error channel. */
    predicate ShuttingDown() {
      ShutdownMarked? || ShutdownTasksClosed? || ShutdownCancelled? || ShutdownWaited?
    }
  }

  /** A running task may be inside a call of its own to the pool; it goes on only when that call has returned. */
  datatype Worker = Waiting | Running(task: Task, inside: Option<nat>) | Reporting | Exited

  datatype State = State(
    started: bool,
    closed: bool,
    queue: seq<Task>,
    taskClosed: bool,
    errors: nat,
    errorClosed: bool,
    cancelled: bool,
    workers: seq<Worker>,
    /** Every call ever made to the pool, by whom it may. */
    callers: seq<Caller>,
    panicked: bool,
    /** Tasks in the order `Submit` accepted them, workers began them, and their execution ended. */
    accepted: seq<Task>,
    begun: seq<Task>,
    finished: seq<Task>)

  const INITIAL := State(false, false, [], false, 0, false, false, [], [], false, [], [], [])

  /** The atomic actions inside each call, in code order where one leads to the next. */
  datatype SubmitStep = ReadLock | CheckClosed | Send | HandOver(w: nat) | SeeCancelled | SeeFull | ReadUnlock
  datatype StartStep = LockToStart | CheckStarted | Spawn | UnlockStarted
  datatype ShutdownStep = LockToClose | MarkClosed | CloseTasks | Cancel | WaitForWorkers | CloseErrors | UnlockClosed
  /** `IsStarted` and `IsClosed` read a flag under the read lock. */
  datatype QueryStep = LockToRead | Answer
  datatype WorkStep = Take | QuitClosed | QuitCancelled | Succeed | Fail | Report | Enter(call: Caller)

  datatype Step =
    | Call(caller: Caller)
    | Submit(t: nat, submit: SubmitStep)
    | Start(t: nat, start: StartStep)
    | Shutdown(t: nat, shutdown: ShutdownStep)
    | Query(t: nat, query: QueryStep)
    | Work(w: nat, work: WorkStep)
    | ParentCancel
    | ReceiveError

  predicate At(s: State, t: nat, c: Caller) {
    t < |s.callers| && s.callers[t] == c
  }

  predicate WorkerIs(s: State, w: nat, worker: Worker) {
    w < |s.workers| && s.workers[w] == worker
  }

  ghost predicate NoWriter(s: State) {
    forall u :: 0 <= u < |s.callers| ==> !s.callers[u].Writing()
  }

  ghost predicate LockFree(s: State) {
    NoWriter(s) && forall u :: 0 <= u < |s.callers| ==> !s.callers[u].Reading()
  }

  predicate AllExited(s: State) {
    forall w :: 0 <= w < |s.workers| ==> s.workers[w] == Exited
  }

  /** The worker runs a task that is inside a call to the pool. */
  predicate InCall(s: State, worker: Worker) {
    worker.Running? && worker.inside.Some? && worker.inside.value < |s.callers| && !s.callers[worker.inside.value].Returned()
  }

  function Move(s: State, t: nat, c: Caller): State
    requires t < |s.callers|
  {
    s.(callers := s.callers[t := c])
  }

  function SetWorker(s: State, w: nat, worker: Worker): State
    requires w < |s.workers|
  {
    s.(workers := s.workers[w := worker])
  }

  ghost predicate CanSubmit(c: Config, s: State, t: nat, step: SubmitStep) {
    t < |s.callers| &&
    match step
    case ReadLock => s.callers[t].SubmitCalled? && NoWriter(s)
    case CheckClosed => s.callers[t].SubmitLocked?
    case Send => s.callers[t].SubmitChecked? && (s.taskClosed || |s.queue| < c.bufferSize)
    case HandOver(w) => s.callers[t].SubmitChecked? && !s.taskClosed && s.queue == [] && WorkerIs(s, w, Waiting)
    case SeeCancelled => s.callers[t].SubmitChecked? && s.cancelled
    case SeeFull => s.callers[t].SubmitChecked? && !s.cancelled && !s.taskClosed && |s.queue| >= c.bufferSize
    case ReadUnlock => s.callers[t].SubmitLeaving?
  }

  ghost function AfterSubmit(c: Config, s: State, t: nat, step: SubmitStep): State
    requires CanSubmit(c, s, t, step)
  {
    match step
    case ReadLock => Move(s, t, SubmitLocked(s.callers[t].task))
    case CheckClosed => Move(s, t, if s.closed then SubmitLeaving(PoolClosed) else SubmitChecked(s.callers[t].task))
    case Send =>
      if s.taskClosed then s.(panicked := true) else
      Accept(s, t).(queue := s.queue + [s.callers[t].task])
    case HandOver(w) => SetWorker(Accept(s, t), w, Running(s.callers[t].task, None)).(begun := s.begun + [s.callers[t].task])
    case SeeCancelled => Move(s, t, SubmitLeaving(PoolCancelled))
    case SeeFull => Move(s, t, SubmitLeaving(QueueFull))
    case ReadUnlock => Move(s, t, SubmitReturned(s.callers[t].answer))
  }

  function Accept(s: State, t: nat): State
    requires t < |s.callers| && s.callers[t].SubmitChecked?
  {
    s.(callers := s.callers[t := SubmitLeaving(Accepted)], accepted := s.accepted + [s.callers[t].task])
  }

  ghost predicate CanStart(c: Config, s: State, t: nat, step: StartStep) {
    t < |s.callers| &&
    match step
    case LockToStart => s.callers[t].StartCalled? && LockFree(s)
    case CheckStarted => s.callers[t].StartLocked?
    case Spawn => s.callers[t].StartSpawning?
    case UnlockStarted => s.callers[t].StartLeaving?
  }

  ghost function AfterStart(c: Config, s: State, t: nat, step: StartStep): State
    requires CanStart(c, s, t, step)
  {
    match step
    case LockToStart => Move(s, t, StartLocked)
    case CheckStarted =>
      if s.started then Move(s, t, StartLeaving) else s.(callers := s.callers[t := StartSpawning], started := true)
    case Spawn => if |s.workers| < c.workers then s.(workers := s.workers + [Waiting]) else Move(s, t, StartLeaving)
    case UnlockStarted => Move(s, t, StartReturned)
  }

  ghost predicate CanShutdown(c: Config, s: State, t: nat, step: ShutdownStep) {
    t < |s.callers| &&
    match step
    case LockToClose => s.callers[t].ShutdownCalled? && LockFree(s)
    case MarkClosed => s.callers[t].ShutdownLocked?
    case CloseTasks => s.callers[t].ShutdownMarked?
    case Cancel => s.callers[t].ShutdownTasksClosed?
    case WaitForWorkers => s.callers[t].ShutdownCancelled? && AllExited(s)
    case CloseErrors => s.callers[t].ShutdownWaited?
    case UnlockClosed => s.callers[t].ShutdownLeaving?
  }

  ghost function AfterShutdown(c: Config, s: State, t: nat, step: ShutdownStep): State
    requires CanShutdown(c, s, t, step)
  {
    match step
    case LockToClose => Move(s, t, ShutdownLocked)
    case MarkClosed =>
      if s.closed then Move(s, t, ShutdownLeaving) else s.(callers := s.callers[t := ShutdownMarked], closed := true)
    case CloseTasks =>
      if s.taskClosed then s.(panicked := true) else
      s.(callers := s.callers[t := ShutdownTasksClosed], taskClosed := true)
    case Cancel => s.(callers := s.callers[t := ShutdownCancelled], cancelled := true)
    case WaitForWorkers => Move(s, t, ShutdownWaited)
    case CloseErrors =>
      if s.errorClosed then s.(panicked := true) else
      s.(callers := s.callers[t := ShutdownLeaving], errorClosed := true)
    case UnlockClosed => Move(s, t, ShutdownReturned)
  }

  ghost predicate CanQuery(s: State, t: nat, step: QueryStep) {
    t < |s.callers| &&
    match step
    case LockToRead => s.callers[t].QueryCalled? && NoWriter(s)
    case Answer => s.callers[t].QueryLocked?
  }

  ghost function AfterQuery(s: State, t: nat, step: QueryStep): State
    requires CanQuery(s, t, step)
  {
    Move(s, t, if step.LockToRead? then QueryLocked else QueryReturned)
  }

  ghost predicate CanWork(c: Config, s: State, w: nat, step: WorkStep) {
    w < |s.workers| &&
    match step
    case Take => s.workers[w].Waiting? && s.queue != []
    case QuitClosed => s.workers[w].Waiting? && s.taskClosed && s.queue == []
    case QuitCancelled => s.workers[w].Waiting? && s.cancelled
    case Succeed => s.workers[w].Running? && !InCall(s, s.workers[w])
    case Fail => s.workers[w].Running? && !InCall(s, s.workers[w])
    case Report => s.workers[w].Reporting?
    case Enter(call) => s.workers[w].Running? && !InCall(s, s.workers[w]) && call.Waits()
  }

  ghost function AfterWork(c: Config, s: State, w: nat, step: WorkStep): State
    requires CanWork(c, s, w, step)
  {
    match step
    case Take => SetWorker(s, w, Running(s.queue[0], None)).(queue := s.queue[1..], begun := s.begun + [s.queue[0]])
    case QuitClosed => SetWorker(s, w, Exited)
    case QuitCancelled => SetWorker(s, w, Exited)
    case Succeed => SetWorker(s, w, Waiting).(finished := s.finished + [s.workers[w].task])
    case Fail => SetWorker(s, w, Reporting).(finished := s.finished + [s.workers[w].task])
    case Report =>
      if s.errorClosed then s.(panicked := true) else
      SetWorker(s, w, Waiting).(errors := if s.errors < c.bufferSize then s.errors + 1 else s.errors)
    case Enter(call) =>
      SetWorker(s, w, Running(s.workers[w].task, Some(|s.callers|))).(callers := s.callers + [call])
  }

  ghost predicate Enabled(c: Config, s: State, step: Step) {
    match step
    case Call(caller) => caller.Waits()
    case Submit(t, x) => CanSubmit(c, s, t, x)
    case Start(t, x) => CanStart(c, s, t, x)
    case Shutdown(t, x) => CanShutdown(c, s, t, x)
    case Query(t, x) => CanQuery(s, t, x)
    case Work(w, x) => CanWork(c, s, w, x)
    case ParentCancel => true
    case ReceiveError => s.errors > 0
  }

  ghost function Next(c: Config, s: State, step: Step): State
    requires Enabled(c, s, step)
  {
    match step
    case Call(caller) => s.(callers := s.callers + [caller])
    case Submit(t, x) => AfterSubmit(c, s, t, x)
    case Start(t, x) => AfterStart(c, s, t, x)
    case Shutdown(t, x) => AfterShutdown(c, s, t, x)
    case Query(t, x) => AfterQuery(s, t, x)
    case Work(w, x) => AfterWork(c, s, w, x)
    case ParentCancel => s.(cancelled := true)
    case ReceiveError => s.(errors := s.errors - 1)
  }

  ghost predicate Takes(c: Config, s: State, step: Step, s': State) {
    Enabled(c, s, step) && s' == Next(c, s, step)
  }

  /** A first `Start` gets past its check although the pool is already closed. */
  predicate LateStart(s: State, step: Step) {
    step.Start? && step.start.CheckStarted? && !s.started && s.closed
  }

  /** The one obligation on callers: a late `Start` finds no accepted task left in the queue, or has no worker to start. */
  ghost predicate Careful(c: Config, s: State, step: Step) {
    LateStart(s, step) ==> s.queue == [] || c.workers < 1
  }

  /** Any interleaving of steps from state to state. */
  ghost predicate Execution(c: Config, states: seq<State>, steps: seq<Step>) {
    && |states| == |steps| + 1
    && forall i {:trigger steps[i]} :: 0 <= i < |steps| ==> Takes(c, states[i], steps[i], states[i + 1])
  }

  ghost predicate AllCareful(c: Config, states: seq<State>, steps: seq<Step>)
    requires |states| == |steps| + 1
  {
    forall i {:trigger steps[i]} :: 0 <= i < |steps| ==> Careful(c, states[i], steps[i])
  }

  ghost predicate Run(c: Config, states: seq<State>, steps: seq<Step>) {
    Execution(c, states, steps) && states[0] == INITIAL && AllCareful(c, states, steps)
  }

  // ---- Locking, closing and panics ----

  /** At most one writer, and no reader beside it. */
  ghost predicate Exclusive(s: State) {
    forall t, u :: 0 <= t < |s.callers| && 0 <= u < |s.callers| && t != u && s.callers[t].Writing() ==>
      !s.callers[u].Writing() && !s.callers[u].Reading()
  }

  ghost predicate CallerOk(c: Config, s: State, caller: Caller) {
    && (caller.SubmitChecked? ==> !s.closed)
    && (caller.ShuttingDown() ==> s.closed && !s.errorClosed)
    && (caller.ShutdownMarked? ==> !s.taskClosed)
    && (caller.ShutdownCancelled? ==> s.cancelled)
    && (caller.ShutdownWaited? ==> AllExited(s))
    && (caller.ShutdownLeaving? || caller.ShutdownReturned? ==> s.errorClosed)
    && (caller.StartSpawning? ==> s.started && (s.closed ==> s.errorClosed && (s.queue == [] || c.workers < 1)))
  }

  /** No worker has or can get a task: all have exited, or the rest wait on a queue that is and stays empty. */
  predicate Quiet(s: State) {
    AllExited(s) || (s.queue == [] && forall w :: 0 <= w < |s.workers| ==> s.workers[w].Waiting? || s.workers[w].Exited?)
  }

  ghost predicate Closing(s: State) {
    && !s.panicked
    && (s.taskClosed || s.errorClosed ==> s.closed)
    && (s.errorClosed ==> Quiet(s))
    && (s.closed && !s.errorClosed ==> exists t :: 0 <= t < |s.callers| && s.callers[t].ShuttingDown())
    && (!s.started ==> s.workers == [])
  }

  ghost predicate Safe(c: Config, s: State) {
    Exclusive(s) && Closing(s) && forall t :: 0 <= t < |s.callers| ==> CallerOk(c, s, s.callers[t])
  }

  /** Moving one goroutine outside the closing sequence keeps the pool safe if it takes locks only when it may. */
  lemma MoveKeepsSafe(c: Config, s: State, t: nat, caller: Caller)
    requires Safe(c, s) && CallerOk(c, s, caller) && !caller.ShuttingDown()
    requires t < |s.callers| && !s.callers[t].ShuttingDown()
    requires caller.Writing() ==> s.callers[t].Writing() || LockFree(s)
    requires caller.Reading() ==> s.callers[t].Reading() || NoWriter(s)
    ensures Safe(c, Move(s, t, caller))
  {
    var s' := Move(s, t, caller);
    if s.closed && !s.errorClosed {
      var u :| 0 <= u < |s.callers| && s.callers[u].ShuttingDown();
      assert 0 <= u < |s'.callers| && s'.callers[u].ShuttingDown();
    }
    forall u | 0 <= u < |s'.callers|
      ensures CallerOk(c, s', s'.callers[u])
    {
      assert u != t ==> CallerOk(c, s, s.callers[u]);
    }
  }

  lemma NewCallIsExclusive(s: State, s': State, call: Caller)
    requires Exclusive(s) && call.Waits() && s'.callers == s.callers + [call]
    ensures Exclusive(s')
  {
  }

  /** A new call waits for the lock and disturbs nobody. */
  lemma NewCallKeepsSafe(c: Config, s: State, call: Caller)
    requires Safe(c, s) && call.Waits()
    ensures Safe(c, s.(callers := s.callers + [call]))
  {
    var s' := s.(callers := s.callers + [call]);
    NewCallIsExclusive(s, s', call);
    if s.closed && !s.errorClosed {
      var u :| 0 <= u < |s.callers| && s.callers[u].ShuttingDown();
      assert 0 <= u < |s'.callers| && s'.callers[u].ShuttingDown();
    }
    forall u | 0 <= u < |s'.callers|
      ensures CallerOk(c, s', s'.callers[u])
    {
      assert u < |s.callers| ==> CallerOk(c, s, s.callers[u]);
    }
  }

  lemma SubmitIsSafe(c: Config, s: State, t: nat, step: SubmitStep)
    requires Safe(c, s) && CanSubmit(c, s, t, step)
    ensures Safe(c, AfterSubmit(c, s, t, step))
  {
    assert CallerOk(c, s, s.callers[t]);
    match step
    case Send => AcceptIsSafe(c, s, t);
    case HandOver(w) => AcceptIsSafe(c, s, t);
    case _ => MoveKeepsSafe(c, s, t, AfterSubmit(c, s, t, step).callers[t]);
  }

  /** Submitting goroutines that have passed the check find the pool open. */
  lemma AcceptIsSafe(c: Config, s: State, t: nat)
    requires Safe(c, s) && t < |s.callers| && s.callers[t].SubmitChecked?
    ensures !s.closed && !s.errorClosed && !s.taskClosed && Safe(c, Accept(s, t))
    ensures forall u :: 0 <= u < |s.callers| ==> !s.callers[u].ShutdownWaited? && !s.callers[u].StartSpawning?
  {
    assert CallerOk(c, s, s.callers[t]);
    MoveKeepsSafe(c, s, t, SubmitLeaving(Accepted));
    forall u | 0 <= u < |s.callers|
      ensures !s.callers[u].ShutdownWaited? && !s.callers[u].StartSpawning?
    {
      assert CallerOk(c, s, s.callers[u]);
      assert s.callers[u].Writing() ==> u != t;
    }
    var s' := Accept(s, t);
    forall u | 0 <= u < |s'.callers|
      ensures CallerOk(c, s', s'.callers[u])
    {
      assert CallerOk(c, Move(s, t, SubmitLeaving(Accepted)), s'.callers[u]);
    }
  }

  /** A goroutine that writes outside the closing sequence sees it not begun or completed. */
  lemma WriterSeesNoClosing(c: Config, s: State, t: nat)
    requires Safe(c, s) && t < |s.callers| && s.callers[t].Writing() && !s.callers[t].ShuttingDown()
    ensures s.closed ==> s.errorClosed
    ensures forall u :: 0 <= u < |s.callers| ==> !s.callers[u].ShuttingDown()
  {
  }

  /** Moving the one writer on keeps exclusion. */
  lemma WriterMoves(s: State, s': State, t: nat, caller: Caller)
    requires Exclusive(s) && t < |s.callers| && s.callers[t].Writing() && caller.Writing()
    requires s'.callers == s.callers[t := caller]
    ensures Exclusive(s')
    ensures forall u :: 0 <= u < |s'.callers| && u != t ==> !s'.callers[u].Writing() && !s'.callers[u].Reading()
  {
  }

  /** A change to `started` and `workers` by the one writer, outside the closing sequence. */
  lemma WriterStarts(c: Config, s: State, s': State, t: nat, caller: Caller)
    requires Safe(c, s) && t < |s.callers| && s.callers[t].Writing() && !s.callers[t].ShuttingDown()
    requires caller.Writing() && CallerOk(c, s', caller) && !caller.ShuttingDown()
    requires s' == s.(callers := s.callers[t := caller], started := s'.started, workers := s'.workers)
    requires !s'.started ==> s'.workers == []
    requires s'.errorClosed ==> Quiet(s')
    requires s.started ==> s'.started
    ensures Safe(c, s')
  {
    WriterSeesNoClosing(c, s, t);
    WriterMoves(s, s', t, caller);
    forall u | 0 <= u < |s'.callers|
      ensures CallerOk(c, s', s'.callers[u])
    {
      assert u != t ==> CallerOk(c, s, s.callers[u]);
    }
  }

  lemma StartIsSafe(c: Config, s: State, t: nat, step: StartStep)
    requires Safe(c, s) && CanStart(c, s, t, step) && Careful(c, s, Start(t, step))
    ensures Safe(c, AfterStart(c, s, t, step))
  {
    var s' := AfterStart(c, s, t, step);
    if step.LockToStart? || step.UnlockStarted? {
      MoveKeepsSafe(c, s, t, s'.callers[t]);
    } else {
      WriterSeesNoClosing(c, s, t);
      assert CallerOk(c, s, s.callers[t]);
      WriterStarts(c, s, s', t, s'.callers[t]);
    }
  }

  lemma ShutdownIsSafe(c: Config, s: State, t: nat, step: ShutdownStep)
    requires Safe(c, s) && CanShutdown(c, s, t, step)
    ensures Safe(c, AfterShutdown(c, s, t, step))
  {
    var s' := AfterShutdown(c, s, t, step);
    assert CallerOk(c, s, s.callers[t]);
    if step.LockToClose? || step.UnlockClosed? {
      MoveKeepsSafe(c, s, t, s'.callers[t]);
    } else {
      if step.MarkClosed? {
        WriterSeesNoClosing(c, s, t);
      }
      WriterMoves(s, s', t, s'.callers[t]);
      assert s'.closed && !s'.errorClosed ==> s'.callers[t].ShuttingDown();
      forall u | 0 <= u < |s'.callers|
        ensures CallerOk(c, s', s'.callers[u])
      {
        assert u != t ==> CallerOk(c, s, s.callers[u]);
      }
    }
  }

  lemma WorkIsSafe(c: Config, s: State, w: nat, step: WorkStep)
    requires Safe(c, s) && CanWork(c, s, w, step)
    ensures Safe(c, AfterWork(c, s, w, step))
  {
    if step.Enter? {
      NewCallKeepsSafe(c, s, step.call);
    }
    var s' := AfterWork(c, s, w, step);
    assert !s.workers[w].Exited?;
    forall u | 0 <= u < |s'.callers|
      ensures CallerOk(c, s', s'.callers[u])
    {
      assert u < |s.callers| ==> CallerOk(c, s, s.callers[u]);
    }
  }

  lemma QueryIsSafe(c: Config, s: State, t: nat, step: QueryStep)
    requires Safe(c, s) && CanQuery(s, t, step)
    ensures Safe(c, AfterQuery(s, t, step))
  {
    MoveKeepsSafe(c, s, t, if step.LockToRead? then QueryLocked else QueryReturned);
  }

  /** What happens outside the pool moves no call. */
  lemma OutsideIsSafe(c: Config, s: State, errors: nat, cancelled: bool)
    requires Safe(c, s) && (s.cancelled ==> cancelled)
    ensures Safe(c, s.(errors := errors, cancelled := cancelled))
  {
    forall u | 0 <= u < |s.callers|
      ensures CallerOk(c, s.(errors := errors, cancelled := cancelled), s.callers[u])
    {
      assert CallerOk(c, s, s.callers[u]);
    }
  }

  lemma StepIsSafe(c: Config, s: State, step: Step)
    requires Safe(c, s) && Enabled(c, s, step) && Careful(c, s, step)
    ensures Safe(c, Next(c, s, step))
  {
    match step
    case Call(caller) => NewCallKeepsSafe(c, s, caller);
    case Submit(t, x) => SubmitIsSafe(c, s, t, x);
    case Start(t, x) => StartIsSafe(c, s, t, x);
    case Shutdown(t, x) => ShutdownIsSafe(c, s, t, x);
    case Query(t, x) => QueryIsSafe(c, s, t, x);
    case Work(w, x) => WorkIsSafe(c, s, w, x);
    case ParentCancel => OutsideIsSafe(c, s, s.errors, true);
    case ReceiveError => OutsideIsSafe(c, s, s.errors - 1, s.cancelled);
  }

  // ---- Accounting ----

  function TasksOf(worker: Worker): multiset<Task> {
    if worker.Running? then multiset{worker.task} else multiset{}
  }

  function RunningTasks(workers: seq<Worker>): multiset<Task> {
    if workers == [] then multiset{} else RunningTasks(workers[..|workers| - 1]) + TasksOf(workers[|workers| - 1])
  }

  lemma AddLast(changed: multiset<Task>, before: multiset<Task>, x: multiset<Task>, y: multiset<Task>, last: multiset<Task>)
    requires changed + x == before + y
    ensures (changed + last) + x == (before + last) + y
  {
    forall t: Task
      ensures ((changed + last) + x)[t] == ((before + last) + y)[t]
    {
      assert (changed + x)[t] == (before + y)[t];
    }
  }

  lemma {:induction false} OneWorkerChanges(workers: seq<Worker>, w: nat, worker: Worker)
    requires w < |workers|
    ensures RunningTasks(workers[w := worker]) + TasksOf(workers[w]) == RunningTasks(workers) + TasksOf(worker)
  {
    var after, n := workers[w := worker], |workers| - 1;
    if w == n {
      assert after[..n] == workers[..n];
      assert RunningTasks(after) == RunningTasks(workers[..n]) + TasksOf(worker);
    } else {
      var last := TasksOf(workers[n]);
      var before, changed := RunningTasks(workers[..n]), RunningTasks(workers[..n][w := worker]);
      OneWorkerChanges(workers[..n], w, worker);
      assert after[..n] == workers[..n][w := worker];
      AddLast(changed, before, TasksOf(workers[w]), TasksOf(worker), last);
    }
  }

  lemma {:induction false} RunningAtMostWorkers(workers: seq<Worker>)
    ensures |RunningTasks(workers)| <= |workers|
  {
    if workers != [] {
      RunningAtMostWorkers(workers[..|workers| - 1]);
    }
  }

  /** First in, first out; nothing lost or duplicated; buffers and workers within their configured number. */
  ghost predicate Accounted(c: Config, s: State) {
    s.accepted == s.begun + s.queue && Conserved(s) && Bounded(c, s)
  }

  ghost predicate Conserved(s: State) {
    multiset(s.begun) == RunningTasks(s.workers) + multiset(s.finished)
  }

  ghost predicate Bounded(c: Config, s: State) {
    && |s.queue| <= c.bufferSize && s.errors <= c.bufferSize
    && |s.workers| <= if c.workers > 0 then c.workers else 0
  }

  /** A worker change together with the tasks it begins and ends. */
  lemma WorkerChangeConserves(s: State, w: nat, worker: Worker, began: seq<Task>, ended: seq<Task>)
    requires Conserved(s) && w < |s.workers|
    requires TasksOf(s.workers[w]) + multiset(began) == TasksOf(worker) + multiset(ended)
    ensures multiset(s.begun + began) == RunningTasks(s.workers[w := worker]) + multiset(s.finished + ended)
  {
    OneWorkerChanges(s.workers, w, worker);
    var before, after := RunningTasks(s.workers), RunningTasks(s.workers[w := worker]);
    forall x: Task
      ensures multiset(s.begun + began)[x] == (after + multiset(s.finished + ended))[x]
    {
      assert (after + TasksOf(s.workers[w]))[x] == (before + TasksOf(worker))[x];
      assert (TasksOf(s.workers[w]) + multiset(began))[x] == (TasksOf(worker) + multiset(ended))[x];
    }
  }

  lemma BeginningConserves(s: State, w: nat, task: Task)
    requires Conserved(s) && w < |s.workers| && s.workers[w].Waiting?
    ensures multiset(s.begun + [task]) == RunningTasks(s.workers[w := Running(task, None)]) + multiset(s.finished)
  {
    WorkerChangeConserves(s, w, Running(task, None), [task], []);
    assert s.finished + [] == s.finished;
  }

  lemma EndingConserves(s: State, w: nat, worker: Worker)
    requires Conserved(s) && w < |s.workers| && s.workers[w].Running? && !worker.Running?
    ensures multiset(s.begun) == RunningTasks(s.workers[w := worker]) + multiset(s.finished + [s.workers[w].task])
  {
    WorkerChangeConserves(s, w, worker, [], [s.workers[w].task]);
    assert s.begun + [] == s.begun;
  }

  lemma SameTaskConserves(s: State, w: nat, worker: Worker)
    requires Conserved(s) && w < |s.workers| && TasksOf(s.workers[w]) == TasksOf(worker)
    ensures multiset(s.begun) == RunningTasks(s.workers[w := worker]) + multiset(s.finished)
  {
    WorkerChangeConserves(s, w, worker, [], []);
    assert s.begun + [] == s.begun && s.finished + [] == s.finished;
  }

  lemma SubmitIsAccounted(c: Config, s: State, t: nat, step: SubmitStep)
    requires Accounted(c, s) && CanSubmit(c, s, t, step)
    ensures Accounted(c, AfterSubmit(c, s, t, step))
  {
    match step
    case Send =>
      assert (s.begun + s.queue) + [s.callers[t].task] == s.begun + (s.queue + [s.callers[t].task]);
    case HandOver(w) => HandOverIsAccounted(c, s, t, w);
    case _ =>
  }

  lemma HandOverIsAccounted(c: Config, s: State, t: nat, w: nat)
    requires Accounted(c, s) && CanSubmit(c, s, t, HandOver(w))
    ensures Accounted(c, AfterSubmit(c, s, t, HandOver(w)))
  {
    var task := s.callers[t].task;
    BeginningConserves(s, w, task);
    assert s.begun + [] == s.begun && s.begun + [task] + [] == s.begun + [task];
  }

  lemma TakeIsAccounted(c: Config, s: State, w: nat)
    requires Accounted(c, s) && CanWork(c, s, w, Take)
    ensures Accounted(c, AfterWork(c, s, w, Take))
  {
    BeginningConserves(s, w, s.queue[0]);
    assert s.begun + s.queue == s.begun + [s.queue[0]] + s.queue[1..];
  }

  lemma EnterIsAccounted(c: Config, s: State, w: nat, call: Caller)
    requires Accounted(c, s) && CanWork(c, s, w, Enter(call))
    ensures Accounted(c, AfterWork(c, s, w, Enter(call)))
  {
    SameTaskConserves(s, w, Running(s.workers[w].task, Some(|s.callers|)));
  }

  lemma WorkIsAccounted(c: Config, s: State, w: nat, step: WorkStep)
    requires Accounted(c, s) && CanWork(c, s, w, step)
    ensures Accounted(c, AfterWork(c, s, w, step))
  {
    match step
    case Take => TakeIsAccounted(c, s, w);
    case Succeed => EndingConserves(s, w, Waiting);
    case Fail => EndingConserves(s, w, Reporting);
    case Report => SameTaskConserves(s, w, Waiting);
    case Enter(call) => EnterIsAccounted(c, s, w, call);
    case _ => SameTaskConserves(s, w, Exited);
  }

  lemma NewWorkerRunsNothing(workers: seq<Worker>)
    ensures RunningTasks(workers + [Waiting]) == RunningTasks(workers)
  {
    assert (workers + [Waiting])[..|workers|] == workers;
  }

  lemma SpawnIsAccounted(c: Config, s: State)
    requires Accounted(c, s) && |s.workers| < c.workers
    ensures Accounted(c, s.(workers := s.workers + [Waiting]))
  {
    NewWorkerRunsNothing(s.workers);
  }

  lemma StartIsAccounted(c: Config, s: State, t: nat, step: StartStep)
    requires Accounted(c, s) && CanStart(c, s, t, step)
    ensures Accounted(c, AfterStart(c, s, t, step))
  {
    if step.Spawn? && |s.workers| < c.workers {
      SpawnIsAccounted(c, s);
    }
  }

  lemma ShutdownIsAccounted(c: Config, s: State, t: nat, step: ShutdownStep)
    requires Accounted(c, s) && CanShutdown(c, s, t, step)
    ensures Accounted(c, AfterShutdown(c, s, t, step))
  {
  }

  lemma StepIsAccounted(c: Config, s: State, step: Step)
    requires Accounted(c, s) && Enabled(c, s, step)
    ensures Accounted(c, Next(c, s, step))
  {
    match step
    case Submit(t, x) => SubmitIsAccounted(c, s, t, x);
    case Start(t, x) => StartIsAccounted(c, s, t, x);
    case Shutdown(t, x) => ShutdownIsAccounted(c, s, t, x);
    case Work(w, x) => WorkIsAccounted(c, s, w, x);
    case _ =>
  }

  // ---- Whole runs ----

  lemma {:induction false} StaysSafe(c: Config, states: seq<State>, steps: seq<Step>, i: nat)
    requires Execution(c, states, steps) && AllCareful(c, states, steps) && Safe(c, states[0]) && i < |states|
    ensures Safe(c, states[i])
  {
    if i > 0 {
      StaysSafe(c, states, steps, i - 1);
      StepIsSafe(c, states[i - 1], steps[i - 1]);
    }
  }

  lemma {:induction false} StaysAccounted(c: Config, states: seq<State>, steps: seq<Step>, i: nat)
    requires Execution(c, states, steps) && Accounted(c, states[0]) && i < |states|
    ensures Accounted(c, states[i])
  {
    if i > 0 {
      StaysAccounted(c, states, steps, i - 1);
      StepIsAccounted(c, states[i - 1], steps[i - 1]);
    }
  }

  lemma ReachableIsSafe(c: Config, states: seq<State>, steps: seq<Step>, i: nat)
    requires Run(c, states, steps) && i < |states|
    ensures Safe(c, states[i]) && Accounted(c, states[i])
  {
    StaysSafe(c, states, steps, i);
    StaysAccounted(c, states, steps, i);
  }

  /** No step of any run sends on or closes a closed channel. */
  lemma NoPanic(c: Config, states: seq<State>, steps: seq<Step>, i: nat)
    requires Run(c, states, steps) && i < |states|
    ensures !states[i].panicked
  {
    ReachableIsSafe(c, states, steps, i);
  }

  /** Accepted tasks are exactly the queued, the running and the finished ones, and are begun in acceptance order. */
  lemma TasksConserved(c: Config, states: seq<State>, steps: seq<Step>, i: nat)
    requires Execution(c, states, steps) && states[0] == INITIAL && i < |states|
    ensures var s := states[i];
            && s.begun <= s.accepted && s.accepted[|s.begun|..] == s.queue
            && multiset(s.accepted) == multiset(s.queue) + RunningTasks(s.workers) + multiset(s.finished)
            && |RunningTasks(s.workers)| <= (if c.workers > 0 then c.workers else 0)
            && |s.queue| <= c.bufferSize && s.errors <= c.bufferSize
  {
    StaysAccounted(c, states, steps, i);
    RunningAtMostWorkers(states[i].workers);
  }

  // ---- Errors of tasks ----

  function Failures(steps: seq<Step>): nat {
    if steps == [] then 0 else
    Failures(steps[..|steps| - 1]) + if steps[|steps| - 1].Work? && steps[|steps| - 1].work.Fail? then 1 else 0
  }

  function Received(steps: seq<Step>): nat {
    if steps == [] then 0 else Received(steps[..|steps| - 1]) + if steps[|steps| - 1].ReceiveError? then 1 else 0
  }

  /** A worker reports an error while the channel is open and full. */
  predicate Drops(c: Config, s: State, step: Step) {
    step.Work? && step.work.Report? && !s.errorClosed && s.errors == c.bufferSize
  }

  function Dropped(c: Config, states: seq<State>, steps: seq<Step>): nat
    requires |states| == |steps| + 1
  {
    if steps == [] then 0 else
    var n := |steps| - 1;
    Dropped(c, states[..n + 1], steps[..n]) + if Drops(c, states[n], steps[n]) then 1 else 0
  }

  /** How many workers hold the error of a failed task. */
  function Holding(workers: seq<Worker>): nat {
    if workers == [] then 0 else
    Holding(workers[..|workers| - 1]) + if workers[|workers| - 1].Reporting? then 1 else 0
  }

  lemma {:induction false} OneHolderChanges(workers: seq<Worker>, w: nat, worker: Worker)
    requires w < |workers|
    ensures Holding(workers[w := worker]) + (if workers[w].Reporting? then 1 else 0) ==
            Holding(workers) + if worker.Reporting? then 1 else 0
  {
    var after, n := workers[w := worker], |workers| - 1;
    if w == n {
      assert after[..n] == workers[..n];
    } else {
      assert after[..n] == workers[..n][w := worker];
      OneHolderChanges(workers[..n], w, worker);
    }
  }

  /** The errors of failed tasks that are still on their way. */
  function Pending(s: State): nat {
    Holding(s.workers) + s.errors
  }

  lemma ReportErrors(c: Config, s: State, w: nat)
    requires Bounded(c, s) && CanWork(c, s, w, Report)
    ensures Pending(AfterWork(c, s, w, Report)) + (if Drops(c, s, Work(w, Report)) then 1 else 0) == Pending(s)
  {
    OneHolderChanges(s.workers, w, Waiting);
  }

  lemma WorkErrors(c: Config, s: State, w: nat, step: WorkStep)
    requires Bounded(c, s) && CanWork(c, s, w, step)
    ensures Pending(AfterWork(c, s, w, step)) + (if Drops(c, s, Work(w, step)) then 1 else 0) ==
            Pending(s) + if step.Fail? then 1 else 0
  {
    match step
    case Take => OneHolderChanges(s.workers, w, Running(s.queue[0], None));
    case QuitClosed => OneHolderChanges(s.workers, w, Exited);
    case QuitCancelled => OneHolderChanges(s.workers, w, Exited);
    case Succeed => OneHolderChanges(s.workers, w, Waiting);
    case Fail => OneHolderChanges(s.workers, w, Reporting);
    case Report => ReportErrors(c, s, w);
    case Enter(_) => OneHolderChanges(s.workers, w, Running(s.workers[w].task, Some(|s.callers|)));
  }

  lemma SpawnedHoldsNothing(workers: seq<Worker>)
    ensures Holding(workers + [Waiting]) == Holding(workers)
  {
    assert (workers + [Waiting])[..|workers|] == workers;
  }

  lemma SubmitErrors(c: Config, s: State, t: nat, step: SubmitStep)
    requires CanSubmit(c, s, t, step)
    ensures Pending(AfterSubmit(c, s, t, step)) == Pending(s)
  {
    if step.HandOver? {
      OneHolderChanges(s.workers, step.w, AfterSubmit(c, s, t, step).workers[step.w]);
    }
  }

  lemma StartErrors(c: Config, s: State, t: nat, step: StartStep)
    requires CanStart(c, s, t, step)
    ensures Pending(AfterStart(c, s, t, step)) == Pending(s)
  {
    if step.Spawn? && |s.workers| < c.workers {
      SpawnKeepsPending(s);
    }
  }

  lemma SpawnKeepsPending(s: State)
    ensures Pending(s.(workers := s.workers + [Waiting])) == Pending(s)
  {
    SpawnedHoldsNothing(s.workers);
  }

  lemma ShutdownErrors(c: Config, s: State, t: nat, step: ShutdownStep)
    requires CanShutdown(c, s, t, step)
    ensures Pending(AfterShutdown(c, s, t, step)) == Pending(s)
  {
  }

  lemma StepErrors(c: Config, s: State, step: Step)
    requires Bounded(c, s) && Enabled(c, s, step)
    ensures Pending(Next(c, s, step)) + (if Drops(c, s, step) then 1 else 0) + (if step.ReceiveError? then 1 else 0) ==
            Pending(s) + if step.Work? && step.work.Fail? then 1 else 0
  {
    match step
    case Submit(t, x) => SubmitErrors(c, s, t, x);
    case Start(t, x) => StartErrors(c, s, t, x);
    case Shutdown(t, x) => ShutdownErrors(c, s, t, x);
    case Work(w, x) => WorkErrors(c, s, w, x);
    case _ =>
  }

  lemma PrefixOfExecution(c: Config, states: seq<State>, steps: seq<Step>)
    requires Execution(c, states, steps) && steps != []
    ensures Execution(c, states[..|steps|], steps[..|steps| - 1])
  {
  }

  /**
   Over every interleaving, each error of a failed task is held by its worker, waits in the channel, was received, or was
   dropped because the channel was full.
   */
  lemma {:induction false} ErrorsConserved(c: Config, states: seq<State>, steps: seq<Step>)
    requires Execution(c, states, steps) && states[0] == INITIAL
    ensures Failures(steps) ==
            Holding(states[|steps|].workers) + states[|steps|].errors + Received(steps) + Dropped(c, states, steps)
  {
    if steps != [] {
      var n := |steps| - 1;
      PrefixOfExecution(c, states, steps);
      ErrorsConserved(c, states[..n + 1], steps[..n]);
      StaysAccounted(c, states, steps, n);
      StepErrors(c, states[n], steps[n]);
      assert Takes(c, states[n], steps[n], states[n + 1]);
    }
  }

  /** Calls can be made at any time, and an error can be received exactly while there is one in the channel. */
  lemma OutsideIsFree(c: Config, s: State, call: Caller)
    ensures Enabled(c, s, Call(call)) <==> call.Waits()
    ensures Enabled(c, s, ReceiveError) <==> s.errors > 0
    ensures Enabled(c, s, ParentCancel) && Next(c, s, ParentCancel).cancelled
  {
  }

  // ---- What Submit answers, and when workers exit ----

  function AnswerOf(caller: Caller): Option<Answer> {
    match caller
    case SubmitLeaving(a) => Some(a)
    case SubmitReturned(a) => Some(a)
    case _ => None
  }

  /** How many calls of `Submit` were answered without an error. */
  function AcceptedCalls(callers: seq<Caller>): nat {
    if callers == [] then 0 else
    AcceptedCalls(callers[..|callers| - 1]) + if AnswerOf(callers[|callers| - 1]) == Some(Accepted) then 1 else 0
  }

  lemma {:induction false} OneAnswerChanges(callers: seq<Caller>, t: nat, caller: Caller)
    requires t < |callers|
    ensures AcceptedCalls(callers[t := caller]) + (if AnswerOf(callers[t]) == Some(Accepted) then 1 else 0) ==
            AcceptedCalls(callers) + if AnswerOf(caller) == Some(Accepted) then 1 else 0
  {
    var after, n := callers[t := caller], |callers| - 1;
    if t == n {
      assert after[..n] == callers[..n];
    } else {
      assert after[..n] == callers[..n][t := caller];
      OneAnswerChanges(callers[..n], t, caller);
    }
  }

  lemma NewCallIsUnanswered(callers: seq<Caller>, call: Caller)
    requires call.Waits()
    ensures AcceptedCalls(callers + [call]) == AcceptedCalls(callers)
  {
    assert (callers + [call])[..|callers|] == callers;
  }

  /** A refusal has its reason, and a worker leaves an uncancelled pool only when no task is left. */
  ghost predicate Reasoned(s: State) {
    && (forall t :: 0 <= t < |s.callers| && AnswerOf(s.callers[t]) == Some(PoolClosed) ==> s.closed)
    && (forall t :: 0 <= t < |s.callers| && AnswerOf(s.callers[t]) == Some(PoolCancelled) ==> s.cancelled)
    && (forall w :: 0 <= w < |s.workers| && s.workers[w].Exited? && !s.cancelled ==> s.taskClosed && s.queue == [])
  }

  lemma SubmitIsReasoned(c: Config, s: State, t: nat, step: SubmitStep)
    requires Reasoned(s) && CanSubmit(c, s, t, step)
    ensures Reasoned(AfterSubmit(c, s, t, step))
  {
  }

  lemma SpawnIsReasoned(s: State)
    requires Reasoned(s)
    ensures Reasoned(s.(workers := s.workers + [Waiting]))
  {
  }

  lemma StartIsReasoned(c: Config, s: State, t: nat, step: StartStep)
    requires Reasoned(s) && CanStart(c, s, t, step)
    ensures Reasoned(AfterStart(c, s, t, step))
  {
    if step.Spawn? && |s.workers| < c.workers {
      SpawnIsReasoned(s);
    }
  }

  lemma ShutdownIsReasoned(c: Config, s: State, t: nat, step: ShutdownStep)
    requires Reasoned(s) && CanShutdown(c, s, t, step)
    ensures Reasoned(AfterShutdown(c, s, t, step))
  {
  }

  lemma WorkIsReasoned(c: Config, s: State, w: nat, step: WorkStep)
    requires Reasoned(s) && CanWork(c, s, w, step)
    ensures Reasoned(AfterWork(c, s, w, step))
  {
  }

  lemma StepIsReasoned(c: Config, s: State, step: Step)
    requires Reasoned(s) && Enabled(c, s, step)
    ensures Reasoned(Next(c, s, step))
  {
    match step
    case Submit(t, x) => SubmitIsReasoned(c, s, t, x);
    case Start(t, x) => StartIsReasoned(c, s, t, x);
    case Shutdown(t, x) => ShutdownIsReasoned(c, s, t, x);
    case Work(w, x) => WorkIsReasoned(c, s, w, x);
    case _ =>
  }

  /** As many calls were answered without an error as tasks were accepted. */
  ghost predicate Tallied(s: State) {
    AcceptedCalls(s.callers) == |s.accepted|
  }

  lemma SubmitAnswers(c: Config, s: State, t: nat, step: SubmitStep)
    requires CanSubmit(c, s, t, step) && Tallied(s)
    ensures Tallied(AfterSubmit(c, s, t, step))
  {
    var s' := AfterSubmit(c, s, t, step);
    OneAnswerChanges(s.callers, t, s'.callers[t]);
    assert s.callers[t := s.callers[t]] == s.callers;
  }

  /** A call that is answered neither before nor after does not change the count. */
  lemma UnansweredMoves(callers: seq<Caller>, t: nat, caller: Caller)
    requires t < |callers| && AnswerOf(callers[t]) == None && AnswerOf(caller) == None
    ensures AcceptedCalls(callers[t := caller]) == AcceptedCalls(callers)
  {
    OneAnswerChanges(callers, t, caller);
  }

  lemma CallerKeepsTally(s: State, s': State, t: nat, caller: Caller)
    requires Tallied(s) && t < |s.callers| && AnswerOf(s.callers[t]) == None && AnswerOf(caller) == None
    requires s'.callers == s.callers[t := caller] && s'.accepted == s.accepted
    ensures Tallied(s')
  {
    UnansweredMoves(s.callers, t, caller);
  }

  lemma StartAnswers(c: Config, s: State, t: nat, step: StartStep)
    requires CanStart(c, s, t, step) && Tallied(s)
    ensures Tallied(AfterStart(c, s, t, step))
  {
    if !(step.Spawn? && |s.workers| < c.workers) {
      CallerKeepsTally(s, AfterStart(c, s, t, step), t, AfterStart(c, s, t, step).callers[t]);
    }
  }

  lemma ShutdownAnswers(c: Config, s: State, t: nat, step: ShutdownStep)
    requires CanShutdown(c, s, t, step) && Tallied(s)
    ensures Tallied(AfterShutdown(c, s, t, step))
  {
    var s' := AfterShutdown(c, s, t, step);
    assert s.callers[t := s.callers[t]] == s.callers;
    CallerKeepsTally(s, s', t, s'.callers[t]);
  }

  lemma WorkAnswers(c: Config, s: State, w: nat, step: WorkStep)
    requires CanWork(c, s, w, step) && Tallied(s)
    ensures Tallied(AfterWork(c, s, w, step))
  {
    if step.Enter? {
      NewCallIsUnanswered(s.callers, step.call);
    }
  }

  lemma StepAnswers(c: Config, s: State, step: Step)
    requires Enabled(c, s, step) && Tallied(s)
    ensures Tallied(Next(c, s, step))
  {
    match step
    case Call(call) => NewCallIsUnanswered(s.callers, call);
    case Submit(t, x) => SubmitAnswers(c, s, t, x);
    case Start(t, x) => StartAnswers(c, s, t, x);
    case Shutdown(t, x) => ShutdownAnswers(c, s, t, x);
    case Query(t, x) => UnansweredMoves(s.callers, t, AfterQuery(s, t, x).callers[t]);
    case Work(w, x) => WorkAnswers(c, s, w, x);
    case _ =>
  }

  /**
   Over every interleaving, as many calls of `Submit` were answered without an error as tasks were accepted; a call is told
   that the pool is closed or cancelled only if it is; and a worker exits before cancellation only once the task channel is
   closed and empty.
   */
  lemma {:induction false} AnswersHaveReasons(c: Config, states: seq<State>, steps: seq<Step>, i: nat)
    requires Execution(c, states, steps) && states[0] == INITIAL && i < |states|
    ensures Tallied(states[i]) && Reasoned(states[i])
  {
    if i > 0 {
      AnswersHaveReasons(c, states, steps, i - 1);
      StepAnswers(c, states[i - 1], steps[i - 1]);
      StepIsReasoned(c, states[i - 1], steps[i - 1]);
      assert Takes(c, states[i - 1], steps[i - 1], states[i]);
    }
  }

  /** What an answer means at the moment it is decided. */
  lemma AnswerMeans(c: Config, s: State, t: nat, step: SubmitStep)
    requires Safe(c, s) && Bounded(c, s) && CanSubmit(c, s, t, step) && AnswerOf(s.callers[t]) == None
    ensures var s' := AfterSubmit(c, s, t, step);
            match AnswerOf(s'.callers[t])
            case None => s'.accepted == s.accepted
            case Some(Accepted) => !s.closed && s'.accepted == s.accepted + [s.callers[t].task]
            case Some(PoolClosed) => s.closed && s'.accepted == s.accepted
            case Some(PoolCancelled) => s.cancelled && !s.closed && s'.accepted == s.accepted
            case Some(QueueFull) => |s.queue| == c.bufferSize && !s.cancelled && !s.closed && s'.accepted == s.accepted
  {
    assert CallerOk(c, s, s.callers[t]);
  }

  ghost predicate ShutdownHasReturned(s: State) {
    exists t: nat :: At(s, t, ShutdownReturned)
  }

  /** With the error channel closed, nothing is accepted, begun or finished. */
  ghost predicate SameTasks(s: State, s': State) {
    s'.errorClosed == s.errorClosed && s'.accepted == s.accepted && s'.begun == s.begun && s'.finished == s.finished
  }

  lemma QuietWork(c: Config, s: State, w: nat, step: WorkStep)
    requires Quiet(s) && CanWork(c, s, w, step)
    ensures SameTasks(s, AfterWork(c, s, w, step))
  {
  }

  lemma QuietSubmit(c: Config, s: State, t: nat, step: SubmitStep)
    requires Safe(c, s) && s.errorClosed && CanSubmit(c, s, t, step)
    ensures SameTasks(s, AfterSubmit(c, s, t, step))
  {
    assert CallerOk(c, s, s.callers[t]);
  }

  lemma QuietShutdown(c: Config, s: State, t: nat, step: ShutdownStep)
    requires Safe(c, s) && s.errorClosed && CanShutdown(c, s, t, step)
    ensures SameTasks(s, AfterShutdown(c, s, t, step))
  {
  }

  lemma QuietStep(c: Config, s: State, step: Step)
    requires Safe(c, s) && s.errorClosed && Enabled(c, s, step)
    ensures SameTasks(s, Next(c, s, step))
  {
    match step
    case Submit(t, x) => QuietSubmit(c, s, t, x);
    case Shutdown(t, x) => QuietShutdown(c, s, t, x);
    case Work(w, x) => QuietWork(c, s, w, x);
    case _ =>
  }

  lemma QuietRunsNothing(workers: seq<Worker>)
    requires forall w :: 0 <= w < |workers| ==> !workers[w].Running?
    ensures RunningTasks(workers) == multiset{}
  {
  }

  lemma {:induction false} ClosedForGood(c: Config, states: seq<State>, steps: seq<Step>, i: nat, j: nat)
    requires Run(c, states, steps) && i <= j < |states| && states[i].errorClosed
    ensures states[j].errorClosed && states[j].begun == states[i].begun
    ensures states[j].finished == states[i].finished && states[j].accepted == states[i].accepted
  {
    if i < j {
      ClosedForGood(c, states, steps, i, j - 1);
      ReachableIsSafe(c, states, steps, j - 1);
      QuietStep(c, states[j - 1], steps[j - 1]);
    }
  }

  /** Once any `Shutdown` has returned, no task is running, none starts later and none is accepted any more. */
  lemma QuietAfterShutdown(c: Config, states: seq<State>, steps: seq<Step>, i: nat, j: nat)
    requires Run(c, states, steps) && i <= j < |states| && ShutdownHasReturned(states[i])
    ensures RunningTasks(states[j].workers) == multiset{}
    ensures states[j].begun == states[i].begun && states[j].finished == states[i].finished
    ensures states[j].accepted == states[i].accepted
  {
    ReachableIsSafe(c, states, steps, i);
    var t: nat :| At(states[i], t, ShutdownReturned);
    assert CallerOk(c, states[i], states[i].callers[t]);
    ClosedForGood(c, states, steps, i, j);
    ReachableIsSafe(c, states, steps, j);
    QuietRunsNothing(states[j].workers);
  }

  // ---- Reachable states ----

  /** Some careful run leads to the state. */
  ghost predicate Reached(c: Config, s: State) {
    exists states, steps :: Run(c, states, steps) && states[|steps|] == s
  }

  /** Some interleaving leads to the state, careful or not. */
  ghost predicate Occurs(c: Config, s: State) {
    exists states, steps :: Execution(c, states, steps) && states[0] == INITIAL && states[|steps|] == s
  }

  lemma OneMoreStep(c: Config, states: seq<State>, steps: seq<Step>, step: Step)
    requires Execution(c, states, steps) && Enabled(c, states[|steps|], step)
    ensures Execution(c, states + [Next(c, states[|steps|], step)], steps + [step])
    ensures AllCareful(c, states, steps) && Careful(c, states[|steps|], step) ==>
              AllCareful(c, states + [Next(c, states[|steps|], step)], steps + [step])
  {
    var states', steps' := states + [Next(c, states[|steps|], step)], steps + [step];
    forall i {:trigger steps'[i]} | 0 <= i < |steps'|
      ensures Takes(c, states'[i], steps'[i], states'[i + 1])
      ensures AllCareful(c, states, steps) && Careful(c, states[|steps|], step) ==> Careful(c, states'[i], steps'[i])
    {
      assert i < |steps| ==> steps'[i] == steps[i];
    }
  }

  lemma InitialReached(c: Config)
    ensures Reached(c, INITIAL)
  {
    assert Run(c, [INITIAL], []);
  }

  lemma ReachedNext(c: Config, s: State, step: Step)
    requires Reached(c, s) && Enabled(c, s, step) && Careful(c, s, step)
    ensures Reached(c, Next(c, s, step))
  {
    var states, steps :| Run(c, states, steps) && states[|steps|] == s;
    OneMoreStep(c, states, steps, step);
    assert Run(c, states + [Next(c, s, step)], steps + [step]);
  }

  lemma OccursNext(c: Config, s: State, step: Step)
    requires Occurs(c, s) && Enabled(c, s, step)
    ensures Occurs(c, Next(c, s, step))
  {
    var states, steps :| Execution(c, states, steps) && states[0] == INITIAL && states[|steps|] == s;
    OneMoreStep(c, states, steps, step);
    var states' := states + [Next(c, s, step)];
    assert Execution(c, states', steps + [step]) && states'[0] == INITIAL;
  }

  lemma ReachedIsSafe(c: Config, s: State)
    requires Reached(c, s)
    ensures Safe(c, s) && Accounted(c, s)
  {
    var states, steps :| Run(c, states, steps) && states[|steps|] == s;
    ReachableIsSafe(c, states, steps, |steps|);
  }

  // ---- Deadlock ----

  /** A step of the pool itself: of a call under way or of a worker. Whether a task makes a call is its own choice. */
  predicate Internal(step: Step) {
    OfCall(step) || (step.Work? && !step.work.Enter?)
  }

  ghost predicate CanMove(c: Config, s: State) {
    exists step :: Internal(step) && Enabled(c, s, step)
  }

  /** The task is inside a pool call that waits for the lock, or that is itself the `Shutdown` waiting for the workers. */
  predicate LockedOut(s: State, worker: Worker) {
    InCall(s, worker) && (s.callers[worker.inside.value].Waits() || s.callers[worker.inside.value].ShutdownCancelled?)
  }

  /** A `Shutdown` holds the lock and waits for a worker whose task cannot go on. */
  predicate Blocked(s: State, t: nat, w: nat) {
    At(s, t, ShutdownCancelled) && w < |s.workers| && LockedOut(s, s.workers[w])
  }

  /** A `Shutdown` waits for the workers, and each that is left has a task that cannot go on. */
  ghost predicate Deadlocked(s: State) {
    && (exists t: nat :: At(s, t, ShutdownCancelled))
    && !AllExited(s)
    && forall w :: 0 <= w < |s.workers| && !s.workers[w].Exited? ==> LockedOut(s, s.workers[w])
  }

  /** Every call has returned, and the workers have exited or wait on an empty open queue. */
  ghost predicate AtRest(s: State) {
    && (forall t :: 0 <= t < |s.callers| ==> s.callers[t].Returned())
    && forall w :: 0 <= w < |s.workers| && !s.workers[w].Exited? ==>
         s.workers[w].Waiting? && s.queue == [] && !s.taskClosed && !s.cancelled
  }

  /** No read lock is granted while a writer is waiting, as Go's lock has it. */
  predicate WritersFirst(s: State, step: Step) {
    (step.Submit? && step.submit.ReadLock?) || (step.Query? && step.query.LockToRead?) ==>
      forall u :: 0 <= u < |s.callers| ==> !s.callers[u].StartCalled? && !s.callers[u].ShutdownCalled?
  }

  /** A worker that is not held up can take a step once the pool is cancelled. */
  lemma WorkerCanMove(c: Config, s: State, w: nat) returns (step: Step)
    requires s.cancelled && w < |s.workers| && !s.workers[w].Exited? && !InCall(s, s.workers[w])
    ensures Internal(step) && Enabled(c, s, step) && WritersFirst(s, step)
  {
    match s.workers[w]
    case Waiting => step := Work(w, QuitCancelled);
    case Running(_, _) => step := Work(w, Succeed);
    case Reporting => step := Work(w, Report);
  }

  /** While a `Shutdown` waits for the workers, a task that is inside a pool call is locked out. */
  lemma InCallIsLockedOut(c: Config, s: State, t: nat, worker: Worker)
    requires Safe(c, s) && At(s, t, ShutdownCancelled) && InCall(s, worker)
    ensures LockedOut(s, worker)
  {
    var u := worker.inside.value;
    assert u != t ==> !s.callers[u].Writing() && !s.callers[u].Reading();
  }

  lemma ShutdownCanMove(c: Config, s: State, t: nat) returns (step: Step)
    requires Safe(c, s) && At(s, t, ShutdownCancelled) && !Deadlocked(s)
    ensures Internal(step) && Enabled(c, s, step) && WritersFirst(s, step)
  {
    assert CallerOk(c, s, s.callers[t]);
    if AllExited(s) {
      step := Shutdown(t, WaitForWorkers);
    } else {
      var w :| 0 <= w < |s.workers| && !s.workers[w].Exited? && !LockedOut(s, s.workers[w]);
      if InCall(s, s.workers[w]) {
        InCallIsLockedOut(c, s, t, s.workers[w]);
      }
      step := WorkerCanMove(c, s, w);
    }
  }

  /** Whoever holds the lock can go on, or waits only for workers that can. */
  lemma HolderCanMove(c: Config, s: State, t: nat) returns (step: Step)
    requires Safe(c, s) && t < |s.callers| && (s.callers[t].Reading() || s.callers[t].Writing()) && !Deadlocked(s)
    ensures Internal(step) && Enabled(c, s, step) && WritersFirst(s, step)
  {
    match s.callers[t]
    case SubmitLocked(_) => step := Submit(t, CheckClosed);
    case SubmitChecked(_) =>
      step := if s.cancelled then Submit(t, SeeCancelled)
              else if s.taskClosed || |s.queue| < c.bufferSize then Submit(t, Send) else Submit(t, SeeFull);
    case SubmitLeaving(_) => step := Submit(t, ReadUnlock);
    case StartLocked => step := Start(t, CheckStarted);
    case StartSpawning => step := Start(t, Spawn);
    case StartLeaving => step := Start(t, UnlockStarted);
    case ShutdownLocked => step := Shutdown(t, MarkClosed);
    case ShutdownMarked => step := Shutdown(t, CloseTasks);
    case ShutdownTasksClosed => step := Shutdown(t, Cancel);
    case ShutdownCancelled => step := ShutdownCanMove(c, s, t);
    case ShutdownWaited => step := Shutdown(t, CloseErrors);
    case ShutdownLeaving => step := Shutdown(t, UnlockClosed);
    case QueryLocked => step := Query(t, Answer);
  }

  /** With the lock free, some waiting call can take it; writers go first. */
  lemma WaiterCanMove(c: Config, s: State, t: nat) returns (step: Step)
    requires LockFree(s) && t < |s.callers| && s.callers[t].Waits()
    ensures Internal(step) && Enabled(c, s, step) && WritersFirst(s, step)
  {
    if u: nat :| u < |s.callers| && s.callers[u].StartCalled? {
      step := Start(u, LockToStart);
    } else if u: nat :| u < |s.callers| && s.callers[u].ShutdownCalled? {
      step := Shutdown(u, LockToClose);
    } else {
      step := if s.callers[t].SubmitCalled? then Submit(t, ReadLock) else Query(t, LockToRead);
    }
  }

  /** As long as some call has not returned and the pool is not deadlocked, it can take a step, even with writers first. */
  lemma SomethingMoves(c: Config, s: State, t: nat) returns (step: Step)
    requires Safe(c, s) && t < |s.callers| && !s.callers[t].Returned() && !Deadlocked(s)
    ensures Internal(step) && Enabled(c, s, step) && WritersFirst(s, step)
  {
    if u: nat :| u < |s.callers| && (s.callers[u].Reading() || s.callers[u].Writing()) {
      step := HolderCanMove(c, s, u);
    } else {
      step := WaiterCanMove(c, s, t);
    }
  }

  predicate OfCall(step: Step) {
    step.Submit? || step.Start? || step.Shutdown? || step.Query?
  }

  /** While a `Shutdown` holds the lock and waits for workers, no call moves. */
  lemma CallsStay(c: Config, s: State, t: nat, step: Step)
    requires Exclusive(s) && At(s, t, ShutdownCancelled) && !AllExited(s) && OfCall(step)
    ensures !Enabled(c, s, step)
  {
    assert s.callers[t].Writing();
    assert step.t != t && step.t < |s.callers| ==> !s.callers[step.t].Writing() && !s.callers[step.t].Reading();
  }

  lemma DeadlockedIsStuck(c: Config, s: State)
    requires Safe(c, s) && Deadlocked(s)
    ensures !CanMove(c, s)
  {
    var t: nat :| At(s, t, ShutdownCancelled);
    forall step | Internal(step)
      ensures !Enabled(c, s, step)
    {
      if OfCall(step) {
        CallsStay(c, s, t, step);
      }
    }
  }

  lemma RestingIsStuck(c: Config, s: State)
    requires AtRest(s)
    ensures !CanMove(c, s)
  {
    forall step | Internal(step)
      ensures !Enabled(c, s, step)
    {
      assert !step.Work? && step.t < |s.callers| ==> s.callers[step.t].Returned();
    }
  }

  lemma IdleWorkersRest(c: Config, s: State, w: nat)
    requires !CanMove(c, s) && w < |s.workers| && !s.workers[w].Exited? && !InCall(s, s.workers[w])
    ensures s.workers[w].Waiting? && s.queue == [] && !s.taskClosed && !s.cancelled
  {
    assert !Enabled(c, s, Work(w, Succeed)) && !Enabled(c, s, Work(w, Report)) && !Enabled(c, s, Work(w, Take));
    assert !Enabled(c, s, Work(w, QuitClosed)) && !Enabled(c, s, Work(w, QuitCancelled));
  }

  /** In every reachable state, the pool can take no step of its own exactly when it is deadlocked or at rest. */
  lemma StuckIff(c: Config, s: State)
    requires Reached(c, s)
    ensures !CanMove(c, s) <==> Deadlocked(s) || AtRest(s)
    ensures (exists t :: 0 <= t < |s.callers| && !s.callers[t].Returned()) ==> (!CanMove(c, s) <==> Deadlocked(s))
  {
    ReachedIsSafe(c, s);
    if Deadlocked(s) {
      DeadlockedIsStuck(c, s);
    } else if t: nat :| t < |s.callers| && !s.callers[t].Returned() {
      var step := SomethingMoves(c, s, t);
    } else if AtRest(s) {
      RestingIsStuck(c, s);
    } else if !CanMove(c, s) {
      forall w | 0 <= w < |s.workers| && !s.workers[w].Exited?
        ensures s.workers[w].Waiting? && s.queue == [] && !s.taskClosed && !s.cancelled
      {
        IdleWorkersRest(c, s, w);
      }
    }
  }

  lemma WorkStaysBlocked(c: Config, s: State, v: nat, step: WorkStep, t: nat, w: nat)
    requires Blocked(s, t, w) && CanWork(c, s, v, step)
    ensures Blocked(AfterWork(c, s, v, step), t, w)
  {
    assert v != w;
  }

  lemma StaysBlocked(c: Config, s: State, step: Step, s': State, t: nat, w: nat)
    requires Exclusive(s) && Blocked(s, t, w) && Takes(c, s, step, s')
    ensures Blocked(s', t, w)
  {
    assert !AllExited(s);
    if OfCall(step) {
      CallsStay(c, s, t, step);
    } else if step.Work? {
      WorkStaysBlocked(c, s, step.w, step.work, t, w);
    }
  }

  lemma BlockedOneMoreStep(c: Config, states: seq<State>, steps: seq<Step>, j: nat, t: nat, w: nat)
    requires Run(c, states, steps) && 0 < j < |states| && Blocked(states[j - 1], t, w)
    ensures Blocked(states[j], t, w)
  {
    ReachableIsSafe(c, states, steps, j - 1);
    StaysBlocked(c, states[j - 1], steps[j - 1], states[j], t, w);
  }

  /** A blocked `Shutdown` never returns, whatever happens. */
  lemma {:induction false} BlockedForever(c: Config, states: seq<State>, steps: seq<Step>, i: nat, j: nat, t: nat, w: nat)
    requires Run(c, states, steps) && i <= j < |states| && Blocked(states[i], t, w)
    ensures Blocked(states[j], t, w)
  {
    if i < j {
      BlockedForever(c, states, steps, i, j - 1, t, w);
      BlockedOneMoreStep(c, states, steps, j, t, w);
    }
  }

  // ---- A deadlocking run ----

  /** `Start` spawns all its workers. */
  lemma {:induction false} SpawnAll(c: Config, s: State, t: nat) returns (s': State)
    requires Reached(c, s) && At(s, t, StartSpawning) && forall w :: 0 <= w < |s.workers| ==> s.workers[w] == Waiting
    ensures Reached(c, s') && s' == s.(callers := s.callers[t := StartLeaving], workers := s'.workers)
    ensures |s'.workers| >= c.workers && forall w :: 0 <= w < |s'.workers| ==> s'.workers[w] == Waiting
    decreases c.workers - |s.workers|
  {
    ReachedNext(c, s, Start(t, Spawn));
    if |s.workers| < c.workers {
      s' := SpawnAll(c, Next(c, s, Start(t, Spawn)), t);
    } else {
      s' := Next(c, s, Start(t, Spawn));
    }
  }

  /** A started pool whose first worker runs a task. */
  lemma BusyPool(c: Config, task: Task) returns (s: State)
    requires c.workers >= 1
    ensures Reached(c, s) && s.callers == [StartReturned, SubmitReturned(Accepted)] && s.started && !s.closed
    ensures s.workers != [] && s.workers[0] == Running(task, None)
  {
    InitialReached(c);
    ReachedNext(c, INITIAL, Call(StartCalled));
    s := Next(c, INITIAL, Call(StartCalled));
    ReachedNext(c, s, Start(0, LockToStart));
    s := Next(c, s, Start(0, LockToStart));
    ReachedNext(c, s, Start(0, CheckStarted));
    s := SpawnAll(c, Next(c, s, Start(0, CheckStarted)), 0);
    ReachedNext(c, s, Start(0, UnlockStarted));
    s := SubmitToIdle(c, Next(c, s, Start(0, UnlockStarted)), task);
  }

  lemma SubmitToIdle(c: Config, s: State, task: Task) returns (s': State)
    requires Reached(c, s) && s.callers == [StartReturned] && !s.closed && !s.taskClosed && s.queue == []
    requires s.workers != [] && s.workers[0] == Waiting
    ensures Reached(c, s') && s'.callers == [StartReturned, SubmitReturned(Accepted)] && s'.started == s.started && !s'.closed
    ensures s'.workers != [] && s'.workers[0] == Running(task, None)
  {
    ReachedNext(c, s, Call(SubmitCalled(task)));
    s' := Next(c, s, Call(SubmitCalled(task)));
    ReachedNext(c, s', Submit(1, ReadLock));
    s' := Next(c, s', Submit(1, ReadLock));
    ReachedNext(c, s', Submit(1, CheckClosed));
    s' := Next(c, s', Submit(1, CheckClosed));
    ReachedNext(c, s', Submit(1, HandOver(0)));
    s' := Next(c, s', Submit(1, HandOver(0)));
    ReachedNext(c, s', Submit(1, ReadUnlock));
    s' := Next(c, s', Submit(1, ReadUnlock));
  }

  /** A `Shutdown` takes the free lock and goes on to wait for the workers. */
  lemma BeginShutdown(c: Config, s: State) returns (s': State)
    requires Reached(c, s) && LockFree(s) && !s.closed && !s.taskClosed
    ensures Reached(c, s')
    ensures s' == s.(callers := s.callers + [ShutdownCancelled], closed := true, taskClosed := true, cancelled := true)
  {
    var t := |s.callers|;
    ReachedNext(c, s, Call(ShutdownCalled));
    s' := Next(c, s, Call(ShutdownCalled));
    ReachedNext(c, s', Shutdown(t, LockToClose));
    s' := Next(c, s', Shutdown(t, LockToClose));
    ReachedNext(c, s', Shutdown(t, MarkClosed));
    s' := Next(c, s', Shutdown(t, MarkClosed));
    ReachedNext(c, s', Shutdown(t, CloseTasks));
    s' := Next(c, s', Shutdown(t, CloseTasks));
    ReachedNext(c, s', Shutdown(t, Cancel));
    s' := Next(c, s', Shutdown(t, Cancel));
  }

  /** A task that makes any call to its pool while another goroutine shuts it down blocks that `Shutdown` for good. */
  lemma DeadlockingRun(c: Config, task: Task, call: Caller) returns (s: State, t: nat)
    requires c.workers >= 1 && call.Waits()
    ensures Reached(c, s) && Blocked(s, t, 0)
  {
    s := BusyPool(c, task);
    ReachedIsSafe(c, s);
    s := BeginShutdown(c, s);
    t := 2;
    ReachedNext(c, s, Work(0, Enter(call)));
    s := Next(c, s, Work(0, Enter(call)));
  }

  /** Exactly the pools with a worker can deadlock. */
  lemma CanDeadlockIff(c: Config)
    ensures (exists s, t: nat, w: nat :: Reached(c, s) && Blocked(s, t, w)) <==> c.workers >= 1
  {
    if c.workers >= 1 {
      var s, t := DeadlockingRun(c, 0, QueryCalled);
    }
    forall s, t: nat, w: nat | Reached(c, s) && Blocked(s, t, w)
      ensures c.workers >= 1
    {
      ReachedIsSafe(c, s);
    }
  }

  // ---- Termination ----

  /** How many steps of its own a call has at most left, counting those it makes for the workers. */
  function CallerRank(caller: Caller): nat {
    match caller
    case SubmitCalled(_) => 7
    case SubmitLocked(_) => 6
    case SubmitChecked(_) => 5
    case SubmitLeaving(_) => 1
    case StartCalled => 4
    case StartLocked => 3
    case StartSpawning => 2
    case StartLeaving => 1
    case ShutdownCalled => 7
    case ShutdownLocked => 6
    case ShutdownMarked => 5
    case ShutdownTasksClosed => 4
    case ShutdownCancelled => 3
    case ShutdownWaited => 2
    case ShutdownLeaving => 1
    case QueryCalled => 2
    case QueryLocked => 1
    case _ => 0
  }

  function WorkerRank(worker: Worker): nat {
    match worker
    case Waiting => 1
    case Running(_, _) => 3
    case Reporting => 2
    case Exited => 0
  }

  function CallersRank(callers: seq<Caller>): nat {
    if callers == [] then 0 else CallersRank(callers[..|callers| - 1]) + CallerRank(callers[|callers| - 1])
  }

  function WorkersRank(workers: seq<Worker>): nat {
    if workers == [] then 0 else WorkersRank(workers[..|workers| - 1]) + WorkerRank(workers[|workers| - 1])
  }

  /** An upper bound on the steps the pool can take before it needs something from outside. */
  function StepsLeft(c: Config, s: State): nat {
    CallersRank(s.callers) + WorkersRank(s.workers) + 3 * |s.queue| +
    if |s.workers| < c.workers then 2 * (c.workers - |s.workers|) else 0
  }

  lemma {:induction false} OneCallerRank(callers: seq<Caller>, t: nat, caller: Caller)
    requires t < |callers|
    ensures CallersRank(callers[t := caller]) + CallerRank(callers[t]) == CallersRank(callers) + CallerRank(caller)
  {
    var after, n := callers[t := caller], |callers| - 1;
    if t == n {
      assert after[..n] == callers[..n];
    } else {
      assert after[..n] == callers[..n][t := caller];
      OneCallerRank(callers[..n], t, caller);
    }
  }

  lemma {:induction false} OneWorkerRank(workers: seq<Worker>, w: nat, worker: Worker)
    requires w < |workers|
    ensures WorkersRank(workers[w := worker]) + WorkerRank(workers[w]) == WorkersRank(workers) + WorkerRank(worker)
  {
    var after, n := workers[w := worker], |workers| - 1;
    if w == n {
      assert after[..n] == workers[..n];
    } else {
      assert after[..n] == workers[..n][w := worker];
      OneWorkerRank(workers[..n], w, worker);
    }
  }

  lemma SpawnRank(workers: seq<Worker>)
    ensures WorkersRank(workers + [Waiting]) == WorkersRank(workers) + 1
  {
    assert (workers + [Waiting])[..|workers|] == workers;
  }

  lemma CallerMoves(c: Config, s: State, s': State, t: nat)
    requires t < |s.callers| && |s'.callers| == |s.callers| && s'.callers == s.callers[t := s'.callers[t]]
    requires s'.workers == s.workers && s'.queue == s.queue
    ensures StepsLeft(c, s') - CallerRank(s'.callers[t]) == StepsLeft(c, s) - CallerRank(s.callers[t])
  {
    OneCallerRank(s.callers, t, s'.callers[t]);
  }

  lemma SendDecreases(c: Config, s: State, t: nat)
    requires CanSubmit(c, s, t, Send) && !s.taskClosed
    ensures StepsLeft(c, AfterSubmit(c, s, t, Send)) < StepsLeft(c, s)
  {
    var s' := AfterSubmit(c, s, t, Send);
    CallerMoves(c, s, s'.(queue := s.queue), t);
  }

  lemma HandOverDecreases(c: Config, s: State, t: nat, w: nat)
    requires CanSubmit(c, s, t, HandOver(w))
    ensures StepsLeft(c, AfterSubmit(c, s, t, HandOver(w))) < StepsLeft(c, s)
  {
    var s' := AfterSubmit(c, s, t, HandOver(w));
    CallerMoves(c, s, s'.(workers := s.workers), t);
    OneWorkerRank(s.workers, w, s'.workers[w]);
  }

  lemma SubmitDecreases(c: Config, s: State, t: nat, step: SubmitStep)
    requires Safe(c, s) && CanSubmit(c, s, t, step)
    ensures StepsLeft(c, AfterSubmit(c, s, t, step)) < StepsLeft(c, s)
  {
    assert CallerOk(c, s, s.callers[t]);
    match step
    case Send => SendDecreases(c, s, t);
    case HandOver(w) => HandOverDecreases(c, s, t, w);
    case _ => CallerMoves(c, s, AfterSubmit(c, s, t, step), t);
  }

  lemma SpawnDecreases(c: Config, s: State)
    requires |s.workers| < c.workers
    ensures StepsLeft(c, s.(workers := s.workers + [Waiting])) < StepsLeft(c, s)
  {
    SpawnRank(s.workers);
  }

  lemma StartDecreases(c: Config, s: State, t: nat, step: StartStep)
    requires CanStart(c, s, t, step)
    ensures StepsLeft(c, AfterStart(c, s, t, step)) < StepsLeft(c, s)
  {
    if step.Spawn? && |s.workers| < c.workers {
      SpawnDecreases(c, s);
    } else {
      CallerMoves(c, s, AfterStart(c, s, t, step), t);
    }
  }

  lemma QueryDecreases(c: Config, s: State, t: nat, step: QueryStep)
    requires CanQuery(s, t, step)
    ensures StepsLeft(c, AfterQuery(s, t, step)) < StepsLeft(c, s)
  {
    CallerMoves(c, s, AfterQuery(s, t, step), t);
  }

  lemma ShutdownDecreases(c: Config, s: State, t: nat, step: ShutdownStep)
    requires Safe(c, s) && CanShutdown(c, s, t, step)
    ensures StepsLeft(c, AfterShutdown(c, s, t, step)) < StepsLeft(c, s)
  {
    assert CallerOk(c, s, s.callers[t]);
    var s' := AfterShutdown(c, s, t, step);
    assert CallerRank(s'.callers[t]) < CallerRank(s.callers[t]);
    CallerMoves(c, s, s', t);
  }

  lemma WorkDecreases(c: Config, s: State, w: nat, step: WorkStep)
    requires Safe(c, s) && CanWork(c, s, w, step) && !step.Enter?
    ensures StepsLeft(c, AfterWork(c, s, w, step)) < StepsLeft(c, s)
  {
    OneWorkerRank(s.workers, w, AfterWork(c, s, w, step).workers[w]);
  }

  lemma InternalDecreases(c: Config, s: State, step: Step)
    requires Safe(c, s) && Enabled(c, s, step) && Internal(step)
    ensures StepsLeft(c, Next(c, s, step)) < StepsLeft(c, s)
  {
    match step
    case Submit(t, x) => SubmitDecreases(c, s, t, x);
    case Start(t, x) => StartDecreases(c, s, t, x);
    case Shutdown(t, x) => ShutdownDecreases(c, s, t, x);
    case Query(t, x) => QueryDecreases(c, s, t, x);
    case Work(w, x) => WorkDecreases(c, s, w, x);
  }

  /** What the pool does on its own from `states[0]` on. */
  ghost predicate OnItsOwn(c: Config, states: seq<State>, steps: seq<Step>) {
    && Execution(c, states, steps) && AllCareful(c, states, steps)
    && forall i :: 0 <= i < |steps| ==> Internal(steps[i])
  }

  /** Every schedule of the pool's own steps comes to an end. */
  lemma {:induction false} EveryScheduleEnds(c: Config, states: seq<State>, steps: seq<Step>, i: nat)
    requires OnItsOwn(c, states, steps) && Reached(c, states[0]) && i < |states|
    ensures Reached(c, states[i]) && i + StepsLeft(c, states[i]) <= StepsLeft(c, states[0])
  {
    if i > 0 {
      EveryScheduleEnds(c, states, steps, i - 1);
      ReachedIsSafe(c, states[i - 1]);
      InternalDecreases(c, states[i - 1], steps[i - 1]);
      ReachedNext(c, states[i - 1], steps[i - 1]);
    }
  }

  ghost predicate NoTaskInCall(s: State) {
    forall w :: 0 <= w < |s.workers| ==> !InCall(s, s.workers[w])
  }

  /** Returned calls stay returned, and no task enters a call. */
  ghost predicate EntersNothing(s: State, s': State) {
    && |s'.callers| == |s.callers|
    && (forall u :: 0 <= u < |s.callers| && s.callers[u].Returned() ==> s'.callers[u].Returned())
    && forall w :: 0 <= w < |s'.workers| && s'.workers[w].Running? && s'.workers[w].inside.Some? ==>
         w < |s.workers| && s.workers[w] == s'.workers[w]
  }

  lemma SubmitEntersNothing(c: Config, s: State, t: nat, step: SubmitStep)
    requires CanSubmit(c, s, t, step)
    ensures EntersNothing(s, AfterSubmit(c, s, t, step))
  {
  }

  lemma StartEntersNothing(c: Config, s: State, t: nat, step: StartStep)
    requires CanStart(c, s, t, step)
    ensures EntersNothing(s, AfterStart(c, s, t, step))
  {
    if step.Spawn? && |s.workers| < c.workers {
      assert EntersNothing(s, s.(workers := s.workers + [Waiting]));
    } else {
      CallerEntersNothing(s, AfterStart(c, s, t, step), t);
    }
  }

  lemma CallerEntersNothing(s: State, s': State, t: nat)
    requires t < |s.callers| && !s.callers[t].Returned() && |s'.callers| == |s.callers|
    requires s'.callers == s.callers[t := s'.callers[t]] && s'.workers == s.workers
    ensures EntersNothing(s, s')
  {
  }

  lemma ShutdownEntersNothing(c: Config, s: State, t: nat, step: ShutdownStep)
    requires CanShutdown(c, s, t, step)
    ensures EntersNothing(s, AfterShutdown(c, s, t, step))
  {
  }

  lemma WorkEntersNothing(c: Config, s: State, w: nat, step: WorkStep)
    requires CanWork(c, s, w, step) && !step.Enter?
    ensures EntersNothing(s, AfterWork(c, s, w, step))
  {
  }

  lemma InternalEntersNothing(c: Config, s: State, step: Step)
    requires Enabled(c, s, step) && Internal(step)
    ensures EntersNothing(s, Next(c, s, step))
  {
    match step
    case Submit(t, x) => SubmitEntersNothing(c, s, t, x);
    case Start(t, x) => StartEntersNothing(c, s, t, x);
    case Shutdown(t, x) => ShutdownEntersNothing(c, s, t, x);
    case Work(w, x) => WorkEntersNothing(c, s, w, x);
    case Query(_, _) =>
  }

  lemma NoNewTaskInCall(s: State, s': State)
    requires NoTaskInCall(s) && EntersNothing(s, s')
    ensures NoTaskInCall(s')
  {
    forall w | 0 <= w < |s'.workers|
      ensures !InCall(s', s'.workers[w])
    {
      assert w < |s.workers| ==> !InCall(s, s.workers[w]);
    }
  }

  lemma {:induction false} StaysOutOfCalls(c: Config, states: seq<State>, steps: seq<Step>, i: nat)
    requires OnItsOwn(c, states, steps) && NoTaskInCall(states[0]) && i < |states|
    ensures NoTaskInCall(states[i])
  {
    if i > 0 {
      StaysOutOfCalls(c, states, steps, i - 1);
      InternalEntersNothing(c, states[i - 1], steps[i - 1]);
      NoNewTaskInCall(states[i - 1], states[i]);
    }
  }

  /** If no running task is inside a call to its own pool, every schedule runs until all calls, `Shutdown` too, have returned. */
  lemma EveryCallReturns(c: Config, states: seq<State>, steps: seq<Step>)
    requires OnItsOwn(c, states, steps) && Reached(c, states[0]) && NoTaskInCall(states[0])
    requires !CanMove(c, states[|steps|])
    ensures |steps| <= StepsLeft(c, states[0]) && AtRest(states[|steps|])
  {
    EveryScheduleEnds(c, states, steps, |steps|);
    StaysOutOfCalls(c, states, steps, |steps|);
    StuckIff(c, states[|steps|]);
  }

  // ---- Late starts ----

  /** With the error channel closed, one waiting worker and a queued task, a failing task makes the pool panic. */
  lemma WorkerPanics(c: Config, s: State) returns (s1: State, s2: State, s3: State)
    requires s.errorClosed && s.workers == [Waiting] && s.queue != []
    ensures Takes(c, s, Work(0, Take), s1) && Takes(c, s1, Work(0, Fail), s2) && Takes(c, s2, Work(0, Report), s3)
    ensures s3.panicked
  {
    s1 := Next(c, s, Work(0, Take));
    s2 := Next(c, s1, Work(0, Fail));
    s3 := Next(c, s2, Work(0, Report));
  }

  lemma LateStartSpawns(c: Config, s: State, t: nat) returns (s1: State, s2: State)
    requires Safe(c, s) && At(s, t, StartLocked) && !s.started && s.closed && s.queue != [] && c.workers >= 1
    ensures Takes(c, s, Start(t, CheckStarted), s1) && Takes(c, s1, Start(t, Spawn), s2)
    ensures s2.errorClosed && s2.workers == [Waiting] && s2.queue == s.queue
  {
    WriterSeesNoClosing(c, s, t);
    s1 := Next(c, s, Start(t, CheckStarted));
    s2 := Next(c, s1, Start(t, Spawn));
  }

  /** With a task left over and a worker to run it, a late `Start` can make the pool panic. */
  lemma LateStartCanPanic(c: Config, s: State, t: nat) returns (states: seq<State>, steps: seq<Step>)
    requires Safe(c, s) && At(s, t, StartLocked) && !s.started && s.closed && s.queue != [] && c.workers >= 1
    ensures Panics(c, s, t, states, steps)
  {
    var s1, s2 := LateStartSpawns(c, s, t);
    var s3, s4, s5 := WorkerPanics(c, s2);
    states := [s, s1, s2, s3, s4, s5];
    steps := [Start(t, CheckStarted), Start(t, Spawn), Work(0, Take), Work(0, Fail), Work(0, Report)];
  }

  /** The late `Start` of call `t` goes ahead in `s`, and what follows ends in a panic. */
  ghost predicate Panics(c: Config, s: State, t: nat, states: seq<State>, steps: seq<Step>) {
    && Execution(c, states, steps) && states[0] == s
    && steps != [] && steps[0] == Start(t, CheckStarted) && states[|steps|].panicked
  }

  lemma {:induction false} StartedForGood(c: Config, states: seq<State>, steps: seq<Step>, i: nat)
    requires Execution(c, states, steps) && 1 <= i < |states| && states[1].started
    ensures states[i].started
  {
    if i > 1 {
      StartedForGood(c, states, steps, i - 1);
      assert Takes(c, states[i - 1], steps[i - 1], states[i]);
    }
  }

  /** In every reachable state, a late `Start` can lead to a panic exactly if a task was left over and there are workers to start. */
  lemma LateStartPanicsIff(c: Config, s: State, t: nat)
    requires Reached(c, s) && At(s, t, StartLocked) && !s.started && s.closed
    ensures (exists states, steps :: Panics(c, s, t, states, steps)) <==> s.queue != [] && c.workers >= 1
  {
    ReachedIsSafe(c, s);
    if s.queue != [] && c.workers >= 1 {
      var states, steps := LateStartCanPanic(c, s, t);
    } else {
      forall states, steps | Panics(c, s, t, states, steps)
        ensures false
      {
        LateStartIsCareful(c, s, t, states, steps);
        StaysSafe(c, states, steps, |steps|);
      }
    }
  }

  // ---- Tasks begun after Shutdown ----

  lemma {:induction false} QuietAlong(c: Config, states: seq<State>, steps: seq<Step>, i: nat)
    requires Execution(c, states, steps) && AllCareful(c, states, steps) && i < |states|
    requires Safe(c, states[0]) && states[0].errorClosed
    ensures SameTasks(states[0], states[i])
  {
    if i > 0 {
      QuietAlong(c, states, steps, i - 1);
      StaysSafe(c, states, steps, i - 1);
      QuietStep(c, states[i - 1], steps[i - 1]);
    }
  }

  /** The late `Start` of call `t` goes ahead in `s`, and in what follows a task is begun. */
  ghost predicate Begins(c: Config, s: State, t: nat, states: seq<State>, steps: seq<Step>) {
    && Execution(c, states, steps) && states[0] == s
    && steps != [] && steps[0] == Start(t, CheckStarted) && |states[|steps|].begun| > |s.begun|
  }

  lemma LateStartCanBegin(c: Config, s: State, t: nat) returns (states: seq<State>, steps: seq<Step>)
    requires Safe(c, s) && At(s, t, StartLocked) && !s.started && s.closed && s.queue != [] && c.workers >= 1
    ensures Begins(c, s, t, states, steps)
  {
    var s1, s2 := LateStartSpawns(c, s, t);
    states := [s, s1, s2, Next(c, s2, Work(0, Take))];
    steps := [Start(t, CheckStarted), Start(t, Spawn), Work(0, Take)];
  }

  lemma LateStartIsCareful(c: Config, s: State, t: nat, states: seq<State>, steps: seq<Step>)
    requires s.queue == [] || c.workers < 1
    requires Execution(c, states, steps) && states[0] == s && steps != [] && steps[0] == Start(t, CheckStarted)
    ensures AllCareful(c, states, steps)
  {
    assert Takes(c, states[0], steps[0], states[1]);
    forall i {:trigger steps[i]} | 0 <= i < |steps|
      ensures Careful(c, states[i], steps[i])
    {
      if i > 0 {
        StartedForGood(c, states, steps, i);
      }
    }
  }

  /** In every reachable state, a `Start` after `Shutdown` can begin a task exactly if one was left over and there are workers to start. */
  lemma LateStartBeginsIff(c: Config, s: State, t: nat)
    requires Reached(c, s) && At(s, t, StartLocked) && !s.started && s.closed
    ensures (exists states, steps :: Begins(c, s, t, states, steps)) <==> s.queue != [] && c.workers >= 1
  {
    ReachedIsSafe(c, s);
    WriterSeesNoClosing(c, s, t);
    if s.queue != [] && c.workers >= 1 {
      var states, steps := LateStartCanBegin(c, s, t);
    } else {
      forall states: seq<State>, steps: seq<Step>
        | Execution(c, states, steps) && states[0] == s && steps != [] && steps[0] == Start(t, CheckStarted)
        ensures states[|steps|].begun == s.begun
      {
        LateStartIsCareful(c, s, t, states, steps);
        QuietAlong(c, states, steps, |steps|);
      }
    }
  }

  // ---- Which pools can panic at all ----

  /** A task submitted before any `Start`. */
  lemma EarlyTask(c: Config, task: Task) returns (s: State)
    requires c.bufferSize >= 1
    ensures Reached(c, s) && s == INITIAL.(callers := [SubmitReturned(Accepted)], queue := [task], accepted := [task])
  {
    InitialReached(c);
    ReachedNext(c, INITIAL, Call(SubmitCalled(task)));
    s := Next(c, INITIAL, Call(SubmitCalled(task)));
    ReachedNext(c, s, Submit(0, ReadLock));
    s := Next(c, s, Submit(0, ReadLock));
    ReachedNext(c, s, Submit(0, CheckClosed));
    s := Next(c, s, Submit(0, CheckClosed));
    ReachedNext(c, s, Submit(0, Send));
    s := Next(c, s, Submit(0, Send));
    ReachedNext(c, s, Submit(0, ReadUnlock));
    s := Next(c, s, Submit(0, ReadUnlock));
  }

  lemma FinishShutdown(c: Config, s: State, t: nat) returns (s': State)
    requires Reached(c, s) && At(s, t, ShutdownCancelled) && AllExited(s) && !s.errorClosed
    ensures Reached(c, s') && s' == s.(callers := s.callers[t := ShutdownReturned], errorClosed := true)
  {
    ReachedNext(c, s, Shutdown(t, WaitForWorkers));
    s' := Next(c, s, Shutdown(t, WaitForWorkers));
    ReachedNext(c, s', Shutdown(t, CloseErrors));
    s' := Next(c, s', Shutdown(t, CloseErrors));
    ReachedNext(c, s', Shutdown(t, UnlockClosed));
    s' := Next(c, s', Shutdown(t, UnlockClosed));
  }

  /** After a `Shutdown` the task stays in the queue of the closed pool. */
  lemma LeftOverTask(c: Config, task: Task) returns (s: State)
    requires c.bufferSize >= 1
    ensures Reached(c, s) && LockFree(s) && !s.started && s.closed && s.queue == [task] && |s.callers| == 2
  {
    s := EarlyTask(c, task);
    s := BeginShutdown(c, s);
    s := FinishShutdown(c, s, 1);
  }

  lemma LateStartReached(c: Config, task: Task) returns (s: State, t: nat)
    requires c.bufferSize >= 1
    ensures Reached(c, s) && At(s, t, StartLocked) && !s.started && s.closed && s.queue == [task]
  {
    s := LeftOverTask(c, task);
    t := 2;
    ReachedNext(c, s, Call(StartCalled));
    s := Next(c, s, Call(StartCalled));
    ReachedNext(c, s, Start(t, LockToStart));
    s := Next(c, s, Start(t, LockToStart));
  }

  lemma {:induction false} OccursAlong(c: Config, states: seq<State>, steps: seq<Step>, i: nat)
    requires Execution(c, states, steps) && Occurs(c, states[0]) && i < |states|
    ensures Occurs(c, states[i])
  {
    if i > 0 {
      OccursAlong(c, states, steps, i - 1);
      OccursNext(c, states[i - 1], steps[i - 1]);
    }
  }

  /** Some interleaving of calls makes the pool panic exactly if it has a worker and a buffer. */
  lemma CanPanicIff(c: Config)
    ensures (exists s :: Occurs(c, s) && s.panicked) <==> c.workers >= 1 && c.bufferSize >= 1
  {
    if c.workers >= 1 && c.bufferSize >= 1 {
      var s, t := LateStartReached(c, 0);
      ReachedIsSafe(c, s);
      var states, steps := LateStartCanPanic(c, s, t);
      OccursAlong(c, states, steps, |steps|);
    } else {
      forall s | Occurs(c, s)
        ensures !s.panicked
      {
        var states, steps :| Execution(c, states, steps) && states[0] == INITIAL && states[|steps|] == s;
        forall i {:trigger steps[i]} | 0 <= i < |steps|
          ensures Careful(c, states[i], steps[i])
        {
          StaysAccounted(c, states, steps, i);
        }
        NoPanic(c, states, steps, |steps|);
      }
    }
  }
}
