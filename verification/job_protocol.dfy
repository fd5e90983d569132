/**
 The job queue of internal/jobs as a transition system.

 Every lock-protected block, store write, channel operation and close(done) is one step; every
 goroutine (an Enqueue call, the dispatcher, an execute goroutine, a Cancel call) has an explicit
 program counter. A job is named by its position in `jobs`: ids are fresh, so arrival order is a
 faithful name. `Enabled` and `Apply` make each step a function of a label, so a run is a list of
 labels and every statement below quantifies over all runs.
 */
module JobProtocol {
  import opened Options

  datatype Status = Pending | Running | Completed | Failed | Cancelled {
    predicate Terminal() { Completed? || Failed? || Cancelled? }
  }

  /** Where an Enqueue call is. Forgotten: the process that held the task has been restarted. */
  datatype EnqueuePc = Inserted | Appended | Returned | Forgotten

  /** The next action of a job's execute goroutine. */
  datatype ExecPc =
    | NotSpawned | MarkStarted | RegisterSink | RunBody | CloseSink(err: bool) | Decide(err: bool)
    | Persist(verdict: Status) | Unlist | ReleaseCtx | CloseDone | WakeUp | Finished
  {
    /** Between the dispatcher's `go` and the deletion from the running map. */
    predicate Active() { !NotSpawned? && !Past() }
    /** After the deletion from the running map. */
    predicate Past() { ReleaseCtx? || CloseDone? || WakeUp? || Finished? }
    /** From the registration of the log sink to its removal. */
    predicate HasSink() { RunBody? || CloseSink? || Decide? || Persist? || Unlist? }
    /** The row says RUNNING in this region. */
    predicate Started() { RegisterSink? || RunBody? || CloseSink? || Decide? || Persist? }
    /** The result has been written. */
    predicate Persisted() { Unlist? || Past() }
  }

  datatype DispatchPc = AwaitWake | Scan | Spawn(job: nat) | Stopped

  /** The next action of a Cancel call. */
  datatype CancelPc =
    | Lock | Signal | PersistCancel | ReleaseTask | CloseTask | Lookup | SetStatus | Done(ok: bool)
  {
    /** The call took the task out of the pending list and still owes it something. */
    predicate OwesTask() { PersistCancel? || ReleaseTask? || CloseTask? }
  }

  /** What the run function returned, and whether the context was already cancelled by then. */
  datatype Return = Return(err: bool, cancelled: bool)

  /** `removedBy` and `ret` are history: the Cancel call that took the task off the pending list,
      and the run function's answer. `closes` counts close(done); a second one would panic. */
  datatype Job = Job(row: Status, enq: EnqueuePc, exec: ExecPc, ctx: bool, closes: nat,
                     removedBy: Option<nat>, ret: Option<Return>)

  datatype CancelCall = CancelCall(job: nat, pc: CancelPc)

  /** `appended` and `dispatched` are history: the order of appends and of removals by the dispatcher. */
  datatype State = State(max: nat, live: bool, jobs: seq<Job>, calls: seq<CancelCall>,
                         pending: seq<nat>, running: set<nat>, sinks: set<nat>, token: bool,
                         disp: DispatchPc, appended: seq<nat>, dispatched: seq<nat>)

  datatype Label =
    | InsertJob                       // Enqueue writes the PENDING row
    | EnqueueStep(job: nat)           // append under the lock, then wake
    | DispatchStep(stop: bool)        // receive or stop, scan under the lock, spawn
    | ExecStep(job: nat, err: bool)   // next action of execute; err is the run function's answer
    | IssueCancel(job: nat)
    | CancelStep(call: nat)           // next action of a Cancel call
    | CloseRoot                       // Close cancels the root context
    | Restart(maxConcurrent: int)     // crash at this point, then NewQueue with this setting
  {
    /** Steps the queue takes by itself; the others need a caller. */
    predicate Internal() { EnqueueStep? || DispatchStep? || ExecStep? || CancelStep? }
  }

  // ---------------------------------------------------------------- the steps

  function Without(xs: seq<nat>, x: nat): seq<nat> {
    if xs == [] then []
    else Without(xs[..|xs|-1], x) + (if xs[|xs|-1] == x then [] else [xs[|xs|-1]])
  }

  /** How many run functions a queue admits at once. */
  function Slots(maxConcurrent: int): nat { if maxConcurrent < 1 then 1 else maxConcurrent }

  function Init(maxConcurrent: int): State {
    State(Slots(maxConcurrent), true, [], [], [], {}, {}, false,
          AwaitWake, [], [])
  }

  /** Job i after a restart: the row is reconciled, nothing else survives. */
  function Reconciled(b: Job): Job {
    Job(if b.row.Terminal() then b.row else Failed, Forgotten, NotSpawned, true, 0, None, None)
  }

  function ReconcileStale(jobs: seq<Job>): (r: seq<Job>)
    ensures |r| == |jobs| && forall j :: 0 <= j < |r| ==> r[j] == Reconciled(jobs[j])
  {
    seq(|jobs|, j requires 0 <= j < |jobs| => Reconciled(jobs[j]))
  }

  /** Cancelling the root context cancels every task's context. */
  function CancelAll(jobs: seq<Job>): (r: seq<Job>)
    ensures |r| == |jobs| && forall j :: 0 <= j < |r| ==> r[j] == jobs[j].(ctx := true)
  {
    seq(|jobs|, j requires 0 <= j < |jobs| => jobs[j].(ctx := true))
  }

  predicate Enabled(s: State, l: Label) {
    match l
    case InsertJob => true
    case EnqueueStep(j) => j < |s.jobs| && (s.jobs[j].enq.Inserted? || s.jobs[j].enq.Appended?)
    case DispatchStep(stop) =>
      (match s.disp
       case AwaitWake => if stop then !s.live else s.token
       case Stopped => false
       case Spawn(j) => !stop && j < |s.jobs|
       case Scan => !stop && (s.pending == [] || s.pending[0] < |s.jobs|))
    case ExecStep(j, err) =>
      j < |s.jobs| && !s.jobs[j].exec.NotSpawned? && !s.jobs[j].exec.Finished?
      && (err ==> s.jobs[j].exec.RunBody?)
    case IssueCancel(j) => j < |s.jobs|
    case CancelStep(c) => c < |s.calls| && !s.calls[c].pc.Done? && s.calls[c].job < |s.jobs|
    case CloseRoot => true
    case Restart(_) => true
  }

  function SetJob(s: State, j: nat, b: Job): State
    requires j < |s.jobs|
  {
    s.(jobs := s.jobs[j := b])
  }

  function SetExec(s: State, j: nat, pc: ExecPc): State
    requires j < |s.jobs|
  {
    SetJob(s, j, s.jobs[j].(exec := pc))
  }

  function SetCall(s: State, c: nat, pc: CancelPc): State
    requires c < |s.calls|
  {
    s.(calls := s.calls[c := s.calls[c].(pc := pc)])
  }

  function ApplyEnqueue(s: State, j: nat): State
    requires Enabled(s, EnqueueStep(j))
  {
    if s.jobs[j].enq.Inserted? then
      SetJob(s, j, s.jobs[j].(enq := Appended, ctx := !s.live))
        .(pending := s.pending + [j], appended := s.appended + [j])
    else
      SetJob(s, j, s.jobs[j].(enq := Returned)).(token := true)
  }

  function ApplyDispatch(s: State, stop: bool): State
    requires Enabled(s, DispatchStep(stop))
  {
    match s.disp
    case AwaitWake => if stop then s.(disp := Stopped) else s.(disp := Scan, token := false)
    case Scan =>
      if |s.running| >= s.max || s.pending == [] then s.(disp := AwaitWake)
      else
        var t := s.pending[0];
        s.(pending := s.pending[1..], running := s.running + {t}, disp := Spawn(t),
           dispatched := s.dispatched + [t])
    case Spawn(t) => SetExec(s, t, MarkStarted).(disp := Scan)
  }

  function Verdict(err: bool, ctx: bool): Status {
    if !err then Completed else if ctx then Cancelled else Failed
  }

  function ApplyExec(s: State, j: nat, err: bool): State
    requires Enabled(s, ExecStep(j, err))
  {
    var b := s.jobs[j];
    match b.exec
    case MarkStarted => SetJob(s, j, b.(row := Running, exec := RegisterSink))
    case RegisterSink => SetExec(s, j, RunBody).(sinks := s.sinks + {j})
    case RunBody => SetJob(s, j, b.(exec := CloseSink(err), ret := Some(Return(err, b.ctx))))
    case CloseSink(e) => SetExec(s, j, Decide(e))
    case Decide(e) => SetExec(s, j, Persist(Verdict(e, b.ctx)))
    case Persist(v) => SetJob(s, j, b.(row := v, exec := Unlist))
    case Unlist =>
      SetExec(s, j, ReleaseCtx).(running := s.running - {j}, sinks := s.sinks - {j})
    case ReleaseCtx => SetJob(s, j, b.(ctx := true, exec := CloseDone))
    case CloseDone => SetJob(s, j, b.(closes := b.closes + 1, exec := WakeUp))
    case WakeUp => SetExec(s, j, Finished).(token := true)
  }

  /** Cancel's locked region: find the task in the running map or take it off the pending list. */
  function ApplyLock(s: State, c: nat): State
    requires c < |s.calls| && s.calls[c].job < |s.jobs|
  {
    var j := s.calls[c].job;
    if j in s.running then SetCall(s, c, Signal)
    else if j in s.pending then
      SetCall(SetJob(s, j, s.jobs[j].(removedBy := Some(c))), c, PersistCancel)
        .(pending := Without(s.pending, j))
    else SetCall(s, c, Lookup)
  }

  function ApplyCancel(s: State, c: nat): State
    requires Enabled(s, CancelStep(c))
  {
    var j := s.calls[c].job;
    var b := s.jobs[j];
    match s.calls[c].pc
    case Lock => ApplyLock(s, c)
    case Signal => SetCall(SetJob(s, j, b.(ctx := true)), c, Done(true))
    case PersistCancel => SetCall(SetJob(s, j, b.(row := Cancelled)), c, ReleaseTask)
    case ReleaseTask => SetCall(SetJob(s, j, b.(ctx := true)), c, CloseTask)
    case CloseTask => SetCall(SetJob(s, j, b.(closes := b.closes + 1)), c, Done(true))
    case Lookup => SetCall(s, c, if b.row.Terminal() then Done(false) else SetStatus)
    case SetStatus => SetCall(SetJob(s, j, b.(row := Cancelled)), c, Done(true))
  }

  function Apply(s: State, l: Label): State
    requires Enabled(s, l)
  {
    match l
    case InsertJob =>
      s.(jobs := s.jobs + [Job(Pending, Inserted, NotSpawned, !s.live, 0, None, None)])
    case EnqueueStep(j) => ApplyEnqueue(s, j)
    case DispatchStep(stop) => ApplyDispatch(s, stop)
    case ExecStep(j, err) => ApplyExec(s, j, err)
    case IssueCancel(j) => s.(calls := s.calls + [CancelCall(j, Lock)])
    case CancelStep(c) => ApplyCancel(s, c)
    case CloseRoot => s.(live := false, jobs := CancelAll(s.jobs))
    case Restart(m) =>
      State(Slots(m), true, ReconcileStale(s.jobs), [], [], {}, {}, false, AwaitWake, [], [])
  }

  /** The labels can be taken one after the other from s. */
  predicate Executable(s: State, ls: seq<Label>)
    decreases |ls|
  {
    ls == [] || (Enabled(s, ls[0]) && Executable(Apply(s, ls[0]), ls[1..]))
  }

  function Run(s: State, ls: seq<Label>): State
    requires Executable(s, ls)
    decreases |ls|
  {
    if ls == [] then s else Run(Apply(s, ls[0]), ls[1..])
  }

  // ---------------------------------------------------------------- the invariant

  ghost predicate NoDup(xs: seq<nat>) {
    forall i, k :: 0 <= i < k < |xs| ==> xs[i] != xs[k]
  }

  ghost predicate Removed(s: State, j: nat)
    requires j < |s.jobs|
  {
    s.jobs[j].removedBy.Some?
  }

  ghost predicate Taken(s: State, j: nat) { s.disp == Spawn(j) }

  /** The Cancel call that took task j off the pending list exists and works on j. */
  ghost predicate RemoverOk(s: State, j: nat)
    requires j < |s.jobs| && Removed(s, j)
  {
    var c := s.jobs[j].removedBy.value;
    && c < |s.calls| && s.calls[c].job == j
    && (s.calls[c].pc.OwesTask() || s.calls[c].pc == Done(true))
  }

  /** Somebody still in flight is bound to give j's row a terminal status. */
  ghost predicate RowOwned(s: State, j: nat)
    requires j < |s.jobs|
  {
    var b := s.jobs[j];
    || b.enq.Inserted?
    || j in s.pending
    || Taken(s, j)
    || (b.exec.Active() && !b.exec.Unlist?)
    || (Removed(s, j) && RemoverOk(s, j) && s.calls[b.removedBy.value].pc.PersistCancel?)
  }

  /** A queued task is in exactly one of: pending list, dispatcher's hand, execute, a Cancel's hand. */
  ghost predicate OnePlace(s: State, j: nat)
    requires j < |s.jobs|
  {
    var b := s.jobs[j];
    var listed, taken, spawned, removed := j in s.pending, Taken(s, j), !b.exec.NotSpawned?, Removed(s, j);
    if b.enq.Inserted? || b.enq.Forgotten? then !listed && !taken && !spawned && !removed
    else
      && (listed || taken || spawned || removed)
      && !(listed && (taken || spawned || removed))
      && !(taken && (spawned || removed))
      && !(spawned && removed)
  }

  ghost function ExpectedCloses(s: State, j: nat): nat
    requires j < |s.jobs|
    requires Removed(s, j) ==> RemoverOk(s, j)
  {
    var b := s.jobs[j];
    if b.exec.WakeUp? || b.exec.Finished? then 1
    else if Removed(s, j) && s.calls[b.removedBy.value].pc.Done? then 1
    else 0
  }

  ghost predicate VerdictOk(b: Job, v: Status) {
    && v.Terminal()
    && b.ret.Some?
    && (v == Completed <==> !b.ret.value.err)
    && (b.ret.value.err && b.ret.value.cancelled ==> v == Cancelled)
    && (v == Cancelled ==> b.ctx)
  }

  ghost predicate JobOk(s: State, j: nat)
    requires j < |s.jobs|
  {
    var b := s.jobs[j];
    && OnePlace(s, j)
    && (j in s.running <==> Taken(s, j) || b.exec.Active())
    && (j in s.sinks <==> b.exec.HasSink())
    && (Removed(s, j) ==> RemoverOk(s, j))
    && b.closes == ExpectedCloses(s, j)
    && (!b.row.Terminal() ==> RowOwned(s, j))
    && (b.exec.CloseSink? ==> b.ret.Some? && b.ret.value.err == b.exec.err && (b.ret.value.cancelled ==> b.ctx))
    && (b.exec.Decide? ==> b.ret.Some? && b.ret.value.err == b.exec.err && (b.ret.value.cancelled ==> b.ctx))
    && (b.exec.Persist? ==> VerdictOk(b, b.exec.verdict))
    && (j in s.appended <==> b.enq.Appended? || b.enq.Returned?)
    && (j in s.dispatched <==> Taken(s, j) || !b.exec.NotSpawned?)
    && (!s.live ==> b.ctx)
    && (b.exec.NotSpawned? ==> b.ret.None?)
  }

  ghost predicate CallOk(s: State, c: nat)
    requires c < |s.calls|
  {
    var k := s.calls[c];
    && k.job < |s.jobs|
    && (k.pc.OwesTask() ==> s.jobs[k.job].removedBy == Some(c))
  }

  ghost predicate Shape(s: State) {
    && s.max >= 1
    && |s.running| <= s.max
    && NoDup(s.pending) && NoDup(s.appended)
    && (forall j :: j in s.pending ==> j < |s.jobs|)
    && (forall j :: j in s.running ==> j < |s.jobs|)
    && (forall j :: j in s.sinks ==> j < |s.jobs|)
    && (forall j :: j in s.appended ==> j < |s.jobs|)
    && (forall j :: j in s.dispatched ==> j < |s.jobs|)
    && (s.disp.Spawn? ==> s.disp.job < |s.jobs|)
    && (s.disp.Stopped? ==> !s.live)
  }

  /** A goroutine that has left its locked region and is about to call wake(). */
  ghost predicate AboutToWake(s: State, j: nat) {
    j < |s.jobs| && (s.jobs[j].enq.Appended? || s.jobs[j].exec.ReleaseCtx?
                     || s.jobs[j].exec.CloseDone? || s.jobs[j].exec.WakeUp?)
  }

  /** No lost wake-up. */
  ghost predicate Awake(s: State) {
    s.pending != [] && |s.running| < s.max && s.disp.AwaitWake? ==>
      s.token || exists j :: AboutToWake(s, j)
  }

  /** The tasks of xs that no Cancel took off the pending list, in order. */
  function Kept(xs: seq<nat>, jobs: seq<Job>): seq<nat> {
    if xs == [] then []
    else
      var x := xs[|xs|-1];
      Kept(xs[..|xs|-1], jobs) + (if x < |jobs| && jobs[x].removedBy.None? then [x] else [])
  }

  /** First in, first out, through removals from the middle. */
  ghost predicate Fifo(s: State) {
    Kept(s.appended, s.jobs) == s.dispatched + s.pending
  }

  ghost predicate Jobs(s: State) { forall j :: 0 <= j < |s.jobs| ==> JobOk(s, j) }

  ghost predicate Calls(s: State) { forall c :: 0 <= c < |s.calls| ==> CallOk(s, c) }

  ghost predicate Inv(s: State) {
    Shape(s) && Jobs(s) && Calls(s) && Awake(s) && Fifo(s)
  }
}
