/** What every step of the job queue keeps, and what that means for every run. */
module JobSafety {
  import opened JobProtocol

  // ---------------------------------------------------------------- lists

  lemma {:induction false} WithoutIs(xs: seq<nat>, x: nat)
    ensures forall y :: y in Without(xs, x) <==> y in xs && y != x
    ensures x !in xs ==> Without(xs, x) == xs
    ensures NoDup(xs) ==> NoDup(Without(xs, x))
  {
    if xs == [] {
    } else {
      var rest, last := xs[..|xs|-1], xs[|xs|-1];
      WithoutIs(rest, x);
      assert xs == rest + [last];
      assert NoDup(xs) ==> last !in Without(rest, x);
    }
  }

  lemma {:induction false} WithoutConcat(xs: seq<nat>, ys: seq<nat>, x: nat)
    ensures Without(xs + ys, x) == Without(xs, x) + Without(ys, x)
  {
    if ys == [] {
      assert xs + ys == xs;
    } else {
      assert (xs + ys)[..|xs + ys|-1] == xs + ys[..|ys|-1];
      WithoutConcat(xs, ys[..|ys|-1], x);
    }
  }

  lemma {:induction false} KeptSame(xs: seq<nat>, jobs: seq<Job>, jobs': seq<Job>)
    requires forall x :: x in xs ==> x < |jobs| && x < |jobs'| && jobs[x].removedBy == jobs'[x].removedBy
    ensures Kept(xs, jobs) == Kept(xs, jobs')
  {
    if xs == [] {
    } else {
      var rest, last := xs[..|xs|-1], xs[|xs|-1];
      assert last in xs && forall x :: x in rest ==> x in xs;
      KeptSame(rest, jobs, jobs');
    }
  }

  /** Marking one more task as removed filters it out and changes nothing else. */
  lemma {:induction false} KeptRemove(xs: seq<nat>, jobs: seq<Job>, j: nat, b: Job)
    requires j < |jobs| && jobs[j].removedBy.None? && b.removedBy.Some?
    ensures Kept(xs, jobs[j := b]) == Without(Kept(xs, jobs), j)
  {
    if xs == [] {
    } else {
      var x, rest := xs[|xs|-1], xs[..|xs|-1];
      KeptRemove(rest, jobs, j, b);
      var last := if x < |jobs| && jobs[x].removedBy.None? then [x] else [];
      WithoutConcat(Kept(rest, jobs), last, j);
      assert last != [] ==> Without(last, j) == if x == j then [] else [x];
    }
  }

  // ---------------------------------------------------------------- one lemma per goroutine

  /** Nothing that JobOk reads about job j differs between s and s'. */
  ghost predicate SameFor(s: State, s': State, j: nat) {
    && j < |s.jobs| && j < |s'.jobs|
    && s'.jobs[j] == s.jobs[j]
    && (j in s'.pending <==> j in s.pending)
    && (j in s'.running <==> j in s.running)
    && (j in s'.sinks <==> j in s.sinks)
    && (j in s'.appended <==> j in s.appended)
    && (j in s'.dispatched <==> j in s.dispatched)
    && (Taken(s', j) <==> Taken(s, j))
    && s'.live == s.live
    && (Removed(s, j) && s.jobs[j].removedBy.value < |s.calls| ==>
          s.jobs[j].removedBy.value < |s'.calls|
          && s'.calls[s.jobs[j].removedBy.value] == s.calls[s.jobs[j].removedBy.value])
  }

  lemma JobFrame(s: State, s': State, j: nat)
    requires SameFor(s, s', j) && JobOk(s, j)
    ensures JobOk(s', j)
  {
  }

  /** Only job k changed: the others are as they were. */
  lemma OthersOk(s: State, s': State, k: nat)
    requires Jobs(s) && k < |s.jobs| == |s'.jobs| && JobOk(s', k)
    requires forall j :: 0 <= j < |s.jobs| && j != k ==> SameFor(s, s', j)
    ensures Jobs(s')
  {
    forall j | 0 <= j < |s'.jobs| ensures JobOk(s', j) {
      if j != k {
        assert SameFor(s, s', j) && JobOk(s, j);
        JobFrame(s, s', j);
      }
    }
  }

  /** A goroutine about to wake stays about to wake while its job is untouched. */
  lemma StillAwake(s: State, s': State, k: nat)
    requires Awake(s) && |s.jobs| <= |s'.jobs| && s'.max == s.max
    requires forall j :: 0 <= j < |s.jobs| && j != k ==> s'.jobs[j] == s.jobs[j]
    requires AboutToWake(s, k) ==> AboutToWake(s', k) || s'.token
    requires s'.pending != [] ==> s.pending != []
    requires s'.disp == s.disp && |s'.running| == |s.running| && (s.token ==> s'.token)
    ensures Awake(s')
  {
    if s'.pending != [] && |s'.running| < s'.max && s'.disp.AwaitWake? && !s'.token {
      var j :| AboutToWake(s, j);
      assert AboutToWake(s', j);
    }
  }

  lemma InvInit(maxConcurrent: int)
    ensures Inv(Init(maxConcurrent))
  {
  }

  lemma InsertKeepsInv(s: State)
    requires Inv(s)
    ensures Inv(Apply(s, InsertJob))
  {
    var s' := Apply(s, InsertJob);
    forall j | 0 <= j < |s'.jobs| ensures JobOk(s', j) {
      if j < |s.jobs| {
        assert JobOk(s, j);
        JobFrame(s, s', j);
      }
    }
    forall c | 0 <= c < |s'.calls| ensures CallOk(s', c) { assert CallOk(s, c); }
    StillAwake(s, s', |s.jobs|);
    KeptSame(s.appended, s.jobs, s'.jobs);
  }

  lemma EnqueueJobs(s: State, k: nat)
    requires Jobs(s) && Enabled(s, EnqueueStep(k))
    ensures Jobs(ApplyEnqueue(s, k))
  {
    assert JobOk(s, k);
    OthersOk(s, ApplyEnqueue(s, k), k);
  }

  /** A task not seen before goes to the end of both lists. */
  lemma AppendNew(xs: seq<nat>, k: nat)
    requires NoDup(xs) && k !in xs
    ensures NoDup(xs + [k]) && forall j :: j in xs + [k] <==> j in xs || j == k
  {
    forall i, l | 0 <= i < l < |xs + [k]| ensures (xs + [k])[i] != (xs + [k])[l] {
      assert (xs + [k])[i] == xs[i] && xs[i] in xs;
    }
  }

  lemma AppendShape(s: State, k: nat)
    requires Shape(s) && Enabled(s, EnqueueStep(k)) && s.jobs[k].enq.Inserted?
    requires k !in s.pending && k !in s.appended
    ensures Shape(ApplyEnqueue(s, k))
  {
    AppendNew(s.pending, k);
    AppendNew(s.appended, k);
  }

  lemma AppendFifo(s: State, k: nat)
    requires Enabled(s, EnqueueStep(k)) && s.jobs[k].enq.Inserted? && s.jobs[k].removedBy.None? && Fifo(s)
    requires forall j :: j in s.appended ==> j < |s.jobs|
    ensures Fifo(ApplyEnqueue(s, k))
  {
    var s' := ApplyEnqueue(s, k);
    KeptSame(s.appended, s.jobs, s'.jobs);
    assert s'.appended[..|s'.appended|-1] == s.appended;
    assert Kept(s'.appended, s'.jobs) == Kept(s.appended, s'.jobs) + [k];
    assert s.dispatched + s.pending + [k] == s.dispatched + (s.pending + [k]);
  }

  lemma EnqueueFifo(s: State, k: nat)
    requires Shape(s) && Fifo(s) && Enabled(s, EnqueueStep(k))
    requires s.jobs[k].enq.Inserted? ==> k !in s.pending && k !in s.appended && s.jobs[k].removedBy.None?
    ensures Shape(ApplyEnqueue(s, k)) && Fifo(ApplyEnqueue(s, k))
  {
    if s.jobs[k].enq.Inserted? {
      AppendShape(s, k);
      AppendFifo(s, k);
    } else {
      KeptSame(s.appended, s.jobs, ApplyEnqueue(s, k).jobs);
    }
  }

  lemma EnqueueAwake(s: State, k: nat)
    requires Awake(s) && Enabled(s, EnqueueStep(k))
    ensures Awake(ApplyEnqueue(s, k))
  {
    if s.jobs[k].enq.Inserted? { assert AboutToWake(ApplyEnqueue(s, k), k); }
  }

  lemma EnqueueCalls(s: State, k: nat)
    requires Calls(s) && Enabled(s, EnqueueStep(k))
    ensures Calls(ApplyEnqueue(s, k))
  {
    var s' := ApplyEnqueue(s, k);
    forall c | 0 <= c < |s'.calls| ensures CallOk(s', c) { assert CallOk(s, c); }
  }

  lemma EnqueueKeepsInv(s: State, k: nat)
    requires Inv(s) && Enabled(s, EnqueueStep(k))
    ensures Inv(Apply(s, EnqueueStep(k)))
  {
    assert s.jobs[k].enq.Inserted? ==> k !in s.pending && k !in s.appended && s.jobs[k].removedBy.None? by {
      assert JobOk(s, k);
    }
    EnqueueJobs(s, k);
    EnqueueFifo(s, k);
    EnqueueAwake(s, k);
    EnqueueCalls(s, k);
  }

  lemma TakeJobOk(s: State)
    requires s.disp.Scan? && s.pending != [] && s.pending[0] < |s.jobs| && |s.running| < s.max
    requires NoDup(s.pending) && JobOk(s, s.pending[0])
    ensures JobOk(ApplyDispatch(s, false), s.pending[0])
  {
  }

  lemma TakeOthers(s: State, j: nat)
    requires s.disp.Scan? && s.pending != [] && s.pending[0] < |s.jobs| && |s.running| < s.max
    requires j < |s.jobs| && j != s.pending[0]
    ensures SameFor(s, ApplyDispatch(s, false), j)
  {
    assert s.pending == [s.pending[0]] + s.pending[1..];
  }

  lemma SpawnJobOk(s: State)
    requires s.disp.Spawn? && s.disp.job < |s.jobs| && JobOk(s, s.disp.job)
    ensures JobOk(ApplyDispatch(s, false), s.disp.job)
  {
  }

  lemma DispatchJobs(s: State, stop: bool)
    requires Shape(s) && Jobs(s) && Enabled(s, DispatchStep(stop))
    ensures Jobs(ApplyDispatch(s, stop))
  {
    var s' := ApplyDispatch(s, stop);
    if s.disp.Scan? && s.pending != [] && |s.running| < s.max {
      var k := s.pending[0];
      assert JobOk(s, k);
      TakeJobOk(s);
      forall j | 0 <= j < |s.jobs| && j != k ensures SameFor(s, s', j) { TakeOthers(s, j); }
      OthersOk(s, s', k);
    } else if s.disp.Spawn? {
      assert JobOk(s, s.disp.job);
      SpawnJobOk(s);
      OthersOk(s, s', s.disp.job);
    } else {
      forall j | 0 <= j < |s'.jobs| ensures JobOk(s', j) {
        assert JobOk(s, j);
        JobFrame(s, s', j);
      }
    }
  }

  lemma TakeShape(s: State)
    requires Shape(s) && s.disp.Scan? && |s.running| < s.max
    requires s.pending != [] && s.pending[0] < |s.jobs| && s.pending[0] !in s.running
    ensures Shape(ApplyDispatch(s, false))
  {
    assert forall j :: j in s.pending[1..] ==> j in s.pending;
  }

  lemma TakeFifo(s: State)
    requires Shape(s) && Fifo(s) && s.disp.Scan? && |s.running| < s.max
    requires s.pending != [] && s.pending[0] < |s.jobs| && s.pending[0] !in s.running
    ensures Shape(ApplyDispatch(s, false)) && Fifo(ApplyDispatch(s, false))
  {
    assert s.pending == [s.pending[0]] + s.pending[1..];
    TakeShape(s);
  }

  lemma DispatchFifo(s: State, stop: bool)
    requires Shape(s) && Fifo(s) && Enabled(s, DispatchStep(stop))
    requires s.disp.Scan? && s.pending != [] ==> s.pending[0] !in s.running
    ensures Shape(ApplyDispatch(s, stop)) && Fifo(ApplyDispatch(s, stop))
  {
    if s.disp.Scan? && s.pending != [] && |s.running| < s.max {
      TakeFifo(s);
    } else {
      KeptSame(s.appended, s.jobs, ApplyDispatch(s, stop).jobs);
    }
  }

  lemma DispatchKeepsInv(s: State, stop: bool)
    requires Inv(s) && Enabled(s, DispatchStep(stop))
    ensures Inv(Apply(s, DispatchStep(stop)))
  {
    var s' := Apply(s, DispatchStep(stop));
    if s.disp.Scan? && s.pending != [] { assert JobOk(s, s.pending[0]); }
    DispatchJobs(s, stop);
    DispatchFifo(s, stop);
    forall c | 0 <= c < |s'.calls| ensures CallOk(s', c) { assert CallOk(s, c); }
  }

  lemma EarlyExecJobOk(s: State, k: nat, err: bool)
    requires Enabled(s, ExecStep(k, err)) && JobOk(s, k)
    requires var pc := s.jobs[k].exec; pc.MarkStarted? || pc.RegisterSink? || pc.RunBody? || pc.CloseSink?
    ensures JobOk(ApplyExec(s, k, err), k)
  {
  }

  lemma LateExecJobOk(s: State, k: nat, err: bool)
    requires Enabled(s, ExecStep(k, err)) && JobOk(s, k)
    requires s.jobs[k].exec.Decide? || s.jobs[k].exec.Persist? || s.jobs[k].exec.Unlist?
    ensures JobOk(ApplyExec(s, k, err), k)
  {
  }

  lemma PastExecJobOk(s: State, k: nat, err: bool)
    requires Enabled(s, ExecStep(k, err)) && JobOk(s, k) && s.jobs[k].exec.Past()
    ensures JobOk(ApplyExec(s, k, err), k)
  {
  }

  lemma ExecJobOk(s: State, k: nat, err: bool)
    requires Enabled(s, ExecStep(k, err)) && JobOk(s, k)
    ensures JobOk(ApplyExec(s, k, err), k)
  {
    var pc := s.jobs[k].exec;
    if pc.Past() {
      PastExecJobOk(s, k, err);
    } else if pc.Decide? || pc.Persist? || pc.Unlist? {
      LateExecJobOk(s, k, err);
    } else {
      EarlyExecJobOk(s, k, err);
    }
  }

  /** Only job k and its places in running and sinks may differ. */
  lemma ExecFrame(s: State, s': State, k: nat, j: nat)
    requires k < |s.jobs| == |s'.jobs| && j < |s.jobs| && j != k && s'.jobs[j] == s.jobs[j]
    requires s'.running == s.running || s'.running == s.running - {k}
    requires s.sinks - {k} <= s'.sinks <= s.sinks + {k}
    requires s' == s.(jobs := s'.jobs, running := s'.running, sinks := s'.sinks, token := s'.token)
    ensures SameFor(s, s', j)
  {
  }

  lemma ExecJobs(s: State, k: nat, err: bool)
    requires Jobs(s) && Enabled(s, ExecStep(k, err))
    ensures Jobs(ApplyExec(s, k, err))
  {
    var s' := ApplyExec(s, k, err);
    assert JobOk(s, k);
    ExecJobOk(s, k, err);
    ExecTouches(s, k, err);
    forall j | 0 <= j < |s.jobs| && j != k ensures SameFor(s, s', j) { ExecFrame(s, s', k, j); }
    OthersOk(s, s', k);
  }

  /** What a step of execute leaves alone. */
  lemma ExecTouches(s: State, k: nat, err: bool)
    requires Enabled(s, ExecStep(k, err))
    ensures var s' := ApplyExec(s, k, err);
      && |s'.jobs| == |s.jobs| && s'.jobs[k].removedBy == s.jobs[k].removedBy
      && (forall j :: 0 <= j < |s.jobs| && j != k ==> s'.jobs[j] == s.jobs[j])
      && s'.running == (if s.jobs[k].exec.Unlist? then s.running - {k} else s.running)
      && s.sinks - {k} <= s'.sinks <= s.sinks + {k}
      && s' == s.(jobs := s'.jobs, running := s'.running, sinks := s'.sinks, token := s'.token)
      && (s.token ==> s'.token)
      && s'.jobs[k].enq == s.jobs[k].enq
      && (s.jobs[k].exec.Unlist? || s.jobs[k].exec.Past() ==> s'.token || s'.jobs[k].exec.Past())
  {
  }

  lemma ExecRest(s: State, k: nat, err: bool)
    requires Shape(s) && Calls(s) && Awake(s) && Fifo(s) && Enabled(s, ExecStep(k, err))
    requires s.jobs[k].exec.Unlist? ==> k in s.running
    ensures var s' := ApplyExec(s, k, err); Shape(s') && Calls(s') && Awake(s') && Fifo(s')
  {
    var s' := ApplyExec(s, k, err);
    ExecTouches(s, k, err);
    forall c | 0 <= c < |s'.calls| ensures CallOk(s', c) { assert CallOk(s, c); }
    KeptSame(s.appended, s.jobs, s'.jobs);
    if s.jobs[k].exec.Unlist? {
      assert AboutToWake(s', k);
    } else {
      StillAwake(s, s', k);
    }
  }

  lemma ExecKeepsInv(s: State, k: nat, err: bool)
    requires Inv(s) && Enabled(s, ExecStep(k, err))
    ensures Inv(Apply(s, ExecStep(k, err)))
  {
    assert JobOk(s, k);
    ExecJobs(s, k, err);
    ExecRest(s, k, err);
  }

  lemma LockJobOk(s: State, c: nat)
    requires c < |s.calls| && s.calls[c].pc.Lock? && CallOk(s, c) && JobOk(s, s.calls[c].job)
    ensures JobOk(ApplyLock(s, c), s.calls[c].job)
  {
    WithoutIs(s.pending, s.calls[c].job);
  }

  lemma LockOthers(s: State, c: nat, j: nat)
    requires c < |s.calls| && s.calls[c].pc.Lock? && CallOk(s, c)
    requires j < |s.jobs| && j != s.calls[c].job && JobOk(s, j)
    ensures SameFor(s, ApplyLock(s, c), j)
  {
    WithoutIs(s.pending, s.calls[c].job);
  }

  lemma LockJobs(s: State, c: nat)
    requires c < |s.calls| && s.calls[c].pc.Lock? && CallOk(s, c) && Jobs(s)
    ensures Jobs(ApplyLock(s, c))
  {
    var s', k := ApplyLock(s, c), s.calls[c].job;
    assert JobOk(s, k);
    LockJobOk(s, c);
    forall j | 0 <= j < |s.jobs| && j != k ensures SameFor(s, s', j) {
      assert JobOk(s, j);
      LockOthers(s, c, j);
    }
    OthersOk(s, s', k);
  }

  lemma LockShape(s: State, c: nat)
    requires Shape(s) && c < |s.calls| && s.calls[c].pc.Lock? && CallOk(s, c)
    ensures Shape(ApplyLock(s, c))
    ensures ApplyLock(s, c).pending != [] ==> s.pending != []
  {
    WithoutIs(s.pending, s.calls[c].job);
  }

  lemma LockCalls(s: State, c: nat)
    requires Calls(s) && c < |s.calls| && s.calls[c].pc.Lock? && CallOk(s, c)
    requires s.calls[c].job in s.pending ==> !Removed(s, s.calls[c].job)
    ensures Calls(ApplyLock(s, c))
  {
    var s' := ApplyLock(s, c);
    forall d | 0 <= d < |s'.calls| ensures CallOk(s', d) { assert CallOk(s, d); }
  }

  lemma LockRest(s: State, c: nat)
    requires Shape(s) && Calls(s) && Awake(s) && Fifo(s)
    requires c < |s.calls| && s.calls[c].pc.Lock? && CallOk(s, c)
    requires s.calls[c].job in s.pending ==> !Removed(s, s.calls[c].job) && s.calls[c].job !in s.dispatched
    ensures var s' := ApplyLock(s, c); Shape(s') && Calls(s') && Awake(s') && Fifo(s')
  {
    var s', k := ApplyLock(s, c), s.calls[c].job;
    LockShape(s, c);
    LockCalls(s, c);
    StillAwake(s, s', k);
    if k !in s.running && k in s.pending {
      KeptRemove(s.appended, s.jobs, k, s'.jobs[k]);
      WithoutConcat(s.dispatched, s.pending, k);
      WithoutIs(s.dispatched, k);
    } else {
      KeptSame(s.appended, s.jobs, s'.jobs);
    }
  }

  /** After its locked region a Cancel call changes its own program counter and one job only. */
  lemma CancelTouches(s: State, c: nat)
    requires Enabled(s, CancelStep(c)) && !s.calls[c].pc.Lock?
    ensures var s' := ApplyCancel(s, c); var k := s.calls[c].job;
      && |s'.jobs| == |s.jobs| && |s'.calls| == |s.calls|
      && (forall j :: 0 <= j < |s.jobs| && j != k ==> s'.jobs[j] == s.jobs[j])
      && (forall d :: 0 <= d < |s.calls| && d != c ==> s'.calls[d] == s.calls[d])
      && s' == s.(jobs := s'.jobs, calls := s'.calls)
      && s'.jobs[k].removedBy == s.jobs[k].removedBy && s'.calls[c].job == k
      && s'.jobs[k].enq == s.jobs[k].enq && s'.jobs[k].exec == s.jobs[k].exec
      && (s'.calls[c].pc.OwesTask() ==> s.calls[c].pc.OwesTask())
  {
  }

  lemma OwedJobOk(s: State, c: nat)
    requires Enabled(s, CancelStep(c)) && s.calls[c].pc.OwesTask() && CallOk(s, c) && JobOk(s, s.calls[c].job)
    ensures JobOk(ApplyCancel(s, c), s.calls[c].job)
  {
  }

  lemma SignalJobOk(s: State, c: nat)
    requires Enabled(s, CancelStep(c)) && s.calls[c].pc.Signal? && JobOk(s, s.calls[c].job)
    ensures JobOk(ApplyCancel(s, c), s.calls[c].job)
  {
    var k := s.calls[c].job;
    assert Removed(s, k) ==> s.jobs[k].removedBy.value != c;
  }

  lemma SetStatusJobOk(s: State, c: nat)
    requires Enabled(s, CancelStep(c)) && s.calls[c].pc.SetStatus? && JobOk(s, s.calls[c].job)
    ensures JobOk(ApplyCancel(s, c), s.calls[c].job)
  {
    var k := s.calls[c].job;
    assert Removed(s, k) ==> s.jobs[k].removedBy.value != c;
  }

  lemma BystanderJobOk(s: State, c: nat)
    requires Enabled(s, CancelStep(c)) && !s.calls[c].pc.Lock? && !s.calls[c].pc.OwesTask()
    requires JobOk(s, s.calls[c].job)
    ensures JobOk(ApplyCancel(s, c), s.calls[c].job)
  {
    var k := s.calls[c].job;
    if s.calls[c].pc.Signal? {
      SignalJobOk(s, c);
    } else if s.calls[c].pc.SetStatus? {
      SetStatusJobOk(s, c);
    } else {
      assert Removed(s, k) ==> s.jobs[k].removedBy.value != c;
    }
  }

  lemma LateCancelJobs(s: State, c: nat)
    requires Jobs(s) && Enabled(s, CancelStep(c)) && !s.calls[c].pc.Lock? && CallOk(s, c)
    ensures Jobs(ApplyCancel(s, c))
  {
    var s', k := ApplyCancel(s, c), s.calls[c].job;
    assert JobOk(s, k);
    if s.calls[c].pc.OwesTask() { OwedJobOk(s, c); } else { BystanderJobOk(s, c); }
    CancelTouches(s, c);
    forall j | 0 <= j < |s.jobs| && j != k ensures SameFor(s, s', j) { assert JobOk(s, j); }
    OthersOk(s, s', k);
  }

  lemma LateCancelKeeps(s: State, c: nat)
    requires Inv(s) && Enabled(s, CancelStep(c)) && !s.calls[c].pc.Lock?
    ensures Inv(ApplyCancel(s, c))
  {
    var s', k := ApplyCancel(s, c), s.calls[c].job;
    assert JobOk(s, k) && CallOk(s, c);
    LateCancelJobs(s, c);
    CancelTouches(s, c);
    forall d | 0 <= d < |s'.calls| ensures CallOk(s', d) { assert CallOk(s, d); }
    StillAwake(s, s', k);
    KeptSame(s.appended, s.jobs, s'.jobs);
  }

  lemma CancelKeepsInv(s: State, c: nat)
    requires Inv(s) && Enabled(s, CancelStep(c))
    ensures Inv(Apply(s, CancelStep(c)))
  {
    if s.calls[c].pc.Lock? {
      assert JobOk(s, s.calls[c].job) && CallOk(s, c);
      LockJobs(s, c);
      LockRest(s, c);
    } else {
      LateCancelKeeps(s, c);
    }
  }

  lemma OutsideKeepsInv(s: State, l: Label)
    requires Inv(s) && Enabled(s, l)
    requires l.IssueCancel? || l.CloseRoot? || l.Restart?
    ensures Inv(Apply(s, l))
  {
    var s' := Apply(s, l);
    forall j | 0 <= j < |s'.jobs| ensures JobOk(s', j) { assert JobOk(s, j); }
    forall d | 0 <= d < |s'.calls| ensures CallOk(s', d) {
      if d < |s.calls| { assert CallOk(s, d); }
    }
    if !l.Restart? {
      KeptSame(s.appended, s.jobs, s'.jobs);
      if exists j :: AboutToWake(s, j) {
        var j :| AboutToWake(s, j);
        assert AboutToWake(s', j);
      }
    }
  }

  /** Every step, whoever takes it, keeps the invariant. */
  lemma StepKeepsInv(s: State, l: Label)
    requires Inv(s) && Enabled(s, l)
    ensures Inv(Apply(s, l))
  {
    match l
    case InsertJob => InsertKeepsInv(s);
    case EnqueueStep(j) => EnqueueKeepsInv(s, j);
    case DispatchStep(stop) => DispatchKeepsInv(s, stop);
    case ExecStep(j, err) => ExecKeepsInv(s, j, err);
    case CancelStep(c) => CancelKeepsInv(s, c);
    case _ => OutsideKeepsInv(s, l);
  }

  lemma {:induction false} RunKeepsInv(s: State, ls: seq<Label>)
    requires Inv(s) && Executable(s, ls)
    ensures Inv(Run(s, ls))
    decreases |ls|
  {
    if ls == [] {
    } else {
      StepKeepsInv(s, ls[0]);
      RunKeepsInv(Apply(s, ls[0]), ls[1..]);
    }
  }

  lemma {:induction false} Then(s: State, ls: seq<Label>, l: Label)
    requires Executable(s, ls) && Enabled(Run(s, ls), l)
    ensures Executable(s, ls + [l]) && Run(s, ls + [l]) == Apply(Run(s, ls), l)
    decreases |ls|
  {
    if ls == [] {
      assert ls + [l] == [l];
      assert Executable(Apply(s, l), []);
    } else {
      assert (ls + [l])[1..] == ls[1..] + [l];
      Then(Apply(s, ls[0]), ls[1..], l);
    }
  }

  /** Some run of a queue leads to s. */
  ghost predicate Reachable(s: State) {
    exists m, ls :: Executable(Init(m), ls) && Run(Init(m), ls) == s
  }

  lemma ReachInit(maxConcurrent: int)
    ensures Reachable(Init(maxConcurrent))
  {
    var s := Init(maxConcurrent);
    assert Executable(s, []) && Run(s, []) == s;
  }

  lemma ReachNext(s: State, l: Label)
    requires Reachable(s) && Enabled(s, l)
    ensures Reachable(Apply(s, l))
  {
    var m, ls :| Executable(Init(m), ls) && Run(Init(m), ls) == s;
    Then(Init(m), ls, l);
  }

  lemma ReachInv(s: State)
    requires Reachable(s)
    ensures Inv(s)
  {
    var m, ls :| Executable(Init(m), ls) && Run(Init(m), ls) == s;
    InvInit(m);
    RunKeepsInv(Init(m), ls);
  }

  // ---------------------------------------------------------------- over all runs

  /** The jobs whose run function is executing. */
  ghost function Executing(s: State): set<nat> {
    set j | 0 <= j < |s.jobs| && s.jobs[j].exec.RunBody?
  }

  lemma SubsetSize(a: set<nat>, b: set<nat>)
    requires a <= b
    ensures |a| <= |b|
  {
    if a != {} {
      var x :| x in a;
      SubsetSize(a - {x}, b - {x});
    }
  }

  /** The setting of the process that is running after the steps. */
  function Setting(maxConcurrent: int, ls: seq<Label>): int
    decreases |ls|
  {
    if ls == [] then maxConcurrent
    else Setting(if ls[0].Restart? then ls[0].maxConcurrent else maxConcurrent, ls[1..])
  }

  /** At most max(1, maxConcurrent) run functions execute at once, in every reachable state, where the
      setting may change at every restart. */
  lemma ConcurrencyBound(maxConcurrent: int, ls: seq<Label>)
    requires Executable(Init(maxConcurrent), ls)
    ensures |Executing(Run(Init(maxConcurrent), ls))| <= Slots(Setting(maxConcurrent, ls))
  {
    var s := Run(Init(maxConcurrent), ls);
    InvInit(maxConcurrent);
    RunKeepsInv(Init(maxConcurrent), ls);
    MaxIsSetting(Init(maxConcurrent), maxConcurrent, ls);
    forall j | j in Executing(s) ensures j in s.running { assert JobOk(s, j); }
    SubsetSize(Executing(s), s.running);
  }

  lemma {:induction false} MaxIsSetting(s: State, m: int, ls: seq<Label>)
    requires Executable(s, ls) && s.max == Slots(m)
    ensures Run(s, ls).max == Slots(Setting(m, ls))
    decreases |ls|
  {
    if ls == [] {
    } else {
      MaxIsSetting(Apply(s, ls[0]), if ls[0].Restart? then ls[0].maxConcurrent else m, ls[1..]);
    }
  }

  /** In every reachable state: one place per task, done closed at most once, and closed only
      after the row is terminal; a row that is not terminal still has an owner in flight. */
  lemma EveryRunIsSafe(maxConcurrent: int, ls: seq<Label>, j: nat)
    requires Executable(Init(maxConcurrent), ls)
    requires j < |Run(Init(maxConcurrent), ls).jobs|
    ensures var s := Run(Init(maxConcurrent), ls);
      && OnePlace(s, j)
      && s.jobs[j].closes <= 1
      && (s.jobs[j].closes == 1 ==> s.jobs[j].row.Terminal())
      && (!s.jobs[j].row.Terminal() ==> RowOwned(s, j))
  {
    var s := Run(Init(maxConcurrent), ls);
    InvInit(maxConcurrent);
    RunKeepsInv(Init(maxConcurrent), ls);
    assert JobOk(s, j);
  }

  /** Jobs are dispatched in append order, skipping exactly those cancelled while pending. */
  lemma DispatchOrder(maxConcurrent: int, ls: seq<Label>)
    requires Executable(Init(maxConcurrent), ls)
    ensures var s := Run(Init(maxConcurrent), ls);
      Kept(s.appended, s.jobs) == s.dispatched + s.pending
  {
    InvInit(maxConcurrent);
    RunKeepsInv(Init(maxConcurrent), ls);
  }

  /** A viewer to whom Subscribe says "not live" either came before the job's sink was registered or
      finds the result in the row. */
  lemma LateViewerFindsResult(maxConcurrent: int, ls: seq<Label>, j: nat)
    requires Executable(Init(maxConcurrent), ls)
    requires j < |Run(Init(maxConcurrent), ls).jobs|
    ensures var s := Run(Init(maxConcurrent), ls); var pc := s.jobs[j].exec;
      j !in s.sinks ==> pc.NotSpawned? || pc.MarkStarted? || pc.RegisterSink? || s.jobs[j].row.Terminal()
  {
    InvInit(maxConcurrent);
    RunKeepsInv(Init(maxConcurrent), ls);
    assert JobOk(Run(Init(maxConcurrent), ls), j);
  }

  /** A restart leaves terminal rows alone and leaves no row without an owner. */
  lemma RestartReconciles(s: State, m: int, j: nat)
    requires Inv(s) && j < |s.jobs|
    ensures var s' := Apply(s, Restart(m));
      && s'.jobs[j].row.Terminal()
      && (s.jobs[j].row.Terminal() ==> s'.jobs[j].row == s.jobs[j].row)
      && (s'.jobs[j].row != s.jobs[j].row ==> RowOwned(s, j) && s'.jobs[j].row == Failed)
  {
    assert JobOk(s, j);
  }
}
