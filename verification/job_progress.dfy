/** The queue drains: internal schedules are finite, and where one ends nothing is left over. */
module JobProgress {
  import opened Options
  import opened JobProtocol
  import opened JobSafety

  // ---------------------------------------------------------------- the measure

  function EnqueueWeight(pc: EnqueuePc): nat {
    match pc case Inserted => 7 case Appended => 3 case _ => 0
  }

  function ExecWeight(pc: ExecPc): nat {
    match pc
    case NotSpawned => 13 case MarkStarted => 12 case RegisterSink => 11 case RunBody => 10
    case CloseSink(_) => 9 case Decide(_) => 8 case Persist(_) => 7 case Unlist => 6
    case ReleaseCtx => 5 case CloseDone => 4 case WakeUp => 3 case Finished => 0
  }

  function CallWeight(pc: CancelPc): nat {
    match pc
    case Lock => 6 case PersistCancel => 3 case ReleaseTask => 2 case CloseTask => 1
    case Lookup => 2 case SetStatus => 1 case Signal => 1 case Done(_) => 0
  }

  function DispatchWeight(pc: DispatchPc): nat {
    match pc case Stopped => 0 case AwaitWake => 1 case Scan => 2 case Spawn(_) => 3
  }

  function JobsWeight(jobs: seq<Job>): nat {
    if jobs == [] then 0
    else EnqueueWeight(jobs[0].enq) + ExecWeight(jobs[0].exec) + JobsWeight(jobs[1..])
  }

  function CallsWeight(calls: seq<CancelCall>): nat {
    if calls == [] then 0 else CallWeight(calls[0].pc) + CallsWeight(calls[1..])
  }

  function Measure(s: State): nat {
    JobsWeight(s.jobs) + CallsWeight(s.calls) + 3 * |s.pending|
    + (if s.token then 2 else 0) + DispatchWeight(s.disp)
  }

  lemma {:induction false} JobsWeightUpdate(jobs: seq<Job>, j: nat, b: Job)
    requires j < |jobs|
    ensures JobsWeight(jobs[j := b]) + EnqueueWeight(jobs[j].enq) + ExecWeight(jobs[j].exec)
            == JobsWeight(jobs) + EnqueueWeight(b.enq) + ExecWeight(b.exec)
  {
    if j == 0 {
      assert jobs[j := b][1..] == jobs[1..];
    } else {
      assert jobs[j := b][1..] == jobs[1..][j - 1 := b];
      JobsWeightUpdate(jobs[1..], j - 1, b);
    }
  }

  lemma {:induction false} CallsWeightUpdate(calls: seq<CancelCall>, c: nat, k: CancelCall)
    requires c < |calls|
    ensures CallsWeight(calls[c := k]) + CallWeight(calls[c].pc) == CallsWeight(calls) + CallWeight(k.pc)
  {
    if c == 0 {
      assert calls[c := k][1..] == calls[1..];
    } else {
      assert calls[c := k][1..] == calls[1..][c - 1 := k];
      CallsWeightUpdate(calls[1..], c - 1, k);
    }
  }

  lemma {:induction false} WithoutShorter(xs: seq<nat>, x: nat)
    ensures |Without(xs, x)| <= |xs|
  {
    if xs == [] {
    } else {
      WithoutShorter(xs[..|xs|-1], x);
    }
  }

  lemma EnqueueDecreases(s: State, j: nat)
    requires Enabled(s, EnqueueStep(j))
    ensures Measure(ApplyEnqueue(s, j)) < Measure(s)
  {
    JobsWeightUpdate(s.jobs, j, ApplyEnqueue(s, j).jobs[j]);
  }

  lemma DispatchDecreases(s: State, stop: bool)
    requires Enabled(s, DispatchStep(stop)) && (s.disp.Spawn? ==> s.jobs[s.disp.job].exec.NotSpawned?)
    ensures Measure(ApplyDispatch(s, stop)) < Measure(s)
  {
    if s.disp.Spawn? {
      JobsWeightUpdate(s.jobs, s.disp.job, ApplyDispatch(s, stop).jobs[s.disp.job]);
    }
  }

  function TokenWeight(s: State): nat { if s.token then 2 else 0 }

  function JobWeight(b: Job): nat { EnqueueWeight(b.enq) + ExecWeight(b.exec) }

  lemma JobLighter(s: State, s': State, j: nat)
    requires j < |s.jobs| == |s'.jobs|
    requires s' == s.(jobs := s.jobs[j := s'.jobs[j]], token := s'.token,
                      running := s'.running, sinks := s'.sinks)
    requires JobWeight(s'.jobs[j]) + TokenWeight(s') < JobWeight(s.jobs[j]) + TokenWeight(s)
    ensures Measure(s') < Measure(s)
  {
    JobsWeightUpdate(s.jobs, j, s'.jobs[j]);
  }

  lemma PastLighter(s: State, j: nat, err: bool)
    requires Enabled(s, ExecStep(j, err)) && s.jobs[j].exec.Past()
    ensures var s' := ApplyExec(s, j, err);
      JobWeight(s'.jobs[j]) + TokenWeight(s') < JobWeight(s.jobs[j]) + TokenWeight(s)
  {
  }

  lemma ExecLighter(s: State, j: nat, err: bool)
    requires Enabled(s, ExecStep(j, err))
    ensures var s' := ApplyExec(s, j, err);
      |s'.jobs| == |s.jobs|
      && JobWeight(s'.jobs[j]) + TokenWeight(s') < JobWeight(s.jobs[j]) + TokenWeight(s)
  {
    if s.jobs[j].exec.Past() { PastLighter(s, j, err); }
  }

  lemma ExecDecreases(s: State, j: nat, err: bool)
    requires Enabled(s, ExecStep(j, err))
    ensures Measure(ApplyExec(s, j, err)) < Measure(s)
  {
    ExecLighter(s, j, err);
    ExecTouches(s, j, err);
    var s' := ApplyExec(s, j, err);
    assert s'.jobs == s.jobs[j := s'.jobs[j]];
    JobLighter(s, s', j);
  }

  lemma CallLighter(s: State, s': State, c: nat, j: nat)
    requires c < |s.calls| && j < |s.jobs| && |s'.jobs| == |s.jobs| && |s'.calls| == |s.calls|
    requires s' == s.(jobs := s.jobs[j := s'.jobs[j]], calls := s.calls[c := s'.calls[c]], pending := s'.pending)
    requires JobWeight(s'.jobs[j]) == JobWeight(s.jobs[j]) && |s'.pending| <= |s.pending|
    requires CallWeight(s'.calls[c].pc) < CallWeight(s.calls[c].pc)
    ensures Measure(s') < Measure(s)
  {
    JobsWeightUpdate(s.jobs, j, s'.jobs[j]);
    CallsWeightUpdate(s.calls, c, s'.calls[c]);
  }

  lemma CancelLighter(s: State, c: nat)
    requires Enabled(s, CancelStep(c)) && !s.calls[c].pc.Lock?
    ensures CallWeight(ApplyCancel(s, c).calls[c].pc) < CallWeight(s.calls[c].pc)
  {
  }

  lemma CancelDecreases(s: State, c: nat)
    requires Enabled(s, CancelStep(c))
    ensures Measure(ApplyCancel(s, c)) < Measure(s)
  {
    var s', k := ApplyCancel(s, c), s.calls[c].job;
    if s.calls[c].pc.Lock? {
      WithoutShorter(s.pending, k);
    } else {
      CancelTouches(s, c);
      CancelLighter(s, c);
    }
    assert s'.jobs == s.jobs[k := s'.jobs[k]];
    assert s'.calls == s.calls[c := s'.calls[c]];
    CallLighter(s, s', c, k);
  }

  /** Every internal step uses up some of the measure. */
  lemma InternalDecreases(s: State, l: Label)
    requires Inv(s) && Enabled(s, l) && l.Internal()
    ensures Measure(Apply(s, l)) < Measure(s)
  {
    match l
    case EnqueueStep(j) => EnqueueDecreases(s, j);
    case DispatchStep(stop) =>
      if s.disp.Spawn? { assert JobOk(s, s.disp.job); }
      DispatchDecreases(s, stop);
    case ExecStep(j, err) => ExecDecreases(s, j, err);
    case CancelStep(c) => CancelDecreases(s, c);
  }

  ghost predicate AllInternal(ls: seq<Label>) {
    forall i :: 0 <= i < |ls| ==> ls[i].Internal()
  }

  /** With no further Enqueue, Cancel, Close or crash, every schedule is finite: it takes at most
      Measure(s) steps, whatever the run functions answer. */
  lemma {:induction false} ScheduleBounded(s: State, ls: seq<Label>)
    requires Inv(s) && Executable(s, ls) && AllInternal(ls)
    ensures Measure(Run(s, ls)) + |ls| <= Measure(s)
    decreases |ls|
  {
    if ls == [] {
    } else {
      InternalDecreases(s, ls[0]);
      StepKeepsInv(s, ls[0]);
      ScheduleBounded(Apply(s, ls[0]), ls[1..]);
    }
  }

  // ---------------------------------------------------------------- where a schedule ends

  ghost predicate Quiescent(s: State) {
    forall l: Label :: l.Internal() ==> !Enabled(s, l)
  }

  /** No internal step is possible but the dispatcher's stop. */
  ghost predicate Resting(s: State) {
    forall l: Label :: l.Internal() && l != DispatchStep(true) ==> !Enabled(s, l)
  }

  /** Everything has been handed back: nothing listed, nothing running, every Done closed. */
  ghost predicate Drained(s: State) {
    && s.pending == [] && s.running == {} && s.sinks == {}
    && forall j :: 0 <= j < |s.jobs| && !s.jobs[j].enq.Forgotten? ==>
         s.jobs[j].closes == 1 && s.jobs[j].row.Terminal()
  }

  lemma RestingJob(s: State, j: nat)
    requires Inv(s) && Resting(s) && j < |s.jobs|
    ensures s.jobs[j].enq.Returned? || s.jobs[j].enq.Forgotten?
    ensures s.jobs[j].exec.NotSpawned? || s.jobs[j].exec.Finished?
    ensures !Taken(s, j)
    ensures Removed(s, j) ==> RemoverOk(s, j) && s.calls[s.jobs[j].removedBy.value].pc.Done?
  {
    assert JobOk(s, j);
    assert !Enabled(s, EnqueueStep(j));
    assert !Enabled(s, ExecStep(j, false));
    assert !Enabled(s, DispatchStep(false));
    if Removed(s, j) {
      assert CallOk(s, s.jobs[j].removedBy.value);
      assert !Enabled(s, CancelStep(s.jobs[j].removedBy.value));
    }
  }

  /** Where no internal step is possible, but perhaps the dispatcher's stop, only a dispatcher that has
      stopped can have left tasks behind. */
  lemma RestingIsDrained(s: State)
    requires Inv(s) && Resting(s)
    ensures s.running == {} && s.sinks == {}
    ensures s.pending != [] ==> s.disp.Stopped?
    ensures Drained(s) <==> s.pending == []
  {
    forall j | 0 <= j < |s.jobs|
      ensures j !in s.running && j !in s.sinks
      ensures j !in s.pending && !s.jobs[j].enq.Forgotten? ==> s.jobs[j].closes == 1 && s.jobs[j].row.Terminal()
    {
      RestingJob(s, j);
      assert JobOk(s, j);
    }
    assert forall x :: x !in s.running && x !in s.sinks;
    if s.pending != [] && !s.disp.Stopped? {
      assert !Enabled(s, DispatchStep(false));
      assert s.pending[0] in s.pending;
      var j :| AboutToWake(s, j);
      RestingJob(s, j);
      assert false;
    }
  }

  /** While the root context is live, every schedule that cannot be continued has drained the queue. */
  lemma LiveQueueDrains(maxConcurrent: int, ls: seq<Label>)
    requires Executable(Init(maxConcurrent), ls)
    requires var s := Run(Init(maxConcurrent), ls); s.live && Quiescent(s)
    ensures Drained(Run(Init(maxConcurrent), ls))
  {
    InvInit(maxConcurrent);
    RunKeepsInv(Init(maxConcurrent), ls);
    RestingIsDrained(Run(Init(maxConcurrent), ls));
  }

  // ---------------------------------------------------------------- building runs

  lemma RunCons(s: State, l: Label, ls: seq<Label>)
    requires Enabled(s, l) && Executable(Apply(s, l), ls)
    ensures Executable(s, [l] + ls) && Run(s, [l] + ls) == Run(Apply(s, l), ls)
  {
    assert ([l] + ls)[1..] == ls;
  }

  lemma SomeStep(s: State) returns (l: Label)
    requires Inv(s) && !Resting(s)
    ensures l.Internal() && Enabled(s, l) && l != DispatchStep(true) && (l.ExecStep? ==> !l.err)
    ensures Inv(Apply(s, l)) && Measure(Apply(s, l)) < Measure(s)
  {
    var m: Label :| m.Internal() && m != DispatchStep(true) && Enabled(s, m);
    l := if m.ExecStep? then ExecStep(m.job, false) else m;
    InternalDecreases(s, l);
    StepKeepsInv(s, l);
  }

  /** An internal schedule in which the run functions succeed. */
  ghost predicate Smooth(ls: seq<Label>) {
    AllInternal(ls) && forall i :: 0 <= i < |ls| && ls[i].ExecStep? ==> !ls[i].err
  }

  /** The dispatcher does not stop. */
  ghost predicate Steady(ls: seq<Label>) {
    forall i :: 0 <= i < |ls| ==> ls[i] != DispatchStep(true)
  }

  lemma SmoothCons(l: Label, ls: seq<Label>)
    requires Smooth(ls) && Steady(ls) && l.Internal() && l != DispatchStep(true) && (l.ExecStep? ==> !l.err)
    ensures Smooth([l] + ls) && Steady([l] + ls)
  {
  }

  /** Some internal schedule comes to rest without stopping the dispatcher; run functions may be taken
      to succeed in it. */
  lemma {:induction false} RestExists(s: State) returns (ls: seq<Label>)
    requires Inv(s)
    ensures Executable(s, ls) && Smooth(ls) && Steady(ls) && Resting(Run(s, ls))
    decreases Measure(s)
  {
    if Resting(s) {
      ls := [];
    } else {
      var m := SomeStep(s);
      var rest := RestExists(Apply(s, m));
      ls := [m] + rest;
      RunCons(s, m, rest);
      SmoothCons(m, rest);
    }
  }

  lemma SmoothThenStop(ls: seq<Label>)
    requires Smooth(ls)
    ensures Smooth(ls + [DispatchStep(true)])
  {
  }

  lemma StopAtRest(s: State)
    requires Resting(s) && Enabled(s, DispatchStep(true))
    ensures Quiescent(Apply(s, DispatchStep(true)))
  {
    var s' := Apply(s, DispatchStep(true));
    forall l: Label | l.Internal() ensures !Enabled(s', l) {
      if l != DispatchStep(true) { assert !Enabled(s, l); }
    }
  }

  /** Some internal schedule ends; run functions may be taken to succeed in it. */
  lemma DrainExists(s: State) returns (ls: seq<Label>)
    requires Inv(s)
    ensures Executable(s, ls) && Smooth(ls) && Quiescent(Run(s, ls))
  {
    ls := RestExists(s);
    var r := Run(s, ls);
    if Enabled(r, DispatchStep(true)) {
      StopAtRest(r);
      Then(s, ls, DispatchStep(true));
      SmoothThenStop(ls);
      ls := ls + [DispatchStep(true)];
    }
  }

  /** The root is cancelled and the dispatcher gone between an Enqueue's insert and its append. */
  lemma StoppedBeforeAppend() returns (s: State)
    ensures var ls := [InsertJob, CloseRoot, DispatchStep(true)]; Executable(Init(1), ls) && Run(Init(1), ls) == s
    ensures s == Init(1).(jobs := [Job(Pending, Inserted, NotSpawned, true, 0, None, None)],
                          live := false, disp := Stopped)
  {
    var b := Job(Pending, Inserted, NotSpawned, false, 0, None, None);
    var s1 := Init(1).(jobs := [b]);
    var s2 := s1.(jobs := [b.(ctx := true)], live := false);
    assert Apply(Init(1), InsertJob) == s1;
    Then(Init(1), [], InsertJob);
    assert Apply(s1, CloseRoot) == s2;
    Then(Init(1), [InsertJob], CloseRoot);
    s := s2.(disp := Stopped);
    Then(Init(1), [InsertJob, CloseRoot], DispatchStep(true));
  }

  /** After Close a pending task is stranded for good: nothing can move, and Done stays open. */
  lemma CloseStrandsPending()
    ensures var ls := [InsertJob, CloseRoot, DispatchStep(true), EnqueueStep(0), EnqueueStep(0)];
      && Executable(Init(1), ls)
      && var s := Run(Init(1), ls);
      && Quiescent(s) && s.pending == [0] && s.jobs[0].closes == 0 && s.jobs[0].row == Pending
  {
    var s := StoppedBeforeAppend();
    Then(Init(1), [InsertJob, CloseRoot, DispatchStep(true)], EnqueueStep(0));
    var b := Job(Pending, Appended, NotSpawned, true, 0, None, None);
    var s4 := s.(jobs := [b], pending := [0], appended := [0]);
    assert Apply(s, EnqueueStep(0)) == s4;
    Then(Init(1), [InsertJob, CloseRoot, DispatchStep(true), EnqueueStep(0)], EnqueueStep(0));
    assert Apply(s4, EnqueueStep(0)) == s4.(jobs := [b.(enq := Returned)], token := true);
  }
}
