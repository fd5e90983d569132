/**
 Exactly when Close strands a task. Once the root context is cancelled the dispatcher may leave its
 select at any wake-up, and a task that is on the pending list by then is never started: its Done
 stays open. That can happen to a task no Cancel is about to take off the list, if it comes after
 the tasks the dispatcher is still bound to start, or is yet to be appended.
 */
module JobStranding {
  import opened JobProtocol
  import opened JobSafety
  import opened JobProgress

  /** The run functions the dispatcher is going to start before it can notice the cancelled root. */
  function Free(s: State): nat {
    if (s.disp.Scan? || s.disp.Spawn?) && |s.running| < s.max then s.max - |s.running| else 0
  }

  /** A Cancel call is about to look for job j. */
  predicate Sought(s: State, j: nat) {
    exists c | 0 <= c < |s.calls| :: s.calls[c] == CancelCall(j, Lock)
  }

  /** Position k of the pending list is out of the dispatcher's reach, and no Cancel is coming. */
  predicate Exposed(s: State, k: nat) {
    Free(s) <= k < |s.pending| && !Sought(s, s.pending[k])
  }

  predicate Appending(s: State, j: nat) { j < |s.jobs| && s.jobs[j].enq.Inserted? }

  predicate CanStrand(s: State) {
    && !s.live
    && ((exists j | 0 <= j < |s.jobs| :: Appending(s, j)) || exists k | 0 <= k < |s.pending| :: Exposed(s, k))
  }

  /** Some internal schedule cannot be continued and leaves something behind. */
  ghost predicate Strands(s: State) {
    exists ls :: Executable(s, ls) && AllInternal(ls) && Quiescent(Run(s, ls)) && !Drained(Run(s, ls))
  }

  // ---------------------------------------------------------------- a task that can be stranded is

  lemma StrandsBefore(s: State, l: Label)
    requires Enabled(s, l) && l.Internal() && Strands(Apply(s, l))
    ensures Strands(s)
  {
    var s' := Apply(s, l);
    var ls :| Executable(s', ls) && AllInternal(ls) && Quiescent(Run(s', ls)) && !Drained(Run(s', ls));
    RunCons(s, l, ls);
    assert AllInternal([l] + ls);
  }

  /** Listed with the dispatcher gone and no Cancel on its way to the list. */
  ghost predicate Stuck(s: State, j: nat) {
    s.disp.Stopped? && j in s.pending && !Sought(s, j)
  }

  lemma StuckLock(s: State, c: nat, j: nat)
    requires Stuck(s, j) && c < |s.calls| && s.calls[c].pc.Lock? && s.calls[c].job < |s.jobs|
    ensures Stuck(ApplyLock(s, c), j)
  {
    assert s.calls[c] == CancelCall(s.calls[c].job, Lock);
    WithoutIs(s.pending, s.calls[c].job);
    StillUnsought(s, ApplyLock(s, c), c, j);
  }

  /** No call goes back to its lookup. */
  lemma StillUnsought(s: State, s': State, c: nat, j: nat)
    requires !Sought(s, j) && c < |s.calls| == |s'.calls| && !s'.calls[c].pc.Lock?
    requires forall d :: 0 <= d < |s.calls| && d != c ==> s'.calls[d] == s.calls[d]
    ensures !Sought(s', j)
  {
  }

  lemma StuckCancel(s: State, c: nat, j: nat)
    requires Stuck(s, j) && Enabled(s, CancelStep(c)) && !s.calls[c].pc.Lock?
    ensures Stuck(ApplyCancel(s, c), j)
  {
    CancelTouches(s, c);
    StillUnsought(s, ApplyCancel(s, c), c, j);
  }

  lemma StuckStep(s: State, l: Label, j: nat)
    requires Stuck(s, j) && Enabled(s, l) && l.Internal()
    ensures Stuck(Apply(s, l), j)
  {
    match l
    case CancelStep(c) => if s.calls[c].pc.Lock? { StuckLock(s, c, j); } else { StuckCancel(s, c, j); }
    case ExecStep(k, err) => ExecTouches(s, k, err);
    case EnqueueStep(k) => assert s.pending <= ApplyEnqueue(s, k).pending;
    case DispatchStep(stop) =>
  }

  lemma {:induction false} StuckRun(s: State, ls: seq<Label>, j: nat)
    requires Stuck(s, j) && Executable(s, ls) && AllInternal(ls)
    ensures Stuck(Run(s, ls), j)
    decreases |ls|
  {
    if ls == [] {
    } else {
      StuckStep(s, ls[0], j);
      StuckRun(Apply(s, ls[0]), ls[1..], j);
    }
  }

  lemma StuckStrands(s: State, j: nat)
    requires Inv(s) && Stuck(s, j)
    ensures Strands(s)
  {
    var ls := DrainExists(s);
    StuckRun(s, ls, j);
  }

  /** The Cancel calls that look for j before its append miss it. */
  lemma {:induction false} AppendStrands(s: State, j: nat)
    requires Inv(s) && s.disp.Stopped? && Appending(s, j)
    ensures Strands(s)
    decreases Measure(s)
  {
    if Sought(s, j) {
      var c :| 0 <= c < |s.calls| && s.calls[c] == CancelCall(j, Lock);
      assert JobOk(s, j);
      StepKeepsInv(s, CancelStep(c));
      InternalDecreases(s, CancelStep(c));
      AppendStrands(Apply(s, CancelStep(c)), j);
      StrandsBefore(s, CancelStep(c));
    } else {
      StepKeepsInv(s, EnqueueStep(j));
      StuckStrands(Apply(s, EnqueueStep(j)), j);
      StrandsBefore(s, EnqueueStep(j));
    }
  }

  /** The dispatcher's next action, stopping as soon as it can. */
  function Quit(s: State): Label { DispatchStep(s.disp.AwaitWake?) }

  lemma QuitKeepsExposed(s: State, k: nat)
    requires Inv(s) && !s.live && !s.disp.Stopped? && k < |s.pending| && Exposed(s, k)
    ensures Enabled(s, Quit(s))
    ensures var s' := Apply(s, Quit(s)); exists k' | 0 <= k' < |s'.pending| :: Exposed(s', k')
  {
    assert s.pending[0] in s.pending;
    var s' := Apply(s, Quit(s));
    if s.disp.Scan? && |s.running| < s.max {
      assert JobOk(s, s.pending[0]);
      assert s'.pending[k - 1] == s.pending[k];
      assert Exposed(s', k - 1);
    } else {
      assert s'.pending[k] == s.pending[k];
      assert Exposed(s', k);
    }
  }

  lemma QuitKeepsAppending(s: State, j: nat)
    requires Inv(s) && !s.live && !s.disp.Stopped? && Appending(s, j)
    ensures Enabled(s, Quit(s)) && Appending(Apply(s, Quit(s)), j)
  {
    if s.pending != [] { assert s.pending[0] in s.pending; }
  }

  lemma {:induction false} CanStrandStrands(s: State)
    requires Inv(s) && CanStrand(s)
    ensures Strands(s)
    decreases Measure(s)
  {
    if s.disp.Stopped? {
      if j :| 0 <= j < |s.jobs| && Appending(s, j) {
        AppendStrands(s, j);
      } else {
        var k :| 0 <= k < |s.pending| && Exposed(s, k);
        StuckStrands(s, s.pending[k]);
      }
    } else {
      if j :| 0 <= j < |s.jobs| && Appending(s, j) {
        QuitKeepsAppending(s, j);
      } else {
        var k :| 0 <= k < |s.pending| && Exposed(s, k);
        QuitKeepsExposed(s, k);
      }
      StepKeepsInv(s, Quit(s));
      InternalDecreases(s, Quit(s));
      CanStrandStrands(Apply(s, Quit(s)));
      StrandsBefore(s, Quit(s));
    }
  }

  // ---------------------------------------------------------------- and no other is

  /** Every task is appended, and those out of the dispatcher's reach are being cancelled. */
  ghost predicate Covered(s: State) {
    && (forall j :: 0 <= j < |s.jobs| ==> !s.jobs[j].enq.Inserted?)
    && (forall k :: Free(s) <= k < |s.pending| ==> Sought(s, s.pending[k]))
  }

  lemma CoveredEnqueue(s: State, j: nat)
    requires Covered(s) && Enabled(s, EnqueueStep(j))
    ensures Covered(ApplyEnqueue(s, j))
  {
    var s' := ApplyEnqueue(s, j);
    assert s.jobs[j].enq.Appended?;
    forall k | Free(s') <= k < |s'.pending| ensures Sought(s', s'.pending[k]) { assert Sought(s, s.pending[k]); }
  }

  lemma CoveredDispatch(s: State, stop: bool)
    requires Covered(s) && Inv(s) && Enabled(s, DispatchStep(stop))
    ensures Covered(ApplyDispatch(s, stop))
  {
    var s' := ApplyDispatch(s, stop);
    var taken := if s.disp.Scan? && s.pending != [] && |s.running| < s.max then 1 else 0;
    if taken == 1 {
      assert s.pending[0] in s.pending && JobOk(s, s.pending[0]);
    }
    forall k | Free(s') <= k < |s'.pending| ensures Sought(s', s'.pending[k]) {
      assert s'.pending[k] == s.pending[k + taken];
      assert Sought(s, s.pending[k + taken]);
    }
  }

  lemma CoveredExec(s: State, j: nat, err: bool)
    requires Covered(s) && Inv(s) && Enabled(s, ExecStep(j, err))
    ensures Covered(ApplyExec(s, j, err))
  {
    var s' := ApplyExec(s, j, err);
    ExecTouches(s, j, err);
    SubsetSize(s'.running, s.running);
    forall k | Free(s') <= k < |s'.pending| ensures Sought(s', s'.pending[k]) { assert Sought(s, s.pending[k]); }
  }

  /** Taking one element out moves the others forward, by at most one place. */
  lemma {:induction false} WithoutPlace(xs: seq<nat>, x: nat, k: nat) returns (i: nat)
    requires NoDup(xs) && k < |Without(xs, x)|
    ensures k <= i < |xs| && xs[i] == Without(xs, x)[k] != x
    decreases |xs|
  {
    var front := xs[..|xs|-1];
    if k < |Without(front, x)| {
      i := WithoutPlace(front, x, k);
    } else {
      i := |xs| - 1;
      WithoutShorter(front, x);
    }
  }

  lemma CoveredLock(s: State, c: nat)
    requires Covered(s) && Inv(s) && c < |s.calls| && s.calls[c].pc.Lock? && s.calls[c].job < |s.jobs|
    ensures Covered(ApplyLock(s, c))
  {
    var s', j := ApplyLock(s, c), s.calls[c].job;
    assert JobOk(s, j);
    forall k | Free(s') <= k < |s'.pending| ensures Sought(s', s'.pending[k]) {
      var i := k;
      if j !in s.running && j in s.pending { i := WithoutPlace(s.pending, j, k); }
      assert s.pending[i] in s.pending && s'.pending[k] == s.pending[i] != j;
      assert Sought(s, s.pending[i]);
      var d :| 0 <= d < |s.calls| && s.calls[d] == CancelCall(s.pending[i], Lock);
      assert s'.calls[d] == s.calls[d];
    }
  }

  lemma CoveredCancel(s: State, c: nat)
    requires Covered(s) && Inv(s) && Enabled(s, CancelStep(c))
    ensures Covered(ApplyCancel(s, c))
  {
    var s' := ApplyCancel(s, c);
    if s.calls[c].pc.Lock? {
      CoveredLock(s, c);
    } else {
      CancelTouches(s, c);
      forall k | Free(s') <= k < |s'.pending| ensures Sought(s', s'.pending[k]) {
        assert Sought(s, s.pending[k]);
        var d :| 0 <= d < |s.calls| && s.calls[d] == CancelCall(s.pending[k], Lock);
        assert s'.calls[d] == s.calls[d];
      }
    }
  }

  lemma CoveredStep(s: State, l: Label)
    requires Covered(s) && Inv(s) && Enabled(s, l) && l.Internal()
    ensures Covered(Apply(s, l))
  {
    match l
    case EnqueueStep(j) => CoveredEnqueue(s, j);
    case DispatchStep(stop) => CoveredDispatch(s, stop);
    case ExecStep(j, err) => CoveredExec(s, j, err);
    case CancelStep(c) => CoveredCancel(s, c);
  }

  lemma InternalKeepsLive(s: State, l: Label)
    requires Enabled(s, l) && l.Internal()
    ensures Apply(s, l).live == s.live
  {
  }

  /** With the root live, or every task covered, a schedule that cannot go on has drained the queue. */
  lemma {:induction false} CoveredDrains(s: State, ls: seq<Label>)
    requires Inv(s) && Executable(s, ls) && AllInternal(ls) && Quiescent(Run(s, ls))
    requires s.live || Covered(s)
    ensures Drained(Run(s, ls))
    decreases |ls|
  {
    if ls == [] {
      RestingIsDrained(s);
      if s.pending != [] {
        assert Sought(s, s.pending[0]);
        var c :| 0 <= c < |s.calls| && s.calls[c] == CancelCall(s.pending[0], Lock);
        assert CallOk(s, c) && Enabled(s, CancelStep(c));
      }
    } else {
      StepKeepsInv(s, ls[0]);
      InternalKeepsLive(s, ls[0]);
      if !s.live { CoveredStep(s, ls[0]); }
      CoveredDrains(Apply(s, ls[0]), ls[1..]);
    }
  }

  /** The queue can come to rest with something left behind exactly when the root is cancelled and a
      task is still to be appended, or is listed beyond the free slots of a dispatcher at work with no
      Cancel call about to take it off the list. */
  lemma StrandsExactly(s: State)
    requires Inv(s)
    ensures Strands(s) <==> CanStrand(s)
  {
    if CanStrand(s) {
      CanStrandStrands(s);
    } else {
      assert s.live || Covered(s) by {
        forall k | Free(s) <= k < |s.pending| && !s.live ensures Sought(s, s.pending[k]) {
          assert !Exposed(s, k);
        }
        forall j | 0 <= j < |s.jobs| && !s.live ensures !s.jobs[j].enq.Inserted? { assert !Appending(s, j); }
      }
      forall ls | Executable(s, ls) && AllInternal(ls) && Quiescent(Run(s, ls)) ensures Drained(Run(s, ls)) {
        CoveredDrains(s, ls);
      }
    }
  }
}
