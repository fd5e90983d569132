/**
 Agreement between a job's database row and its in-memory task.

 The row follows PENDING, RUNNING, terminal or PENDING, CANCELLED as long as no Cancel is issued
 for a job whose row is written but whose task is not yet on the pending list. In any state where
 such a job exists a Cancel can report success and the job still runs, unless the dispatcher has
 stopped, and in no other state.
 */
module JobRows {
  import opened JobProtocol
  import opened JobSafety
  import opened JobProgress

  /** Cancel is only issued once Enqueue has appended the task (so at the latest when it returned). */
  ghost predicate Disciplined(s: State, l: Label)
    requires Enabled(s, l)
  {
    l.IssueCancel? ==> !s.jobs[l.job].enq.Inserted?
  }

  ghost predicate DisciplinedRun(s: State, ls: seq<Label>)
    requires Executable(s, ls)
    decreases |ls|
  {
    ls == [] || (Disciplined(s, ls[0]) && DisciplinedRun(Apply(s, ls[0]), ls[1..]))
  }

  // ---------------------------------------------------------------- what the row says

  ghost predicate RowOk(s: State, j: nat)
    requires j < |s.jobs|
  {
    var b := s.jobs[j];
    if b.enq.Forgotten? then b.row.Terminal()
    else if Removed(s, j) then
      RemoverOk(s, j) && (b.row == Cancelled
                          || (b.row == Pending && s.calls[b.removedBy.value].pc.PersistCancel?))
    else if b.exec.NotSpawned? || b.exec.MarkStarted? then b.row == Pending
    else if b.exec.Started() then b.row == Running
    else VerdictOk(b, b.row)
  }

  ghost predicate CallRowOk(s: State, c: nat)
    requires c < |s.calls|
  {
    var k := s.calls[c];
    && k.job < |s.jobs|
    && !s.jobs[k.job].enq.Inserted?
    && (k.pc.Lookup? ==> s.jobs[k.job].enq.Forgotten? || Removed(s, k.job) || s.jobs[k.job].exec.Past())
    && (k.pc.SetStatus? ==> Removed(s, k.job))
  }

  ghost predicate RowInv(s: State) {
    && Inv(s)
    && (forall j :: 0 <= j < |s.jobs| ==> RowOk(s, j))
    && (forall c :: 0 <= c < |s.calls| ==> CallRowOk(s, c))
  }

  /** The moves a row may make without a restart. */
  predicate LegalMove(a: Status, b: Status) {
    || a == b
    || (a == Pending && (b == Running || b == Cancelled))
    || (a == Running && b.Terminal())
  }

  // ---------------------------------------------------------------- every step keeps it

  lemma ExecRow(s: State, k: nat, err: bool)
    requires Enabled(s, ExecStep(k, err)) && JobOk(s, k) && RowOk(s, k)
    ensures RowOk(ApplyExec(s, k, err), k)
    ensures LegalMove(s.jobs[k].row, ApplyExec(s, k, err).jobs[k].row)
  {
  }

  lemma ExecRows(s: State, k: nat, err: bool)
    requires RowInv(s) && Enabled(s, ExecStep(k, err)) && Inv(ApplyExec(s, k, err))
    ensures RowInv(ApplyExec(s, k, err))
  {
    var s' := ApplyExec(s, k, err);
    assert JobOk(s, k) && RowOk(s, k);
    ExecRow(s, k, err);
    ExecTouches(s, k, err);
    forall j | 0 <= j < |s'.jobs| ensures RowOk(s', j) { assert RowOk(s, j); }
    if s.jobs[k].exec.Past() { PastStays(s, k, err); }
    forall c | 0 <= c < |s'.calls| ensures CallRowOk(s', c) { assert CallRowOk(s, c); }
  }

  lemma PastStays(s: State, k: nat, err: bool)
    requires Enabled(s, ExecStep(k, err)) && s.jobs[k].exec.Past()
    ensures ApplyExec(s, k, err).jobs[k].exec.Past()
  {
  }

  lemma CancelRow(s: State, c: nat)
    requires Enabled(s, CancelStep(c)) && !s.calls[c].pc.Lock?
    requires CallOk(s, c) && CallRowOk(s, c) && JobOk(s, s.calls[c].job) && RowOk(s, s.calls[c].job)
    ensures var s', k := ApplyCancel(s, c), s.calls[c].job;
      RowOk(s', k) && CallRowOk(s', c) && LegalMove(s.jobs[k].row, s'.jobs[k].row)
  {
    CancelCallRow(s, c);
  }

  lemma CancelCallRow(s: State, c: nat)
    requires Enabled(s, CancelStep(c)) && !s.calls[c].pc.Lock?
    requires CallOk(s, c) && CallRowOk(s, c) && RowOk(s, s.calls[c].job)
    ensures CallRowOk(ApplyCancel(s, c), c)
  {
  }

  lemma BystanderRow(s: State, s': State, c: nat, j: nat)
    requires j < |s.jobs| == |s'.jobs| && c < |s.calls| == |s'.calls| && s'.jobs[j] == s.jobs[j]
    requires forall d :: 0 <= d < |s.calls| && d != c ==> s'.calls[d] == s.calls[d]
    requires s'.calls[c].job == s.calls[c].job != j && RowOk(s, j)
    ensures RowOk(s', j)
  {
  }

  lemma LateCancelRows(s: State, c: nat)
    requires RowInv(s) && Enabled(s, CancelStep(c)) && !s.calls[c].pc.Lock? && Inv(ApplyCancel(s, c))
    ensures RowInv(ApplyCancel(s, c))
  {
    var s', k := ApplyCancel(s, c), s.calls[c].job;
    assert CallOk(s, c) && CallRowOk(s, c) && JobOk(s, k) && RowOk(s, k);
    CancelRow(s, c);
    CancelTouches(s, c);
    forall j | 0 <= j < |s'.jobs| ensures RowOk(s', j) {
      if j != k {
        assert RowOk(s, j);
        BystanderRow(s, s', c, j);
      }
    }
    forall d | 0 <= d < |s'.calls| ensures CallRowOk(s', d) { assert CallRowOk(s, d); }
  }

  lemma LockRow(s: State, c: nat, j: nat)
    requires c < |s.calls| && s.calls[c].pc.Lock? && CallOk(s, c) && j < |s.jobs|
    requires JobOk(s, j) && RowOk(s, j)
    ensures RowOk(ApplyLock(s, c), j) && ApplyLock(s, c).jobs[j].row == s.jobs[j].row
  {
  }

  lemma LockRows(s: State, c: nat)
    requires RowInv(s) && c < |s.calls| && s.calls[c].pc.Lock? && CallOk(s, c) && Inv(ApplyLock(s, c))
    ensures RowInv(ApplyLock(s, c))
  {
    var s' := ApplyLock(s, c);
    assert CallRowOk(s, c) && JobOk(s, s.calls[c].job);
    forall j | 0 <= j < |s'.jobs| ensures RowOk(s', j) {
      assert JobOk(s, j) && RowOk(s, j);
      LockRow(s, c, j);
    }
    forall d | 0 <= d < |s'.calls| ensures CallRowOk(s', d) { assert CallRowOk(s, d); }
  }

  lemma EnqueueRow(s: State, k: nat, j: nat)
    requires Enabled(s, EnqueueStep(k)) && j < |s.jobs| && JobOk(s, j) && RowOk(s, j)
    ensures RowOk(ApplyEnqueue(s, k), j) && ApplyEnqueue(s, k).jobs[j].row == s.jobs[j].row
  {
  }

  lemma DispatchRow(s: State, stop: bool, j: nat)
    requires Enabled(s, DispatchStep(stop)) && j < |s.jobs| && JobOk(s, j) && RowOk(s, j)
    ensures RowOk(ApplyDispatch(s, stop), j) && ApplyDispatch(s, stop).jobs[j].row == s.jobs[j].row
  {
  }

  lemma OutsideRow(s: State, l: Label, j: nat)
    requires l.InsertJob? || l.IssueCancel? || l.CloseRoot?
    requires Enabled(s, l) && j < |Apply(s, l).jobs| && (j < |s.jobs| ==> JobOk(s, j) && RowOk(s, j))
    ensures RowOk(Apply(s, l), j) && (j < |s.jobs| ==> Apply(s, l).jobs[j].row == s.jobs[j].row)
  {
  }

  /** Steps that write no row. */
  ghost predicate Rowless(l: Label) { !l.ExecStep? && !l.CancelStep? && !l.Restart? }

  lemma RowlessRow(s: State, l: Label, j: nat)
    requires RowInv(s) && Enabled(s, l) && Rowless(l) && j < |Apply(s, l).jobs|
    ensures RowOk(Apply(s, l), j) && (j < |s.jobs| ==> Apply(s, l).jobs[j].row == s.jobs[j].row)
  {
    if j < |s.jobs| { assert RowOk(s, j) && JobOk(s, j); }
    match l
    case EnqueueStep(k) => EnqueueRow(s, k, j);
    case DispatchStep(stop) => DispatchRow(s, stop, j);
    case _ => OutsideRow(s, l, j);
  }

  /** Calls keep what they know about their job: a task past its appending stays so. */
  lemma RowlessCall(s: State, l: Label, d: nat)
    requires Enabled(s, l) && Disciplined(s, l) && Rowless(l) && d < |Apply(s, l).calls|
    requires Calls(s) && (d < |s.calls| ==> CallRowOk(s, d))
    requires s.disp.Spawn? ==> s.disp.job < |s.jobs| && JobOk(s, s.disp.job)
    ensures CallRowOk(Apply(s, l), d)
  {
    if d < |s.calls| { assert CallOk(s, d); }
  }

  lemma RowlessRows(s: State, l: Label)
    requires RowInv(s) && Enabled(s, l) && Disciplined(s, l) && Rowless(l) && Inv(Apply(s, l))
    ensures RowInv(Apply(s, l))
  {
    var s' := Apply(s, l);
    if s.disp.Spawn? { assert JobOk(s, s.disp.job); }
    forall j | 0 <= j < |s'.jobs| ensures RowOk(s', j) { RowlessRow(s, l, j); }
    forall d | 0 <= d < |s'.calls| ensures CallRowOk(s', d) { RowlessCall(s, l, d); }
  }

  lemma RestartRow(s: State, m: int, j: nat)
    requires j < |s.jobs|
    ensures RowOk(Apply(s, Restart(m)), j)
  {
  }

  lemma RestartRows(s: State, m: int)
    requires RowInv(s)
    ensures RowInv(Apply(s, Restart(m)))
  {
    var s' := Apply(s, Restart(m));
    assert Inv(s') by { OutsideKeepsInv(s, Restart(m)); }
    forall j | 0 <= j < |s'.jobs| ensures RowOk(s', j) { RestartRow(s, m, j); }
  }

  lemma RowStep(s: State, l: Label)
    requires RowInv(s) && Enabled(s, l) && Disciplined(s, l)
    ensures RowInv(Apply(s, l))
  {
    StepKeepsInv(s, l);
    match l
    case ExecStep(k, err) => ExecRows(s, k, err);
    case CancelStep(c) =>
      assert CallOk(s, c);
      if s.calls[c].pc.Lock? { LockRows(s, c); } else { LateCancelRows(s, c); }
    case Restart(m) => RestartRows(s, m);
    case _ => RowlessRows(s, l);
  }

  /** A step moves a row along the documented lifecycle; a restart only fails unfinished rows. */
  lemma RowMoves(s: State, l: Label, j: nat)
    requires RowInv(s) && Enabled(s, l) && j < |s.jobs|
    ensures j < |Apply(s, l).jobs|
    ensures var a, b := s.jobs[j].row, Apply(s, l).jobs[j].row;
      if l.Restart? then b == if a.Terminal() then a else Failed
      else LegalMove(a, b)
  {
    assert JobOk(s, j) && RowOk(s, j);
    match l
    case ExecStep(k, err) =>
      ExecTouches(s, k, err);
      if k == j { ExecRow(s, k, err); }
    case CancelStep(c) =>
      assert CallOk(s, c) && CallRowOk(s, c);
      if s.calls[c].pc.Lock? {
        LockRow(s, c, j);
      } else {
        CancelTouches(s, c);
        if s.calls[c].job == j { CancelRow(s, c); }
      }
    case Restart(_) =>
    case _ => RowlessRow(s, l, j);
  }

  lemma {:induction false} DisciplinedKeepsRows(s: State, ls: seq<Label>)
    requires RowInv(s) && Executable(s, ls) && DisciplinedRun(s, ls)
    ensures RowInv(Run(s, ls))
    decreases |ls|
  {
    if ls == [] {
    } else {
      RowStep(s, ls[0]);
      DisciplinedKeepsRows(Apply(s, ls[0]), ls[1..]);
    }
  }

  /** Terminal is absorbing, through any disciplined run, restarts included. */
  lemma {:induction false} TerminalIsFinal(s: State, ls: seq<Label>, j: nat)
    requires RowInv(s) && Executable(s, ls) && DisciplinedRun(s, ls)
    requires j < |s.jobs| && s.jobs[j].row.Terminal()
    ensures j < |Run(s, ls).jobs| && Run(s, ls).jobs[j].row == s.jobs[j].row
    decreases |ls|
  {
    if ls == [] {
    } else {
      RowMoves(s, ls[0], j);
      RowStep(s, ls[0]);
      TerminalIsFinal(Apply(s, ls[0]), ls[1..], j);
    }
  }

  /** The successive values of job j's row along a run. */
  ghost function History(s: State, ls: seq<Label>, j: nat): (h: seq<Status>)
    requires Executable(s, ls) && j < |s.jobs|
    ensures |h| >= 1 && h[0] == s.jobs[j].row
    decreases |ls|
  {
    if ls == [] then [s.jobs[j].row]
    else
      var s' := Apply(s, ls[0]);
      if j < |s'.jobs| then
        var rest := History(s', ls[1..], j);
        if rest[0] == s.jobs[j].row then rest else [s.jobs[j].row] + rest
      else [s.jobs[j].row]
  }

  predicate Lifecycle(h: seq<Status>) {
    || h == [Pending] || h == [Pending, Cancelled] || h == [Pending, Running]
    || (|h| == 3 && h[..2] == [Pending, Running] && h[2].Terminal())
    || h == [Running] || (|h| == 2 && h[0] == Running && h[1].Terminal())
    || (|h| == 1 && h[0].Terminal())
  }

  lemma Prepend(a: Status, rest: seq<Status>)
    requires Lifecycle(rest) && rest != [] && LegalMove(a, rest[0])
    ensures Lifecycle(if rest[0] == a then rest else [a] + rest)
  {
    if rest[0] != a {
      var h := [a] + rest;
      assert |rest| == 2 ==> h[..2] == [a, rest[0]];
    }
  }

  /** Without a restart the row's history is PENDING, RUNNING, terminal or PENDING, CANCELLED, or a
      part of one of these from where the run starts. */
  lemma {:induction false} RowLifecycle(s: State, ls: seq<Label>, j: nat)
    requires RowInv(s) && Executable(s, ls) && DisciplinedRun(s, ls) && j < |s.jobs|
    requires forall i :: 0 <= i < |ls| ==> !ls[i].Restart?
    ensures Lifecycle(History(s, ls, j))
    decreases |ls|
  {
    if ls == [] {
    } else {
      RowMoves(s, ls[0], j);
      RowStep(s, ls[0]);
      RowLifecycle(Apply(s, ls[0]), ls[1..], j);
      Prepend(s.jobs[j].row, History(Apply(s, ls[0]), ls[1..], j));
    }
  }

  lemma RowInvInit(maxConcurrent: int)
    ensures RowInv(Init(maxConcurrent))
  {
    InvInit(maxConcurrent);
  }

  /** When an executed job is over, its row tells how its run function ended. */
  lemma FinalVerdict(maxConcurrent: int, ls: seq<Label>, j: nat)
    requires Executable(Init(maxConcurrent), ls) && DisciplinedRun(Init(maxConcurrent), ls)
    requires var s := Run(Init(maxConcurrent), ls); j < |s.jobs| && s.jobs[j].closes == 1
    ensures var b := Run(Init(maxConcurrent), ls).jobs[j];
      && (b.removedBy.Some? ==> b.row == Cancelled && b.ret.None?)
      && (b.removedBy.None? ==>
            && b.ret.Some?
            && (b.row == Completed <==> !b.ret.value.err)
            && (b.ret.value.err && b.ret.value.cancelled ==> b.row == Cancelled))
  {
    var s := Run(Init(maxConcurrent), ls);
    RowInvInit(maxConcurrent);
    DisciplinedKeepsRows(Init(maxConcurrent), ls);
    assert JobOk(s, j) && RowOk(s, j);
  }

  // ---------------------------------------------------------------- the condition is exact

  /** A Cancel issued for j now, then `pre`, leaves j's row terminal; `post` changes it again. */
  ghost predicate Misleads(s: State, j: nat, pre: seq<Label>, post: seq<Label>) {
    && Enabled(s, IssueCancel(j))
    && var s1 := Apply(s, IssueCancel(j));
    && Executable(s1, pre) && DisciplinedRun(s1, pre)
    && var s2 := Run(s1, pre);
    && Executable(s2, post) && DisciplinedRun(s2, post)
    && j < |s2.jobs| && s2.jobs[j].row.Terminal()
    && (j < |Run(s2, post).jobs| ==> Run(s2, post).jobs[j].row != s2.jobs[j].row)
  }

  /** Job j is on its way through the queue and no unfinished Cancel concerns it. */
  ghost predicate Unstoppable(s: State, j: nat) {
    && j < |s.jobs|
    && var b := s.jobs[j];
    && b.removedBy.None? && !b.enq.Forgotten?
    && (forall c :: 0 <= c < |s.calls| && s.calls[c].job == j ==> s.calls[c].pc.Done?)
    && (b.ret.Some? ==> !b.ret.value.err)
    && (b.exec.Persisted() ==> b.row == Completed)
  }

  lemma UnstoppableExec(s: State, j: nat)
    requires Unstoppable(s, j) && Enabled(s, ExecStep(j, false)) && JobOk(s, j)
    ensures var b := ApplyExec(s, j, false).jobs[j];
      && b.removedBy.None? && !b.enq.Forgotten?
      && (b.ret.Some? ==> !b.ret.value.err)
      && (b.exec.Persisted() ==> b.row == Completed)
  {
    ExecTouches(s, j, false);
  }

  /** A step of another job's goroutine, or of a Cancel of another job. */
  lemma UnstoppableElsewhere(s: State, s': State, j: nat)
    requires Unstoppable(s, j) && j < |s'.jobs| && s'.jobs[j] == s.jobs[j] && |s'.calls| == |s.calls|
    requires forall c :: 0 <= c < |s.calls| ==> s'.calls[c].job == s.calls[c].job
                                                && (s.calls[c].job == j ==> s'.calls[c] == s.calls[c])
    ensures Unstoppable(s', j)
  {
  }

  lemma UnstoppableQueueStep(s: State, l: Label, j: nat)
    requires Unstoppable(s, j) && Enabled(s, l) && (l.EnqueueStep? || l.DispatchStep?)
    requires s.disp.Spawn? ==> s.disp.job < |s.jobs| && JobOk(s, s.disp.job)
    ensures Unstoppable(Apply(s, l), j)
  {
  }

  lemma UnstoppableCancelStep(s: State, c: nat, j: nat)
    requires Unstoppable(s, j) && Enabled(s, CancelStep(c))
    ensures Unstoppable(ApplyCancel(s, c), j)
  {
    if !s.calls[c].pc.Lock? { CancelTouches(s, c); }
    UnstoppableElsewhere(s, ApplyCancel(s, c), j);
  }

  lemma UnstoppableStep(s: State, l: Label, j: nat)
    requires Inv(s) && Unstoppable(s, j) && Enabled(s, l) && l.Internal() && (l.ExecStep? ==> !l.err)
    ensures Unstoppable(Apply(s, l), j)
    ensures !s.disp.Stopped? && l != DispatchStep(true) ==> !Apply(s, l).disp.Stopped?
  {
    assert s.disp.Spawn? ==> JobOk(s, s.disp.job);
    if l.ExecStep? {
      assert JobOk(s, l.job);
      ExecTouches(s, l.job, false);
      if l.job == j { UnstoppableExec(s, j); } else { UnstoppableElsewhere(s, Apply(s, l), j); }
    } else if l.CancelStep? {
      UnstoppableCancelStep(s, l.call, j);
    } else {
      UnstoppableQueueStep(s, l, j);
    }
  }

  lemma {:induction false} UnstoppableRun(s: State, ls: seq<Label>, j: nat)
    requires Inv(s) && Unstoppable(s, j) && !s.disp.Stopped? && Executable(s, ls) && Smooth(ls) && Steady(ls)
    ensures Unstoppable(Run(s, ls), j) && !Run(s, ls).disp.Stopped? && Inv(Run(s, ls))
    ensures DisciplinedRun(s, ls)
    decreases |ls|
  {
    if ls == [] {
    } else {
      UnstoppableStep(s, ls[0], j);
      StepKeepsInv(s, ls[0]);
      UnstoppableRun(Apply(s, ls[0]), ls[1..], j);
    }
  }

  lemma {:induction false} CancelStepsDisciplined(s: State, ls: seq<Label>)
    requires Executable(s, ls) && forall i :: 0 <= i < |ls| ==> !ls[i].IssueCancel?
    ensures DisciplinedRun(s, ls)
    decreases |ls|
  {
    if ls == [] {
    } else {
      CancelStepsDisciplined(Apply(s, ls[0]), ls[1..]);
    }
  }

  /** A Cancel that finds the task nowhere and its row unfinished takes three steps. */
  lemma CancelMisses(s: State, c: nat, j: nat)
    requires c < |s.calls| && s.calls[c] == CancelCall(j, Lock)
    requires j < |s.jobs| && j !in s.running && j !in s.pending && !s.jobs[j].row.Terminal()
    ensures var l := CancelStep(c);
      && Executable(s, [l, l, l])
      && Run(s, [l, l, l]) == s.(jobs := s.jobs[j := s.jobs[j].(row := Cancelled)],
                                 calls := s.calls[c := CancelCall(j, Done(true))])
  {
    var l := CancelStep(c);
    var s1 := s.(calls := s.calls[c := CancelCall(j, Lookup)]);
    var s2 := s.(calls := s.calls[c := CancelCall(j, SetStatus)]);
    assert Apply(s, l) == s1 && Apply(s1, l) == s2;
    var s3 := s.(jobs := s.jobs[j := s.jobs[j].(row := Cancelled)], calls := s.calls[c := CancelCall(j, Done(true))]);
    assert Apply(s2, l) == s3;
    assert [l, l, l][1..] == [l, l] && [l, l][1..] == [l] && [l][1..] == [];
    assert Executable(s3, []) && Run(s3, []) == s3;
    assert Executable(s2, [l]) && Run(s2, [l]) == s3;
    assert Executable(s1, [l, l]) && Run(s1, [l, l]) == s3;
  }

  /** Three steps of a Cancel that finds the task nowhere mark its row CANCELLED and report success. */
  lemma EarlyCancel(s: State, j: nat) returns (pre: seq<Label>)
    requires RowInv(s) && j < |s.jobs| && s.jobs[j].enq.Inserted?
    ensures var s1 := Apply(s, IssueCancel(j));
      && Executable(s1, pre) && DisciplinedRun(s1, pre)
      && var s2 := Run(s1, pre);
      && Inv(s2) && Unstoppable(s2, j) && s2.disp == s.disp && s2.jobs[j].row == Cancelled
      && CancelCall(j, Done(true)) in s2.calls
  {
    var c := |s.calls|;
    var l := CancelStep(c);
    assert JobOk(s, j) && RowOk(s, j);
    forall d | 0 <= d < |s.calls| ensures s.calls[d].job != j { assert CallRowOk(s, d); }
    var s1 := Apply(s, IssueCancel(j));
    CancelMisses(s1, c, j);
    pre := [l, l, l];
    CancelStepsDisciplined(s1, pre);
    var s2 := Run(s1, pre);
    assert Inv(s2) by {
      StepKeepsInv(s, IssueCancel(j));
      RunKeepsInv(s1, pre);
    }
    assert s2.calls[c] == CancelCall(j, Done(true));
  }

  /** Before the append, while the dispatcher is at work, a Cancel can mislead. */
  lemma EarlyCancelMisleads(s: State, j: nat)
    requires RowInv(s) && j < |s.jobs| && s.jobs[j].enq.Inserted? && !s.disp.Stopped?
    ensures exists pre, post :: Misleads(s, j, pre, post)
  {
    var pre := EarlyCancel(s, j);
    var s2 := Run(Apply(s, IssueCancel(j)), pre);
    var post := RestExists(s2);
    UnstoppableRun(s2, post, j);
    var q := Run(s2, post);
    assert q.jobs[j].row == Completed by {
      RestingIsDrained(q);
      assert JobOk(q, j) && Shape(q);
      RestingJob(q, j);
    }
    assert Misleads(s, j, pre, post);
  }

  /** From the append on it cannot. */
  lemma LateCancelDoesNot(s: State, j: nat, pre: seq<Label>, post: seq<Label>)
    requires RowInv(s) && j < |s.jobs| && !s.jobs[j].enq.Inserted?
    ensures !Misleads(s, j, pre, post)
  {
    if Misleads(s, j, pre, post) {
      var s1 := Apply(s, IssueCancel(j));
      RowStep(s, IssueCancel(j));
      DisciplinedKeepsRows(s1, pre);
      TerminalIsFinal(Run(s1, pre), post, j);
    }
  }

  // ---------------------------------------------------------------- once the dispatcher has stopped

  /** Job j never starts: the dispatcher has stopped before its start, or the process is a later one. */
  ghost predicate Dormant(s: State, j: nat) {
    && j < |s.jobs|
    && var b := s.jobs[j];
    && b.exec.NotSpawned?
    && if b.enq.Forgotten? then
         b.row.Terminal() && forall c :: 0 <= c < |s.calls| && s.calls[c].job == j ==> !s.calls[c].pc.SetStatus?
       else
         s.disp.Stopped? && (b.row == Pending || b.row == Cancelled)
  }

  lemma DormantLock(s: State, c: nat, j: nat)
    requires Dormant(s, j) && c < |s.calls| && s.calls[c].pc.Lock? && s.calls[c].job < |s.jobs|
    ensures Dormant(ApplyLock(s, c), j) && ApplyLock(s, c).jobs[j].row == s.jobs[j].row
  {
  }

  lemma DormantLateCancel(s: State, c: nat, j: nat)
    requires Dormant(s, j) && JobOk(s, j) && Enabled(s, CancelStep(c)) && CallOk(s, c) && !s.calls[c].pc.Lock?
    ensures Dormant(ApplyCancel(s, c), j)
    ensures s.jobs[j].row.Terminal() ==> ApplyCancel(s, c).jobs[j].row == s.jobs[j].row
  {
    CancelTouches(s, c);
  }

  lemma DormantExec(s: State, k: nat, err: bool, j: nat)
    requires Dormant(s, j) && Enabled(s, ExecStep(k, err))
    ensures Dormant(ApplyExec(s, k, err), j) && ApplyExec(s, k, err).jobs[j].row == s.jobs[j].row
  {
    ExecTouches(s, k, err);
  }

  lemma DormantDispatch(s: State, stop: bool, j: nat)
    requires Dormant(s, j) && JobOk(s, j) && Enabled(s, DispatchStep(stop))
    ensures Dormant(ApplyDispatch(s, stop), j) && ApplyDispatch(s, stop).jobs[j].row == s.jobs[j].row
  {
  }

  lemma DormantOutside(s: State, l: Label, j: nat)
    requires Dormant(s, j) && Enabled(s, l) && !l.Internal()
    ensures Dormant(Apply(s, l), j)
    ensures s.jobs[j].row.Terminal() ==> Apply(s, l).jobs[j].row == s.jobs[j].row
  {
  }

  lemma DormantStep(s: State, l: Label, j: nat)
    requires Inv(s) && Dormant(s, j) && Enabled(s, l)
    ensures Dormant(Apply(s, l), j)
    ensures s.jobs[j].row.Terminal() ==> Apply(s, l).jobs[j].row == s.jobs[j].row
  {
    assert JobOk(s, j);
    match l
    case EnqueueStep(k) =>
    case DispatchStep(stop) => DormantDispatch(s, stop, j);
    case ExecStep(k, err) => DormantExec(s, k, err, j);
    case CancelStep(c) =>
      assert CallOk(s, c);
      if s.calls[c].pc.Lock? { DormantLock(s, c, j); } else { DormantLateCancel(s, c, j); }
    case _ => DormantOutside(s, l, j);
  }

  lemma {:induction false} DormantRun(s: State, ls: seq<Label>, j: nat)
    requires Inv(s) && Dormant(s, j) && Executable(s, ls)
    ensures Inv(Run(s, ls)) && Dormant(Run(s, ls), j)
    ensures s.jobs[j].row.Terminal() ==> Run(s, ls).jobs[j].row == s.jobs[j].row
    decreases |ls|
  {
    if ls == [] {
    } else {
      DormantStep(s, ls[0], j);
      StepKeepsInv(s, ls[0]);
      DormantRun(Apply(s, ls[0]), ls[1..], j);
    }
  }

  /** With the dispatcher gone the job never starts, so no Cancel of it can mislead. */
  lemma StoppedDoesNot(s: State, j: nat, pre: seq<Label>, post: seq<Label>)
    requires RowInv(s) && j < |s.jobs| && s.jobs[j].enq.Inserted? && s.disp.Stopped?
    ensures !Misleads(s, j, pre, post)
  {
    if Misleads(s, j, pre, post) {
      var s1 := Apply(s, IssueCancel(j));
      assert JobOk(s, j) && RowOk(s, j);
      StepKeepsInv(s, IssueCancel(j));
      DormantRun(s1, pre, j);
      DormantRun(Run(s1, pre), post, j);
    }
  }

  /** Exactly when a Cancel can report success, mark the row CANCELLED, and still see the job run to
      another result: when Enqueue has written the row but not yet appended the task, and the
      dispatcher has not stopped. */
  lemma EarlyCancelIsExact(maxConcurrent: int, ls: seq<Label>, j: nat)
    requires Executable(Init(maxConcurrent), ls) && DisciplinedRun(Init(maxConcurrent), ls)
    requires j < |Run(Init(maxConcurrent), ls).jobs|
    ensures var s := Run(Init(maxConcurrent), ls);
      s.jobs[j].enq.Inserted? && !s.disp.Stopped? <==> exists pre, post :: Misleads(s, j, pre, post)
  {
    var s := Run(Init(maxConcurrent), ls);
    RowInvInit(maxConcurrent);
    DisciplinedKeepsRows(Init(maxConcurrent), ls);
    if s.jobs[j].enq.Inserted? && !s.disp.Stopped? {
      EarlyCancelMisleads(s, j);
    } else {
      forall pre, post ensures !Misleads(s, j, pre, post) {
        if s.jobs[j].enq.Inserted? { StoppedDoesNot(s, j, pre, post); } else { LateCancelDoesNot(s, j, pre, post); }
      }
    }
  }
}
