/**
 The Queue of internal/jobs/queue.go with its own fields: the jobs table, the pending slice, the
 running map, the sink registry and the wake channel. Each method is one atomic block of Enqueue,
 dispatchLoop, execute, Cancel or Close, and is proved to take exactly the step of JobProtocol that
 the ghost state `st` allows at that program counter. Valid says that `st` is reachable: every
 interleaving of these blocks is a run of the protocol, and everything proved about runs holds of the
 object. Enqueue, DispatchRound, Execute and Cancel put the blocks in the source's order.
 */
module JobQueue {
  import opened Options
  import opened JobProtocol
  import opened JobSafety

  class Task {
    const id: nat
    var cancelled: bool   // the task's context
    var closes: nat       // how often done was closed; Go panics on a second close

    constructor (id: nat, cancelled: bool)
      ensures this.id == id && this.cancelled == cancelled && closes == 0
    {
      this.id, this.cancelled, closes := id, cancelled, 0;
    }
  }

  /** What Cancel's locked region found. */
  datatype Found = InRunning(t: Task) | InPending(t: Task, at: nat) | Absent

  /** Cutting one position out of a duplicate-free list is filtering that element out. */
  lemma {:induction false} WithoutAt(xs: seq<nat>, i: nat)
    requires NoDup(xs) && i < |xs|
    ensures Without(xs, xs[i]) == xs[..i] + xs[i+1..]
  {
    var rest := xs[..|xs|-1];
    if i == |xs| - 1 {
      assert xs[i] !in rest;
      WithoutIs(rest, xs[i]);
      assert xs[i+1..] == [] && xs[..i] == rest;
    } else {
      WithoutAt(rest, i);
      assert xs[..i] + xs[i+1..] == (rest[..i] + rest[i+1..]) + [xs[|xs|-1]];
    }
  }

  /** The slice ps lists the tasks named by ids. */
  ghost predicate SameTasks(ps: seq<Task>, ids: seq<nat>, tasks: seq<Task?>) {
    |ps| == |ids| && forall i :: 0 <= i < |ps| ==> ids[i] < |tasks| && ps[i] == tasks[ids[i]]
  }

  lemma SameTasksMore(ps: seq<Task>, ids: seq<nat>, tasks: seq<Task?>, was: seq<Task?>)
    requires SameTasks(ps, ids, was) && was <= tasks
    ensures SameTasks(ps, ids, tasks)
  {
  }

  lemma SameTasksTail(ps: seq<Task>, ids: seq<nat>, tasks: seq<Task?>)
    requires SameTasks(ps, ids, tasks) && ids != []
    ensures SameTasks(ps[1..], ids[1..], tasks)
  {
  }

  lemma SameTasksCut(ps: seq<Task>, ids: seq<nat>, tasks: seq<Task?>, at: nat)
    requires SameTasks(ps, ids, tasks) && at < |ids|
    ensures SameTasks(ps[..at] + ps[at+1..], ids[..at] + ids[at+1..], tasks)
  {
  }

  /** The protocol's removal, at the position where the search stopped. */
  lemma LockCuts(s: State, c: nat, i: nat)
    requires NoDup(s.pending) && i < |s.pending| && c < |s.calls| && s.calls[c].job < |s.jobs|
    requires s.calls[c].job == s.pending[i] && s.calls[c].job !in s.running
    ensures var s' := ApplyLock(s, c);
      && |s'.jobs| == |s.jobs| && s'.calls == s.calls[c := s.calls[c].(pc := PersistCancel)]
      && s' == s.(jobs := s'.jobs, calls := s'.calls, pending := s.pending[..i] + s.pending[i+1..])
      && forall j :: 0 <= j < |s.jobs| ==> s'.jobs[j] == s.jobs[j].(removedBy := s'.jobs[j].removedBy)
  {
    WithoutAt(s.pending, i);
  }

  lemma LockMisses(s: State, c: nat)
    requires c < |s.calls| && s.calls[c].job < |s.jobs|
    requires s.calls[c].job in s.running || s.calls[c].job !in s.pending
    ensures ApplyLock(s, c) == s.(calls := ApplyLock(s, c).calls)
  {
  }

  function Unlisted(s: State, j: nat): State
    requires j < |s.jobs|
  {
    s.(jobs := s.jobs[j := s.jobs[j].(exec := ExecPc.ReleaseCtx)], running := s.running - {j}, sinks := s.sinks - {j})
  }

  function ReconcileRow(row: Status): Status {
    if row.Terminal() then row else Failed
  }

  class Queue {
    const maxConcurrent: nat
    var rows: seq<Status>
    var pending: seq<Task>
    var running: map<nat, Task>
    var sinks: set<nat>
    var wakeCh: nat
    var rootCancelled: bool
    ghost var tasks: seq<Task?>
    var children: set<Task>   // tasks whose contexts derive from the root context
    ghost var st: State

    /** The task objects are what the protocol state s says they are. */
    ghost predicate TasksAgree(s: State)
      reads this, children
    {
      && |tasks| == |s.jobs|
      && (forall j :: 0 <= j < |tasks| ==>
            (tasks[j] != null <==> s.jobs[j].enq.Appended? || s.jobs[j].enq.Returned?))
      && (forall j :: 0 <= j < |tasks| && tasks[j] != null ==>
            && tasks[j] in children && tasks[j].id == j
            && tasks[j].cancelled == s.jobs[j].ctx && tasks[j].closes == s.jobs[j].closes)
    }

    /** The fields are what the protocol state s says they are. */
    ghost predicate Agrees(s: State)
      reads this, children
    {
      && s.max == maxConcurrent && s.live == !rootCancelled
      && |rows| == |s.jobs|
      && (forall j :: 0 <= j < |rows| ==> rows[j] == s.jobs[j].row)
      && TasksAgree(s)
      && SameTasks(pending, s.pending, tasks)
      && running.Keys == s.running
      && (forall id :: id in running ==> id < |tasks| && running[id] == tasks[id])
      && sinks == s.sinks
      && wakeCh == (if s.token then 1 else 0)
    }

    ghost predicate Valid()
      reads this, children
    {
      Reachable(st) && Agrees(st)
    }

    /** The goroutine owning t may take step l now. */
    ghost predicate Owns(t: Task, l: Label)
      requires Valid()
      reads this, children
    {
      t.id < |tasks| && t == tasks[t.id] && Enabled(st, l)
    }

    /** NewQueue on the table left by a previous process, possibly under another setting, that stopped
        in state prev. */
    constructor (db: seq<Status>, maxConcurrent: int, ghost prev: State)
      requires Reachable(prev) && |db| == |prev.jobs|
      requires forall j :: 0 <= j < |db| ==> db[j] == prev.jobs[j].row
      ensures Valid() && st == Apply(prev, Restart(maxConcurrent)) && fresh(children)
      ensures this.maxConcurrent == Slots(maxConcurrent)
      ensures |rows| == |db| && forall j :: 0 <= j < |db| ==> rows[j] == ReconcileRow(db[j])
    {
      this.maxConcurrent := if maxConcurrent < 1 then 1 else maxConcurrent;
      rows := seq(|db|, j requires 0 <= j < |db| => ReconcileRow(db[j]));
      pending, running, sinks, wakeCh, rootCancelled := [], map[], {}, 0, false;
      tasks := seq(|db|, j => null);
      children := {};
      st := Apply(prev, Restart(maxConcurrent));
      new;
      ReachNext(prev, Restart(maxConcurrent));
    }

    /** The very first queue, on an empty table. */
    static method OnEmptyTable(maxConcurrent: int) returns (q: Queue)
      ensures fresh(q) && q.Valid() && q.rows == [] && q.maxConcurrent == Slots(maxConcurrent)
    {
      ReachInit(maxConcurrent);
      q := new Queue([], maxConcurrent, Init(maxConcurrent));
    }

    // -------------------------------------------------------------- Enqueue

    method InsertRow() returns (id: nat)
      requires Valid()
      modifies this`rows, this`tasks, this`st
      ensures Valid() && st == Apply(old(st), InsertJob)
      ensures id == |old(rows)| && rows == old(rows) + [Pending]
      ensures id < |st.jobs| && st.jobs[id].enq.Inserted?
    {
      ghost var s' := st.(jobs := st.jobs + [Job(Pending, Inserted, NotSpawned, !st.live, 0, None, None)]);
      assert Reachable(s') && s' == Apply(st, InsertJob) by { ReachNext(st, InsertJob); }
      id := |rows|;
      rows := rows + [Pending];
      tasks := tasks + [null];
      SameTasksMore(pending, st.pending, tasks, old(tasks));
      st := s';
    }

    method Append(id: nat) returns (t: Task)
      requires Valid() && id < |st.jobs| && st.jobs[id].enq.Inserted?
      modifies this`pending, this`tasks, this`children, this`st
      ensures Valid() && st == Apply(old(st), EnqueueStep(id)) && children == old(children) + {t}
      ensures fresh(t) && t.id == id && pending == old(pending) + [t]
      ensures id < |st.jobs| && st.jobs[id].enq.Appended?
    {
      ghost var s' := st.(jobs := st.jobs[id := st.jobs[id].(enq := Appended, ctx := !st.live)],
                          pending := st.pending + [id], appended := st.appended + [id]);
      assert Reachable(s') && s' == ApplyEnqueue(st, id) by { ReachNext(st, EnqueueStep(id)); }
      assert st.jobs[id].closes == 0 && id !in st.pending && id !in st.running by {
        ReachInv(st);
        assert JobOk(st, id);
      }
      t := NewTask(id, s');
      st := s';
    }

    method NewTask(id: nat, ghost s': State) returns (t: Task)
      requires Agrees(st) && id < |st.jobs| && st.jobs[id].enq.Inserted? && st.jobs[id].closes == 0
      requires id !in st.pending && id !in st.running
      requires s' == st.(jobs := st.jobs[id := st.jobs[id].(enq := Appended, ctx := !st.live)],
                         pending := st.pending + [id], appended := st.appended + [id])
      modifies this`pending, this`tasks, this`children
      ensures Agrees(s') && children == old(children) + {t}
      ensures fresh(t) && t.id == id && pending == old(pending) + [t]
    {
      t := new Task(id, rootCancelled);
      pending := pending + [t];
      tasks := tasks[id := t];
      children := children + {t};
    }

    /** The non-blocking send on the wake channel. */
    method Nudge()
      requires wakeCh <= 1
      modifies this`wakeCh
      ensures wakeCh == 1
    {
      if wakeCh < 1 { wakeCh := wakeCh + 1; }
    }

    /** Enqueue's wake(), and its return. */
    method WakeAfterAppend(id: nat)
      requires Valid() && id < |st.jobs| && st.jobs[id].enq.Appended?
      modifies this`wakeCh, this`st
      ensures Valid() && st == Apply(old(st), EnqueueStep(id)) && wakeCh == 1
      ensures id < |st.jobs| && st.jobs[id].enq.Returned?
    {
      ghost var s' := ApplyEnqueue(st, id);
      assert Reachable(s') by { ReachNext(st, EnqueueStep(id)); }
      assert s' == st.(jobs := st.jobs[id := st.jobs[id].(enq := Returned)], token := true);
      Nudge();
      st := s';
    }

    /** Enqueue, with nothing in between. */
    method Enqueue() returns (t: Task)
      requires Valid()
      modifies this`rows, this`tasks, this`pending, this`children, this`wakeCh, this`st
      ensures Valid() && fresh(t) && t.id == |old(rows)|
      ensures rows == old(rows) + [Pending] && pending == old(pending) + [t] && wakeCh == 1
    {
      var id := InsertRow();
      t := Append(id);
      WakeAfterAppend(id);
    }

    // -------------------------------------------------------------- dispatchLoop

    /** The dispatcher's select: a token or the cancelled root; `stop` is the runtime's choice. */
    method Select(stop: bool) returns (go: bool)
      requires Valid() && st.disp.AwaitWake? && (if stop then rootCancelled else wakeCh == 1)
      modifies this`wakeCh, this`st
      ensures Valid() && st == Apply(old(st), DispatchStep(stop)) && go == !stop
    {
      ReachNext(st, DispatchStep(stop));
      if stop {
        go := false;
      } else {
        wakeCh := wakeCh - 1;
        go := true;
      }
      st := Apply(st, DispatchStep(stop));
    }

    /** Take the first pending task; a slot is free. */
    method Take(ghost s': State) returns (t: Task)
      requires Valid() && st.pending != [] && st.pending[0] !in st.running && Reachable(s')
      requires s' == st.(pending := st.pending[1..], running := st.running + {st.pending[0]},
                         disp := Spawn(st.pending[0]), dispatched := s'.dispatched)
      modifies this`pending, this`running, this`st
      ensures Valid() && st == s' && st.disp == Spawn(t.id)
      ensures t == old(pending)[0] && pending == old(pending)[1..]
      ensures running == old(running)[t.id := t]
    {
      assert pending[0].id == st.pending[0];
      SameTasksTail(pending, st.pending, tasks);
      t := pending[0];
      pending := pending[1..];
      running := running[t.id := t];
      st := s';
    }

    /** No slot is free or nothing is pending: back to the select. */
    ghost method Rest()
      requires Valid() && st.disp.Scan? && (|st.running| >= st.max || st.pending == [])
      modifies this`st
      ensures Enabled(old(st), DispatchStep(false))
      ensures Valid() && st == Apply(old(st), DispatchStep(false)) && st.disp.AwaitWake?
    {
      assert st.pending != [] ==> st.pending[0] < |st.jobs|;
      assert Reachable(st.(disp := AwaitWake)) by { ReachNext(st, DispatchStep(false)); }
      st := st.(disp := AwaitWake);
    }

    /** The dispatcher's locked region: take the first pending task if a slot is free. */
    method Scan() returns (t: Task?)
      requires Valid() && st.disp.Scan?
      modifies this`pending, this`running, this`st
      ensures Enabled(old(st), DispatchStep(false))
      ensures Valid() && st == Apply(old(st), DispatchStep(false))
      ensures t == null <==> |old(running)| >= maxConcurrent || old(pending) == []
      ensures t != null ==> t == old(pending)[0] && pending == old(pending)[1..]
      ensures t != null ==> st.disp == Spawn(t.id) && t.id < |st.jobs|
      ensures t != null ==> running == old(running)[t.id := t]
      ensures t == null ==> pending == old(pending) && running == old(running) && st.disp.AwaitWake?
    {
      assert |running| == |st.running| by { assert |running| == |running.Keys|; }
      if |running| >= maxConcurrent || |pending| == 0 {
        t := null;
        Rest();
      } else {
        ghost var k := st.pending[0];
        ghost var s' := st.(pending := st.pending[1..], running := st.running + {k}, disp := Spawn(k),
                            dispatched := st.dispatched + [k]);
        assert s' == Apply(st, DispatchStep(false));
        assert k !in st.running by { ReachInv(st); assert k in st.pending && JobOk(st, k); }
        assert Reachable(s') by { ReachNext(st, DispatchStep(false)); }
        t := Take(s');
      }
    }

    /** go q.execute(t) */
    method SpawnExecute(t: Task)
      requires Valid() && st.disp == Spawn(t.id) && t.id < |st.jobs|
      modifies this`st
      ensures Valid() && st == Apply(old(st), DispatchStep(false)) && st.disp.Scan?
      ensures t.id < |st.jobs| && st.jobs[t.id].exec.MarkStarted?
    {
      ghost var s' := st.(jobs := st.jobs[t.id := st.jobs[t.id].(exec := ExecPc.MarkStarted)], disp := DispatchPc.Scan);
      assert Reachable(s') && s' == ApplyDispatch(st, false) by { ReachNext(st, DispatchStep(false)); }
      st := s';
    }

    /** The dispatcher's inner loop, with nothing in between: it starts pending tasks from the front
        until the slots or the tasks run out. */
    method DispatchRound() returns (ghost started: nat)
      requires Valid() && st.disp.Scan?
      modifies this`pending, this`running, this`st
      ensures Valid() && st.disp.AwaitWake?
      ensures started <= |old(pending)| && pending == old(pending)[started..]
      ensures forall i :: 0 <= i < started ==> old(pending)[i].id in running
      ensures forall id :: id in old(running) ==> id in running
      ensures |running| >= maxConcurrent || pending == []
    {
      started := 0;
      while true
        invariant Valid() && st.disp.Scan?
        invariant started <= |old(pending)| && pending == old(pending)[started..]
        invariant forall i :: 0 <= i < started ==> old(pending)[i].id in running
        invariant forall id :: id in old(running) ==> id in running
        decreases |pending|
      {
        var t := Scan();
        if t == null { break; }
        SpawnExecute(t);
        started := started + 1;
      }
    }

    // -------------------------------------------------------------- execute

    method MarkStarted(t: Task)
      requires Valid() && Owns(t, ExecStep(t.id, false)) && st.jobs[t.id].exec.MarkStarted?
      modifies this`rows, this`st
      ensures Valid() && st == Apply(old(st), ExecStep(t.id, false))
      ensures rows == old(rows)[t.id := Running]
      ensures t.id < |st.jobs| && st.jobs[t.id].exec.RegisterSink?
    {
      ReachNext(st, ExecStep(t.id, false));
      rows := rows[t.id := Running];
      st := Apply(st, ExecStep(t.id, false));
    }

    method RegisterSink(t: Task)
      requires Valid() && Owns(t, ExecStep(t.id, false)) && st.jobs[t.id].exec.RegisterSink?
      modifies this`sinks, this`st
      ensures Valid() && st == Apply(old(st), ExecStep(t.id, false))
      ensures sinks == old(sinks) + {t.id}
      ensures t.id < |st.jobs| && st.jobs[t.id].exec.RunBody?
    {
      ReachNext(st, ExecStep(t.id, false));
      sinks := sinks + {t.id};
      st := Apply(st, ExecStep(t.id, false));
    }

    /** The run function returns err; the queue's fields are not involved. */
    method RunReturned(t: Task, err: bool)
      requires Valid() && Owns(t, ExecStep(t.id, err)) && st.jobs[t.id].exec.RunBody?
      modifies this`st
      ensures Valid() && st == Apply(old(st), ExecStep(t.id, err))
      ensures t.id < |st.jobs| && st.jobs[t.id].exec == CloseSink(err)
    {
      ReachNext(st, ExecStep(t.id, err));
      st := Apply(st, ExecStep(t.id, err));
    }

    /** sink.Close(); the queue's fields are not involved. */
    method SinkClosed(t: Task)
      requires Valid() && Owns(t, ExecStep(t.id, false)) && st.jobs[t.id].exec.CloseSink?
      modifies this`st
      ensures Valid() && st == Apply(old(st), ExecStep(t.id, false))
      ensures t.id < |st.jobs| && st.jobs[t.id].exec == Decide(old(st).jobs[t.id].exec.err)
    {
      ReachNext(st, ExecStep(t.id, false));
      st := Apply(st, ExecStep(t.id, false));
    }

    /** The status is computed from the run error and the task's context as it is now. */
    method DecideStatus(t: Task, err: bool) returns (v: Status)
      requires Valid() && Owns(t, ExecStep(t.id, false)) && st.jobs[t.id].exec == Decide(err)
      modifies this`st
      ensures Valid() && st == Apply(old(st), ExecStep(t.id, false))
      ensures t.id < |st.jobs| && st.jobs[t.id].exec == Persist(v)
      ensures v == if !err then Completed else if t.cancelled then Cancelled else Failed
    {
      ReachNext(st, ExecStep(t.id, false));
      v := Completed;
      if err {
        if t.cancelled { v := Cancelled; } else { v := Failed; }
      }
      st := Apply(st, ExecStep(t.id, false));
    }

    method MarkTerminal(t: Task, v: Status)
      requires Valid() && Owns(t, ExecStep(t.id, false)) && st.jobs[t.id].exec == Persist(v)
      modifies this`rows, this`st
      ensures Valid() && st == Apply(old(st), ExecStep(t.id, false))
      ensures rows == old(rows)[t.id := v]
      ensures t.id < |st.jobs| && st.jobs[t.id].exec.Unlist?
    {
      ReachNext(st, ExecStep(t.id, false));
      rows := rows[t.id := v];
      st := Apply(st, ExecStep(t.id, false));
    }

    /** The deletion from the running map and the sink registry, in one locked region. */
    method Unlist(t: Task)
      requires Valid() && Owns(t, ExecStep(t.id, false)) && st.jobs[t.id].exec.Unlist?
      modifies this`running, this`sinks, this`st
      ensures Valid() && st == Apply(old(st), ExecStep(t.id, false))
      ensures running == old(running) - {t.id} && sinks == old(sinks) - {t.id}
      ensures t.id < |st.jobs| && st.jobs[t.id].exec.ReleaseCtx?
    {
      ghost var s' := Unlisted(st, t.id);
      assert s' == Apply(st, ExecStep(t.id, false));
      assert Reachable(s') by { ReachNext(st, ExecStep(t.id, false)); }
      DropRunning(t, s');
      st := s';
    }

    method DropRunning(t: Task, ghost s': State)
      requires Agrees(st) && t.id < |st.jobs| && s' == Unlisted(st, t.id)
      modifies this`running, this`sinks
      ensures Agrees(s') && running == old(running) - {t.id} && sinks == old(sinks) - {t.id}
    {
      running := running - {t.id};
      sinks := sinks - {t.id};
    }

    method ReleaseCtx(t: Task)
      requires Valid() && Owns(t, ExecStep(t.id, false)) && st.jobs[t.id].exec.ReleaseCtx?
      modifies this`st, t
      ensures Valid() && st == Apply(old(st), ExecStep(t.id, false)) && t.cancelled
      ensures t.id < |st.jobs| && st.jobs[t.id].exec.CloseDone?
    {
      ReachNext(st, ExecStep(t.id, false));
      t.cancelled := true;
      st := Apply(st, ExecStep(t.id, false));
    }

    method CloseChannel(t: Task, ghost s': State)
      requires Agrees(st) && t.id < |tasks| && t == tasks[t.id] && |s'.jobs| == |st.jobs|
      requires s' == st.(jobs := st.jobs[t.id := s'.jobs[t.id]], calls := s'.calls)
      requires s'.jobs[t.id] == st.jobs[t.id].(closes := st.jobs[t.id].closes + 1, exec := s'.jobs[t.id].exec)
      modifies t`closes
      ensures Agrees(s') && t.closes == old(t.closes) + 1
    {
      t.closes := t.closes + 1;
    }

    /** close(t.done) by execute: it was still open, so this does not panic. */
    method CloseDone(t: Task)
      requires Valid() && Owns(t, ExecStep(t.id, false)) && st.jobs[t.id].exec.CloseDone?
      modifies this`st, t
      ensures Valid() && st == Apply(old(st), ExecStep(t.id, false))
      ensures old(t.closes) == 0 && t.closes == 1 && rows[t.id].Terminal()
      ensures t.id < |st.jobs| && st.jobs[t.id].exec.WakeUp?
    {
      assert st.jobs[t.id].closes == 0 && st.jobs[t.id].row.Terminal() by {
        ReachInv(st);
        assert JobOk(st, t.id);
      }
      ghost var s' := Apply(st, ExecStep(t.id, false));
      assert Reachable(s') by { ReachNext(st, ExecStep(t.id, false)); }
      CloseChannel(t, s');
      st := s';
    }

    /** The wake() that ends execute. */
    method WakeAfterExecute(t: Task)
      requires Valid() && Owns(t, ExecStep(t.id, false)) && st.jobs[t.id].exec.WakeUp?
      modifies this`wakeCh, this`st
      ensures Valid() && st == Apply(old(st), ExecStep(t.id, false)) && wakeCh == 1
      ensures t.id < |st.jobs| && st.jobs[t.id].exec.Finished?
    {
      ghost var s' := ApplyExec(st, t.id, false);
      assert Reachable(s') by { ReachNext(st, ExecStep(t.id, false)); }
      assert s' == st.(jobs := st.jobs[t.id := st.jobs[t.id].(exec := Finished)], token := true);
      Nudge();
      st := s';
    }

    method RunBodyOf(t: Task, err: bool)
      requires Valid() && Owns(t, ExecStep(t.id, false)) && st.jobs[t.id].exec.RunBody?
      modifies this`st
      ensures Valid() && t.id < |st.jobs| && st.jobs[t.id].exec == Decide(err)
    {
      RunReturned(t, err);
      SinkClosed(t);
    }

    /** execute up to the end of the run function and its sink. */
    method RunTask(t: Task, err: bool)
      requires Valid() && Owns(t, ExecStep(t.id, false)) && st.jobs[t.id].exec.MarkStarted?
      modifies this`rows, this`sinks, this`st
      ensures Valid() && t.id < |st.jobs| && st.jobs[t.id].exec == Decide(err)
      ensures rows == old(rows)[t.id := Running] && sinks == old(sinks) + {t.id}
    {
      MarkStarted(t);
      RegisterSink(t);
      RunBodyOf(t, err);
    }

    /** The result is written before the task leaves the running map. */
    method SettleTask(t: Task, err: bool)
      requires Valid() && Owns(t, ExecStep(t.id, false)) && st.jobs[t.id].exec == Decide(err)
      modifies this`rows, this`sinks, this`running, this`st
      ensures Valid() && t.id < |st.jobs| && st.jobs[t.id].exec.ReleaseCtx?
      ensures rows == old(rows)[t.id := if !err then Completed else if t.cancelled then Cancelled else Failed]
      ensures running == old(running) - {t.id} && sinks == old(sinks) - {t.id}
    {
      var v := DecideStatus(t, err);
      MarkTerminal(t, v);
      Unlist(t);
    }

    method FinishTask(t: Task)
      requires Valid() && Owns(t, ExecStep(t.id, false)) && st.jobs[t.id].exec.ReleaseCtx?
      modifies this`wakeCh, this`st, t
      ensures Valid() && t.closes == 1 && t.cancelled && wakeCh == 1
    {
      ReleaseCtx(t);
      CloseDone(t);
      WakeAfterExecute(t);
    }

    /** execute, with nothing in between, for a run function that returns err. */
    method Execute(t: Task, err: bool)
      requires Valid() && Owns(t, ExecStep(t.id, false)) && st.jobs[t.id].exec.MarkStarted?
      modifies this`rows, this`sinks, this`running, this`wakeCh, this`st, t
      ensures Valid()
      ensures rows == old(rows)[t.id := if !err then Completed else if old(t.cancelled) then Cancelled else Failed]
      ensures running == old(running) - {t.id} && sinks == old(sinks) - {t.id}
      ensures t.closes == 1 && t.cancelled && wakeCh == 1
    {
      RunTask(t, err);
      SettleTask(t, err);
      FinishTask(t);
    }

    // -------------------------------------------------------------- Cancel

    ghost method Issue(id: nat) returns (c: nat)
      requires Valid() && id < |rows|
      modifies this`st
      ensures Valid() && st == Apply(old(st), IssueCancel(id)) && c == |old(st).calls|
      ensures c < |st.calls| && st.calls[c] == CancelCall(id, Lock) && id < |st.jobs|
    {
      ReachNext(st, IssueCancel(id));
      c := |st.calls|;
      st := Apply(st, IssueCancel(id));
    }

    /** The search through the pending slice. */
    method FindPending(id: nat) returns (i: nat)
      ensures i <= |pending| && forall k :: 0 <= k < i ==> pending[k].id != id
      ensures i < |pending| ==> pending[i].id == id
    {
      i := 0;
      while i < |pending| && pending[i].id != id
        invariant 0 <= i <= |pending|
        invariant forall k :: 0 <= k < i ==> pending[k].id != id
      {
        i := i + 1;
      }
    }

    lemma PendingIds()
      requires Valid()
      ensures forall k :: 0 <= k < |pending| ==> pending[k].id == st.pending[k]
    {
    }

    /** Take the task at position i off the pending slice. */
    method RemoveAt(i: nat, ghost s': State) returns (t: Task)
      requires Valid() && i < |pending| && Reachable(s') && |s'.jobs| == |st.jobs|
      requires s' == st.(jobs := s'.jobs, calls := s'.calls, pending := st.pending[..i] + st.pending[i+1..])
      requires forall j :: 0 <= j < |st.jobs| ==> s'.jobs[j] == st.jobs[j].(removedBy := s'.jobs[j].removedBy)
      modifies this`pending, this`st
      ensures Valid() && st == s'
      ensures t == old(pending)[i] && pending == old(pending)[..i] + old(pending)[i+1..]
      ensures t.id < |tasks| && t == tasks[t.id] && t in children
    {
      SameTasksCut(pending, st.pending, tasks, i);
      t := pending[i];
      pending := pending[..i] + pending[i+1..];
      st := s';
    }

    /** Cancel's locked region found the task in the running map or nowhere. */
    ghost method NotTaken(id: nat, c: nat)
      requires Valid() && Enabled(st, CancelStep(c)) && st.calls[c] == CancelCall(id, Lock)
      requires id in running || forall k :: 0 <= k < |pending| ==> pending[k].id != id
      modifies this`st
      ensures Valid() && st == Apply(old(st), CancelStep(c))
      ensures c < |st.calls| && st.calls[c] == CancelCall(id, if id in running then Signal else CancelPc.Lookup)
      ensures id in running ==> id < |tasks| && running[id] == tasks[id] && running[id] in children
    {
      ghost var s' := ApplyLock(st, c);
      assert Reachable(s') by { ReachNext(st, CancelStep(c)); }
      PendingIds();
      LockMisses(st, c);
      st := s';
    }

    /** Cancel's locked region. */
    method Lookup(id: nat, ghost c: nat) returns (found: Found)
      requires Valid() && Enabled(st, CancelStep(c)) && st.calls[c] == CancelCall(id, Lock)
      modifies this`pending, this`st
      ensures Valid() && st == Apply(old(st), CancelStep(c))
      ensures match found
        case InRunning(t) => id in running && t == running[id] && pending == old(pending)
        case InPending(t, at) =>
          && id !in running && at < |old(pending)| && old(pending)[at] == t && t.id == id
          && pending == old(pending)[..at] + old(pending)[at+1..]
        case Absent => id !in running && pending == old(pending) && forall t :: t in pending ==> t.id != id
      ensures c < |st.calls| && st.calls[c] == CancelCall(id, match found
        case InRunning(_) => Signal
        case InPending(_, _) => PersistCancel
        case Absent => CancelPc.Lookup)
      ensures !found.Absent? ==> id < |tasks| && found.t == tasks[id] && found.t in children
    {
      var i := FindPending(id);
      if id in running {
        found := InRunning(running[id]);
        NotTaken(id, c);
      } else if i < |pending| {
        PendingIds();
        assert NoDup(st.pending) by { ReachInv(st); }
        LockCuts(st, c, i);
        assert Reachable(ApplyLock(st, c)) by { ReachNext(st, CancelStep(c)); }
        var t := RemoveAt(i, ApplyLock(st, c));
        found := InPending(t, i);
      } else {
        found := Absent;
        NotTaken(id, c);
      }
    }

    /** t.cancel(), for a running task or for one just taken off the pending list. */
    method CancelTask(t: Task, ghost c: nat)
      requires Valid() && Owns(t, CancelStep(c)) && st.calls[c].job == t.id
      requires st.calls[c].pc.Signal? || st.calls[c].pc.ReleaseTask?
      modifies this`st, t
      ensures Valid() && st == Apply(old(st), CancelStep(c)) && t.cancelled && t.closes == old(t.closes)
      ensures c < |st.calls|
      ensures st.calls[c] == CancelCall(t.id, if old(st.calls[c].pc.Signal?) then Done(true) else CloseTask)
    {
      ghost var s' := ApplyCancel(st, c);
      assert Reachable(s') by { ReachNext(st, CancelStep(c)); }
      assert s' == st.(jobs := st.jobs[t.id := st.jobs[t.id].(ctx := true)], calls := s'.calls);
      t.cancelled := true;
      st := s';
    }

    /** close(t.done) by Cancel: it was still open, so this does not panic. */
    method CloseCancelled(t: Task, ghost c: nat)
      requires Valid() && Owns(t, CancelStep(c)) && st.calls[c] == CancelCall(t.id, CloseTask)
      modifies this`st, t
      ensures Valid() && st == Apply(old(st), CancelStep(c))
      ensures old(t.closes) == 0 && t.closes == 1 && rows[t.id].Terminal()
    {
      assert st.jobs[t.id].closes == 0 && st.jobs[t.id].row.Terminal() by {
        ReachInv(st);
        assert CallOk(st, c) && JobOk(st, t.id);
      }
      ghost var s' := Apply(st, CancelStep(c));
      assert Reachable(s') by { ReachNext(st, CancelStep(c)); }
      CloseChannel(t, s');
      st := s';
    }

    /** The row write of Cancel: markTerminal for a removed task, setStatus for an absent one. */
    method WriteCancelled(id: nat, ghost c: nat)
      requires Valid() && Enabled(st, CancelStep(c)) && st.calls[c].job == id
      requires st.calls[c].pc.PersistCancel? || st.calls[c].pc.SetStatus?
      modifies this`rows, this`st
      ensures Valid() && st == Apply(old(st), CancelStep(c))
      ensures rows == old(rows)[id := Cancelled]
      ensures c < |st.calls|
      ensures st.calls[c] == CancelCall(id, if old(st.calls[c].pc.SetStatus?) then Done(true) else ReleaseTask)
    {
      ghost var s' := ApplyCancel(st, c);
      assert Reachable(s') by { ReachNext(st, CancelStep(c)); }
      assert s' == st.(jobs := st.jobs[id := st.jobs[id].(row := Cancelled)], calls := s'.calls);
      rows := rows[id := Cancelled];
      st := s';
    }

    /** The store lookup for an absent task: an error for a terminal row, else on to setStatus. */
    method CheckRow(id: nat, ghost c: nat) returns (refused: bool)
      requires Valid() && Enabled(st, CancelStep(c)) && st.calls[c] == CancelCall(id, CancelPc.Lookup)
      modifies this`st
      ensures Valid() && st == Apply(old(st), CancelStep(c))
      ensures refused == rows[id].Terminal()
      ensures c < |st.calls| && st.calls[c] == CancelCall(id, if refused then Done(false) else SetStatus)
    {
      ReachNext(st, CancelStep(c));
      refused := rows[id].Terminal();
      st := Apply(st, CancelStep(c));
    }

    /** Cancel for a task just taken off the pending list. */
    method CancelRemoved(t: Task, ghost c: nat)
      requires Valid() && Owns(t, CancelStep(c)) && st.calls[c] == CancelCall(t.id, PersistCancel)
      modifies this`rows, this`st, t
      ensures Valid() && rows == old(rows)[t.id := Cancelled] && t.cancelled && t.closes == 1
    {
      WriteCancelled(t.id, c);
      CancelTask(t, c);
      CloseCancelled(t, c);
    }

    /** Cancel for a task found nowhere. */
    method CancelAbsent(id: nat, ghost c: nat) returns (ok: bool)
      requires Valid() && Enabled(st, CancelStep(c)) && st.calls[c] == CancelCall(id, CancelPc.Lookup)
      modifies this`rows, this`st
      ensures Valid() && ok == !old(rows)[id].Terminal()
      ensures rows == if ok then old(rows)[id := Cancelled] else old(rows)
    {
      var refused := CheckRow(id, c);
      if refused { return false; }
      WriteCancelled(id, c);
      return true;
    }

    /** A new Cancel call up to the end of its locked region. */
    method FindTask(id: nat) returns (found: Found, ghost c: nat)
      requires Valid() && id < |rows|
      modifies this`pending, this`st
      ensures Valid() && Enabled(st, CancelStep(c))
      ensures match found
        case InRunning(t) =>
          id in running && t == running[id] && pending == old(pending) && st.calls[c] == CancelCall(id, Signal)
        case InPending(t, at) =>
          && id !in running && at < |old(pending)| && old(pending)[at] == t && t.id == id
          && pending == old(pending)[..at] + old(pending)[at+1..] && st.calls[c] == CancelCall(id, PersistCancel)
        case Absent =>
          && id !in running && pending == old(pending) && (forall t :: t in pending ==> t.id != id)
          && st.calls[c] == CancelCall(id, CancelPc.Lookup)
      ensures !found.Absent? ==> found.t.id == id < |tasks| && found.t == tasks[id] && found.t in children
    {
      c := Issue(id);
      found := Lookup(id, c);
    }

    /** Cancel of an id with a row, with nothing in between. */
    method CancelKnown(id: nat) returns (ok: bool, found: Found)
      requires Valid() && id < |rows|
      modifies this`rows, this`pending, this`st, children
      ensures Valid()
      ensures match found
        case InRunning(t) =>
          && id in running && t == running[id]
          && ok && t.cancelled && t.closes == old(t.closes) && pending == old(pending) && rows == old(rows)
        case InPending(t, at) =>
          && id !in running && at < |old(pending)| && t == old(pending)[at] && t.id == id
          && ok && t.cancelled && t.closes == 1 && pending == old(pending)[..at] + old(pending)[at+1..]
          && rows == old(rows)[id := Cancelled]
        case Absent =>
          && id !in running && (forall t :: t in pending ==> t.id != id)
          && ok == !old(rows)[id].Terminal() && pending == old(pending)
          && rows == if ok then old(rows)[id := Cancelled] else old(rows)
    {
      ghost var c;
      found, c := FindTask(id);
      match found
      case InRunning(t) =>
        CancelTask(t, c);
        ok := true;
      case InPending(t, at) =>
        CancelRemoved(t, c);
        ok := true;
      case Absent =>
        ok := CancelAbsent(id, c);
    }

    /** An id without a row is in no map and no list. */
    lemma UnknownIsAbsent(id: nat)
      requires Valid() && id >= |rows|
      ensures id !in running && forall k :: 0 <= k < |pending| ==> pending[k].id != id
    {
    }

    /** Cancel, with nothing in between. An id that was never inserted is refused and changes nothing. */
    method Cancel(id: nat) returns (ok: bool, found: Found)
      requires Valid()
      modifies this`rows, this`pending, this`st, children
      ensures Valid() && running == old(running)
      ensures id >= |old(rows)| ==> !ok && found == Absent && pending == old(pending) && rows == old(rows)
      ensures id < |old(rows)| ==> match found
        case InRunning(t) =>
          && id in running && t == running[id]
          && ok && t.cancelled && t.closes == old(t.closes) && pending == old(pending) && rows == old(rows)
        case InPending(t, at) =>
          && id !in running && at < |old(pending)| && t == old(pending)[at] && t.id == id
          && ok && t.cancelled && t.closes == 1 && pending == old(pending)[..at] + old(pending)[at+1..]
          && rows == old(rows)[id := Cancelled]
        case Absent =>
          && id !in running && (forall t :: t in pending ==> t.id != id)
          && ok == !old(rows)[id].Terminal() && pending == old(pending)
          && rows == if ok then old(rows)[id := Cancelled] else old(rows)
    {
      if id < |rows| {
        ok, found := CancelKnown(id);
      } else {
        UnknownIsAbsent(id);
        var i := FindPending(id);
        ok, found := false, Absent;
      }
    }

    /** Subscribe finds the job's sink exactly from its registration to its removal. */
    method Subscribe(id: nat) returns (live: bool)
      requires Valid()
      ensures live <==> id < |st.jobs| && st.jobs[id].exec.HasSink()
    {
      live := id in sinks;
      ReachInv(st);
      assert id < |st.jobs| ==> JobOk(st, id);
    }

    /** Close cancels the root context, and with it every task's. */
    method Close()
      requires Valid()
      modifies this`rootCancelled, this`st, children`cancelled
      ensures Valid() && st == Apply(old(st), CloseRoot) && rootCancelled
      ensures forall t :: t in children ==> t.cancelled
    {
      ghost var s' := st.(live := false, jobs := CancelAll(st.jobs));
      assert Reachable(s') by { ReachNext(st, CloseRoot); }
      CancelRoot(s');
      st := s';
    }

    method CancelRoot(ghost s': State)
      requires Agrees(st) && s' == st.(live := false, jobs := CancelAll(st.jobs))
      modifies this`rootCancelled, children`cancelled
      ensures Agrees(s') && rootCancelled && forall t :: t in children ==> t.cancelled
    {
      rootCancelled := true;
      forall t | t in children { t.cancelled := true; }
    }
  }
}
