/**
 The concurrent-VM cap of internal/vm/manager.go, over every interleaving of boots, stops, deletes,
 provisioning, supervisors and restarts. Each read and each write of a row is one step; a VM is named
 by the order in which its row was inserted. A VM is upstream once its row has an API token; a boot
 gives a legacy VM one before it launches.

 Boot checks the count and marks the row in separate steps, a boot goroutine writes RUNNING whatever
 the row says by then, and Stop checks and marks in separate steps. Each of the three can break the
 cap by itself; a run in which none of them goes wrong keeps it.
 */
module VmAdmission {
  import opened VmStatus

  datatype Row = Gone | Has(status: Status, upstream: bool) {
    predicate Active() { Has? && status.Live() }
  }

  /** The next action of an operation on VM id. */
  datatype Op =
    | BootRead(id: nat) | BootCount(id: nat) | BootMark(id: nat) | BootFinish(id: nat)
    | StopRead(id: nat) | StopMark(id: nat) | StopFinish(id: nat)
    | WatchRead(id: nat) | WatchMark(id: nat)             // the process watcher started by a boot
    | ReprovisionRead(id: nat) | ReprovisionMark(id: nat)
    | ProvisionEnd(id: nat)                               // provision has still to write its final status
    | Over

  /** `unbroken` is history: the boots that have passed their check and not marked yet, while no row
      has joined the counted ones since. */
  datatype State = State(cap: nat, rows: seq<Row>, ops: seq<Op>, unbroken: set<nat>)

  datatype Label =
    | Issue(op: Op)                        // a new Boot, Stop, Reprovision or watcher starts
    | OpStep(at: nat, ok: bool)            // ok: did the launch, the reprovisioning or the job succeed
    | WriteToken(at: nat)                  // a launching boot gives a legacy VM an API token
    | AddRow(status: Status, upstream: bool)
    | ProcessDied(id: nat)                 // checkLaunchpadAlive
    | MarkDeleting(id: nat)                // DeleteJob
    | DropRow(id: nat)                     // the row delete of Delete or of a delete job
    | Restart(reachable: seq<bool>)        // crash, then reconcile; did each VM answer

  function Count(rows: seq<Row>): nat {
    if rows == [] then 0 else (if rows[0].Active() then 1 else 0) + Count(rows[1..])
  }

  predicate Present(rows: seq<Row>, id: nat) { id < |rows| && rows[id].Has? }

  /** updateStatus: no effect on a missing row. */
  function Put(rows: seq<Row>, id: nat, st: Status): seq<Row> {
    if Present(rows, id) then rows[id := rows[id].(status := st)] else rows
  }

  /** setAPIToken: no effect on a missing row. */
  function PutToken(rows: seq<Row>, id: nat): seq<Row> {
    if Present(rows, id) then rows[id := rows[id].(upstream := true)] else rows
  }

  predicate StatusIn(rows: seq<Row>, id: nat, sts: set<Status>) {
    Present(rows, id) && rows[id].status in sts
  }

  function ReconcileRow(r: Row, reachable: bool): Row {
    if r.Gone? then r
    else match r.status
      case Booting => r.(status := if r.upstream && reachable then Running else Stopped)
      case Running => r.(status := if r.upstream && reachable then Running else Stopped)
      case Stopping => r.(status := if r.upstream && reachable then Running else Stopped)
      case Deleting => if r.upstream then r else r.(status := Stopped)
      case Creating => r.(status := Errored)
      case Restoring => r.(status := Errored)
      case Installing => r.(status := Errored)
      case Stopped => r
      case Errored => r
  }

  function ReconcileRows(rows: seq<Row>, reachable: seq<bool>): (r: seq<Row>)
    requires |reachable| == |rows|
    ensures |r| == |rows|
  {
    if rows == [] then [] else [ReconcileRow(rows[0], reachable[0])] + ReconcileRows(rows[1..], reachable[1..])
  }

  /** A boot cannot succeed before its row has an API token; having one is what makes it upstream. */
  predicate MaySucceed(rows: seq<Row>, op: Op) {
    op.BootFinish? && Present(rows, op.id) ==> rows[op.id].upstream
  }

  predicate MayFail(op: Op) { op.BootFinish? || op.ReprovisionMark? || op.ProvisionEnd? }

  predicate Enabled(s: State, l: Label) {
    match l
    case Issue(op) => op.BootRead? || op.StopRead? || op.WatchRead? || op.ReprovisionRead?
    case OpStep(i, ok) =>
      i < |s.ops| && !s.ops[i].Over? && if ok then MaySucceed(s.rows, s.ops[i]) else MayFail(s.ops[i])
    case WriteToken(i) => i < |s.ops| && s.ops[i].BootFinish?
    case AddRow(st, _) => st == Creating || st == Stopped
    case Restart(reachable) => |reachable| == |s.rows|
    case _ => true
  }

  /** The operation's next program counter. A reprovisioning that fails has already written CREATING. */
  function NextOp(s: State, op: Op, ok: bool): Op {
    match op
    case BootRead(id) => if StatusIn(s.rows, id, {Stopped, Errored}) then BootCount(id) else Over
    case BootCount(id) => if Count(s.rows) >= s.cap then Over else BootMark(id)
    case BootMark(id) => if Present(s.rows, id) then BootFinish(id) else Over
    case BootFinish(_) => Over
    case StopRead(id) => if StatusIn(s.rows, id, {Running, Booting}) then StopMark(id) else Over
    case StopMark(id) => if Present(s.rows, id) then StopFinish(id) else Over
    case StopFinish(_) => Over
    case WatchRead(id) => if StatusIn(s.rows, id, {Running, Booting}) then WatchMark(id) else Over
    case WatchMark(_) => Over
    case ReprovisionRead(id) => if StatusIn(s.rows, id, {Stopped, Errored}) then ReprovisionMark(id) else Over
    case ReprovisionMark(id) => if Present(s.rows, id) && ok then ProvisionEnd(id) else Over
    case ProvisionEnd(_) => Over
    case Over => Over
  }

  /** The rows after the operation's next action. */
  function NextRows(rows: seq<Row>, op: Op, ok: bool): seq<Row> {
    match op
    case BootMark(id) => Put(rows, id, Booting)
    case BootFinish(id) => Put(rows, id, if ok then Running else Errored)
    case StopMark(id) => Put(rows, id, Stopping)
    case StopFinish(id) => Put(rows, id, Stopped)
    case WatchMark(id) => Put(rows, id, Errored)
    case ReprovisionMark(id) => Put(rows, id, Creating)
    case ProvisionEnd(id) => Put(rows, id, if ok then Stopped else Errored)
    case _ => rows
  }

  function ApplyOp(s: State, i: nat, ok: bool): State
    requires Enabled(s, OpStep(i, ok))
  {
    s.(rows := NextRows(s.rows, s.ops[i], ok), ops := s.ops[i := NextOp(s, s.ops[i], ok)],
       unbroken := if Activates(s, OpStep(i, ok)) then {}
                   else if Passes(s, OpStep(i, ok)) then s.unbroken + {i}
                   else s.unbroken - {i})
  }

  function Apply(s: State, l: Label): State
    requires Enabled(s, l)
  {
    match l
    case Issue(op) => s.(ops := s.ops + [op])
    case OpStep(i, ok) => ApplyOp(s, i, ok)
    case WriteToken(i) => s.(rows := PutToken(s.rows, s.ops[i].id))
    case AddRow(st, up) =>
      s.(rows := s.rows + [Has(st, up)], ops := if st == Creating then s.ops + [ProvisionEnd(|s.rows|)] else s.ops)
    case ProcessDied(id) => s.(rows := Put(s.rows, id, Errored))
    case MarkDeleting(id) => s.(rows := Put(s.rows, id, Deleting))
    case DropRow(id) => if id < |s.rows| then s.(rows := s.rows[id := Gone]) else s
    case Restart(reachable) => s.(rows := ReconcileRows(s.rows, reachable), ops := [], unbroken := {})
  }

  // ---------------------------------------------------------------- which steps raise the count

  /** The row is there and not counted. */
  predicate Revives(s: State, id: nat) {
    Present(s.rows, id) && !s.rows[id].Active()
  }

  /** A boot is let through to its mark. */
  predicate Passes(s: State, l: Label)
    requires Enabled(s, l)
  {
    l.OpStep? && s.ops[l.at].BootCount? && NextOp(s, s.ops[l.at], l.ok).BootMark?
  }

  /** The step writes a counted status over an uncounted one. */
  predicate Activates(s: State, l: Label)
    requires Enabled(s, l)
  {
    l.OpStep? && match s.ops[l.at]
      case BootMark(id) => Revives(s, id)
      case BootFinish(id) => Revives(s, id) && l.ok
      case StopMark(id) => Revives(s, id)
      case _ => false
  }

  lemma {:induction false} CountUpdate(rows: seq<Row>, id: nat, r: Row)
    requires id < |rows|
    ensures Count(rows[id := r]) + (if rows[id].Active() then 1 else 0)
            == Count(rows) + (if r.Active() then 1 else 0)
  {
    if id == 0 {
      assert rows[id := r][1..] == rows[1..];
    } else {
      assert rows[id := r][1..] == rows[1..][id - 1 := r];
      CountUpdate(rows[1..], id - 1, r);
    }
  }

  lemma {:induction false} CountAppend(rows: seq<Row>, r: Row)
    ensures Count(rows + [r]) == Count(rows) + (if r.Active() then 1 else 0)
  {
    if rows == [] {
      assert rows + [r] == [r];
    } else {
      assert (rows + [r])[1..] == rows[1..] + [r];
      CountAppend(rows[1..], r);
    }
  }

  lemma {:induction false} CountReconcile(rows: seq<Row>, reachable: seq<bool>)
    requires |reachable| == |rows|
    ensures Count(ReconcileRows(rows, reachable)) <= Count(rows)
  {
    if rows == [] {
    } else {
      CountReconcile(rows[1..], reachable[1..]);
    }
  }

  lemma CountPut(rows: seq<Row>, id: nat, st: Status)
    ensures Count(Put(rows, id, st)) ==
      if Present(rows, id) then
        Count(rows) - (if rows[id].Active() then 1 else 0) + (if st.Live() then 1 else 0)
      else Count(rows)
  {
    if Present(rows, id) { CountUpdate(rows, id, rows[id].(status := st)); }
  }

  lemma OpCount(s: State, i: nat, ok: bool)
    requires Enabled(s, OpStep(i, ok))
    ensures var n := Count(ApplyOp(s, i, ok).rows);
      if Activates(s, OpStep(i, ok)) then n == Count(s.rows) + 1 else n <= Count(s.rows)
  {
    match s.ops[i]
    case BootMark(id) => CountPut(s.rows, id, Booting);
    case BootFinish(id) => CountPut(s.rows, id, if ok then Running else Errored);
    case StopMark(id) => CountPut(s.rows, id, Stopping);
    case StopFinish(id) => CountPut(s.rows, id, Stopped);
    case WatchMark(id) => CountPut(s.rows, id, Errored);
    case ReprovisionMark(id) => CountPut(s.rows, id, Creating);
    case ProvisionEnd(id) => CountPut(s.rows, id, if ok then Stopped else Errored);
    case _ =>
  }

  /** Exactly the activating steps raise the count, by one; all others leave it or lower it. */
  lemma StepCount(s: State, l: Label)
    requires Enabled(s, l)
    ensures var n := Count(Apply(s, l).rows);
      if Activates(s, l) then n == Count(s.rows) + 1 else n <= Count(s.rows)
  {
    match l
    case Issue(_) =>
    case OpStep(i, ok) => OpCount(s, i, ok);
    case WriteToken(i) =>
      var id := s.ops[i].id;
      if Present(s.rows, id) { CountUpdate(s.rows, id, s.rows[id].(upstream := true)); }
    case AddRow(st, up) => CountAppend(s.rows, Has(st, up));
    case ProcessDied(id) => CountPut(s.rows, id, Errored);
    case MarkDeleting(id) => CountPut(s.rows, id, Deleting);
    case DropRow(id) => if id < |s.rows| { CountUpdate(s.rows, id, Gone); }
    case Restart(reachable) => CountReconcile(s.rows, reachable);
  }

  // ---------------------------------------------------------------- over runs

  predicate Executable(s: State, ls: seq<Label>)
    decreases |ls|
  {
    ls == [] || (Enabled(s, ls[0]) && Executable(Apply(s, ls[0]), ls[1..]))
  }

  function Run(s: State, ls: seq<Label>): State
    requires Executable(s, ls)
    decreases |ls|
  {
    if ls == [] then s else Run(Apply(s, ls[0]), ls[1..])
  }

  /** The cap is respected in every state of the run. */
  ghost predicate CapHolds(s: State, ls: seq<Label>)
    requires Executable(s, ls)
    decreases |ls|
  {
    Count(s.rows) <= s.cap && (ls != [] ==> CapHolds(Apply(s, ls[0]), ls[1..]))
  }

  /** What can go wrong: a boot marks a row after another row has joined the counted ones since the
      boot's own check; a boot completes, or a stop marks, when its row is not counted any more. */
  datatype Flaw = LateMark | LateRunning | LateStopping

  function FlawsOf(s: State, l: Label): set<Flaw>
    requires Enabled(s, l)
  {
    if !l.OpStep? then {}
    else match s.ops[l.at]
      case BootMark(id) => if Revives(s, id) && l.at !in s.unbroken then {LateMark} else {}
      case BootFinish(id) => if Revives(s, id) && l.ok then {LateRunning} else {}
      case StopMark(id) => if Revives(s, id) then {LateStopping} else {}
      case _ => {}
  }

  /** The flaws that occur in a run. */
  function Flaws(s: State, ls: seq<Label>): set<Flaw>
    requires Executable(s, ls)
    decreases |ls|
  {
    if ls == [] then {} else FlawsOf(s, ls[0]) + Flaws(Apply(s, ls[0]), ls[1..])
  }

  /** What the check established still holds for the boots it let through. */
  predicate ChecksHold(s: State) { s.unbroken != {} ==> Count(s.rows) < s.cap }

  lemma ChecksStillHold(s: State, l: Label)
    requires Enabled(s, l) && ChecksHold(s)
    ensures ChecksHold(Apply(s, l))
  {
    StepCount(s, l);
  }

  /** A run keeps the cap in all its states if no row joins the counted ones between a boot's own
      check and its mark, every completed boot finds its row still counted, and so does every stop's
      mark. Boots whose check lies before the run count as broken. */
  lemma {:induction false} AtomicBootsKeepCap(s: State, ls: seq<Label>)
    requires Executable(s, ls) && Count(s.rows) <= s.cap && ChecksHold(s) && Flaws(s, ls) == {}
    ensures CapHolds(s, ls)
    decreases |ls|
  {
    if ls == [] {
    } else {
      var s' := Apply(s, ls[0]);
      StepCount(s, ls[0]);
      ChecksStillHold(s, ls[0]);
      assert FlawsOf(s, ls[0]) <= Flaws(s, ls) && Flaws(s', ls[1..]) <= Flaws(s, ls);
      AtomicBootsKeepCap(s', ls[1..]);
    }
  }

  // ---------------------------------------------------------------- check and mark as one step

  predicate NoMarks(s: State) { forall i :: 0 <= i < |s.ops| ==> !s.ops[i].BootMark? }

  /** Every check that passes is followed at once by its own boot's mark. */
  predicate Adjacent(s: State, ls: seq<Label>)
    requires Executable(s, ls)
    decreases |ls|
  {
    ls == [] ||
    ((Passes(s, ls[0]) && |ls| > 1 ==> ls[1] == OpStep(ls[0].at, true)) && Adjacent(Apply(s, ls[0]), ls[1..]))
  }

  lemma NoNewMarks(s: State, l: Label)
    requires Enabled(s, l) && NoMarks(s) && !Passes(s, l)
    ensures NoMarks(Apply(s, l)) && LateMark !in FlawsOf(s, l)
  {
  }

  /** The check and the mark that follows it. */
  lemma CheckAndMark(s: State, i: nat)
    requires Enabled(s, OpStep(i, true)) && NoMarks(s) && Passes(s, OpStep(i, true))
    ensures var s1 := Apply(s, OpStep(i, true));
      && Enabled(s1, OpStep(i, true)) && !Passes(s1, OpStep(i, true))
      && FlawsOf(s, OpStep(i, true)) == {} && LateMark !in FlawsOf(s1, OpStep(i, true))
      && NoMarks(Apply(s1, OpStep(i, true)))
  {
    var s1 := Apply(s, OpStep(i, true));
    assert forall j :: 0 <= j < |s1.ops| && j != i ==> s1.ops[j] == s.ops[j];
  }

  lemma {:induction false} AdjacentMarksInTime(s: State, ls: seq<Label>)
    requires Executable(s, ls) && Adjacent(s, ls) && NoMarks(s)
    ensures LateMark !in Flaws(s, ls)
    decreases |ls|
  {
    if ls == [] {
    } else if !Passes(s, ls[0]) {
      NoNewMarks(s, ls[0]);
      AdjacentMarksInTime(Apply(s, ls[0]), ls[1..]);
    } else {
      CheckAndMark(s, ls[0].at);
      var s1, rest := Apply(s, ls[0]), ls[1..];
      if rest == [] {
      } else {
        AdjacentMarksInTime(Apply(s1, rest[0]), rest[1..]);
      }
    }
  }

  /** With Boot's check and mark as one step the cap is kept by every run in which completed boots and
      stops find their rows still counted. */
  lemma AdjacentBootsKeepCap(s: State, ls: seq<Label>)
    requires Executable(s, ls) && Adjacent(s, ls) && NoMarks(s)
    requires Count(s.rows) <= s.cap && s.unbroken == {}
    requires LateRunning !in Flaws(s, ls) && LateStopping !in Flaws(s, ls)
    ensures CapHolds(s, ls)
  {
    AdjacentMarksInTime(s, ls);
    forall f ensures f !in Flaws(s, ls) {
      assert f == LateMark || f == LateRunning || f == LateStopping;
    }
    AtomicBootsKeepCap(s, ls);
  }

  // ---------------------------------------------------------------- building runs

  lemma {:induction false} Then(s: State, ls: seq<Label>, l: Label)
    requires Executable(s, ls) && Enabled(Run(s, ls), l)
    ensures Executable(s, ls + [l]) && Run(s, ls + [l]) == Apply(Run(s, ls), l)
    ensures Flaws(s, ls + [l]) == Flaws(s, ls) + FlawsOf(Run(s, ls), l)
    decreases |ls|
  {
    if ls == [] {
      assert ls + [l] == [l] && [l][1..] == [];
    } else {
      assert (ls + [l])[1..] == ls[1..] + [l];
      Then(Apply(s, ls[0]), ls[1..], l);
    }
  }

  // ---------------------------------------------------------------- each flaw alone breaks the cap

  /** Two stopped VMs and a cap of one. */
  const TWO_STOPPED := State(1, [Has(Stopped, true), Has(Stopped, true)], [], {})

  ghost predicate BreaksCapBy(ls: seq<Label>, f: Flaw) {
    Executable(TWO_STOPPED, ls) && Flaws(TWO_STOPPED, ls) == {f} && Count(Run(TWO_STOPPED, ls).rows) == 2
  }

  lemma CountTwo(a: Row, b: Row)
    ensures Count([a, b]) == (if a.Active() then 1 else 0) + (if b.Active() then 1 else 0)
  {
    assert [a, b][1..] == [b] && [b][1..] == [];
    assert Count([b]) == (if b.Active() then 1 else 0) + Count([]);
  }

  function Two(a: Status, b: Status, ops: seq<Op>, unbroken: set<nat>): (s: State)
    ensures Count(s.rows) == (if a.Live() then 1 else 0) + (if b.Live() then 1 else 0)
  {
    CountTwo(Has(a, true), Has(b, true));
    State(1, [Has(a, true), Has(b, true)], ops, unbroken)
  }

  /** Extend a run by one label, to the state it leads to. */
  lemma Play(ls: seq<Label>, s: State, l: Label, next: State) returns (ls': seq<Label>, s': State)
    requires Executable(TWO_STOPPED, ls) && Run(TWO_STOPPED, ls) == s && Enabled(s, l) && Apply(s, l) == next
    ensures s' == next && Executable(TWO_STOPPED, ls') && Run(TWO_STOPPED, ls') == s' && ls' == ls + [l]
    ensures Flaws(TWO_STOPPED, ls') == Flaws(TWO_STOPPED, ls) + FlawsOf(s, l)
  {
    Then(TWO_STOPPED, ls, l);
    ls', s' := ls + [l], next;
  }

  /** Two boots that have read their rows. */
  lemma BothRead() returns (ls: seq<Label>)
    ensures Executable(TWO_STOPPED, ls) && Flaws(TWO_STOPPED, ls) == {}
    ensures Run(TWO_STOPPED, ls) == Two(Stopped, Stopped, [BootCount(0), BootCount(1)], {})
  {
    ls := [];
    var s := Two(Stopped, Stopped, [], {});
    ls, s := Play(ls, s, Issue(BootRead(0)), Two(Stopped, Stopped, [BootRead(0)], {}));
    ls, s := Play(ls, s, Issue(BootRead(1)), Two(Stopped, Stopped, [BootRead(0), BootRead(1)], {}));
    ls, s := Play(ls, s, OpStep(0, true), Two(Stopped, Stopped, [BootCount(0), BootRead(1)], {}));
    ls, s := Play(ls, s, OpStep(1, true), Two(Stopped, Stopped, [BootCount(0), BootCount(1)], {}));
  }

  /** Two boots both pass the check before either marks its row. */
  lemma CheckThenMarkBreaksCap() returns (ls: seq<Label>)
    ensures BreaksCapBy(ls, LateMark)
  {
    ls := BothRead();
    var s := Two(Stopped, Stopped, [BootCount(0), BootCount(1)], {});
    ls, s := Play(ls, s, OpStep(0, true), Two(Stopped, Stopped, [BootMark(0), BootCount(1)], {0}));
    ls, s := Play(ls, s, OpStep(1, true), Two(Stopped, Stopped, [BootMark(0), BootMark(1)], {0, 1}));
    ls, s := Play(ls, s, OpStep(0, true), Two(Booting, Stopped, [BootFinish(0), BootMark(1)], {}));
    ls, s := Play(ls, s, OpStep(1, true), Two(Booting, Booting, [BootFinish(0), BootFinish(1)], {}));
  }

  /** One VM launching. */
  lemma OneLaunching() returns (ls: seq<Label>)
    ensures Executable(TWO_STOPPED, ls) && Flaws(TWO_STOPPED, ls) == {}
    ensures Run(TWO_STOPPED, ls) == Two(Booting, Stopped, [BootFinish(0)], {})
  {
    ls := [];
    var s := Two(Stopped, Stopped, [], {});
    ls, s := Play(ls, s, Issue(BootRead(0)), Two(Stopped, Stopped, [BootRead(0)], {}));
    ls, s := Play(ls, s, OpStep(0, true), Two(Stopped, Stopped, [BootCount(0)], {}));
    ls, s := Play(ls, s, OpStep(0, true), Two(Stopped, Stopped, [BootMark(0)], {0}));
    ls, s := Play(ls, s, OpStep(0, true), Two(Booting, Stopped, [BootFinish(0)], {}));
  }

  /** A VM stopped while its boot is still launching. */
  lemma StoppedWhileLaunching() returns (ls: seq<Label>)
    ensures Executable(TWO_STOPPED, ls) && Flaws(TWO_STOPPED, ls) == {}
    ensures Run(TWO_STOPPED, ls) == Two(Stopped, Stopped, [BootFinish(0), Over], {})
  {
    ls := OneLaunching();
    var s := Two(Booting, Stopped, [BootFinish(0)], {});
    ls, s := Play(ls, s, Issue(StopRead(0)), Two(Booting, Stopped, [BootFinish(0), StopRead(0)], {}));
    ls, s := Play(ls, s, OpStep(1, true), Two(Booting, Stopped, [BootFinish(0), StopMark(0)], {}));
    ls, s := Play(ls, s, OpStep(1, true), Two(Stopping, Stopped, [BootFinish(0), StopFinish(0)], {}));
    ls, s := Play(ls, s, OpStep(1, true), Two(Stopped, Stopped, [BootFinish(0), Over], {}));
  }

  /** Another VM then passes the check. */
  lemma SecondBootChecked() returns (ls: seq<Label>)
    ensures Executable(TWO_STOPPED, ls) && Flaws(TWO_STOPPED, ls) == {}
    ensures Run(TWO_STOPPED, ls) == Two(Stopped, Stopped, [BootFinish(0), Over, BootMark(1)], {2})
  {
    ls := StoppedWhileLaunching();
    var s := Two(Stopped, Stopped, [BootFinish(0), Over], {});
    ls, s := Play(ls, s, Issue(BootRead(1)), Two(Stopped, Stopped, [BootFinish(0), Over, BootRead(1)], {}));
    ls, s := Play(ls, s, OpStep(2, true), Two(Stopped, Stopped, [BootFinish(0), Over, BootCount(1)], {}));
    ls, s := Play(ls, s, OpStep(2, true), Two(Stopped, Stopped, [BootFinish(0), Over, BootMark(1)], {2}));
  }

  /** A stop finishes while the boot is still launching; another VM boots; then the first boot's
      RUNNING overwrites STOPPED. */
  lemma StopDuringBootBreaksCap() returns (ls: seq<Label>)
    ensures BreaksCapBy(ls, LateRunning)
  {
    ls := SecondBootChecked();
    var s := Two(Stopped, Stopped, [BootFinish(0), Over, BootMark(1)], {2});
    ls, s := Play(ls, s, OpStep(2, true), Two(Stopped, Booting, [BootFinish(0), Over, BootFinish(1)], {}));
    ls, s := Play(ls, s, OpStep(0, true), Two(Running, Booting, [Over, Over, BootFinish(1)], {}));
  }

  /** One VM booted. */
  lemma OneRunning() returns (ls: seq<Label>)
    ensures Executable(TWO_STOPPED, ls) && Flaws(TWO_STOPPED, ls) == {}
    ensures Run(TWO_STOPPED, ls) == Two(Running, Stopped, [Over], {})
  {
    ls := OneLaunching();
    var s := Two(Booting, Stopped, [BootFinish(0)], {});
    ls, s := Play(ls, s, OpStep(0, true), Two(Running, Stopped, [Over], {}));
  }

  /** Two stops that have both read RUNNING. */
  lemma BothStopping() returns (ls: seq<Label>)
    ensures Executable(TWO_STOPPED, ls) && Flaws(TWO_STOPPED, ls) == {}
    ensures Run(TWO_STOPPED, ls) == Two(Running, Stopped, [Over, StopMark(0), StopMark(0)], {})
  {
    ls := OneRunning();
    var s := Two(Running, Stopped, [Over], {});
    ls, s := Play(ls, s, Issue(StopRead(0)), Two(Running, Stopped, [Over, StopRead(0)], {}));
    ls, s := Play(ls, s, Issue(StopRead(0)), Two(Running, Stopped, [Over, StopRead(0), StopRead(0)], {}));
    ls, s := Play(ls, s, OpStep(1, true), Two(Running, Stopped, [Over, StopMark(0), StopRead(0)], {}));
    ls, s := Play(ls, s, OpStep(2, true), Two(Running, Stopped, [Over, StopMark(0), StopMark(0)], {}));
  }

  /** A VM stopped by the first of them. */
  lemma StoppedWhileStopping() returns (ls: seq<Label>)
    ensures Executable(TWO_STOPPED, ls) && Flaws(TWO_STOPPED, ls) == {}
    ensures Run(TWO_STOPPED, ls) == Two(Stopped, Stopped, [Over, Over, StopMark(0)], {})
  {
    ls := BothStopping();
    var s := Two(Running, Stopped, [Over, StopMark(0), StopMark(0)], {});
    ls, s := Play(ls, s, OpStep(1, true), Two(Stopping, Stopped, [Over, StopFinish(0), StopMark(0)], {}));
    ls, s := Play(ls, s, OpStep(1, true), Two(Stopped, Stopped, [Over, Over, StopMark(0)], {}));
  }

  /** Another VM then passes the check. */
  lemma BootCheckedWhileStopping() returns (ls: seq<Label>)
    ensures Executable(TWO_STOPPED, ls) && Flaws(TWO_STOPPED, ls) == {}
    ensures Run(TWO_STOPPED, ls) == Two(Stopped, Stopped, [Over, Over, StopMark(0), BootMark(1)], {3})
  {
    ls := StoppedWhileStopping();
    var s := Two(Stopped, Stopped, [Over, Over, StopMark(0)], {});
    ls, s := Play(ls, s, Issue(BootRead(1)), Two(Stopped, Stopped, [Over, Over, StopMark(0), BootRead(1)], {}));
    ls, s := Play(ls, s, OpStep(3, true), Two(Stopped, Stopped, [Over, Over, StopMark(0), BootCount(1)], {}));
    ls, s := Play(ls, s, OpStep(3, true), Two(Stopped, Stopped, [Over, Over, StopMark(0), BootMark(1)], {3}));
  }

  /** Two stops both read RUNNING; one finishes and another VM boots; then the second stop's STOPPING
      overwrites STOPPED. */
  lemma DoubleStopBreaksCap() returns (ls: seq<Label>)
    ensures BreaksCapBy(ls, LateStopping)
  {
    ls := BootCheckedWhileStopping();
    var s := Two(Stopped, Stopped, [Over, Over, StopMark(0), BootMark(1)], {3});
    ls, s := Play(ls, s, OpStep(3, true), Two(Stopped, Booting, [Over, Over, StopMark(0), BootFinish(1)], {}));
    ls, s := Play(ls, s, OpStep(2, true), Two(Stopping, Booting, [Over, Over, StopFinish(0), BootFinish(1)], {}));
  }
}
