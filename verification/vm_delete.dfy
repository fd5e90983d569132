/**
 What a delete job of internal/vm/manager.go finds when it calls Stop. The job has marked the row
 DELETING before, and Stop accepts only RUNNING and BOOTING, so the Stop is refused unless somebody
 else writes the row in between; here is exactly when that can happen. Likewise for a row that says
 CREATING: exactly which step leaves nobody under way to finish it.
 */
module VmDelete {
  import opened VmStatus
  import opened VmAdmission
  import opened VmClaims

  // ---------------------------------------------------------------- reachability

  /** Unless `deaths`, no supervisor reports VM id dead. */
  predicate Calm(ls: seq<Label>, id: nat, deaths: bool) {
    deaths || forall i :: 0 <= i < |ls| ==> ls[i] != ProcessDied(id)
  }

  ghost predicate Reaches(s: State, t: State, id: nat, deaths: bool) {
    exists ls :: Executable(s, ls) && Calm(ls, id, deaths) && Run(s, ls) == t
  }

  lemma ReachesSelf(s: State, id: nat, deaths: bool)
    ensures Reaches(s, s, id, deaths)
  {
    assert Executable(s, []) && Run(s, []) == s && Calm([], id, deaths);
  }

  lemma ReachesNext(s: State, t: State, l: Label, id: nat, deaths: bool)
    requires Reaches(s, t, id, deaths) && Enabled(t, l) && (deaths || l != ProcessDied(id))
    ensures Reaches(s, Apply(t, l), id, deaths)
  {
    var ls :| Executable(s, ls) && Calm(ls, id, deaths) && Run(s, ls) == t;
    Then(s, ls, l);
    assert Calm(ls + [l], id, deaths);
  }

  /** Some continuation takes a Stop of VM id to its mark. */
  ghost predicate StopGoesAhead(s: State, id: nat, deaths: bool) {
    exists t, i :: Reaches(s, t, id, deaths) && StopAccepted(t, i, id)
  }

  predicate StopAccepted(t: State, i: nat, id: nat) {
    i < |t.ops| && t.ops[i] == StopRead(id) && NextOp(t, t.ops[i], true) == StopMark(id)
  }

  // ---------------------------------------------------------------- nobody else under way

  /** An operation on VM id that has read the row, or started from it, and will still write it. */
  predicate Past(op: Op, id: nat) {
    || op == BootCount(id) || op == BootMark(id) || op == BootFinish(id)
    || op == StopMark(id) || op == StopFinish(id) || op == WatchMark(id)
    || op == ReprovisionMark(id) || op == ProvisionEnd(id)
  }

  predicate UnderWay(s: State, id: nat) {
    exists i | 0 <= i < |s.ops| :: Past(s.ops[i], id)
  }

  /** The upstream row says DELETING, or is gone already, and nobody in flight is going to write it. */
  predicate FirmlyDeleting(s: State, id: nat) {
    && id < |s.rows| && (s.rows[id].Has? ==> s.rows[id].status == Deleting && s.rows[id].upstream)
    && !UnderWay(s, id)
  }

  lemma FirmlyOpStep(s: State, i: nat, ok: bool, id: nat)
    requires FirmlyDeleting(s, id) && Enabled(s, OpStep(i, ok))
    ensures FirmlyDeleting(ApplyOp(s, i, ok), id)
  {
    var s' := ApplyOp(s, i, ok);
    assert !Past(s.ops[i], id);
    assert !Past(s'.ops[i], id);
    forall j | 0 <= j < |s'.ops| && j != i ensures !Past(s'.ops[j], id) { assert s'.ops[j] == s.ops[j]; }
  }

  lemma FirmlyStep(s: State, l: Label, id: nat)
    requires FirmlyDeleting(s, id) && Enabled(s, l) && l != ProcessDied(id)
    ensures FirmlyDeleting(Apply(s, l), id)
  {
    if l.OpStep? {
      FirmlyOpStep(s, l.at, l.ok, id);
    } else if l.Restart? {
      ReconciledAt(s.rows, l.reachable, id);
    } else {
      var s' := Apply(s, l);
      forall j | 0 <= j < |s'.ops| ensures !Past(s'.ops[j], id) {
        if j < |s.ops| { assert s'.ops[j] == s.ops[j] && !Past(s.ops[j], id); }
      }
    }
  }

  lemma {:induction false} FirmlyRun(s: State, ls: seq<Label>, id: nat)
    requires FirmlyDeleting(s, id) && Executable(s, ls) && Calm(ls, id, false)
    ensures FirmlyDeleting(Run(s, ls), id)
    decreases |ls|
  {
    if ls == [] {
    } else {
      FirmlyStep(s, ls[0], id);
      forall i | 0 <= i < |ls[1..]| ensures ls[1..][i] != ProcessDied(id) { assert ls[1..][i] == ls[i+1]; }
      FirmlyRun(Apply(s, ls[0]), ls[1..], id);
    }
  }

  /** Then every Stop of it is refused in every continuation, restarts and the row delete included. */
  lemma DeletingRefusesStop(s: State, id: nat)
    requires FirmlyDeleting(s, id)
    ensures !StopGoesAhead(s, id, false)
  {
    forall t, i | Reaches(s, t, id, false) ensures !StopAccepted(t, i, id) {
      var ls :| Executable(s, ls) && Calm(ls, id, false) && Run(s, ls) == t;
      FirmlyRun(s, ls, id);
    }
  }

  // ---------------------------------------------------------------- somebody else under way

  lemma AcceptedNow(s: State, t: State, id: nat, deaths: bool)
    requires Reaches(s, t, id, deaths) && StatusIn(t.rows, id, {Running, Booting})
    ensures StopGoesAhead(s, id, deaths)
  {
    ReachesNext(s, t, Issue(StopRead(id)), id, deaths);
    assert StopAccepted(Apply(t, Issue(StopRead(id))), |t.ops|, id);
  }

  /** The rows once every counted VM but id has been reported dead, up to position n. */
  function Cleared(rows: seq<Row>, id: nat, n: nat): seq<Row>
    requires n <= |rows|
  {
    if n == 0 then rows
    else if n - 1 == id then Cleared(rows, id, n - 1)
    else Put(Cleared(rows, id, n - 1), n - 1, Errored)
  }

  lemma {:induction false} ClearedAt(rows: seq<Row>, id: nat, n: nat)
    requires n <= |rows|
    ensures |Cleared(rows, id, n)| == |rows|
    ensures forall k :: n <= k < |rows| ==> Cleared(rows, id, n)[k] == rows[k]
    ensures forall k :: 0 <= k < n && k != id ==> !Cleared(rows, id, n)[k].Active()
    ensures id < |rows| ==> Cleared(rows, id, n)[id] == rows[id]
  {
    if n == 0 {
    } else {
      ClearedAt(rows, id, n - 1);
    }
  }

  lemma {:induction false} Clear(s: State, t: State, id: nat, deaths: bool, n: nat)
    requires Reaches(s, t, id, deaths) && n <= |t.rows|
    ensures Reaches(s, t.(rows := Cleared(t.rows, id, n)), id, deaths)
  {
    if n == 0 {
    } else {
      Clear(s, t, id, deaths, n - 1);
      if n - 1 != id {
        ReachesNext(s, t.(rows := Cleared(t.rows, id, n - 1)), ProcessDied(n - 1), id, deaths);
      }
    }
  }

  /** A boot that has come to its check can be let through, mark its row and be stopped. */
  lemma FromCount(s: State, t: State, i: nat, id: nat, deaths: bool)
    requires Reaches(s, t, id, deaths) && t.cap >= 1
    requires i < |t.ops| && t.ops[i] == BootCount(id) && Revives(t, id)
    ensures StopGoesAhead(s, id, deaths)
  {
    Clear(s, t, id, deaths, |t.rows|);
    ClearedAt(t.rows, id, |t.rows|);
    var t1 := t.(rows := Cleared(t.rows, id, |t.rows|));
    CountIsSize(t1.rows);
    assert Active(t1.rows) == {};
    ReachesNext(s, t1, OpStep(i, true), id, deaths);
    var t2 := Apply(t1, OpStep(i, true));
    assert t2.ops[i] == BootMark(id);
    ReachesNext(s, t2, OpStep(i, true), id, deaths);
    AcceptedNow(s, Apply(t2, OpStep(i, true)), id, deaths);
  }

  /** So can a new boot, once the row is STOPPED or ERROR. */
  lemma FromStopped(s: State, t: State, id: nat, deaths: bool)
    requires Reaches(s, t, id, deaths) && t.cap >= 1 && StatusIn(t.rows, id, {Stopped, Errored})
    ensures StopGoesAhead(s, id, deaths)
  {
    ReachesNext(s, t, Issue(BootRead(id)), id, deaths);
    var t1 := Apply(t, Issue(BootRead(id)));
    ReachesNext(s, t1, OpStep(|t.ops|, true), id, deaths);
    FromCount(s, Apply(t1, OpStep(|t.ops|, true)), |t.ops|, id, deaths);
  }

  /** The operation's next step leads to a row that can be stopped or booted. */
  lemma FromLastWrite(s: State, t: State, i: nat, id: nat, deaths: bool)
    requires Reaches(s, t, id, deaths) && t.cap >= 1 && Present(t.rows, id) && i < |t.ops|
    requires var op := t.ops[i];
      || op == BootMark(id) || op == BootFinish(id) || op == StopFinish(id) || op == WatchMark(id)
      || op == ProvisionEnd(id)
    ensures StopGoesAhead(s, id, deaths)
  {
    var t0 := t;
    if t.ops[i].BootFinish? {
      ReachesNext(s, t, WriteToken(i), id, deaths);
      t0 := Apply(t, WriteToken(i));
    }
    ReachesNext(s, t0, OpStep(i, true), id, deaths);
    var t' := Apply(t0, OpStep(i, true));
    if t.ops[i].BootMark? || t.ops[i].BootFinish? {
      AcceptedNow(s, t', id, deaths);
    } else {
      FromStopped(s, t', id, deaths);
    }
  }

  lemma FromUnderWay(s: State, i: nat, id: nat, deaths: bool)
    requires s.cap >= 1 && Revives(s, id) && i < |s.ops| && Past(s.ops[i], id)
    ensures StopGoesAhead(s, id, deaths)
  {
    ReachesSelf(s, id, deaths);
    if s.ops[i].BootCount? {
      FromCount(s, s, i, id, deaths);
    } else if s.ops[i].StopMark? || s.ops[i].ReprovisionMark? {
      ReachesNext(s, s, OpStep(i, true), id, deaths);
      FromLastWrite(s, Apply(s, OpStep(i, true)), i, id, deaths);
    } else {
      FromLastWrite(s, s, i, id, deaths);
    }
  }

  /** A restart gives a legacy VM back. */
  lemma FromRestart(s: State, id: nat, deaths: bool)
    requires s.cap >= 1 && Present(s.rows, id) && s.rows[id].status == Deleting && !s.rows[id].upstream
    ensures StopGoesAhead(s, id, deaths)
  {
    var reachable := seq(|s.rows|, j => false);
    ReachesSelf(s, id, deaths);
    ReachesNext(s, s, Restart(reachable), id, deaths);
    ReconciledAt(s.rows, reachable, id);
    FromStopped(s, Apply(s, Restart(reachable)), id, deaths);
  }

  /** For a row that says DELETING, an accepted Stop can still come, without a supervisor's report on
      this VM, exactly when another operation on it is under way or the VM is a legacy one. */
  lemma StopAfterDeletingExactly(s: State, id: nat)
    requires s.cap >= 1 && Present(s.rows, id) && s.rows[id].status == Deleting
    ensures StopGoesAhead(s, id, false) <==> UnderWay(s, id) || !s.rows[id].upstream
  {
    if UnderWay(s, id) {
      var i :| 0 <= i < |s.ops| && Past(s.ops[i], id);
      FromUnderWay(s, i, id, false);
    } else if !s.rows[id].upstream {
      FromRestart(s, id, false);
    } else {
      DeletingRefusesStop(s, id);
    }
  }

  /** A supervisor's report writes ERROR over DELETING, and then anything can follow. */
  lemma SupervisorReopens(s: State, id: nat)
    requires s.cap >= 1 && Present(s.rows, id)
    ensures StopGoesAhead(s, id, true)
  {
    ReachesSelf(s, id, true);
    ReachesNext(s, s, ProcessDied(id), id, true);
    FromStopped(s, Apply(s, ProcessDied(id)), id, true);
  }

  // ---------------------------------------------------------------- witnesses

  /** A delete job marks a VM that is still launching, and the boot completes. */
  lemma BootOverwritesDeleting() returns (ls: seq<Label>, k: nat)
    ensures Executable(TWO_STOPPED, ls) && k < |ls| && ls[k] == MarkDeleting(0)
    ensures Run(TWO_STOPPED, ls) == Two(Running, Stopped, [Over], {})
  {
    ls := OneLaunching();
    k := |ls|;
    var s := Two(Booting, Stopped, [BootFinish(0)], {});
    ls, s := Play(ls, s, MarkDeleting(0), Two(Deleting, Stopped, [BootFinish(0)], {}));
    ls, s := Play(ls, s, OpStep(0, true), Two(Running, Stopped, [Over], {}));
  }

  /** With a boot still launching, its RUNNING overwrites DELETING, and the delete job's Stop goes
      ahead. */
  lemma StopDuringDeleteAccepted() returns (ls: seq<Label>, k: nat)
    ensures Executable(TWO_STOPPED, ls) && k < |ls| && ls[k] == MarkDeleting(0)
    ensures Run(TWO_STOPPED, ls) == Two(Running, Stopped, [Over, StopMark(0)], {})
  {
    ls, k := BootOverwritesDeleting();
    var s := Two(Running, Stopped, [Over], {});
    ls, s := Play(ls, s, Issue(StopRead(0)), Two(Running, Stopped, [Over, StopRead(0)], {}));
    ls, s := Play(ls, s, OpStep(1, true), Two(Running, Stopped, [Over, StopMark(0)], {}));
  }

  // ---------------------------------------------------------------- CREATING without a pipeline

  /** The row says CREATING and nobody in flight is going to write it. */
  predicate Stranded(s: State, id: nat) {
    && Present(s.rows, id) && s.rows[id].status == Creating && !UnderWay(s, id)
  }

  /** A write to the row from outside the operations. */
  predicate Outside(l: Label, id: nat) {
    l == DropRow(id) || l == ProcessDied(id) || l == MarkDeleting(id) || l.Restart?
  }

  /** The step is a reprovisioning that marks a present row CREATING and then fails, with no other
      provisioning of it under way. */
  predicate Abandons(s: State, l: Label) {
    && l.OpStep? && !l.ok && l.at < |s.ops| && s.ops[l.at].ReprovisionMark?
    && Present(s.rows, s.ops[l.at].id) && !Finishing(s, s.ops[l.at].id)
  }

  /** A provisioning of VM id is going to write its final status. */
  predicate Finishing(s: State, id: nat) {
    exists i | 0 <= i < |s.ops| :: s.ops[i] == ProvisionEnd(id)
  }

  predicate Creates(rows: seq<Row>, id: nat) { Present(rows, id) && rows[id].status == Creating }

  /** Every row that says CREATING has somebody to finish it. */
  predicate Served(s: State) {
    forall id | 0 <= id < |s.rows| :: Creates(s.rows, id) ==> Finishing(s, id)
  }

  /** An operation's own end of provisioning takes the row out of CREATING. */
  lemma ServedOp(s: State, i: nat, ok: bool, id: nat)
    requires Served(s) && Enabled(s, OpStep(i, ok)) && !Abandons(s, OpStep(i, ok))
    requires Creates(ApplyOp(s, i, ok).rows, id)
    ensures Finishing(ApplyOp(s, i, ok), id)
  {
    var s', op := ApplyOp(s, i, ok), s.ops[i];
    if op == ReprovisionMark(id) && ok {
      assert s'.ops[i] == ProvisionEnd(id);
    } else {
      assert op != ProvisionEnd(id) && Finishing(s, id);
      var k :| 0 <= k < |s.ops| && s.ops[k] == ProvisionEnd(id);
      assert s'.ops[k] == ProvisionEnd(id);
    }
  }

  lemma ServedOutside(s: State, l: Label, id: nat)
    requires Served(s) && Enabled(s, l) && !l.OpStep? && Creates(Apply(s, l).rows, id)
    ensures Finishing(Apply(s, l), id)
  {
    var s' := Apply(s, l);
    if l.Restart? {
      ReconciledAt(s.rows, l.reachable, id);
    } else if id < |s.rows| {
      assert Creates(s.rows, id) && Finishing(s, id);
      var k :| 0 <= k < |s.ops| && s.ops[k] == ProvisionEnd(id);
      assert s'.ops[k] == ProvisionEnd(id);
    } else {
      assert s'.ops[|s.ops|] == ProvisionEnd(id);
    }
  }

  lemma AbandonedNotServed(s: State, l: Label)
    requires Enabled(s, l) && Abandons(s, l)
    ensures !Served(Apply(s, l))
  {
    var s', id := Apply(s, l), s.ops[l.at].id;
    assert Creates(s'.rows, id);
    forall k | 0 <= k < |s'.ops| ensures s'.ops[k] != ProvisionEnd(id) {
      assert k != l.at ==> s'.ops[k] == s.ops[k];
    }
  }

  /** Exactly that step leaves a CREATING row with nobody to finish it. */
  lemma ServedStep(s: State, l: Label)
    requires Served(s) && Enabled(s, l)
    ensures Served(Apply(s, l)) <==> !Abandons(s, l)
  {
    if Abandons(s, l) {
      AbandonedNotServed(s, l);
    } else {
      forall id | 0 <= id < |Apply(s, l).rows| && Creates(Apply(s, l).rows, id) ensures Finishing(Apply(s, l), id) {
        if l.OpStep? { ServedOp(s, l.at, l.ok, id); } else { ServedOutside(s, l, id); }
      }
    }
  }

  /** In every state of the run each CREATING row has somebody to finish it. */
  predicate ServedThroughout(s: State, ls: seq<Label>)
    requires Executable(s, ls)
    decreases |ls|
  {
    Served(s) && (ls == [] || ServedThroughout(Apply(s, ls[0]), ls[1..]))
  }

  predicate NoneAbandons(s: State, ls: seq<Label>)
    requires Executable(s, ls)
    decreases |ls|
  {
    ls == [] || (!Abandons(s, ls[0]) && NoneAbandons(Apply(s, ls[0]), ls[1..]))
  }

  /** Over whole runs, restarts included: nobody waits in vain for a VM being created exactly when no
      reprovisioning fails between its status write and its hand-over to the provisioning goroutine. */
  lemma {:induction false} ServedThroughoutExactly(s: State, ls: seq<Label>)
    requires Executable(s, ls) && Served(s)
    ensures ServedThroughout(s, ls) <==> NoneAbandons(s, ls)
    decreases |ls|
  {
    if ls == [] {
    } else {
      ServedStep(s, ls[0]);
      if !Abandons(s, ls[0]) { ServedThroughoutExactly(Apply(s, ls[0]), ls[1..]); }
    }
  }

  /** A failing mark with no other operation under way strands its row. */
  lemma FailingMarkStrands(s: State, i: nat, id: nat)
    requires i < |s.ops| && s.ops[i] == ReprovisionMark(id) && Present(s.rows, id)
    requires forall j :: 0 <= j < |s.ops| && j != i ==> !Past(s.ops[j], id)
    ensures Enabled(s, OpStep(i, false)) && Stranded(Apply(s, OpStep(i, false)), id)
  {
    var s' := Apply(s, OpStep(i, false));
    forall j | 0 <= j < |s'.ops| ensures !Past(s'.ops[j], id) {
      if j != i { assert s'.ops[j] == s.ops[j]; }
    }
  }

  /** From two stopped VMs: a reprovisioning is accepted and then fails. */
  lemma FailedReprovisionStrands()
    ensures Served(TWO_STOPPED)
    ensures var ls := [Issue(ReprovisionRead(0)), OpStep(0, true), OpStep(0, false)];
      && Executable(TWO_STOPPED, ls) && !ServedThroughout(TWO_STOPPED, ls)
      && Run(TWO_STOPPED, ls) == Two(Creating, Stopped, [Over], {}) && Stranded(Run(TWO_STOPPED, ls), 0)
  {
    var ls, s := [], Two(Stopped, Stopped, [], {});
    ls, s := Play(ls, s, Issue(ReprovisionRead(0)), Two(Stopped, Stopped, [ReprovisionRead(0)], {}));
    ls, s := Play(ls, s, OpStep(0, true), Two(Stopped, Stopped, [ReprovisionMark(0)], {}));
    FailingMarkStrands(s, 0, 0);
    ls, s := Play(ls, s, OpStep(0, false), Two(Creating, Stopped, [Over], {}));
    if ServedThroughout(TWO_STOPPED, ls) { ServedAtEnd(TWO_STOPPED, ls); }
    assert !Finishing(s, 0) && Creates(s.rows, 0);
  }

  lemma {:induction false} ServedAtEnd(s: State, ls: seq<Label>)
    requires Executable(s, ls) && ServedThroughout(s, ls)
    ensures Served(Run(s, ls))
    decreases |ls|
  {
    if ls == [] {
    } else {
      ServedAtEnd(Apply(s, ls[0]), ls[1..]);
    }
  }

  lemma StrandedStep(s: State, l: Label, id: nat)
    requires Stranded(s, id) && Enabled(s, l) && !Outside(l, id)
    ensures Stranded(Apply(s, l), id)
  {
    var s' := Apply(s, l);
    if l.OpStep? { assert !Past(s.ops[l.at], id) && !Past(s'.ops[l.at], id); }
    forall j | 0 <= j < |s'.ops| ensures !Past(s'.ops[j], id) {
      if j < |s.ops| && !(l.OpStep? && l.at == j) { assert s'.ops[j] == s.ops[j] && !Past(s.ops[j], id); }
    }
  }

  /** Such a row stays CREATING, unbootable, until it is deleted, reported dead or the server restarts. */
  lemma {:induction false} StrandedStays(s: State, ls: seq<Label>, id: nat)
    requires Stranded(s, id) && Executable(s, ls) && forall k :: 0 <= k < |ls| ==> !Outside(ls[k], id)
    ensures Stranded(Run(s, ls), id)
    decreases |ls|
  {
    if ls == [] {
    } else {
      StrandedStep(s, ls[0], id);
      forall k | 0 <= k < |ls[1..]| ensures !Outside(ls[1..][k], id) { assert ls[1..][k] == ls[k+1]; }
      StrandedStays(Apply(s, ls[0]), ls[1..], id);
    }
  }

  // ---------------------------------------------------------------- statuses nobody writes

  predicate NoUnused(rows: seq<Row>) {
    forall id :: 0 <= id < |rows| && rows[id].Has? ==> rows[id].status != Restoring && rows[id].status != Installing
  }

  /** RESTORING and INSTALLING_CFW are never entered, and the first restart clears them. */
  lemma {:induction false} UnusedNeverEntered(s: State, ls: seq<Label>)
    requires Executable(s, ls) && (NoUnused(s.rows) || exists k :: 0 <= k < |ls| && ls[k].Restart?)
    ensures NoUnused(Run(s, ls).rows)
    decreases |ls|
  {
    if ls == [] {
    } else {
      var s' := Apply(s, ls[0]);
      if ls[0].Restart? {
        forall id | 0 <= id < |s'.rows| && s'.rows[id].Has?
          ensures s'.rows[id].status != Restoring && s'.rows[id].status != Installing
        {
          ReconciledAt(s.rows, ls[0].reachable, id);
        }
      } else if !NoUnused(s.rows) {
        var k :| 0 <= k < |ls| && ls[k].Restart?;
        assert ls[1..][k - 1].Restart?;
      }
      UnusedNeverEntered(s', ls[1..]);
    }
  }
}
