/**
 Exactly which operations in flight can take the VMs of internal/vm/manager.go over the cap. A row is
 claimed when it is counted or when an operation that has passed its own check is going to write a
 counted status into it.
 */
module VmClaims {
  import opened VmAdmission

  /** The operation writes a counted status into row id without a further check. */
  predicate ArmedOn(op: Op, id: nat) {
    op == BootMark(id) || op == BootFinish(id) || op == StopMark(id)
  }

  ghost predicate Armed(s: State, id: nat) {
    exists i :: 0 <= i < |s.ops| && ArmedOn(s.ops[i], id)
  }

  ghost predicate Claimed(s: State, id: nat) {
    Present(s.rows, id) && (s.rows[id].Active() || Armed(s, id))
  }

  ghost function Claims(s: State): set<nat> {
    set id: nat | id < |s.rows| && Claimed(s, id)
  }

  function Active(rows: seq<Row>): set<nat> {
    set id: nat | id < |rows| && rows[id].Active()
  }

  /** Operations past their read of a row concern a row that was inserted. */
  ghost predicate OpsKnown(s: State) {
    forall i :: 0 <= i < |s.ops| ==> OpKnown(s.ops[i], |s.rows|)
  }

  predicate OpKnown(op: Op, n: nat) {
    op.BootCount? || op.BootMark? || op.BootFinish? || op.StopMark? ==> op.id < n
  }

  lemma {:induction false} CountIsSize(rows: seq<Row>)
    ensures Count(rows) == |Active(rows)|
    decreases |rows|
  {
    if rows == [] {
      assert Active(rows) == {};
    } else {
      var n := |rows| - 1;
      var front, last := rows[..n], rows[n];
      CountIsSize(front);
      CountAppend(front, last);
      assert rows == front + [last];
      assert Active(rows) == if last.Active() then Active(front) + {n} else Active(front);
    }
  }

  lemma {:induction false} SubsetSize(a: set<nat>, b: set<nat>)
    requires a <= b
    ensures |a| <= |b|
    decreases a
  {
    if a == {} {
    } else {
      var x :| x in a;
      SubsetSize(a - {x}, b - {x});
    }
  }

  lemma CountedAreClaimed(s: State)
    ensures Active(s.rows) <= Claims(s) && Count(s.rows) <= |Claims(s)|
  {
    CountIsSize(s.rows);
    SubsetSize(Active(s.rows), Claims(s));
  }

  // ---------------------------------------------------------------- only a passed check claims

  lemma {:induction false} ReconciledAt(rows: seq<Row>, reachable: seq<bool>, id: nat)
    requires |reachable| == |rows| && id < |rows|
    ensures ReconcileRows(rows, reachable)[id] == ReconcileRow(rows[id], reachable[id])
  {
    if |rows| == 1 {
    } else {
      ReconciledAt(rows[1..], reachable[1..], if id == 0 then 0 else id - 1);
    }
  }

  /** What an operation's step does to the claim on one row. */
  lemma OpClaim(s: State, i: nat, ok: bool, id: nat)
    requires Enabled(s, OpStep(i, ok)) && OpsKnown(s) && Claimed(ApplyOp(s, i, ok), id)
    ensures Claimed(s, id) || (Passes(s, OpStep(i, ok)) && s.ops[i].id == id)
  {
    var s' := ApplyOp(s, i, ok);
    assert Present(s.rows, id);
    if s'.rows[id].Active() && !s.rows[id].Active() {
      assert ArmedOn(s.ops[i], id);
    } else if !s'.rows[id].Active() {
      var j :| 0 <= j < |s'.ops| && ArmedOn(s'.ops[j], id);
      if j != i { assert ArmedOn(s.ops[j], id); }
    }
  }

  lemma OpKeepsKnown(s: State, i: nat, ok: bool)
    requires Enabled(s, OpStep(i, ok)) && OpsKnown(s)
    ensures OpsKnown(ApplyOp(s, i, ok))
  {
    var s' := ApplyOp(s, i, ok);
    assert |s'.rows| == |s.rows|;
    assert OpKnown(s.ops[i], |s.rows|);
    forall j | 0 <= j < |s'.ops| ensures OpKnown(s'.ops[j], |s'.rows|) {
      if j != i { assert OpKnown(s.ops[j], |s.rows|); }
    }
  }

  lemma OutsideClaim(s: State, l: Label, id: nat)
    requires Enabled(s, l) && !l.OpStep? && OpsKnown(s) && Claimed(Apply(s, l), id)
    ensures Claimed(s, id)
  {
    var s' := Apply(s, l);
    if l.Restart? {
      ReconciledAt(s.rows, l.reachable, id);
    } else if Armed(s', id) {
      var j :| 0 <= j < |s'.ops| && ArmedOn(s'.ops[j], id);
      assert j < |s.ops| && OpKnown(s.ops[j], |s.rows|);
      assert ArmedOn(s.ops[j], id);
    }
  }

  lemma OutsideKeepsKnown(s: State, l: Label)
    requires Enabled(s, l) && !l.OpStep? && OpsKnown(s)
    ensures OpsKnown(Apply(s, l))
  {
    var s' := Apply(s, l);
    if l.Restart? {
    } else {
      forall j | 0 <= j < |s'.ops| ensures OpKnown(s'.ops[j], |s'.rows|) {
        if j < |s.ops| { assert OpKnown(s.ops[j], |s.rows|); }
      }
    }
  }

  /** Nothing but a passed check adds a claim, and it adds at most the boot's own. */
  lemma ClaimsStep(s: State, l: Label)
    requires Enabled(s, l) && OpsKnown(s)
    ensures OpsKnown(Apply(s, l))
    ensures Claims(Apply(s, l)) <= Claims(s) + if Passes(s, l) then {s.ops[l.at].id} else {}
  {
    if l.OpStep? { OpKeepsKnown(s, l.at, l.ok); } else { OutsideKeepsKnown(s, l); }
    forall id | id in Claims(Apply(s, l))
      ensures id in Claims(s) + if Passes(s, l) then {s.ops[l.at].id} else {}
    {
      if l.OpStep? { OpClaim(s, l.at, l.ok, id); } else { OutsideClaim(s, l, id); }
    }
  }

  // ---------------------------------------------------------------- the exact condition

  /** No boot passes its check in the run. */
  ghost predicate NoChecks(s: State, ls: seq<Label>)
    requires Executable(s, ls)
    decreases |ls|
  {
    ls == [] || (!Passes(s, ls[0]) && NoChecks(Apply(s, ls[0]), ls[1..]))
  }

  /** The run goes over the cap with nothing but what is already under way. */
  ghost predicate Overfills(s: State, ls: seq<Label>) {
    Executable(s, ls) && NoChecks(s, ls) && !CapHolds(s, ls)
  }

  lemma {:induction false} ClaimsBound(s: State, ls: seq<Label>)
    requires Executable(s, ls) && NoChecks(s, ls) && OpsKnown(s) && |Claims(s)| <= s.cap
    ensures CapHolds(s, ls)
    decreases |ls|
  {
    CountedAreClaimed(s);
    if ls == [] {
    } else {
      ClaimsStep(s, ls[0]);
      SubsetSize(Claims(Apply(s, ls[0])), Claims(s));
      ClaimsBound(Apply(s, ls[0]), ls[1..]);
    }
  }

  /** An armed operation counts its row and leaves all claims as they are. */
  lemma RedeemClaim(s: State, i: nat, id: nat)
    requires i < |s.ops| && ArmedOn(s.ops[i], id) && Present(s.rows, id) && !s.rows[id].Active() && OpsKnown(s)
    requires MaySucceed(s.rows, s.ops[i])
    ensures Enabled(s, OpStep(i, true)) && !Passes(s, OpStep(i, true))
    ensures var s' := Apply(s, OpStep(i, true));
      Claims(s') == Claims(s) && Count(s'.rows) == Count(s.rows) + 1 && OpsKnown(s') && s'.cap == s.cap
  {
    var s' := Apply(s, OpStep(i, true));
    ClaimsStep(s, OpStep(i, true));
    StepCount(s, OpStep(i, true));
    forall k | k in Claims(s) ensures k in Claims(s') {
      if k != id && !s.rows[k].Active() {
        var j :| 0 <= j < |s.ops| && ArmedOn(s.ops[j], k);
        assert s'.ops[j] == s.ops[j];
      }
    }
  }

  /** Giving a row its token leaves all claims as they are. */
  lemma TokenKeepsClaims(s: State, i: nat)
    requires Enabled(s, WriteToken(i)) && OpsKnown(s)
    ensures var s' := Apply(s, WriteToken(i));
      Claims(s') == Claims(s) && Active(s'.rows) == Active(s.rows) && OpsKnown(s')
  {
    var s' := Apply(s, WriteToken(i));
    ClaimsStep(s, WriteToken(i));
    forall k | k in Claims(s) ensures k in Claims(s') {
      if !s.rows[k].Active() {
        var j :| 0 <= j < |s.ops| && ArmedOn(s.ops[j], k);
        assert s'.ops[j] == s.ops[j];
      }
    }
  }

  /** If there are more claims than the cap allows, the operations in flight alone exceed it. */
  lemma {:induction false} ClaimsOverfill(s: State) returns (ls: seq<Label>)
    requires OpsKnown(s) && |Claims(s)| > s.cap
    ensures Overfills(s, ls)
    decreases |Claims(s)| - Count(s.rows)
  {
    CountedAreClaimed(s);
    if Count(s.rows) > s.cap {
      ls := [];
    } else {
      CountIsSize(s.rows);
      assert Claims(s) != Active(s.rows);
      var id :| id in Claims(s) && id !in Active(s.rows);
      var i :| 0 <= i < |s.ops| && ArmedOn(s.ops[i], id);
      var s', pre := s, [];
      if !MaySucceed(s.rows, s.ops[i]) {
        s', pre := Apply(s, WriteToken(i)), [WriteToken(i)];
        TokenKeepsClaims(s, i);
        CountIsSize(s'.rows);
      }
      RedeemClaim(s', i, id);
      var rest := ClaimsOverfill(Apply(s', OpStep(i, true)));
      ls := [OpStep(i, true)] + rest;
      assert ls[1..] == rest;
      assert Overfills(s', ls);
      if pre != [] {
        assert (pre + ls)[1..] == ls;
        ls := pre + ls;
      }
    }
  }

  /** What is under way can exceed the cap without a further check exactly when more rows are claimed
      than the cap allows. */
  lemma OverfillsExactly(s: State)
    requires OpsKnown(s)
    ensures (exists ls :: Overfills(s, ls)) <==> |Claims(s)| > s.cap
  {
    if |Claims(s)| > s.cap {
      var ls := ClaimsOverfill(s);
    } else {
      forall ls ensures !Overfills(s, ls) {
        if Executable(s, ls) && NoChecks(s, ls) { ClaimsBound(s, ls); }
      }
    }
  }

  /** Boot compares the count with the cap. Letting the boot of a present row through is safe exactly
      when the claims, this row's included, fit under the cap. */
  lemma CheckSafeExactly(s: State, i: nat)
    requires OpsKnown(s) && Enabled(s, OpStep(i, true)) && Passes(s, OpStep(i, true))
    requires Present(s.rows, s.ops[i].id)
    ensures (exists ls :: Overfills(Apply(s, OpStep(i, true)), ls)) <==> |Claims(s) + {s.ops[i].id}| > s.cap
  {
    var s', id := Apply(s, OpStep(i, true)), s.ops[i].id;
    ClaimsStep(s, OpStep(i, true));
    assert ArmedOn(s'.ops[i], id);
    forall k | k in Claims(s) ensures k in Claims(s') {
      if !s.rows[k].Active() {
        var j :| 0 <= j < |s.ops| && ArmedOn(s.ops[j], k);
        assert s'.ops[j] == s.ops[j];
      }
    }
    assert Claims(s') == Claims(s) + {id};
    OverfillsExactly(s');
  }

  // ---------------------------------------------------------------- a check on the claims keeps the cap

  /** The boot let through by this step fits under the cap together with all claims. */
  ghost predicate Fits(s: State, l: Label)
    requires Enabled(s, l)
  {
    Passes(s, l) && Present(s.rows, s.ops[l.at].id) ==> |Claims(s) + {s.ops[l.at].id}| <= s.cap
  }

  /** Every check of the run lets through only what fits. */
  ghost predicate ChecksFit(s: State, ls: seq<Label>)
    requires Executable(s, ls)
    decreases |ls|
  {
    ls == [] || (Fits(s, ls[0]) && ChecksFit(Apply(s, ls[0]), ls[1..]))
  }

  lemma FittingStep(s: State, l: Label)
    requires Enabled(s, l) && OpsKnown(s) && |Claims(s)| <= s.cap && Fits(s, l)
    ensures OpsKnown(Apply(s, l)) && |Claims(Apply(s, l))| <= Apply(s, l).cap
  {
    ClaimsStep(s, l);
    if Passes(s, l) && Present(s.rows, s.ops[l.at].id) {
      SubsetSize(Claims(Apply(s, l)), Claims(s) + {s.ops[l.at].id});
    } else {
      SubsetSize(Claims(Apply(s, l)), Claims(s));
    }
  }

  /** Were Boot to compare the claims with the cap instead of the count, no interleaving of boots,
      stops, deletes, provisioning, supervisors and restarts could exceed it. */
  lemma {:induction false} FittingChecksKeepCap(s: State, ls: seq<Label>)
    requires Executable(s, ls) && OpsKnown(s) && |Claims(s)| <= s.cap && ChecksFit(s, ls)
    ensures CapHolds(s, ls)
    decreases |ls|
  {
    CountedAreClaimed(s);
    if ls == [] {
    } else {
      FittingStep(s, ls[0]);
      FittingChecksKeepCap(Apply(s, ls[0]), ls[1..]);
    }
  }

  /** And no weaker comparison would do: after the first check that lets through what does not fit, the
      operations then in flight can exceed the cap by themselves. */
  lemma {:induction false} UnfitCheckOverfills(s: State, ls: seq<Label>) returns (k: nat, rest: seq<Label>)
    requires Executable(s, ls) && OpsKnown(s) && |Claims(s)| <= s.cap && !ChecksFit(s, ls)
    ensures k <= |ls| && Executable(s, ls[..k]) && Overfills(Run(s, ls[..k]), rest)
    decreases |ls|
  {
    var s' := Apply(s, ls[0]);
    if !Fits(s, ls[0]) {
      CheckSafeExactly(s, ls[0].at);
      rest :| Overfills(s', rest);
      k := 1;
      assert ls[..1][1..] == [] && Executable(s', []) && Run(s', []) == s';
    } else {
      FittingStep(s, ls[0]);
      k, rest := UnfitCheckOverfills(s', ls[1..]);
      assert ls[..k + 1][1..] == ls[1..][..k];
      k := k + 1;
    }
  }
}
