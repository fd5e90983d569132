/**
 The streaming marker detector of internal/vm/provision.go and the provisioning steps it steers.
 Writes to the watcher are atomic; subprocesses are their answers and the output they produce.
 */
module Provision {

  import opened Strings
  import opened VmStatus
  import opened TextLines

  /** A marker found earlier stays found. */
  lemma ContainsGrows(s: string, p: string, m: string)
    requires Contains(s, m)
    ensures Contains(s + p, m)
  {
    var i :| 0 <= i <= |s| - |m| && At(s, m, i);
    assert At(s + p, m, i);
  }

  /** What is found behind a prefix is found. */
  lemma FoundBehind(a: string, b: string, m: string, i: int)
    ensures At(b, m, i) ==> At(a + b, m, |a| + i)
  {
    if At(b, m, i) {
      assert (a + b)[|a|+i..|a|+i+|m|] == b[i..i+|m|];
    }
  }

  /** What is found past a prefix is found without it. */
  lemma FoundWithout(a: string, b: string, m: string, i: int)
    requires At(a + b, m, i) && i >= |a|
    ensures At(b, m, i - |a|)
  {
    assert (a + b)[i..i+|m|] == b[i-|a|..i-|a|+|m|];
  }

  lemma FoundEarlier(s: string, p: string, m: string, i: int)
    requires At(s + p, m, i) && i + |m| <= |s|
    ensures Contains(s, m)
  {
    assert (s + p)[i..i+|m|] == s[i..i+|m|];
    assert At(s, m, i);
  }

  /** If the marker has not occurred yet, looking at the last k bytes and the new ones is as good as
      looking at everything, provided k is at least one less than the marker's length. */
  lemma CarrySuffices(seen: string, p: string, m: string, k: nat)
    requires 1 <= |m| <= k + 1 && !Contains(seen, m)
    ensures Contains(LastN(seen, k) + p, m) <==> Contains(seen + p, m)
  {
    var kept := LastN(seen, k);
    var cut := seen[..|seen|-|kept|];
    assert seen + p == cut + (kept + p);
    if Contains(kept + p, m) {
      var i :| 0 <= i <= |kept + p| - |m| && At(kept + p, m, i);
      FoundBehind(cut, kept + p, m, i);
      assert At(seen + p, m, |cut| + i);
    }
    if Contains(seen + p, m) {
      var i :| 0 <= i <= |seen + p| - |m| && At(seen + p, m, i);
      if i + |m| <= |seen| {
        FoundEarlier(seen, p, m, i);
      } else {
        FoundWithout(cut, kept + p, m, i);
        assert At(kept + p, m, i - |cut|);
      }
    }
  }

  // ---------------------------------------------------------------- how much carry is needed

  datatype Detector = Detector(fired: bool, partial: string)

  function Feed(d: Detector, p: string, m: string, k: nat): Detector {
    if d.fired then d else Detector(Contains(d.partial + p, m), LastN(d.partial + p, k))
  }

  function FeedAll(chunks: seq<string>, m: string, k: nat): Detector {
    if chunks == [] then Detector(false, "")
    else Feed(FeedAll(chunks[..|chunks|-1], m, k), chunks[|chunks|-1], m, k)
  }

  lemma {:induction false} EnoughCarry(chunks: seq<string>, m: string, k: nat)
    requires 1 <= |m| <= k + 1
    ensures FeedAll(chunks, m, k).fired <==> Contains(Concat(chunks), m)
    ensures !FeedAll(chunks, m, k).fired ==> FeedAll(chunks, m, k).partial == LastN(Concat(chunks), k)
  {
    if chunks == [] {
    } else {
      var front, p := chunks[..|chunks|-1], chunks[|chunks|-1];
      EnoughCarry(front, m, k);
      LastNConcat(Concat(front), p, k);
      if FeedAll(front, m, k).fired {
        ContainsGrows(Concat(front), p, m);
      } else {
        CarrySuffices(Concat(front), p, m, k);
      }
    }
  }

  /** After these writes the detector has fired exactly when their concatenation holds the marker. */
  predicate Detects(chunks: seq<string>, m: string, k: nat) {
    FeedAll(chunks, m, k).fired <==> Contains(Concat(chunks), m)
  }

  /** A carry of k bytes detects a marker under every chunking exactly when k is at least the
      marker's length minus one. */
  lemma CarryIsExact(m: string, k: nat)
    requires |m| >= 1
    ensures (forall chunks :: Detects(chunks, m, k)) <==> k + 1 >= |m|
  {
    if k + 1 >= |m| {
      forall chunks ensures Detects(chunks, m, k) {
        EnoughCarry(chunks, m, k);
      }
    } else {
      var a, b := m[..|m|-1], m[|m|-1..];
      var chunks := [a, b];
      assert chunks[..1] == [a] && [a][..0] == [];
      assert "" + a == a;
      assert Concat([a]) == a;
      assert chunks[..|chunks|-1] == [a] && chunks[|chunks|-1] == b;
      assert Concat(chunks) == a + b == m;
      assert At(m, m, 0);
      var d := FeedAll([a], m, k);
      assert FeedAll([a], m, k) == Feed(FeedAll([], m, k), a, m, k);
      assert !d.fired && d.partial == LastN(a, k);
      assert FeedAll(chunks, m, k) == Feed(d, b, m, k);
      assert !FeedAll(chunks, m, k).fired;
      assert !Detects(chunks, m, k);
    }
  }

  // ---------------------------------------------------------------- disconnectWatcher

  const MARKER := "waiting for disconnect"
  const CARRY: nat := 64

  class Killer {
    var done: bool     // sync.Once
    var kills: nat

    constructor ()
      ensures !done && kills == 0
    {
      done, kills := false, 0;
    }

    /** killDFU: the body runs on the first call only. */
    method Kill()
      modifies this
      ensures done && kills == if old(done) then old(kills) else old(kills) + 1
    {
      if !done {
        done := true;
        kills := kills + 1;
      }
    }
  }

  class DisconnectWatcher {
    var fired: bool
    var partial: string
    var calls: nat                 // how often onDisconnect was started
    const onDisconnect: Killer
    ghost var seen: string         // everything the inner writer accepted so far

    ghost predicate Valid()
      reads this
    {
      && (fired <==> Contains(seen, MARKER))
      && (!fired ==> partial == LastN(seen, CARRY))
      && calls == if fired then 1 else 0
    }

    constructor (onDisconnect: Killer)
      ensures Valid() && seen == "" && !fired && this.onDisconnect == onDisconnect
    {
      fired, partial, calls, this.onDisconnect, seen := false, "", 0, onDisconnect, "";
    }

    /** n is how much of p the inner writer accepts. The callback runs exactly when this write
        completes the first occurrence of the marker. */
    method Write(p: string, n: nat) returns (r: nat)
      requires Valid() && n <= |p|
      modifies this, onDisconnect
      ensures Valid() && seen == old(seen) + p[..n] && r == n
      ensures calls == old(calls) + (if Contains(seen, MARKER) && !Contains(old(seen), MARKER) then 1 else 0)
      ensures calls == old(calls) ==>
        onDisconnect.done == old(onDisconnect.done) && onDisconnect.kills == old(onDisconnect.kills)
      ensures calls != old(calls) ==>
        && onDisconnect.done
        && onDisconnect.kills == old(onDisconnect.kills) + (if old(onDisconnect.done) then 0 else 1)
    {
      r := n;
      if fired {
        ContainsGrows(seen, p[..n], MARKER);
      } else {
        CarrySuffices(seen, p[..n], MARKER, CARRY);
        LastNConcat(seen, p[..n], CARRY);
        var chunk := partial + p[..n];
        if Contains(chunk, MARKER) {
          fired := true;
          calls := calls + 1;
          onDisconnect.Kill();
        }
        if |chunk| > CARRY {
          partial := chunk[|chunk|-CARRY..];
        } else {
          partial := chunk;
        }
      }
      seen := seen + p[..n];
    }

    /** Any sequence of complete writes. */
    method WriteAll(chunks: seq<string>)
      requires Valid() && (fired ==> onDisconnect.done) && onDisconnect.kills == if onDisconnect.done then 1 else 0
      modifies this, onDisconnect
      ensures Valid() && seen == old(seen) + Concat(chunks) && (fired ==> onDisconnect.done)
      ensures onDisconnect.kills == if onDisconnect.done then 1 else 0
      ensures onDisconnect.done <==> old(onDisconnect.done) || fired
      ensures old(fired) ==> fired
    {
      var i := 0;
      assert old(seen) + "" == old(seen) && chunks[..0] == [];
      while i < |chunks|
        invariant 0 <= i <= |chunks|
        invariant Valid() && seen == old(seen) + Concat(chunks[..i]) && (fired ==> onDisconnect.done)
        invariant onDisconnect.kills == if onDisconnect.done then 1 else 0
        invariant onDisconnect.done <==> old(onDisconnect.done) || fired
        invariant old(fired) ==> fired
      {
        assert chunks[..i+1][..i] == chunks[..i];
        assert chunks[i][..|chunks[i]|] == chunks[i];
        var _ := Write(chunks[i], |chunks[i]|);
        assert seen == old(seen) + Concat(chunks[..i+1]);
        i := i + 1;
      }
      assert chunks[..i] == chunks;
    }
  }

  // ---------------------------------------------------------------- runProvisionSteps

  datatype Outcome = Completed | FailedAt(step: nat) | Aborted

  /** The answers of the outside world, in the order they are asked for. */
  datatype Answers = Answers(
    vmNew: bool, fwPrepare: bool, fwKernelcache: bool, fwPatch: bool, launchDFU: bool,
    bootOutput: seq<string>,                 // what DFU VM and CLI write before the restore starts
    cancelledInWait: bool,
    probes: seq<bool>, cancelledAfterProbe: seq<bool>,
    restoreOutput: seq<string>, restore: bool,
    cfwInstall: bool, templateTrim: bool, templateSetup: bool, setupOutput: string)

  const TIMED_OUT := "vphoned did not answer"
  const ATTEMPTS: nat := 3

  /** The attempt loop is left by cancellation: probes failed so far and a cancel came in the pause. */
  predicate CancelledProbing(a: Answers)
    requires |a.probes| == |a.cancelledAfterProbe| == ATTEMPTS
  {
    || (!a.probes[0] && a.cancelledAfterProbe[0])
    || (!a.probes[0] && !a.probes[1] && a.cancelledAfterProbe[1])
  }

  /** The watched output up to the end of the restore. */
  function Watched(a: Answers): string { Concat(a.bootOutput) + Concat(a.restoreOutput) }

  /** The restore counts as done: it succeeded, or the marker had been seen by then. */
  predicate Restored(a: Answers) { a.restore || Contains(Watched(a), MARKER) }

  predicate SetUp(a: Answers) { a.templateSetup || Contains(a.setupOutput, TIMED_OUT) }

  /** Up to three probes; their failure is not fatal, a cancellation between them is. */
  method Probe(a: Answers) returns (cancelled: bool)
    requires |a.probes| == |a.cancelledAfterProbe| == ATTEMPTS
    ensures cancelled == CancelledProbing(a)
  {
    var attempt := 1;
    while attempt <= ATTEMPTS
      invariant 1 <= attempt <= ATTEMPTS + 1
      invariant forall k :: 0 <= k < attempt - 1 ==> !a.probes[k] && (k < ATTEMPTS - 1 ==> !a.cancelledAfterProbe[k])
    {
      if a.probes[attempt-1] { return false; }
      if attempt < ATTEMPTS {
        if a.cancelledAfterProbe[attempt-1] { return true; }
      }
      attempt := attempt + 1;
    }
    return false;
  }

  /** Every mandatory step up to the restore succeeds and no wait is cancelled. */
  predicate ReachesRestore(a: Answers)
    requires |a.probes| == |a.cancelledAfterProbe| == ATTEMPTS
  {
    && a.vmNew && a.fwPrepare && a.fwKernelcache && a.fwPatch && a.launchDFU
    && !a.cancelledInWait && !CancelledProbing(a)
  }

  predicate Completes(a: Answers)
    requires |a.probes| == |a.cancelledAfterProbe| == ATTEMPTS
  {
    ReachesRestore(a) && Restored(a) && a.cfwInstall && a.templateTrim && SetUp(a)
  }

  /** The pipeline completes exactly when every mandatory step succeeds, the waits are not cancelled,
      the restore succeeded or printed the marker (whatever the chunking), and the setup succeeded or
      only timed out; DFU is killed at most once, and exactly once if the restore step is passed. */
  method RunProvisionSteps(a: Answers) returns (r: Outcome, kills: nat)
    requires |a.probes| == |a.cancelledAfterProbe| == ATTEMPTS
    ensures r == Completed <==> Completes(a)
    ensures r == FailedAt(7) <==> ReachesRestore(a) && !Restored(a)
    ensures r == Aborted ==> a.cancelledInWait || CancelledProbing(a)
    ensures kills <= 1
    ensures r == Completed || (r.FailedAt? && r.step > 7) ==> kills == 1
    ensures r == FailedAt(7) || (r.FailedAt? && r.step <= 5) ==> kills == 0
  {
    kills := 0;
    if !a.vmNew { return FailedAt(1), 0; }
    if !a.fwPrepare { return FailedAt(2), 0; }
    if !a.fwKernelcache { return FailedAt(3), 0; }
    if !a.fwPatch { return FailedAt(4), 0; }
    var killDFU := new Killer();
    var watchedOut := new DisconnectWatcher(killDFU);
    if !a.launchDFU { return FailedAt(5), killDFU.kills; }
    watchedOut.WriteAll(a.bootOutput);
    if a.cancelledInWait { return Aborted, killDFU.kills; }
    var cancelled := Probe(a);
    if cancelled { return Aborted, killDFU.kills; }
    watchedOut.WriteAll(a.restoreOutput);
    assert watchedOut.seen == Watched(a);
    if !a.restore {
      if !watchedOut.fired { return FailedAt(7), killDFU.kills; }
    }
    killDFU.Kill();
    kills := killDFU.kills;
    if !a.cfwInstall { return FailedAt(9), kills; }
    if !a.templateTrim { return FailedAt(10), kills; }
    if !a.templateSetup {
      if Contains(a.setupOutput, TIMED_OUT) { return Completed, kills; }
      return FailedAt(10), kills;
    }
    r := Completed;
  }

  /** provision: the VM ends STOPPED exactly when there is a job queue and a launchpad, the job is
      accepted and not cancelled while pending, and the pipeline completes; else ERROR. */
  method FinishProvision(queue: bool, launchpad: bool, accepted: bool, cancelledPending: bool, a: Answers)
    returns (status: Status)
    requires |a.probes| == |a.cancelledAfterProbe| == ATTEMPTS
    ensures status == if queue && launchpad && accepted && !cancelledPending && Completes(a) then Stopped else Errored
  {
    if !queue { return Errored; }
    if !launchpad { return Errored; }
    if !accepted { return Errored; }
    if cancelledPending { return Errored; }
    var r, _ := RunProvisionSteps(a);
    if r != Completed { return Errored; }
    return Stopped;
  }
}
