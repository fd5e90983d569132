/** The three views of a startup reconciliation agree: rows and runtimes, the cap, the port ledger. */
module VmRestart {
  import VmReconcile
  import VmAdmission
  import PortLedger

  /** What the admission model keeps of a row. */
  function AdmissionRow(v: VmReconcile.VM): VmAdmission.Row {
    VmAdmission.Has(v.status, v.Upstream())
  }

  /** The rows of a listing, and whether each VM can be reconnected. */
  function AdmissionRows(vms: seq<VmReconcile.VM>): seq<VmAdmission.Row> {
    if vms == [] then [] else [AdmissionRow(vms[0])] + AdmissionRows(vms[1..])
  }

  function Reachable(vms: seq<VmReconcile.VM>, w: VmReconcile.World): (r: seq<bool>)
    ensures |r| == |AdmissionRows(vms)|
  {
    if vms == [] then [] else [VmReconcile.Reconnect(vms[0], w).Some?] + Reachable(vms[1..], w)
  }

  function ReconciledAll(vms: seq<VmReconcile.VM>, w: VmReconcile.World): seq<VmReconcile.VM> {
    if vms == [] then [] else [VmReconcile.Reconciled(vms[0], w)] + ReconciledAll(vms[1..], w)
  }

  /** Reconciling rows and then looking at them as the cap does is the cap's own restart step. */
  lemma {:induction false} SameStatuses(vms: seq<VmReconcile.VM>, w: VmReconcile.World)
    ensures AdmissionRows(ReconciledAll(vms, w)) == VmAdmission.ReconcileRows(AdmissionRows(vms), Reachable(vms, w))
  {
    if vms == [] {
    } else {
      SameStatuses(vms[1..], w);
      assert ReconciledAll(vms, w)[1..] == ReconciledAll(vms[1..], w);
      assert AdmissionRows(vms)[1..] == AdmissionRows(vms[1..]);
      assert Reachable(vms, w)[1..] == Reachable(vms[1..], w);
    }
  }

  /** So a restart never raises the number of VMs that count towards the cap. */
  lemma RestartKeepsCount(vms: seq<VmReconcile.VM>, w: VmReconcile.World)
    ensures VmAdmission.Count(AdmissionRows(ReconciledAll(vms, w))) <= VmAdmission.Count(AdmissionRows(vms))
  {
    SameStatuses(vms, w);
    VmAdmission.CountReconcile(AdmissionRows(vms), Reachable(vms, w));
  }

  function Ledger(rows: map<nat, VmReconcile.VM>): map<nat, int> {
    map id | id in rows :: rows[id].base
  }

  /** What reconciliation reserves is what the ledger's restart step has in use, before and after the
      rows are rewritten. */
  lemma SameBases(rows: map<nat, VmReconcile.VM>, w: VmReconcile.World)
    ensures VmReconcile.Bases(rows) == PortLedger.Reserved(Ledger(rows))
    ensures Ledger(VmReconcile.ReconciledRows(rows, w)) == Ledger(rows)
  {
    var l := Ledger(rows);
    forall b ensures b in VmReconcile.Bases(rows) <==> b in PortLedger.Reserved(l) {
      if b in VmReconcile.Bases(rows) {
        var id :| id in rows && rows[id].base > 0 && rows[id].base == b;
        assert id in l && l[id] == b;
      }
      if b in PortLedger.Reserved(l) {
        var id :| id in l && l[id] > 0 && l[id] == b;
        assert id in rows.Keys && rows[id].base == b;
      }
    }
  }
}
