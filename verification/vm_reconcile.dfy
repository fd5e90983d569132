/**
 Startup reconciliation: internal/vm/reconcile.go. The answers of launchpad and of the VMs' APIs are
 a fixed World; the loop over the rows is a method proved against a per-row function, and what the
 function guarantees is proved for all rows and all worlds.
 */
module VmReconcile {
  import opened Options
  import opened Ports
  import opened VmStatus

  datatype VM = VM(status: Status, message: string, base: int, apiPort: int, apiToken: string, launchpadName: string) {
    predicate Upstream() { apiToken != "" }
  }

  datatype Runtime = Runtime(apiPort: int, apiToken: string)

  /** `running`: the names launchpad lists as running, empty without launchpad or when listing fails.
      `healthy`: which port answers a health check for a token. `actualPort`: FindVMAPIPort. */
  datatype World = World(launchpad: bool, running: set<string>, healthy: set<(int, string)>,
                         actualPort: map<string, int>)

  const RESET := "legacy VM reset on server restart"
  const INTERRUPTED := "provisioning interrupted by server restart"

  function Discover(v: VM, w: World): int {
    if v.launchpadName in w.actualPort then w.actualPort[v.launchpadName] else 0
  }

  /** The port at which a VM that launchpad lists as running can be reconnected. */
  function Reconnect(v: VM, w: World): Option<int> {
    if v.launchpadName !in w.running then None
    else if v.apiPort > 0 && (v.apiPort, v.apiToken) in w.healthy then Some(v.apiPort)
    else if w.launchpad && Discover(v, w) > 0 && Discover(v, w) != v.apiPort
            && (Discover(v, w), v.apiToken) in w.healthy then Some(Discover(v, w))
    else None
  }

  function Reconciled(v: VM, w: World): VM {
    if !v.Upstream() then
      if v.status.Live() || v.status.Deleting? then v.(status := Stopped, message := RESET)
      else if v.status.Provisioning() then v.(status := Errored, message := INTERRUPTED)
      else v
    else if v.status.Live() then
      match Reconnect(v, w)
      case Some(p) => v.(status := Running, message := "", apiPort := p)
      case None => v.(status := Stopped, message := "", apiPort := 0)
    else if v.status.Provisioning() then v.(status := Errored, message := INTERRUPTED)
    else v
  }

  function ReconciledRows(rows: map<nat, VM>, w: World): map<nat, VM> {
    map id | id in rows :: Reconciled(rows[id], w)
  }

  /** The runtime entries reconciliation creates. */
  function Reconnected(rows: map<nat, VM>, w: World): map<nat, Runtime> {
    map id | id in rows && rows[id].Upstream() && rows[id].status.Live() && Reconnect(rows[id], w).Some?
      :: Runtime(Reconnect(rows[id], w).value, rows[id].apiToken)
  }

  function Bases(rows: map<nat, VM>): set<int> {
    BasesOf(rows, rows.Keys)
  }

  class Manager {
    var rows: map<nat, VM>
    var runtimes: map<nat, Runtime>
    const ports: PortAllocator

    constructor (rows: map<nat, VM>, ports: PortAllocator)
      ensures this.rows == rows && runtimes == map[] && this.ports == ports
    {
      this.rows, runtimes, this.ports := rows, map[], ports;
    }

    method UpdateStatus(id: nat, status: Status, message: string)
      modifies this`rows
      ensures rows == if id in old(rows)
                      then old(rows)[id := old(rows)[id].(status := status, message := message)] else old(rows)
    {
      if id in rows { rows := rows[id := rows[id].(status := status, message := message)]; }
    }

    method SetAPIPort(id: nat, port: int)
      modifies this`rows
      ensures rows == if id in old(rows) then old(rows)[id := old(rows)[id].(apiPort := port)] else old(rows)
    {
      if id in rows { rows := rows[id := rows[id].(apiPort := port)]; }
    }

    /** One turn of the loop, for the row v read at the start. */
    method ReconcileOne(id: nat, v: VM, w: World)
      requires id in rows && rows[id] == v && id !in runtimes
      modifies this`rows, this`runtimes, ports
      ensures rows == old(rows)[id := Reconciled(v, w)]
      ensures runtimes == if v.Upstream() && v.status.Live() && Reconnect(v, w).Some?
                          then old(runtimes)[id := Runtime(Reconnect(v, w).value, v.apiToken)] else old(runtimes)
      ensures ports.used == old(ports.used) + if v.base > 0 then {v.base} else {}
    {
      if v.base > 0 { ports.Reserve(v.base); }
      if !v.Upstream() {
        if v.status.Live() || v.status.Deleting? {
          UpdateStatus(id, Stopped, RESET);
        } else if v.status.Provisioning() {
          UpdateStatus(id, Errored, INTERRUPTED);
        }
        return;
      }
      if v.status.Live() {
        if v.launchpadName in w.running {
          var apiPort := v.apiPort;
          var connected := false;
          if apiPort > 0 { connected := (apiPort, v.apiToken) in w.healthy; }
          if !connected && w.launchpad {
            var discovered := Discover(v, w);
            if discovered > 0 && discovered != apiPort {
              if (discovered, v.apiToken) in w.healthy {
                apiPort := discovered;
                SetAPIPort(id, apiPort);
                connected := true;
              }
            }
          }
          if connected {
            runtimes := runtimes[id := Runtime(apiPort, v.apiToken)];
            UpdateStatus(id, Running, "");
            return;
          }
        }
        UpdateStatus(id, Stopped, "");
        SetAPIPort(id, 0);
      } else if v.status.Provisioning() {
        UpdateStatus(id, Errored, INTERRUPTED);
      }
    }

    /** reconcile, on a fresh manager; the rows are visited in whatever order they are listed. */
    method Reconcile(w: World)
      requires runtimes == map[]
      modifies this`rows, this`runtimes, ports
      ensures rows == ReconciledRows(old(rows), w)
      ensures runtimes == Reconnected(old(rows), w)
      ensures ports.used == old(ports.used) + Bases(old(rows))
    {
      var vms := rows;
      var todo := vms.Keys;
      HalfWayStart(vms, w, ports.used);
      while todo != {}
        invariant todo <= vms.Keys && HalfWay(vms, w, todo, rows, runtimes, old(ports.used), ports.used)
        decreases |todo|
      {
        var id :| id in todo;
        HalfWayStep(vms, w, todo, rows, runtimes, old(ports.used), ports.used, id);
        ReconcileOne(id, vms[id], w);
        todo := todo - {id};
      }
      HalfWayDone(vms, w, rows, runtimes, old(ports.used), ports.used);
    }
  }

  /** The rows not in todo have been reconciled. */
  ghost predicate HalfRows(vms: map<nat, VM>, w: World, todo: set<nat>, rows: map<nat, VM>,
                           runtimes: map<nat, Runtime>) {
    && rows.Keys == vms.Keys
    && (forall id :: id in vms ==> rows[id] == if id in todo then vms[id] else ReconciledRows(vms, w)[id])
    && (forall id :: id in runtimes <==> id in Reconnected(vms, w) && id !in todo)
    && (forall id :: id in runtimes ==> runtimes[id] == Reconnected(vms, w)[id])
  }

  /** And their bases reserved. */
  ghost predicate HalfWay(vms: map<nat, VM>, w: World, todo: set<nat>, rows: map<nat, VM>,
                          runtimes: map<nat, Runtime>, used0: set<int>, used: set<int>) {
    HalfRows(vms, w, todo, rows, runtimes) && used == used0 + BasesOf(vms, vms.Keys - todo)
  }

  lemma HalfWayStart(vms: map<nat, VM>, w: World, used: set<int>)
    ensures HalfWay(vms, w, vms.Keys, vms, map[], used, used)
  {
  }

  lemma HalfRowsStep(vms: map<nat, VM>, w: World, todo: set<nat>, rows: map<nat, VM>,
                     runtimes: map<nat, Runtime>, id: nat)
    requires HalfRows(vms, w, todo, rows, runtimes) && id in todo && todo <= vms.Keys
    ensures id in rows && rows[id] == vms[id] && id !in runtimes
    ensures HalfRows(vms, w, todo - {id}, rows[id := Reconciled(vms[id], w)],
                     if vms[id].Upstream() && vms[id].status.Live() && Reconnect(vms[id], w).Some?
                     then runtimes[id := Runtime(Reconnect(vms[id], w).value, vms[id].apiToken)] else runtimes)
  {
  }

  lemma HalfWayStep(vms: map<nat, VM>, w: World, todo: set<nat>, rows: map<nat, VM>,
                    runtimes: map<nat, Runtime>, used0: set<int>, used: set<int>, id: nat)
    requires HalfWay(vms, w, todo, rows, runtimes, used0, used) && id in todo && todo <= vms.Keys
    ensures id in rows && rows[id] == vms[id] && id !in runtimes
    ensures HalfWay(vms, w, todo - {id}, rows[id := Reconciled(vms[id], w)],
                    if vms[id].Upstream() && vms[id].status.Live() && Reconnect(vms[id], w).Some?
                    then runtimes[id := Runtime(Reconnect(vms[id], w).value, vms[id].apiToken)] else runtimes,
                    used0, used + if vms[id].base > 0 then {vms[id].base} else {})
  {
    HalfRowsStep(vms, w, todo, rows, runtimes, id);
    BasesOneMore(vms, vms.Keys - todo, id);
    assert vms.Keys - (todo - {id}) == (vms.Keys - todo) + {id};
  }

  lemma HalfWayDone(vms: map<nat, VM>, w: World, rows: map<nat, VM>,
                    runtimes: map<nat, Runtime>, used0: set<int>, used: set<int>)
    requires HalfWay(vms, w, {}, rows, runtimes, used0, used)
    ensures rows == ReconciledRows(vms, w) && runtimes == Reconnected(vms, w) && used == used0 + Bases(vms)
  {
    assert vms.Keys - {} == vms.Keys;
  }

  /** The positive bases of some of the rows. */
  function BasesOf(rows: map<nat, VM>, ids: set<nat>): set<int> {
    set id | id in ids && id in rows && rows[id].base > 0 :: rows[id].base
  }

  lemma BasesOneMore(rows: map<nat, VM>, ids: set<nat>, id: nat)
    requires id in rows
    ensures BasesOf(rows, ids + {id}) == BasesOf(rows, ids) + if rows[id].base > 0 then {rows[id].base} else {}
  {
  }

  // ---------------------------------------------------------------- what it guarantees

  /** After reconciliation: the only transient status left is an upstream VM's DELETING, and then its
      row is as the crash left it; RUNNING is exactly the reconnectable upstream VMs; a reset upstream
      row has no API port; rows that needed nothing are untouched. */
  lemma ReconciledStatus(rows: map<nat, VM>, w: World, id: nat)
    requires id in rows
    ensures var v, r := rows[id], ReconciledRows(rows, w)[id];
      && (r.status == Stopped || r.status == Errored || r.status == Running || r.status == Deleting)
      && (r.status == Deleting <==> v.Upstream() && v.status == Deleting)
      && (r.status == Deleting ==> r == v)
      && (r.status == Running <==> v.Upstream() && v.status.Live() && Reconnect(v, w).Some?)
      && (v.Upstream() && v.status.Live() && r.status != Running ==> r.status == Stopped && r.apiPort == 0)
      && (v.status == Stopped || v.status == Errored ==> r == v)
      && r.base == v.base && r.apiToken == v.apiToken && r.launchpadName == v.launchpadName
  {
  }

  /** The runtimes map has an entry for exactly the RUNNING rows, with the port and the token that
      the row itself now holds, and the port is one that answered. */
  lemma RuntimesMatchRows(rows: map<nat, VM>, w: World)
    ensures forall id :: id in Reconnected(rows, w) <==> id in rows && ReconciledRows(rows, w)[id].status == Running
    ensures forall id :: id in Reconnected(rows, w) ==>
      var r := ReconciledRows(rows, w)[id];
      && Reconnected(rows, w)[id] == Runtime(r.apiPort, r.apiToken)
      && r.apiPort > 0 && (r.apiPort, r.apiToken) in w.healthy && r.launchpadName in w.running
  {
  }

  /** A second reconciliation against the same answers changes no row and reconnects the same VMs. */
  lemma ReconcileTwice(rows: map<nat, VM>, w: World)
    ensures ReconciledRows(ReconciledRows(rows, w), w) == ReconciledRows(rows, w)
    ensures Reconnected(ReconciledRows(rows, w), w) == Reconnected(rows, w)
    ensures Bases(ReconciledRows(rows, w)) == Bases(rows)
  {
    var once := ReconciledRows(rows, w);
    forall id | id in rows ensures Reconciled(once[id], w) == once[id] { ReconciledAgain(rows[id], w); }
    forall id | id in rows
      ensures id in Reconnected(once, w) <==> id in Reconnected(rows, w)
      ensures id in Reconnected(rows, w) ==> Reconnected(once, w)[id] == Reconnected(rows, w)[id]
    {
      ReconciledAgain(rows[id], w);
    }
    assert forall id :: id in rows ==> once[id].base == rows[id].base;
    forall b ensures b in Bases(once) <==> b in Bases(rows) {
      if b in Bases(rows) {
        var id :| id in rows && rows[id].base > 0 && rows[id].base == b;
        assert once[id].base == b;
      }
    }
  }

  lemma ReconciledAgain(v: VM, w: World)
    ensures var r := Reconciled(v, w);
      && Reconciled(r, w) == r
      && (r.status == Running ==> Reconnect(r, w) == Some(r.apiPort) && Reconnect(v, w) == Some(r.apiPort))
      && (r.Upstream() && r.status.Live() <==> r.status == Running)
  {
  }

  /** An upstream row left DELETING by a crash stays so through any number of restarts. */
  lemma {:induction false} DeletingIsNeverRecovered(rows: map<nat, VM>, worlds: seq<World>, id: nat)
    requires id in rows && rows[id].Upstream() && rows[id].status == Deleting
    ensures var after := Restarts(rows, worlds); id in after && after[id] == rows[id]
  {
    if worlds == [] {
    } else {
      DeletingIsNeverRecovered(ReconciledRows(rows, worlds[0]), worlds[1..], id);
    }
  }

  function Restarts(rows: map<nat, VM>, worlds: seq<World>): map<nat, VM> {
    if worlds == [] then rows else Restarts(ReconciledRows(rows, worlds[0]), worlds[1..])
  }
}
