/**
 The routing cache of internal/cluster: a registry of worker nodes and, per node, the VM list its last
 completed check brought back.

 Register, Delete, and the statements of a node check are separate steps, in any interleaving and
 with any number of checks in flight; a sweep starts one check for each row. A check works on the row
 it captured when it started. `created` is history: the ids ever registered.
 */
module Cluster {
  import opened Options

  /** A decoded JSON value; only strings matter here. */
  datatype Value = Str(s: string) | Other(n: int)
  type Vm = map<string, Value>

  datatype Node = Node(id: string, name: string, address: string, online: bool)

  datatype Check = Probing(node: Node) | Fetching(node: Node) | Failing(node: Node) | Done

  datatype State = State(registry: map<string, Node>, cache: map<string, seq<Vm>>, checks: seq<Check>,
                         created: set<string>)

  datatype Label =
    | Register(node: Node)                             // the control link is proven; the row is inserted
    | Delete(id: string)
    | StartCheck(id: string)                           // sweep hands a row to checkNode
    | HealthUp(check: nat)                             // probe answered: row ONLINE
    | HealthDown(check: nat)                           // probe failed: row OFFLINE
    | Publish(check: nat, answer: Option<seq<Vm>>)     // setVMCache; None when no list came back
    | Restart

  predicate Enabled(s: State, l: Label) {
    match l
    case Register(n) => n.id != "" && n.id !in s.created
                        && forall k :: k in s.registry ==> s.registry[k].name != n.name
    case Delete(_) => true
    case StartCheck(id) => id in s.registry
    case HealthUp(i) => i < |s.checks| && s.checks[i].Probing?
    case HealthDown(i) => i < |s.checks| && s.checks[i].Probing?
    case Publish(i, a) => i < |s.checks| && (s.checks[i].Fetching? || (s.checks[i].Failing? && a.None?))
    case Restart => true
  }

  function UpdateHealth(registry: map<string, Node>, id: string, online: bool): map<string, Node> {
    if id in registry then registry[id := registry[id].(online := online)] else registry
  }

  function SetCache(cache: map<string, seq<Vm>>, id: string, vms: Option<seq<Vm>>): map<string, seq<Vm>> {
    match vms
    case None => cache - {id}
    case Some(l) => cache[id := l]
  }

  function Apply(s: State, l: Label): State
    requires Enabled(s, l)
  {
    match l
    case Register(n) => s.(registry := s.registry[n.id := n.(online := true)], created := s.created + {n.id})
    case Delete(id) => s.(registry := s.registry - {id})
    case StartCheck(id) => s.(checks := s.checks + [Probing(s.registry[id])])
    case HealthUp(i) =>
      var n := s.checks[i].node;
      s.(registry := UpdateHealth(s.registry, n.id, true), checks := s.checks[i := Fetching(n)])
    case HealthDown(i) =>
      var n := s.checks[i].node;
      s.(registry := UpdateHealth(s.registry, n.id, false), checks := s.checks[i := Failing(n)])
    case Publish(i, a) =>
      var id := s.checks[i].node.id;
      s.(cache := SetCache(s.cache, id, a), checks := s.checks[i := Done])
    case Restart => s.(cache := map[], checks := [])
  }

  function Init(): State { State(map[], map[], [], {}) }

  /** s' is reached from s by these steps. */
  predicate Run(s: State, ls: seq<Label>, s': State)
    decreases ls
  {
    if ls == [] then s == s' else Enabled(s, ls[0]) && Run(Apply(s, ls[0]), ls[1..], s')
  }

  // ---------------------------------------------------------------- the invariant

  /** The id a record carries; a missing or non-string id reads as "". */
  function IdOf(vm: Vm): string {
    if "id" in vm && vm["id"].Str? then vm["id"].s else ""
  }

  predicate Lists(vms: seq<Vm>, vmId: string) {
    exists i | 0 <= i < |vms| :: IdOf(vms[i]) == vmId
  }

  /** The nodes whose cache entry lists the id. */
  function Listers(cache: map<string, seq<Vm>>, vmId: string): set<string> {
    set id | id in cache && Lists(cache[id], vmId)
  }

  predicate IdsKnown(s: State) {
    && s.registry.Keys <= s.created && s.cache.Keys <= s.created && "" !in s.created
    && (forall id :: id in s.registry ==> s.registry[id].id == id)
    && (forall i :: 0 <= i < |s.checks| && !s.checks[i].Done? ==> s.checks[i].node.id in s.created)
  }

  predicate Inv(s: State) { IdsKnown(s) }

  lemma StepKeepsInv(s: State, l: Label)
    requires Inv(s) && Enabled(s, l)
    ensures Inv(Apply(s, l))
  {
    var s' := Apply(s, l);
    if l.StartCheck? {
      assert s.registry[l.id].id in s.created;
    } else if l.HealthUp? || l.HealthDown? || l.Publish? {
      assert forall i :: 0 <= i < |s'.checks| && i != l.check ==> s'.checks[i] == s.checks[i];
    }
  }

  lemma {:induction false} RunKeepsInv(s: State, ls: seq<Label>, s': State)
    requires Inv(s) && Run(s, ls, s')
    ensures Inv(s')
    decreases ls
  {
    if ls == [] {
    } else {
      StepKeepsInv(s, ls[0]);
      RunKeepsInv(Apply(s, ls[0]), ls[1..], s');
    }
  }

  // ---------------------------------------------------------------- the last completed check

  /** What the last completed check of a node brought back, read off the steps taken: None when no
      check of it completed since the process started, Some(None) when the last one brought no list.
      `acc` is the answer before these steps. */
  function LastCheck(s: State, ls: seq<Label>, id: string, acc: Option<Option<seq<Vm>>>): Option<Option<seq<Vm>>>
    decreases ls
  {
    if ls == [] || !Enabled(s, ls[0]) then acc
    else LastCheck(Apply(s, ls[0]), ls[1..], id,
                   match ls[0]
                   case Publish(i, a) => if s.checks[i].node.id == id then Some(a) else acc
                   case Restart => None
                   case _ => acc)
  }

  /** The cache has an entry for the node exactly when its last completed check brought a list, and
      then that list. */
  predicate CacheSays(s: State, id: string, last: Option<Option<seq<Vm>>>) {
    && (id in s.cache <==> last.Some? && last.value.Some?)
    && (id in s.cache ==> last == Some(Some(s.cache[id])))
  }

  lemma {:induction false} CacheFollows(s: State, ls: seq<Label>, s': State, id: string, acc: Option<Option<seq<Vm>>>)
    requires Run(s, ls, s') && CacheSays(s, id, acc)
    ensures CacheSays(s', id, LastCheck(s, ls, id, acc))
    decreases ls
  {
    if ls == [] {
    } else {
      var acc' := match ls[0]
        case Publish(i, a) => if s.checks[i].node.id == id then Some(a) else acc
        case Restart => None
        case _ => acc;
      CacheFollows(Apply(s, ls[0]), ls[1..], s', id, acc');
    }
  }

  lemma CacheIsLastChecks(ls: seq<Label>, s: State, id: string)
    requires Run(Init(), ls, s)
    ensures CacheSays(s, id, LastCheck(Init(), ls, id, None))
  {
    CacheFollows(Init(), ls, s, id, None);
  }

  /** The last completed check of the node listed the VM. */
  predicate LastListed(ls: seq<Label>, id: string, vmId: string) {
    match LastCheck(Init(), ls, id, None)
    case Some(Some(vms)) => Lists(vms, vmId)
    case _ => false
  }

  // ---------------------------------------------------------------- routing

  /** r is an answer NodeForVM may give: the owner is any node listing the id, whichever the map
      iteration meets first, and the answer is that node's row if it still has one. */
  ghost predicate Routed(s: State, vmId: string, r: Option<Node>) {
    if Listers(s.cache, vmId) == {} then r == None
    else exists owner :: owner in Listers(s.cache, vmId)
           && r == (if owner in s.registry then Some(s.registry[owner]) else None)
  }

  /** After any history, an answer is a registered node whose most recent completed check listed the id. */
  lemma RoutesToLister(ls: seq<Label>, s: State, vmId: string, n: Node)
    requires Run(Init(), ls, s) && Routed(s, vmId, Some(n))
    ensures n.id in s.registry && s.registry[n.id] == n
    ensures LastListed(ls, n.id, vmId)
  {
    RunKeepsInv(Init(), ls, s);
    CacheIsLastChecks(ls, s, n.id);
  }

  ghost predicate AlwaysRouted(s: State, vmId: string) {
    !Routed(s, vmId, None)
  }

  /** Routing is certain to succeed exactly when some entry lists the id and every entry that lists it
      belongs to a registered node. */
  lemma CertainExactly(s: State, vmId: string)
    ensures AlwaysRouted(s, vmId) <==>
      Listers(s.cache, vmId) != {} && Listers(s.cache, vmId) <= s.registry.Keys
  {
    if Listers(s.cache, vmId) != {} && !(Listers(s.cache, vmId) <= s.registry.Keys) {
      var owner :| owner in Listers(s.cache, vmId) && owner !in s.registry;
      assert Routed(s, vmId, None);
    }
  }

  /** A registered node that alone lists the id is always found. */
  lemma SoleListerIsFound(s: State, vmId: string, id: string, r: Option<Node>)
    requires id in s.registry && Listers(s.cache, vmId) == {id} && Routed(s, vmId, r)
    ensures r == Some(s.registry[id])
  {
    assert id in Listers(s.cache, vmId);
  }

  predicate NoDelete(ls: seq<Label>) { forall i :: 0 <= i < |ls| ==> !ls[i].Delete? }

  lemma {:induction false} NoDeleteKeepsRows(s: State, ls: seq<Label>, s': State)
    requires Inv(s) && Run(s, ls, s') && NoDelete(ls) && s.created <= s.registry.Keys
    ensures s'.created <= s'.registry.Keys
    decreases ls
  {
    if ls == [] {
    } else {
      StepKeepsInv(s, ls[0]);
      forall i | 0 <= i < |ls[1..]| ensures !ls[1..][i].Delete? { assert ls[1..][i] == ls[i+1]; }
      assert !ls[0].Delete?;
      NoDeleteKeepsRows(Apply(s, ls[0]), ls[1..], s');
    }
  }

  /** As long as no node is deleted, an id is routed with certainty exactly when the last completed
      check of some node listed it. */
  lemma WithoutDeletesRoutingIsComplete(ls: seq<Label>, s: State, vmId: string)
    requires Run(Init(), ls, s) && NoDelete(ls)
    ensures AlwaysRouted(s, vmId) <==>
      exists id :: LastListed(ls, id, vmId)
  {
    RunKeepsInv(Init(), ls, s);
    NoDeleteKeepsRows(Init(), ls, s);
    CertainExactly(s, vmId);
    assert s.cache.Keys <= s.registry.Keys;
    if id :| LastListed(ls, id, vmId) {
      CacheIsLastChecks(ls, s, id);
      assert id in Listers(s.cache, vmId);
    }
    if owner :| owner in Listers(s.cache, vmId) {
      CacheIsLastChecks(ls, s, owner);
      assert LastListed(ls, owner, vmId);
    }
  }

  // ---------------------------------------------------------------- stale owners

  predicate NoRestart(ls: seq<Label>) { forall i :: 0 <= i < |ls| ==> ls[i] != Restart }

  predicate NoCheckOf(s: State, id: string) {
    forall i :: 0 <= i < |s.checks| ==> s.checks[i].Done? || s.checks[i].node.id != id
  }

  /** Once a node is deleted and none of its checks is in flight, nothing but a restart changes its
      cache entry: Delete does not purge it and no later sweep visits it. */
  lemma {:induction false} StaleEntryStays(s: State, ls: seq<Label>, s': State, id: string)
    requires Inv(s) && Run(s, ls, s') && NoRestart(ls)
    requires id in s.created && id !in s.registry && NoCheckOf(s, id)
    ensures id in s.cache <==> id in s'.cache
    ensures id in s.cache ==> s'.cache[id] == s.cache[id]
    ensures id !in s'.registry
    decreases ls
  {
    if ls == [] {
    } else {
      StepKeepsInv(s, ls[0]);
      forall i | 0 <= i < |ls[1..]| ensures ls[1..][i] != Restart { assert ls[1..][i] == ls[i+1]; }
      assert ls[0] != Restart;
      assert NoCheckOf(Apply(s, ls[0]), id);
      StaleEntryStays(Apply(s, ls[0]), ls[1..], s', id);
    }
  }

  /** So a VM that only the deleted node listed stays unroutable under its stale owner, and a VM the
      node shares with a live one keeps a possible answer "not found" until restart. */
  lemma StaleOwnerForever(s: State, ls: seq<Label>, s': State, id: string, vmId: string)
    requires Inv(s) && Run(s, ls, s') && NoRestart(ls)
    requires id in s.created && id !in s.registry && NoCheckOf(s, id) && id in Listers(s.cache, vmId)
    ensures Routed(s', vmId, None) && !AlwaysRouted(s', vmId)
  {
    StaleEntryStays(s, ls, s', id);
    assert id in Listers(s'.cache, vmId);
  }

  lemma Extend(s: State, ls: seq<Label>, m: State, l: Label)
    requires Run(s, ls, m) && Enabled(m, l)
    ensures Run(s, ls + [l], Apply(m, l))
    decreases ls
  {
    if ls == [] {
      assert [l][1..] == [];
      assert ls + [l] == [l];
      assert Run(Apply(m, l), [], Apply(m, l));
    } else {
      Extend(Apply(s, ls[0]), ls[1..], m, l);
      assert (ls + [l])[1..] == ls[1..] + [l];
    }
  }

  lemma Play(ls: seq<Label>, k: nat, m: State)
    requires k < |ls| && Run(Init(), ls[..k], m) && Enabled(m, ls[k])
    ensures Run(Init(), ls[..k+1], Apply(m, ls[k]))
  {
    Extend(Init(), ls[..k], m, ls[k]);
    assert ls[..k] + [ls[k]] == ls[..k+1];
  }

  /** The machine "mini" under a node id. */
  function Host(id: string): Node { Node(id, "mini", "10.0.0.2:8088", true) }

  /** Node a is registered and checked, then deleted; the machine returns as node b and is checked. */
  function DeleteThenReadd(a: string, b: string, vms: seq<Vm>): seq<Label> {
    [Register(Host(a)), StartCheck(a), HealthUp(0), Publish(0, Some(vms)), Delete(a),
     Register(Host(b)), StartCheck(b), HealthUp(1), Publish(1, Some(vms))]
  }

  function Deleted(a: string, vms: seq<Vm>): State {
    State(map[], map[a := vms], [Done], {a})
  }

  function Readded(a: string, b: string, vms: seq<Vm>): State {
    State(map[b := Host(b)], map[a := vms], [Done, Fetching(Host(b))], {a, b})
  }

  function Checking(a: string): State { State(map[a := Host(a)], map[], [Fetching(Host(a))], {a}) }

  lemma CheckStarted(a: string, b: string, vms: seq<Vm>)
    requires a != ""
    ensures Run(Init(), DeleteThenReadd(a, b, vms)[..3], Checking(a))
  {
    var ls, n := DeleteThenReadd(a, b, vms), Host(a);
    var s1 := Checking(a).(checks := []);
    var s2 := s1.(checks := [Probing(n)]);
    Play(ls, 0, Init());
    assert Apply(Init(), ls[0]) == s1;
    Play(ls, 1, s1);
    assert Apply(s1, ls[1]) == s2;
    Play(ls, 2, s2);
    assert Apply(s2, ls[2]) == Checking(a);
  }

  lemma CheckedThenDeleted(a: string, b: string, vms: seq<Vm>)
    requires a != ""
    ensures Run(Init(), DeleteThenReadd(a, b, vms)[..5], Deleted(a, vms))
  {
    CheckStarted(a, b, vms);
    var ls := DeleteThenReadd(a, b, vms);
    var s4 := Deleted(a, vms).(registry := map[a := Host(a)]);
    Play(ls, 3, Checking(a));
    assert Apply(Checking(a), ls[3]) == s4;
    Play(ls, 4, s4);
    assert Apply(s4, ls[4]) == Deleted(a, vms);
  }

  lemma Reregistered(a: string, b: string, vms: seq<Vm>)
    requires a != "" && b != "" && a != b
    ensures Run(Init(), DeleteThenReadd(a, b, vms)[..8], Readded(a, b, vms))
  {
    CheckedThenDeleted(a, b, vms);
    var ls, n := DeleteThenReadd(a, b, vms), Host(b);
    var s6 := Deleted(a, vms).(registry := map[b := n], created := {a, b});
    var s7 := s6.(checks := [Done, Probing(n)]);
    Play(ls, 5, Deleted(a, vms));
    assert Apply(Deleted(a, vms), ls[5]) == s6;
    Play(ls, 6, s6);
    assert Apply(s6, ls[6]) == s7;
    Play(ls, 7, s7);
    assert Apply(s7, ls[7]) == Readded(a, b, vms);
  }

  /** Removing a node and registering the same machine again leaves two owners for its VMs, and the
      stale one may be picked: routing can fail although the machine is registered, online and its
      last check listed the VM. */
  lemma ReaddedNodeMayBeMissed(a: string, b: string, vms: seq<Vm>, vmId: string) returns (s: State)
    requires a != "" && b != "" && a != b && Lists(vms, vmId)
    ensures Run(Init(), DeleteThenReadd(a, b, vms), s)
    ensures b in s.registry && s.registry[b].online && LastListed(DeleteThenReadd(a, b, vms), b, vmId)
    ensures Listers(s.cache, vmId) == {a, b} && Routed(s, vmId, None)
  {
    Reregistered(a, b, vms);
    var ls := DeleteThenReadd(a, b, vms);
    Play(ls, 8, Readded(a, b, vms));
    assert ls[..9] == ls;
    s := Apply(Readded(a, b, vms), ls[8]);
    assert s.cache == map[a := vms, b := vms];
    CacheIsLastChecks(ls, s, b);
    assert a in Listers(s.cache, vmId);
  }

  // ---------------------------------------------------------------- the aggregated list

  const NO_NODE := Node("", "", "", false)

  function Lookup(registry: map<string, Node>, id: string): Node {
    if id in registry then registry[id] else NO_NODE
  }

  function Annotate(vm: Vm, id: string, n: Node): Vm {
    vm["node_id" := Str(id)]["node_name" := Str(n.name)]["node_address" := Str(n.address)]
  }

  function AnnotateAll(vms: seq<Vm>, id: string, n: Node): seq<Vm> {
    if vms == [] then [] else AnnotateAll(vms[..|vms|-1], id, n) + [Annotate(vms[|vms|-1], id, n)]
  }

  lemma {:induction false} AnnotateEach(vms: seq<Vm>, id: string, n: Node, i: nat)
    requires i < |vms|
    ensures |AnnotateAll(vms, id, n)| == |vms| && AnnotateAll(vms, id, n)[i] == Annotate(vms[i], id, n)
  {
    if |vms| <= 1 {
    } else {
      AnnotateEach(vms[..|vms|-1], id, n, if i < |vms| - 1 then i else 0);
    }
  }

  /** Every cache entry with its node's annotation. */
  function Annotated(cache: map<string, seq<Vm>>, registry: map<string, Node>): map<string, seq<Vm>> {
    map id | id in cache :: AnnotateAll(cache[id], id, Lookup(registry, id))
  }

  function Piece<T>(pieces: map<string, seq<T>>, id: string): seq<T> {
    if id in pieces then pieces[id] else []
  }

  /** The pieces one after the other in the given order. */
  function Flatten<T>(order: seq<string>, pieces: map<string, seq<T>>): seq<T> {
    if order == [] then []
    else Flatten(order[..|order|-1], pieces) + Piece(pieces, order[|order|-1])
  }

  function Without(order: seq<string>, i: nat): seq<string>
    requires i < |order|
  {
    order[..i] + order[i+1..]
  }

  lemma {:induction false} FlattenConcat<T>(a: seq<string>, b: seq<string>, pieces: map<string, seq<T>>)
    ensures Flatten(a + b, pieces) == Flatten(a, pieces) + Flatten(b, pieces)
    decreases |b|
  {
    if b == [] {
      assert a + b == a;
    } else {
      var front, last := b[..|b|-1], b[|b|-1];
      FlattenConcat(a, front, pieces);
      assert (a + b)[..|a + b|-1] == a + front && (a + b)[|a + b|-1] == last;
      assert Flatten(a + b, pieces) == Flatten(a, pieces) + Flatten(front, pieces) + Piece(pieces, last);
    }
  }

  lemma FlattenWithout<T>(order: seq<string>, i: nat, pieces: map<string, seq<T>>)
    requires i < |order|
    ensures multiset(Flatten(order, pieces))
         == multiset(Flatten(Without(order, i), pieces)) + multiset(Piece(pieces, order[i]))
  {
    var a, x, b := order[..i], [order[i]], order[i+1..];
    assert order == a + x + b;
    FlattenConcat(a, b, pieces);
    FlattenConcat(a + x, b, pieces);
    assert (a + x)[..i] == a;
  }

  ghost predicate Enumerates(order: seq<string>, ids: set<string>) {
    && (forall i, j :: 0 <= i < j < |order| ==> order[i] != order[j])
    && (forall id :: id in order <==> id in ids)
  }

  lemma WithoutEnumerates(order: seq<string>, ids: set<string>, i: nat)
    requires Enumerates(order, ids) && i < |order|
    ensures Enumerates(Without(order, i), ids - {order[i]})
  {
    var w := Without(order, i);
    forall x ensures x in w <==> x in ids - {order[i]} {
      if x in ids - {order[i]} {
        var k :| 0 <= k < |order| && order[k] == x;
        assert w[if k < i then k else k - 1] == x;
      }
    }
  }

  lemma HeadEnumerated(order: seq<string>, ids: set<string>)
    requires Enumerates(order, ids)
    ensures order != [] ==> order[0] in ids
  {
  }

  /** Every iteration order of the map gives the same records. */
  lemma {:induction false} OrderIrrelevant<T>(o1: seq<string>, o2: seq<string>, ids: set<string>,
                                              pieces: map<string, seq<T>>)
    requires Enumerates(o1, ids) && Enumerates(o2, ids)
    ensures multiset(Flatten(o1, pieces)) == multiset(Flatten(o2, pieces))
    decreases |o1|
  {
    if o1 == [] {
      HeadEnumerated(o2, ids);
    } else {
      var n := |o1| - 1;
      assert o1[n] in ids;
      var i :| 0 <= i < |o2| && o2[i] == o1[n];
      WithoutEnumerates(o1, ids, n);
      assert Without(o1, n) == o1[..n];
      WithoutEnumerates(o2, ids, i);
      OrderIrrelevant(o1[..n], Without(o2, i), ids - {o1[n]}, pieces);
      FlattenWithout(o2, i, pieces);
    }
  }

  lemma AnyOrder<T>(o: seq<string>, ids: set<string>, pieces: map<string, seq<T>>)
    requires Enumerates(o, ids)
    ensures forall order :: Enumerates(order, ids) ==> multiset(Flatten(o, pieces)) == multiset(Flatten(order, pieces))
  {
    forall order | Enumerates(order, ids) ensures multiset(Flatten(o, pieces)) == multiset(Flatten(order, pieces)) {
      OrderIrrelevant(o, order, ids, pieces);
    }
  }

  /** An element of the concatenation comes from one piece. */
  lemma {:induction false} PieceOf<T>(order: seq<string>, pieces: map<string, seq<T>>, k: nat)
    returns (id: string, i: nat)
    requires k < |Flatten(order, pieces)|
    ensures id in order && id in pieces && i < |pieces[id]| && Flatten(order, pieces)[k] == pieces[id][i]
    decreases |order|
  {
    var n := |order| - 1;
    var front := Flatten(order[..n], pieces);
    if k < |front| {
      id, i := PieceOf(order[..n], pieces, k);
    } else {
      id, i := order[n], k - |front|;
    }
  }

  /** A record of the aggregated list is an annotated record of one cache entry. */
  lemma RecordHasSource(s: State, order: seq<string>, k: nat) returns (id: string, i: nat)
    requires Enumerates(order, s.cache.Keys) && k < |Flatten(order, Annotated(s.cache, s.registry))|
    ensures id in s.cache && i < |s.cache[id]|
    ensures Flatten(order, Annotated(s.cache, s.registry))[k] == Annotate(s.cache[id][i], id, Lookup(s.registry, id))
  {
    id, i := PieceOf(order, Annotated(s.cache, s.registry), k);
    if s.cache[id] != [] { AnnotateEach(s.cache[id], id, Lookup(s.registry, id), 0); }
    AnnotateEach(s.cache[id], id, Lookup(s.registry, id), i);
  }

  /** rec carries the id, name and address of n. */
  predicate Carries(rec: Vm, n: Node) {
    && "node_id" in rec && rec["node_id"] == Str(n.id)
    && "node_name" in rec && rec["node_name"] == Str(n.name)
    && "node_address" in rec && rec["node_address"] == Str(n.address)
  }

  lemma AnnotateKeepsId(vm: Vm, id: string, n: Node)
    ensures IdOf(Annotate(vm, id, n)) == IdOf(vm)
    ensures n.id == id ==> Carries(Annotate(vm, id, n), n)
  {
  }

  lemma OnlyOne(owners: set<string>, id: string)
    requires id in owners && |owners| == 1
    ensures owners == {id}
  {
    assert |owners - {id}| == 0;
  }

  /** The list and the router agree: a record annotated with a registered node that alone lists its id
      is routed to the node whose id, name and address it carries. */
  lemma RecordsRouteHome(s: State, order: seq<string>, k: nat, r: Option<Node>)
    requires Inv(s) && Enumerates(order, s.cache.Keys) && k < |Flatten(order, Annotated(s.cache, s.registry))|
    requires var rec := Flatten(order, Annotated(s.cache, s.registry))[k];
             && "node_id" in rec && rec["node_id"].Str? && rec["node_id"].s in s.registry
             && |Listers(s.cache, IdOf(rec))| == 1 && Routed(s, IdOf(rec), r)
    ensures r.Some? && Carries(Flatten(order, Annotated(s.cache, s.registry))[k], r.value)
  {
    var rec := Flatten(order, Annotated(s.cache, s.registry))[k];
    var id, i := RecordHasSource(s, order, k);
    AnnotateKeepsId(s.cache[id][i], id, Lookup(s.registry, id));
    assert id in s.registry;
    var v := IdOf(rec);
    assert id in Listers(s.cache, v);
    OnlyOne(Listers(s.cache, v), id);
    SoleListerIsFound(s, v, id, r);
  }

  // ---------------------------------------------------------------- the manager

  class Manager {
    var registry: map<string, Node>
    var vmCache: map<string, seq<Vm>>
    var jobNodes: map<string, string>
    ghost var checks: seq<Check>
    ghost var created: set<string>

    ghost function View(): State
      reads this
    {
      State(registry, vmCache, checks, created)
    }

    constructor ()
      ensures View() == Init() && jobNodes == map[]
    {
      registry, vmCache, jobNodes, checks, created := map[], map[], map[], [], {};
    }

    method Register(n: Node)
      requires Enabled(View(), Label.Register(n))
      modifies this
      ensures View() == Apply(old(View()), Label.Register(n)) && jobNodes == old(jobNodes)
    {
      registry := registry[n.id := n.(online := true)];
      created := created + {n.id};
    }

    method Delete(id: string) returns (found: bool)
      modifies this`registry
      ensures View() == Apply(old(View()), Label.Delete(id)) && found == (id in old(registry))
    {
      found := id in registry;
      registry := registry - {id};
    }

    method SetVMCache(id: string, vms: Option<seq<Vm>>)
      modifies this`vmCache
      ensures vmCache == SetCache(old(vmCache), id, vms)
    {
      match vms
      case None => vmCache := vmCache - {id};
      case Some(l) => vmCache := vmCache[id := l];
    }

    method BeginCheck(id: string) returns (n: Node, ghost c: nat)
      requires id in registry
      modifies this`checks
      ensures n == registry[id] && c == |old(checks)|
      ensures View() == Apply(old(View()), StartCheck(id))
    {
      n, c := registry[id], |checks|;
      checks := checks + [Probing(n)];
    }

    method WriteHealth(n: Node, up: bool, ghost c: nat)
      requires c < |checks| && checks[c] == Probing(n)
      modifies this`registry, this`checks
      ensures View() == Apply(old(View()), if up then HealthUp(c) else HealthDown(c))
    {
      if n.id in registry {
        registry := registry[n.id := registry[n.id].(online := up)];
      }
      checks := checks[c := if up then Fetching(n) else Failing(n)];
    }

    method Finish(n: Node, vms: Option<seq<Vm>>, ghost c: nat)
      requires c < |checks| && (checks[c] == Fetching(n) || (checks[c] == Failing(n) && vms.None?))
      modifies this`vmCache, this`checks
      ensures View() == Apply(old(View()), Publish(c, vms))
    {
      SetVMCache(n.id, vms);
      checks := checks[c := Done];
    }

    /** checkNode on a captured row, given the probe's answer and the worker's list. */
    method CheckNode(n: Node, healthy: bool, answer: Option<seq<Vm>>, ghost c: nat)
      requires c < |checks| && checks[c] == Probing(n)
      modifies this`registry, this`vmCache, this`checks
      ensures var vms := if healthy then answer else None;
        && vmCache == SetCache(old(vmCache), n.id, vms)
        && registry == UpdateHealth(old(registry), n.id, healthy)
        && checks == old(checks)[c := Done]
    {
      WriteHealth(n, healthy, c);
      if !healthy {
        Finish(n, None, c);
      } else {
        Finish(n, answer, c);
      }
    }

    /** Some node of the cache listing the id, in whatever order the map is visited. */
    method FindOwner(vmId: string) returns (owner: string)
      requires "" !in vmCache
      ensures owner == "" <==> Listers(vmCache, vmId) == {}
      ensures owner != "" ==> owner in Listers(vmCache, vmId)
    {
      owner := "";
      var todo := vmCache.Keys;
      while todo != {}
        invariant todo <= vmCache.Keys && owner == ""
        invariant forall id :: id in vmCache && id !in todo ==> !Lists(vmCache[id], vmId)
        decreases todo
      {
        var nodeId :| nodeId in todo;
        todo := todo - {nodeId};
        var vms := vmCache[nodeId];
        var i := 0;
        while i < |vms|
          invariant 0 <= i <= |vms| && owner == ""
          invariant forall k :: 0 <= k < i ==> IdOf(vms[k]) != vmId
        {
          if IdOf(vms[i]) == vmId {
            owner := nodeId;
            break;
          }
          i := i + 1;
        }
        if owner != "" {
          assert owner in Listers(vmCache, vmId);
          return;
        }
      }
    }

    method NodeForVM(vmId: string) returns (r: Option<Node>)
      requires "" !in vmCache
      ensures Routed(View(), vmId, r)
    {
      var owner := FindOwner(vmId);
      if owner == "" { return None; }
      if owner !in registry { return None; }
      return Some(registry[owner]);
    }

    /** The clones of one node's records. */
    method Clones(vms: seq<Vm>, id: string, n: Node) returns (out: seq<Vm>)
      ensures out == AnnotateAll(vms, id, n)
    {
      out := [];
      var i := 0;
      while i < |vms|
        invariant 0 <= i <= |vms| && out == AnnotateAll(vms[..i], id, n)
      {
        assert vms[..i+1][..i] == vms[..i];
        var clone := vms[i];
        clone := clone["node_id" := Str(id)];
        clone := clone["node_name" := Str(n.name)];
        clone := clone["node_address" := Str(n.address)];
        out := out + [clone];
        i := i + 1;
      }
      assert vms[..i] == vms;
    }

    /** The flattened cache, in the order the map is visited in; any other order would have given the
        same records. */
    method RemoteVMs() returns (out: seq<Vm>)
      ensures exists order :: Enumerates(order, vmCache.Keys) && out == Flatten(order, Annotated(vmCache, registry))
      ensures forall order :: Enumerates(order, vmCache.Keys) ==>
        multiset(out) == multiset(Flatten(order, Annotated(vmCache, registry)))
    {
      out := [];
      ghost var pieces := Annotated(vmCache, registry);
      ghost var visited: seq<string> := [];
      var todo := vmCache.Keys;
      while todo != {}
        invariant todo <= vmCache.Keys && Enumerates(visited, vmCache.Keys - todo)
        invariant out == Flatten(visited, pieces)
        decreases todo
      {
        var id :| id in todo;
        todo := todo - {id};
        var n := if id in registry then registry[id] else NO_NODE;
        var clones := Clones(vmCache[id], id, n);
        assert (visited + [id])[..|visited|] == visited;
        out := out + clones;
        visited := visited + [id];
      }
      assert Enumerates(visited, vmCache.Keys);
      AnyOrder(visited, vmCache.Keys, pieces);
    }

    predicate Cached(jobNodes: map<string, string>, jobId: string)
      reads this`registry
    {
      jobId in jobNodes && jobNodes[jobId] in registry
    }

    /** FindJobNode over the rows in listing order; `answers` says which nodes know the job. A cached
        owner is returned without asking as long as its row exists. */
    method FindJobNode(jobId: string, rows: seq<string>, answers: set<string>) returns (r: Option<Node>)
      requires Enumerates(rows, registry.Keys) && forall id :: id in registry ==> registry[id].id == id
      modifies this`jobNodes
      ensures r.Some? ==> r.value.id in registry && r.value == registry[r.value.id]
      ensures r.Some? ==> jobNodes == old(jobNodes)[jobId := r.value.id]
      ensures r.None? ==> jobNodes == old(jobNodes)
      ensures Cached(old(jobNodes), jobId) ==> r == Some(registry[old(jobNodes)[jobId]])
      ensures !Cached(old(jobNodes), jobId) && r.Some? ==> r.value.online && r.value.id in answers
      ensures !Cached(old(jobNodes), jobId) ==>
        (r.None? <==> forall id :: id in registry && registry[id].online ==> id !in answers)
    {
      if jobId in jobNodes {
        var nid := jobNodes[jobId];
        if nid in registry { return Some(registry[nid]); }
      }
      var i := 0;
      while i < |rows|
        invariant 0 <= i <= |rows| && jobNodes == old(jobNodes)
        invariant forall k :: 0 <= k < i ==> !registry[rows[k]].online || rows[k] !in answers
      {
        var n := registry[rows[i]];
        if n.online {
          if n.id in answers {
            jobNodes := jobNodes[jobId := n.id];
            return Some(n);
          }
        }
        i := i + 1;
      }
      r := None;
    }
  }
}
