/**
 The port ledger of internal/vm: the allocator's used set against the bases of persisted VM rows,
 over any interleaving of Create, Import, ImportBundle, Delete and DeleteJob, and over restarts.

 Each allocator call and each SQL statement is one step; every operation has a program counter. A VM
 id is a fresh number. `owner`, `allocs`, `frees` and `deletions` are history.
 */
module PortLedger {
  import opened Options
  import opened Ports

  datatype Op =
    | Holding(base: int)             // a creator between Allocate and its insert
    | Deleting(id: nat, base: int)   // a deleter that has read the row but not deleted it yet
    | Owing(base: int)               // about to call Release
    | Over

  datatype Owner = Row(id: nat) | Call(op: nat)

  /** A port configuration: where the grid of blocks starts and how wide a block is. */
  datatype Grid = Grid(base: int, size: int) {
    predicate Valid() { base > 0 && size >= 1 }
  }

  /** `grids` is history: the configurations the rows may have been created under. */
  datatype State = State(base: int, size: int, grids: set<Grid>, rows: map<nat, int>, used: set<int>, ops: seq<Op>,
                         nextId: nat, owner: map<int, Owner>, allocs: multiset<int>, frees: multiset<int>,
                         deletions: multiset<nat>)

  datatype Label =
    | StartCreate                // Allocate, by Create, Import or ImportBundle
    | Insert(op: nat)            // the row is written
    | FailCreate(op: nat)        // directory, extraction or insert failed
    | StartDelete(id: nat)       // Delete or DeleteJob reads the row
    | DeleteRow(op: nat)
    | Abandon(op: nat)           // the delete job is cancelled before it runs
    | FreeBlock(op: nat)         // Release
    | Restart(grid: Grid)        // crash, then NewManager, possibly reconfigured, reserves every row's base

  predicate Enabled(s: State, l: Label) {
    match l
    case StartCreate => s.size >= 1
    case Insert(i) => i < |s.ops| && s.ops[i].Holding?
    case FailCreate(i) => i < |s.ops| && s.ops[i].Holding?
    case StartDelete(_) => true
    case DeleteRow(i) => i < |s.ops| && s.ops[i].Deleting?
    case Abandon(i) => i < |s.ops| && s.ops[i].Deleting?
    case FreeBlock(i) => i < |s.ops| && s.ops[i].Owing?
    case Restart(g) => g.Valid()
  }

  function Reserved(rows: map<nat, int>): set<int> {
    set id | id in rows && rows[id] > 0 :: rows[id]
  }

  ghost function RowOwners(rows: map<nat, int>): map<int, Owner> {
    map b | b in rows.Values && b > 0 :: Row(IdOf(rows, b))
  }

  ghost function IdOf(rows: map<nat, int>, b: int): (id: nat)
    requires b in rows.Values
    ensures id in rows && rows[id] == b
  {
    var id :| id in rows && rows[id] == b; id
  }

  ghost function Apply(s: State, l: Label): State
    requires Enabled(s, l)
  {
    match l
    case StartCreate =>
      (match FirstFree(s.base, s.size, s.used)
       case None => s.(ops := s.ops + [Over])
       case Some(b) =>
         s.(ops := s.ops + [Holding(b)], used := s.used + {b}, owner := s.owner[b := Call(|s.ops|)],
            allocs := s.allocs + multiset{b}))
    case Insert(i) =>
      s.(rows := s.rows[s.nextId := s.ops[i].base], nextId := s.nextId + 1, ops := s.ops[i := Over],
         owner := s.owner[s.ops[i].base := Row(s.nextId)])
    case FailCreate(i) => s.(ops := s.ops[i := Owing(s.ops[i].base)])
    case StartDelete(id) =>
      s.(ops := s.ops + [if id in s.rows then Deleting(id, s.rows[id]) else Over])
    case DeleteRow(i) =>
      var Deleting(id, b) := s.ops[i];
      if id in s.rows then
        s.(rows := s.rows - {id}, ops := s.ops[i := Owing(b)], owner := s.owner[b := Call(i)],
           deletions := s.deletions + multiset{id})
      else s.(ops := s.ops[i := Over])
    case Abandon(i) => s.(ops := s.ops[i := Over])
    case FreeBlock(i) =>
      var b := s.ops[i].base;
      s.(used := s.used - {b}, ops := s.ops[i := Over], owner := s.owner - {b}, frees := s.frees + multiset{b})
    case Restart(g) =>
      s.(base := g.base, size := g.size, grids := s.grids + {g},
         used := Reserved(s.rows), ops := [], owner := RowOwners(s.rows),
         allocs := multiset(Reserved(s.rows)), frees := multiset{})
  }

  // ---------------------------------------------------------------- the invariant

  ghost predicate Holds(s: State, i: nat) {
    i < |s.ops| && (s.ops[i].Holding? || s.ops[i].Owing?)
  }

  ghost predicate OwnerOk(s: State, b: int)
    requires b in s.owner
  {
    match s.owner[b]
    case Row(id) => id in s.rows && s.rows[id] == b
    case Call(i) => Holds(s, i) && s.ops[i].base == b
  }

  ghost predicate OpOk(s: State, i: nat)
    requires i < |s.ops|
  {
    match s.ops[i]
    case Holding(b) => b in s.owner && s.owner[b] == Call(i)
    case Owing(b) => b in s.owner && s.owner[b] == Call(i)
    case Deleting(id, b) => id < s.nextId && (id in s.rows ==> s.rows[id] == b)
    case Over => true
  }

  ghost predicate FitsGrid(g: Grid, b: int) { OnGrid(g.base, g.size, b) && Fits(b, g.size) }

  /** A usable slot of one of the grids so far. */
  ghost predicate Usable(s: State, b: int) {
    b > 0 && exists g :: g in s.grids && FitsGrid(g, b)
  }

  /** The rows and counters part of the invariant. */
  ghost predicate RowsOk(s: State) {
    && (forall id :: id in s.rows ==>
          id < s.nextId && s.rows[id] in s.owner && s.owner[s.rows[id]] == Row(id) && Usable(s, s.rows[id]))
    && (forall b :: b in s.used ==> Usable(s, b))
    && (forall b :: s.allocs[b] == s.frees[b] + (if b in s.used then 1 else 0))
    && (forall id :: s.deletions[id] <= 1 && (id in s.rows || id >= s.nextId ==> s.deletions[id] == 0))
  }

  ghost predicate Inv(s: State) {
    && Grid(s.base, s.size) in s.grids && (forall g :: g in s.grids ==> g.Valid())
    && s.used == s.owner.Keys
    && (forall b :: b in s.owner ==> OwnerOk(s, b))
    && (forall i :: 0 <= i < |s.ops| ==> OpOk(s, i))
    && RowsOk(s)
  }

  function Init(base: int, size: int): State {
    State(base, size, {Grid(base, size)}, map[], {}, [], 0, map[], multiset{}, multiset{}, multiset{})
  }

  lemma CreateKeepsInv(s: State)
    requires Inv(s)
    ensures Inv(Apply(s, StartCreate))
  {
    var s' := Apply(s, StartCreate);
    LeastFree(s.base, s.size, s.used);
    forall i | 0 <= i < |s'.ops| ensures OpOk(s', i) {
      if i < |s.ops| { assert OpOk(s, i); }
    }
    forall b | b in s'.owner ensures OwnerOk(s', b) {
      if b in s.owner { assert OwnerOk(s, b); }
    }
    match FirstFree(s.base, s.size, s.used)
    case None =>
    case Some(b) =>
      assert FitsGrid(Grid(s.base, s.size), b);
      assert Slot(s.base, s.size, 0) == s.base;
      forall n: nat | b == Slot(s.base, s.size, n) ensures b > 0 { SlotsGrow(s.base, s.size, 0, n); }
  }

  lemma OpStepKeys(s: State, l: Label)
    requires Inv(s) && Enabled(s, l) && !l.StartCreate? && !l.Restart?
    ensures Apply(s, l).used == Apply(s, l).owner.Keys
  {
    match l
    case Insert(i) => assert OpOk(s, i);
    case DeleteRow(i) => assert OpOk(s, i);
    case FreeBlock(i) => assert OpOk(s, i); assert (s.owner - {s.ops[i].base}).Keys == s.owner.Keys - {s.ops[i].base};
    case FailCreate(_) =>
    case StartDelete(_) =>
    case Abandon(_) =>
  }

  /** Operation k is not disturbed by another operation's step. */
  lemma OtherOpOk(s: State, l: Label, k: nat)
    requires Inv(s) && Enabled(s, l) && !l.StartCreate? && !l.Restart?
    requires k < |Apply(s, l).ops| && (l.StartDelete? || k != l.op)
    ensures OpOk(Apply(s, l), k)
  {
    if k < |s.ops| { assert OpOk(s, k); }
    if !l.StartDelete? { assert OpOk(s, l.op); }
  }

  lemma OpStepOps(s: State, l: Label)
    requires Inv(s) && Enabled(s, l) && !l.StartCreate? && !l.Restart?
    ensures forall k :: 0 <= k < |Apply(s, l).ops| ==> OpOk(Apply(s, l), k)
  {
    forall k | 0 <= k < |Apply(s, l).ops| ensures OpOk(Apply(s, l), k) {
      if l.StartDelete? || k != l.op { OtherOpOk(s, l, k); } else { OwnOpOk(s, l); }
    }
  }

  lemma OwnOpOk(s: State, l: Label)
    requires Inv(s) && Enabled(s, l) && !l.StartCreate? && !l.Restart? && !l.StartDelete?
    ensures OpOk(Apply(s, l), l.op)
  {
    assert OpOk(s, l.op);
  }

  lemma OpStepOwner(s: State, l: Label, b: int)
    requires Inv(s) && Enabled(s, l) && !l.StartCreate? && !l.Restart? && b in Apply(s, l).owner
    ensures OwnerOk(Apply(s, l), b)
  {
    if !l.StartDelete? { assert OpOk(s, l.op); }
    if b in s.owner { assert OwnerOk(s, b); }
  }

  lemma OpStepKeepsInv(s: State, l: Label)
    requires Inv(s) && Enabled(s, l) && !l.StartCreate? && !l.Restart?
    ensures Inv(Apply(s, l))
  {
    OpStepKeys(s, l);
    forall b | b in Apply(s, l).owner ensures OwnerOk(Apply(s, l), b) { OpStepOwner(s, l, b); }
    OpStepOps(s, l);
    if l.Insert? { InsertRows(s, l.op); }
    else if l.DeleteRow? { DeleteRows(s, l.op); }
    else if l.FreeBlock? { FreeRows(s, l.op); }
  }

  lemma InsertRows(s: State, i: nat)
    requires Inv(s) && Enabled(s, Insert(i))
    ensures RowsOk(Apply(s, Insert(i)))
  {
    assert OpOk(s, i);
  }

  lemma DeleteRows(s: State, i: nat)
    requires Inv(s) && Enabled(s, DeleteRow(i))
    ensures RowsOk(Apply(s, DeleteRow(i)))
  {
    assert OpOk(s, i);
  }

  lemma FreeRows(s: State, i: nat)
    requires Inv(s) && Enabled(s, FreeBlock(i))
    ensures RowsOk(Apply(s, FreeBlock(i)))
  {
    assert OpOk(s, i);
  }

  lemma RestartKeepsInv(s: State, g: Grid)
    requires Inv(s) && g.Valid()
    ensures Inv(Apply(s, Restart(g)))
  {
    var s' := Apply(s, Restart(g));
    forall b | Usable(s, b) ensures Usable(s', b) {
      var h :| h in s.grids && FitsGrid(h, b);
      assert h in s'.grids;
    }
    forall id | id in s.rows
      ensures s.rows[id] in s'.owner && s'.owner[s.rows[id]] == Row(id)
    {
      var b := s.rows[id];
      assert b in s.rows.Values;
      assert s.owner[s.rows[IdOf(s.rows, b)]] == Row(IdOf(s.rows, b));
    }
    assert s'.used == s'.owner.Keys;
  }

  lemma StepKeepsInv(s: State, l: Label)
    requires Inv(s) && Enabled(s, l)
    ensures Inv(Apply(s, l))
  {
    if l.StartCreate? { CreateKeepsInv(s); }
    else if l.Restart? { RestartKeepsInv(s, l.grid); }
    else { OpStepKeepsInv(s, l); }
  }

  // ---------------------------------------------------------------- over all runs

  ghost predicate Executable(s: State, ls: seq<Label>)
    decreases |ls|
  {
    ls == [] || (Enabled(s, ls[0]) && Executable(Apply(s, ls[0]), ls[1..]))
  }

  ghost function Run(s: State, ls: seq<Label>): State
    requires Executable(s, ls)
    decreases |ls|
  {
    if ls == [] then s else Run(Apply(s, ls[0]), ls[1..])
  }

  lemma {:induction false} RunKeepsInv(s: State, ls: seq<Label>)
    requires Inv(s) && Executable(s, ls)
    ensures Inv(Run(s, ls))
    decreases |ls|
  {
    if ls == [] {
    } else {
      StepKeepsInv(s, ls[0]);
      RunKeepsInv(Apply(s, ls[0]), ls[1..]);
    }
  }

  /** The blocks held by operations that have not inserted or released yet. */
  ghost function InFlight(s: State): set<int> {
    set i | 0 <= i < |s.ops| && Holds(s, i) :: s.ops[i].base
  }

  lemma InvMeansAgreement(s: State)
    requires Inv(s)
    ensures s.used == s.rows.Values + InFlight(s)
    ensures s.rows.Values !! InFlight(s)
    ensures forall a, b :: a in s.rows && b in s.rows && a != b ==> s.rows[a] != s.rows[b]
    ensures forall i: nat, k: nat :: Holds(s, i) && Holds(s, k) && i != k ==> s.ops[i].base != s.ops[k].base
  {
    forall b | b in s.used ensures b in s.rows.Values + InFlight(s) { assert OwnerOk(s, b); }
    forall i: nat | Holds(s, i) ensures s.ops[i].base in s.owner && s.owner[s.ops[i].base] == Call(i) {
      assert OpOk(s, i);
    }
  }

  /** In every reachable state the allocator's used set is the bases of the persisted rows plus those
      held in flight, the two kinds do not overlap, no two rows share a base, and no two operations
      hold the same block. */
  lemma LedgerAgrees(base: int, size: int, ls: seq<Label>)
    requires base > 0 && size >= 1 && Executable(Init(base, size), ls)
    ensures var s := Run(Init(base, size), ls);
      && s.used == s.rows.Values + InFlight(s)
      && s.rows.Values !! InFlight(s)
      && (forall a, b :: a in s.rows && b in s.rows && a != b ==> s.rows[a] != s.rows[b])
      && (forall i: nat, k: nat :: Holds(s, i) && Holds(s, k) && i != k ==> s.ops[i].base != s.ops[k].base)
  {
    RunKeepsInv(Init(base, size), ls);
    InvMeansAgreement(Run(Init(base, size), ls));
  }

  /** Blocks are conserved: since the last restart, each block was allocated exactly as often as it
      was released, once more if it is in use; and each VM id was deleted successfully at most once. */
  lemma BlocksConserved(base: int, size: int, ls: seq<Label>)
    requires base > 0 && size >= 1 && Executable(Init(base, size), ls)
    ensures var s := Run(Init(base, size), ls);
      && (forall b :: s.allocs[b] == s.frees[b] + (if b in s.used then 1 else 0))
      && (forall id :: s.deletions[id] <= 1)
      && (forall id :: id in s.rows ==> s.deletions[id] == 0)
  {
    RunKeepsInv(Init(base, size), ls);
  }

  lemma InvMeansSafeRelease(s: State, i: nat)
    requires Inv(s) && Enabled(s, FreeBlock(i))
    ensures s.ops[i].base in s.used && s.ops[i].base !in s.rows.Values
    ensures forall k: nat :: Holds(s, k) && s.ops[k].base == s.ops[i].base ==> k == i
  {
    assert OpOk(s, i);
    forall k: nat | Holds(s, k) && s.ops[k].base == s.ops[i].base ensures k == i { assert OpOk(s, k); }
  }

  /** A Release frees a block that is in use and that no row and no other operation has: also when
      the same VM was deleted twice and its block reallocated in between. */
  lemma ReleaseIsSafe(base: int, size: int, ls: seq<Label>, i: nat)
    requires base > 0 && size >= 1 && Executable(Init(base, size), ls)
    requires Enabled(Run(Init(base, size), ls), FreeBlock(i))
    ensures var s := Run(Init(base, size), ls); var b := s.ops[i].base;
      && b in s.used
      && b !in s.rows.Values
      && (forall k: nat :: Holds(s, k) && s.ops[k].base == b ==> k == i)
  {
    RunKeepsInv(Init(base, size), ls);
    InvMeansSafeRelease(Run(Init(base, size), ls), i);
  }

  /** A deleter reaches Release only if its own row delete found the row, and the block it will then
      release is the one that row had; a deleter that comes second releases nothing. */
  lemma OnlyTheDeleterReleases(base: int, size: int, ls: seq<Label>, i: nat)
    requires base > 0 && size >= 1 && Executable(Init(base, size), ls)
    requires Enabled(Run(Init(base, size), ls), DeleteRow(i))
    ensures var s := Run(Init(base, size), ls); var s' := Apply(s, DeleteRow(i));
      var id := s.ops[i].id;
      && (s'.ops[i].Owing? <==> id in s.rows)
      && (s'.ops[i].Owing? ==> s'.ops[i].base == s.rows[id])
      && (id !in s.rows ==> s'.ops[i].Over? && s'.used == s.used && s'.rows == s.rows)
      && id !in s'.rows
  {
    var s := Run(Init(base, size), ls);
    RunKeepsInv(Init(base, size), ls);
    assert OpOk(s, i);
  }

  // ---------------------------------------------------------------- service ports

  /** Any two different blocks of the two grids are too far apart to share a service port. */
  ghost predicate Apart(g: Grid, h: Grid) {
    forall p, q :: FitsGrid(g, p) && FitsGrid(h, q) && p != q ==> p + SERVICES <= q || q + SERVICES <= p
  }

  /** No two rows share a service port. */
  ghost predicate Disjoint(s: State) {
    forall a, b :: a in s.rows && b in s.rows && a != b ==>
      ServicePorts(BlockFor(s.rows[a])) !! ServicePorts(BlockFor(s.rows[b]))
  }

  predicate GridsIn(ls: seq<Label>, gs: set<Grid>) {
    forall i :: 0 <= i < |ls| && ls[i].Restart? ==> ls[i].grid in gs
  }

  /** t is reached from s with every restart configured from gs. */
  ghost predicate Reaches(s: State, t: State, gs: set<Grid>) {
    exists ls :: Executable(s, ls) && GridsIn(ls, gs) && Run(s, ls) == t
  }

  lemma {:induction false} Then(s: State, ls: seq<Label>, l: Label)
    requires Executable(s, ls) && Enabled(Run(s, ls), l)
    ensures Executable(s, ls + [l]) && Run(s, ls + [l]) == Apply(Run(s, ls), l)
    decreases |ls|
  {
    if ls == [] {
      assert ls + [l] == [l] && [l][1..] == [];
    } else {
      assert (ls + [l])[1..] == ls[1..] + [l];
      Then(Apply(s, ls[0]), ls[1..], l);
    }
  }

  lemma ReachesSelf(s: State, gs: set<Grid>)
    ensures Reaches(s, s, gs)
  {
    assert Executable(s, []) && Run(s, []) == s && GridsIn([], gs);
  }

  lemma ReachesNext(s: State, t: State, l: Label, gs: set<Grid>)
    requires Reaches(s, t, gs) && Enabled(t, l) && (l.Restart? ==> l.grid in gs)
    ensures Reaches(s, Apply(t, l), gs)
  {
    var ls :| Executable(s, ls) && GridsIn(ls, gs) && Run(s, ls) == t;
    Then(s, ls, l);
    assert GridsIn(ls + [l], gs);
  }

  lemma {:induction false} GridsStayIn(s: State, ls: seq<Label>, gs: set<Grid>)
    requires Executable(s, ls) && GridsIn(ls, gs) && s.grids <= gs
    ensures Run(s, ls).grids <= gs
    decreases |ls|
  {
    if ls == [] {
    } else {
      assert ls[0].Restart? ==> ls[0].grid in gs;
      forall i | 0 <= i < |ls[1..]| && ls[1..][i].Restart? ensures ls[1..][i].grid in gs {
        assert ls[1..][i] == ls[i+1];
      }
      GridsStayIn(Apply(s, ls[0]), ls[1..], gs);
    }
  }

  /** Two rows on grids that are apart. */
  lemma ApartBlocks(g: Grid, h: Grid, p: int, q: int)
    requires Apart(g, h) && FitsGrid(g, p) && FitsGrid(h, q) && p != q
    ensures ServicePorts(BlockFor(p)) !! ServicePorts(BlockFor(q))
  {
  }

  /** Whatever is reconfigured between restarts, as long as the grids used are apart, no two VMs share
      a service port. */
  lemma ServicesNeverCollide(g: Grid, t: State, gs: set<Grid>)
    requires g in gs && (forall x :: x in gs ==> x.Valid()) && Reaches(Init(g.base, g.size), t, gs)
    requires forall x, y :: x in gs && y in gs ==> Apart(x, y)
    ensures Disjoint(t)
  {
    var s := Init(g.base, g.size);
    var ls :| Executable(s, ls) && GridsIn(ls, gs) && Run(s, ls) == t;
    RunKeepsInv(s, ls);
    GridsStayIn(s, ls, gs);
    forall a, b | a in t.rows && b in t.rows && a != b
      ensures ServicePorts(BlockFor(t.rows[a])) !! ServicePorts(BlockFor(t.rows[b]))
    {
      var x :| x in t.grids && FitsGrid(x, t.rows[a]);
      var y :| y in t.grids && FitsGrid(y, t.rows[b]);
      ApartBlocks(x, y, t.rows[a], t.rows[b]);
    }
  }

  /** With blocks of at least five ports every service port of a VM is a valid port. */
  lemma ServicesAreValid(g: Grid, t: State, gs: set<Grid>, a: nat)
    requires g in gs && (forall x :: x in gs ==> x.Valid() && x.size >= SERVICES)
    requires Reaches(Init(g.base, g.size), t, gs) && a in t.rows
    ensures forall p :: p in ServicePorts(BlockFor(t.rows[a])) ==> 0 < p <= MAX_PORT
  {
    var s := Init(g.base, g.size);
    var ls :| Executable(s, ls) && GridsIn(ls, gs) && Run(s, ls) == t;
    RunKeepsInv(s, ls);
    GridsStayIn(s, ls, gs);
    var h :| h in t.grids && FitsGrid(h, t.rows[a]);
  }

  // ---------------------------------------------------------------- the condition is exact

  lemma ReachesInv(g: Grid, s: State, gs: set<Grid>)
    requires g.Valid() && Reaches(Init(g.base, g.size), s, gs)
    ensures Inv(s)
  {
    var ls :| Executable(Init(g.base, g.size), ls) && GridsIn(ls, gs) && Run(Init(g.base, g.size), ls) == s;
    RunKeepsInv(Init(g.base, g.size), ls);
  }

  /** Nothing is in flight. */
  predicate Settled(s: State) { s.used == s.rows.Values }

  /** The rows of s are still there, under the same grid. */
  predicate Extends(t: State, s: State) {
    && t.base == s.base && t.size == s.size
    && forall id :: id in s.rows ==> id in t.rows && t.rows[id] == s.rows[id]
  }

  lemma RowKept(s: State, t: State, b: int)
    requires Extends(t, s) && b in s.rows.Values
    ensures b in t.rows.Values
  {
    var id :| id in s.rows && s.rows[id] == b;
    assert t.rows[id] == b;
  }

  lemma NewRow(s: State, t: State, b: int)
    requires Settled(s) && s.nextId !in s.rows && t.rows == s.rows[s.nextId := b] && t.used == s.used + {b}
    ensures Settled(t) && b in t.rows.Values
  {
    assert t.rows[s.nextId] == b;
    forall x ensures x in t.rows.Values <==> x in s.rows.Values + {b} {
      if x in s.rows.Values {
        var id :| id in s.rows && s.rows[id] == x;
        assert t.rows[id] == x;
      }
    }
  }

  /** When all smaller slots are taken and this one is not, it is the next to be allocated. */
  lemma NextSlot(s: State, k: nat)
    requires s.size >= 1 && Fits(Slot(s.base, s.size, k), s.size) && Slot(s.base, s.size, k) !in s.used
    requires forall i: nat :: i < k ==> Slot(s.base, s.size, i) in s.used
    ensures FirstFree(s.base, s.size, s.used) == Some(Slot(s.base, s.size, k))
  {
    LeastFree(s.base, s.size, s.used);
    var c := FirstFree(s.base, s.size, s.used).value;
    var n: nat :| c == Slot(s.base, s.size, n) && forall i: nat :: i < n ==> Slot(s.base, s.size, i) in s.used;
    assert n == k;
  }

  /** Then one more Create puts a VM on it. */
  lemma CreateAt(g: Grid, s: State, k: nat, gs: set<Grid>) returns (t: State)
    requires g.Valid() && Reaches(Init(g.base, g.size), s, gs)
    requires s.size >= 1 && Settled(s) && Fits(Slot(s.base, s.size, k), s.size)
    requires forall i: nat :: i < k ==> Slot(s.base, s.size, i) in s.used
    ensures Reaches(Init(g.base, g.size), t, gs) && Settled(t) && Extends(t, s)
    ensures Slot(s.base, s.size, k) in t.rows.Values
  {
    var b := Slot(s.base, s.size, k);
    if b in s.used {
      t := s;
    } else {
      NextSlot(s, k);
      assert forall id :: id in s.rows ==> id < s.nextId by { ReachesInv(g, s, gs); }
      ReachesNext(Init(g.base, g.size), s, StartCreate, gs);
      var m := Apply(s, StartCreate);
      assert m.ops[|s.ops|] == Holding(b);
      ReachesNext(Init(g.base, g.size), m, Insert(|s.ops|), gs);
      t := Apply(m, Insert(|s.ops|));
      NewRow(s, t, b);
    }
  }

  /** Enough Creates fill every slot up to the k-th. */
  lemma {:induction false} FillUpTo(g: Grid, s: State, k: nat, gs: set<Grid>) returns (t: State)
    requires g.Valid() && Reaches(Init(g.base, g.size), s, gs)
    requires s.size >= 1 && Settled(s) && Fits(Slot(s.base, s.size, k), s.size)
    ensures Reaches(Init(g.base, g.size), t, gs) && Settled(t) && Extends(t, s)
    ensures forall i: nat :: i <= k ==> Slot(s.base, s.size, i) in t.rows.Values
  {
    if k == 0 {
      t := CreateAt(g, s, 0, gs);
    } else {
      SlotsGrow(s.base, s.size, k - 1, k);
      var m := FillUpTo(g, s, k - 1, gs);
      t := CreateAt(g, m, k, gs);
      forall i: nat | i <= k ensures Slot(s.base, s.size, i) in t.rows.Values {
        if i < k { RowKept(m, t, Slot(s.base, s.size, i)); }
      }
    }
  }

  /** After a restart with nothing in flight the rows' blocks are reserved. */
  lemma RestartSettles(g: Grid, s: State, h: Grid, gs: set<Grid>)
    requires g.Valid() && h.Valid() && h in gs && Reaches(Init(g.base, g.size), s, gs) && Settled(s)
    ensures var r := Apply(s, Restart(h));
      Reaches(Init(g.base, g.size), r, gs) && Settled(r) && r.rows == s.rows && Grid(r.base, r.size) == h
  {
    ReachesNext(Init(g.base, g.size), s, Restart(h), gs);
    assert forall id :: id in s.rows ==> s.rows[id] > 0 by { ReachesInv(g, s, gs); }
  }

  /** Fill the first grid, restart under the second and fill that. */
  lemma BothFilled(g: Grid, h: Grid, i: nat, k: nat, gs: set<Grid>) returns (t: State)
    requires g in gs && h in gs && g.Valid() && h.Valid()
    requires Fits(Slot(g.base, g.size, i), g.size) && Fits(Slot(h.base, h.size, k), h.size)
    ensures Reaches(Init(g.base, g.size), t, gs)
    ensures Slot(g.base, g.size, i) in t.rows.Values && Slot(h.base, h.size, k) in t.rows.Values
  {
    ReachesSelf(Init(g.base, g.size), gs);
    var m := FillUpTo(g, Init(g.base, g.size), i, gs);
    RestartSettles(g, m, h, gs);
    var r := Apply(m, Restart(h));
    t := FillUpTo(g, r, k, gs);
    RowKept(r, t, Slot(g.base, g.size, i));
  }

  /** In every run under these configurations no two VMs share a service port. */
  ghost predicate CollisionFree(gs: set<Grid>) {
    forall g, t :: g in gs && Reaches(Init(g.base, g.size), t, gs) ==> Disjoint(t)
  }

  /** A set of port configurations, with restarts switching between them, is free of collisions
      exactly when every two of their grids, each with itself included, are apart. */
  lemma CollisionFreeExactly(gs: set<Grid>)
    requires forall g :: g in gs ==> g.Valid()
    ensures CollisionFree(gs) <==> forall g, h :: g in gs && h in gs ==> Apart(g, h)
  {
    if forall g, h :: g in gs && h in gs ==> Apart(g, h) {
      forall g, t | g in gs && Reaches(Init(g.base, g.size), t, gs) ensures Disjoint(t) {
        ServicesNeverCollide(g, t, gs);
      }
    } else {
      var g, h :| g in gs && h in gs && !Apart(g, h);
      NotApartCollides(g, h, gs);
    }
  }

  lemma NotApartCollides(g: Grid, h: Grid, gs: set<Grid>)
    requires g in gs && h in gs && g.Valid() && h.Valid() && !Apart(g, h)
    ensures !CollisionFree(gs)
  {
    var p, q :| FitsGrid(g, p) && FitsGrid(h, q) && p != q && p + SERVICES > q && q + SERVICES > p;
    var i: nat :| p == Slot(g.base, g.size, i);
    var k: nat :| q == Slot(h.base, h.size, k);
    var t := BothFilled(g, h, i, k, gs);
    var a :| a in t.rows && t.rows[a] == p;
    var b :| b in t.rows && t.rows[b] == q;
    SharedPort(p, q);
    assert !Disjoint(t);
  }

  lemma SharedPort(p: int, q: int)
    requires p + SERVICES > q && q + SERVICES > p
    ensures !(ServicePorts(BlockFor(p)) !! ServicePorts(BlockFor(q)))
  {
    var port := if p < q then q else p;
    assert port in ServicePorts(BlockFor(p)) && port in ServicePorts(BlockFor(q));
  }

  // ---------------------------------------------------------------- which grids are apart

  lemma {:induction false} PositiveMultiple(step: int, n: nat)
    requires step >= 0 && n >= 1
    ensures step * n >= step
  {
    if n == 1 {
    } else {
      PositiveMultiple(step, n - 1);
      assert step * n == step * (n - 1) + step;
    }
  }

  lemma Multiple(step: int, n: int)
    requires step >= 0 && n != 0
    ensures step * n >= step || step * n <= -step
  {
    if n >= 1 {
      PositiveMultiple(step, n);
    } else {
      PositiveMultiple(step, -n);
      assert step * n == -(step * -n);
    }
  }

  lemma SlotMultiple(base: int, size: int, k: nat, step: int, a: int)
    requires size == step * a
    ensures Slot(base, size, k) == base + step * (k * a)
  {
    assert k * (step * a) == step * (k * a);
  }

  lemma AlignedSlots(step: int, b: int, c: int, x: int, y: int)
    requires step >= SERVICES && b == step * c
    requires b + step * x != step * y
    ensures b + step * x + SERVICES <= step * y || step * y + SERVICES <= b + step * x
  {
    assert b + step * x - step * y == step * (c + x - y);
    Multiple(step, c + x - y);
  }

  /** Grids are apart when they are aligned to a common step of at least five. */
  lemma AlignedApart(g: Grid, h: Grid, step: int, a: int, b: int, c: int)
    requires step >= SERVICES && g.size == step * a && h.size == step * b && g.base - h.base == step * c
    ensures Apart(g, h)
  {
    forall p, q | FitsGrid(g, p) && FitsGrid(h, q) && p != q ensures p + SERVICES <= q || q + SERVICES <= p {
      var i: nat :| p == Slot(g.base, g.size, i);
      var k: nat :| q == Slot(h.base, h.size, k);
      SlotMultiple(g.base, g.size, i, step, a);
      SlotMultiple(h.base, h.size, k, step, b);
      AlignedSlots(step, g.base - h.base, c, i * a, k * b);
    }
  }

  /** A grid of ten from 12000 moved to 12003: an old VM at 12010 and a new one at 12013 share ports. */
  lemma MovedGridCollides()
    ensures !CollisionFree({Grid(12000, 10), Grid(12003, 10)})
  {
    var g, h := Grid(12000, 10), Grid(12003, 10);
    assert Slot(g.base, g.size, 1) == 12010 && Slot(h.base, h.size, 1) == 12013;
    assert FitsGrid(g, 12010) && FitsGrid(h, 12013);
    NotApartCollides(g, h, {g, h});
  }
}
