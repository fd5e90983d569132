/**
 The Manager of internal/vm/manager.go as far as rows and port blocks go. Each atomic block is a
 method that takes one step of PortLedger; Create (also Import and ImportBundle) and Delete put the
 blocks in the source's order, here without another operation in between.
 */
module VmManager {
  import opened Options
  import opened Ports
  import opened PortLedger

  /** The reservation loop of startup reconciliation. */
  method ReserveAll(rows: map<nat, int>, alloc: PortAllocator)
    modifies alloc
    ensures alloc.used == old(alloc.used) + Reserved(rows)
  {
    var todo := rows.Keys;
    while todo != {}
      invariant todo <= rows.Keys
      invariant alloc.used == old(alloc.used) + (set id | id in rows && id !in todo && rows[id] > 0 :: rows[id])
      decreases |todo|
    {
      var id :| id in todo;
      if rows[id] > 0 { alloc.Reserve(rows[id]); }
      todo := todo - {id};
    }
  }

  lemma ReservedIsValues(s: State)
    requires Inv(s)
    ensures Reserved(s.rows) == s.rows.Values
  {
  }

  class Manager {
    const ports: PortAllocator
    var rows: map<nat, int>     // the vms table: id -> port_block_base
    var nextId: nat             // ids are fresh
    ghost var st: State

    ghost predicate Valid()
      reads this, ports
    {
      && Inv(st)
      && rows == st.rows && nextId == st.nextId
      && ports.used == st.used && ports.base == st.base && ports.blockSize == st.size
    }

    /** NewManager on the rows a previous process, possibly under another port configuration, left in
        state prev: every block is reserved anew. */
    constructor (rows: map<nat, int>, nextId: nat, base: int, size: int, ghost prev: State)
      requires Inv(prev) && prev.rows == rows && prev.nextId == nextId && Grid(base, size).Valid()
      ensures Valid() && st == Apply(prev, Restart(Grid(base, size))) && fresh(ports)
      ensures this.rows == rows && ports.used == rows.Values
    {
      var alloc := new PortAllocator(base, size);
      ReserveAll(rows, alloc);
      ports := alloc;
      this.rows, this.nextId := rows, nextId;
      st := Apply(prev, Restart(Grid(base, size)));
      new;
      StepKeepsInv(prev, Restart(Grid(base, size)));
      ReservedIsValues(prev);
    }

    // -------------------------------------------------------------- atomic blocks

    method AllocateBlock() returns (b: Option<int>, ghost op: nat)
      requires Valid()
      modifies this`st, ports
      ensures Valid() && st == Apply(old(st), StartCreate) && op == |old(st).ops|
      ensures b == FirstFree(ports.base, ports.blockSize, old(ports.used))
      ensures ports.used == if b.Some? then old(ports.used) + {b.value} else old(ports.used)
      ensures b.Some? ==> st.ops[op] == Holding(b.value)
    {
      StepKeepsInv(st, StartCreate);
      op := |st.ops|;
      var r := ports.Allocate();
      st := Apply(st, StartCreate);
      b := match r case Some(blk) => Some(blk.base) case None => None;
    }

    method InsertRow(b: int, ghost op: nat) returns (id: nat)
      requires Valid() && op < |st.ops| && st.ops[op] == Holding(b)
      modifies this
      ensures Valid() && st == Apply(old(st), Insert(op))
      ensures id == old(nextId) && id !in old(rows) && rows == old(rows)[id := b]
    {
      StepKeepsInv(st, Insert(op));
      id := nextId;
      rows := rows[id := b];
      nextId := nextId + 1;
      st := Apply(st, Insert(op));
    }

    method ReleaseBlock(b: int, ghost op: nat)
      requires Valid() && op < |st.ops| && st.ops[op] == Owing(b)
      modifies this`st, ports
      ensures Valid() && st == Apply(old(st), FreeBlock(op))
      ensures b in old(ports.used) && ports.used == old(ports.used) - {b}
    {
      InvMeansSafeRelease(st, op);
      StepKeepsInv(st, FreeBlock(op));
      ports.Release(b);
      st := Apply(st, FreeBlock(op));
    }

    method ReadRow(id: nat) returns (b: Option<int>, ghost op: nat)
      requires Valid()
      modifies this`st
      ensures Valid() && st == Apply(old(st), StartDelete(id)) && op == |old(st).ops|
      ensures b == if id in rows then Some(rows[id]) else None
      ensures b.Some? ==> st.ops[op] == Op.Deleting(id, b.value)
    {
      StepKeepsInv(st, StartDelete(id));
      op := |st.ops|;
      b := if id in rows then Some(rows[id]) else None;
      st := Apply(st, StartDelete(id));
    }

    method DeleteRowOf(id: nat, b: int, ghost op: nat) returns (found: bool)
      requires Valid() && op < |st.ops| && st.ops[op] == Op.Deleting(id, b)
      modifies this`rows, this`st
      ensures Valid() && st == Apply(old(st), DeleteRow(op))
      ensures found == (id in old(rows)) && rows == old(rows) - {id}
      ensures found ==> st.ops[op] == Owing(b)
    {
      StepKeepsInv(st, DeleteRow(op));
      found := id in rows;
      rows := rows - {id};
      st := Apply(st, DeleteRow(op));
    }

    // -------------------------------------------------------------- whole operations

    /** Create, Import and ImportBundle: every failure after Allocate gives the block back. */
    method Create(prepares: bool, inserts: bool) returns (id: Option<nat>)
      requires Valid()
      modifies this, ports
      ensures Valid()
      ensures var free := FirstFree(ports.base, ports.blockSize, old(ports.used));
        if free.None? || !prepares || !inserts
        then id == None && rows == old(rows) && ports.used == old(ports.used)
        else id.Some? && id.value !in old(rows) && rows == old(rows)[id.value := free.value]
             && ports.used == old(ports.used) + {free.value}
    {
      var b, op := AllocateBlock();
      if b.None? { return None; }
      assert b.value !in old(ports.used) by { LeastFree(ports.base, ports.blockSize, old(ports.used)); }
      if !prepares || !inserts {
        StepKeepsInv(st, FailCreate(op));
        st := Apply(st, FailCreate(op));
        ReleaseBlock(b.value, op);
        return None;
      }
      var n := InsertRow(b.value, op);
      id := Some(n);
    }

    method Delete(id: nat) returns (ok: bool)
      requires Valid()
      modifies this, ports
      ensures Valid() && ok == (id in old(rows)) && rows == old(rows) - {id}
      ensures ports.used == if ok then old(ports.used) - {old(rows)[id]} else old(ports.used)
    {
      var b, op := ReadRow(id);
      if b.None? { return false; }
      ok := DeleteRowOf(id, b.value, op);
      if !ok { return; }
      ReleaseBlock(b.value, op);
    }
  }
}
