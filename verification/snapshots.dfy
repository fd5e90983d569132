/**
 The legacy snapshot index of internal/vm/snapshots.go: a table that mirrors a VM's backup directory.

 The table is unique on (VM, name); a row id is its issue number. Statements succeed, and one call
 reads the clock once.
 */
module Snapshots {
  datatype Row = Row(id: nat, size: int, created: int)
  datatype Snapshot = Snapshot(id: nat, vm: string, name: string, size: int, created: int)
  type Table = map<(string, string), Row>

  /** An entry of the backups directory: a backup is a directory that holds a config.plist. */
  datatype Entry = Entry(name: string, isDir: bool, hasConfig: bool, size: int)

  predicate IsBackup(e: Entry) { e.isDir && e.hasConfig }

  predicate DistinctNames(entries: seq<Entry>) {
    forall i, j :: 0 <= i < j < |entries| ==> entries[i].name != entries[j].name
  }

  function OnDisk(entries: seq<Entry>): map<string, int> {
    if entries == [] then map[]
    else
      var e := entries[|entries|-1];
      var front := OnDisk(entries[..|entries|-1]);
      if IsBackup(e) then front[e.name := e.size] else front
  }

  /** OnDisk holds the name and size of every backup and nothing else. */
  lemma OnDiskIsBackups(entries: seq<Entry>)
    requires DistinctNames(entries)
    ensures forall n :: n in OnDisk(entries) <==>
      exists i :: 0 <= i < |entries| && entries[i].name == n && IsBackup(entries[i])
    ensures forall i :: 0 <= i < |entries| && IsBackup(entries[i]) ==>
      entries[i].name in OnDisk(entries) && OnDisk(entries)[entries[i].name] == entries[i].size
  {
    forall i | 0 <= i < |entries|
      ensures entries[i].name in OnDisk(entries) <==> IsBackup(entries[i])
      ensures IsBackup(entries[i]) ==> OnDisk(entries)[entries[i].name] == entries[i].size
    {
      BackupOnDisk(entries, i);
    }
    forall n | n in OnDisk(entries)
      ensures exists i :: 0 <= i < |entries| && entries[i].name == n && IsBackup(entries[i])
    {
      NameOnDisk(entries, n);
    }
  }

  lemma {:induction false} BackupOnDisk(entries: seq<Entry>, i: nat)
    requires DistinctNames(entries) && i < |entries|
    ensures entries[i].name in OnDisk(entries) <==> IsBackup(entries[i])
    ensures IsBackup(entries[i]) ==> OnDisk(entries)[entries[i].name] == entries[i].size
    decreases |entries|
  {
    var n := |entries| - 1;
    if i < n {
      BackupOnDisk(entries[..n], i);
    } else if !IsBackup(entries[n]) {
      NameOnDisk(entries[..n], entries[n].name);
    }
  }

  lemma {:induction false} NameOnDisk(entries: seq<Entry>, name: string)
    ensures name in OnDisk(entries) ==> exists i :: 0 <= i < |entries| && entries[i].name == name
    decreases |entries|
  {
    if entries == [] {
    } else {
      var n := |entries| - 1;
      NameOnDisk(entries[..n], name);
      if k :| 0 <= k < n && entries[..n][k].name == name {
        assert entries[k].name == name;
      }
      assert entries[n].name == entries[n].name;
    }
  }

  function ToSnapshot(key: (string, string), r: Row): Snapshot {
    Snapshot(r.id, key.0, key.1, r.size, r.created)
  }

  /** A VM's rows. */
  function RowsOf(t: Table, vm: string): set<Snapshot> {
    set k | k in t && k.0 == vm :: ToSnapshot(k, t[k])
  }

  predicate NewestFirst(s: seq<Snapshot>) {
    forall i, j :: 0 <= i < j < |s| ==> s[i].created >= s[j].created
  }

  // ---------------------------------------------------------------- what a call establishes

  /** The VM's rows carry exactly the names and sizes on disk; a row whose name was there before keeps
      its id and creation time, a new one is stamped `now` and has an id from `firstId` up. */
  ghost predicate Mirrors(before: Table, after: Table, vm: string, disk: map<string, int>, now: int, firstId: nat) {
    && (forall n :: (vm, n) in after <==> n in disk)
    && (forall n :: n in disk ==> Mirrored(before, after, vm, n, disk[n], now, firstId))
    && OthersSame(before, after, vm)
  }

  ghost predicate Mirrored(before: Table, after: Table, vm: string, n: string, size: int, now: int, firstId: nat) {
    && (vm, n) in after && after[(vm, n)].size == size
    && (if (vm, n) in before
        then after[(vm, n)].id == before[(vm, n)].id && after[(vm, n)].created == before[(vm, n)].created
        else after[(vm, n)].id >= firstId && after[(vm, n)].created == now)
  }

  /** No other VM's rows change. */
  ghost predicate OthersSame(before: Table, after: Table, vm: string) {
    forall k: (string, string) :: k.0 != vm ==> (k in before <==> k in after) && (k in before ==> before[k] == after[k])
  }

  predicate DistinctIds(t: Table) {
    forall k, l :: k in t && l in t && t[k].id == t[l].id ==> k == l
  }

  predicate IdsBelow(t: Table, firstId: nat) { forall k :: k in t ==> t[k].id < firstId }

  /** Mirroring an unchanged directory again changes nothing. */
  lemma MirrorTwice(t0: Table, t1: Table, t2: Table, vm: string, disk: map<string, int>,
                    now1: int, now2: int, firstId1: nat, firstId2: nat)
    requires Mirrors(t0, t1, vm, disk, now1, firstId1) && Mirrors(t1, t2, vm, disk, now2, firstId2)
    ensures t1 == t2
  {
    forall k: (string, string) ensures (k in t1 <==> k in t2) && (k in t1 ==> t1[k] == t2[k]) {
      if k.0 == vm {
        var n := k.1;
        assert k == (vm, n);
        if n in disk {
          assert Mirrored(t0, t1, vm, n, disk[n], now1, firstId1) && Mirrored(t1, t2, vm, n, disk[n], now2, firstId2);
        }
      }
    }
    assert t1.Keys == t2.Keys;
  }

  function Later(s: seq<Snapshot>, t: int): nat {
    if s == [] then 0 else Later(s[..|s|-1], t) + if s[|s|-1].created > t then 1 else 0
  }

  lemma RemoveOne<T>(s: seq<T>, i: nat)
    requires i < |s|
    ensures multiset(s) == multiset(s[..i] + s[i+1..]) + multiset{s[i]}
  {
    assert s == s[..i] + ([s[i]] + s[i+1..]);
  }

  /** Taking the last element of a out of both. */
  lemma DropLast<T>(a: seq<T>, b: seq<T>) returns (i: nat)
    requires multiset(a) == multiset(b) && a != []
    ensures i < |b| && b[i] == a[|a|-1]
    ensures multiset(a[..|a|-1]) == multiset(b[..i] + b[i+1..])
  {
    var n := |a| - 1;
    var x := a[n];
    assert x in multiset(a);
    assert x in multiset(b);
    i :| 0 <= i < |b| && b[i] == x;
    RemoveOne(b, i);
    RemoveOne(a, n);
    assert a[..n] + a[n+1..] == a[..n];
    SumCancels(multiset(a[..n]), multiset(b[..i] + b[i+1..]), multiset{x});
  }

  lemma SumCancels<T>(a: multiset<T>, b: multiset<T>, c: multiset<T>)
    requires a + c == b + c
    ensures a == b
  {
    assert (a + c) - c == a && (b + c) - c == b;
  }

  lemma {:induction false} LaterOfMultiset(a: seq<Snapshot>, b: seq<Snapshot>, t: int)
    requires multiset(a) == multiset(b)
    ensures Later(a, t) == Later(b, t)
    decreases |a|
  {
    assert |multiset(a)| == |a| && |multiset(b)| == |b|;
    if a == [] {
    } else {
      var i := DropLast(a, b);
      LaterOfMultiset(a[..|a|-1], b[..i] + b[i+1..], t);
      LaterWithout(b, i, t);
    }
  }

  lemma {:induction false} LaterWithout(s: seq<Snapshot>, i: nat, t: int)
    requires i < |s|
    ensures Later(s, t) == Later(s[..i] + s[i+1..], t) + if s[i].created > t then 1 else 0
    decreases |s|
  {
    var n := |s| - 1;
    if i == n {
      assert s[..i] + s[i+1..] == s[..n];
    } else {
      LaterWithout(s[..n], i, t);
      assert (s[..i] + s[i+1..])[..n-1] == s[..n][..i] + s[..n][i+1..];
    }
  }

  lemma {:induction false} LaterPrefix(s: seq<Snapshot>, i: nat, t: int)
    requires i <= |s| && NewestFirst(s)
    ensures (forall k :: 0 <= k < i ==> s[k].created > t) ==> Later(s, t) >= i
    ensures (forall k :: i <= k < |s| ==> s[k].created <= t) ==> Later(s, t) <= i
    decreases |s|
  {
    if s == [] {
    } else {
      var n := |s| - 1;
      LaterPrefix(s[..n], if i <= n then i else n, t);
    }
  }

  lemma NotOutnumbered(a: seq<Snapshot>, b: seq<Snapshot>, i: nat)
    requires multiset(a) == multiset(b) && NewestFirst(a) && NewestFirst(b) && i < |a| == |b|
    ensures a[i].created >= b[i].created
  {
    var t := a[i].created;
    LaterPrefix(a, i, t);
    LaterPrefix(b, i + 1, t);
    LaterOfMultiset(a, b, t);
  }

  /** Two newest-first listings of the same rows have the same creation times in the same places. */
  lemma ListingsAgree(a: seq<Snapshot>, b: seq<Snapshot>, i: nat)
    requires multiset(a) == multiset(b) && NewestFirst(a) && NewestFirst(b) && i < |a|
    ensures |a| == |b| && a[i].created == b[i].created
  {
    assert |multiset(a)| == |a| && |multiset(b)| == |b|;
    NotOutnumbered(a, b, i);
    NotOutnumbered(b, a, i);
  }

  /** Upsert after some of the names: the rest still have their old rows or none. */
  ghost predicate HalfWay(before: Table, after: Table, vm: string, disk: map<string, int>, todo: set<string>,
                          now: int, firstId: nat) {
    && (forall n :: (vm, n) in after <==> n in disk && (n in todo ==> (vm, n) in before))
    && (forall n :: n in disk && n !in todo ==> Mirrored(before, after, vm, n, disk[n], now, firstId))
    && (forall n :: n in disk && n in todo && (vm, n) in before ==> after[(vm, n)] == before[(vm, n)])
    && OthersSame(before, after, vm)
  }

  lemma HalfWayStep(before: Table, mid: Table, vm: string, disk: map<string, int>, todo: set<string>,
                    now: int, firstId: nat, name: string, id: nat)
    requires HalfWay(before, mid, vm, disk, todo, now, firstId) && name in todo && name in disk && id >= firstId
    ensures (vm, name) in mid ==>
      HalfWay(before, mid[(vm, name) := mid[(vm, name)].(size := disk[name])], vm, disk, todo - {name}, now, firstId)
    ensures (vm, name) !in mid ==>
      HalfWay(before, mid[(vm, name) := Row(id, disk[name], now)], vm, disk, todo - {name}, now, firstId)
  {
  }

  /** Dropping what is gone and then upserting mirrors the directory. */
  lemma DropThenUpsert(t0: Table, t1: Table, t2: Table, vm: string, disk: map<string, int>, now: int, firstId: nat)
    requires forall n :: (vm, n) in t1 <==> (vm, n) in t0 && n in disk
    requires forall k :: k in t1 ==> k in t0 && t1[k] == t0[k]
    requires OthersSame(t0, t1, vm) && Mirrors(t1, t2, vm, disk, now, firstId)
    ensures Mirrors(t0, t2, vm, disk, now, firstId)
  {
    forall n | n in disk ensures Mirrored(t0, t2, vm, n, disk[n], now, firstId) {
      assert Mirrored(t1, t2, vm, n, disk[n], now, firstId);
    }
  }

  /** The rows after the known names have been looked at: those no longer on disk are gone. */
  ghost predicate Dropped(before: Table, after: Table, vm: string, onDisk: map<string, int>, known: set<string>) {
    && OthersSame(before, after, vm)
    && (forall n :: (vm, n) in after <==> (vm, n) in before && (n in onDisk || n !in known))
    && (forall k :: k in after ==> k in before && after[k] == before[k])
  }

  lemma DropOne(before: Table, mid: Table, vm: string, onDisk: map<string, int>, known: set<string>, name: string)
    requires Dropped(before, mid, vm, onDisk, known)
    ensures name in onDisk ==> Dropped(before, mid, vm, onDisk, known + {name})
    ensures name !in onDisk ==> Dropped(before, mid - {(vm, name)}, vm, onDisk, known + {name})
  {
  }

  function Names(s: seq<Snapshot>): set<string> { set x | x in s :: x.name }

  lemma NamesGrow(s: seq<Snapshot>, i: nat)
    requires i < |s|
    ensures Names(s[..i+1]) == Names(s[..i]) + {s[i].name}
  {
    assert s[..i+1] == s[..i] + [s[i]];
  }

  lemma NamesListed(s: seq<Snapshot>, t: Table, vm: string)
    requires multiset(s) == multiset(RowsOf(t, vm))
    ensures forall n :: n in Names(s) <==> (vm, n) in t
  {
    forall n ensures n in Names(s) <==> (vm, n) in t {
      if n in Names(s) {
        var x :| x in s && x.name == n;
        assert x in multiset(s);
        assert x in RowsOf(t, vm);
      }
      if (vm, n) in t {
        var x := ToSnapshot((vm, n), t[(vm, n)]);
        assert x in RowsOf(t, vm);
        assert x in multiset(s);
      }
    }
  }

  lemma RowsOfGrow(t: Table, k: (string, string), r: Row, vm: string)
    requires k !in t
    ensures RowsOf(t[k := r], vm) == RowsOf(t, vm) + (if k.0 == vm then {ToSnapshot(k, r)} else {})
    ensures ToSnapshot(k, r) !in RowsOf(t, vm)
  {
    var t' := t[k := r];
    forall x ensures x in RowsOf(t', vm) <==> x in RowsOf(t, vm) + (if k.0 == vm then {ToSnapshot(k, r)} else {}) {
      if x in RowsOf(t, vm) {
        var l :| l in t && l.0 == vm && x == ToSnapshot(l, t[l]);
        assert l in t' && t'[l] == t[l];
      }
      if k.0 == vm && x == ToSnapshot(k, r) {
        assert k in t' && t'[k] == r;
      }
    }
  }

  // ---------------------------------------------------------------- the store and the listing

  class Store {
    var rows: Table
    var nextId: nat

    ghost predicate Valid()
      reads this
    {
      DistinctIds(rows) && IdsBelow(rows, nextId)
    }

    constructor ()
      ensures Valid() && rows == map[]
    {
      rows, nextId := map[], 0;
    }

    /** INSERT OR REPLACE with a fresh id. */
    method Insert(vm: string, name: string, size: int, now: int)
      requires Valid()
      modifies this
      ensures Valid() && nextId == old(nextId) + 1
      ensures rows == old(rows)[(vm, name) := Row(old(nextId), size, now)]
    {
      rows := rows[(vm, name) := Row(nextId, size, now)];
      nextId := nextId + 1;
    }

    method UpdateSize(vm: string, name: string, size: int)
      requires Valid()
      modifies this`rows
      ensures Valid()
      ensures rows == if (vm, name) in old(rows)
                      then old(rows)[(vm, name) := old(rows)[(vm, name)].(size := size)] else old(rows)
    {
      if (vm, name) in rows {
        rows := rows[(vm, name) := rows[(vm, name)].(size := size)];
      }
    }

    method Delete(vm: string, name: string)
      requires Valid()
      modifies this`rows
      ensures Valid() && rows == old(rows) - {(vm, name)}
    {
      rows := rows - {(vm, name)};
    }

    /** The VM's rows, each once, in some order. */
    method ListByVM(vm: string) returns (out: seq<Snapshot>)
      ensures multiset(out) == multiset(RowsOf(rows, vm))
    {
      out := [];
      var todo := rows.Keys;
      ghost var done: Table := map[];
      while todo != {}
        invariant todo <= rows.Keys && done == rows - todo
        invariant multiset(out) == multiset(RowsOf(done, vm))
        decreases todo
      {
        var k :| k in todo;
        todo := todo - {k};
        ghost var was := done;
        done := rows - todo;
        assert done == was[k := rows[k]];
        RowsOfGrow(was, k, rows[k], vm);
        if k.0 == vm {
          out := out + [ToSnapshot(k, rows[k])];
        }
      }
      assert done == rows;
    }

    /** listSnapshotsLegacy. The directory listing has distinct names. */
    method ListSnapshotsLegacy(vm: string, entries: seq<Entry>, now: int) returns (out: seq<Snapshot>)
      requires Valid() && DistinctNames(entries)
      modifies this
      ensures Valid() && nextId >= old(nextId)
      ensures Mirrors(old(rows), rows, vm, OnDisk(entries), now, old(nextId))
      ensures NewestFirst(out) && multiset(out) == multiset(RowsOf(rows, vm))
    {
      var onDisk := Scan(entries);
      var snaps := ListByVM(vm);
      var known := DropMissing(vm, onDisk, snaps);
      ghost var dropped := rows;
      Upsert(vm, onDisk, known, now);
      DropThenUpsert(old(rows), dropped, rows, vm, onDisk, now, old(nextId));
      var listed := ListByVM(vm);
      out := SortNewestFirst(listed);
    }

    /** The rows no longer on disk go; the names that had a row are returned. */
    method DropMissing(vm: string, onDisk: map<string, int>, snaps: seq<Snapshot>) returns (known: set<string>)
      requires Valid() && multiset(snaps) == multiset(RowsOf(rows, vm))
      modifies this`rows
      ensures Valid() && OthersSame(old(rows), rows, vm)
      ensures forall n :: n in known <==> (vm, n) in old(rows)
      ensures forall n :: (vm, n) in rows <==> (vm, n) in old(rows) && n in onDisk
      ensures forall k :: k in rows ==> rows[k] == old(rows)[k]
    {
      known := {};
      NamesListed(snaps, rows, vm);
      var i := 0;
      while i < |snaps|
        invariant 0 <= i <= |snaps|
        invariant Valid() && known == Names(snaps[..i]) && Dropped(old(rows), rows, vm, onDisk, known)
      {
        var s := snaps[i];
        NamesGrow(snaps, i);
        DropOne(old(rows), rows, vm, onDisk, known, s.name);
        known := known + {s.name};
        if s.name !in onDisk {
          Delete(vm, s.name);
        }
        i := i + 1;
      }
      assert snaps[..i] == snaps;
    }

    /** Every name on disk gets a row or its new size. */
    method Upsert(vm: string, onDisk: map<string, int>, known: set<string>, now: int)
      requires Valid() && forall n :: (vm, n) in rows <==> n in known && n in onDisk
      modifies this
      ensures Valid() && nextId >= old(nextId)
      ensures Mirrors(old(rows), rows, vm, onDisk, now, old(nextId))
    {
      var todo := onDisk.Keys;
      while todo != {}
        invariant todo <= onDisk.Keys && Valid() && nextId >= old(nextId)
        invariant HalfWay(old(rows), rows, vm, onDisk, todo, now, old(nextId))
        decreases todo
      {
        var name :| name in todo;
        HalfWayStep(old(rows), rows, vm, onDisk, todo, now, old(nextId), name, nextId);
        todo := todo - {name};
        if name !in known {
          Insert(vm, name, onDisk[name], now);
        } else {
          UpdateSize(vm, name, onDisk[name]);
        }
      }
    }
  }

  method Scan(entries: seq<Entry>) returns (onDisk: map<string, int>)
    ensures onDisk == OnDisk(entries)
  {
    onDisk := map[];
    var i := 0;
    while i < |entries|
      invariant 0 <= i <= |entries| && onDisk == OnDisk(entries[..i])
    {
      assert entries[..i+1][..i] == entries[..i];
      var e := entries[i];
      i := i + 1;
      if !e.isDir { continue; }
      if !e.hasConfig { continue; }
      onDisk := onDisk[e.name := e.size];
    }
    assert entries[..i] == entries;
  }

  /** Puts one row into a sorted list, before the first older one. */
  method InsertSorted(s: seq<Snapshot>, x: Snapshot) returns (r: seq<Snapshot>)
    requires NewestFirst(s)
    ensures NewestFirst(r) && multiset(r) == multiset(s) + multiset{x}
  {
    var i := 0;
    while i < |s| && s[i].created >= x.created
      invariant 0 <= i <= |s| && forall k :: 0 <= k < i ==> s[k].created >= x.created
    {
      i := i + 1;
    }
    r := s[..i] + [x] + s[i..];
    InsertedSorted(s, i, x);
    InsertedElements(s, i, x);
  }

  lemma InsertedSorted(s: seq<Snapshot>, i: nat, x: Snapshot)
    requires NewestFirst(s) && i <= |s|
    requires (forall k :: 0 <= k < i ==> s[k].created >= x.created) && (i < |s| ==> s[i].created < x.created)
    ensures NewestFirst(s[..i] + [x] + s[i..])
  {
    var r := s[..i] + [x] + s[i..];
    forall j, k | 0 <= j < k < |r| ensures r[j].created >= r[k].created {
      assert r[j] == if j < i then s[j] else if j == i then x else s[j-1];
      assert r[k] == if k < i then s[k] else if k == i then x else s[k-1];
    }
  }

  lemma InsertedElements<T>(s: seq<T>, i: nat, x: T)
    requires i <= |s|
    ensures multiset(s[..i] + [x] + s[i..]) == multiset(s) + multiset{x}
  {
    assert s == s[..i] + s[i..];
    assert multiset(s[..i] + [x] + s[i..]) == multiset(s[..i]) + multiset{x} + multiset(s[i..]);
  }

  method SortNewestFirst(s: seq<Snapshot>) returns (r: seq<Snapshot>)
    ensures NewestFirst(r) && multiset(r) == multiset(s)
  {
    r := [];
    var i := 0;
    while i < |s|
      invariant 0 <= i <= |s| && NewestFirst(r) && multiset(r) == multiset(s[..i])
    {
      assert s[..i+1] == s[..i] + [s[i]];
      r := InsertSorted(r, s[i]);
      i := i + 1;
    }
    assert s[..i] == s;
  }
}
