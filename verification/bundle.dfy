/**
 Bundle export and import: internal/vm/bundle.go.

 A directory tree is a map from relative paths to files, an archive a list of entries. `Json` is data
 that parses as a manifest with the fields it mentions, `Raw` data that does not. Reading, writing and
 inserting may fail.
 */
module Bundle {
  import opened Options
  import opened Strings
  import opened Ports
  import opened VmStatus

  datatype Result<+T> = Ok(value: T) | Err(error: Error)
  datatype Error =
    | NotFound | MustBeStopped | NotABundle | NoConfig | BadManifest | BadName | NoPorts | IoError | InsertFailed

  type Path = seq<string>

  datatype Meta = Meta(name: string, variant: string, iosVersion: string, networkMode: string,
                       cpu: int, memory: int, diskSize: int)
  datatype Mention = Mention(name: Option<string>, variant: Option<string>, iosVersion: Option<string>,
                             networkMode: Option<string>, cpu: Option<int>, memory: Option<int>, diskSize: Option<int>)
  datatype Data = Json(mention: Mention) | Raw(bytes: string)
  datatype Kind = Regular | Socket | Symlink
  datatype File = File(kind: Kind, data: Data)
  type Dir = map<Path, File>
  datatype Entry = Entry(name: string, isDir: bool, data: Data)

  datatype Vm = Vm(name: string, status: Status, variant: string, iosVersion: string, networkMode: string,
                   cpu: int, memory: int, diskSize: int, portBase: int)

  const META_NAME := "vphone-bundle.json"
  const CONFIG := "config.plist"
  const VM_PREFIX := "vm/"

  /** What a real directory guarantees: file names, and no file inside another file. */
  ghost predicate TreeOk(d: Dir) {
    && (forall p :: p in d ==> PathOk(p))
    && (forall p, q :: p in d && q in d && p <= q ==> p == q)
  }

  function Or<T>(o: Option<T>, def: T): T { if o.Some? then o.value else def }

  /** The decoder overwrites the fields a manifest mentions and keeps the others. */
  function Decode(m: Meta, n: Mention): Meta {
    Meta(Or(n.name, m.name), Or(n.variant, m.variant), Or(n.iosVersion, m.iosVersion),
         Or(n.networkMode, m.networkMode), Or(n.cpu, m.cpu), Or(n.memory, m.memory), Or(n.diskSize, m.diskSize))
  }

  /** The encoder mentions every field. */
  function Encode(m: Meta): Mention {
    Mention(Some(m.name), Some(m.variant), Some(m.iosVersion), Some(m.networkMode),
            Some(m.cpu), Some(m.memory), Some(m.diskSize))
  }

  // ---------------------------------------------------------------- export

  /** A VM can be exported only while nothing runs on its files or writes them. */
  predicate Exportable(st: Status) { st.Stopped? || st.Errored? }

  /** bundleIncludes: no sockets or symlinks, no screenshots or logs, nothing of an extracted restore. */
  predicate Includes(p: Path, k: Kind)
    requires p != []
  {
    var base := p[|p|-1];
    && k != Socket && k != Symlink
    && !HasPrefix(base, ".screenshot-") && !HasSuffix(base, ".log")
    && !HasSuffix(p[0], "_Restore")
  }

  function EntryName(p: Path): string
    requires p != []
  {
    VM_PREFIX + Slashed(p)
  }

  function FileEntry(d: Dir, p: Path): Entry
    requires p in d && p != []
  {
    Entry(EntryName(p), false, d[p].data)
  }

  predicate Walks(walk: seq<Path>, d: Dir) {
    && (forall i, j :: 0 <= i < j < |walk| ==> walk[i] != walk[j])
    && (forall i :: 0 <= i < |walk| ==> walk[i] in d && walk[i] != [])
  }

  /** A walk that misses nothing. */
  predicate WalksAll(walk: seq<Path>, d: Dir) {
    Walks(walk, d) && forall p :: p in d ==> p in walk
  }

  function FileEntries(walk: seq<Path>, d: Dir): seq<Entry>
    requires Walks(walk, d)
  {
    if walk == [] then []
    else
      var p, front := walk[|walk|-1], FileEntries(walk[..|walk|-1], d);
      if Includes(p, d[p].kind) then front + [FileEntry(d, p)] else front
  }

  function MetaOf(v: Vm): Meta {
    Meta(v.name, v.variant, v.iosVersion, v.networkMode, v.cpu, v.memory, v.diskSize)
  }

  function Exported(v: Vm, walk: seq<Path>, d: Dir): seq<Entry>
    requires Walks(walk, d)
  {
    [Entry(META_NAME, false, Json(Encode(MetaOf(v))))] + FileEntries(walk, d)
  }

  // ---------------------------------------------------------------- import

  /** The pass over the archive for the manifest and the config entry. */
  datatype Scan = Scan(meta: Meta, hasMeta: bool, hasConfig: bool) | Undecodable

  const NO_META := Meta("", "", "", "", 0, 0, 0)

  function ScanEntries(zip: seq<Entry>): Scan {
    if zip == [] then Scan(NO_META, false, false)
    else
      var e := zip[|zip|-1];
      match ScanEntries(zip[..|zip|-1])
      case Undecodable => Undecodable
      case Scan(m, has, c) =>
        if e.name == META_NAME then
          (if e.data.Json? then Scan(Decode(m, e.data.mention), true, c) else Undecodable)
        else Scan(m, has, c || e.name == VM_PREFIX + CONFIG)
  }

  predicate Skipped(e: Entry) {
    || !HasPrefix(e.name, VM_PREFIX) || e.name[|VM_PREFIX|..] == ""
    || Contains(e.name[|VM_PREFIX|..], "..") || e.isDir
  }

  /** The place of an extracted entry below the new VM directory. */
  function Dest(e: Entry): Path
    requires !Skipped(e)
  {
    Clean(e.name[|VM_PREFIX|..])
  }

  /** A file is where a directory is needed, or a directory where the file goes. */
  predicate Blocked(d: Dir, p: Path) {
    p == [] || exists q | q in d :: q < p || p < q
  }

  function Extract(d: Dir, e: Entry): Option<Dir> {
    if Skipped(e) then Some(d)
    else if Blocked(d, Dest(e)) then None
    else Some(d[Dest(e) := File(Regular, e.data)])
  }

  function Unpack(zip: seq<Entry>): Option<Dir> {
    if zip == [] then Some(map[])
    else match Unpack(zip[..|zip|-1])
      case None => None
      case Some(d) => Extract(d, zip[|zip|-1])
  }

  predicate Bootable(d: Dir) { exists p | p in d :: p != [] && p[0] == CONFIG }

  predicate NameChar(c: char, first: bool) {
    'a' <= c <= 'z' || 'A' <= c <= 'Z' || '0' <= c <= '9' || (!first && (c == '_' || c == '-'))
  }

  predicate NameOk(s: string) {
    1 <= |s| <= 64 && forall i :: 0 <= i < |s| ==> NameChar(s[i], i == 0)
  }

  function OrDefault(s: string, def: string): string { if s == "" then def else s }

  function OrInt(n: int, def: int): int { if n <= 0 then def else n }

  function FinalName(override: string, m: Meta): string { if override == "" then m.name else override }

  function Imported(override: string, m: Meta, base: int): Vm {
    Vm(FinalName(override, m), Stopped, m.variant, m.iosVersion, OrDefault(m.networkMode, "nat"),
       OrInt(m.cpu, 6), OrInt(m.memory, 6144), OrInt(m.diskSize, 32768), base)
  }

  /** What the archive and the name must satisfy before a block is allocated. */
  predicate Acceptable(zip: seq<Entry>, override: string) {
    match ScanEntries(zip)
    case Undecodable => false
    case Scan(m, has, c) => has && c && NameOk(FinalName(override, m))
  }

  // ---------------------------------------------------------------- the round trip

  /** The files an import of an export restores. */
  predicate Survives(d: Dir, p: Path)
    requires p in d && p != []
  {
    Includes(p, d[p].kind) && !Contains(Slashed(p), "..")
  }

  function Kept(d: Dir): Dir {
    map p | p in d && p != [] && Survives(d, p) :: File(Regular, d[p].data)
  }

  lemma ExtractFileEntry(d: Dir, p: Path)
    requires p in d && PathOk(p)
    ensures Skipped(FileEntry(d, p)) <==> Contains(Slashed(p), "..")
    ensures !Skipped(FileEntry(d, p)) ==> Dest(FileEntry(d, p)) == p
  {
    var e := FileEntry(d, p);
    assert e.name[|VM_PREFIX|..] == Slashed(p);
    CleanSlashed(p);
    assert Clean("") == [];
  }

  /** The surviving files of a walk. */
  function Restored(walk: seq<Path>, d: Dir): (r: Dir)
    requires Walks(walk, d)
    ensures forall p :: p in r <==> p in walk && Survives(d, p)
    ensures forall p :: p in r ==> r[p] == File(Regular, d[p].data)
  {
    if walk == [] then map[]
    else
      var p, front := walk[|walk|-1], Restored(walk[..|walk|-1], d);
      if Survives(d, p) then front[p := File(Regular, d[p].data)] else front
  }

  lemma ExtractNext(r: Dir, d: Dir, p: Path)
    requires TreeOk(d) && p in d && p !in r && forall q :: q in r ==> q in d
    ensures Extract(r, FileEntry(d, p)) ==
      Some(if Contains(Slashed(p), "..") then r else r[p := File(Regular, d[p].data)])
  {
    ExtractFileEntry(d, p);
    assert !Blocked(r, p) by {
      forall q | q in r ensures !(q < p || p < q) {
        assert q in d;
      }
    }
  }

  /** Extracting the entries of a walk gives exactly its surviving files. */
  lemma {:induction false} UnpackWalk(walk: seq<Path>, d: Dir)
    requires TreeOk(d) && Walks(walk, d)
    ensures Unpack(FileEntries(walk, d)) == Some(Restored(walk, d))
    decreases |walk|
  {
    if walk == [] {
    } else {
      var n := |walk| - 1;
      var p, front := walk[n], walk[..n];
      UnpackWalk(front, d);
      var es := FileEntries(front, d);
      if Includes(p, d[p].kind) {
        assert (es + [FileEntry(d, p)])[..|es|] == es;
        assert p !in front;
        ExtractNext(Restored(front, d), d, p);
      }
    }
  }

  /** The manifest entry in front of the files is not extracted. */
  lemma {:induction false} UnpackBehind(e: Entry, es: seq<Entry>)
    requires Skipped(e)
    ensures Unpack([e] + es) == Unpack(es)
    decreases |es|
  {
    var zip := [e] + es;
    if es == [] {
      assert zip[..|zip|-1] == [] && Unpack(zip[..|zip|-1]) == Some(map[]);
    } else {
      var front, last := es[..|es|-1], es[|es|-1];
      UnpackBehind(e, front);
      assert zip[..|zip|-1] == [e] + front && zip[|zip|-1] == last;
      assert Unpack(zip) == match Unpack([e] + front) case None => None case Some(d) => Extract(d, last);
    }
  }

  /** What import extracts from an export is exactly the regular files the export includes whose path
      has no "..", with equal contents. */
  lemma RoundTrip(v: Vm, walk: seq<Path>, d: Dir)
    requires TreeOk(d) && WalksAll(walk, d)
    ensures Unpack(Exported(v, walk, d)) == Some(Kept(d))
  {
    MetaOutside();
    UnpackBehind(Entry(META_NAME, false, Json(Encode(MetaOf(v)))), FileEntries(walk, d));
    UnpackWalk(walk, d);
    assert Restored(walk, d) == Kept(d);
  }

  /** Every included file comes through an export and its import, with equal contents, exactly when no
      included path contains "..", as in "a..b". */
  lemma NothingLost(v: Vm, walk: seq<Path>, d: Dir)
    requires TreeOk(d) && WalksAll(walk, d)
    ensures Unpack(Exported(v, walk, d)).Some?
    ensures var made := Unpack(Exported(v, walk, d)).value;
      (forall p :: p in d && Includes(p, d[p].kind) ==> p in made && made[p].data == d[p].data)
      <==> (forall p :: p in d && Includes(p, d[p].kind) ==> !Contains(Slashed(p), ".."))
  {
    RoundTrip(v, walk, d);
  }

  /** The entries of an export, in no order. */
  function EntrySet(d: Dir): set<Entry> {
    set p | p in d && p != [] && Includes(p, d[p].kind) :: FileEntry(d, p)
  }

  /** An export's file entries are those of the included files, one each. */
  lemma {:induction false} EntriesOfWalk(walk: seq<Path>, d: Dir, e: Entry)
    requires TreeOk(d) && Walks(walk, d)
    ensures e in FileEntries(walk, d) <==> exists p :: p in walk && Includes(p, d[p].kind) && FileEntry(d, p) == e
    ensures multiset(FileEntries(walk, d))[e] <= 1
    decreases |walk|
  {
    if walk == [] {
    } else {
      var n := |walk| - 1;
      var p, front := walk[n], walk[..n];
      assert walk == front + [p];
      EntriesOfWalk(front, d, e);
      if Includes(p, d[p].kind) && e == FileEntry(d, p) && e in FileEntries(front, d) {
        var q :| q in front && Includes(q, d[q].kind) && FileEntry(d, q) == e;
        SameName(d, p, q);
      }
    }
  }

  lemma SameName(d: Dir, p: Path, q: Path)
    requires p in d && q in d && PathOk(p) && PathOk(q) && EntryName(p) == EntryName(q)
    ensures p == q
  {
    assert EntryName(p)[|VM_PREFIX|..] == Slashed(p) && EntryName(q)[|VM_PREFIX|..] == Slashed(q);
    SlashedInjective(p, q);
  }

  lemma KeptIsTree(d: Dir)
    requires TreeOk(d)
    ensures TreeOk(Kept(d)) && Kept(Kept(d)) == Kept(d)
  {
  }

  /** Exporting the imported VM again yields the same file entries exactly when nothing was lost. */
  lemma ReExport(d: Dir)
    requires TreeOk(d)
    ensures EntrySet(Kept(d)) == EntrySet(d)
        <==> (forall p :: p in d && Includes(p, d[p].kind) ==> !Contains(Slashed(p), ".."))
  {
    forall e | e in EntrySet(Kept(d)) ensures e in EntrySet(d) {
      var p :| p in Kept(d) && Includes(p, Kept(d)[p].kind) && FileEntry(Kept(d), p) == e;
      assert FileEntry(d, p) == e;
    }
    if p :| p in d && Includes(p, d[p].kind) && Contains(Slashed(p), "..") {
      var e := FileEntry(d, p);
      assert e in EntrySet(d);
      if e in EntrySet(Kept(d)) {
        var q :| q in Kept(d) && Includes(q, Kept(d)[q].kind) && FileEntry(Kept(d), q) == e;
        SameName(d, p, q);
      }
    } else {
      forall e | e in EntrySet(d) ensures e in EntrySet(Kept(d)) {
        var p :| p in d && p != [] && Includes(p, d[p].kind) && FileEntry(d, p) == e;
        assert p in Kept(d) && FileEntry(Kept(d), p) == e;
      }
    }
  }

  /** From the second import on the tree is unchanged. */
  lemma SecondRoundTrip(v: Vm, walk: seq<Path>, d: Dir)
    requires TreeOk(d) && WalksAll(walk, Kept(d))
    ensures Unpack(Exported(v, walk, Kept(d))) == Some(Kept(d))
  {
    KeptIsTree(d);
    RoundTrip(v, walk, Kept(d));
  }

  /** The manifest of an import keeps each field exactly when it is non-empty or positive. */
  lemma ManifestKept(v: Vm, base: int)
    ensures var w := Imported("", MetaOf(v), base);
      && w.name == v.name && w.variant == v.variant && w.iosVersion == v.iosVersion
      && (w.networkMode == v.networkMode <==> v.networkMode != "")
      && (w.cpu == v.cpu <==> v.cpu > 0) && (w.memory == v.memory <==> v.memory > 0)
      && (w.diskSize == v.diskSize <==> v.diskSize > 0)
      && MetaOf(Imported("", MetaOf(w), base)) == MetaOf(w)
  {
    assert "nat" != "";
  }

  lemma MetaOutside()
    ensures !HasPrefix(META_NAME, VM_PREFIX)
  {
    assert META_NAME[1] == 'p' && VM_PREFIX[1] == 'm';
  }

  lemma NamesDiffer(p: Path)
    requires PathOk(p)
    ensures EntryName(p) != META_NAME
    ensures EntryName(p) == VM_PREFIX + CONFIG <==> p == [CONFIG]
  {
    MetaOutside();
    assert HasPrefix(EntryName(p), VM_PREFIX);
    ConfigPath(p);
  }

  lemma ConfigPath(p: Path)
    requires PathOk(p)
    ensures EntryName(p) == VM_PREFIX + CONFIG <==> p == [CONFIG]
  {
    var s := Slashed(p);
    assert EntryName(p)[|VM_PREFIX|..] == s && (VM_PREFIX + CONFIG)[|VM_PREFIX|..] == CONFIG;
    if s == CONFIG {
      assert Component(CONFIG) by { ConfigComponent(); }
      assert Slashed([CONFIG]) == CONFIG;
      SlashedInjective(p, [CONFIG]);
    }
  }

  lemma ConfigComponent()
    ensures Component(CONFIG)
  {
    assert CONFIG[0] == 'c';
  }

  lemma {:induction false} ScanExported(v: Vm, walk: seq<Path>, d: Dir)
    requires TreeOk(d) && Walks(walk, d)
    ensures ScanEntries(Exported(v, walk, d))
         == Scan(MetaOf(v), true, [CONFIG] in walk && Includes([CONFIG], d[[CONFIG]].kind))
    decreases |walk|
  {
    var zip := Exported(v, walk, d);
    if walk == [] {
      assert zip[..|zip|-1] == [];
      assert ScanEntries([]) == Scan(NO_META, false, false);
    } else {
      var n := |walk| - 1;
      var p, front := walk[n], walk[..n];
      assert walk == front + [p];
      ScanExported(v, front, d);
      if Includes(p, d[p].kind) {
        assert zip[..|zip|-1] == Exported(v, front, d);
        NamesDiffer(p);
      } else {
        assert zip == Exported(v, front, d);
      }
    }
  }

  /** An export can be imported under its own name exactly when the name is valid and the directory
      holds a regular config.plist at its top. */
  lemma ExportAcceptable(v: Vm, walk: seq<Path>, d: Dir, override: string)
    requires TreeOk(d) && WalksAll(walk, d)
    ensures Acceptable(Exported(v, walk, d), override)
        <==> NameOk(FinalName(override, MetaOf(v))) && [CONFIG] in d && d[[CONFIG]].kind == Regular
    ensures Acceptable(Exported(v, walk, d), override) ==> Bootable(Kept(d))
  {
    ScanExported(v, walk, d);
    ConfigIncluded();
    if [CONFIG] in d && d[[CONFIG]].kind == Regular {
      CleanSlashed([CONFIG]);
      assert Slashed([CONFIG]) == CONFIG;
      NoDots();
      assert [CONFIG] in Kept(d);
    }
  }

  lemma ConfigIncluded()
    ensures forall k :: Includes([CONFIG], k) <==> k == Regular
  {
    assert CONFIG[0] == 'c' && CONFIG[|CONFIG|-1] == 't' && CONFIG[|CONFIG|-4] == 'l';
  }

  lemma NoDots()
    ensures !Contains(CONFIG, "..")
  {
    forall i | 0 <= i <= |CONFIG| - 2 ensures !At(CONFIG, "..", i) {
      if i != 6 {
        assert CONFIG[i..i+2][0] == CONFIG[i] != '.';
      } else {
        assert CONFIG[i..i+2][1] == CONFIG[7] != '.';
      }
    }
  }

  // ---------------------------------------------------------------- the manager

  /** The file system below the VM root, and the table. */
  class Manager {
    const ports: PortAllocator
    var rows: map<string, Vm>
    var dirs: map<string, Dir>

    constructor (ports: PortAllocator)
      ensures this.ports == ports && rows == map[] && dirs == map[]
    {
      this.ports, rows, dirs := ports, map[], map[];
    }

    /** `walk` is the order the directory is walked in, `unreadable` the files that cannot be read, and
        `room` how many entries the output stream takes before it fails. */
    method ExportTo(id: string, walk: seq<Path>, unreadable: set<Path>, room: nat) returns (r: Result<seq<Entry>>)
      requires id in dirs ==> WalksAll(walk, dirs[id])
      ensures r == Err(NotFound) <==> id !in rows
      ensures r == Err(MustBeStopped) <==> id in rows && !Exportable(rows[id].status)
      ensures r.Ok? <==> id in rows && Exportable(rows[id].status) && id in dirs
                         && |Exported(rows[id], walk, dirs[id])| <= room
                         && forall p :: p in walk && p in unreadable ==> !Includes(p, dirs[id][p].kind)
      ensures r.Ok? ==> r.value == Exported(rows[id], walk, dirs[id])
    {
      if id !in rows { return Err(NotFound); }
      var v := rows[id];
      if v.status != Stopped && v.status != Errored { return Err(MustBeStopped); }
      if room == 0 { return Err(IoError); }
      var zip := [Entry(META_NAME, false, Json(Encode(MetaOf(v))))];
      if id !in dirs { return Err(IoError); }
      var d := dirs[id];
      var files := WriteFiles(zip, walk, d, unreadable, room);
      match files
      case None => return Err(IoError);
      case Some(all) => return Ok(all);
    }

    /** The walk: each included file becomes an entry, until the stream or a file fails. */
    static method WriteFiles(head: seq<Entry>, walk: seq<Path>, d: Dir, unreadable: set<Path>, room: nat)
      returns (r: Option<seq<Entry>>)
      requires Walks(walk, d) && |head| <= room
      ensures r.Some? <==> |head| + |FileEntries(walk, d)| <= room
                           && forall p :: p in walk && p in unreadable ==> !Includes(p, d[p].kind)
      ensures r.Some? ==> r.value == head + FileEntries(walk, d)
    {
      var zip := head;
      var i := 0;
      while i < |walk|
        invariant 0 <= i <= |walk| && Walks(walk[..i], d)
        invariant zip == head + FileEntries(walk[..i], d) && |zip| <= room
        invariant forall k :: 0 <= k < i && walk[k] in unreadable ==> !Includes(walk[k], d[walk[k]].kind)
      {
        ExportNext(walk, i, d);
        var p := walk[i];
        if Includes(p, d[p].kind) {
          if |zip| >= room {
            MoreEntries(walk, i + 1, d);
            return None;
          }
          if p in unreadable { return None; }
          zip := zip + [Entry(EntryName(p), false, d[p].data)];
        }
        i := i + 1;
      }
      assert walk[..i] == walk;
      return Some(zip);
    }

    /** The pass for the manifest; a manifest that does not parse stops it. */
    method ReadMeta(zip: seq<Entry>) returns (s: Scan)
      ensures s == ScanEntries(zip)
    {
      var meta, hasMeta, hasConfig := NO_META, false, false;
      var i := 0;
      while i < |zip|
        invariant 0 <= i <= |zip| && ScanEntries(zip[..i]) == Scan(meta, hasMeta, hasConfig)
      {
        assert zip[..i+1][..i] == zip[..i];
        var e := zip[i];
        if e.name == META_NAME {
          if !e.data.Json? {
            UndecodableStays(zip, i + 1);
            return Undecodable;
          }
          meta, hasMeta := Decode(meta, e.data.mention), true;
        }
        if e.name == VM_PREFIX + CONFIG {
          MetaOutside();
          assert HasPrefix(e.name, VM_PREFIX);
          hasConfig := true;
        }
        i := i + 1;
      }
      assert zip[..i] == zip;
      return Scan(meta, hasMeta, hasConfig);
    }

    /** One turn of the extraction loop; `fails` says that the system refuses to write this entry. */
    method ExtractOne(id: string, e: Entry, fails: bool) returns (ok: bool)
      requires id in dirs
      modifies this`dirs
      ensures ok <==> Extract(old(dirs)[id], e).Some? && (fails ==> Skipped(e))
      ensures dirs == if ok then old(dirs)[id := Extract(old(dirs)[id], e).value] else old(dirs)
    {
      if Skipped(e) {
        assert dirs == dirs[id := dirs[id]];
        return true;
      }
      if fails { return false; }
      var dest := Dest(e);
      if Blocked(dirs[id], dest) { return false; }
      dirs := dirs[id := dirs[id][dest := File(Regular, e.data)]];
      return true;
    }

    /** The extraction loop, up to the first entry that cannot be extracted. */
    method ExtractEntries(zip: seq<Entry>, id: string, fault: nat) returns (n: nat, ghost made: Dir)
      requires id !in dirs
      modifies this`dirs
      ensures n <= |zip| && dirs == old(dirs)[id := made] && Unpack(zip[..n]) == Some(made)
      ensures fault < n ==> Skipped(zip[fault])
      ensures n < |zip| ==> Extract(made, zip[n]).None? || (n == fault && !Skipped(zip[n]))
    {
      dirs := dirs[id := map[]];
      made := map[];
      n := 0;
      while n < |zip|
        invariant 0 <= n <= |zip| && dirs == old(dirs)[id := made]
        invariant Unpack(zip[..n]) == Some(made)
        invariant fault < n ==> Skipped(zip[fault])
      {
        var extracted := ExtractOne(id, zip[n], n == fault);
        if !extracted { return; }
        UnpackNext(zip, n);
        made := Extract(made, zip[n]).value;
        n := n + 1;
      }
    }

    /** Extracts below dirs[id]; `fault` is the first entry whose extraction the system fails. */
    method ExtractAll(zip: seq<Entry>, id: string, fault: nat) returns (ok: bool)
      requires id !in dirs
      modifies this`dirs
      ensures ok <==> Unpack(zip).Some? && (fault < |zip| ==> Skipped(zip[fault]))
      ensures ok ==> dirs == old(dirs)[id := Unpack(zip).value]
      ensures dirs - {id} == old(dirs)
    {
      var n;
      ghost var made;
      n, made := ExtractEntries(zip, id, fault);
      ok := n == |zip|;
      if ok {
        assert zip[..n] == zip;
      } else {
        UnpackNext(zip, n);
        if Unpack(zip[..n+1]).None? { StuckFails(zip, n + 1); }
      }
    }

    /** cleanup: the block goes back and the directory is removed. */
    method Cleanup(base: int, id: string)
      modifies ports, this`dirs
      ensures ports.used == old(ports.used) - {base} && dirs == old(dirs) - {id}
    {
      ports.Release(base);
      dirs := dirs - {id};
    }

    /** ImportBundle with a fresh id; `override` is the requested name without surrounding spaces, no
        archive means it cannot be opened. Every failure leaves ports, directories and rows as they
        were; success extracts exactly Unpack(zip), takes the least free block and adds one row. */
    method ImportBundle(override: string, zip: Option<seq<Entry>>, id: string, fault: nat, insertOk: bool)
      returns (r: Result<Vm>)
      requires id !in dirs && id !in rows && ports.blockSize >= 1
      modifies this, ports
      ensures r.Err? ==> ports.used == old(ports.used) && dirs == old(dirs) && rows == old(rows)
      ensures r.Ok? <==>
        && zip.Some? && Acceptable(zip.value, override)
        && FirstFree(ports.base, ports.blockSize, old(ports.used)).Some?
        && Unpack(zip.value).Some? && Bootable(Unpack(zip.value).value)
        && (fault < |zip.value| ==> Skipped(zip.value[fault])) && insertOk
      ensures r.Ok? ==>
        var base := FirstFree(ports.base, ports.blockSize, old(ports.used)).value;
        && r.value == Imported(override, ScanEntries(zip.value).meta, base)
        && base !in old(ports.used) && ports.used == old(ports.used) + {base}
        && dirs == old(dirs)[id := Unpack(zip.value).value] && rows == old(rows)[id := r.value]
    {
      if zip.None? { return Err(IoError); }
      var scan := ReadMeta(zip.value);
      if scan.Undecodable? { return Err(BadManifest); }
      if !scan.hasMeta { return Err(NotABundle); }
      if !scan.hasConfig { return Err(NoConfig); }
      var meta := scan.meta;
      var finalName := FinalName(override, meta);
      if !NameOk(finalName) { return Err(BadName); }
      var block := ports.Allocate();
      if block.None? { return Err(NoPorts); }
      var base := block.value.base;
      var extracted := ExtractAll(zip.value, id, fault);
      if !extracted {
        Cleanup(base, id);
        return Err(IoError);
      }
      if !Bootable(dirs[id]) {
        Cleanup(base, id);
        return Err(NoConfig);
      }
      var v := Vm(finalName, Stopped, meta.variant, meta.iosVersion, OrDefault(meta.networkMode, "nat"),
                  OrInt(meta.cpu, 6), OrInt(meta.memory, 6144), OrInt(meta.diskSize, 32768), base);
      if !insertOk {
        Cleanup(base, id);
        return Err(InsertFailed);
      }
      rows := rows[id := v];
      return Ok(v);
    }
  }

  lemma UnpackNext(zip: seq<Entry>, i: nat)
    requires i < |zip| && Unpack(zip[..i]).Some?
    ensures Unpack(zip[..i+1]) == Extract(Unpack(zip[..i]).value, zip[i])
  {
    assert zip[..i+1][..i] == zip[..i];
  }

  lemma ExportNext(walk: seq<Path>, i: nat, d: Dir)
    requires i < |walk| && Walks(walk[..i+1], d)
    ensures Walks(walk[..i], d)
    ensures FileEntries(walk[..i+1], d)
         == FileEntries(walk[..i], d) + if Includes(walk[i], d[walk[i]].kind) then [FileEntry(d, walk[i])] else []
  {
    assert walk[..i+1][..i] == walk[..i];
    assert walk[..i] + [] == walk[..i];
  }

  lemma {:induction false} MoreEntries(walk: seq<Path>, i: nat, d: Dir)
    requires i <= |walk| && Walks(walk, d)
    ensures Walks(walk[..i], d) && |FileEntries(walk[..i], d)| <= |FileEntries(walk, d)|
    decreases |walk|
  {
    if i == |walk| {
      assert walk[..i] == walk;
    } else {
      var front := walk[..|walk|-1];
      assert front[..i] == walk[..i];
      MoreEntries(front, i, d);
    }
  }

  lemma {:induction false} UndecodableStays(zip: seq<Entry>, i: nat)
    requires i <= |zip| && ScanEntries(zip[..i]) == Undecodable
    ensures ScanEntries(zip) == Undecodable
    decreases |zip|
  {
    if i == |zip| {
      assert zip[..i] == zip;
    } else {
      assert zip[..|zip|-1][..i] == zip[..i];
      UndecodableStays(zip[..|zip|-1], i);
    }
  }

  lemma {:induction false} FailureStays(a: seq<Entry>, b: seq<Entry>)
    requires Unpack(a) == None
    ensures Unpack(a + b) == None
    decreases |b|
  {
    if b == [] {
      assert a + b == a;
    } else {
      var front := b[..|b|-1];
      assert (a + b)[..|a + b|-1] == a + front;
      FailureStays(a, front);
    }
  }

  lemma StuckFails(zip: seq<Entry>, n: nat)
    requires n <= |zip| && Unpack(zip[..n]) == None
    ensures Unpack(zip) == None
  {
    FailureStays(zip[..n], zip[n..]);
    assert zip[..n] + zip[n..] == zip;
  }
}
