/**
 The two stream goroutines of execStreaming (internal/jobs/runner.go) writing to one sink, under any
 schedule. Each scanned line goes out as one newline-terminated Write, so the sink's new lines are an
 interleaving of the two streams with every line whole and each stream in its own order.
 */
module StreamMerge {
  import opened TextLines
  import opened LogViewers
  import LogSink

  const SCAN_LIMIT: nat := 1048576     // sc.Buffer's maximum: a line must fit with its newline

  /** bufio.ScanLines drops one carriage return before the newline. */
  function DropCR(line: string): string {
    if line != "" && line[|line|-1] == '\r' then line[..|line|-1] else line
  }

  /** The scanner's tokens for these raw lines: it stops for good at the first that is too long. */
  function Tokens(raw: seq<string>): (ls: seq<string>)
    ensures (forall i :: 0 <= i < |raw| ==> '\n' !in raw[i]) ==> forall i :: 0 <= i < |ls| ==> '\n' !in ls[i]
  {
    if raw == [] || |raw[0]| >= SCAN_LIMIT then []
    else
      assert DropCR(raw[0]) <= raw[0];
      [DropCR(raw[0])] + Tokens(raw[1..])
  }

  /** The lines bufio.Scanner yields for a stream's bytes. */
  function Scanned(bytes: string): (ls: seq<string>)
    ensures forall i :: 0 <= i < |ls| ==> '\n' !in ls[i]
  {
    Recompose(bytes);
    Tokens(AllLines(bytes))
  }

  /** A line the scanner passes on unchanged. */
  predicate Plain(line: string) { |line| < SCAN_LIMIT && DropCR(line) == line }

  lemma {:induction false} TokensAreRaw(raw: seq<string>)
    ensures |Tokens(raw)| <= |raw|
    ensures Tokens(raw) == raw <==> forall i :: 0 <= i < |raw| ==> Plain(raw[i])
  {
    if raw == [] {
    } else {
      TokensAreRaw(raw[1..]);
      if |raw[0]| < SCAN_LIMIT {
        assert Tokens(raw)[1..] == Tokens(raw[1..]) && Tokens(raw)[0] == DropCR(raw[0]);
        assert forall i :: 0 <= i < |raw[1..]| ==> raw[1..][i] == raw[i+1];
      }
    }
  }

  /** The scanner yields a stream's lines as they are exactly when none ends in a carriage return or
      reaches 1 MiB. */
  lemma ScannedIsAllLines(bytes: string)
    ensures Scanned(bytes) == AllLines(bytes)
        <==> forall i :: 0 <= i < |AllLines(bytes)| ==> Plain(AllLines(bytes)[i])
  {
    TokensAreRaw(AllLines(bytes));
  }

  /** One turn of a goroutine, or something a viewer does in between. */
  datatype Tick = FromStdout | FromStderr | ByViewer(e: Event)

  /** What the goroutines have still to write. */
  datatype Merge = Merge(out: seq<string>, err: seq<string>, sink: Sink)

  predicate CanTick(m: Merge, t: Tick) {
    match t
    case FromStdout => m.out != []
    case FromStderr => m.err != []
    case ByViewer(e) => !e.Write? && !e.Close? && Enabled(m.sink, e)
  }

  function DoTick(m: Merge, t: Tick): Merge
    requires CanTick(m, t)
  {
    match t
    case FromStdout => m.(out := m.out[1..], sink := Step(m.sink, Write(m.out[0] + "\n")))
    case FromStderr => m.(err := m.err[1..], sink := Step(m.sink, Write(m.err[0] + "\n")))
    case ByViewer(e) => m.(sink := Step(m.sink, e))
  }

  predicate Schedulable(m: Merge, ts: seq<Tick>)
    decreases |ts|
  {
    ts == [] || (CanTick(m, ts[0]) && Schedulable(DoTick(m, ts[0]), ts[1..]))
  }

  function Finish(m: Merge, ts: seq<Tick>): Merge
    requires Schedulable(m, ts)
    decreases |ts|
  {
    if ts == [] then m else Finish(DoTick(m, ts[0]), ts[1..])
  }

  /** zs merges xs and ys, keeping the order of each. */
  ghost predicate Interleaves(xs: seq<string>, ys: seq<string>, zs: seq<string>)
    decreases |zs|
  {
    if zs == [] then xs == [] && ys == []
    else
      || (xs != [] && xs[0] == zs[0] && Interleaves(xs[1..], ys, zs[1..]))
      || (ys != [] && ys[0] == zs[0] && Interleaves(xs, ys[1..], zs[1..]))
  }

  ghost predicate WholeLines(ls: seq<string>) {
    forall i :: 0 <= i < |ls| ==> '\n' !in ls[i]
  }

  /** A newline-terminated write to a sink with no pending rest emits exactly that line. */
  lemma WriteLine(s: Sink, line: string)
    requires !s.closed && s.partial == "" && '\n' !in line
    ensures var s' := Step(s, Write(line + "\n"));
      s'.all == s.all + [line] && s'.partial == "" && !s'.closed
  {
    CompleteUnlines([line], "");
    assert Unlines([line]) + "" == line + "\n" by { assert [line][1..] == []; }
    assert "" + (line + "\n") == line + "\n";
  }

  /** What a tick adds to the sink. */
  function Emitted(m: Merge, t: Tick): seq<string>
    requires CanTick(m, t)
  {
    match t
    case FromStdout => [m.out[0]]
    case FromStderr => [m.err[0]]
    case ByViewer(_) => []
  }

  ghost predicate Ready(m: Merge) {
    !m.sink.closed && m.sink.partial == "" && WholeLines(m.out) && WholeLines(m.err)
  }

  lemma TickEmits(m: Merge, t: Tick)
    requires Ready(m) && CanTick(m, t)
    ensures Ready(DoTick(m, t)) && DoTick(m, t).sink.all == m.sink.all + Emitted(m, t)
  {
    if t.FromStdout? { WriteLine(m.sink, m.out[0]); }
    if t.FromStderr? { WriteLine(m.sink, m.err[0]); }
  }

  lemma InterleaveNext(m: Merge, t: Tick, rest: seq<string>)
    requires CanTick(m, t) && Interleaves(DoTick(m, t).out, DoTick(m, t).err, rest)
    ensures Interleaves(m.out, m.err, Emitted(m, t) + rest)
  {
    var zs := Emitted(m, t) + rest;
    if t.ByViewer? {
      assert zs == rest;
    } else {
      assert zs[1..] == rest;
    }
  }

  /** Whatever the schedule, the sink gains an interleaving of the two streams. */
  lemma {:induction false} MergeInterleaves(m: Merge, ts: seq<Tick>) returns (zs: seq<string>)
    requires Ready(m) && Schedulable(m, ts)
    requires Finish(m, ts).out == [] && Finish(m, ts).err == []
    ensures Finish(m, ts).sink.all == m.sink.all + zs
    ensures Interleaves(m.out, m.err, zs)
    ensures Finish(m, ts).sink.partial == "" && !Finish(m, ts).sink.closed
    decreases |ts|
  {
    if ts == [] {
      zs := [];
    } else {
      var t, line := ts[0], Emitted(m, ts[0]);
      var m' := DoTick(m, t);
      assert Ready(m') && m'.sink.all == m.sink.all + line by { TickEmits(m, t); }
      var rest := MergeInterleaves(m', ts[1..]);
      zs := line + rest;
      assert Interleaves(m.out, m.err, zs) by { InterleaveNext(m, t, rest); }
      assert m.sink.all + zs == m'.sink.all + rest;
    }
  }

  /** Every interleaving is what some schedule produces. */
  lemma {:induction false} EveryInterleavingHappens(m: Merge, zs: seq<string>) returns (ts: seq<Tick>)
    requires Ready(m) && Interleaves(m.out, m.err, zs)
    ensures Schedulable(m, ts)
    ensures Finish(m, ts).out == [] && Finish(m, ts).err == [] && Finish(m, ts).sink.all == m.sink.all + zs
    decreases |zs|
  {
    if zs == [] {
      ts := [];
    } else {
      var t := if m.out != [] && m.out[0] == zs[0] && Interleaves(m.out[1..], m.err, zs[1..])
               then FromStdout else FromStderr;
      WriteLine(m.sink, zs[0]);
      var rest := EveryInterleavingHappens(DoTick(m, t), zs[1..]);
      ts := [t] + rest;
      assert ts[1..] == rest;
      assert m.sink.all + [zs[0]] + zs[1..] == m.sink.all + zs;
    }
  }

  /** The lines a command adds to its sink, for all output bytes and all schedules. */
  lemma CommandOutput(stdout: string, stderr: string, s: Sink, ts: seq<Tick>)
    requires !s.closed && s.partial == ""
    requires var m := Merge(Scanned(stdout), Scanned(stderr), s);
      Schedulable(m, ts) && Finish(m, ts).out == [] && Finish(m, ts).err == []
    ensures exists zs :: Interleaves(Scanned(stdout), Scanned(stderr), zs)
                         && Finish(Merge(Scanned(stdout), Scanned(stderr), s), ts).sink.all == s.all + zs
  {
    var zs := MergeInterleaves(Merge(Scanned(stdout), Scanned(stderr), s), ts);
  }

  /** streamLines: the loop of one goroutine, here with the sink to itself. */
  method StreamLines(bytes: string, out: LogSink.LogSink)
    requires out.Valid() && !out.closed && out.partial == ""
    modifies out, out.Repr
    ensures out.Valid() && out.st.all == old(out.st).all + Scanned(bytes) && out.partial == ""
  {
    var scanned := Scanned(bytes);
    var i := 0;
    while i < |scanned|
      invariant 0 <= i <= |scanned|
      invariant out.Valid() && !out.closed && out.partial == "" && out.Repr == old(out.Repr)
      invariant out.st.all == old(out.st).all + scanned[..i]
    {
      WriteLine(out.st, scanned[i]);
      assert scanned[..i+1] == scanned[..i] + [scanned[i]];
      var _ := out.Write(scanned[i] + "\n");
      i := i + 1;
    }
    assert scanned[..i] == scanned;
  }
}
