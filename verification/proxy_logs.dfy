/** Logs of internal/proxy/logs.go: what a WebSocket client is sent for a job. */
module ProxyLogs {
  import opened Options
  import opened TextLines
  import opened LogViewers

  datatype Frame = Text(payload: string) | CloseFrame

  function LineFrames(ls: seq<string>): (fs: seq<Frame>)
    ensures |fs| == |ls| && forall i :: 0 <= i < |fs| ==> fs[i] == Text(ls[i] + "\n")
  {
    seq(|ls|, i requires 0 <= i < |ls| => Text(ls[i] + "\n"))
  }

  /** The text of the frames, in order. */
  function Payload(fs: seq<Frame>): string {
    if fs == [] then "" else (if fs[0].Text? then fs[0].payload else "") + Payload(fs[1..])
  }

  /**
   `live` and `history` are Subscribe's answer, `channel` the lines read until the channel is found
   closed, `fallback` the persisted output. The connection accepts `writes` line frames before it
   fails, and the client leaves after `stays` live lines.
   */
  method Logs(live: bool, history: seq<string>, channel: seq<string>, fallback: Option<string>,
              writes: nat, stays: nat)
    returns (sent: seq<Frame>)
    ensures !live ==> sent == (if fallback.Some? then [Text(fallback.value)] else []) + [CloseFrame]
    ensures live ==>
      if writes >= |history| + |channel| && stays >= |channel|
      then sent == LineFrames(history + channel) + [CloseFrame]
      else sent == LineFrames(history + channel)[..Min(writes, |history| + Min(stays, |channel|))]
  {
    sent := [];
    if !live {
      if fallback.Some? { sent := sent + [Text(fallback.value)]; }
      sent := sent + [CloseFrame];
      return;
    }
    ghost var all := LineFrames(history + channel);
    var i := 0;
    while i < |history|
      invariant 0 <= i <= |history| && i <= writes && sent == all[..i]
    {
      if i >= writes { return; }
      sent := sent + [Text(history[i] + "\n")];
      i := i + 1;
    }
    var k := 0;
    while true
      invariant 0 <= k <= |channel| && k <= stays && |history| + k <= writes && sent == all[..|history| + k]
      decreases |channel| - k
    {
      if k >= |channel| {
        sent := sent + [CloseFrame];
        return;
      }
      if k >= stays || |history| + k >= writes { return; }
      sent := sent + [Text(channel[k] + "\n")];
      k := k + 1;
    }
  }

  function Min(a: nat, b: nat): nat { if a <= b then a else b }

  lemma {:induction false} PayloadIsUnlines(ls: seq<string>)
    ensures Payload(LineFrames(ls) + [CloseFrame]) == Unlines(ls)
  {
    var fs := LineFrames(ls) + [CloseFrame];
    if ls == [] {
      assert fs[1..] == [];
    } else {
      assert fs[1..] == LineFrames(ls[1..]) + [CloseFrame];
      PayloadIsUnlines(ls[1..]);
    }
  }

  lemma {:induction false} UnlinesAllLines(s: string)
    ensures Unlines(AllLines(s)) == if Tail(s) == "" then s else s + "\n"
  {
    Recompose(s);
    var t := Tail(s);
    if t == "" {
      assert AllLines(s) == Complete(s);
      assert Unlines(Complete(s)) + t == Unlines(Complete(s));
    } else {
      UnlinesConcat(Complete(s), [t]);
      assert Unlines([t]) == t + "\n" by { assert [t][1..] == []; }
      assert Unlines(AllLines(s)) == Unlines(Complete(s)) + t + "\n";
    }
  }

  /** The viewer that subscribes after es is never more than 256 lines behind, is not unsubscribed, and
      has drained its closed channel after fs. */
  ghost predicate KeptUpToTheEnd(es: seq<Event>, fs: seq<Event>) {
    && Executable(EMPTY, es) && !Run(EMPTY, es).closed
    && var s1, k := Step(Run(EMPTY, es), Subscribe), |Run(EMPTY, es).viewers|;
    && Executable(s1, fs) && KeepsUp(s1, fs, k)
    && (forall i :: 0 <= i < |fs| ==> fs[i] != Unsubscribe(k))
    && Run(s1, fs).closed && k < |Run(s1, fs).viewers| && Run(s1, fs).viewers[k].buf == []
  }

  /** End to end: a client that keeps up and stays is sent the job's output from the oldest line that
      was retained when it subscribed, each line ended by a newline. */
  lemma ClientGetsEverything(es: seq<Event>, fs: seq<Event>, sent: seq<Frame>)
    requires KeptUpToTheEnd(es, fs)
    requires var v := Run(Step(Run(EMPTY, es), Subscribe), fs).viewers[|Run(EMPTY, es).viewers|];
      sent == LineFrames(v.history + v.received) + [CloseFrame]
    ensures var q := Run(Step(Run(EMPTY, es), Subscribe), fs);
      var v := q.viewers[|Run(EMPTY, es).viewers|];
      && Oldest(v) <= |AllLines(q.fed)|
      && Payload(sent) == Unlines(AllLines(q.fed)[Oldest(v)..])
  {
    var v := Run(Step(Run(EMPTY, es), Subscribe), fs).viewers[|Run(EMPTY, es).viewers|];
    assert ([Subscribe] + fs)[1..] == fs;
    FinishedViewer(es, fs);
    PayloadIsUnlines(v.history + v.received);
  }

  /** A client that subscribed within the first 5000 lines is sent the whole output. */
  lemma EarlyClientGetsAll(es: seq<Event>, fs: seq<Event>, sent: seq<Frame>)
    requires KeptUpToTheEnd(es, fs)
    requires var v := Run(Step(Run(EMPTY, es), Subscribe), fs).viewers[|Run(EMPTY, es).viewers|];
      Oldest(v) == 0 && sent == LineFrames(v.history + v.received) + [CloseFrame]
    ensures var out := Run(Step(Run(EMPTY, es), Subscribe), fs).fed;
      Payload(sent) == if Tail(out) == "" then out else out + "\n"
  {
    var out := Run(Step(Run(EMPTY, es), Subscribe), fs).fed;
    ClientGetsEverything(es, fs, sent);
    assert AllLines(out)[0..] == AllLines(out);
    UnlinesAllLines(out);
  }
}
