/**
 A job's log and its viewers, as a state machine over values: bytes are cut into lines, every line
 is offered to every registered viewer without blocking, and Close flushes the unterminated rest.
 LogSink refines this machine; here is what it means for viewers, over every run.
 */
module LogViewers {
  import opened Options
  import opened TextLines

  const MAX_LINES: nat := 5000      // maxBufferedLines
  const CHAN_CAP: nat := 256        // capacity of a subscriber's channel

  /** `start` and `end` count the lines emitted when the viewer subscribed and when its subscription
      ended; `buf` is its channel's content, `received` what it has read, `missed` what was dropped. */
  datatype Viewer = Viewer(start: nat, history: seq<string>, buf: seq<string>, received: seq<string>,
                           missed: nat, end: Option<nat>, closes: nat)

  /** `all` are the lines ever emitted and `fed` the bytes ever accepted. */
  datatype Sink = Sink(fed: string, all: seq<string>, partial: string, closed: bool, viewers: seq<Viewer>)

  datatype Event = Write(bytes: string) | Subscribe | Receive(k: nat) | Unsubscribe(k: nat) | Close

  const EMPTY := Sink("", [], "", false, [])

  /** The non-blocking send of one line. */
  function Offer(v: Viewer, line: string): Viewer {
    if v.end.Some? then v
    else if |v.buf| < CHAN_CAP then v.(buf := v.buf + [line])
    else v.(missed := v.missed + 1)
  }

  function OfferAll(v: Viewer, lines: seq<string>): Viewer
    decreases |lines|
  {
    if lines == [] then v else OfferAll(Offer(v, lines[0]), lines[1..])
  }

  function MapOffer(vs: seq<Viewer>, lines: seq<string>): (r: seq<Viewer>)
    ensures |r| == |vs| && forall k :: 0 <= k < |r| ==> r[k] == OfferAll(vs[k], lines)
  {
    seq(|vs|, k requires 0 <= k < |vs| => OfferAll(vs[k], lines))
  }

  function Emit(s: Sink, lines: seq<string>): Sink {
    s.(all := s.all + lines, viewers := MapOffer(s.viewers, lines))
  }

  /** End a subscription and close its channel, once. */
  function EndViewer(v: Viewer, now: nat): Viewer {
    if v.end.None? then v.(end := Some(now), closes := v.closes + 1) else v
  }

  function EndAll(vs: seq<Viewer>, now: nat): (r: seq<Viewer>)
    ensures |r| == |vs| && forall k :: 0 <= k < |r| ==> r[k] == EndViewer(vs[k], now)
  {
    seq(|vs|, k requires 0 <= k < |vs| => EndViewer(vs[k], now))
  }

  predicate Enabled(s: Sink, e: Event) {
    match e
    case Receive(k) => k < |s.viewers| && s.viewers[k].buf != []
    case Unsubscribe(k) => k < |s.viewers|
    case _ => true
  }

  /** Accept bytes and emit the lines they complete. */
  function Feed(s: Sink, p: string): Sink {
    Emit(s, Complete(s.partial + p)).(partial := Tail(s.partial + p), fed := s.fed + p)
  }

  /** A new viewer; on a closed sink its channel is closed at once. */
  function NewViewer(s: Sink): Viewer {
    Viewer(|s.all|, LastN(s.all, MAX_LINES), [], [], 0,
           if s.closed then Some(|s.all|) else None, if s.closed then 1 else 0)
  }

  /** Emit the unterminated rest, if any. */
  function Flush(s: Sink): Sink {
    if s.partial == "" then s else Emit(s, [s.partial]).(partial := "")
  }

  function EndViewers(s: Sink): Sink {
    s.(closed := true, viewers := EndAll(s.viewers, |s.all|))
  }

  function Step(s: Sink, e: Event): Sink
    requires Enabled(s, e)
  {
    match e
    case Write(p) => if s.closed then s else Feed(s, p)
    case Subscribe => s.(viewers := s.viewers + [NewViewer(s)])
    case Receive(k) =>
      var v := s.viewers[k];
      s.(viewers := s.viewers[k := v.(buf := v.buf[1..], received := v.received + [v.buf[0]])])
    case Unsubscribe(k) => s.(viewers := s.viewers[k := EndViewer(s.viewers[k], |s.all|)])
    case Close => if s.closed then s else EndViewers(Flush(s))
  }

  predicate Executable(s: Sink, es: seq<Event>)
    decreases |es|
  {
    es == [] || (Enabled(s, es[0]) && Executable(Step(s, es[0]), es[1..]))
  }

  function Run(s: Sink, es: seq<Event>): Sink
    requires Executable(s, es)
    decreases |es|
  {
    if es == [] then s else Run(Step(s, es[0]), es[1..])
  }

  // ---------------------------------------------------------------- chunk independence

  /** The emitted lines and the rest are those of the bytes fed so far, however they were chunked. */
  ghost predicate TextOk(s: Sink) {
    if s.closed then s.all == AllLines(s.fed) && s.partial == ""
    else s.all == Complete(s.fed) && s.partial == Tail(s.fed)
  }

  lemma FeedKeepsText(s: Sink, p: string)
    requires TextOk(s) && !s.closed
    ensures TextOk(Feed(s, p))
  {
    CutConcat(s.fed, p);
  }

  lemma {:induction false} RunKeepsText(s: Sink, es: seq<Event>)
    requires TextOk(s) && Executable(s, es)
    ensures TextOk(Run(s, es))
    decreases |es|
  {
    if es == [] {
    } else {
      if es[0].Write? && !s.closed { FeedKeepsText(s, es[0].bytes); }
      RunKeepsText(Step(s, es[0]), es[1..]);
    }
  }

  /** The bytes written before the first Close. */
  function Fed(es: seq<Event>): string {
    if es == [] || es[0].Close? then ""
    else (if es[0].Write? then es[0].bytes else "") + Fed(es[1..])
  }

  predicate HasClose(es: seq<Event>) {
    es != [] && (es[0].Close? || HasClose(es[1..]))
  }

  lemma StepFed(s: Sink, e: Event)
    requires Enabled(s, e)
    ensures Step(s, e).fed == s.fed + (if e.Write? && !s.closed then e.bytes else "")
    ensures Step(s, e).closed <==> s.closed || e.Close?
  {
  }

  lemma Associate(a: string, b: string, c: string)
    ensures (a + b) + c == a + (b + c)
  {
  }

  lemma {:induction false} FedIsFed(s: Sink, es: seq<Event>)
    requires Executable(s, es)
    ensures Run(s, es).fed == s.fed + (if s.closed then "" else Fed(es))
    decreases |es|
  {
    if es == [] {
    } else {
      StepFed(s, es[0]);
      FedIsFed(Step(s, es[0]), es[1..]);
      if !s.closed && !es[0].Close? {
        Associate(s.fed, if es[0].Write? then es[0].bytes else "", Fed(es[1..]));
      }
    }
  }

  lemma {:induction false} ClosedIfClosed(s: Sink, es: seq<Event>)
    requires Executable(s, es)
    ensures Run(s, es).closed <==> s.closed || HasClose(es)
    decreases |es|
  {
    if es == [] {
    } else {
      StepFed(s, es[0]);
      ClosedIfClosed(Step(s, es[0]), es[1..]);
    }
  }

  /** The lines and the rest after any run are a function of the bytes written before Close. */
  lemma TextAfterRun(es: seq<Event>)
    requires Executable(EMPTY, es)
    ensures var s := Run(EMPTY, es);
      && s.fed == Fed(es)
      && s.all == (if s.closed then AllLines(Fed(es)) else Complete(Fed(es)))
      && s.partial == (if s.closed then "" else Tail(Fed(es)))
      && (s.closed <==> HasClose(es))
  {
    RunKeepsText(EMPTY, es);
    FedIsFed(EMPTY, es);
    ClosedIfClosed(EMPTY, es);
    assert "" + Fed(es) == Fed(es);
  }

  /** Two runs that feed the same bytes before Close leave the same lines and the same rest. */
  lemma ChunkingIrrelevant(es: seq<Event>, fs: seq<Event>)
    requires Executable(EMPTY, es) && Executable(EMPTY, fs) && Fed(es) == Fed(fs)
    requires HasClose(es) <==> HasClose(fs)
    ensures Run(EMPTY, es).all == Run(EMPTY, fs).all && Run(EMPTY, es).partial == Run(EMPTY, fs).partial
  {
    TextAfterRun(es);
    TextAfterRun(fs);
  }

  // ---------------------------------------------------------------- what a viewer sees

  /** xs is ys with some elements left out. */
  ghost predicate Subsequence(xs: seq<string>, ys: seq<string>) {
    if xs == [] then true
    else if ys == [] then false
    else (xs[|xs|-1] == ys[|ys|-1] && Subsequence(xs[..|xs|-1], ys[..|ys|-1])) || Subsequence(xs, ys[..|ys|-1])
  }

  lemma {:induction false} SubsequenceSelf(xs: seq<string>)
    ensures Subsequence(xs, xs)
  {
    if xs == [] {
    } else {
      SubsequenceSelf(xs[..|xs|-1]);
    }
  }

  lemma {:induction false} SubsequencePrefix(p: seq<string>, xs: seq<string>, ys: seq<string>)
    requires Subsequence(xs, ys)
    ensures Subsequence(p + xs, p + ys)
  {
    if ys == [] {
      assert xs == [] && p + xs == p == p + ys;
      SubsequenceSelf(p);
    } else {
      var ys' := ys[..|ys|-1];
      assert (p + ys)[..|p + ys|-1] == p + ys';
      if xs != [] && xs[|xs|-1] == ys[|ys|-1] && Subsequence(xs[..|xs|-1], ys') {
        assert (p + xs)[..|p + xs|-1] == p + xs[..|xs|-1];
        SubsequencePrefix(p, xs[..|xs|-1], ys');
      } else {
        SubsequencePrefix(p, xs, ys');
      }
    }
  }

  ghost predicate ViewerOk(all: seq<string>, v: Viewer) {
    var end := if v.end.Some? then v.end.value else |all|;
    && v.start <= end <= |all|
    && v.history == LastN(all[..v.start], MAX_LINES)
    && |v.received| + |v.buf| + v.missed == end - v.start
    && |v.buf| <= CHAN_CAP
    && Subsequence(v.received + v.buf, all[v.start..end])
    && (v.missed == 0 ==> v.received + v.buf == all[v.start..end])
    && v.closes == (if v.end.Some? then 1 else 0)
  }

  ghost predicate ViewersOk(s: Sink) {
    && (forall k :: 0 <= k < |s.viewers| ==> ViewerOk(s.all, s.viewers[k]))
    && (s.closed ==> forall k :: 0 <= k < |s.viewers| ==> s.viewers[k].end.Some?)
  }

  lemma OfferOk(all: seq<string>, v: Viewer, line: string)
    requires ViewerOk(all, v)
    ensures ViewerOk(all + [line], Offer(v, line))
  {
    var all' := all + [line];
    assert all'[..v.start] == all[..v.start];
    if v.end.Some? {
      assert all'[v.start..v.end.value] == all[v.start..v.end.value];
    } else {
      var seen := v.received + v.buf;
      var span := all[v.start..];
      assert all'[v.start..|all'|] == span + [line] && all[v.start..|all|] == span;
      assert (span + [line])[..|span|] == span;
      if |v.buf| < CHAN_CAP {
        assert v.received + (v.buf + [line]) == seen + [line];
        assert (seen + [line])[..|seen|] == seen;
      }
    }
  }

  lemma {:induction false} OfferAllOk(all: seq<string>, v: Viewer, lines: seq<string>)
    requires ViewerOk(all, v)
    ensures ViewerOk(all + lines, OfferAll(v, lines))
    decreases |lines|
  {
    if lines == [] {
      assert all + lines == all;
    } else {
      OfferOk(all, v, lines[0]);
      OfferAllOk(all + [lines[0]], Offer(v, lines[0]), lines[1..]);
      assert all + lines == all + [lines[0]] + lines[1..];
    }
  }

  lemma EmitOk(s: Sink, lines: seq<string>)
    requires ViewersOk(s) && !s.closed
    ensures ViewersOk(Emit(s, lines))
  {
    forall k | 0 <= k < |s.viewers| ensures ViewerOk(s.all + lines, OfferAll(s.viewers[k], lines)) {
      OfferAllOk(s.all, s.viewers[k], lines);
    }
  }

  lemma NewViewerOk(s: Sink)
    ensures ViewerOk(s.all, NewViewer(s))
  {
    assert s.all[..|s.all|] == s.all;
  }

  lemma ReceiveOk(all: seq<string>, v: Viewer)
    requires ViewerOk(all, v) && v.buf != []
    ensures ViewerOk(all, v.(buf := v.buf[1..], received := v.received + [v.buf[0]]))
  {
    assert v.received + [v.buf[0]] + v.buf[1..] == v.received + v.buf;
  }

  lemma EndOk(all: seq<string>, v: Viewer)
    requires ViewerOk(all, v)
    ensures ViewerOk(all, EndViewer(v, |all|))
  {
  }

  lemma EndViewersOk(s: Sink)
    requires ViewersOk(s)
    ensures ViewersOk(EndViewers(s))
  {
    forall k | 0 <= k < |s.viewers| ensures ViewerOk(s.all, EndViewer(s.viewers[k], |s.all|)) {
      EndOk(s.all, s.viewers[k]);
    }
  }

  lemma StepKeepsViewers(s: Sink, e: Event)
    requires ViewersOk(s) && Enabled(s, e)
    ensures ViewersOk(Step(s, e))
  {
    match e
    case Write(p) => if !s.closed { EmitOk(s, Complete(s.partial + p)); }
    case Subscribe => NewViewerOk(s);
    case Receive(k) => ReceiveOk(s.all, s.viewers[k]);
    case Unsubscribe(k) => EndOk(s.all, s.viewers[k]);
    case Close =>
      if !s.closed {
        if s.partial != "" { EmitOk(s, [s.partial]); }
        EndViewersOk(Flush(s));
      }
  }

  lemma {:induction false} RunKeepsViewers(s: Sink, es: seq<Event>)
    requires ViewersOk(s) && Executable(s, es)
    ensures ViewersOk(Run(s, es))
    decreases |es|
  {
    if es == [] {
    } else {
      StepKeepsViewers(s, es[0]);
      RunKeepsViewers(Step(s, es[0]), es[1..]);
    }
  }

  /** Some run leads to s. */
  ghost predicate Reachable(s: Sink) {
    exists es :: Executable(EMPTY, es) && Run(EMPTY, es) == s
  }

  lemma {:induction false} RunNext(s: Sink, es: seq<Event>, e: Event)
    requires Executable(s, es) && Enabled(Run(s, es), e)
    ensures Executable(s, es + [e]) && Run(s, es + [e]) == Step(Run(s, es), e)
    decreases |es|
  {
    if es == [] {
      assert es + [e] == [e] && [e][1..] == [];
    } else {
      RunNext(Step(s, es[0]), es[1..], e);
      assert (es + [e])[1..] == es[1..] + [e];
    }
  }

  lemma ReachNext(s: Sink, e: Event)
    requires Reachable(s) && Enabled(s, e)
    ensures Reachable(Step(s, e))
  {
    var es :| Executable(EMPTY, es) && Run(EMPTY, es) == s;
    RunNext(EMPTY, es, e);
  }

  lemma ReachableSound(s: Sink)
    requires Reachable(s)
    ensures TextOk(s) && ViewersOk(s)
  {
    var es :| Executable(EMPTY, es) && Run(EMPTY, es) == s;
    RunKeepsText(EMPTY, es);
    RunKeepsViewers(EMPTY, es);
  }

  /** A reachable state's viewer has its channel closed once if its subscription has ended. */
  lemma ClosesMatchEnd(s: Sink, k: nat)
    requires Reachable(s) && k < |s.viewers|
    ensures s.viewers[k].closes == (if s.viewers[k].end.Some? then 1 else 0)
    ensures s.closed ==> s.viewers[k].end.Some?
  {
    ReachableSound(s);
    assert ViewerOk(s.all, s.viewers[k]);
  }

  /** Index of the oldest line a viewer was given as history. */
  function Oldest(v: Viewer): nat {
    if v.start <= MAX_LINES then 0 else v.start - MAX_LINES
  }

  /** In every reachable state, history, received and buffered lines form, in order, a subsequence of
      the job's lines from the oldest retained one on; the channel is closed exactly once, whether
      Unsubscribe or Close came first; and nothing is left out exactly when nothing was dropped. */
  lemma ViewerSees(es: seq<Event>, k: nat)
    requires Executable(EMPTY, es) && k < |Run(EMPTY, es).viewers|
    ensures var s := Run(EMPTY, es); var v := s.viewers[k];
      var end := if v.end.Some? then v.end.value else |s.all|;
      && Oldest(v) <= v.start <= end <= |s.all|
      && Subsequence(v.history + v.received + v.buf, s.all[Oldest(v)..end])
      && (v.missed == 0 <==> v.history + v.received + v.buf == s.all[Oldest(v)..end])
      && v.closes == (if v.end.Some? then 1 else 0)
      && (s.closed ==> v.end.Some?)
  {
    RunKeepsViewers(EMPTY, es);
    var s := Run(EMPTY, es);
    assert ViewerOk(s.all, s.viewers[k]);
    WithHistory(s.all, s.viewers[k]);
  }

  lemma WithHistory(all: seq<string>, v: Viewer)
    requires ViewerOk(all, v)
    ensures var end := if v.end.Some? then v.end.value else |all|;
      && Subsequence(v.history + v.received + v.buf, all[Oldest(v)..end])
      && (v.missed == 0 <==> v.history + v.received + v.buf == all[Oldest(v)..end])
  {
    var end := if v.end.Some? then v.end.value else |all|;
    assert v.history == all[Oldest(v)..v.start];
    assert all[Oldest(v)..end] == v.history + all[v.start..end];
    assert v.history + v.received + v.buf == v.history + (v.received + v.buf);
    SubsequencePrefix(v.history, v.received + v.buf, all[v.start..end]);
  }

  // ---------------------------------------------------------------- when nothing is dropped

  /** How many lines the viewer is behind. */
  function Behind(s: Sink, k: nat): int
    requires k < |s.viewers|
  {
    var v := s.viewers[k];
    (if v.end.Some? then v.end.value else |s.all|) - v.start - |v.received|
  }

  lemma {:induction false} ViewersGrow(s: Sink, es: seq<Event>)
    requires Executable(s, es)
    ensures |Run(s, es).viewers| >= |s.viewers|
    decreases |es|
  {
    if es == [] {
    } else {
      ViewersGrow(Step(s, es[0]), es[1..]);
    }
  }

  /** In no state of the run is the viewer more than a channel's capacity behind. */
  ghost predicate KeepsUp(s: Sink, es: seq<Event>, k: nat)
    requires Executable(s, es) && k < |s.viewers|
    decreases |es|
  {
    Behind(s, k) <= CHAN_CAP
    && (es != [] && k < |Step(s, es[0]).viewers| ==> KeepsUp(Step(s, es[0]), es[1..], k))
  }

  /** A drop leaves the channel full. */
  lemma {:induction false} DropsWhenFull(v: Viewer, lines: seq<string>)
    requires |v.buf| <= CHAN_CAP
    ensures var w := OfferAll(v, lines);
      w.missed >= v.missed && |v.buf| <= |w.buf| <= CHAN_CAP && (w.missed > v.missed ==> |w.buf| == CHAN_CAP)
    decreases |lines|
  {
    if lines == [] {
    } else {
      DropsWhenFull(Offer(v, lines[0]), lines[1..]);
    }
  }

  lemma DropStep(s: Sink, e: Event, k: nat)
    requires ViewersOk(s) && Enabled(s, e) && k < |s.viewers|
    ensures k < |Step(s, e).viewers|
    ensures var v, w := s.viewers[k], Step(s, e).viewers[k];
      w.missed >= v.missed && (w.missed > v.missed ==> |w.buf| == CHAN_CAP)
  {
    assert ViewerOk(s.all, s.viewers[k]);
    if e.Write? { DropsWhenFull(s.viewers[k], Complete(s.partial + e.bytes)); }
    if e.Close? { DropsWhenFull(s.viewers[k], [s.partial]); }
  }

  lemma {:induction false} MissedOnlyGrows(s: Sink, es: seq<Event>, k: nat)
    requires ViewersOk(s) && Executable(s, es) && k < |s.viewers|
    ensures k < |Run(s, es).viewers| && Run(s, es).viewers[k].missed >= s.viewers[k].missed
    decreases |es|
  {
    if es == [] {
    } else {
      DropStep(s, es[0], k);
      StepKeepsViewers(s, es[0]);
      MissedOnlyGrows(Step(s, es[0]), es[1..], k);
    }
  }

  /** A viewer that has missed nothing so far misses nothing in a run exactly when it is never more
      than 256 lines behind in it. */
  lemma {:induction false} CompleteIffKeepsUp(s: Sink, es: seq<Event>, k: nat)
    requires ViewersOk(s) && Executable(s, es) && k < |s.viewers| && s.viewers[k].missed == 0
    ensures k < |Run(s, es).viewers|
    ensures Run(s, es).viewers[k].missed == 0 <==> KeepsUp(s, es, k)
    decreases |es|
  {
    assert ViewerOk(s.all, s.viewers[k]);
    if es == [] {
    } else {
      var s' := Step(s, es[0]);
      DropStep(s, es[0], k);
      StepKeepsViewers(s, es[0]);
      assert ViewerOk(s'.all, s'.viewers[k]);
      MissedOnlyGrows(s', es[1..], k);
      if s'.viewers[k].missed == 0 {
        CompleteIffKeepsUp(s', es[1..], k);
      } else {
        assert Behind(s', k) > CHAN_CAP;
      }
    }
  }

  /** A viewer that kept up and drained its closed channel has the whole suffix of the output,
      flushed last line included. */
  lemma FinishedViewer(es: seq<Event>, fs: seq<Event>)
    requires Executable(EMPTY, es) && !Run(EMPTY, es).closed
    requires var s1 := Step(Run(EMPTY, es), Subscribe); var k := |Run(EMPTY, es).viewers|;
      && Executable(s1, fs) && KeepsUp(s1, fs, k)
      && (forall i :: 0 <= i < |fs| ==> fs[i] != Unsubscribe(k))
      && Run(s1, fs).closed && k < |Run(s1, fs).viewers| && Run(s1, fs).viewers[k].buf == []
    ensures var s1, k := Step(Run(EMPTY, es), Subscribe), |Run(EMPTY, es).viewers|;
      var v := Run(s1, fs).viewers[k];
      Oldest(v) <= |AllLines(Run(s1, fs).fed)| && v.history + v.received == AllLines(Run(s1, fs).fed)[Oldest(v)..]
  {
    var s, k := Run(EMPTY, es), |Run(EMPTY, es).viewers|;
    var s1 := Step(s, Subscribe);
    RunKeepsViewers(EMPTY, es);
    RunKeepsText(EMPTY, es);
    StepKeepsViewers(s, Subscribe);
    RunKeepsViewers(s1, fs);
    RunKeepsText(s1, fs);
    CompleteIffKeepsUp(s1, fs, k);
    EndsAtClose(s1, fs, k);
    WholeSuffix(Run(s1, fs).all, Run(s1, fs).viewers[k]);
  }

  lemma WholeSuffix(all: seq<string>, v: Viewer)
    requires ViewerOk(all, v) && v.end == Some(|all|) && v.missed == 0 && v.buf == []
    ensures Oldest(v) <= |all| && v.history + v.received == all[Oldest(v)..]
  {
    assert v.history == all[Oldest(v)..v.start];
    assert v.received + v.buf == v.received;
    assert all[Oldest(v)..] == v.history + all[v.start..|all|];
  }

  /** A subscription nobody cancels ends only with Close, after the last line. */
  lemma {:induction false} EndsAtClose(s: Sink, es: seq<Event>, k: nat)
    requires Executable(s, es) && k < |s.viewers|
    requires s.viewers[k].end == if s.closed then Some(|s.all|) else None
    requires forall i :: 0 <= i < |es| ==> es[i] != Unsubscribe(k)
    ensures k < |Run(s, es).viewers|
    ensures var q := Run(s, es); q.viewers[k].end == if q.closed then Some(|q.all|) else None
    decreases |es|
  {
    if es == [] {
    } else {
      EndStep(s, es[0], k);
      EndsAtClose(Step(s, es[0]), es[1..], k);
    }
  }

  lemma {:induction false} OfferAllEnd(v: Viewer, lines: seq<string>)
    ensures OfferAll(v, lines).end == v.end
    decreases |lines|
  {
    if lines == [] {
    } else {
      OfferAllEnd(Offer(v, lines[0]), lines[1..]);
    }
  }

  lemma EndStep(s: Sink, e: Event, k: nat)
    requires Enabled(s, e) && k < |s.viewers| && e != Unsubscribe(k)
    requires s.viewers[k].end == if s.closed then Some(|s.all|) else None
    ensures k < |Step(s, e).viewers|
    ensures var q := Step(s, e); q.viewers[k].end == if q.closed then Some(|q.all|) else None
  {
    if e.Write? { OfferAllEnd(s.viewers[k], Complete(s.partial + e.bytes)); }
    if e.Close? { OfferAllEnd(s.viewers[k], [s.partial]); }
  }
}
