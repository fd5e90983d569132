/**
 logSink of internal/jobs/logsink.go: the incremental line splitter, the bounded ring of lines, the
 non-blocking fan-out and the final snapshot. Every method is one locked region and is proved to take
 exactly one step of LogViewers, so the statements over runs there hold of this object.
 */
module LogSink {
  import opened Options
  import opened TextLines
  import opened LogViewers

  const MAX_PERSIST: nat := 1048576          // 1 << 20
  const TRUNCATED := "...[truncated]...\n"

  /** A subscriber's channel. Go panics on a second close. */
  class Chan {
    var buf: seq<string>
    var closes: nat
    ghost const viewer: nat    // whose channel this is

    constructor (ghost viewer: nat)
      ensures buf == [] && closes == 0 && this.viewer == viewer
    {
      buf, closes, this.viewer := [], 0, viewer;
    }
  }

  /** What is kept of a joined output. */
  function Truncate(out: string): string {
    if |out| > MAX_PERSIST then TRUNCATED + out[|out|-MAX_PERSIST..] else out
  }

  lemma {:induction false} OfferAllConcat(v: Viewer, xs: seq<string>, y: string)
    ensures OfferAll(v, xs + [y]) == Offer(OfferAll(v, xs), y)
    decreases |xs|
  {
    if xs == [] {
      assert xs + [y] == [y] && [y][1..] == [];
    } else {
      assert (xs + [y])[1..] == xs[1..] + [y];
      OfferAllConcat(Offer(v, xs[0]), xs[1..], y);
    }
  }

  lemma EmitConcat(s: Sink, xs: seq<string>, y: string)
    ensures Emit(Emit(s, xs), [y]) == Emit(s, xs + [y])
  {
    forall k | 0 <= k < |s.viewers|
      ensures OfferAll(OfferAll(s.viewers[k], xs), [y]) == OfferAll(s.viewers[k], xs + [y])
    {
      OfferAllConcat(s.viewers[k], xs, y);
      assert [y][1..] == [];
    }
    assert s.all + xs + [y] == s.all + (xs + [y]);
  }

  /** Emitting one more line after cutting it off the rest. */
  lemma EmitNext(s: Sink, xs: seq<string>, line: string, rest: string)
    ensures Emit(Emit(s, xs).(partial := rest), [line]) == Emit(s, xs + [line]).(partial := rest)
  {
    EmitConcat(s, xs, line);
  }

  lemma EmitNothing(s: Sink)
    ensures Emit(s, []) == s
  {
    assert s.all + [] == s.all;
  }

  lemma MapOfferOne(vs: seq<Viewer>, line: string)
    ensures forall k :: 0 <= k < |vs| ==> MapOffer(vs, [line])[k] == Offer(vs[k], line)
  {
    forall k | 0 <= k < |vs| ensures OfferAll(vs[k], [line]) == Offer(vs[k], line) {
      OfferAllConcat(vs[k], [], line);
      assert [] + [line] == [line];
    }
  }

  lemma CutNext(text: string, done: seq<string>, rest: string, i: nat)
    requires IndexNewline(rest) == i && Complete(text) == done + Complete(rest) && Tail(text) == Tail(rest)
    ensures Complete(text) == (done + [rest[..i]]) + Complete(rest[i+1..]) && Tail(text) == Tail(rest[i+1..])
  {
    assert done + ([rest[..i]] + Complete(rest[i+1..])) == (done + [rest[..i]]) + Complete(rest[i+1..]);
  }

  class LogSink {
    var lines: seq<string>
    var partial: string
    var subs: map<nat, Chan>
    var nextID: nat
    var closed: bool
    var total: nat
    ghost var st: Sink
    ghost var chans: seq<Chan>    // the channel of each viewer of st
    ghost var Repr: set<Chan>

    /** Each viewer's channel holds what st says. */
    ghost predicate Wired(s: Sink)
      reads this, Repr
    {
      && |chans| == |s.viewers|
      && (forall k :: 0 <= k < |chans| ==>
            && chans[k] in Repr && chans[k].viewer == k
            && chans[k].buf == s.viewers[k].buf && chans[k].closes == s.viewers[k].closes)
      && (forall k :: k in subs <==> 0 <= k < |chans| && s.viewers[k].end.None?)
      && (forall k :: k in subs ==> subs[k] == chans[k])
      && (!closed ==> nextID == |chans|)
    }

    ghost predicate Agrees(s: Sink)
      reads this, Repr
    {
      && lines == LastN(s.all, MAX_LINES) && partial == s.partial
      && closed == s.closed && total == |s.fed|
      && Wired(s)
    }

    ghost predicate Valid()
      reads this, Repr
    {
      Agrees(st) && Reachable(st)
    }

    constructor ()
      ensures Valid() && st == EMPTY && fresh(Repr)
    {
      lines, partial, subs, nextID, closed, total := [], "", map[], 0, false, 0;
      st, chans, Repr := EMPTY, [], {};
      assert Executable(EMPTY, []) && Run(EMPTY, []) == EMPTY;
    }

    /** The non-blocking send of one line to every subscriber, in whatever order the map yields them. */
    method SendAll(line: string)
      requires forall k :: k in subs ==> subs[k] in Repr && subs[k].viewer == k
      modifies Repr`buf
      ensures forall c :: c in Repr ==> c.buf == Sent(old(c.buf), line, Subscribed(c))
    {
      var todo := subs.Keys;
      while todo != {}
        invariant todo <= subs.Keys
        invariant forall c :: c in Repr ==>
          c.buf == Sent(old(c.buf), line, Subscribed(c) && c.viewer !in todo)
        decreases |todo|
      {
        var id :| id in todo;
        var ch := subs[id];
        if |ch.buf| < CHAN_CAP {
          ch.buf := ch.buf + [line];
        }
        todo := todo - {id};
      }
    }

    ghost predicate Subscribed(c: Chan)
      reads this
    {
      c.viewer in subs && subs[c.viewer] == c
    }

    static function Sent(buf: seq<string>, line: string, registered: bool): seq<string> {
      if registered && |buf| < CHAN_CAP then buf + [line] else buf
    }

    method FanOut(line: string, ghost s: Sink)
      requires Wired(s) && !closed
      modifies Repr`buf
      ensures Wired(s.(viewers := MapOffer(s.viewers, [line])))
    {
      MapOfferOne(s.viewers, line);
      SendAll(line);
    }

    /** Add a line to the ring and drop what exceeds it. */
    method Retain(line: string)
      modifies this`lines
      ensures lines == LastN(old(lines) + [line], MAX_LINES)
    {
      lines := lines + [line];
      if |lines| > MAX_LINES {
        lines := lines[|lines|-MAX_LINES..];
      }
    }

    method AppendLine(line: string)
      requires Agrees(st) && !closed
      modifies this`lines, this`st, Repr`buf
      ensures Agrees(st) && st == Emit(old(st), [line])
    {
      LastNConcat(st.all, [line], MAX_LINES);
      Retain(line);
      FanOut(line, st);
      st := Emit(st, [line]);
    }

    /** One turn of the splitting loop: cut the first line off partial and append it. */
    method CutLine(idx: nat, ghost s0: Sink, ghost done: seq<string>) returns (line: string)
      requires Agrees(st) && !closed && IndexNewline(partial) == idx
      requires st == Emit(s0, done).(partial := partial)
      modifies this`lines, this`partial, this`st, Repr`buf
      ensures Agrees(st) && line == old(partial)[..idx] && partial == old(partial)[idx+1..]
      ensures st == Emit(s0, done + [line]).(partial := partial)
    {
      line := partial[..idx];
      EmitNext(s0, done, line, partial[idx+1..]);
      partial := partial[idx+1..];
      st := st.(partial := partial);
      AppendLine(line);
    }

    /** The splitting loop: emit every complete line of partial. */
    method Split()
      requires Agrees(st) && !closed
      modifies this`lines, this`partial, this`st, Repr`buf
      ensures Agrees(st) && st == Emit(old(st), Complete(old(partial))).(partial := Tail(old(partial)))
    {
      ghost var s0, text := st, partial;
      ghost var done: seq<string> := [];
      EmitNothing(s0);
      while true
        invariant Agrees(st) && st == Emit(s0, done).(partial := partial)
        invariant Complete(text) == done + Complete(partial) && Tail(text) == Tail(partial)
        decreases |partial|
      {
        var idx := IndexNewline(partial);
        if idx < 0 { break; }
        CutNext(text, done, partial, idx);
        var line := CutLine(idx, s0, done);
        done := done + [line];
      }
      assert done == Complete(text);
    }

    method Write(p: string) returns (n: nat)
      requires Valid()
      modifies this`lines, this`partial, this`total, this`st, Repr`buf
      ensures Valid() && st == Step(old(st), Event.Write(p)) && n == |p|
    {
      n := |p|;
      if closed { return; }
      ghost var s' := Feed(st, p);
      ReachNext(st, Event.Write(p));
      total := total + |p|;
      partial := partial + p;
      st := st.(partial := partial, fed := st.fed + p);
      Split();
      assert st == s';
    }

    /** A fresh channel for the next viewer, registered unless the sink is closed. */
    method Attach(ghost s': Sink) returns (ch: Chan, id: Option<nat>)
      requires Agrees(st) && s' == st.(viewers := st.viewers + [NewViewer(st)])
      modifies this`subs, this`nextID, this`chans, this`Repr
      ensures Agrees(s') && fresh(ch) && chans == old(chans) + [ch] && Repr == old(Repr) + {ch}
      ensures id == if closed then None else Some(|old(chans)|)
    {
      ch := new Chan(|chans|);
      if closed {
        ch.closes := ch.closes + 1;
        id := None;
      } else {
        id := Some(nextID);
        subs := subs[nextID := ch];
        nextID := nextID + 1;
      }
      chans := chans + [ch];
      Repr := Repr + {ch};
    }

    /** Returns the retained lines and a channel of future ones; id names the subscription for
        Cancel and is None when the sink is already closed. */
    method Subscribe() returns (history: seq<string>, ch: Chan, id: Option<nat>)
      requires Valid()
      modifies this`subs, this`nextID, this`chans, this`Repr, this`st
      ensures Valid() && st == Step(old(st), Event.Subscribe)
      ensures chans == old(chans) + [ch] && Repr == old(Repr) + {ch} && fresh(ch) && history == lines
      ensures id == if closed then None else Some(|old(chans)|)
    {
      ghost var s' := Step(st, Event.Subscribe);
      assert Reachable(s') by { ReachNext(st, Event.Subscribe); }
      history := lines;
      ch, id := Attach(s');
      st := s';
    }

    method Detach(id: nat, ghost s: Sink, ghost s': Sink)
      requires Wired(s) && id < |chans| && s.viewers[id].closes == if s.viewers[id].end.Some? then 1 else 0
      requires s' == s.(viewers := s.viewers[id := EndViewer(s.viewers[id], |s.all|)])
      modifies this`subs, Repr`closes
      ensures Wired(s') && chans[id].closes == 1 && id !in subs
      ensures forall c :: c in Repr && c != chans[id] ==> c.closes == old(c.closes)
    {
      if id in subs {
        var sub := subs[id];
        subs := subs - {id};
        sub.closes := sub.closes + 1;
      }
    }

    /** The unsubscribe function: closes the channel unless the subscription is already gone. */
    method Cancel(id: nat)
      requires Valid() && id < |chans|
      modifies this`subs, this`st, Repr`closes
      ensures Valid() && st == Step(old(st), Event.Unsubscribe(id)) && chans == old(chans)
      ensures chans[id].closes == 1 && id !in subs
      ensures forall c :: c in Repr && c != chans[id] ==> c.closes == old(c.closes)
    {
      ghost var s' := Step(st, Event.Unsubscribe(id));
      ReachNext(st, Event.Unsubscribe(id));
      ClosesMatchEnd(st, id);
      Detach(id, st, s');
      st := s';
    }

    /** A reader takes the oldest buffered line off its channel. */
    method Receive(ch: Chan, ghost k: nat) returns (line: string)
      requires Valid() && k < |chans| && chans[k] == ch && ch.buf != []
      modifies this`st, ch
      ensures Valid() && st == Step(old(st), Event.Receive(k)) && line == old(ch.buf[0])
    {
      ReachNext(st, Event.Receive(k));
      line := ch.buf[0];
      ch.buf := ch.buf[1..];
      st := Step(st, Event.Receive(k));
    }

    /** Delete and close every remaining subscription. */
    method DropAll()
      requires forall k :: k in subs ==> subs[k] in Repr && subs[k].viewer == k
      modifies this`subs, Repr`closes
      ensures subs == map[]
      ensures forall c :: c in Repr ==> c.closes == old(c.closes) + (if old(Subscribed(c)) then 1 else 0)
    {
      while subs.Keys != {}
        invariant forall k :: k in subs ==> k in old(subs) && subs[k] == old(subs)[k]
        invariant forall c :: c in Repr ==>
          c.closes == old(c.closes) + (if old(Subscribed(c)) && !Subscribed(c) then 1 else 0)
        decreases |subs.Keys|
      {
        var id :| id in subs.Keys;
        var ch := subs[id];
        assert (subs - {id}).Keys == subs.Keys - {id};
        subs := subs - {id};
        ch.closes := ch.closes + 1;
      }
    }

    method CloseSubs(ghost s: Sink)
      requires Wired(s) && closed
      modifies this`subs, Repr`closes
      ensures Wired(EndViewers(s)) && subs == map[]
    {
      DropAll();
    }

    /** Append the unterminated rest as a last line. */
    method FlushPartial()
      requires Agrees(st) && !closed
      modifies this`lines, this`partial, this`st, Repr`buf
      ensures Agrees(st) && st == Flush(old(st))
    {
      if partial != "" {
        AppendLine(partial);
        partial := "";
        st := st.(partial := "");
      }
    }

    method Close()
      requires Valid()
      modifies this`lines, this`partial, this`subs, this`closed, this`st, Repr
      ensures Valid() && st == Step(old(st), Event.Close)
      ensures closed && subs == map[] && forall k :: 0 <= k < |chans| ==> chans[k].closes == 1
    {
      ghost var s' := Step(st, Event.Close);
      assert Reachable(s') by { ReachNext(st, Event.Close); }
      forall k | 0 <= k < |s'.viewers| ensures s'.viewers[k].end.Some? && s'.viewers[k].closes == 1 {
        ClosesMatchEnd(s', k);
      }
      if closed {
        assert subs == map[];
      } else {
        FlushPartial();
        closed := true;
        CloseSubs(st);
        st := EndViewers(st);
        assert st == s';
      }
    }

    /** The persisted output. */
    method Snapshot() returns (out: string)
      requires Valid()
      ensures out == Truncate(JoinRest(LastN(st.all, MAX_LINES), st.partial))
      ensures closed && |AllLines(st.fed)| <= MAX_LINES && |ChopNewline(st.fed)| <= MAX_PERSIST ==>
        out == ChopNewline(st.fed)
    {
      out := Join(lines);
      if partial != "" {
        out := out + "\n" + partial;
      }
      if closed && |AllLines(st.fed)| <= MAX_LINES && |ChopNewline(st.fed)| <= MAX_PERSIST {
        ReachableSound(st);
        ShortOutputWhole(st);
      }
      out := Truncate(out);
    }
  }

  /** The text of all lines starts with something and ends with the text of the later ones. */
  lemma {:induction false} JoinSplits(ls: seq<string>, n: nat) returns (p: string)
    requires 0 < n < |ls|
    ensures p != "" && Join(ls) == p + Join(ls[n..])
  {
    assert Join(ls) == (ls[0] + "\n") + Join(ls[1..]);
    if n == 1 {
      p := ls[0] + "\n";
    } else {
      var q := JoinSplits(ls[1..], n - 1);
      assert ls[1..][n-1..] == ls[n..];
      p := ls[0] + "\n" + q;
      Associate(ls[0] + "\n", q, Join(ls[n..]));
    }
  }

  lemma IsSuffix(p: string, t: string)
    ensures (p + t)[|p + t|-|t|..] == t
  {
  }

  /** Dropping leading lines leaves a proper suffix of the joined text. */
  lemma JoinSuffix(ls: seq<string>, n: nat)
    requires 0 < n < |ls|
    ensures |Join(ls[n..])| < |Join(ls)| && Join(ls[n..]) == Join(ls)[|Join(ls)| - |Join(ls[n..])|..]
  {
    var p := JoinSplits(ls, n);
    IsSuffix(p, Join(ls[n..]));
  }

  /** The lines and the unterminated rest as one text. */
  function JoinRest(lines: seq<string>, partial: string): string {
    if partial == "" then Join(lines) else Join(lines) + "\n" + partial
  }

  lemma ShortOutputWhole(s: Sink)
    requires TextOk(s) && s.closed && |AllLines(s.fed)| <= MAX_LINES
    ensures s.partial == "" && Join(LastN(s.all, MAX_LINES)) == ChopNewline(s.fed)
  {
    JoinAllLines(s.fed);
  }

  /** What Close leaves to be persisted, in terms of the bytes fed: the retained lines are a suffix of
      the text, all of it exactly when there are at most 5000 lines; beyond 1 MiB the last 1 MiB of
      the text is kept behind a marker. */
  lemma PersistedOutput(fed: string)
    ensures var text, kept := ChopNewline(fed), Join(LastN(AllLines(fed), MAX_LINES));
      && |kept| <= |text| && kept == text[|text|-|kept|..]
      && (kept == text <==> |AllLines(fed)| <= MAX_LINES)
      && Truncate(kept) == (if |kept| <= MAX_PERSIST then kept else TRUNCATED + text[|text|-MAX_PERSIST..])
  {
    JoinAllLines(fed);
    PersistedText(AllLines(fed), ChopNewline(fed));
  }

  lemma PersistedText(ls: seq<string>, text: string)
    requires text == Join(ls)
    ensures var kept := Join(LastN(ls, MAX_LINES));
      && |kept| <= |text| && kept == text[|text|-|kept|..]
      && (kept == text <==> |ls| <= MAX_LINES)
      && Truncate(kept) == (if |kept| <= MAX_PERSIST then kept else TRUNCATED + text[|text|-MAX_PERSIST..])
  {
    RetainedText(ls);
    TruncatedSuffix(text, Join(LastN(ls, MAX_LINES)));
  }

  /** The retained lines are a suffix of the text, a proper one iff some were dropped. */
  lemma RetainedText(ls: seq<string>)
    ensures var text, kept := Join(ls), Join(LastN(ls, MAX_LINES));
      |kept| <= |text| && kept == text[|text|-|kept|..] && (kept == text <==> |ls| <= MAX_LINES)
  {
    if |ls| <= MAX_LINES {
    } else {
      JoinSuffix(ls, |ls| - MAX_LINES);
    }
  }

  lemma TruncatedSuffix(text: string, kept: string)
    requires |kept| <= |text| && kept == text[|text|-|kept|..]
    ensures Truncate(kept) == if |kept| <= MAX_PERSIST then kept else TRUNCATED + text[|text|-MAX_PERSIST..]
  {
    if |kept| > MAX_PERSIST {
      assert kept[|kept|-MAX_PERSIST..] == text[|text|-MAX_PERSIST..];
    }
  }

  /** The comment on maxBufferedLines promises the full output up to 1 MiB. That holds exactly for
      outputs of at most 5000 lines. */
  lemma FullOutputPersisted(fed: string)
    requires |ChopNewline(fed)| <= MAX_PERSIST
    ensures Truncate(Join(LastN(AllLines(fed), MAX_LINES))) == ChopNewline(fed) <==> |AllLines(fed)| <= MAX_LINES
  {
    PersistedOutput(fed);
  }

  lemma {:induction false} BlankLines(n: nat)
    ensures |Unlines(seq(n, i => ""))| == n
  {
    if n == 0 {
    } else {
      BlankLines(n - 1);
      assert seq(n, i => "")[1..] == seq(n - 1, i => "");
    }
  }

  /** 5001 blank lines, 5001 bytes, are not persisted in full. */
  lemma ShortOutputCut()
    ensures exists fed: string ::
              |fed| == 5001 && Truncate(Join(LastN(AllLines(fed), MAX_LINES))) != ChopNewline(fed)
  {
    var ls := seq(5001, i => "");
    var fed := Unlines(ls);
    BlankLines(5001);
    CompleteUnlines(ls, "");
    assert fed + "" == fed;
    FullOutputPersisted(fed);
  }
}
