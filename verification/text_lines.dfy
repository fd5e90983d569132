/** Byte strings cut at newlines. A character stands for one byte. */
module TextLines {

  /** strings.IndexByte(s, '\n') */
  function IndexNewline(s: string): (i: int)
    ensures -1 <= i < |s|
    ensures i >= 0 ==> s[i] == '\n' && '\n' !in s[..i]
    ensures i < 0 ==> '\n' !in s
  {
    if s == "" then -1
    else if s[0] == '\n' then 0
    else
      var k := IndexNewline(s[1..]);
      assert s == [s[0]] + s[1..];
      if k < 0 then -1 else assert s[..k+1] == [s[0]] + s[1..][..k]; k + 1
  }

  /** The newline-terminated lines of s, without their newlines. */
  function Complete(s: string): seq<string>
    decreases |s|
  {
    var i := IndexNewline(s);
    if i < 0 then [] else [s[..i]] + Complete(s[i+1..])
  }

  /** What follows the last newline of s. */
  function Tail(s: string): string
    decreases |s|
  {
    var i := IndexNewline(s);
    if i < 0 then s else Tail(s[i+1..])
  }

  /** Every line of s, the unterminated last one included when it is not empty. */
  function AllLines(s: string): seq<string> {
    Complete(s) + (if Tail(s) == "" then [] else [Tail(s)])
  }

  /** Each line followed by a newline. */
  function Unlines(ls: seq<string>): string {
    if ls == [] then "" else ls[0] + "\n" + Unlines(ls[1..])
  }

  /** strings.Join(ls, "\n") */
  function Join(ls: seq<string>): string {
    if ls == [] then "" else if |ls| == 1 then ls[0] else ls[0] + "\n" + Join(ls[1..])
  }

  function LastN<T>(xs: seq<T>, n: nat): seq<T> {
    if |xs| <= n then xs else xs[|xs|-n..]
  }

  function ChopNewline(s: string): string {
    if s != "" && s[|s|-1] == '\n' then s[..|s|-1] else s
  }

  lemma IndexOf(a: string, b: string)
    requires '\n' !in a
    ensures IndexNewline(a + "\n" + b) == |a|
  {
    var s := a + "\n" + b;
    assert s[|a|] == '\n';
    assert forall k :: 0 <= k < |a| ==> s[k] == a[k];
    assert forall k :: |a| < k <= |s| ==> s[..k][|a|] == '\n';
  }

  /** Cutting is the inverse of terminating: lines without newlines come back unchanged. */
  lemma {:induction false} CompleteUnlines(ls: seq<string>, t: string)
    requires '\n' !in t && forall i :: 0 <= i < |ls| ==> '\n' !in ls[i]
    ensures Complete(Unlines(ls) + t) == ls && Tail(Unlines(ls) + t) == t
  {
    if ls == [] {
      assert Unlines(ls) + t == t;
    } else {
      var s := Unlines(ls) + t;
      var rest := Unlines(ls[1..]) + t;
      assert s == ls[0] + "\n" + rest;
      IndexOf(ls[0], rest);
      CompleteUnlines(ls[1..], t);
      assert s[|ls[0]|+1..] == rest && s[..|ls[0]|] == ls[0];
    }
  }

  lemma AroundNewline(s: string, i: nat)
    requires i < |s| && s[i] == '\n'
    ensures s == s[..i] + "\n" + s[i+1..]
  {
    assert s[i..i+1] == "\n";
    assert s == s[..i] + s[i..i+1] + s[i+1..];
  }

  /** The first line and the rest. */
  lemma CutFirst(s: string)
    requires IndexNewline(s) >= 0
    ensures var i := IndexNewline(s);
      Complete(s) == [s[..i]] + Complete(s[i+1..]) && Tail(s) == Tail(s[i+1..])
  {
  }

  lemma {:induction false} LinesHoldNoNewline(s: string)
    ensures '\n' !in Tail(s) && forall i :: 0 <= i < |Complete(s)| ==> '\n' !in Complete(s)[i]
    decreases |s|
  {
    var i := IndexNewline(s);
    if i < 0 {
    } else {
      CutFirst(s);
      LinesHoldNoNewline(s[i+1..]);
      assert forall k :: 0 < k < |Complete(s)| ==> Complete(s)[k] == Complete(s[i+1..])[k-1];
    }
  }

  lemma {:induction false} PutTogether(s: string)
    ensures Unlines(Complete(s)) + Tail(s) == s
    decreases |s|
  {
    var i := IndexNewline(s);
    if i < 0 {
    } else {
      CutFirst(s);
      AroundNewline(s, i);
      PutTogether(s[i+1..]);
      UnlinesCons(s[..i], Complete(s[i+1..]), Tail(s[i+1..]));
    }
  }

  /** Nothing is lost by cutting. */
  lemma Recompose(s: string)
    ensures Unlines(Complete(s)) + Tail(s) == s
    ensures '\n' !in Tail(s) && forall i :: 0 <= i < |Complete(s)| ==> '\n' !in Complete(s)[i]
  {
    PutTogether(s);
    LinesHoldNoNewline(s);
  }

  lemma UnlinesCons(line: string, ls: seq<string>, t: string)
    ensures Unlines([line] + ls) + t == line + "\n" + (Unlines(ls) + t)
  {
    assert ([line] + ls)[1..] == ls;
  }

  lemma {:induction false} UnlinesConcat(xs: seq<string>, ys: seq<string>)
    ensures Unlines(xs + ys) == Unlines(xs) + Unlines(ys)
  {
    if xs == [] {
      assert xs + ys == ys;
    } else {
      assert (xs + ys)[1..] == xs[1..] + ys;
      UnlinesConcat(xs[1..], ys);
    }
  }

  lemma Reassociate(x: string, t: string, b: string, y: string, u: string)
    requires t + b == y + u
    ensures (x + t) + b == (x + y) + u
  {
    assert (x + t) + b == x + (t + b);
    assert (x + y) + u == x + (y + u);
  }

  /** Cutting in two goes: only the unterminated rest of the first part matters for the second. */
  lemma CutConcat(a: string, b: string)
    ensures Complete(a + b) == Complete(a) + Complete(Tail(a) + b)
    ensures Tail(a + b) == Tail(Tail(a) + b)
  {
    var xs, t := Complete(a), Tail(a);
    var ys, u := Complete(t + b), Tail(t + b);
    Recompose(a);
    Recompose(t + b);
    UnlinesConcat(xs, ys);
    Reassociate(Unlines(xs), t, b, Unlines(ys), u);
    CompleteUnlines(xs + ys, u);
  }

  lemma LastNConcat<T>(xs: seq<T>, ys: seq<T>, n: nat)
    ensures LastN(LastN(xs, n) + ys, n) == LastN(xs + ys, n)
  {
  }

  lemma {:induction false} UnlinesIsJoin(ls: seq<string>)
    requires ls != []
    ensures Unlines(ls) == Join(ls) + "\n"
  {
    if |ls| <= 1 {
    } else {
      UnlinesIsJoin(ls[1..]);
      assert Unlines(ls) == ls[0] + "\n" + (Join(ls[1..]) + "\n");
    }
  }

  lemma {:induction false} JoinSnoc(ls: seq<string>, t: string)
    requires ls != []
    ensures Join(ls + [t]) == Join(ls) + "\n" + t
  {
    assert (ls + [t])[1..] == ls[1..] + [t];
    if |ls| <= 1 {
    } else {
      JoinSnoc(ls[1..], t);
    }
  }

  /** A text without newlines is its only line. */
  lemma JoinTail(t: string)
    requires '\n' !in t
    ensures Join(if t == "" then [] else [t]) == ChopNewline(t)
  {
    assert t != "" ==> t[|t|-1] in t;
  }

  /** Lines and an unterminated rest. */
  lemma JoinWithTail(ls: seq<string>, t: string)
    requires ls != [] && '\n' !in t
    ensures Join(ls + if t == "" then [] else [t]) == ChopNewline(Unlines(ls) + t)
  {
    UnlinesIsJoin(ls);
    if t == "" {
      assert ls + [] == ls;
      assert Unlines(ls) + t == Join(ls) + "\n";
    } else {
      JoinSnoc(ls, t);
      assert Unlines(ls) + t == Join(ls) + "\n" + t;
      assert (Join(ls) + "\n" + t)[|Join(ls) + "\n" + t|-1] == t[|t|-1] && t[|t|-1] in t;
    }
  }

  /** Joining all lines gives the text back, up to one trailing newline. */
  lemma JoinAllLines(s: string)
    ensures Join(AllLines(s)) == ChopNewline(s)
  {
    Recompose(s);
    var ls, t := Complete(s), Tail(s);
    if ls == [] {
      assert Unlines(ls) + t == t;
      assert AllLines(s) == if t == "" then [] else [t];
      JoinTail(t);
    } else {
      JoinWithTail(ls, t);
    }
  }
}
