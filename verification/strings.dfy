/** The functions of Go's strings and path packages that the models use, on sequences of characters. */
module Strings {
  predicate At(s: string, m: string, i: int) {
    0 <= i <= |s| - |m| && s[i..i+|m|] == m
  }

  /** strings.Contains */
  predicate Contains(s: string, m: string) {
    exists i | 0 <= i <= |s| - |m| :: At(s, m, i)
  }

  predicate HasPrefix(s: string, p: string) { p <= s }

  predicate HasSuffix(s: string, p: string) { |p| <= |s| && s[|s|-|p|..] == p }

  function Concat(chunks: seq<string>): string {
    if chunks == [] then "" else Concat(chunks[..|chunks|-1]) + chunks[|chunks|-1]
  }

  // ---------------------------------------------------------------- slash-separated paths

  /** strings.Split(s, "/") */
  function Split(s: string): (parts: seq<string>)
    ensures |parts| >= 1
  {
    if s == "" then [""]
    else
      var rest := Split(s[1..]);
      if s[0] == '/' then [""] + rest else [[s[0]] + rest[0]] + rest[1..]
  }

  /** The parts that filepath.Join keeps when there is no "..". */
  function Named(parts: seq<string>): seq<string> {
    if parts == [] then []
    else (if parts[0] == "" || parts[0] == "." then [] else [parts[0]]) + Named(parts[1..])
  }

  function Clean(s: string): seq<string> { Named(Split(s)) }

  predicate Component(c: string) { c != "" && c != "." && c != ".." && '/' !in c }

  /** A path of file names below some root. */
  predicate PathOk(p: seq<string>) { p != [] && forall i :: 0 <= i < |p| ==> Component(p[i]) }

  /** The path written with slashes. */
  function Slashed(p: seq<string>): string
    requires p != []
  {
    if |p| == 1 then p[0] else p[0] + "/" + Slashed(p[1..])
  }

  lemma {:induction false} SplitFirst(c: string, t: string)
    requires '/' !in c
    ensures Split(c + "/" + t) == [c] + Split(t) && Split(c) == [c]
  {
    var s := c + "/" + t;
    if c == "" {
      assert s == "/" + t && s[1..] == t;
    } else {
      SplitFirst(c[1..], t);
      assert s[1..] == c[1..] + "/" + t;
      assert [c[0]] + c[1..] == c;
    }
  }

  lemma {:induction false} NamedAll(p: seq<string>)
    requires forall i :: 0 <= i < |p| ==> Component(p[i])
    ensures Named(p) == p
  {
    if p == [] {
    } else {
      NamedAll(p[1..]);
      assert p == [p[0]] + p[1..];
    }
  }

  lemma {:induction false} SplitSlashed(p: seq<string>)
    requires PathOk(p)
    ensures Split(Slashed(p)) == p
  {
    if |p| == 1 {
      SplitFirst(p[0], "");
    } else {
      SplitSlashed(p[1..]);
      SplitFirst(p[0], Slashed(p[1..]));
      assert p == [p[0]] + p[1..];
    }
  }

  /** Reading back a written path gives the path. */
  lemma CleanSlashed(p: seq<string>)
    requires PathOk(p)
    ensures Clean(Slashed(p)) == p
  {
    SplitSlashed(p);
    NamedAll(p);
  }

  lemma SlashedInjective(p: seq<string>, q: seq<string>)
    requires PathOk(p) && PathOk(q) && Slashed(p) == Slashed(q)
    ensures p == q
  {
    CleanSlashed(p);
    CleanSlashed(q);
  }
}
