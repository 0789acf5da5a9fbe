/** strings.Join, strings.Split with a one-character separator, and lib.DeleteEmpty. */
module Splitting {

  function Join(parts: seq<string>, sep: char): string {
    if parts == [] then ""
    else if |parts| == 1 then parts[0]
    else parts[0] + [sep] + Join(parts[1..], sep)
  }

  /** The pieces between separators; a text without one is its own only piece, even if empty. */
  function Split(s: string, sep: char): (r: seq<string>)
    ensures r != []
  {
    if s == "" then [""]
    else
      var rest := Split(s[1..], sep);
      if s[0] == sep then [""] + rest else [[s[0]] + rest[0]] + rest[1..]
  }

  function DeleteEmpty(parts: seq<string>): seq<string> {
    if parts == [] then []
    else DeleteEmpty(parts[..|parts| - 1]) + (if parts[|parts| - 1] != "" then [parts[|parts| - 1]] else [])
  }

  /** The texts that are not empty, in order. */
  lemma {:induction false} DeleteEmptyAppend(a: seq<string>, b: seq<string>)
    ensures DeleteEmpty(a + b) == DeleteEmpty(a) + DeleteEmpty(b)
    ensures |a| == 1 ==> DeleteEmpty(a) == if a[0] == "" then [] else a
  {
    if b == [] {
      assert a + b == a;
    } else {
      assert (a + b)[..|a + b| - 1] == a + b[..|b| - 1];
      DeleteEmptyAppend(a, b[..|b| - 1]);
    }
  }

  lemma {:induction false} SplitFree(s: string, sep: char)
    ensures forall p :: p in Split(s, sep) ==> sep !in p
    ensures sep !in s ==> Split(s, sep) == [s]
  {
    if s != "" {
      SplitFree(s[1..], sep);
      assert [s[0]] + s[1..] == s;
    }
  }

  lemma {:induction false} SplitAfter(p: string, s: string, sep: char)
    requires sep !in p
    ensures Split(p + [sep] + s, sep) == [p] + Split(s, sep)
  {
    var t := p + [sep] + s;
    if p == "" {
      assert t[1..] == s;
    } else {
      assert t[1..] == p[1..] + [sep] + s;
      SplitAfter(p[1..], s, sep);
      assert p == [p[0]] + p[1..];
    }
  }

  /** Joining what was split gives the text back. */
  lemma {:induction false} SplitJoin(s: string, sep: char)
    ensures Join(Split(s, sep), sep) == s
  {
    if s != "" {
      var rest := Split(s[1..], sep);
      SplitJoin(s[1..], sep);
      assert s == [s[0]] + s[1..];
      if s[0] == sep {
        assert ([""] + rest)[1..] == rest;
      } else {
        assert ([[s[0]] + rest[0]] + rest[1..])[1..] == rest[1..];
      }
    }
  }

  /** Splitting what was joined gives the parts back if and only if there is at least one
      part and none contains the separator. */
  lemma {:induction false} JoinSplit(parts: seq<string>, sep: char)
    ensures Split(Join(parts, sep), sep) == parts <==> parts != [] && forall p :: p in parts ==> sep !in p
  {
    var s := Join(parts, sep);
    SplitFree(s, sep);
    if parts != [] && forall p :: p in parts ==> sep !in p {
      JoinSplitForward(parts, sep);
    }
  }

  lemma {:induction false} JoinSplitForward(parts: seq<string>, sep: char)
    requires parts != [] && forall p :: p in parts ==> sep !in p
    ensures Split(Join(parts, sep), sep) == parts
  {
    assert parts[0] in parts;
    if |parts| == 1 {
      SplitFree(parts[0], sep);
    } else {
      forall p | p in parts[1..] ensures sep !in p { assert p in parts; }
      JoinSplitForward(parts[1..], sep);
      SplitAfter(parts[0], Join(parts[1..], sep), sep);
    }
  }
}
