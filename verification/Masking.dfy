/** The worker's log masking: in every chunk, each secret value is replaced by ten stars. */
module Masking {

  datatype EnvVariable = EnvVariable(key: string, value: string, secret: bool)

  const STARS := "**********"

  predicate OccursAt(s: string, v: string, i: nat) { i + |v| <= |s| && s[i..i + |v|] == v }

  predicate Contains(s: string, v: string) { exists i :: 0 <= i <= |s| && OccursAt(s, v, i) }

  /** strings.ReplaceAll for a non-empty v: leftmost, non-overlapping. */
  function Replace(s: string, v: string): string
    requires v != ""
  {
    if |s| < |v| then s
    else if s[..|v|] == v then STARS + Replace(s[|v|..], v)
    else [s[0]] + Replace(s[1..], v)
  }

  // An empty v matches before every character and at the end.
  function Interleave(s: string): string {
    if s == "" then STARS else STARS + [s[0]] + Interleave(s[1..])
  }

  function ReplaceAll(s: string, v: string): string { if v == "" then Interleave(s) else Replace(s, v) }

  function MaskOne(s: string, e: EnvVariable): string {
    if e.secret && Contains(s, e.value) then ReplaceAll(s, e.value) else s
  }

  function MaskAll(s: string, env: seq<EnvVariable>): string {
    if env == [] then s else MaskOne(MaskAll(s, env[..|env| - 1]), env[|env| - 1])
  }

  method MaskChunk(output: string, env: seq<EnvVariable>) returns (out: string)
    ensures out == MaskAll(output, env)
  {
    out := output;
    for i := 0 to |env|
      invariant out == MaskAll(output, env[..i])
    {
      assert env[..i + 1][..i] == env[..i];
      if env[i].secret && Contains(out, env[i].value) {
        out := ReplaceAll(out, env[i].value);
      }
    }
    assert env[..|env|] == env;
  }

  /** The values are masked in the order of the list, and one that is not secret is left alone. */
  lemma {:induction false} MaskedInOrder(s: string, a: seq<EnvVariable>, b: seq<EnvVariable>)
    ensures MaskAll(s, a + b) == MaskAll(MaskAll(s, a), b)
    ensures |a| == 1 ==>
      MaskAll(s, a) == if a[0].secret && Contains(s, a[0].value) then ReplaceAll(s, a[0].value) else s
  {
    if b == [] {
      assert a + b == a;
    } else {
      assert (a + b)[..|a + b| - 1] == a + b[..|b| - 1];
      MaskedInOrder(s, a, b[..|b| - 1]);
    }
  }

  /** An empty value puts ten stars in front of every character and at the end. */
  lemma {:induction false} EmptyValue(s: string)
    ensures |ReplaceAll(s, "")| == 11 * |s| + 10
    ensures forall i :: 0 <= i < |ReplaceAll(s, "")| ==>
      ReplaceAll(s, "")[i] == if i % 11 == 10 then s[i / 11] else '*'
  {
    var r := ReplaceAll(s, "");
    if s != "" {
      EmptyValue(s[1..]);
      var rest := ReplaceAll(s[1..], "");
      assert r == STARS + [s[0]] + rest;
      forall i | 0 <= i < |r| ensures r[i] == if i % 11 == 10 then s[i / 11] else '*' {
        if i >= 11 {
          assert r[i] == rest[i - 11];
        }
      }
    }
  }

  // ---- What a replacement leaves ----

  /** Values that a run of ten stars cannot help to spell: not empty, no star at either end,
      no ten stars in a row inside. */
  predicate Safe(v: string) {
    v != "" && v[0] != '*' && v[|v| - 1] != '*' && !Contains(v, STARS)
  }

  // A beginning of the replaced text that no stars reach into was a beginning of the text.
  lemma {:induction false} PrefixWasThere(s: string, v: string, p: string)
    requires v != "" && p <= Replace(s, v)
    requires p != "" ==> p[|p| - 1] != '*' && !Contains(p, STARS)
    ensures p <= s
  {
    if p != "" && |s| >= |v| {
      if s[..|v|] == v {
        StarsReachIn(Replace(s[|v|..], v), p);
      } else {
        assert Replace(s, v)[1..] == Replace(s[1..], v);
        assert p[1..] <= Replace(s[1..], v);
        if Contains(p[1..], STARS) {
          ContainsTail(p, 1, STARS);
        }
        PrefixWasThere(s[1..], v, p[1..]);
        assert p == [p[0]] + p[1..] && s == [s[0]] + s[1..];
      }
    }
  }

  lemma StarsReachIn(tail: string, p: string)
    requires p != "" && p <= STARS + tail
    ensures p[|p| - 1] == '*' || Contains(p, STARS)
  {
    if |p| >= |STARS| {
      assert p[..|STARS|] == STARS;
      assert OccursAt(p, STARS, 0);
    }
  }

  lemma ContainsTail(s: string, k: nat, u: string)
    requires k <= |s| && Contains(s[k..], u)
    ensures Contains(s, u)
  {
    var i :| 0 <= i <= |s[k..]| && OccursAt(s[k..], u, i);
    assert s[k..][i..i + |u|] == s[k + i..k + i + |u|];
    assert OccursAt(s, u, k + i);
  }

  // An occurrence of u in a replaced text lies behind the stars or the first character, or begins it.
  lemma OccurrenceBehind(head: string, tail: string, u: string, i: nat)
    requires OccursAt(head + tail, u, i) && i >= |head|
    ensures Contains(tail, u)
  {
    assert (head + tail)[i..i + |u|] == tail[i - |head|..i - |head| + |u|];
    assert OccursAt(tail, u, i - |head|);
  }

  lemma PastStars(tail: string, u: string, i: nat)
    requires Safe(u) && OccursAt(STARS + tail, u, i)
    ensures i >= |STARS|
  {
    assert u[0] == (STARS + tail)[i];
  }

  /** Replacing v creates no safe text that was not there. */
  lemma {:induction false} NothingNew(s: string, v: string, u: string)
    requires v != "" && Safe(u) && Contains(Replace(s, v), u)
    ensures Contains(s, u)
    decreases |s|
  {
    if |s| >= |v| {
      var out := Replace(s, v);
      var i :| 0 <= i <= |out| && OccursAt(out, u, i);
      if s[..|v|] == v {
        PastStars(Replace(s[|v|..], v), u, i);
        OccurrenceBehind(STARS, Replace(s[|v|..], v), u, i);
        NothingNew(s[|v|..], v, u);
        ContainsTail(s, |v|, u);
      } else if i == 0 {
        PrefixWasThere(s, v, u);
        assert OccursAt(s, u, 0);
      } else {
        OccurrenceBehind([s[0]], Replace(s[1..], v), u, i);
        NothingNew(s[1..], v, u);
        ContainsTail(s, 1, u);
      }
    }
  }

  /** A safe v is gone after replacing it. */
  lemma {:induction false} Gone(s: string, v: string)
    requires Safe(v)
    ensures !Contains(Replace(s, v), v)
    decreases |s|
  {
    var out := Replace(s, v);
    if Contains(out, v) && |s| >= |v| {
      var i :| 0 <= i <= |out| && OccursAt(out, v, i);
      if s[..|v|] == v {
        PastStars(Replace(s[|v|..], v), v, i);
        Gone(s[|v|..], v);
        OccurrenceBehind(STARS, Replace(s[|v|..], v), v, i);
      } else {
        Gone(s[1..], v);
        if i == 0 {
          PrefixWasThere(s, v, v);
        } else {
          OccurrenceBehind([s[0]], Replace(s[1..], v), v, i);
        }
      }
    }
  }

  predicate Maskable(env: seq<EnvVariable>) {
    forall e :: e in env && e.secret ==> Safe(e.value)
  }

  /** If every secret value is safe (a non-empty one without '*' is), no secret value occurs in
      a masked chunk, whichever values overlap or contain each other. */
  lemma {:induction false} MaskingComplete(s: string, env: seq<EnvVariable>)
    requires Maskable(env)
    ensures forall e :: e in env && e.secret ==> !Contains(MaskAll(s, env), e.value)
  {
    if env != [] {
      var init, last := env[..|env| - 1], env[|env| - 1];
      assert env == init + [last];
      MaskingComplete(s, init);
      var before := MaskAll(s, init);
      if last.secret {
        Gone(before, last.value);
      }
      forall e | e in env && e.secret ensures !Contains(MaskAll(s, env), e.value) {
        if e in init && last.secret && Contains(before, last.value) && Contains(Replace(before, last.value), e.value) {
          NothingNew(before, last.value, e.value);
        }
      }
    }
  }

  /** A chunk without any secret value passes unchanged. */
  lemma {:induction false} MaskingHarmless(s: string, env: seq<EnvVariable>)
    requires forall e :: e in env && e.secret ==> !Contains(s, e.value)
    ensures MaskAll(s, env) == s
  {
    if env != [] {
      assert env[|env| - 1] in env;
      MaskingHarmless(s, env[..|env| - 1]);
    }
  }

  /** Masking again changes nothing. */
  lemma MaskingIdempotent(s: string, env: seq<EnvVariable>)
    requires Maskable(env)
    ensures MaskAll(MaskAll(s, env), env) == MaskAll(s, env)
  {
    MaskingComplete(s, env);
    MaskingHarmless(MaskAll(s, env), env);
  }

  // ---- A replacement touches nothing else ----

  function Glue(pieces: seq<string>, sep: string): string
    requires pieces != []
  {
    if |pieces| == 1 then pieces[0] else pieces[0] + sep + Glue(pieces[1..], sep)
  }

  // The text between the leftmost, non-overlapping occurrences of v.
  function Pieces(s: string, v: string): (r: seq<string>)
    requires v != ""
    ensures r != []
  {
    if |s| < |v| then [s]
    else if s[..|v|] == v then [""] + Pieces(s[|v|..], v)
    else var rest := Pieces(s[1..], v); [[s[0]] + rest[0]] + rest[1..]
  }

  lemma GlueFirst(c: char, pieces: seq<string>, sep: string)
    requires pieces != []
    ensures Glue([[c] + pieces[0]] + pieces[1..], sep) == [c] + Glue(pieces, sep)
  {
    var longer := [[c] + pieces[0]] + pieces[1..];
    if |pieces| > 1 { assert longer[1..] == pieces[1..]; }
  }

  lemma GlueEmpty(pieces: seq<string>, sep: string)
    requires pieces != []
    ensures Glue([""] + pieces, sep) == sep + Glue(pieces, sep)
  {
    assert ([""] + pieces)[1..] == pieces;
  }

  /** The text is its pieces with v between them, the result the same pieces with stars
      between them, and v is in none of the pieces. */
  lemma {:induction false} OnlyOccurrencesReplaced(s: string, v: string)
    requires v != ""
    ensures Glue(Pieces(s, v), v) == s && Glue(Pieces(s, v), STARS) == Replace(s, v)
    ensures Pieces(s, v)[0] <= s
    ensures forall p :: p in Pieces(s, v) ==> !Contains(p, v)
    decreases |s|
  {
    if |s| >= |v| {
      if s[..|v|] == v {
        var rest := Pieces(s[|v|..], v);
        OnlyOccurrencesReplaced(s[|v|..], v);
        GlueEmpty(rest, v);
        GlueEmpty(rest, STARS);
        assert s == v + s[|v|..];
      } else {
        var rest := Pieces(s[1..], v);
        OnlyOccurrencesReplaced(s[1..], v);
        GlueFirst(s[0], rest, v);
        GlueFirst(s[0], rest, STARS);
        assert s == [s[0]] + s[1..];
        var first := [s[0]] + rest[0];
        assert rest[0] in rest;
        if Contains(first, v) {
          var i :| 0 <= i <= |first| && OccursAt(first, v, i);
          if i > 0 { OccurrenceBehind([s[0]], rest[0], v, i); }
        }
        forall p | p in Pieces(s, v) ensures !Contains(p, v) {
          assert p == first || p in rest[1..];
        }
      }
    }
  }

  // ---- Where it fails ----

  lemma OccursBehind(c: char, t: string, v: string, i: nat)
    requires OccursAt(t, v, i)
    ensures OccursAt([c] + t, v, i + 1)
  {
    assert ([c] + t)[i + 1..i + 1 + |v|] == t[i..i + |v|];
  }

  lemma OccursChar(s: string, v: string, i: nat, j: nat)
    requires i + |v| <= |s| && j < |v|
    ensures OccursAt(s, v, i) ==> s[i + j] == v[j]
  {
    assert s[i..i + |v|][j] == s[i + j];
  }

  lemma OccursInside(s: string, v: string, i: nat, u: string, k: nat)
    requires OccursAt(s, v, i) && OccursAt(v, u, k)
    ensures OccursAt(s, u, i + k)
  {
    var there := s[i + k..i + k + |u|];
    forall j | 0 <= j < |u| ensures there[j] == u[j] {
      OccursChar(v, u, k, j);
      OccursChar(s, v, i, k + j);
    }
  }

  lemma EarlierStars(v: string, k: nat)
    requires k > 0 && OccursAt(v, STARS, k) && v[k - 1] == '*'
    ensures OccursAt(v, STARS, k - 1)
  {
    var run := v[k - 1..k + 9];
    forall j | 0 <= j < 10 ensures run[j] == STARS[j] {
      if j > 0 {
        OccursChar(v, STARS, k, j - 1);
      }
    }
  }

  // Where a leaves no room for an earlier match, v is the first to be replaced.
  lemma {:induction false} ReplaceFirst(a: string, v: string, b: string)
    requires v != "" && forall i :: 0 <= i < |a| ==> !OccursAt(a + v + b, v, i)
    ensures Replace(a + v + b, v) == a + STARS + Replace(b, v)
  {
    var s := a + v + b;
    if a == "" {
      assert s[..|v|] == v && s[|v|..] == b;
      assert a + STARS == STARS;
    } else {
      var t := a[1..] + v + b;
      assert s == [a[0]] + t;
      forall i | 0 <= i < |a[1..]| ensures !OccursAt(t, v, i) {
        assert !OccursAt(s, v, i + 1);
        if OccursAt(t, v, i) {
          OccursBehind(a[0], t, v, i);
        }
      }
      assert !OccursAt(s, v, 0) && s[0..|v|] == s[..|v|];
      ReplaceFirst(a[1..], v, b);
      assert s[1..] == t;
      assert [a[0]] + (a[1..] + STARS + Replace(b, v)) == a + STARS + Replace(b, v);
    }
  }

  lemma OccursMiddle(a: string, v: string, b: string)
    ensures Contains(a + v + b, v)
  {
    assert (a + v + b)[|a|..|a| + |v|] == v;
    assert OccursAt(a + v + b, v, |a|);
  }

  lemma {:induction false} FirstStars(v: string, n: nat) returns (k: nat)
    requires OccursAt(v, STARS, n)
    ensures k <= n && OccursAt(v, STARS, k) && forall i :: 0 <= i < k ==> !OccursAt(v, STARS, i)
  {
    k := 0;
    while !OccursAt(v, STARS, k)
      invariant k <= n && forall i :: 0 <= i < k ==> !OccursAt(v, STARS, i)
      decreases n - k
    {
      k := k + 1;
    }
  }

  // A leading star: v and its own tail.
  lemma LeadingStarLeaks(v: string, tail: string)
    requires v == "*" + tail
    ensures Contains("" + v + tail, v) && Contains(Replace("" + v + tail, v), v)
  {
    OccursMiddle("", v, tail);
    ReplaceFirst("", v, tail);
    assert Replace(tail, v) == tail;
    OneMoreStar(tail);
    OccursMiddle(STARS[..9], v, "");
  }

  lemma OneMoreStar(tail: string)
    ensures "" + STARS + tail == STARS[..9] + ("*" + tail) + ""
  {
    assert STARS == STARS[..9] + "*";
  }

  // A last star, but no leading one: v without it, then v.
  lemma LastStarLeaks(a: string, v: string)
    requires v == a + "*" && v[0] != '*'
    ensures Contains(a + v + "", v) && Contains(Replace(a + v + "", v), v)
  {
    var s := a + v + "";
    OccursMiddle(a, v, "");
    forall i | 0 <= i < |a| ensures !OccursAt(s, v, i) {
      assert s[i] == v[i] == s[i + |a|];
      OccursChar(s, v, i, 0);
      OccursChar(s, v, i, |a|);
    }
    ReplaceFirst(a, v, "");
    assert Replace(s, v) == "" + v + STARS[1..];
    OccursMiddle("", v, STARS[1..]);
  }

  // In a + a + STARS, where a ends without a star and a + STARS has its first ten stars
  // behind a, no ten stars stand earlier.
  lemma NoStarsBefore(a: string, b: string, i: nat)
    requires a != "" && a[|a| - 1] != '*' && i < |a|
    requires !OccursAt(a + STARS + b, STARS, i)
    ensures !OccursAt(a + (a + STARS + b) + b, STARS, i + |a|)
  {
    var v := a + STARS + b;
    var s := a + v + b;
    assert s[i + |a|..i + |a| + 10] == v[i..i + 10];
  }

  // Ten stars between a and b: a, v, b.
  lemma InnerStarsLeak(a: string, b: string)
    requires a != "" && a[|a| - 1] != '*'
    requires forall i :: 0 <= i < |a| ==> !OccursAt(a + STARS + b, STARS, i)
    ensures var v := a + STARS + b; Contains(a + v + b, v) && Contains(Replace(a + v + b, v), v)
  {
    var v := a + STARS + b;
    var s := a + v + b;
    OccursMiddle(a, v, b);
    forall i | 0 <= i < |a| ensures !OccursAt(s, v, i) {
      NoStarsBefore(a, b, i);
      assert v[|a|..|a| + 10] == STARS;
      if OccursAt(s, v, i) {
        OccursInside(s, v, i, STARS, |a|);
      }
    }
    ReplaceFirst(a, v, b);
    assert |b| < |v|;
    assert Replace(s, v) == "" + v + "";
    OccursMiddle("", v, "");
  }

  lemma InnerStars(v: string, n: nat) returns (a: string, b: string)
    requires v != "" && v[0] != '*' && OccursAt(v, STARS, n)
    ensures v == a + STARS + b && a != "" && a[|a| - 1] != '*'
    ensures forall i :: 0 <= i < |a| ==> !OccursAt(v, STARS, i)
  {
    var k := FirstStars(v, n);
    a, b := v[..k], v[k + 10..];
    assert v[k..k + 10] == STARS;
    assert v[k] == STARS[0];
    if v[k - 1] == '*' {
      EarlierStars(v, k);
    }
  }

  /** The exact condition for one secret: masking removes it from every chunk if and only if
      it is safe. */
  lemma MaskingCompleteIff(key: string, v: string)
    ensures (forall s :: !Contains(MaskAll(s, [EnvVariable(key, v, true)]), v)) <==> Safe(v)
  {
    var env := [EnvVariable(key, v, true)];
    if Safe(v) {
      forall s ensures !Contains(MaskAll(s, env), v) {
        MaskingComplete(s, env);
        assert env[0] in env;
      }
    } else {
      var s := Leak(v);
      assert env[..0] == [];
      assert MaskAll(s, env) == ReplaceAll(s, v);
    }
  }

  lemma Leak(v: string) returns (s: string)
    requires !Safe(v)
    ensures Contains(s, v) && Contains(ReplaceAll(s, v), v)
  {
    if v == "" {
      s := "";
      assert OccursAt(s, v, 0) && OccursAt(ReplaceAll(s, v), v, 0);
    } else if v[0] == '*' {
      s := "" + v + v[1..];
      assert v == "*" + v[1..];
      LeadingStarLeaks(v, v[1..]);
    } else if v[|v| - 1] == '*' {
      var a := v[..|v| - 1];
      s := a + v + "";
      LastStarLeaks(a, v);
    } else {
      var n :| 0 <= n <= |v| && OccursAt(v, STARS, n);
      var a, b := InnerStars(v, n);
      s := a + v + b;
      InnerStarsLeak(a, b);
    }
  }

  /** The guarantee is per chunk: a secret cut in two by the chunk boundary passes. */
  lemma SplitSecretLeaks(key: string, v: string, k: nat)
    requires 0 < k < |v|
    ensures var env := [EnvVariable(key, v, true)];
      MaskAll(v[..k], env) + MaskAll(v[k..], env) == v
  {
    var env := [EnvVariable(key, v, true)];
    assert env[..0] == [];
    assert MaskAll(v[..k], env) == v[..k] && MaskAll(v[k..], env) == v[k..];
  }
}
