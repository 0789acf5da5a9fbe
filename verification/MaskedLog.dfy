/** The log as a whole: secrets are masked chunk by chunk, and the chunks are joined. */
module MaskedLog {
  import opened Masking

  // The sender masks the chunks one by one.
  function Masked(chunks: seq<string>, env: seq<EnvVariable>): seq<string> {
    if chunks == [] then [] else Masked(chunks[..|chunks| - 1], env) + [MaskAll(chunks[|chunks| - 1], env)]
  }

  function Concat(parts: seq<string>): string {
    if parts == [] then "" else Concat(parts[..|parts| - 1]) + parts[|parts| - 1]
  }

  /** Joining appends the parts in order. */
  lemma {:induction false} ConcatAppend(a: seq<string>, b: seq<string>)
    ensures Concat(a + b) == Concat(a) + Concat(b)
    ensures |a| == 1 ==> Concat(a) == a[0]
  {
    if b == [] {
      assert a + b == a;
    } else {
      assert (a + b)[..|a + b| - 1] == a + b[..|b| - 1];
      ConcatAppend(a, b[..|b| - 1]);
    }
  }

  lemma {:induction false} MaskedAt(chunks: seq<string>, env: seq<EnvVariable>)
    ensures |Masked(chunks, env)| == |chunks|
    ensures forall i :: 0 <= i < |chunks| ==> Masked(chunks, env)[i] == MaskAll(chunks[i], env)
  {
    if chunks != [] {
      MaskedAt(chunks[..|chunks| - 1], env);
    }
  }

  lemma {:induction false} MaskedPrefix(chunks: seq<string>, n: nat, env: seq<EnvVariable>)
    requires n <= |chunks|
    ensures n <= |Masked(chunks, env)| && Masked(chunks, env)[..n] == Masked(chunks[..n], env)
  {
    MaskedAt(chunks, env);
    MaskedAt(chunks[..n], env);
  }

  // ---- The pieces of the original text that a mask leaves ----

  function Flat(ps: seq<string>, v: string): (r: seq<string>)
    requires v != ""
    ensures ps != [] ==> r != []
  {
    if ps == [] then [] else Pieces(ps[0], v) + Flat(ps[1..], v)
  }

  function AllPieces(s: string, env: seq<EnvVariable>): (r: seq<string>)
    requires Maskable(env)
    ensures r != []
  {
    if env == [] then [s]
    else
      var last := env[|env| - 1];
      var ps := AllPieces(s, env[..|env| - 1]);
      if last.secret then Flat(ps, last.value) else ps
  }

  lemma {:induction false} NoOccurrence(s: string, v: string)
    requires v != "" && !Contains(s, v)
    ensures Replace(s, v) == s && Pieces(s, v) == [s]
  {
    if |s| >= |v| {
      assert !OccursAt(s, v, 0) && s[0..|v|] == s[..|v|];
      if Contains(s[1..], v) {
        ContainsTail(s, 1, v);
      }
      NoOccurrence(s[1..], v);
    }
  }

  lemma {:induction false} SkipStars(x: string, b: string, v: string)
    requires v != "" && v[0] != '*' && forall i :: 0 <= i < |x| ==> x[i] == '*'
    ensures Replace(x + b, v) == x + Replace(b, v)
  {
    if x == "" {
      assert x + b == b;
    } else {
      var s := x + b;
      SkipStars(x[1..], b, v);
      assert s[1..] == x[1..] + b && s[0] == '*';
      if |s| >= |v| {
        assert s[..|v|] != v by { assert s[..|v|][0] == '*'; }
        assert [s[0]] + (x[1..] + Replace(b, v)) == x + Replace(b, v);
      }
    }
  }

  lemma StarLast(a: string, b: string, v: string, i: nat)
    requires OccursAt(a + STARS + b, v, i) && |a| < i + |v| <= |a| + 10 && v != ""
    ensures v[|v| - 1] == '*'
  {
    OccursChar(a + STARS + b, v, i, |v| - 1);
  }

  // A safe text that begins before ten stars ends before them.
  lemma EndsBeforeStars(a: string, b: string, v: string, i: nat)
    requires Safe(v) && OccursAt(a + STARS + b, v, i) && i < |a|
    ensures i + |v| <= |a|
  {
    if |a| < i + |v| <= |a| + 10 {
      StarLast(a, b, v, i);
    } else if |a| + 10 < i + |v| {
      StarsInside(a, b, v, i);
    }
  }

  lemma StarsInside(a: string, b: string, v: string, i: nat)
    requires OccursAt(a + STARS + b, v, i) && i <= |a| && |a| + 10 <= i + |v|
    ensures Contains(v, STARS)
  {
    var s := a + STARS + b;
    var k := |a| - i;
    var there := v[k..k + 10];
    forall j | 0 <= j < 10 ensures there[j] == STARS[j] {
      OccursChar(s, v, i, k + j);
      assert s[|a| + j] == STARS[j];
    }
    assert OccursAt(v, STARS, k);
  }

  lemma NextPlace(c: char, t: string, v: string)
    requires v != "" && !OccursAt([c] + t, v, 0)
    ensures Replace([c] + t, v) == [c] + Replace(t, v)
  {
    var s := [c] + t;
    assert s[1..] == t;
    if |s| >= |v| {
      assert s[0..|v|] == s[..|v|];
    }
  }

  lemma FirstPlace(v: string, t: string)
    requires v != ""
    ensures Replace(v + t, v) == STARS + Replace(t, v)
  {
    assert (v + t)[..|v|] == v && (v + t)[|v|..] == t;
  }

  lemma StartsIn(s: string, v: string)
    requires OccursAt(s, v, 0)
    ensures s == v + s[|v|..]
  {
    assert s[0..|v|] == v;
  }

  lemma StaysAtStart(a: string, rest: string, v: string)
    requires OccursAt(a, v, 0)
    ensures OccursAt(a + rest, v, 0)
  {
    assert (a + rest)[0..|v|] == a[0..|v|];
  }

  predicate Apart(a: string, b: string, v: string)
    requires v != ""
  {
    Replace(a + (STARS + b), v) == Replace(a, v) + (STARS + Replace(b, v))
  }

  lemma FirstApart(v: string, t: string, b: string)
    requires v != "" && Apart(t, b, v)
    ensures Apart(v + t, b, v)
  {
    var rest := STARS + b;
    FirstPlace(v, t);
    FirstPlace(v, t + rest);
    assert (v + t) + rest == v + (t + rest);
    assert STARS + (Replace(t, v) + (STARS + Replace(b, v))) == (STARS + Replace(t, v)) + (STARS + Replace(b, v));
  }

  lemma Regroup(x: string, y: string, z: string)
    ensures (x + y) + z == x + (y + z)
  {
  }

  lemma NextApart(c: char, t: string, b: string, v: string)
    requires v != "" && Apart(t, b, v) && !OccursAt([c] + t + (STARS + b), v, 0)
    ensures Apart([c] + t, b, v)
  {
    var rest := STARS + b;
    if OccursAt([c] + t, v, 0) {
      StaysAtStart([c] + t, rest, v);
    }
    NextPlace(c, t, v);
    Regroup([c], t, rest);
    NextPlace(c, t + rest, v);
    Regroup([c], Replace(t, v), STARS + Replace(b, v));
  }

  /** Ten stars keep what is before and behind them apart. */
  lemma {:induction false} ReplaceBeside(a: string, b: string, v: string)
    requires Safe(v)
    ensures Apart(a, b, v)
    decreases |a|
  {
    var rest := STARS + b;
    if a == "" {
      SkipStars(STARS, b, v);
      assert a + rest == rest;
    } else if OccursAt(a + rest, v, 0) {
      assert a + rest == a + STARS + b;
      EndsBeforeStars(a, b, v, 0);
      assert a[0..|v|] == (a + rest)[0..|v|];
      StartsIn(a, v);
      ReplaceBeside(a[|v|..], b, v);
      FirstApart(v, a[|v|..], b);
    } else {
      ReplaceBeside(a[1..], b, v);
      assert a == [a[0]] + a[1..];
      NextApart(a[0], a[1..], b, v);
    }
  }

  lemma {:induction false} GlueAppend(x: seq<string>, y: seq<string>, sep: string)
    requires x != [] && y != []
    ensures Glue(x + y, sep) == Glue(x, sep) + sep + Glue(y, sep)
  {
    var z := x + y;
    if |x| == 1 {
      assert z[1..] == y;
    } else {
      assert z[1..] == x[1..] + y;
      GlueAppend(x[1..], y, sep);
      assert x[0] + sep + (Glue(x[1..], sep) + sep + Glue(y, sep)) == Glue(x, sep) + sep + Glue(y, sep);
    }
  }

  lemma ReplacePair(p: string, g: string, v: string)
    requires Safe(v)
    ensures Replace(p + STARS + g, v) == Replace(p, v) + STARS + Replace(g, v)
  {
    ReplaceBeside(p, g, v);
    Regroup(p, STARS, g);
    Regroup(Replace(p, v), STARS, Replace(g, v));
  }

  lemma GlueCons(p: string, ps: seq<string>, sep: string)
    requires ps != []
    ensures Glue([p] + ps, sep) == p + sep + Glue(ps, sep)
  {
    assert ([p] + ps)[1..] == ps;
  }

  lemma FlatCons(p: string, ps: seq<string>, v: string)
    requires v != ""
    ensures Flat([p] + ps, v) == Pieces(p, v) + Flat(ps, v)
  {
    assert ([p] + ps)[1..] == ps;
  }

  lemma {:induction false} ReplaceGlue(ps: seq<string>, v: string)
    requires ps != [] && Safe(v)
    ensures Replace(Glue(ps, STARS), v) == Glue(Flat(ps, v), STARS)
  {
    var p, rest := ps[0], ps[1..];
    assert ps == [p] + rest;
    FlatCons(p, rest, v);
    OnlyOccurrencesReplaced(p, v);
    if rest == [] {
      assert Pieces(p, v) + [] == Pieces(p, v);
    } else {
      ReplaceGlue(rest, v);
      GlueCons(p, rest, STARS);
      ReplacePair(p, Glue(rest, STARS), v);
      GlueAppend(Pieces(p, v), Flat(rest, v), STARS);
    }
  }

  /** A masked chunk is its pieces with ten stars between them. */
  lemma {:induction false} MaskIsGlue(s: string, env: seq<EnvVariable>)
    requires Maskable(env)
    ensures MaskAll(s, env) == Glue(AllPieces(s, env), STARS)
  {
    if env != [] {
      var init, last := env[..|env| - 1], env[|env| - 1];
      MaskIsGlue(s, init);
      var before := MaskAll(s, init);
      if last.secret {
        ReplaceGlue(AllPieces(s, init), last.value);
        if !Contains(before, last.value) {
          NoOccurrence(before, last.value);
        }
      }
    }
  }

  // ---- What a glued text contains ----

  lemma ContainsHead(s: string, rest: string, u: string)
    requires Contains(s, u)
    ensures Contains(s + rest, u)
  {
    var i :| 0 <= i <= |s| && OccursAt(s, u, i);
    assert (s + rest)[i..i + |u|] == s[i..i + |u|];
    assert OccursAt(s + rest, u, i);
  }

  lemma OccursBefore(a: string, b: string, v: string, i: nat)
    requires OccursAt(a + b, v, i) && i + |v| <= |a|
    ensures Contains(a, v)
  {
    assert a[i..i + |v|] == (a + b)[i..i + |v|];
    assert OccursAt(a, v, i);
  }

  lemma ContainsBeside(a: string, b: string, u: string)
    requires Safe(u)
    ensures Contains(a + STARS + b, u) <==> Contains(a, u) || Contains(b, u)
  {
    var s := a + STARS + b;
    if Contains(s, u) {
      var i :| 0 <= i <= |s| && OccursAt(s, u, i);
      if i < |a| {
        EndsBeforeStars(a, b, u, i);
        assert s == a + (STARS + b);
        OccursBefore(a, STARS + b, u, i);
      } else {
        OccursChar(s, u, i, 0);
        assert i >= |a| + 10;
        OccurrenceBehind(a + STARS, b, u, i);
      }
    }
    if Contains(a, u) {
      ContainsHead(a, STARS + b, u);
      assert a + (STARS + b) == s;
    }
    if Contains(b, u) {
      assert s[|a| + 10..] == b;
      ContainsTail(s, |a| + 10, u);
    }
  }

  lemma {:induction false} GlueContains(ps: seq<string>, u: string)
    requires ps != [] && Safe(u)
    ensures Contains(Glue(ps, STARS), u) <==> exists p :: p in ps && Contains(p, u)
  {
    if |ps| > 1 {
      assert ps == [ps[0]] + ps[1..];
      GlueContains(ps[1..], u);
      ContainsBeside(ps[0], Glue(ps[1..], STARS), u);
    }
  }

  // ---- The whole log ----

  // The last text of x runs on into the first of y.
  function Weld(x: seq<string>, y: seq<string>): (r: seq<string>)
    requires x != [] && y != []
    ensures r != []
  {
    x[..|x| - 1] + [x[|x| - 1] + y[0]] + y[1..]
  }

  /** The stretches of original text between the stars of the log; a stretch may run through
      any number of chunks. */
  function Stretches(chunks: seq<string>, env: seq<EnvVariable>): (r: seq<string>)
    requires Maskable(env)
    ensures r != []
  {
    if chunks == [] then [""]
    else Weld(Stretches(chunks[..|chunks| - 1], env), AllPieces(chunks[|chunks| - 1], env))
  }

  lemma {:induction false} GlueWeld(x: seq<string>, y: seq<string>, sep: string)
    requires x != [] && y != []
    ensures Glue(Weld(x, y), sep) == Glue(x, sep) + Glue(y, sep)
  {
    var w := Weld(x, y);
    if |x| == 1 {
      assert w == [x[0] + y[0]] + y[1..];
      if |y| > 1 {
        assert w[1..] == y[1..];
      }
    } else {
      assert w[1..] == Weld(x[1..], y) && w[0] == x[0];
      GlueWeld(x[1..], y, sep);
      assert x[0] + sep + (Glue(x[1..], sep) + Glue(y, sep)) == Glue(x, sep) + Glue(y, sep);
    }
  }

  lemma {:induction false} LogIsGlue(chunks: seq<string>, env: seq<EnvVariable>)
    requires Maskable(env)
    ensures Concat(Masked(chunks, env)) == Glue(Stretches(chunks, env), STARS)
  {
    if chunks != [] {
      var init, last := chunks[..|chunks| - 1], chunks[|chunks| - 1];
      LogIsGlue(init, env);
      MaskIsGlue(last, env);
      GlueWeld(Stretches(init, env), AllPieces(last, env), STARS);
      var ms := Masked(chunks, env);
      assert ms[..|ms| - 1] == Masked(init, env);
    }
  }

  /** The exact condition for the log: with safe secrets, a safe text (a secret, say) can be read
      in the joined masked chunks if and only if it can be read in a stretch of original text
      that no mask interrupts. */
  lemma LogContainsIff(chunks: seq<string>, env: seq<EnvVariable>, u: string)
    requires Maskable(env) && Safe(u)
    ensures Contains(Concat(Masked(chunks, env)), u) <==>
            exists p :: p in Stretches(chunks, env) && Contains(p, u)
  {
    LogIsGlue(chunks, env);
    GlueContains(Stretches(chunks, env), u);
  }

  // ---- Two chunks ----

  predicate Straddles(a: string, b: string, v: string, k: int) {
    0 < k < |v| && k <= |a| && a[|a| - k..] == v[..k] && v[k..] <= b
  }

  // For some cut, the first part of v ends a and the rest of it begins b.
  predicate Straddled(a: string, b: string, v: string) {
    exists k :: 0 < k < |v| && Straddles(a, b, v, k)
  }

  lemma Cut(a: string, b: string, v: string, i: nat)
    requires OccursAt(a + b, v, i) && i < |a| < i + |v|
    ensures Straddles(a, b, v, |a| - i)
  {
    var k := |a| - i;
    assert v == a[i..] + b[..|v| - k];
  }

  // Where neither half contains v, it can only be cut by the joint.
  lemma JointContains(a: string, b: string, v: string)
    requires v != "" && !Contains(a, v) && !Contains(b, v)
    ensures Contains(a + b, v) <==> Straddled(a, b, v)
  {
    var s := a + b;
    if Contains(s, v) {
      var i :| 0 <= i <= |s| && OccursAt(s, v, i);
      if i >= |a| {
        OccurrenceBehind(a, b, v, i);
      } else if i + |v| <= |a| {
        OccursBefore(a, b, v, i);
      } else {
        Cut(a, b, v, i);
      }
    }
    if Straddled(a, b, v) {
      var k :| 0 < k < |v| && Straddles(a, b, v, k);
      var front, back := a[..|a| - k], b[|v| - k..];
      assert a == front + v[..k] && b == v[k..] + back;
      assert s == front + v + back;
      OccursMiddle(front, v, back);
    }
  }

  lemma PiecesOfOne(s: string, key: string, v: string)
    requires Safe(v)
    ensures AllPieces(s, [EnvVariable(key, v, true)]) == Pieces(s, v)
  {
    var env := [EnvVariable(key, v, true)];
    assert env[..0] == [];
    assert [s][1..] == [];
    assert Flat([s], v) == Pieces(s, v) + [];
  }

  /** Two chunks and one safe secret: it can be read across the boundary if and only if, for some
      cut, its first part ends the last piece of the first chunk and the rest begins the first
      piece of the second. */
  lemma SplitSecretIff(key: string, v: string, a: string, b: string)
    requires Safe(v)
    ensures var env := [EnvVariable(key, v, true)];
      Contains(MaskAll(a, env) + MaskAll(b, env), v) <==>
      Straddled(Pieces(a, v)[|Pieces(a, v)| - 1], Pieces(b, v)[0], v)
  {
    var env := [EnvVariable(key, v, true)];
    var x, y := Pieces(a, v), Pieces(b, v);
    assert env[..0] == [] && Maskable(env);
    PiecesOfOne(a, key, v);
    PiecesOfOne(b, key, v);
    MaskIsGlue(a, env);
    MaskIsGlue(b, env);
    GlueWeld(x, y, STARS);
    GlueContains(Weld(x, y), v);
    OnlyOccurrencesReplaced(a, v);
    OnlyOccurrencesReplaced(b, v);
    var joint := x[|x| - 1] + y[0];
    assert x[|x| - 1] in x && y[0] in y;
    JointContains(x[|x| - 1], y[0], v);
    WeldMembers(x, y);
    assert forall p :: p in Weld(x, y) && Contains(p, v) ==> p == joint;
    assert joint in Weld(x, y);
  }

  lemma WeldMembers(x: seq<string>, y: seq<string>)
    requires x != [] && y != []
    ensures var joint := x[|x| - 1] + y[0];
      joint in Weld(x, y) && forall p :: p in Weld(x, y) ==> p == joint || p in x || p in y
  {
    assert Weld(x, y)[|x| - 1] == x[|x| - 1] + y[0];
  }
}
