// Go slices that are cut in place while a range loop walks over them.

module Slices {
  import opened Types

  predicate Distinct<T(==)>(s: seq<T>) {
    forall i, j :: 0 <= i < j < |s| ==> s[i] != s[j]
  }

  // What callers of a removal expect: every occurrence gone, the rest in order.
  function Without<T(==)>(s: seq<T>, x: T): seq<T> {
    if s == [] then []
    else if s[0] == x then Without(s[1..], x)
    else [s[0]] + Without(s[1..], x)
  }

  // What the range loop leaves behind: cutting at i moves the next element to i, which the loop has passed already.
  function Swept<T(==)>(s: seq<T>, x: T): (r: seq<T>)
    ensures |r| <= |s|
  {
    if s == [] then []
    else if s[0] != x then [s[0]] + Swept(s[1..], x)
    else if |s| == 1 then []
    else [s[1]] + Swept(s[2..], x)
  }

  // The loop reads the stale last cell of the old header and cuts beyond the shrunken slice.
  predicate Trapped<T(==)>(s: seq<T>, x: T) {
    |s| > 0 && s[|s| - 1] == x && x in s[..|s| - 1]
  }

  /** The loop of Sweep before it reads cell i of the old header m, over a slice whose
      contents were s and which has been cut so many times. */
  ghost predicate Sweeping<T>(s: seq<T>, x: T, m: seq<T>, i: nat, cuts: nat) {
    var n := |s|;
    && i <= n == |m| && cuts <= n
    && (forall k :: i <= k < n - cuts ==> m[k] == s[k + cuts])
    && (forall k :: n - cuts <= k < n ==> m[k] == s[n - 1])
    && (if i + cuts < n then Swept(s, x) == m[..i] + Swept(s[i + cuts..], x) else Swept(s, x) == m[..n - cuts])
    && (cuts == 0 ==> x !in s[..i])
    && (cuts > 0 ==> x in s[..n - 1] || (cuts == 1 && i == n))
    && (i == n ==> !Trapped(s, x))
  }

  lemma SweepKeeps<T>(s: seq<T>, x: T, m: seq<T>, i: nat, cuts: nat)
    requires Sweeping(s, x, m, i, cuts) && i < |s| && m[i] != x
    ensures Sweeping(s, x, m, i + 1, cuts)
  {
    var n, at := |s|, i + cuts;
    assert s[..i + 1] == s[..i] + [s[i]];
    if at < n {
      var rest := s[at..];
      assert rest[0] == m[i] && rest[1..] == s[at + 1..];
      assert Swept(rest, x) == [m[i]] + Swept(s[at + 1..], x);
      assert m[..i + 1] == m[..i] + [m[i]];
      assert Swept(s, x) == m[..i + 1] + Swept(s[at + 1..], x);
      if at + 1 == n {
        assert s[at + 1..] == [];
        assert m[..i + 1] == m[..n - cuts] == Swept(s, x);
      }
    }
  }

  function CutAt<T>(m: seq<T>, len: nat, i: nat): (r: seq<T>)
    requires i < len <= |m|
  {
    m[..i] + m[i + 1..len] + m[len - 1..]
  }

  // Behind the cut, cell k holds what was one further on in s; the stale cells still hold the last element.
  lemma CutCells<T>(s: seq<T>, m: seq<T>, i: nat, cuts: nat)
    requires i < |s| - cuts && |m| == |s|
    requires forall k :: i <= k < |s| - cuts ==> m[k] == s[k + cuts]
    requires forall k :: |s| - cuts <= k < |s| ==> m[k] == s[|s| - 1]
    ensures var n, c := |s|, CutAt(m, |s| - cuts, i);
      && |c| == n && c[..i] == m[..i]
      && (forall k :: i <= k < n - cuts - 1 ==> c[k] == s[k + cuts + 1])
      && (forall k :: n - cuts - 1 <= k < n ==> c[k] == s[n - 1])
  {
    var n, c := |s|, CutAt(m, |s| - cuts, i);
    forall k | i <= k < n - cuts - 1 ensures c[k] == s[k + cuts + 1] {
      assert c[k] == m[k + 1];
    }
    forall k | n - cuts - 1 <= k < n ensures c[k] == s[n - 1] {
      assert c[k] == m[k];
    }
  }

  lemma SweepCuts<T>(s: seq<T>, x: T, m: seq<T>, i: nat, cuts: nat)
    requires Sweeping(s, x, m, i, cuts) && i < |s| - cuts && m[i] == x
    ensures Sweeping(s, x, CutAt(m, |s| - cuts, i), i + 1, cuts + 1)
  {
    var n, c := |s|, CutAt(m, |s| - cuts, i);
    CutCells(s, m, i, cuts);
    var at := i + cuts;
    var rest := s[at..];
    assert rest[0] == s[at] == x;
    if |rest| == 1 {
      if cuts == 0 {
        assert s[..n - 1] == s[..i];
      }
      assert c[..n - cuts - 1] == m[..i] == Swept(s, x);
    } else {
      assert x in s[..n - 1] by { assert s[..n - 1][at] == x; }
      assert rest[1] == s[at + 1] == c[i] && rest[2..] == s[at + 2..];
      assert Swept(rest, x) == [rest[1]] + Swept(rest[2..], x);
      assert c[..i + 1] == m[..i] + [rest[1]];
      assert Swept(s, x) == c[..i + 1] + Swept(s[at + 2..], x);
      if at + 2 == n {
        assert s[at + 2..] == [];
        assert c[..i + 1] == c[..n - cuts - 1] == Swept(s, x);
      }
    }
  }

  // The loop itself over the old header m, at cell i, with len cells left in the slice.
  function SweepFrom<T(==)>(m: seq<T>, len: nat, x: T, i: nat): (r: Option<seq<T>>)
    requires len <= |m| && i <= |m|
    decreases |m| - i
  {
    if i == |m| then Some(m[..len])
    else if m[i] != x then SweepFrom(m, len, x, i + 1)
    else if len < i + 1 then None
    else SweepFrom(CutAt(m, len, i), len - 1, x, i + 1)
  }

  lemma {:induction false} SweepRuns<T>(s: seq<T>, x: T, m: seq<T>, i: nat, cuts: nat)
    requires Sweeping(s, x, m, i, cuts)
    ensures SweepFrom(m, |s| - cuts, x, i) == if Trapped(s, x) then None else Some(Swept(s, x))
    decreases |s| - i
  {
    if i == |s| {
      assert cuts == 0 ==> m[..|s|] == m;
    } else if m[i] != x {
      SweepKeeps(s, x, m, i, cuts);
      SweepRuns(s, x, m, i + 1, cuts);
    } else if i < |s| - cuts {
      SweepCuts(s, x, m, i, cuts);
      SweepRuns(s, x, CutAt(m, |s| - cuts, i), i + 1, cuts + 1);
    }
  }

  /** The loop cuts out of range exactly if x is the last element and occurs before it too;
      otherwise it leaves Swept. */
  lemma {:induction false} SweepMeaning<T>(s: seq<T>, x: T)
    ensures SweepFrom(s, |s|, x, 0) == if Trapped(s, x) then None else Some(Swept(s, x))
  {
    assert s[0..] == s && s[..|s|] == s;
    SweepRuns(s, x, s, 0, 0);
  }

  // ---- When the loop is a removal ----

  lemma {:induction false} WithoutIsFilter<T>(s: seq<T>, x: T)
    ensures forall y :: y in Without(s, x) <==> y in s && y != x
    ensures forall y <- Without(s, x) :: y in s && y != x
    ensures Distinct(s) ==> Distinct(Without(s, x))
    ensures x !in s ==> Without(s, x) == s
  {
    if s != [] {
      WithoutIsFilter(s[1..], x);
      assert s == [s[0]] + s[1..];
      if Distinct(s) {
        assert s[0] !in s[1..];
      }
    }
  }

  ghost predicate Doubled<T>(s: seq<T>, x: T) {
    exists k :: 0 <= k < |s| - 1 && s[k] == x == s[k + 1]
  }

  lemma DoubledTail<T>(s: seq<T>, x: T)
    requires s != []
    ensures Doubled(s, x) <==> (|s| > 1 && s[0] == x == s[1]) || Doubled(s[1..], x)
  {
    var t := s[1..];
    if Doubled(s, x) {
      var k :| 0 <= k < |s| - 1 && s[k] == x == s[k + 1];
      if k > 0 {
        assert t[k - 1] == x == t[k - 1 + 1];
      }
    }
    if Doubled(t, x) {
      var k :| 0 <= k < |t| - 1 && t[k] == x == t[k + 1];
      assert s[k + 1] == x == s[k + 1 + 1];
    }
  }

  lemma {:induction false} SweptIsRemovalIff<T>(s: seq<T>, x: T)
    ensures Swept(s, x) == Without(s, x) <==> !Doubled(s, x)
    ensures x in Swept(s, x) <==> Doubled(s, x)
  {
    if s != [] {
      WithoutIsFilter(s, x);
      DoubledTail(s, x);
      if s[0] != x {
        SweptIsRemovalIff(s[1..], x);
      } else if |s| > 1 {
        assert s[1..][1..] == s[2..];
        DoubledTail(s[1..], x);
        SweptIsRemovalIff(s[2..], x);
      }
    }
  }

  /** The loop removes x and keeps the rest exactly if x never stands twice in a row and, when
      it stands last, nowhere else; a slice without duplicates is safe. */
  lemma SweepRemovesIff<T>(s: seq<T>, x: T)
    ensures SweepFrom(s, |s|, x, 0) == Some(Without(s, x)) <==> !Trapped(s, x) && !Doubled(s, x)
    ensures Distinct(s) ==> !Trapped(s, x) && !Doubled(s, x)
  {
    SweepMeaning(s, x);
    SweptIsRemovalIff(s, x);
  }

  class Slice<T(==)> {
    var store: array<T>
    var len: nat

    ghost predicate Valid()
      reads this
    {
      len <= store.Length
    }

    ghost function Contents(): seq<T>
      reads this, store
      requires Valid()
    {
      store[..len]
    }

    constructor ()
      ensures Valid() && Contents() == [] && fresh(store)
    {
      store := new T[] [];
      len := 0;
    }

    method Append(x: T)
      requires Valid()
      modifies this, store
      ensures Valid() && (store == old(store) || fresh(store))
      ensures Contents() == old(Contents()) + [x]
    {
      if len == store.Length {
        var was, n := store, len;
        var grown := new T[2 * n + 1](i requires 0 <= i reads this, was => if i < was.Length then was[i] else x);
        store := grown;
        assert store[..n] == old(Contents());
      }
      store[len] := x;
      len := len + 1;
    }

    method Contains(x: T) returns (found: bool)
      requires Valid()
      ensures found <==> x in Contents()
    {
      var i := 0;
      while i < len
        invariant i <= len
        invariant x !in store[..i]
      {
        if store[i] == x {
          return true;
        }
        i := i + 1;
      }
      return false;
    }

    // append(s[:i], s[i+1:]...): the tail moves down inside the backing array, whose last used cell keeps its value.
    method Cut(i: nat, ghost n: nat)
      requires Valid() && i < len <= n <= store.Length
      modifies this, store
      ensures Valid() && store == old(store) && len == old(len) - 1
      ensures store[..n] == CutAt(old(store[..n]), old(len), i)
    {
      forall k | i <= k < len - 1 {
        store[k] := store[k + 1];
      }
      len := len - 1;
    }

    // Ranges over the header as it was on entry and cuts the live slice. The result is false
    // where the cut is out of range and the Go program panics.
    method Sweep(x: T) returns (inRange: bool)
      requires Valid()
      modifies this, store
      ensures Valid() && store == old(store)
      ensures inRange <==> !Trapped(old(Contents()), x)
      ensures inRange ==> Contents() == Swept(old(Contents()), x)
    {
      var header, n, i := store, len, 0;
      ghost var s := store[..n];
      SweepMeaning(s, x);
      while i < n
        invariant i <= n <= store.Length && store == header == old(store) && len <= n
        invariant SweepFrom(store[..n], len, x, i) == SweepFrom(s, n, x, 0)
      {
        assert header[i] == store[..n][i];
        if header[i] == x {
          if len < i + 1 {
            return false;
          }
          Cut(i, n);
        }
        i := i + 1;
      }
      assert store[..n][..len] == Contents();
      return true;
    }
  }
}
