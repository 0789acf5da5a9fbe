// Copying a provider's repositories into the local store, page by page.

module ProviderSync {
  import opened Slices

  const SIZE := 30

  // A stored repository is found again by its remote id and clone address.
  datatype Key = Key(uid: string, clone: string)

  datatype Remote = Remote(key: Key, admin: bool)

  // One page of a provider whose list does not change; pages count from 1.
  function Page(all: seq<Remote>, page: nat): seq<Remote>
    requires page >= 1
  {
    var from := (page - 1) * SIZE;
    if from >= |all| then [] else if from + SIZE >= |all| then all[from..] else all[from..from + SIZE]
  }

  function Put(keys: seq<Key>, r: Remote): seq<Key> {
    if !r.admin || r.key in keys then keys else keys + [r.key]
  }

  // The keys when the given repositories have been visited.
  function Stored(keys: seq<Key>, rs: seq<Remote>): seq<Key> {
    if rs == [] then keys else Put(Stored(keys, rs[..|rs| - 1]), rs[|rs| - 1])
  }

  lemma {:induction false} StoredAppend(keys: seq<Key>, a: seq<Remote>, b: seq<Remote>)
    ensures Stored(keys, a + b) == Stored(Stored(keys, a), b)
  {
    if b == [] {
      assert a + b == a;
    } else {
      assert (a + b)[..|a + b| - 1] == a + b[..|b| - 1];
      StoredAppend(keys, a, b[..|b| - 1]);
    }
  }

  // The pages in order make up the list.
  lemma NextPage(all: seq<Remote>, page: nat, count: nat)
    requires page >= 1 && (page - 1) * SIZE <= |all| && count <= |Page(all, page)|
    ensures all[..(page - 1) * SIZE] + Page(all, page)[..count] == all[..(page - 1) * SIZE + count]
    ensures |Page(all, page)| == SIZE <==> page * SIZE <= |all|
    ensures page * SIZE > |all| ==> (page - 1) * SIZE + |Page(all, page)| == |all| && page == |all| / SIZE + 1
  {
  }

  class ProviderStore {
    const remote: seq<Remote>
    var keys: seq<Key>

    constructor (remote: seq<Remote>)
      ensures this.remote == remote && keys == []
    {
      this.remote, keys := remote, [];
    }

    // An update rewrites the other columns of the row only.
    method CreateOrUpdate(r: Remote) returns (ok: bool)
      requires r.admin
      modifies `keys
      ensures keys == if ok then Put(old(keys), r) else old(keys)
    {
      if * {
        return false;
      }
      if r.key !in keys {
        keys := keys + [r.key];
      }
      return true;
    }

    // The loop over one page; count of its repositories were gone through.
    method StorePage(repos: seq<Remote>) returns (ok: bool, ghost count: nat)
      modifies `keys
      ensures count <= |repos| && (ok ==> count == |repos|)
      ensures keys == Stored(old(keys), repos[..count])
    {
      count := 0;
      for i := 0 to |repos|
        invariant count == i && keys == Stored(old(keys), repos[..i])
      {
        assert repos[..i + 1][..i] == repos[..i];
        if repos[i].admin {
          ok := CreateOrUpdate(repos[i]);
          if !ok {
            return;
          }
        }
        count := count + 1;
      }
      return true, count;
    }

    // cut: a page request failed, which ends the loop without an error. visited and pages say
    // what was gone through and how many pages were asked for.
    method Sync() returns (ok: bool, ghost cut: bool, ghost visited: seq<Remote>, ghost pages: nat)
      modifies `keys
      ensures visited <= remote && keys == Stored(old(keys), visited)
      ensures ok && !cut ==> visited == remote && pages == |remote| / 30 + 1
      ensures ok && cut ==> 1 <= pages <= |remote| / 30 + 1 && visited == remote[..(pages - 1) * 30]
    {
      cut, visited, pages := false, [], 0;
      if * {
        return false, cut, visited, pages;
      }
      var page, done := 1, false;
      while !done
        invariant page >= 1 && (page - 1) * SIZE <= |remote|
        invariant visited <= remote && keys == Stored(old(keys), visited)
        invariant !done ==> !cut && pages == page - 1 && visited == remote[..pages * SIZE]
        invariant done && !cut ==> visited == remote && pages == |remote| / SIZE + 1
        invariant done && cut ==> 1 <= pages <= |remote| / SIZE + 1 && visited == remote[..(pages - 1) * SIZE]
        decreases !done, |remote| - page * SIZE
      {
        pages := pages + 1;
        if * {
          cut, done := true, true;
        } else {
          var repos := Page(remote, page);
          var stored;
          ghost var count;
          stored, count := StorePage(repos);
          StoredAppend(old(keys), visited, repos[..count]);
          NextPage(remote, page, count);
          visited := visited + repos[..count];
          if !stored {
            return false, cut, visited, pages;
          }
          if |repos| == SIZE {
            page := page + 1;
          } else {
            done := true;
          }
        }
      }
      // The provider's time of synchronisation is saved last, which may fail.
      ok := *;
    }
  }

  lemma {:induction false} StoredKeys(keys: seq<Key>, rs: seq<Remote>)
    ensures forall k :: k in Stored(keys, rs) <==> k in keys || exists r :: r in rs && r.admin && r.key == k
    ensures Distinct(keys) ==> Distinct(Stored(keys, rs))
    ensures keys <= Stored(keys, rs)
  {
    if rs != [] {
      var front, last := rs[..|rs| - 1], rs[|rs| - 1];
      StoredKeys(keys, front);
      assert rs == front + [last];
    }
  }

  lemma {:induction false} NothingToAdd(keys: seq<Key>, rs: seq<Remote>)
    requires forall r <- rs :: r.admin ==> r.key in keys
    ensures Stored(keys, rs) == keys
  {
    if rs != [] {
      NothingToAdd(keys, rs[..|rs| - 1]);
    }
  }

  /** A complete synchronisation after one that was cut short, or after a complete one, leaves
      what a single complete one leaves. */
  lemma {:induction false} SyncAgain(keys: seq<Key>, part: seq<Remote>, all: seq<Remote>)
    requires part <= all
    ensures Stored(Stored(keys, part), all) == Stored(keys, all)
    decreases |all|
  {
    if part == all {
      StoredKeys(keys, all);
      NothingToAdd(Stored(keys, all), all);
    } else {
      assert part <= all[..|all| - 1];
      SyncAgain(keys, part, all[..|all| - 1]);
    }
  }
}
