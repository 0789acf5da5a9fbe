/** Mount and cache lists on their way from the parser through the stored job to the container. */
module Mounts {
  import opened Types
  import opened Splitting

  datatype Mount = Mount(source: string, target: string)

  // An entry that createContainer accepts: two pieces around one colon, and the host path exists.
  function Accepted(entry: string, onHost: string -> bool): Option<Mount> {
    var m := Split(entry, ':');
    if |m| != 2 || !onHost(m[0]) then None else Some(Mount(m[0], m[1]))
  }

  function AllAccepted(entries: seq<string>, onHost: string -> bool): seq<Mount> {
    if entries == [] then []
    else AllAccepted(entries[..|entries| - 1], onHost) +
         (match Accepted(entries[|entries| - 1], onHost) case None => [] case Some(m) => [m])
  }

  /** The entry is the two paths with its only colon between them, and the host path exists. */
  ghost predicate Binds(entry: string, m: Mount, onHost: string -> bool) {
    entry == m.source + ":" + m.target && ':' !in m.source && ':' !in m.target && onHost(m.source)
  }

  ghost predicate Bindable(entry: string, onHost: string -> bool) { exists m :: Binds(entry, m, onHost) }

  ghost function BindablePositions(entries: seq<string>, onHost: string -> bool): set<nat> {
    set i | 0 <= i < |entries| && Bindable(entries[i], onHost)
  }

  /** The mounts are those of the bindable entries, in order. */
  ghost predicate BoundAt(entries: seq<string>, onHost: string -> bool, at: seq<nat>, mounts: seq<Mount>) {
    && Lists(at, BindablePositions(entries, onHost)) && |at| == |mounts|
    && forall k :: 0 <= k < |at| ==> at[k] < |entries| && Binds(entries[at[k]], mounts[k], onHost)
  }

  /** Exactly the entries with one colon, behind an existing host path, are accepted. */
  lemma AcceptedIff(entry: string, m: Mount, onHost: string -> bool)
    ensures Accepted(entry, onHost) == Some(m) <==> Binds(entry, m, onHost)
    ensures Binds(entry, m, onHost) ==> multiset(entry)[':'] == 1
  {
    var s := Split(entry, ':');
    SplitFree(entry, ':');
    SplitJoin(entry, ':');
    if Accepted(entry, onHost) == Some(m) {
      assert s == [s[0], s[1]] && Join(s[1..], ':') == s[1];
      assert s[0] in s && s[1] in s;
    }
    if Binds(entry, m, onHost) {
      SplitAfter(m.source, m.target, ':');
      SplitFree(m.target, ':');
      assert m.source + [':'] + m.target == entry;
    }
  }

  lemma PositionsSnoc(entries: seq<string>, entry: string, onHost: string -> bool)
    ensures BindablePositions(entries + [entry], onHost)
            == BindablePositions(entries, onHost) + if Bindable(entry, onHost) then {|entries|} else {}
  {
    var all := entries + [entry];
    assert all[|entries|] == entry && forall i :: 0 <= i < |entries| ==> all[i] == entries[i];
  }

  lemma BoundSnoc(entries: seq<string>, entry: string, onHost: string -> bool, at: seq<nat>, ms: seq<Mount>, m: Mount)
    requires BoundAt(entries, onHost, at, ms) && Binds(entry, m, onHost)
    ensures BoundAt(entries + [entry], onHost, at + [|entries|], ms + [m])
  {
    PositionsSnoc(entries, entry, onHost);
    ListsSnoc(at, BindablePositions(entries, onHost), |entries|);
  }

  lemma NotBindable(entry: string, onHost: string -> bool)
    requires Accepted(entry, onHost) == None
    ensures !Bindable(entry, onHost)
  {
    forall m ensures !Binds(entry, m, onHost) {
      AcceptedIff(entry, m, onHost);
    }
  }

  lemma {:induction false} AcceptedAt(entries: seq<string>, onHost: string -> bool) returns (at: seq<nat>)
    ensures BoundAt(entries, onHost, at, AllAccepted(entries, onHost))
  {
    if entries == [] {
      at := [];
    } else {
      var init, last := entries[..|entries| - 1], entries[|entries| - 1];
      at := AcceptedAt(init, onHost);
      assert entries == init + [last];
      match Accepted(last, onHost)
      case Some(m) =>
        AcceptedIff(last, m, onHost);
        BoundSnoc(init, last, onHost, at, AllAccepted(init, onHost), m);
        at := at + [|init|];
      case None =>
        NotBindable(last, onHost);
        PositionsSnoc(init, last, onHost);
        assert BindablePositions(entries, onHost) == BindablePositions(init, onHost);
    }
  }

  /** The bind mounts of a new container: the build directory, then the accepted entries in order. */
  method BindMounts(dir: string, mountdir: seq<string>, onHost: string -> bool) returns (mounts: seq<Mount>)
    ensures mounts == [Mount(dir, "/build")] + AllAccepted(mountdir, onHost)
    ensures exists at :: BoundAt(mountdir, onHost, at, mounts[1..])
    ensures forall m <- mounts[1..] ::
      exists entry :: entry in mountdir && multiset(entry)[':'] == 1 && Binds(entry, m, onHost)
  {
    mounts := [Mount(dir, "/build")];
    for i := 0 to |mountdir|
      invariant mounts == [Mount(dir, "/build")] + AllAccepted(mountdir[..i], onHost)
    {
      assert mountdir[..i + 1][..i] == mountdir[..i];
      var m := Split(mountdir[i], ':');
      if |m| != 2 || !onHost(m[0]) { continue; }
      mounts := mounts + [Mount(m[0], m[1])];
    }
    assert mountdir[..|mountdir|] == mountdir;
    ghost var at := AcceptedAt(mountdir, onHost);
    assert mounts[1..] == AllAccepted(mountdir, onHost);
    forall m | m in mounts[1..]
      ensures exists entry :: entry in mountdir && multiset(entry)[':'] == 1 && Binds(entry, m, onHost)
    {
      var k :| 0 <= k < |at| && mounts[1..][k] == m;
      AcceptedIff(mountdir[at[k]], m, onHost);
    }
  }

  // What arrives at the worker: the stored text split again.
  function Stored(parts: seq<string>): seq<string> { Split(Join(parts, ','), ',') }

  predicate CommaFree(parts: seq<string>) { forall p :: p in parts ==> ',' !in p }

  lemma StoredParts(parts: seq<string>)
    requires CommaFree(parts)
    ensures Stored(parts) == if parts == [] then [""] else parts
  {
    JoinSplit(parts, ',');
  }

  /** For every comma-free list, the empty one included, the container gets exactly the
      accepted entries of the original list, in order. */
  lemma MountsSurvive(entries: seq<string>, onHost: string -> bool)
    requires CommaFree(entries)
    ensures AllAccepted(Stored(entries), onHost) == AllAccepted(entries, onHost)
  {
    StoredParts(entries);
    if entries == [] {
      assert Stored(entries)[..0] == [];
      assert Split("", ':') == [""];
    }
  }

  function EntryOf(m: Mount): string { m.source + [':'] + m.target }

  function Entries(ms: seq<Mount>): seq<string> {
    if ms == [] then [] else Entries(ms[..|ms| - 1]) + [EntryOf(ms[|ms| - 1])]
  }

  function Existing(ms: seq<Mount>, onHost: string -> bool): seq<Mount> {
    if ms == [] then []
    else Existing(ms[..|ms| - 1], onHost) + (if onHost(ms[|ms| - 1].source) then [ms[|ms| - 1]] else [])
  }

  /** A configured mount is decoded to itself if and only if neither path contains a colon
      and its host path exists; with a further colon it is dropped without a word. */
  lemma EntryDecodes(m: Mount, onHost: string -> bool)
    ensures Accepted(EntryOf(m), onHost) == Some(m) <==> ':' !in m.source && ':' !in m.target && onHost(m.source)
  {
    var parts := [m.source, m.target];
    assert Join(parts, ':') == EntryOf(m) by { assert Join(parts[1..], ':') == m.target; }
    JoinSplit(parts, ':');
    SplitFree(EntryOf(m), ':');
    if Accepted(EntryOf(m), onHost) == Some(m) {
      var s := Split(EntryOf(m), ':');
      assert s == [s[0], s[1]];
      assert s[0] in s && s[1] in s;
    }
  }

  predicate Plain(m: Mount) {
    ':' !in m.source && ':' !in m.target && ',' !in m.source && ',' !in m.target
  }

  lemma {:induction false} PlainEntries(ms: seq<Mount>, onHost: string -> bool)
    requires forall m :: m in ms ==> Plain(m)
    ensures CommaFree(Entries(ms))
    ensures AllAccepted(Entries(ms), onHost) == Existing(ms, onHost)
  {
    if ms != [] {
      var init, last := ms[..|ms| - 1], ms[|ms| - 1];
      assert last in ms;
      PlainEntries(init, onHost);
      EntryDecodes(last, onHost);
      assert Entries(ms)[..|Entries(ms)| - 1] == Entries(init);
      if !onHost(last.source) { NotAccepted(last, onHost); }
    }
  }

  lemma NotAccepted(m: Mount, onHost: string -> bool)
    requires Plain(m) && !onHost(m.source)
    ensures Accepted(EntryOf(m), onHost) == None
  {
    var parts := [m.source, m.target];
    assert Join(parts, ':') == EntryOf(m) by { assert Join(parts[1..], ':') == m.target; }
    JoinSplit(parts, ':');
  }

  /** The whole way: mounts without colons and commas, written as host:container, joined,
      stored, split and decoded, are the configured mounts whose host path exists, in order. */
  lemma MountRoundTrip(ms: seq<Mount>, onHost: string -> bool)
    requires forall m :: m in ms ==> Plain(m)
    ensures AllAccepted(Stored(Entries(ms)), onHost) == Existing(ms, onHost)
  {
    PlainEntries(ms, onHost);
    MountsSurvive(Entries(ms), onHost);
  }

  /** The cache list takes the same way and loses only its empty entries. */
  lemma CacheRoundTrip(cache: seq<string>)
    requires CommaFree(cache)
    ensures DeleteEmpty(Stored(cache)) == DeleteEmpty(cache)
  {
    StoredParts(cache);
    if cache == [] { assert Stored(cache)[..0] == []; }
  }
}
