// Team permissions: the update that reconciles the stored rows with a request, and the rights they grant.

module Permissions {
  import opened Types

  type UserId = nat
  type RepoId = nat
  type TeamId = nat
  type RowId = nat

  datatype Right = Read | Write | Exec

  datatype Rights = Rights(read: bool, write: bool, exec: bool) {
    predicate Has(k: Right) {
      match k
      case Read => read
      case Write => write
      case Exec => exec
    }
  }

  datatype Perm = Perm(team: TeamId, repo: RepoId, rights: Rights)

  datatype Row = Row(id: RowId, perm: Perm)

  // One repository of the request.
  datatype Entry = Entry(repo: RepoId, rights: Rights)

  type Table = map<RowId, Perm>

  predicate Requested(req: seq<Entry>, repo: RepoId) {
    exists k :: 0 <= k < |req| && req[k].repo == repo
  }

  function LastRights(req: seq<Entry>, repo: RepoId): Rights
    requires Requested(req, repo)
  {
    var last := req[|req| - 1];
    if last.repo == repo then last.rights else LastRights(req[..|req| - 1], repo)
  }

  /** The rights of the last entry for the repository. */
  lemma {:induction false} LastRightsAre(req: seq<Entry>, repo: RepoId, k: nat)
    requires k < |req| && req[k].repo == repo && forall j :: k < j < |req| ==> req[j].repo != repo
    ensures Requested(req, repo) && LastRights(req, repo) == req[k].rights
  {
    if k < |req| - 1 {
      LastRightsAre(req[..|req| - 1], repo, k);
    }
  }

  lemma RequestedNext(req: seq<Entry>, k: nat, repo: RepoId)
    requires k < |req|
    ensures Requested(req[..k + 1], repo) <==> Requested(req[..k], repo) || req[k].repo == repo
    ensures Requested(req[..k + 1], repo) ==>
              LastRights(req[..k + 1], repo) ==
              if req[k].repo == repo then req[k].rights else LastRights(req[..k], repo)
  {
    var front, more := req[..k], req[..k + 1];
    assert more[..k] == front && more[k] == req[k];
    if Requested(front, repo) {
      var j :| 0 <= j < |front| && front[j].repo == repo;
      assert more[j].repo == repo;
    }
    if Requested(more, repo) && req[k].repo != repo {
      var j :| 0 <= j < |more| && more[j].repo == repo;
      assert front[j].repo == repo;
    }
  }

  ghost predicate Matches(t: Table, id: RowId, team: TeamId, repo: RepoId) {
    id in t && t[id].team == team && t[id].repo == repo
  }

  ghost predicate IsFirst(t: Table, id: RowId, team: TeamId, repo: RepoId) {
    Matches(t, id, team, repo) && forall j :: Matches(t, j, team, repo) ==> id <= j
  }

  ghost predicate Known(t: Table, team: TeamId, repo: RepoId) {
    exists id :: Matches(t, id, team, repo)
  }

  // The rows of every other team are the same.
  ghost predicate OthersKept(t: Table, u: Table, team: TeamId) {
    forall id :: (id in t && t[id].team != team) || (id in u && u[id].team != team) ==>
                   id in t && id in u && t[id] == u[id]
  }

  // ---- What a successful update leaves ----

  // The entries for repositories without a row, one new row each.
  ghost function Missing(req: seq<Entry>, t: Table, team: TeamId): seq<Entry> {
    if req == [] then []
    else
      var last := req[|req| - 1];
      Missing(req[..|req| - 1], t, team) + if Known(t, team, last.repo) then [] else [last]
  }

  // A row seen before the update, given which of the team's repositories have been gone through.
  ghost function Revised(t: Table, team: TeamId, req: seq<Entry>, id: RowId): Perm
    requires id in t
  {
    var p := t[id];
    if Requested(req, p.repo) && IsFirst(t, id, team, p.repo) then p.(rights := LastRights(req, p.repo)) else p
  }

  ghost predicate Settled(t: Table, next: nat, team: TeamId, req: seq<Entry>, u: Table) {
    var extra := Missing(req, t, team);
    && (forall id :: id in u <==>
                     if id < next then id in t && (t[id].team == team ==> Requested(req, t[id].repo))
                     else id < next + |extra|)
    && (forall id :: id in u && id < next ==> u[id] == Revised(t, team, req, id))
    && (forall k :: 0 <= k < |extra| ==> next + k in u && u[next + k] == Perm(team, extra[k].repo, extra[k].rights))
  }

  // ---- Half way through the stored rows ----

  predicate Seen(rows: seq<Row>, repo: RepoId) {
    exists j :: 0 <= j < |rows| && rows[j].perm.repo == repo
  }

  predicate Dropped(rows: seq<Row>, req: seq<Entry>, id: RowId) {
    exists j :: 0 <= j < |rows| && rows[j].id == id && !Requested(req, rows[j].perm.repo)
  }

  // The entries' last word has gone into the first row for the repository.
  ghost predicate Written(t: Table, team: TeamId, repo: RepoId, req: seq<Entry>, u: Table)
    requires Requested(req, repo)
  {
    && u.Keys == t.Keys
    && forall id :: id in u ==>
                      u[id] == if IsFirst(t, id, team, repo) then t[id].(rights := LastRights(req, repo)) else t[id]
  }

  // The table when the given rows have been gone through.
  ghost predicate Reviewed(t: Table, team: TeamId, req: seq<Entry>, rows: seq<Row>, u: Table) {
    && (forall id :: id in u <==> id in t && !Dropped(rows, req, id))
    && (forall id :: id in u ==> u[id] == if Seen(rows, t[id].repo) then Revised(t, team, req, id) else t[id])
  }

  // The table with the extra rows appended under the ids from next on.
  ghost predicate Extended(t: Table, next: nat, team: TeamId, extra: seq<Entry>, u: Table) {
    && (forall id :: id in u <==> if id < next then id in t else id < next + |extra|)
    && (forall id :: id in u && id < next ==> u[id] == t[id])
    && (forall k :: 0 <= k < |extra| ==> next + k in u && u[next + k] == Perm(team, extra[k].repo, extra[k].rights))
  }

  lemma ExtendOne(t: Table, next: nat, team: TeamId, extra: seq<Entry>, u: Table, e: Entry)
    requires Extended(t, next, team, extra, u)
    ensures Extended(t, next, team, extra + [e], u[next + |extra| := Perm(team, e.repo, e.rights)])
  {
  }

  ghost predicate Grants(t: Table, members: set<(TeamId, UserId)>, repo: RepoId, user: UserId, k: Right, id: RowId) {
    id in t && t[id].repo == repo && (t[id].team, user) in members && t[id].rights.Has(k)
  }

  ghost predicate GrantedBelow(t: Table, members: set<(TeamId, UserId)>, repo: RepoId, user: UserId,
                               k: Right, n: RowId)
  {
    exists id: RowId :: id < n && Grants(t, members, repo, user, k, id)
  }

  lemma GrantedNext(t: Table, members: set<(TeamId, UserId)>, repo: RepoId, user: UserId, n: RowId)
    ensures forall k :: GrantedBelow(t, members, repo, user, k, n + 1) <==>
                        GrantedBelow(t, members, repo, user, k, n) || Grants(t, members, repo, user, k, n)
  {
    forall k | GrantedBelow(t, members, repo, user, k, n + 1) && !Grants(t, members, repo, user, k, n)
      ensures GrantedBelow(t, members, repo, user, k, n)
    {
      var id: RowId :| id < n + 1 && Grants(t, members, repo, user, k, id);
      assert id < n;
    }
  }

  // Some row of some team of the user has the right.
  ghost predicate Granted(t: Table, members: set<(TeamId, UserId)>, repo: RepoId, user: UserId, k: Right) {
    exists id :: Grants(t, members, repo, user, k, id)
  }

  datatype Answer = Updated | Refused | Crashed | NotFound | Failed

  class Database {
    var roles: map<UserId, string>
    var owners: map<RepoId, UserId>
    var teams: set<TeamId>
    var members: set<(TeamId, UserId)>
    var perms: Table
    var next: RowId

    ghost predicate Valid()
      reads this
    {
      forall id <- perms :: id < next
    }

    constructor ()
      ensures Valid() && perms == map[] && members == {}
    {
      roles, owners, teams, members, perms, next := map[], map[], {}, {}, map[], 0;
    }

    method Find(team: TeamId, repo: RepoId) returns (found: Option<RowId>)
      requires Valid()
      ensures found.None? ==> !Known(perms, team, repo)
      ensures found.Some? ==> IsFirst(perms, found.value, team, repo)
      ensures found.Some? ==>
        forall j: RowId :: j in perms && perms[j].team == team && perms[j].repo == repo ==> found.value <= j
    {
      for id := 0 to next
        invariant forall j: nat :: j < id ==> !Matches(perms, j, team, repo)
      {
        if id in perms && perms[id].team == team && perms[id].repo == repo {
          assert forall j: RowId :: j in perms && perms[j].team == team && perms[j].repo == repo ==>
                   Matches(perms, j, team, repo);
          return Some(id);
        }
      }
      return None;
    }

    // The team's rows, in no particular order.
    method List(team: TeamId) returns (rows: seq<Row>)
      ensures Listing(perms, team, rows)
    {
      var left := perms.Keys;
      rows := [];
      while left != {}
        invariant left <= perms.Keys
        invariant forall r <- rows :: r.id in perms.Keys - left && perms[r.id] == r.perm && r.perm.team == team
        invariant forall id <- perms.Keys - left :: perms[id].team == team ==> Row(id, perms[id]) in rows
        invariant forall i, j :: 0 <= i < j < |rows| ==> rows[i].id != rows[j].id
        decreases |left|
      {
        var id :| id in left;
        left := left - {id};
        if perms[id].team == team {
          rows := rows + [Row(id, perms[id])];
        }
      }
    }

    // The inner loop: every entry for the row's repository is written to the first row for it.
    method WriteEntries(row: Perm, req: seq<Entry>, updated: seq<RepoId>)
      returns (ok: bool, update: bool, updated': seq<RepoId>)
      requires Valid() && Known(perms, row.team, row.repo)
      modifies `perms
      ensures Valid() && OthersKept(old(perms), perms, row.team)
      ensures ok ==> (update <==> Requested(req, row.repo))
      ensures ok ==> forall r :: r in updated' <==> r in updated || (r == row.repo && update)
      ensures ok && !update ==> perms == old(perms)
      ensures ok && update ==> Written(old(perms), row.team, row.repo, req, perms)
    {
      ok, update, updated' := true, false, updated;
      var first := Find(row.team, row.repo);
      ghost var before := perms;
      for k := 0 to |req|
        invariant Valid() && perms.Keys == before.Keys
        invariant update <==> Requested(req[..k], row.repo)
        invariant forall r :: r in updated' <==> r in updated || (r == row.repo && update)
        invariant perms ==
          if update then before[first.value := before[first.value].(rights := LastRights(req[..k], row.repo))]
          else before
      {
        var e := req[k];
        RequestedNext(req, k, row.repo);
        if e.repo == row.repo {
          update := true;
          var found := Find(row.team, row.repo);
          assert Matches(perms, first.value, row.team, row.repo);
          if found.Some? {
            assert Matches(before, found.value, row.team, row.repo);
            if * {
              return false, update, updated';
            }
            perms := perms[found.value := perms[found.value].(rights := e.rights)];
            updated' := updated' + [row.repo];
          }
        }
      }
      assert req[..|req|] == req;
    }

    // The second loop: a row for every entry that was not written above.
    method CreateMissing(team: TeamId, req: seq<Entry>, updated: seq<RepoId>, ghost known: Table) returns (ok: bool)
      requires Valid() && forall k :: 0 <= k < |req| ==> (req[k].repo in updated <==> Known(known, team, req[k].repo))
      modifies `perms, `next
      ensures Valid() && OthersKept(old(perms), perms, team)
      ensures ok ==> Extended(old(perms), old(next), team, Missing(req, known, team), perms)
    {
      ghost var before, from := perms, next;
      for k := 0 to |req|
        invariant Valid() && OthersKept(before, perms, team) && next == from + |Missing(req[..k], known, team)|
        invariant Extended(before, from, team, Missing(req[..k], known, team), perms)
      {
        assert req[..k + 1][..k] == req[..k] && req[..k + 1][k] == req[k];
        var e, isUpdated := req[k], false;
        for j := 0 to |updated|
          invariant isUpdated <==> e.repo in updated[..j]
        {
          if updated[j] == e.repo {
            isUpdated := true;
          }
        }
        assert updated[..|updated|] == updated;
        if !isUpdated {
          if * {
            return false;
          }
          ExtendOne(before, from, team, Missing(req[..k], known, team), perms, e);
          perms := perms[next := Perm(team, e.repo, e.rights)];
          next := next + 1;
        }
      }
      assert req[..|req|] == req;
      return true;
    }

    method UpdateUsers(team: TeamId, users: set<UserId>) returns (ok: bool)
      modifies `members
      ensures forall m <- members :: m.0 == team || m in old(members)
      ensures forall m <- old(members) :: m.0 == team || m in members
      ensures ok ==> forall u :: (team, u) in members <==> u in users
      ensures !ok ==> forall u :: (team, u) !in members || (team, u) in old(members)
    {
      if * {
        return false;
      }
      members := set m | m in members && m.0 != team;
      if * {
        return false;
      }
      members := members + set u | u in users :: (team, u);
      return true;
    }

    // The handler after the form has been decoded. The refusal of a caller who is no admin
    // dereferences a nil error.
    method HandleUpdate(caller: UserId, team: TeamId, users: seq<UserId>, req: seq<Entry>) returns (answer: Answer)
      requires Valid()
      modifies `members, `perms, `next
      ensures Valid() && OthersKept(old(perms), perms, team)
      ensures forall t, u :: t != team ==> ((t, u) in members <==> (t, u) in old(members))
      ensures answer == Updated ==> caller in roles && roles[caller] == "admin" && team in teams
      ensures answer == Updated ==> Settled(old(perms), old(next), team, req, perms)
      ensures answer == Updated ==> forall u :: (team, u) in members <==> u in users && u in roles
      ensures answer == Refused <==> caller !in roles
      ensures answer == Crashed <==> caller in roles && roles[caller] != "admin"
      ensures answer == NotFound <==> caller in roles && roles[caller] == "admin" && team !in teams
      ensures answer in {Refused, Crashed, NotFound} ==> perms == old(perms) && members == old(members)
    {
      if caller !in roles {
        return Refused;
      }
      if roles[caller] != "admin" {
        return Crashed;
      }
      if team !in teams {
        return NotFound;
      }
      var found: set<UserId> := {};
      for k := 0 to |users|
        invariant forall u :: u in found <==> u in users[..k] && u in roles
      {
        if users[k] in roles {
          found := found + {users[k]};
        }
      }
      assert users[..|users|] == users;
      var ok := UpdateUsers(team, found);
      if !ok {
        return Failed;
      }
      var rows := List(team);
      ghost var before, from := perms, next;
      var updated;
      ok, updated := Review(team, req, rows);
      if !ok {
        return Failed;
      }
      SeenIsKnown(before, team, rows);
      ghost var mid := perms;
      ok := CreateMissing(team, req, updated, before);
      if !ok {
        return Failed;
      }
      Settles(before, from, team, req, rows, mid, perms);
      return Updated;
    }

    // The rights of a user on a repository; a failing query grants nothing.
    method GetPermissions(repo: RepoId, user: UserId) returns (rights: Rights, ok: bool)
      requires Valid()
      ensures !ok ==> rights == Rights(false, false, false)
      ensures ok ==> forall k :: rights.Has(k) <==>
        && user in roles
        && (roles[user] == "admin" || (repo in owners && owners[repo] == user)
            || Granted(perms, members, repo, user, k))
    {
      rights, ok := Rights(false, false, false), true;
      if user !in roles {
        return;
      }
      if roles[user] == "admin" || (repo in owners && owners[repo] == user) {
        return Rights(true, true, true), true;
      }
      if * {
        return rights, false;
      }
      var r, w, x := false, false, false;
      for id := 0 to next
        invariant r <==> GrantedBelow(perms, members, repo, user, Read, id)
        invariant w <==> GrantedBelow(perms, members, repo, user, Write, id)
        invariant x <==> GrantedBelow(perms, members, repo, user, Exec, id)
      {
        GrantedNext(perms, members, repo, user, id);
        if id in perms && perms[id].repo == repo && (perms[id].team, user) in members {
          if perms[id].rights.read {
            r := true;
          }
          if perms[id].rights.write {
            w := true;
          }
          if perms[id].rights.exec {
            x := true;
          }
        }
      }
      rights := Rights(r, w, x);
    }

    // The outer loop over the listed rows: what the request names is written, the rest is deleted.
    method Review(team: TeamId, req: seq<Entry>, rows: seq<Row>) returns (ok: bool, updated: seq<RepoId>)
      requires Valid() && Listing(perms, team, rows)
      modifies `perms
      ensures Valid() && OthersKept(old(perms), perms, team)
      ensures ok ==> Reviewed(old(perms), team, req, rows, perms)
      ensures ok ==> forall r :: r in updated <==> Seen(rows, r) && Requested(req, r)
    {
      ok, updated := true, [];
      ghost var before := perms;
      for i := 0 to |rows|
        invariant Valid() && OthersKept(before, perms, team)
        invariant Reviewed(before, team, req, rows[..i], perms)
        invariant forall r :: r in updated <==> Seen(rows[..i], r) && Requested(req, r)
      {
        var row := rows[i];
        ghost var mid := perms;
        StillThere(before, team, req, rows, i, perms);
        SeenNext(rows, i);
        var update;
        ok, update, updated := WriteEntries(row.perm, req, updated);
        if !ok {
          return;
        }
        if update {
          ReviewWrites(before, team, req, rows, i, mid, perms);
        } else {
          if * {
            return false, updated;
          }
          perms := perms - {row.id};
          ReviewDrops(before, team, req, rows, i, mid, perms);
        }
      }
      assert rows[..|rows|] == rows;
    }
  }

  // Everything about the stored rows has been gone through, so seen means stored.
  lemma Settles(t: Table, next: nat, team: TeamId, req: seq<Entry>, rows: seq<Row>, mid: Table, u: Table)
    requires (forall id <- t :: id < next) && Listing(t, team, rows)
    requires Reviewed(t, team, req, rows, mid) && Extended(mid, next, team, Missing(req, t, team), u)
    ensures Settled(t, next, team, req, u)
  {
    SeenIsKnown(t, team, rows);
    forall id | id in t ensures Dropped(rows, req, id) <==> t[id].team == team && !Requested(req, t[id].repo) {
      if t[id].team == team {
        assert Row(id, t[id]) in rows;
      }
      if Dropped(rows, req, id) {
        var j :| 0 <= j < |rows| && rows[j].id == id && !Requested(req, rows[j].perm.repo);
        assert rows[j] in rows;
      }
    }
    forall id | id in mid ensures mid[id] == Revised(t, team, req, id) {
      if !Seen(rows, t[id].repo) {
        assert !Matches(t, id, team, t[id].repo);
      }
    }
  }

  lemma SeenIsKnown(t: Table, team: TeamId, rows: seq<Row>)
    requires Listing(t, team, rows)
    ensures forall repo :: Seen(rows, repo) <==> Known(t, team, repo)
  {
    forall repo ensures Seen(rows, repo) <==> Known(t, team, repo) {
      if Seen(rows, repo) {
        var j :| 0 <= j < |rows| && rows[j].perm.repo == repo;
        assert rows[j] in rows;
        assert Matches(t, rows[j].id, team, repo);
      }
      if Known(t, team, repo) {
        var id :| Matches(t, id, team, repo);
        assert Row(id, t[id]) in rows;
      }
    }
  }

  ghost predicate Listing(t: Table, team: TeamId, rows: seq<Row>) {
    && (forall r <- rows :: r.id in t && t[r.id] == r.perm && r.perm.team == team)
    && (forall id <- t :: t[id].team == team ==> Row(id, t[id]) in rows)
    && (forall i, j :: 0 <= i < j < |rows| ==> rows[i].id != rows[j].id)
  }

  lemma StillThere(t: Table, team: TeamId, req: seq<Entry>, rows: seq<Row>, i: nat, u: Table)
    requires Listing(t, team, rows) && i < |rows| && Reviewed(t, team, req, rows[..i], u)
    ensures Matches(u, rows[i].id, team, rows[i].perm.repo)
  {
    assert rows[i] in rows;
  }

  lemma SeenNext(rows: seq<Row>, i: nat)
    requires i < |rows|
    ensures forall r :: Seen(rows[..i + 1], r) <==> Seen(rows[..i], r) || r == rows[i].perm.repo
  {
    var front, more := rows[..i], rows[..i + 1];
    assert more == front + [rows[i]];
    forall r: RepoId ensures Seen(more, r) <==> Seen(front, r) || r == rows[i].perm.repo {
      if Seen(more, r) {
        var j :| 0 <= j < |more| && more[j].perm.repo == r;
        assert j < i ==> front[j] == more[j];
      }
      if Seen(front, r) {
        var j :| 0 <= j < |front| && front[j].perm.repo == r;
        assert more[j] == front[j];
      }
      assert more[i] == rows[i];
    }
  }

  lemma DroppedNext(rows: seq<Row>, req: seq<Entry>, i: nat)
    requires i < |rows|
    ensures forall id :: Dropped(rows[..i + 1], req, id) <==>
                         Dropped(rows[..i], req, id) || (id == rows[i].id && !Requested(req, rows[i].perm.repo))
  {
    var front, more := rows[..i], rows[..i + 1];
    assert more == front + [rows[i]];
    forall id: RowId
      ensures Dropped(more, req, id) <==>
              Dropped(front, req, id) || (id == rows[i].id && !Requested(req, rows[i].perm.repo))
    {
      if Dropped(more, req, id) {
        var j :| 0 <= j < |more| && more[j].id == id && !Requested(req, more[j].perm.repo);
        assert j < i ==> front[j] == more[j];
      }
      if Dropped(front, req, id) {
        var j :| 0 <= j < |front| && front[j].id == id && !Requested(req, front[j].perm.repo);
        assert more[j] == front[j];
      }
      assert more[i] == rows[i];
    }
  }

  lemma NotDropped(t: Table, team: TeamId, req: seq<Entry>, rows: seq<Row>, i: nat, id: RowId)
    requires Listing(t, team, rows) && i <= |rows| && id in t && Requested(req, t[id].repo)
    ensures !Dropped(rows[..i], req, id)
  {
    forall j | 0 <= j < i && rows[..i][j].id == id ensures Requested(req, rows[..i][j].perm.repo) {
      assert rows[j] in rows;
    }
  }

  // Rows for a requested repository are never dropped, so the first one stays the first one.
  lemma FirstStays(t: Table, team: TeamId, req: seq<Entry>, rows: seq<Row>, i: nat, u: Table, repo: RepoId)
    requires Listing(t, team, rows) && i <= |rows| && Reviewed(t, team, req, rows[..i], u) && Requested(req, repo)
    ensures forall id :: IsFirst(u, id, team, repo) <==> IsFirst(t, id, team, repo)
  {
    forall id: RowId ensures Matches(u, id, team, repo) <==> Matches(t, id, team, repo) {
      if Matches(t, id, team, repo) {
        NotDropped(t, team, req, rows, i, id);
      }
    }
  }

  lemma RowWritten(t: Table, team: TeamId, req: seq<Entry>, repo: RepoId, u: Table, id: RowId, seen: bool)
    requires Requested(req, repo) && id in t && id in u
    requires u[id] == if seen then Revised(t, team, req, id) else t[id]
    requires IsFirst(u, id, team, repo) <==> IsFirst(t, id, team, repo)
    ensures (if IsFirst(u, id, team, repo) then u[id].(rights := LastRights(req, repo)) else u[id]) ==
            if seen || t[id].repo == repo then Revised(t, team, req, id) else t[id]
  {
  }

  lemma {:induction false} ReviewWrites(t: Table, team: TeamId, req: seq<Entry>, rows: seq<Row>, i: nat,
                                        u: Table, v: Table)
    requires Listing(t, team, rows) && i < |rows| && Reviewed(t, team, req, rows[..i], u)
    requires Requested(req, rows[i].perm.repo) && Written(u, team, rows[i].perm.repo, req, v)
    ensures Reviewed(t, team, req, rows[..i + 1], v)
  {
    var repo := rows[i].perm.repo;
    FirstStays(t, team, req, rows, i, u, repo);
    SeenNext(rows, i);
    DroppedNext(rows, req, i);
    forall id | id in v
      ensures v[id] == if Seen(rows[..i + 1], t[id].repo) then Revised(t, team, req, id) else t[id]
    {
      RowWritten(t, team, req, repo, u, id, Seen(rows[..i], t[id].repo));
    }
  }

  lemma {:induction false} ReviewDrops(t: Table, team: TeamId, req: seq<Entry>, rows: seq<Row>, i: nat,
                                       u: Table, v: Table)
    requires Listing(t, team, rows) && i < |rows| && Reviewed(t, team, req, rows[..i], u)
    requires !Requested(req, rows[i].perm.repo) && v == u - {rows[i].id}
    ensures Reviewed(t, team, req, rows[..i + 1], v)
  {
    SeenNext(rows, i);
    DroppedNext(rows, req, i);
  }

  // ---- What the update means ----

  ghost predicate DistinctEntries(req: seq<Entry>) {
    forall j, k :: 0 <= j < k < |req| ==> req[j].repo != req[k].repo
  }

  // Two rows of the team for one of its repositories.
  ghost predicate Twice(t: Table, team: TeamId, repo: RepoId) {
    exists i, j :: i != j && Matches(t, i, team, repo) && Matches(t, j, team, repo)
  }

  ghost predicate AskedTwice(req: seq<Entry>, repo: RepoId) {
    exists j, k :: 0 <= j < k < |req| && req[j].repo == repo == req[k].repo
  }

  // The new rows come in the order of the entries.
  lemma {:induction false} MissingInOrder(a: seq<Entry>, b: seq<Entry>, t: Table, team: TeamId)
    ensures Missing(a + b, t, team) == Missing(a, t, team) + Missing(b, t, team)
    ensures |a| == 1 ==> Missing(a, t, team) == if Known(t, team, a[0].repo) then [] else a
  {
    if b == [] {
      assert a + b == a;
    } else {
      assert (a + b)[..|a + b| - 1] == a + b[..|b| - 1];
      MissingInOrder(a, b[..|b| - 1], t, team);
    }
  }

  lemma {:induction false} MissingIs(req: seq<Entry>, t: Table, team: TeamId)
    ensures forall e :: e in Missing(req, t, team) <==> e in req && !Known(t, team, e.repo)
  {
    if req != [] {
      MissingIs(req[..|req| - 1], t, team);
      assert req == req[..|req| - 1] + [req[|req| - 1]];
    }
  }

  lemma {:induction false} LastOfDistinct(req: seq<Entry>, e: Entry)
    requires DistinctEntries(req) && e in req
    ensures Requested(req, e.repo) && LastRights(req, e.repo) == e.rights
  {
    var k :| 0 <= k < |req| && req[k] == e;
    if k < |req| - 1 {
      assert req[..|req| - 1][k] == e;
      LastOfDistinct(req[..|req| - 1], e);
    }
  }

  /** With distinct repositories in the request and none of them stored twice for the team, the
      team's rows are exactly the requested ones, one each. */
  lemma ExactRows(t: Table, next: nat, team: TeamId, req: seq<Entry>, u: Table)
    requires (forall id <- t :: id < next) && Settled(t, next, team, req, u)
    requires DistinctEntries(req) && forall e <- req :: !Twice(t, team, e.repo)
    ensures forall e <- req :: exists id :: id in u && u[id] == Perm(team, e.repo, e.rights)
    ensures forall id :: id in u && u[id].team == team ==> Entry(u[id].repo, u[id].rights) in req
    ensures forall repo :: !Twice(u, team, repo)
  {
    MissingIs(req, t, team);
    var extra := Missing(req, t, team);
    forall e | e in req ensures exists id :: id in u && u[id] == Perm(team, e.repo, e.rights) {
      LastOfDistinct(req, e);
      if Known(t, team, e.repo) {
        var id :| Matches(t, id, team, e.repo);
        assert IsFirst(t, id, team, e.repo);
        assert u[id] == Perm(team, e.repo, e.rights);
      } else {
        var k :| 0 <= k < |extra| && extra[k] == e;
        assert u[next + k] == Perm(team, e.repo, e.rights);
      }
    }
    forall id | id in u && u[id].team == team ensures Entry(u[id].repo, u[id].rights) in req {
      if id < next {
        var k :| 0 <= k < |req| && req[k].repo == t[id].repo;
        assert Matches(t, id, team, req[k].repo);
        LastOfDistinct(req, req[k]);
        assert IsFirst(t, id, team, req[k].repo);
      } else {
        assert u[next + (id - next)] == Perm(team, extra[id - next].repo, extra[id - next].rights);
      }
    }
    OneRowIff(t, next, team, req, u);
  }

  lemma {:induction false} MissingTwice(req: seq<Entry>, t: Table, team: TeamId, repo: RepoId)
    requires !Known(t, team, repo)
    ensures AskedTwice(Missing(req, t, team), repo) <==> AskedTwice(req, repo)
    ensures Requested(Missing(req, t, team), repo) <==> Requested(req, repo)
  {
    if req != [] {
      var front, last := req[..|req| - 1], req[|req| - 1];
      MissingTwice(front, t, team, repo);
      AskedTwiceSnoc(front, last, repo);
      assert req == front + [last];
      AskedTwiceSnoc(Missing(front, t, team), last, repo);
      var missing := Missing(front, t, team);
      assert Missing(req, t, team) == if Known(t, team, last.repo) then missing else missing + [last];
    }
  }

  lemma AskedTwiceSnoc(front: seq<Entry>, last: Entry, repo: RepoId)
    ensures AskedTwice(front + [last], repo) <==>
            AskedTwice(front, repo) || (last.repo == repo && Requested(front, repo))
    ensures Requested(front + [last], repo) <==> Requested(front, repo) || last.repo == repo
  {
    var all := front + [last];
    assert forall k :: 0 <= k < |front| ==> all[k] == front[k];
    assert all[|front|] == last;
  }

  /** For any request: afterwards the team has at most one row for a repository if and only if
      it was not requested at all, or was stored exactly once, or was stored nowhere and
      requested once. */
  lemma OneRowIff(t: Table, next: nat, team: TeamId, req: seq<Entry>, u: Table)
    requires (forall id <- t :: id < next) && Settled(t, next, team, req, u)
    ensures forall repo :: Twice(u, team, repo) <==>
      Requested(req, repo) && if Known(t, team, repo) then Twice(t, team, repo) else AskedTwice(req, repo)
  {
    MissingIs(req, t, team);
    var extra := Missing(req, t, team);
    forall repo
      ensures Twice(u, team, repo) <==>
        Requested(req, repo) && if Known(t, team, repo) then Twice(t, team, repo) else AskedTwice(req, repo)
    {
      if Known(t, team, repo) {
        OneRowStored(t, next, team, req, u, repo);
      } else {
        MissingTwice(req, t, team, repo);
        OneRowNew(t, next, team, req, u, repo);
      }
    }
  }

  lemma OneRowStored(t: Table, next: nat, team: TeamId, req: seq<Entry>, u: Table, repo: RepoId)
    requires (forall id <- t :: id < next) && Settled(t, next, team, req, u) && Known(t, team, repo)
    ensures forall id :: Matches(u, id, team, repo) <==> Matches(t, id, team, repo) && Requested(req, repo)
  {
    MissingIs(req, t, team);
    var extra := Missing(req, t, team);
    forall id: RowId ensures Matches(u, id, team, repo) <==> Matches(t, id, team, repo) && Requested(req, repo) {
      if id in u && id >= next {
        assert u[next + (id - next)].repo == extra[id - next].repo;
        assert extra[id - next] in extra;
      }
    }
  }

  lemma OneRowNew(t: Table, next: nat, team: TeamId, req: seq<Entry>, u: Table, repo: RepoId)
    requires (forall id <- t :: id < next) && Settled(t, next, team, req, u) && !Known(t, team, repo)
    ensures Twice(u, team, repo) <==> AskedTwice(Missing(req, t, team), repo)
  {
    var extra := Missing(req, t, team);
    forall id: RowId | id < next ensures !Matches(u, id, team, repo) {
      assert !Matches(t, id, team, repo);
    }
    forall id: RowId | next <= id && Matches(u, id, team, repo)
      ensures id < next + |extra| && extra[id - next].repo == repo
    {
      assert u[next + (id - next)].repo == extra[id - next].repo;
    }
    if Twice(u, team, repo) {
      var i: RowId, j: RowId :| i != j && Matches(u, i, team, repo) && Matches(u, j, team, repo);
      var a, b := if i < j then i - next else j - next, if i < j then j - next else i - next;
      assert extra[a].repo == repo == extra[b].repo;
    }
    if AskedTwice(extra, repo) {
      var j, k :| 0 <= j < k < |extra| && extra[j].repo == repo == extra[k].repo;
      assert Matches(u, next + j, team, repo) && Matches(u, next + k, team, repo);
    }
  }

  /** After such an update, what the tables grant a user on a repository is what the request
      says, if the user is in the team now, or what another team of the user grants. */
  lemma EffectiveRights(t: Table, next: nat, team: TeamId, req: seq<Entry>, u: Table,
                        members: set<(TeamId, UserId)>, user: UserId, repo: RepoId, k: Right)
    requires (forall id <- t :: id < next) && Settled(t, next, team, req, u) && OthersKept(t, u, team)
    requires DistinctEntries(req) && forall e <- req :: !Twice(t, team, e.repo)
    ensures Granted(u, members, repo, user, k) <==>
      || ((team, user) in members && exists e :: e in req && e.repo == repo && e.rights.Has(k))
      || (exists id :: Grants(t, members, repo, user, k, id) && t[id].team != team)
  {
    ExactRows(t, next, team, req, u);
    if Granted(u, members, repo, user, k) {
      var id :| Grants(u, members, repo, user, k, id);
      if u[id].team == team {
        var e := Entry(u[id].repo, u[id].rights);
        assert e in req && e.repo == repo && e.rights.Has(k);
      } else {
        assert Grants(t, members, repo, user, k, id) && t[id].team != team;
      }
    }
    if (team, user) in members && exists e :: e in req && e.repo == repo && e.rights.Has(k) {
      var e :| e in req && e.repo == repo && e.rights.Has(k);
      var id :| id in u && u[id] == Perm(team, e.repo, e.rights);
      assert Grants(u, members, repo, user, k, id);
    }
    if exists id :: Grants(t, members, repo, user, k, id) && t[id].team != team {
      var id :| Grants(t, members, repo, user, k, id) && t[id].team != team;
      assert Grants(u, members, repo, user, k, id);
    }
  }
}
