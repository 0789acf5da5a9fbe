/** What stopping the jobs of a build leaves in the build's own record: its times and reports do
    not depend on the order of the stops either.  Coarse steps. */
module StopRecord {
  import opened Types
  import opened SchedulerSpec
  import B = BuildTimes

  /** The build's jobs wait under its id, and those that wait have not ended. */
  ghost predicate Ready(s: State, bid: BuildId, jobs: seq<JobId>) {
    && QueueInv(s) && DbInv(s.db, bid, jobs)
    && (forall t <- s.queued :: t.id in jobs ==> t.build == bid)
    && (forall id <- s.pending :: id in jobs ==> s.pending[id].job.build == bid)
    && (forall id <- jobs :: CanStop(s, id) ==> s.db.rows[id].end == None)
  }

  /** So it is in every state of a run in which each job of the build is given to Next once. */
  lemma ReadyInRun(c: Coarse, bid: BuildId, jobs: seq<JobId>)
    requires LiveIn(c, jobs) && EndIn(c, jobs) && BuildInv(c, bid, jobs)
    ensures Ready(c.s, bid, jobs)
  {
    forall id | id in jobs && CanStop(c.s, id) ensures c.s.db.rows[id].end == None {
      RemoveFacts(c.s.queued, id);
      assert Waiting(c.s, id);
    }
  }

  lemma {:induction false} EarliestGrows(rows: seq<JobRow>, k: nat)
    requires k <= |rows| && B.Earliest(rows[..k]).Some?
    ensures B.Earliest(rows).Some?
    decreases |rows|
  {
    if k == |rows| {
      assert rows[..k] == rows;
    } else {
      assert rows[..|rows| - 1][..k] == rows[..k];
      EarliestGrows(rows[..|rows| - 1], k);
    }
  }

  lemma {:induction false} PrefixGrows(rows: seq<JobRow>, next: seq<JobRow>)
    requires |next| == |rows| && forall i :: 0 <= i < |rows| && rows[i].end.Some? ==> next[i] == rows[i]
    ensures B.EndedPrefix(rows) <= B.EndedPrefix(next)
    ensures next[..B.EndedPrefix(rows)] == rows[..B.EndedPrefix(rows)]
  {
    var k, m := B.EndedPrefix(rows), B.EndedPrefix(next);
    assert m < |next| ==> next[m].end == None;
  }

  /** An aggregation while a job is open leaves no trace once a later one has seen more. */
  lemma AggregateAgain(b: B.Build, rows: seq<JobRow>, next: seq<JobRow>)
    requires b.end == None && !B.AllEnded(rows)
    requires |next| == |rows| && forall i :: 0 <= i < |rows| && rows[i].end.Some? ==> next[i] == rows[i]
    ensures B.Aggregate(B.Aggregate(b, rows), next) == B.Aggregate(b, next)
  {
    var k, m := B.EndedPrefix(rows), B.EndedPrefix(next);
    B.AllEndedIff(rows);
    PrefixGrows(rows, next);
    assert next[..m][..k] == rows[..k];
    if B.Earliest(rows[..k]).Some? {
      EarliestGrows(next[..m], k);
    }
  }

  lemma StopOwn(s: State, id: JobId, now: Time, bid: BuildId, jobs: seq<JobId>)
    requires Ready(s, bid, jobs) && id in jobs
    ensures var u := Stop(s, id, now);
      && Ready(u, bid, jobs)
      && (!CanStop(s, id) ==> u == s)
      && (CanStop(s, id) ==>
            u.db.builds == s.db.builds[bid := B.Aggregate(s.db.builds[bid], JobRows(jobs, u.db.rows))])
  {
    QueueStop(s, id, now);
    StopOne(s, id, now);
    RemoveFacts(s.queued, id);
    if CanStop(s, id) {
      SaveKeeps(s.db, bid, jobs, id, StoppedRow(s, id, now));
    }
  }

  ghost predicate SomeStops(s: State, order: seq<JobId>) { exists id <- order :: CanStop(s, id) }

  lemma NoneStops(s: State, order: seq<JobId>, at: map<JobId, Time>)
    requires !SomeStops(s, order) && forall id :: id in order ==> id in at
    ensures StopAll(s, order, at) == s
    decreases |order|
  {
    if order != [] {
      assert order[0] in order && !CanStop(s, order[0]);
      NoneStops(s, order[1..], at);
    }
  }

  // Rows of jobs that have ended stay as they are.
  lemma EndedRowsStay(s: State, order: seq<JobId>, at: map<JobId, Time>, bid: BuildId, jobs: seq<JobId>)
    requires Ready(s, bid, jobs) && forall id <- order :: id in jobs && id in at
    ensures var rows, after := JobRows(jobs, s.db.rows), JobRows(jobs, StopAll(s, order, at).db.rows);
      |after| == |rows| && forall i :: 0 <= i < |rows| && rows[i].end.Some? ==> after[i] == rows[i]
  {
    StopOrderIrrelevant(s, order, at);
    var final := StopAll(s, order, at).db.rows;
    JobRowsAt(jobs, s.db.rows);
    JobRowsAt(jobs, final);
    forall i | 0 <= i < |jobs| && s.db.rows[jobs[i]].end.Some? ensures final[jobs[i]] == s.db.rows[jobs[i]] {
      assert jobs[i] in jobs && !CanStop(s, jobs[i]);
    }
  }

  /** Stopping jobs of a build, in any order and with repetitions: if any of them was queued or
      pending, the build's record is what one aggregation over the rows that are left makes of
      it, otherwise it is untouched; no other build's record changes. */
  lemma {:induction false} RecordAfterStops(s: State, order: seq<JobId>, at: map<JobId, Time>,
                                            bid: BuildId, jobs: seq<JobId>)
    requires Ready(s, bid, jobs) && forall id <- order :: id in jobs && id in at
    ensures var u := StopAll(s, order, at);
      u.db.builds == if SomeStops(s, order)
                     then s.db.builds[bid := B.Aggregate(s.db.builds[bid], JobRows(jobs, u.db.rows))]
                     else s.db.builds
    decreases |order|
  {
    if !SomeStops(s, order) {
      NoneStops(s, order, at);
      return;
    }
    var a, rest := order[0], order[1..];
    assert forall id :: id in order <==> id == a || id in rest;
    var v := Stop(s, a, at[a]);
    StopOwn(s, a, at[a], bid, jobs);
    RecordAfterStops(v, rest, at, bid, jobs);
    if !CanStop(s, a) {
      assert SomeStops(s, rest);
    } else if SomeStops(v, rest) {
      OpenBetween(s, v, a, rest, at, bid, jobs);
    } else {
      NoneStops(v, rest, at);
    }
  }

  lemma OpenBetween(s: State, v: State, a: JobId, rest: seq<JobId>, at: map<JobId, Time>,
                    bid: BuildId, jobs: seq<JobId>)
    requires Ready(s, bid, jobs) && Ready(v, bid, jobs) && a in jobs && CanStop(s, a)
    requires (forall id <- rest :: id in jobs && id in at) && SomeStops(v, rest)
    ensures var b, rows := s.db.builds[bid], JobRows(jobs, v.db.rows);
      var after := JobRows(jobs, StopAll(v, rest, at).db.rows);
      B.Aggregate(B.Aggregate(b, rows), after) == B.Aggregate(b, after)
  {
    NotAllEnded(s.db, jobs, a, bid);
    var x :| x in rest && CanStop(v, x);
    NotAllEnded(v.db, jobs, x, bid);
    EndedRowsStay(v, rest, at, bid, jobs);
    AggregateAgain(s.db.builds[bid], JobRows(jobs, v.db.rows), JobRows(jobs, StopAll(v, rest, at).db.rows));
  }

  lemma NotAllEnded(db: Db, jobs: seq<JobId>, id: JobId, bid: BuildId)
    requires DbInv(db, bid, jobs) && id in jobs && db.rows[id].end == None
    ensures !B.AllEnded(JobRows(jobs, db.rows)) && db.builds[bid].end == None
  {
    var rows := JobRows(jobs, db.rows);
    JobRowsAt(jobs, db.rows);
    var k :| 0 <= k < |jobs| && jobs[k] == id;
    assert rows[k] in rows;
  }

  /** The whole state, the build's record included, depends only on which jobs are stopped. */
  lemma StopOrderState(s: State, order: seq<JobId>, other: seq<JobId>, at: map<JobId, Time>,
                       bid: BuildId, jobs: seq<JobId>)
    requires Ready(s, bid, jobs) && IdsOf(order) == IdsOf(other)
    requires (forall id <- order :: id in jobs && id in at) && (forall id <- other :: id in jobs && id in at)
    ensures StopAll(s, order, at) == StopAll(s, other, at)
  {
    StopOrderIrrelevant(s, order, at);
    StopOrderIrrelevant(s, other, at);
    RecordAfterStops(s, order, at, bid, jobs);
    RecordAfterStops(s, other, at, bid, jobs);
    assert forall id :: id in order <==> id in IdsOf(order);
    assert forall id :: id in other <==> id in IdsOf(other);
  }
}
