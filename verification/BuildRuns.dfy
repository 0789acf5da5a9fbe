/** A build's times and report over whole coarse runs on a clock that does not go back. */
module BuildRuns {
  import opened Types
  import opened SchedulerSpec
  import B = BuildTimes

  function Now(l: Label): Option<Time> {
    match l
    case DoNext(_, _, now) => Some(now)
    case DoStop(_, now) => Some(now)
    case DoDispatch(_, now) => Some(now)
    case DoFinish(_, _, now) => Some(now)
    case _ => None
  }

  // The clock after a step.
  function After(l: Label, time: Time): Time {
    if Now(l).Some? then Now(l).value else time
  }

  function Clock(ls: seq<Label>, time: Time): Time
    decreases |ls|
  {
    if ls == [] then time else Clock(ls[1..], After(ls[0], time))
  }

  predicate OnTime(ls: seq<Label>, time: Time)
    decreases |ls|
  {
    ls == [] || (time <= After(ls[0], time) && OnTime(ls[1..], After(ls[0], time)))
  }

  predicate Past(t: Option<Time>, time: Time) { t.Some? ==> t.value <= time }

  predicate PastRow(r: JobRow, time: Time) { Past(r.start, time) && Past(r.end, time) }

  /** Nothing stored about the build, and no execution's start, lies in the future. */
  predicate PastDb(db: Db, bid: BuildId, jobs: seq<JobId>, time: Time) {
    && JobsOf(db, bid, jobs)
    && Past(db.builds[bid].start, time) && Past(db.builds[bid].end, time)
    && forall id <- jobs :: PastRow(db.rows[id], time)
  }

  predicate PastInv(c: Coarse, bid: BuildId, jobs: seq<JobId>, time: Time) {
    PastDb(c.s.db, bid, jobs, time) && forall e <- c.live :: e.started <= time
  }

  lemma PastTouch(db: Db, bid: BuildId, jobs: seq<JobId>, time: Time, other: BuildId)
    requires PastDb(db, bid, jobs, time)
    ensures PastDb(TouchBuild(db, other), bid, jobs, time)
  {
    var rows := JobRows(jobs, db.rows);
    JobRowsAt(jobs, db.rows);
    var k := B.EndedPrefix(rows);
    B.EarliestIsMin(rows[..k]);
    B.LatestIsMax(rows);
    forall r | r in rows ensures PastRow(r, time) {
      var i :| 0 <= i < |rows| && rows[i] == r;
      assert jobs[i] in jobs;
    }
    assert forall r :: r in rows[..k] ==> r in rows;
  }

  lemma PastSave(db: Db, bid: BuildId, jobs: seq<JobId>, time: Time, id: JobId, row: JobRow)
    requires PastDb(db, bid, jobs, time) && PastRow(row, time)
    ensures PastDb(SaveJob(db, id, row), bid, jobs, time)
  {
    PastTouch(db.(rows := db.rows[id := row]), bid, jobs, time, row.build);
  }

  lemma PastStop(c: Coarse, id: JobId, now: Time, bid: BuildId, jobs: seq<JobId>)
    requires PendingLive(c) && PastInv(c, bid, jobs, now)
    ensures PastDb(Stop(c.s, id, now).db, bid, jobs, now)
  {
    match FirstTicket(c.s.queued, id)
    case Some(t) => PastSave(c.s.db, bid, jobs, now, id, DroppedRow(t, now));
    case None =>
      if id in c.s.pending {
        PastSave(c.s.db, bid, jobs, now, id, EndedRow(c.s.pending[id], FAILING, now));
      }
  }

  lemma PastStep(c: Coarse, l: Label, bid: BuildId, jobs: seq<JobId>, time: Time)
    requires PendingLive(c) && PastInv(c, bid, jobs, time) && Enabled(c, l) && time <= After(l, time)
    ensures PastInv(Step(c, l), bid, jobs, After(l, time))
  {
    var s, now := c.s, After(l, time);
    assert PastInv(c, bid, jobs, now);
    match l
    case DoNext(id, build, _) =>
      PastStop(c, id, now, bid, jobs);
      PastSave(Stop(s, id, now).db, bid, jobs, now, id, QueuedRow(Ticket(id, build, c.clock)));
    case DoStop(id, _) => PastStop(c, id, now, bid, jobs);
    case DoDispatch(_, _) => PastSave(s.db, bid, jobs, now, s.queued[0].id, RunningRow(s.queued[0], now));
    case DoFinish(e, status, _) => PastSave(s.db, bid, jobs, now, e.job.id, EndedRow(e, status, now));
    case DoTouch(other) => PastTouch(s.db, bid, jobs, now, other);
    case _ =>
  }

  lemma {:induction false} PastRun(c: Coarse, ls: seq<Label>, d: Coarse, bid: BuildId, jobs: seq<JobId>, time: Time)
    requires PendingLive(c) && PastInv(c, bid, jobs, time)
    requires Run(c, ls, d) && OnTime(ls, time)
    ensures PastInv(d, bid, jobs, Clock(ls, time))
    decreases |ls|
  {
    if ls != [] {
      PendingStep(c, ls[0]);
      PastStep(c, ls[0], bid, jobs, time);
      PastRun(Step(c, ls[0]), ls[1..], d, bid, jobs, After(ls[0], time));
    }
  }

  // ---- The step that ends the last job ----

  predicate Ended(c: Coarse, bid: BuildId)
    requires bid in c.s.db.builds
  {
    c.s.db.builds[bid].end.Some?
  }

  /** The build as the save that ends its last job leaves it. */
  predicate JustEnded(was: B.Build, b: B.Build, rows: seq<JobRow>, now: Time) {
    && b.end == B.Latest(rows) == Some(now)
    && b.start == (if B.Earliest(rows).Some? then B.Earliest(rows) else was.start)
    && b.sent == [B.AllPassing(rows)]
  }

  lemma SaveEndsOwn(db: Db, bid: BuildId, jobs: seq<JobId>, id: JobId, row: JobRow, now: Time)
    requires DbInv(db, bid, jobs) && PastDb(db, bid, jobs, now) && db.builds[bid].end == None
    requires id in jobs && row.build == bid && (row.end == None || row.end == Some(now))
    ensures var v := SaveJob(db, id, row);
      && bid in v.builds
      && (v.builds[bid].end.Some? ==> JustEnded(db.builds[bid], v.builds[bid], JobRows(jobs, v.rows), now))
  {
    var rows, after := JobRows(jobs, db.rows), JobRows(jobs, db.rows[id := row]);
    JobRowsAt(jobs, db.rows);
    JobRowsAt(jobs, db.rows[id := row]);
    var k :| 0 <= k < |jobs| && jobs[k] == id;
    assert after == rows[k := row];
    forall r | r in rows ensures Past(r.end, now) {
      var i :| 0 <= i < |rows| && rows[i] == r;
      assert jobs[i] in jobs;
    }
    OwnAggregate(db.builds[bid], rows, k, row, now);
  }

  lemma OwnAggregate(b: B.Build, rows: seq<JobRow>, k: nat, row: JobRow, now: Time)
    requires B.TimesInv(b, rows) && b.end == None && k < |rows|
    requires (forall r <- rows :: Past(r.end, now)) && (row.end == None || row.end == Some(now))
    ensures var c := B.Aggregate(b, rows[k := row]); c.end.Some? ==> JustEnded(b, c, rows[k := row], now)
  {
    if rows[k].end.Some? && row.end == None {
      B.AllEndedIff(rows[k := row]);
      assert rows[k := row][k] in rows[k := row];
    } else {
      B.SaveStep(b, rows, k, row);
      LatestIsNow(rows, k, row, now);
    }
  }

  // The save of another job's row does not end the build.
  lemma SaveEndsOther(db: Db, bid: BuildId, jobs: seq<JobId>, id: JobId, row: JobRow)
    requires DbInv(db, bid, jobs) && id !in jobs
    ensures var v := SaveJob(db, id, row); bid in v.builds && (v.builds[bid].end.Some? <==> db.builds[bid].end.Some?)
  {
    SaveKeeps(db, bid, jobs, id, row);
    JobRowsAt(jobs, db.rows);
    JobRowsAt(jobs, db.rows[id := row]);
    assert JobRows(jobs, db.rows[id := row]) == JobRows(jobs, db.rows);
  }

  lemma LatestIsNow(rows: seq<JobRow>, k: nat, row: JobRow, now: Time)
    requires k < |rows| && (forall r <- rows :: Past(r.end, now)) && (row.end == None || row.end == Some(now))
    requires !B.AllEnded(rows)
    ensures B.AllEnded(rows[k := row]) ==> B.Latest(rows[k := row]) == Some(now)
  {
    var after := rows[k := row];
    B.LatestIsMax(after);
    assert after[k] == row && row in after;
    assert forall r :: r in after ==> r == row || r in rows;
  }

  // One save, of the build's own job or of another.
  lemma SaveEnds(db: Db, bid: BuildId, jobs: seq<JobId>, id: JobId, row: JobRow, now: Time)
    requires DbInv(db, bid, jobs) && PastDb(db, bid, jobs, now) && db.builds[bid].end == None
    requires (id in jobs ==> row.build == bid) && (row.end == None || row.end == Some(now))
    ensures var v := SaveJob(db, id, row);
      && bid in v.builds
      && (v.builds[bid].end.Some? ==> JustEnded(db.builds[bid], v.builds[bid], JobRows(jobs, v.rows), now))
  {
    if id in jobs {
      SaveEndsOwn(db, bid, jobs, id, row, now);
    } else {
      SaveEndsOther(db, bid, jobs, id, row);
    }
  }

  lemma StopEnds(c: Coarse, id: JobId, now: Time, bid: BuildId, jobs: seq<JobId>)
    requires LiveIn(c, jobs) && EndIn(c, jobs) && BuildInv(c, bid, jobs) && PastInv(c, bid, jobs, now) && !Ended(c, bid)
    ensures var v := Stop(c.s, id, now).db;
      && bid in v.builds
      && (v.builds[bid].end.Some? ==> JustEnded(c.s.db.builds[bid], v.builds[bid], JobRows(jobs, v.rows), now))
      && (id !in jobs ==> v.builds[bid].end == None)
  {
    RemoveFacts(c.s.queued, id);
    match FirstTicket(c.s.queued, id)
    case Some(t) =>
      SaveEnds(c.s.db, bid, jobs, id, DroppedRow(t, now), now);
      if id !in jobs {
        SaveEndsOther(c.s.db, bid, jobs, id, DroppedRow(t, now));
      }
    case None =>
      if id in c.s.pending {
        var row := EndedRow(c.s.pending[id], FAILING, now);
        SaveEnds(c.s.db, bid, jobs, id, row, now);
        if id !in jobs {
          SaveEndsOther(c.s.db, bid, jobs, id, row);
        }
      }
  }

  lemma NextEnds(c: Coarse, id: JobId, build: BuildId, now: Time, bid: BuildId, jobs: seq<JobId>)
    requires LiveIn(c, jobs) && EndIn(c, jobs) && BuildInv(c, bid, jobs) && PastInv(c, bid, jobs, now) && !Ended(c, bid)
    requires OnceFor(c, DoNext(id, build, now), bid, jobs)
    ensures var v := Step(c, DoNext(id, build, now)).s.db;
      && bid in v.builds
      && (v.builds[bid].end.Some? ==> JustEnded(c.s.db.builds[bid], v.builds[bid], JobRows(jobs, v.rows), now))
  {
    var u := Stop(c.s, id, now).db;
    var row := QueuedRow(Ticket(id, build, c.clock));
    BuildStop(c, id, now, bid, jobs);
    StopEnds(c, id, now, bid, jobs);
    PastStop(c, id, now, bid, jobs);
    if id in jobs {
      RemoveFacts(c.s.queued, id);
      assert !Waiting(c.s, id) && u == c.s.db;
      SaveEndsOwn(u, bid, jobs, id, row, now);
    } else {
      SaveEndsOther(u, bid, jobs, id, row);
    }
  }

  lemma StepEnds(c: Coarse, l: Label, bid: BuildId, jobs: seq<JobId>, time: Time)
    requires LiveIn(c, jobs) && EndIn(c, jobs) && BuildInv(c, bid, jobs) && PastInv(c, bid, jobs, time)
    requires !Ended(c, bid) && Enabled(c, l) && OnceFor(c, l, bid, jobs) && time <= After(l, time)
    ensures var v := Step(c, l).s.db;
      && bid in v.builds
      && (v.builds[bid].end.Some? ==>
            JustEnded(c.s.db.builds[bid], v.builds[bid], JobRows(jobs, v.rows), After(l, time)))
  {
    var s, now := c.s, After(l, time);
    assert PastInv(c, bid, jobs, now);
    match l
    case DoNext(id, build, _) => NextEnds(c, id, build, now, bid, jobs);
    case DoStop(id, _) => StopEnds(c, id, now, bid, jobs);
    case DoDispatch(_, _) =>
      assert s.queued[0] in s.queued;
      SaveEnds(s.db, bid, jobs, s.queued[0].id, RunningRow(s.queued[0], now), now);
    case DoFinish(e, status, _) => SaveEnds(s.db, bid, jobs, e.job.id, EndedRow(e, status, now), now);
    case DoTouch(other) =>
      TouchKeeps(s.db, bid, jobs, other);
    case _ =>
  }

  // ---- Nothing later changes a finished build ----

  predicate Done(db: Db, bid: BuildId) {
    bid in db.builds && db.builds[bid].start.Some? && db.builds[bid].end.Some?
  }

  lemma DoneStep(c: Coarse, l: Label, bid: BuildId)
    requires Done(c.s.db, bid) && Enabled(c, l)
    ensures Done(Step(c, l).s.db, bid) && Step(c, l).s.db.builds[bid] == c.s.db.builds[bid]
  {
  }

  lemma {:induction false} DoneStays(c: Coarse, ls: seq<Label>, d: Coarse, bid: BuildId)
    requires Done(c.s.db, bid) && Run(c, ls, d)
    ensures Done(d.s.db, bid) && d.s.db.builds[bid] == c.s.db.builds[bid]
    decreases |ls|
  {
    if ls != [] {
      DoneStep(c, ls[0], bid);
      DoneStays(Step(c, ls[0]), ls[1..], d, bid);
    }
  }

  /** Coarse steps, on a clock that does not go back.  In a run that gives each job of the build
      to Next once, whatever happens to other jobs, the step that ends the last job sets the end
      time to the latest job end, which is the time of that step, the start time to the earliest
      job start, or leaves it where no job ever started; start is not after end; exactly one status is sent, success
      if and only if every job passes; and if there is a start time, nothing that comes later,
      whatever it is, changes the build or sends another status. */
  lemma EndOfBuild(c: Coarse, ls: seq<Label>, d: Coarse, l: Label, bid: BuildId, jobs: seq<JobId>, time: Time)
    requires LiveIn(c, jobs) && EndIn(c, jobs) && BuildInv(c, bid, jobs) && PastInv(c, bid, jobs, time)
    requires Run(c, ls, d) && OnceRun(c, ls, bid, jobs) && OnTime(ls, time)
    requires Enabled(d, l) && OnceFor(d, l, bid, jobs) && OnTime([l], Clock(ls, time))
    requires bid in d.s.db.builds && !Ended(d, bid) && bid in Step(d, l).s.db.builds && Ended(Step(d, l), bid)
    ensures var v := Step(d, l);
            var b, rows := v.s.db.builds[bid], JobRows(jobs, v.s.db.rows);
      && b.end == B.Latest(rows) == Some(After(l, Clock(ls, time)))
      && b.start == (if B.Earliest(rows).Some? then B.Earliest(rows) else d.s.db.builds[bid].start)
      && (b.start.Some? ==> b.start.value <= b.end.value)
      && b.sent == [B.AllPassing(rows)]
      && (b.start.Some? ==>
            forall ms, u :: Run(v, ms, u) ==> bid in u.s.db.builds && u.s.db.builds[bid] == b)
  {
    BuildRun(c, ls, d, bid, jobs);
    PastRun(c, ls, d, bid, jobs, time);
    var now := Clock(ls, time);
    StepEnds(d, l, bid, jobs, now);
    PastStep(d, l, bid, jobs, now);
    var v := Step(d, l);
    forall ms, u | Run(v, ms, u) && v.s.db.builds[bid].start.Some?
      ensures bid in u.s.db.builds && u.s.db.builds[bid] == v.s.db.builds[bid]
    {
      DoneStays(v, ms, u, bid);
    }
  }

  // ---- Where such a run begins ----

  /** A build that was restarted, uninterrupted, when none of its jobs was waiting or live: the
      whole-run results about the build's end hold for every run from there. */
  lemma BeginsAfterRestart(c: Coarse, bid: BuildId, now: Time)
    requires PendingLive(c) && bid in c.s.db.builds && JobsOf(c.s.db, bid, c.s.db.builds[bid].jobs)
    requires forall id <- c.s.db.builds[bid].jobs :: !Waiting(c.s, id)
    requires forall e <- c.live :: e.job.id !in c.s.db.builds[bid].jobs && e.started <= now
    ensures var jobs := c.s.db.builds[bid].jobs;
      var d := c.(s := Restart(c.s, bid, c.clock, now), known := c.known + IdsOf(jobs), clock := c.clock + |jobs|);
      && LiveIn(d, jobs) && EndIn(d, jobs) && BuildInv(d, bid, jobs) && PastInv(d, bid, jobs, now)
      && forall id <- jobs :: d.s.db.rows[id].end == None
  {
    var jobs := c.s.db.builds[bid].jobs;
    var d := c.(s := Restart(c.s, bid, c.clock, now), known := c.known + IdsOf(jobs), clock := c.clock + |jobs|);
    RestartClears(c.s, bid, c.clock, now);
    forall id | id in jobs ensures InQueue(d.s.queued, id) {
      assert !Waiting(c.s, id);
      TicketBehind(c.s.queued, jobs, bid, c.clock, id);
      RemoveFacts(d.s.queued, id);
    }
    TicketQueued(c.s.queued);
    assert forall t :: t in c.s.queued ==> Waiting(c.s, t.id);
    forall t | t in Tickets(jobs, bid, c.clock) ensures t.build == bid {
      TicketsOf(jobs, bid, c.clock, t);
    }
  }

  lemma {:induction false} TicketsOf(jobs: seq<JobId>, bid: BuildId, clock: nat, t: Ticket)
    requires t in Tickets(jobs, bid, clock)
    ensures t.build == bid && t.id in jobs
    decreases |jobs|
  {
    if jobs != [] && t != Ticket(jobs[0], bid, clock) {
      TicketsOf(jobs[1..], bid, clock + 1, t);
    }
  }

  /** A new build, none of whose jobs was ever given to Next. */
  lemma BeginsWhenCreated(c: Coarse, bid: BuildId, jobs: seq<JobId>, now: Time)
    requires PendingLive(c) && JobsOf(c.s.db, bid, jobs)
    requires c.s.db.builds[bid].end == None && c.s.db.builds[bid].sent == []
    requires forall id <- jobs :: id !in c.known && !Waiting(c.s, id)
    requires forall id <- jobs :: c.s.db.rows[id].start == None && c.s.db.rows[id].end == None
    requires Past(c.s.db.builds[bid].start, now) && forall e <- c.live :: e.job.id !in jobs && e.started <= now
    ensures LiveIn(c, jobs) && EndIn(c, jobs) && BuildInv(c, bid, jobs) && PastInv(c, bid, jobs, now)
  {
  }

  // ---- An end without a start ----

  predicate QueuedFor(q: seq<Ticket>, id: JobId, bid: BuildId) {
    FirstTicket(q, id).Some? && FirstTicket(q, id).value.build == bid
  }

  /** A restarted build some of whose jobs have been stopped in the queue: the others wait
      there, and nothing has started. */
  ghost predicate Stopping(s: State, bid: BuildId, jobs: seq<JobId>, rest: seq<JobId>) {
    && QueueInv(s) && DbInv(s.db, bid, jobs) && s.db.builds[bid].start == None
    && (forall id <- jobs :: s.db.rows[id].start == None)
    && (forall id <- rest :: id in jobs)
    && (forall id <- jobs :: if id in rest then QueuedFor(s.queued, id, bid) else s.db.rows[id].end.Some?)
  }

  lemma NoStart(b: B.Build, rows: seq<JobRow>)
    requires b.start == None && forall r <- rows :: r.start == None
    ensures B.Aggregate(b, rows).start == None
  {
    B.EarliestIsMin(rows[..B.EndedPrefix(rows)]);
  }

  lemma StopNext(s: State, bid: BuildId, jobs: seq<JobId>, rest: seq<JobId>, now: Time)
    requires rest != [] && Stopping(s, bid, jobs, rest) && rest[0] !in rest[1..]
    ensures Stopping(Stop(s, rest[0], now), bid, jobs, rest[1..])
  {
    var id := rest[0];
    assert id in jobs && QueuedFor(s.queued, id, bid);
    var t := FirstTicket(s.queued, id).value;
    var row := DroppedRow(t, now);
    var u := Stop(s, id, now);
    QueueStop(s, id, now);
    StopOne(s, id, now);
    SaveKeeps(s.db, bid, jobs, id, row);
    var rows := JobRows(jobs, u.db.rows);
    JobRowsAt(jobs, u.db.rows);
    forall r | r in rows ensures r.start == None {
      var k :| 0 <= k < |rows| && rows[k] == r;
      assert jobs[k] in jobs;
    }
    NoStart(s.db.builds[bid], rows);
  }

  lemma {:induction false} TicketBehind(q: seq<Ticket>, jobs: seq<JobId>, bid: BuildId, clock: nat, id: JobId)
    requires id in jobs && !InQueue(q, id)
    ensures QueuedFor(q + Tickets(jobs, bid, clock), id, bid)
    decreases |q|, |jobs|
  {
    var all := q + Tickets(jobs, bid, clock);
    if q != [] {
      assert q[0].id != id;
      assert all[1..] == q[1..] + Tickets(jobs, bid, clock);
      forall i | 0 <= i < |q[1..]| ensures q[1..][i].id != id {
        assert q[i + 1].id != id;
      }
      TicketBehind(q[1..], jobs, bid, clock, id);
    } else {
      assert all == Tickets(jobs, bid, clock);
      if jobs[0] != id {
        assert [] + Tickets(jobs[1..], bid, clock + 1) == Tickets(jobs[1..], bid, clock + 1);
        TicketBehind([], jobs[1..], bid, clock + 1, id);
      }
    }
  }

  lemma {:induction false} StopsAll(s: State, bid: BuildId, jobs: seq<JobId>, rest: seq<JobId>, at: map<JobId, Time>)
    requires Stopping(s, bid, jobs, rest) && forall id <- rest :: id in at
    requires forall i, j :: 0 <= i < j < |rest| ==> rest[i] != rest[j]
    ensures Stopping(StopAll(s, rest, at), bid, jobs, [])
    decreases |rest|
  {
    if rest != [] {
      StopNext(s, bid, jobs, rest, at[rest[0]]);
      StopsAll(Stop(s, rest[0], at[rest[0]]), bid, jobs, rest[1..], at);
    }
  }

  /** A build with an end and no start time can be reached from any build with no waiting job:
      restart it and stop all its jobs before one is dispatched.  Its status has been sent then,
      and the aggregation that StopBuild ends with sends it again, as does every later one. */
  lemma RestartThenStop(s: State, bid: BuildId, clock: nat, now: Time, at: map<JobId, Time>)
    requires QueueInv(s) && bid in s.db.builds && JobsOf(s.db, bid, s.db.builds[bid].jobs)
    requires forall id <- s.db.builds[bid].jobs :: !Waiting(s, id) && id in at
    ensures var jobs := s.db.builds[bid].jobs;
            var u := StopAll(Restart(s, bid, clock, now), jobs, at);
      && bid in u.db.builds && u.db.builds[bid].end.Some? && u.db.builds[bid].start == None
      && u.db.builds[bid].sent != []
      && TouchBuild(u.db, bid).builds[bid].sent != u.db.builds[bid].sent
  {
    var jobs := s.db.builds[bid].jobs;
    var t := Restart(s, bid, clock, now);
    RestartClears(s, bid, clock, now);
    forall id | id in jobs ensures QueuedFor(t.queued, id, bid) {
      assert !Waiting(s, id);
      TicketBehind(s.queued, jobs, bid, clock, id);
    }
    StopsAll(t, bid, jobs, jobs, at);
    var u := StopAll(t, jobs, at);
    var rows := JobRows(jobs, u.db.rows);
    JobRowsAt(jobs, u.db.rows);
    forall r | r in rows ensures r.end.Some? {
      var k :| 0 <= k < |rows| && rows[k] == r;
      assert jobs[k] in jobs;
    }
    B.ReportedAgainIff(u.db.builds[bid], rows);
  }
}
