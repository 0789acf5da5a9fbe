/** From the exit codes of a build's jobs to the status reported for the build: the handlers and
    streams of Verdict under the coarse runs of SchedulerSpec. */
module BuildVerdict {
  import opened Types
  import opened SchedulerSpec
  import R = BuildRuns
  import V = Verdict
  import P = Parser
  import M = Masking

  datatype Stream = Stream(chunks: seq<string>, env: seq<M.EnvVariable>, rs: seq<V.Resp>, end: V.End)

  /** What an execution ran, how its handler fared, and what of that came back. */
  datatype Report = Report(cmds: seq<P.Command>, cache: seq<string>, w: V.Setting, h: V.Handled, stream: Stream)

  ghost predicate Genuine(r: Report) {
    && V.Handles(r.cmds, r.cache, r.w, r.h)
    && V.Delivers(r.h, r.stream.chunks, r.stream.env, r.stream.rs, r.stream.end)
  }

  function StatusOf(r: Report): string { V.RecordOf(r.stream.rs, r.stream.end).status }

  /** The container came up and every command that is no hook ran and exited 0. */
  ghost predicate Green(r: Report) {
    r.w.tempDir && r.w.cloned && r.w.listed && V.AllGreen(r.cmds, r.cache, r.w.engine)
  }

  lemma PassingMeansGreen(r: Report)
    requires Genuine(r)
    ensures StatusOf(r) == PASSING ==> Green(r)
    ensures V.Intact(r.h, r.stream.end) && Green(r) ==> StatusOf(r) == PASSING
  {
    if StatusOf(r) == PASSING {
      V.PassingIsEarned(r.cmds, r.cache, r.w, r.h, r.stream.chunks, r.stream.env, r.stream.rs, r.stream.end);
    }
    if V.Intact(r.h, r.stream.end) {
      V.VerdictIsExact(r.cmds, r.cache, r.w, r.h, r.stream.chunks, r.stream.env, r.stream.rs, r.stream.end);
    }
  }

  // The executions that ended.
  function EndedBy(l: Label): set<Execution> { if l.DoFinish? then {l.e} else {} }

  function Finished(ls: seq<Label>): set<Execution>
    decreases |ls|
  {
    if ls == [] then {} else EndedBy(ls[0]) + Finished(ls[1..])
  }

  // Every execution ends with the status its report gives it.
  ghost predicate Honest(l: Label, of: Execution -> Report) {
    l.DoFinish? ==> Genuine(of(l.e)) && l.status == StatusOf(of(l.e))
  }

  ghost predicate HonestRun(ls: seq<Label>, of: Execution -> Report) {
    forall l <- ls :: Honest(l, of)
  }

  // ---- What the rows say ----

  predicate Over(c: Coarse, id: JobId) {
    id in c.known && !Waiting(c.s, id) && forall e <- c.live :: e.job.id != id
  }

  // A passing row was written by an ended execution.
  ghost predicate PassedRows(rows: map<JobId, JobRow>, jobs: seq<JobId>, ended: set<Execution>,
                             of: Execution -> Report)
  {
    && (forall id <- jobs :: id in rows)
    && (forall id <- jobs :: rows[id].end.Some? && rows[id].status == PASSING ==>
          exists e :: e in ended && e.job.id == id && StatusOf(of(e)) == PASSING)
  }

  // An ended execution's job is over, and its row is as that execution wrote it.
  ghost predicate EndedRows(c: Coarse, jobs: seq<JobId>, ended: set<Execution>, of: Execution -> Report) {
    forall e <- ended :: e.job.id in jobs ==>
      && Over(c, e.job.id) && e.job.id in c.s.db.rows
      && c.s.db.rows[e.job.id].end.Some? && c.s.db.rows[e.job.id].status == StatusOf(of(e))
  }

  /** A passing row was written by an ended execution, and an ended execution's row stays. */
  ghost predicate RowsInv(c: Coarse, jobs: seq<JobId>, ended: set<Execution>, of: Execution -> Report) {
    PassedRows(c.s.db.rows, jobs, ended, of) && EndedRows(c, jobs, ended, of)
  }

  lemma StopRows(c: Coarse, id: JobId, now: Time)
    requires QueueInv(c.s)
    ensures var u := Stop(c.s, id, now);
      && (forall x :: x != id ==> (x in u.db.rows <==> x in c.s.db.rows))
      && (forall x :: x != id && x in c.s.db.rows ==> u.db.rows[x] == c.s.db.rows[x])
      && (id in c.s.db.rows ==> id in u.db.rows)
      && (u.db.rows == c.s.db.rows || (id in u.db.rows && u.db.rows[id].status == FAILING))
      && (!Waiting(c.s, id) ==> u == c.s)
  {
    RemoveFacts(c.s.queued, id);
  }

  lemma RowsStop(c: Coarse, id: JobId, now: Time, jobs: seq<JobId>, ended: set<Execution>, of: Execution -> Report)
    requires LiveIn(c, jobs) && RowsInv(c, jobs, ended, of)
    ensures RowsInv(Step(c, DoStop(id, now)), jobs, ended, of)
  {
    StopRows(c, id, now);
    QueueStop(c.s, id, now);
  }

  lemma RowsNext(c: Coarse, id: JobId, build: BuildId, now: Time, bid: BuildId, jobs: seq<JobId>,
                 ended: set<Execution>, of: Execution -> Report)
    requires LiveIn(c, jobs) && RowsInv(c, jobs, ended, of) && OnceFor(c, DoNext(id, build, now), bid, jobs)
    ensures RowsInv(Step(c, DoNext(id, build, now)), jobs, ended, of)
  {
    StopRows(c, id, now);
    QueueStop(c.s, id, now);
    AppendFacts(Stop(c.s, id, now).queued, Ticket(id, build, c.clock));
  }

  lemma RowsDispatch(c: Coarse, w: nat, now: Time, jobs: seq<JobId>, ended: set<Execution>, of: Execution -> Report)
    requires LiveIn(c, jobs) && RowsInv(c, jobs, ended, of) && Enabled(c, DoDispatch(w, now))
    ensures RowsInv(Step(c, DoDispatch(w, now)), jobs, ended, of)
  {
    var t := c.s.queued[0];
    HeadLeaves(c.s.queued);
    DispatchFacts(c.s.queued);
    assert Waiting(c.s, t.id);
    assert forall e :: e in ended && e.job.id in jobs ==> e.job.id != t.id;
  }

  lemma FinishPassed(rows: map<JobId, JobRow>, e: Execution, row: JobRow, jobs: seq<JobId>,
                     ended: set<Execution>, of: Execution -> Report)
    requires PassedRows(rows, jobs, ended, of) && row.status == StatusOf(of(e))
    ensures PassedRows(rows[e.job.id := row], jobs, ended + {e}, of)
  {
    var more := ended + {e};
    forall id | id in jobs && id != e.job.id && rows[id].end.Some? && rows[id].status == PASSING
      ensures exists f :: f in more && f.job.id == id && StatusOf(of(f)) == PASSING
    {
      var f :| f in ended && f.job.id == id && StatusOf(of(f)) == PASSING;
      assert f in more;
    }
    assert e in more;
  }

  lemma FinishEnded(c: Coarse, l: Label, jobs: seq<JobId>, ended: set<Execution>, of: Execution -> Report)
    requires LiveIn(c, jobs) && EndedRows(c, jobs, ended, of) && l.DoFinish? && Enabled(c, l) && Honest(l, of)
    ensures EndedRows(Step(c, l), jobs, ended + {l.e}, of)
  {
    assert forall e <- ended :: e.job.id in jobs ==> e.job.id != l.e.job.id;
  }

  lemma RowsFinish(c: Coarse, l: Label, jobs: seq<JobId>, ended: set<Execution>, of: Execution -> Report)
    requires LiveIn(c, jobs) && RowsInv(c, jobs, ended, of) && l.DoFinish? && Enabled(c, l) && Honest(l, of)
    ensures RowsInv(Step(c, l), jobs, ended + {l.e}, of)
  {
    var row := EndedRow(l.e, l.status, l.now);
    assert Step(c, l).s.db.rows == c.s.db.rows[l.e.job.id := row];
    FinishPassed(c.s.db.rows, l.e, row, jobs, ended, of);
    FinishEnded(c, l, jobs, ended, of);
  }

  lemma RowsStep(c: Coarse, l: Label, bid: BuildId, jobs: seq<JobId>, ended: set<Execution>, of: Execution -> Report)
    requires LiveIn(c, jobs) && RowsInv(c, jobs, ended, of)
    requires Enabled(c, l) && OnceFor(c, l, bid, jobs) && Honest(l, of)
    ensures RowsInv(Step(c, l), jobs, ended + EndedBy(l), of)
  {
    assert !l.DoFinish? ==> ended + {} == ended;
    match l
    case DoNext(id, build, now) => RowsNext(c, id, build, now, bid, jobs, ended, of);
    case DoStop(id, now) => RowsStop(c, id, now, jobs, ended, of);
    case DoDispatch(w, now) => RowsDispatch(c, w, now, jobs, ended, of);
    case DoFinish(_, _, _) => RowsFinish(c, l, jobs, ended, of);
    case _ =>
  }

  lemma {:induction false} RowsRun(c: Coarse, ls: seq<Label>, d: Coarse, bid: BuildId, jobs: seq<JobId>,
                                   ended: set<Execution>, of: Execution -> Report)
    requires LiveIn(c, jobs) && RowsInv(c, jobs, ended, of)
    requires Run(c, ls, d) && OnceRun(c, ls, bid, jobs) && HonestRun(ls, of)
    ensures LiveIn(d, jobs) && RowsInv(d, jobs, ended + Finished(ls), of)
    decreases |ls|
  {
    if ls == [] {
      assert ended + {} == ended;
    } else {
      assert ls[0] in ls;
      RowsStep(c, ls[0], bid, jobs, ended, of);
      LiveStep(c, ls[0], jobs);
      RowsRun(Step(c, ls[0]), ls[1..], d, bid, jobs, ended + EndedBy(ls[0]), of);
      assert ended + EndedBy(ls[0]) + Finished(ls[1..]) == ended + Finished(ls);
    }
  }

  ghost predicate AllJobsGreen(jobs: seq<JobId>, ended: set<Execution>, of: Execution -> Report) {
    forall id <- jobs :: exists e :: e in ended && e.job.id == id && Green(of(e))
  }

  ghost predicate AllJobsPassed(jobs: seq<JobId>, ended: set<Execution>, of: Execution -> Report) {
    forall id <- jobs :: exists e :: e in ended && e.job.id == id && StatusOf(of(e)) == PASSING
  }

  lemma PassedAreGreen(jobs: seq<JobId>, ended: set<Execution>, of: Execution -> Report)
    requires forall e <- ended :: Genuine(of(e))
    ensures AllJobsPassed(jobs, ended, of) ==> AllJobsGreen(jobs, ended, of)
    ensures (forall e <- ended :: V.Intact(of(e).h, of(e).stream.end)) && AllJobsGreen(jobs, ended, of) ==>
              AllJobsPassed(jobs, ended, of)
  {
    forall e | e in ended
      ensures StatusOf(of(e)) == PASSING ==> Green(of(e))
      ensures V.Intact(of(e).h, of(e).stream.end) && Green(of(e)) ==> StatusOf(of(e)) == PASSING
    {
      PassingMeansGreen(of(e));
    }
  }

  // All rows pass exactly if every job has an ended execution that passed.
  lemma AllPassingIff(c: Coarse, jobs: seq<JobId>, ended: set<Execution>, of: Execution -> Report)
    requires RowsInv(c, jobs, ended, of) && R.B.AllEnded(JobRows(jobs, c.s.db.rows))
    ensures R.B.AllPassing(JobRows(jobs, c.s.db.rows)) <==> AllJobsPassed(jobs, ended, of)
  {
    var rows := JobRows(jobs, c.s.db.rows);
    JobRowsAt(jobs, c.s.db.rows);
    forall k | 0 <= k < |jobs|
      ensures rows[k].status == PASSING <==>
              exists e :: e in ended && e.job.id == jobs[k] && StatusOf(of(e)) == PASSING
    {
      assert rows[k] in rows && jobs[k] in jobs;
    }
    if AllJobsPassed(jobs, ended, of) {
      forall r | r in rows ensures r.status == PASSING {
        var k :| 0 <= k < |rows| && rows[k] == r;
        assert jobs[k] in jobs;
      }
    }
    if R.B.AllPassing(rows) {
      forall id | id in jobs ensures exists e :: e in ended && e.job.id == id && StatusOf(of(e)) == PASSING {
        var k :| 0 <= k < |jobs| && jobs[k] == id;
        assert rows[k] in rows;
      }
    }
  }

  lemma RowsAtEnd(c: Coarse, ls: seq<Label>, d: Coarse, l: Label, bid: BuildId, jobs: seq<JobId>,
                  of: Execution -> Report)
    requires LiveIn(c, jobs) && forall id <- jobs :: id in c.s.db.rows && c.s.db.rows[id].end == None
    requires Run(c, ls, d) && OnceRun(c, ls, bid, jobs) && HonestRun(ls, of)
    requires Enabled(d, l) && OnceFor(d, l, bid, jobs) && Honest(l, of)
    ensures RowsInv(Step(d, l), jobs, Finished(ls) + EndedBy(l), of)
  {
    RowsRun(c, ls, d, bid, jobs, {}, of);
    assert {} + Finished(ls) == Finished(ls);
    RowsStep(d, l, bid, jobs, Finished(ls), of);
  }

  lemma AllEndedAtEnd(c: Coarse, ls: seq<Label>, d: Coarse, l: Label, bid: BuildId, jobs: seq<JobId>)
    requires LiveIn(c, jobs) && EndIn(c, jobs) && BuildInv(c, bid, jobs)
    requires Run(c, ls, d) && OnceRun(c, ls, bid, jobs)
    requires Enabled(d, l) && OnceFor(d, l, bid, jobs)
    requires bid in Step(d, l).s.db.builds && R.Ended(Step(d, l), bid)
    ensures R.B.AllEnded(JobRows(jobs, Step(d, l).s.db.rows))
  {
    BuildRun(c, ls, d, bid, jobs);
    BuildStep(d, l, bid, jobs);
  }

  /** Coarse steps, on a clock that does not go back, from a state in which none of the build's
      jobs has ended, each of them given to Next once, whatever happens to other jobs.  The step
      that ends the last job reports success only if every job of the build had an execution
      whose container came up and whose commands, hooks aside, all ran and exited 0, whatever was
      stopped, timed out or lost; and if no stream was cut short, it reports success in exactly
      that case. */
  lemma SuccessMeansAllGreen(c: Coarse, ls: seq<Label>, d: Coarse, l: Label, bid: BuildId, jobs: seq<JobId>,
                             time: Time, of: Execution -> Report)
    requires LiveIn(c, jobs) && EndIn(c, jobs) && BuildInv(c, bid, jobs) && R.PastInv(c, bid, jobs, time)
    requires forall id <- jobs :: c.s.db.rows[id].end == None
    requires Run(c, ls, d) && OnceRun(c, ls, bid, jobs) && R.OnTime(ls, time)
    requires Enabled(d, l) && OnceFor(d, l, bid, jobs) && R.OnTime([l], R.Clock(ls, time))
    requires HonestRun(ls, of) && Honest(l, of)
    requires bid in d.s.db.builds && !R.Ended(d, bid) && bid in Step(d, l).s.db.builds && R.Ended(Step(d, l), bid)
    ensures var sent, ended := Step(d, l).s.db.builds[bid].sent, Finished(ls) + EndedBy(l);
      && |sent| == 1
      && (sent[0] ==> AllJobsGreen(jobs, ended, of))
      && ((forall e <- ended :: V.Intact(of(e).h, of(e).stream.end)) ==> (sent[0] <==> AllJobsGreen(jobs, ended, of)))
  {
    var v, ended := Step(d, l), Finished(ls) + EndedBy(l);
    R.EndOfBuild(c, ls, d, l, bid, jobs, time);
    RowsAtEnd(c, ls, d, l, bid, jobs, of);
    AllEndedAtEnd(c, ls, d, l, bid, jobs);
    AllPassingIff(v, jobs, ended, of);
    forall e | e in ended ensures Genuine(of(e)) {
      FinishedHonest(ls, of, e);
    }
    PassedAreGreen(jobs, ended, of);
  }

  lemma {:induction false} FinishedHonest(ls: seq<Label>, of: Execution -> Report, e: Execution)
    requires HonestRun(ls, of)
    ensures e in Finished(ls) ==> Genuine(of(e))
    decreases |ls|
  {
    if ls != [] {
      assert ls[0] in ls;
      FinishedHonest(ls[1..], of, e);
    }
  }
}
