/** What the stored rows of a build's jobs say, read off the labels of a coarse run: which calls
    were made for a job, when it was dispatched, when its execution ended and how. */
module RowHistory {
  import opened Types
  import opened SchedulerSpec
  import opened StopRecord
  import R = BuildRuns
  import B = BuildTimes

  datatype Story = Story(status: string, start: Option<Time>, end: Option<Time>)

  /** What a step tells of job id.  Only Next and a dispatch write the start; a stop and the end
      of an execution leave it as it was. */
  function Tell(s: State, l: Label, id: JobId, so: Story): Story {
    match l
    case DoNext(x, _, _) => if x == id then Story("queued", None, None) else so
    case DoStop(x, now) => if x == id && Waiting(s, id) then Story("failing", so.start, Some(now)) else so
    case DoDispatch(_, now) => if Sends(s, l, id) then Story("running", Some(now), None) else so
    case DoFinish(e, status, now) => if e.job.id == id then Story(status, so.start, Some(now)) else so
    case _ => so
  }

  // The step dispatches job id.
  predicate Sends(s: State, l: Label, id: JobId) { l.DoDispatch? && s.queued != [] && s.queued[0].id == id }

  function TellAll(s: State, l: Label, so: map<JobId, Story>): map<JobId, Story> {
    map id | id in so :: Tell(s, l, id, so[id])
  }

  function Stories(c: Coarse, ls: seq<Label>, so: map<JobId, Story>): map<JobId, Story>
    decreases |ls|
  {
    if ls == [] || !Enabled(c, ls[0]) then so
    else Stories(Step(c, ls[0]), ls[1..], TellAll(c.s, ls[0], so))
  }

  /** Which jobs the DoDispatch labels of a run dispatch, and the time on the label. */
  function Dispatchings(c: Coarse, ls: seq<Label>): set<(JobId, Time)>
    decreases |ls|
  {
    if ls == [] || !Enabled(c, ls[0]) then {}
    else Sent(c, ls[0]) + Dispatchings(Step(c, ls[0]), ls[1..])
  }

  function Sent(c: Coarse, l: Label): set<(JobId, Time)> {
    if l.DoDispatch? && c.s.queued != [] then {(c.s.queued[0].id, l.now)} else {}
  }

  predicate Says(row: JobRow, st: Story) { row.status == st.status && row.start == st.start && row.end == st.end }

  /** No execution of the jobs is live and none of them has a start yet. */
  ghost predicate Unstarted(c: Coarse, jobs: seq<JobId>) {
    && (forall id <- jobs :: id in c.s.db.rows && c.s.db.rows[id].start == None)
    && (forall e <- c.live :: e.job.id !in jobs)
  }

  function Stored(c: Coarse, jobs: seq<JobId>): map<JobId, Story> {
    map id | id in jobs && id in c.s.db.rows ::
      var row := c.s.db.rows[id]; Story(row.status, row.start, row.end)
  }

  ghost predicate Agrees(c: Coarse, jobs: seq<JobId>, so: map<JobId, Story>, sent: set<(JobId, Time)>) {
    && (forall id <- jobs :: id in so && id in c.s.db.rows && Says(c.s.db.rows[id], so[id]))
    && (forall e <- c.live :: e.job.id in jobs ==> so[e.job.id].start == Some(e.started))
    && (forall id <- jobs :: so[id].start.Some? ==> id in c.known && !InQueue(c.s.queued, id))
    && (forall id <- jobs :: forall t :: (id, t) in sent <==> so[id].start == Some(t))
  }

  lemma AgreesNext(c: Coarse, l: Label, bid: BuildId, jobs: seq<JobId>, so: map<JobId, Story>, sent: set<(JobId, Time)>)
    requires LiveIn(c, jobs) && Agrees(c, jobs, so, sent) && OnceFor(c, l, bid, jobs) && l.DoNext?
    ensures Agrees(Step(c, l), jobs, TellAll(c.s, l, so), sent)
  {
    QueueStop(c.s, l.id, l.now);
    AppendFacts(Stop(c.s, l.id, l.now).queued, Ticket(l.id, l.build, c.clock));
  }

  lemma AgreesStop(c: Coarse, l: Label, jobs: seq<JobId>, so: map<JobId, Story>, sent: set<(JobId, Time)>)
    requires LiveIn(c, jobs) && Agrees(c, jobs, so, sent) && l.DoStop?
    ensures Agrees(Step(c, l), jobs, TellAll(c.s, l, so), sent)
  {
    RemoveFacts(c.s.queued, l.id);
    QueueStop(c.s, l.id, l.now);
  }

  // The dispatched job had no start and no live execution.
  lemma HeadUnstarted(c: Coarse, jobs: seq<JobId>, so: map<JobId, Story>, sent: set<(JobId, Time)>)
    requires LiveIn(c, jobs) && Agrees(c, jobs, so, sent) && c.s.queued != []
    ensures var id := c.s.queued[0].id;
      && (id in jobs ==> id in c.known && so[id].start == None)
      && (forall e <- c.live :: e.job.id in jobs ==> e.job.id != id)
      && RemoveFirst(c.s.queued[1..], id) == c.s.queued[1..] && !InQueue(c.s.queued[1..], id)
      && (forall x :: InQueue(c.s.queued[1..], x) ==> InQueue(c.s.queued, x))
  {
    HeadLeaves(c.s.queued);
    DispatchFacts(c.s.queued);
    assert Waiting(c.s, c.s.queued[0].id);
  }

  lemma AgreesDispatch(c: Coarse, l: Label, jobs: seq<JobId>, so: map<JobId, Story>, sent: set<(JobId, Time)>)
    requires LiveIn(c, jobs) && Agrees(c, jobs, so, sent) && l.DoDispatch? && Enabled(c, l)
    ensures Agrees(Step(c, l), jobs, TellAll(c.s, l, so), sent + Sent(c, l))
  {
    HeadUnstarted(c, jobs, so, sent);
  }

  lemma AgreesStep(c: Coarse, l: Label, bid: BuildId, jobs: seq<JobId>, so: map<JobId, Story>, sent: set<(JobId, Time)>)
    requires LiveIn(c, jobs) && Agrees(c, jobs, so, sent) && Enabled(c, l) && OnceFor(c, l, bid, jobs)
    ensures Agrees(Step(c, l), jobs, TellAll(c.s, l, so), sent + Sent(c, l))
  {
    assert !l.DoDispatch? ==> sent + Sent(c, l) == sent;
    match l
    case DoNext(_, _, _) => AgreesNext(c, l, bid, jobs, so, sent);
    case DoStop(_, _) => AgreesStop(c, l, jobs, so, sent);
    case DoDispatch(_, _) => AgreesDispatch(c, l, jobs, so, sent);
    case _ =>
  }

  lemma {:induction false} AgreesRun(c: Coarse, ls: seq<Label>, d: Coarse, bid: BuildId, jobs: seq<JobId>,
                                     so: map<JobId, Story>, sent: set<(JobId, Time)>)
    requires LiveIn(c, jobs) && Agrees(c, jobs, so, sent)
    requires Run(c, ls, d) && OnceRun(c, ls, bid, jobs)
    ensures LiveIn(d, jobs) && Agrees(d, jobs, Stories(c, ls, so), sent + Dispatchings(c, ls))
    decreases |ls|
  {
    if ls == [] {
      assert sent + {} == sent;
    } else {
      AgreesStep(c, ls[0], bid, jobs, so, sent);
      LiveStep(c, ls[0], jobs);
      AgreesRun(Step(c, ls[0]), ls[1..], d, bid, jobs, TellAll(c.s, ls[0], so), sent + Sent(c, ls[0]));
      assert sent + Sent(c, ls[0]) + Dispatchings(Step(c, ls[0]), ls[1..]) == sent + Dispatchings(c, ls);
    }
  }

  lemma FromUnstarted(c: Coarse, ls: seq<Label>, d: Coarse, bid: BuildId, jobs: seq<JobId>)
    requires LiveIn(c, jobs) && Unstarted(c, jobs) && Run(c, ls, d) && OnceRun(c, ls, bid, jobs)
    ensures LiveIn(d, jobs) && Agrees(d, jobs, Stories(c, ls, Stored(c, jobs)), Dispatchings(c, ls))
  {
    AgreesRun(c, ls, d, bid, jobs, Stored(c, jobs), {});
    assert {} + Dispatchings(c, ls) == Dispatchings(c, ls);
  }

  /** Coarse steps.  On a run that gives each of the jobs to Next once, whatever happens to
      others, each row says what the labels tell: status and end come from the last call, stop or
      end of an execution, and the start is the time on the DoDispatch label that dispatched the
      job.  A job that was never dispatched, stopped in the queue or not, has none. */
  lemma RowsAreTold(c: Coarse, ls: seq<Label>, d: Coarse, bid: BuildId, jobs: seq<JobId>)
    requires LiveIn(c, jobs) && Unstarted(c, jobs)
    requires Run(c, ls, d) && OnceRun(c, ls, bid, jobs)
    ensures var told := Stories(c, ls, Stored(c, jobs));
      forall id <- jobs :: id in told && id in d.s.db.rows && Says(d.s.db.rows[id], told[id])
    ensures forall id <- jobs :: forall t ::
      (id, t) in Dispatchings(c, ls) <==> id in d.s.db.rows && d.s.db.rows[id].start == Some(t)
  {
    FromUnstarted(c, ls, d, bid, jobs);
  }

  /** Coarse steps, on a clock that does not go back.  The step that ends the last job leaves as
      the build's start the least time on the DoDispatch labels that dispatched its jobs, or what
      it was where none was dispatched. */
  lemma StartOfBuild(c: Coarse, ls: seq<Label>, d: Coarse, l: Label, bid: BuildId, jobs: seq<JobId>, time: Time)
    requires LiveIn(c, jobs) && EndIn(c, jobs) && BuildInv(c, bid, jobs) && R.PastInv(c, bid, jobs, time)
    requires Unstarted(c, jobs)
    requires Run(c, ls, d) && OnceRun(c, ls, bid, jobs) && R.OnTime(ls, time)
    requires Enabled(d, l) && OnceFor(d, l, bid, jobs) && R.OnTime([l], R.Clock(ls, time))
    requires bid in d.s.db.builds && !R.Ended(d, bid) && bid in Step(d, l).s.db.builds && R.Ended(Step(d, l), bid)
    ensures var b, sent := Step(d, l).s.db.builds[bid], Dispatchings(c, ls);
      && (forall p <- sent :: p.0 in jobs ==> b.start.Some? && b.start.value <= p.1)
      && if exists p :: p in sent && p.0 in jobs
         then exists p :: p in sent && p.0 in jobs && b.start == Some(p.1)
         else b.start == d.s.db.builds[bid].start
  {
    R.EndOfBuild(c, ls, d, l, bid, jobs, time);
    AtTheEnd(c, ls, d, l, bid, jobs);
    LeastStart(jobs, Step(d, l).s.db.rows, Dispatchings(c, ls));
  }

  // The earliest start of rows that say when their jobs were sent.
  lemma LeastStart(jobs: seq<JobId>, rows: map<JobId, JobRow>, sent: set<(JobId, Time)>)
    requires forall id <- jobs :: id in rows && forall t :: (id, t) in sent <==> rows[id].start == Some(t)
    ensures var first := B.Earliest(JobRows(jobs, rows));
      && (forall p <- sent :: p.0 in jobs ==> first.Some? && first.value <= p.1)
      && (first.Some? ==> exists p :: p in sent && p.0 in jobs && first == Some(p.1))
  {
    var all := JobRows(jobs, rows);
    JobRowsAt(jobs, rows);
    B.EarliestIsMin(all);
    forall p | p in sent && p.0 in jobs
      ensures B.Earliest(all).Some? && B.Earliest(all).value <= p.1
    {
      var k :| 0 <= k < |jobs| && jobs[k] == p.0;
      assert (p.0, p.1) in sent && all[k] in all;
    }
    if B.Earliest(all).Some? {
      var r :| r in all && r.start == B.Earliest(all);
      var k :| 0 <= k < |all| && all[k] == r;
      assert jobs[k] in jobs && (jobs[k], r.start.value) in sent;
    }
  }

  // The last step dispatches none of the jobs, so it leaves their starts as they were.
  lemma AtTheEnd(c: Coarse, ls: seq<Label>, d: Coarse, l: Label, bid: BuildId, jobs: seq<JobId>)
    requires LiveIn(c, jobs) && EndIn(c, jobs) && BuildInv(c, bid, jobs) && Unstarted(c, jobs)
    requires Run(c, ls, d) && OnceRun(c, ls, bid, jobs) && Enabled(d, l) && OnceFor(d, l, bid, jobs)
    requires bid in Step(d, l).s.db.builds && R.Ended(Step(d, l), bid)
    ensures var v := Step(d, l);
      forall id <- jobs :: id in v.s.db.rows && forall t ::
        (id, t) in Dispatchings(c, ls) <==> v.s.db.rows[id].start == Some(t)
  {
    FromUnstarted(c, ls, d, bid, jobs);
    BuildRun(c, ls, d, bid, jobs);
    if l.DoDispatch? && d.s.queued[0].id in jobs {
      DispatchLeavesOpen(d, l, bid, jobs);
    }
    StartsStay(d, l, bid, jobs, Stories(c, ls, Stored(c, jobs)), Dispatchings(c, ls));
  }

  lemma StartsStay(d: Coarse, l: Label, bid: BuildId, jobs: seq<JobId>, so: map<JobId, Story>, sent: set<(JobId, Time)>)
    requires LiveIn(d, jobs) && Agrees(d, jobs, so, sent) && Enabled(d, l) && OnceFor(d, l, bid, jobs)
    requires l.DoDispatch? ==> d.s.queued[0].id !in jobs
    ensures var v := Step(d, l);
      forall id <- jobs :: id in v.s.db.rows && forall t ::
        (id, t) in sent <==> v.s.db.rows[id].start == Some(t)
  {
    AgreesStep(d, l, bid, jobs, so, sent);
    var rows, told := Step(d, l).s.db.rows, TellAll(d.s, l, so);
    forall id, t | id in jobs ensures (id, t) in sent <==> rows[id].start == Some(t) {
      assert (id, t) in sent <==> (id, t) in sent + Sent(d, l);
      assert rows[id].start == told[id].start;
    }
  }

  lemma DispatchLeavesOpen(d: Coarse, l: Label, bid: BuildId, jobs: seq<JobId>)
    requires LiveIn(d, jobs) && EndIn(d, jobs) && BuildInv(d, bid, jobs)
    requires l.DoDispatch? && Enabled(d, l) && d.s.queued[0].id in jobs
    ensures bid in Step(d, l).s.db.builds && !R.Ended(Step(d, l), bid)
  {
    BuildStep(d, l, bid, jobs);
    NotAllEnded(Step(d, l).s.db, jobs, d.s.queued[0].id, bid);
  }
}
