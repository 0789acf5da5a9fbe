/** The scheduler on values, at coarse granularity: Next, Stop, the dispatch prefix
    (process, then startJob up to the pending entry) and the end of an execution are
    one step each, as are workers that connect and disconnect. */
module SchedulerSpec {
  import opened Types
  import opened BuildTimes

  /** A pending entry: the job object, the worker it was sent to, when it started. */
  datatype Execution = Execution(job: Ticket, worker: WorkerId, started: Time)

  datatype Db = Db(rows: map<JobId, JobRow>, builds: map<BuildId, Build>)

  datatype State = State(queued: seq<Ticket>, pending: map<JobId, Execution>, db: Db)

  /** The rows of a build's jobs, in the build's order. */
  function JobRows(jobs: seq<JobId>, rows: map<JobId, JobRow>): seq<JobRow> {
    if jobs == [] then []
    else (if jobs[0] in rows then [rows[jobs[0]]] else []) + JobRows(jobs[1..], rows)
  }

  function TouchBuild(db: Db, bid: BuildId): Db {
    if bid in db.builds
    then db.(builds := db.builds[bid := Aggregate(db.builds[bid], JobRows(db.builds[bid].jobs, db.rows))])
    else db
  }

  function SaveJob(db: Db, id: JobId, row: JobRow): Db {
    TouchBuild(db.(rows := db.rows[id := row]), row.build)
  }

  // The four rows the scheduler writes.
  function QueuedRow(t: Ticket): JobRow { JobRow(t.build, QUEUED, None, None) }
  function RunningRow(t: Ticket, now: Time): JobRow { JobRow(t.build, RUNNING, Some(now), None) }
  function DroppedRow(t: Ticket, now: Time): JobRow { JobRow(t.build, FAILING, None, Some(now)) }
  function EndedRow(e: Execution, status: string, now: Time): JobRow {
    JobRow(e.job.build, status, Some(e.started), Some(now))
  }

  function Stop(s: State, id: JobId, now: Time): State {
    match FirstTicket(s.queued, id)
    case Some(t) => State(RemoveFirst(s.queued, id), s.pending, SaveJob(s.db, id, DroppedRow(t, now)))
    case None =>
      if id in s.pending
      then State(s.queued, s.pending - {id}, SaveJob(s.db, id, EndedRow(s.pending[id], FAILING, now)))
      else s
  }

  function Next(s: State, t: Ticket, now: Time): State {
    var u := Stop(s, t.id, now);
    State(u.queued + [t], u.pending, SaveJob(u.db, t.id, QueuedRow(t)))
  }

  function Dispatch(s: State, worker: WorkerId, now: Time): State
    requires s.queued != []
  {
    var t := s.queued[0];
    State(RemoveFirst(s.queued[1..], t.id), s.pending[t.id := Execution(t, worker, now)],
          SaveJob(s.db, t.id, RunningRow(t, now)))
  }

  function Finish(s: State, e: Execution, status: string, now: Time): State {
    State(s.queued, s.pending - {e.job.id}, SaveJob(s.db, e.job.id, EndedRow(e, status, now)))
  }

  // ---- Membership in the queue ----

  predicate Distinct(q: seq<Ticket>) {
    forall i, j :: 0 <= i < j < |q| ==> q[i].id != q[j].id
  }

  predicate InQueue(q: seq<Ticket>, id: JobId) { exists i :: 0 <= i < |q| && q[i].id == id }

  lemma TicketQueued(q: seq<Ticket>)
    ensures forall t :: t in q ==> InQueue(q, t.id)
  {
    forall t | t in q ensures InQueue(q, t.id) {
      var i :| 0 <= i < |q| && q[i] == t;
    }
  }

  // Cutting out position k of a queue with distinct ids.
  lemma CutFacts(q: seq<Ticket>, k: nat)
    requires Distinct(q) && k < |q|
    ensures var r := q[..k] + q[k + 1..];
      && Distinct(r)
      && (forall t :: t in r ==> t in q)
      && (forall x :: InQueue(r, x) <==> InQueue(q, x) && x != q[k].id)
  {
    var r := q[..k] + q[k + 1..];
    forall i | 0 <= i < |r| ensures r[i] == (if i < k then q[i] else q[i + 1]) {}
    forall x ensures InQueue(r, x) <==> InQueue(q, x) && x != q[k].id {
      if InQueue(r, x) {
        var i :| 0 <= i < |r| && r[i].id == x;
        assert q[if i < k then i else i + 1].id == x;
      }
      if InQueue(q, x) && x != q[k].id {
        var i :| 0 <= i < |q| && q[i].id == x;
        assert r[if i < k then i else i - 1].id == x;
      }
    }
  }

  lemma RemoveFacts(q: seq<Ticket>, id: JobId)
    requires Distinct(q)
    ensures Distinct(RemoveFirst(q, id))
    ensures FirstTicket(q, id).Some? <==> InQueue(q, id)
    ensures FirstTicket(q, id).Some? ==> FirstTicket(q, id).value in q && FirstTicket(q, id).value.id == id
    ensures forall x :: InQueue(RemoveFirst(q, id), x) <==> InQueue(q, x) && x != id
    ensures forall t :: t in RemoveFirst(q, id) ==> t in q
  {
    var k := FindFirst(q, id);
    if k < |q| { CutFacts(q, k); }
  }

  // ---- Queue discipline ----

  datatype Label =
    | DoNext(id: JobId, build: BuildId, now: Time)
    | DoStop(id: JobId, now: Time)
    | DoDispatch(w: nat, now: Time)
    | DoFinish(e: Execution, status: string, now: Time)
    | DoTouch(bid: BuildId)
    | DoConnect(name: WorkerId, max: int)
    | DoDisconnect(w: nat)

  /** The worker objects and their ids. */
  datatype Crew = Crew(pool: Pool, names: seq<WorkerId>)

  /** live holds the executions whose startJob has not returned, each with its worker object;
      known the jobs ever given to Next. */
  datatype Coarse = Coarse(s: State, live: map<Execution, nat>, known: set<JobId>, clock: nat, crew: Crew)

  predicate Enabled(c: Coarse, l: Label) {
    match l
    case DoDispatch(w, _) => c.s.queued != [] && MostFreeIn(c.crew.pool, w) && w < |c.crew.names|
    case DoFinish(e, _, _) => e in c.live && c.live[e] < |c.crew.pool.workers|
    case DoDisconnect(w) => w in c.crew.pool.listed
    case _ => true
  }

  function Step(c: Coarse, l: Label): Coarse
    requires Enabled(c, l)
  {
    match l
    case DoNext(id, build, now) =>
      c.(s := Next(c.s, Ticket(id, build, c.clock), now), known := c.known + {id}, clock := c.clock + 1)
    case DoStop(id, now) => c.(s := Stop(c.s, id, now))
    case DoDispatch(w, now) =>
      var id := c.crew.names[w];
      c.(s := Dispatch(c.s, id, now), live := c.live[Execution(c.s.queued[0], id, now) := w],
         crew := c.crew.(pool := Bump(c.crew.pool, w, 1)))
    case DoFinish(e, status, now) =>
      c.(s := Finish(c.s, e, status, now), live := c.live - {e},
         crew := c.crew.(pool := Bump(c.crew.pool, c.live[e], -1)))
    case DoTouch(bid) => c.(s := c.s.(db := TouchBuild(c.s.db, bid)))
    case DoConnect(name, max) => c.(crew := Crew(Connected(c.crew.pool, max), c.crew.names + [name]))
    case DoDisconnect(w) => c.(crew := c.crew.(pool := c.crew.pool.(listed := c.crew.pool.listed - {w})))
  }

  predicate Run(c: Coarse, ls: seq<Label>, d: Coarse)
    decreases |ls|
  {
    if ls == [] then c == d else Enabled(c, ls[0]) && Run(Step(c, ls[0]), ls[1..], d)
  }

  /** A job among the given ones is queued again only after its previous startJob returned. */
  predicate Polite(c: Coarse, l: Label, jobs: seq<JobId>) {
    l.DoNext? && l.id in jobs ==> forall e :: e in c.live ==> e.job.id != l.id
  }

  predicate PoliteRun(c: Coarse, ls: seq<Label>, jobs: seq<JobId>)
    decreases |ls|
  {
    ls == [] || (Enabled(c, ls[0]) && Polite(c, ls[0], jobs) && PoliteRun(Step(c, ls[0]), ls[1..], jobs))
  }

  predicate QueueInv(s: State) {
    Distinct(s.queued) && forall i :: 0 <= i < |s.queued| ==> s.queued[i].id !in s.pending
  }

  lemma QueueStop(s: State, id: JobId, now: Time)
    requires QueueInv(s)
    ensures var t := Stop(s, id, now);
      && QueueInv(t)
      && (forall x :: InQueue(t.queued, x) <==> InQueue(s.queued, x) && x != id)
      && (forall x :: x in t.pending <==> x in s.pending && x != id)
      && (forall x :: x in t.pending ==> t.pending[x] == s.pending[x])
  {
    RemoveFacts(s.queued, id);
    var t := Stop(s, id, now);
    forall i | 0 <= i < |t.queued| ensures t.queued[i].id !in t.pending {
      assert t.queued[i] in s.queued;
    }
  }

  lemma QueueStep(c: Coarse, l: Label)
    requires QueueInv(c.s) && Enabled(c, l)
    ensures QueueInv(Step(c, l).s)
  {
    var s, t := c.s, Step(c, l).s;
    match l
    case DoNext(id, build, now) =>
      QueueStop(s, id, now);
      var u := Stop(s, id, now);
      forall i | 0 <= i < |u.queued| ensures u.queued[i].id != id { assert InQueue(u.queued, u.queued[i].id); }
      assert t.queued == u.queued + [Ticket(id, build, c.clock)];
    case DoStop(id, now) => QueueStop(s, id, now);
    case DoDispatch(_, _) => HeadLeaves(s.queued);
    case DoFinish(_, _, _) =>
    case _ =>
  }

  // With distinct ids, line 279 finds nothing left to remove.
  lemma HeadLeaves(q: seq<Ticket>)
    requires Distinct(q) && q != []
    ensures RemoveFirst(q[1..], q[0].id) == q[1..] && Distinct(q[1..]) && !InQueue(q[1..], q[0].id)
  {
    var k := FindFirst(q[1..], q[0].id);
  }

  /** Coarse steps.  Every reachable queue has distinct ids, none of them pending. */
  lemma {:induction false} QueueDiscipline(c: Coarse, ls: seq<Label>, d: Coarse)
    requires QueueInv(c.s) && Run(c, ls, d)
    ensures QueueInv(d.s)
    decreases |ls|
  {
    if ls != [] {
      QueueStep(c, ls[0]);
      QueueDiscipline(Step(c, ls[0]), ls[1..], d);
    }
  }

  // ---- Who runs a job ----

  /** Every worker object has its id, and an execution knows the id of the one whose slot it took. */
  predicate Manned(c: Coarse) {
    && |c.crew.names| == |c.crew.pool.workers|
    && forall e <- c.live :: c.live[e] < |c.crew.names| && e.worker == c.crew.names[c.live[e]]
  }

  // The ids with which workers connected.
  function Names(ls: seq<Label>): seq<WorkerId>
    decreases |ls|
  {
    if ls == [] then []
    else (match ls[0] case DoConnect(name, _) => [name] case _ => []) + Names(ls[1..])
  }

  lemma MannedStep(c: Coarse, l: Label)
    requires Manned(c) && Enabled(c, l)
    ensures Manned(Step(c, l))
    ensures Step(c, l).crew.names == c.crew.names + match l case DoConnect(name, _) => [name] case _ => []
  {
  }

  /** Coarse steps.  On every run the ids are those with which workers connected, in order, and
      every live execution carries the id of its worker object. */
  lemma {:induction false} MannedRun(c: Coarse, ls: seq<Label>, d: Coarse)
    requires Manned(c) && Run(c, ls, d)
    ensures Manned(d) && d.crew.names == c.crew.names + Names(ls)
    decreases |ls|
  {
    if ls != [] {
      MannedStep(c, ls[0]);
      MannedRun(Step(c, ls[0]), ls[1..], d);
    }
  }

  // ---- The stored end time tells who is waiting or running ----

  predicate Waiting(s: State, id: JobId) { InQueue(s.queued, id) || id in s.pending }

  /** A pending entry is a live execution of its job, on every run. */
  ghost predicate PendingLive(c: Coarse) {
    && QueueInv(c.s)
    && (forall id :: id in c.s.pending ==> c.s.pending[id].job.id == id && c.s.pending[id] in c.live)
  }

  /** Each of the given jobs has at most one live execution, and none while it is queued. */
  ghost predicate LiveIn(c: Coarse, jobs: seq<JobId>) {
    && PendingLive(c)
    && (forall e :: e in c.live && e.job.id in jobs ==> !InQueue(c.s.queued, e.job.id) && e.job.id in c.known)
    && (forall e, f :: e in c.live && f in c.live && e.job.id == f.job.id && e.job.id in jobs ==> e == f)
    && (forall id :: id in jobs && Waiting(c.s, id) ==> id in c.known)
  }

  predicate EndIn(c: Coarse, jobs: seq<JobId>) {
    forall id :: id in jobs && id in c.known ==>
      id in c.s.db.rows && (c.s.db.rows[id].end == None <==> Waiting(c.s, id))
  }

  lemma PendingStep(c: Coarse, l: Label)
    requires PendingLive(c) && Enabled(c, l)
    ensures PendingLive(Step(c, l))
  {
    QueueStep(c, l);
    if l.DoNext? || l.DoStop? {
      QueueStop(c.s, l.id, l.now);
    }
  }

  lemma LiveNext(c: Coarse, id: JobId, build: BuildId, now: Time, jobs: seq<JobId>)
    requires LiveIn(c, jobs) && Polite(c, DoNext(id, build, now), jobs)
    ensures LiveIn(Step(c, DoNext(id, build, now)), jobs)
  {
    PendingStep(c, DoNext(id, build, now));
    QueueStop(c.s, id, now);
    AppendFacts(Stop(c.s, id, now).queued, Ticket(id, build, c.clock));
  }

  lemma LiveDispatch(c: Coarse, w: nat, now: Time, jobs: seq<JobId>)
    requires LiveIn(c, jobs) && Enabled(c, DoDispatch(w, now))
    ensures LiveIn(Step(c, DoDispatch(w, now)), jobs)
  {
    var t, d := c.s.queued[0], Step(c, DoDispatch(w, now));
    var e := Execution(t, c.crew.names[w], now);
    PendingStep(c, DoDispatch(w, now));
    HeadLeaves(c.s.queued);
    DispatchFacts(c.s.queued);
    assert Waiting(c.s, t.id);
    forall f | f in c.live && f.job.id in jobs ensures f.job.id != t.id {
      assert !InQueue(c.s.queued, f.job.id);
    }
    assert d.s.queued == c.s.queued[1..] && d.s.pending == c.s.pending[t.id := e];
    assert d.live.Keys == c.live.Keys + {e};
  }

  lemma LiveStep(c: Coarse, l: Label, jobs: seq<JobId>)
    requires LiveIn(c, jobs) && Enabled(c, l) && Polite(c, l, jobs)
    ensures LiveIn(Step(c, l), jobs)
  {
    match l
    case DoNext(id, build, now) => LiveNext(c, id, build, now, jobs);
    case DoStop(id, now) =>
      PendingStep(c, l);
      QueueStop(c.s, id, now);
    case DoDispatch(w, now) => LiveDispatch(c, w, now, jobs);
    case _ => PendingStep(c, l);
  }

  lemma AppendFacts(q: seq<Ticket>, t: Ticket)
    ensures forall x :: InQueue(q + [t], x) <==> InQueue(q, x) || x == t.id
  {
    forall x ensures InQueue(q + [t], x) <==> InQueue(q, x) || x == t.id {
      if InQueue(q, x) {
        var i :| 0 <= i < |q| && q[i].id == x;
        assert (q + [t])[i].id == x;
      }
      assert (q + [t])[|q|] == t;
    }
  }

  lemma DispatchFacts(q: seq<Ticket>)
    requires q != []
    ensures forall x :: InQueue(q, x) <==> InQueue(q[1..], x) || x == q[0].id
  {
    assert q == [q[0]] + q[1..];
    forall x ensures InQueue(q, x) <==> InQueue(q[1..], x) || x == q[0].id {
      if InQueue(q[1..], x) {
        var i :| 0 <= i < |q[1..]| && q[1..][i].id == x;
        assert q[i + 1].id == x;
      }
    }
  }

  lemma EndNext(c: Coarse, id: JobId, build: BuildId, now: Time, jobs: seq<JobId>)
    requires LiveIn(c, jobs) && EndIn(c, jobs)
    ensures EndIn(Step(c, DoNext(id, build, now)), jobs)
  {
    QueueStop(c.s, id, now);
    AppendFacts(Stop(c.s, id, now).queued, Ticket(id, build, c.clock));
  }

  lemma EndDispatch(c: Coarse, w: nat, now: Time, jobs: seq<JobId>)
    requires LiveIn(c, jobs) && EndIn(c, jobs) && Enabled(c, DoDispatch(w, now))
    ensures EndIn(Step(c, DoDispatch(w, now)), jobs)
  {
    HeadLeaves(c.s.queued);
    DispatchFacts(c.s.queued);
  }

  lemma EndStep(c: Coarse, l: Label, jobs: seq<JobId>)
    requires LiveIn(c, jobs) && EndIn(c, jobs) && Enabled(c, l)
    ensures EndIn(Step(c, l), jobs)
  {
    match l
    case DoNext(id, build, now) => EndNext(c, id, build, now, jobs);
    case DoStop(id, now) =>
      RemoveFacts(c.s.queued, id);
      QueueStop(c.s, id, now);
    case DoDispatch(w, now) => EndDispatch(c, w, now, jobs);
    case _ =>
  }

  /** Coarse steps.  For any of the jobs, whatever happens to others: if each of these is
      re-queued only after its previous startJob returned, then each of them that was ever given
      to Next has no stored end time exactly while it is queued or pending. */
  lemma {:induction false} EndTimeIsExact(c: Coarse, ls: seq<Label>, d: Coarse, jobs: seq<JobId>)
    requires LiveIn(c, jobs) && EndIn(c, jobs) && Run(c, ls, d) && PoliteRun(c, ls, jobs)
    ensures LiveIn(d, jobs)
    ensures forall id :: id in jobs && id in d.known ==>
      id in d.s.db.rows && (d.s.db.rows[id].end == None <==> Waiting(d.s, id))
    decreases |ls|
  {
    if ls != [] {
      LiveStep(c, ls[0], jobs);
      EndStep(c, ls[0], jobs);
      EndTimeIsExact(Step(c, ls[0]), ls[1..], d, jobs);
    }
  }

  /** Re-queue a job whose execution is live, let that execution return, and the job is queued
      with an end time. */
  lemma RequeueWhileLive(c: Coarse, e: Execution, build: BuildId, now: Time, status: string, later: Time)
    requires PendingLive(c) && e in c.live && c.live[e] < |c.crew.pool.workers|
    ensures var d := Step(Step(c, DoNext(e.job.id, build, now)), DoFinish(e, status, later));
      InQueue(d.s.queued, e.job.id) && e.job.id in d.s.db.rows && d.s.db.rows[e.job.id].end == Some(later)
  {
    AppendFacts(Stop(c.s, e.job.id, now).queued, Ticket(e.job.id, build, c.clock));
  }

  // ---- Politeness is the exact condition ----

  predicate CrewInRange(c: Coarse) { forall e <- c.live :: c.live[e] < |c.crew.pool.workers| }

  /** However politely the run goes on, the end times keep telling who waits. */
  ghost predicate SafeEnd(c: Coarse, jobs: seq<JobId>) {
    forall ls, d :: Run(c, ls, d) && PoliteRun(c, ls, jobs) ==> EndIn(d, jobs)
  }

  ghost predicate SafeEndAlong(c: Coarse, ls: seq<Label>, jobs: seq<JobId>)
    decreases |ls|
  {
    SafeEnd(c, jobs) && (ls == [] || (Enabled(c, ls[0]) && SafeEndAlong(Step(c, ls[0]), ls[1..], jobs)))
  }

  lemma PoliteIsSafe(c: Coarse, jobs: seq<JobId>)
    requires LiveIn(c, jobs) && EndIn(c, jobs)
    ensures SafeEnd(c, jobs)
  {
    forall ls, d | Run(c, ls, d) && PoliteRun(c, ls, jobs) ensures EndIn(d, jobs) {
      EndTimeIsExact(c, ls, d, jobs);
    }
  }

  lemma ImpoliteIsUnsafe(c: Coarse, l: Label, jobs: seq<JobId>)
    requires PendingLive(c) && CrewInRange(c) && !Polite(c, l, jobs)
    ensures !SafeEnd(Step(c, l), jobs)
  {
    var e :| e in c.live && e.job.id == l.id;
    var u, f := Step(c, l), DoFinish(e, FAILING, l.now);
    RequeueWhileLive(c, e, l.build, l.now, FAILING, l.now);
    assert u.live == c.live && Enabled(u, f);
    var d := Step(u, f);
    assert [f][1..] == [] && Run(u, [f], d) && PoliteRun(u, [f], jobs);
    assert l.id in d.known && !EndIn(d, jobs);
  }

  /** Coarse steps.  The end times of the given jobs are right in every state of a run, and stay
      so however politely it goes on from there, if and only if the run is polite to these jobs. */
  lemma {:induction false} SafeEndIff(c: Coarse, ls: seq<Label>, d: Coarse, jobs: seq<JobId>)
    requires LiveIn(c, jobs) && EndIn(c, jobs) && CrewInRange(c) && Run(c, ls, d)
    ensures SafeEndAlong(c, ls, jobs) <==> PoliteRun(c, ls, jobs)
    decreases |ls|
  {
    PoliteIsSafe(c, jobs);
    if ls != [] {
      if Polite(c, ls[0], jobs) {
        LiveStep(c, ls[0], jobs);
        EndStep(c, ls[0], jobs);
        SafeEndIff(Step(c, ls[0]), ls[1..], d, jobs);
      } else {
        ImpoliteIsUnsafe(c, ls[0], jobs);
      }
    }
  }

  // ---- Stopping several jobs ----

  function StopAll(s: State, order: seq<JobId>, at: map<JobId, Time>): State
    requires forall id :: id in order ==> id in at
    decreases |order|
  {
    if order == [] then s else StopAll(Stop(s, order[0], at[order[0]]), order[1..], at)
  }

  function IdsOf(order: seq<JobId>): set<JobId> { set id | id in order }

  function Without(q: seq<Ticket>, ids: set<JobId>): seq<Ticket> {
    if q == [] then [] else (if q[0].id in ids then [] else [q[0]]) + Without(q[1..], ids)
  }

  predicate CanStop(s: State, id: JobId) { FirstTicket(s.queued, id).Some? || id in s.pending }

  function StoppedRow(s: State, id: JobId, now: Time): JobRow
    requires CanStop(s, id)
  {
    match FirstTicket(s.queued, id)
    case Some(t) => DroppedRow(t, now)
    case None => EndedRow(s.pending[id], FAILING, now)
  }

  /** The rows after the jobs in ids were stopped, each at its own time, said without an order. */
  function StoppedRows(s: State, ids: set<JobId>, at: map<JobId, Time>): map<JobId, JobRow>
    requires ids <= at.Keys
  {
    s.db.rows + (map id | id in ids && CanStop(s, id) :: StoppedRow(s, id, at[id]))
  }

  lemma {:induction false} WithoutFacts(q: seq<Ticket>, a: set<JobId>, b: set<JobId>)
    ensures Without(Without(q, a), b) == Without(q, a + b)
  {
    if q != [] {
      WithoutFacts(q[1..], a, b);
      var w := Without(q, a);
      if q[0].id in a {
        assert w == Without(q[1..], a);
      } else {
        assert w[0] == q[0] && w[1..] == Without(q[1..], a);
      }
    }
  }

  lemma {:induction false} WithoutOne(q: seq<Ticket>, id: JobId)
    requires Distinct(q)
    ensures Without(q, {id}) == RemoveFirst(q, id)
  {
    if q != [] {
      WithoutOne(q[1..], id);
      if q[0].id == id {
        WithoutNone(q[1..], id);
      }
    }
  }

  lemma {:induction false} WithoutNone(q: seq<Ticket>, id: JobId)
    requires forall i :: 0 <= i < |q| ==> q[i].id != id
    ensures Without(q, {id}) == q
  {
    if q != [] { WithoutNone(q[1..], id); }
  }

  lemma {:induction false} FirstAfterRemove(q: seq<Ticket>, id: JobId, x: JobId)
    requires Distinct(q)
    ensures FirstTicket(RemoveFirst(q, id), x) == if x == id then None else FirstTicket(q, x)
  {
    if q != [] {
      if q[0].id == id {
        var k := FindFirst(q[1..], id);
      } else {
        FirstAfterRemove(q[1..], id, x);
      }
    }
  }

  // What one Stop does to the queue, the pending entries and the rows.
  lemma StopOne(s: State, id: JobId, now: Time)
    requires QueueInv(s)
    ensures var t := Stop(s, id, now);
      && t.queued == Without(s.queued, {id})
      && t.pending == s.pending - {id}
      && t.db.rows == (if CanStop(s, id) then s.db.rows[id := StoppedRow(s, id, now)] else s.db.rows)
      && (forall x :: FirstTicket(t.queued, x) == if x == id then None else FirstTicket(s.queued, x))
  {
    var q := s.queued;
    WithoutOne(q, id);
    forall x ensures FirstTicket(RemoveFirst(q, id), x) == if x == id then None else FirstTicket(q, x) {
      FirstAfterRemove(q, id, x);
    }
    var k := FindFirst(q, id);
    if k < |q| { assert q[k].id !in s.pending; assert s.pending - {id} == s.pending; }
    else if id !in s.pending { assert s.pending - {id} == s.pending; }
  }

  /** Coarse steps.  Stopping jobs in any order, with repetitions, gives the same queue,
      pending entries and rows: the stopped jobs leave, the others keep their entries,
      rows and relative order, and stopping a job again changes nothing. */
  lemma {:induction false} StopOrderIrrelevant(s: State, order: seq<JobId>, at: map<JobId, Time>)
    requires QueueInv(s)
    requires forall id :: id in order ==> id in at
    ensures var t := StopAll(s, order, at); var ids := IdsOf(order);
      && t.queued == Without(s.queued, ids)
      && t.pending == s.pending - ids
      && t.db.rows == StoppedRows(s, ids, at)
      && QueueInv(t)
    decreases |order|
  {
    if order == [] {
      assert IdsOf(order) == {};
      StopNone(s, at);
    } else {
      var a, rest := order[0], order[1..];
      assert IdsOf(order) == {a} + IdsOf(rest);
      QueueStop(s, a, at[a]);
      StopOrderIrrelevant(Stop(s, a, at[a]), rest, at);
      StopFirst(s, a, IdsOf(rest), at);
    }
  }

  lemma StopNone(s: State, at: map<JobId, Time>)
    ensures Without(s.queued, {}) == s.queued && s.pending - {} == s.pending && StoppedRows(s, {}, at) == s.db.rows
  {
    WithoutEmpty(s.queued);
  }

  // Stopping a and then the others is stopping all of them.
  lemma StopFirst(s: State, a: JobId, others: set<JobId>, at: map<JobId, Time>)
    requires QueueInv(s) && a in at && others <= at.Keys
    ensures var u := Stop(s, a, at[a]);
      && Without(u.queued, others) == Without(s.queued, {a} + others)
      && u.pending - others == s.pending - ({a} + others)
      && StoppedRows(u, others, at) == StoppedRows(s, {a} + others, at)
  {
    StopOne(s, a, at[a]);
    WithoutFacts(s.queued, {a}, others);
    StoppedRowsStep(s, a, others, at);
  }

  // Stopping a first and the rest afterwards writes what stopping them together writes.
  lemma StoppedRowsStep(s: State, a: JobId, rest: set<JobId>, at: map<JobId, Time>)
    requires QueueInv(s) && a in at && rest <= at.Keys
    ensures StoppedRows(Stop(s, a, at[a]), rest, at) == StoppedRows(s, {a} + rest, at)
  {
    var u := Stop(s, a, at[a]);
    StopOne(s, a, at[a]);
    forall x ensures CanStop(u, x) <==> x != a && CanStop(s, x) {}
    var l, r := StoppedRows(u, rest, at), StoppedRows(s, {a} + rest, at);
    forall x ensures x in l <==> x in r {}
    forall x | x in l ensures l[x] == r[x] {}
  }

  lemma {:induction false} WithoutEmpty(q: seq<Ticket>)
    ensures Without(q, {}) == q
  {
    if q != [] { WithoutEmpty(q[1..]); }
  }

  lemma {:induction false} WithoutIsFilter(q: seq<Ticket>, ids: set<JobId>)
    ensures forall t :: t in Without(q, ids) <==> t in q && t.id !in ids
  {
    if q != [] { WithoutIsFilter(q[1..], ids); }
  }

  // ---- A build over a whole coarse run ----

  predicate JobsOf(db: Db, bid: BuildId, jobs: seq<JobId>) {
    && jobs != []
    && (forall i, j :: 0 <= i < j < |jobs| ==> jobs[i] != jobs[j])
    && (forall id :: id in jobs ==> id in db.rows)
    && bid in db.builds && db.builds[bid].jobs == jobs
  }

  lemma {:induction false} JobRowsAt(jobs: seq<JobId>, rows: map<JobId, JobRow>)
    requires forall id :: id in jobs ==> id in rows
    ensures |JobRows(jobs, rows)| == |jobs|
    ensures forall k :: 0 <= k < |jobs| ==> JobRows(jobs, rows)[k] == rows[jobs[k]]
  {
    if jobs != [] { JobRowsAt(jobs[1..], rows); }
  }

  predicate DbInv(db: Db, bid: BuildId, jobs: seq<JobId>) {
    JobsOf(db, bid, jobs) && TimesInv(db.builds[bid], JobRows(jobs, db.rows))
  }

  // Aggregating again without a changed row keeps the relation too.
  lemma TouchKeeps(db: Db, bid: BuildId, jobs: seq<JobId>, other: BuildId)
    requires DbInv(db, bid, jobs)
    ensures DbInv(TouchBuild(db, other), bid, jobs)
  {
    var rows := JobRows(jobs, db.rows);
    JobRowsAt(jobs, db.rows);
    assert rows[0 := rows[0]] == rows;
    SaveStep(db.builds[bid], rows, 0, rows[0]);
  }

  lemma SaveKeeps(db: Db, bid: BuildId, jobs: seq<JobId>, id: JobId, row: JobRow)
    requires DbInv(db, bid, jobs)
    requires id in jobs ==> row.build == bid && (db.rows[id].end.Some? ==> row.end.Some?)
    ensures DbInv(SaveJob(db, id, row), bid, jobs)
    ensures SaveJob(db, id, row).rows == db.rows[id := row]
  {
    if id in jobs {
      SaveOwn(db, bid, jobs, id, row);
    } else {
      var now := db.rows[id := row];
      JobRowsAt(jobs, db.rows);
      JobRowsAt(jobs, now);
      assert JobRows(jobs, now) == JobRows(jobs, db.rows);
      TouchKeeps(db.(rows := now), bid, jobs, row.build);
    }
  }

  lemma JobRowsUpdate(jobs: seq<JobId>, rows: map<JobId, JobRow>, k: nat, row: JobRow)
    requires (forall id :: id in jobs ==> id in rows) && k < |jobs|
    requires forall i, j :: 0 <= i < j < |jobs| ==> jobs[i] != jobs[j]
    ensures |JobRows(jobs, rows)| == |jobs|
    ensures JobRows(jobs, rows)[k] == rows[jobs[k]]
    ensures JobRows(jobs, rows[jobs[k] := row]) == JobRows(jobs, rows)[k := row]
  {
    var before, after := JobRows(jobs, rows), JobRows(jobs, rows[jobs[k] := row]);
    JobRowsAt(jobs, rows);
    JobRowsAt(jobs, rows[jobs[k] := row]);
    forall i | 0 <= i < |jobs| ensures after[i] == before[k := row][i] {
    }
  }

  lemma SaveOwn(db: Db, bid: BuildId, jobs: seq<JobId>, id: JobId, row: JobRow)
    requires DbInv(db, bid, jobs)
    requires id in jobs && row.build == bid && (db.rows[id].end.Some? ==> row.end.Some?)
    ensures DbInv(SaveJob(db, id, row), bid, jobs)
  {
    var k :| 0 <= k < |jobs| && jobs[k] == id;
    JobRowsUpdate(jobs, db.rows, k, row);
    SaveStep(db.builds[bid], JobRows(jobs, db.rows), k, row);
  }

  /** The build's jobs are queued and run under the build's id, and a job not yet given
      to Next has not ended. */
  ghost predicate BuildInv(c: Coarse, bid: BuildId, jobs: seq<JobId>) {
    && DbInv(c.s.db, bid, jobs)
    && (forall t :: t in c.s.queued && t.id in jobs ==> t.build == bid)
    && (forall e :: e in c.live && e.job.id in jobs ==> e.job.build == bid)
    && (forall id :: id in jobs && id !in c.known ==> c.s.db.rows[id].end == None)
  }

  // Each of the build's jobs is given to Next at most once.
  predicate OnceFor(c: Coarse, l: Label, bid: BuildId, jobs: seq<JobId>) {
    l.DoNext? && l.id in jobs ==> l.build == bid && l.id !in c.known
  }

  lemma BuildStop(c: Coarse, id: JobId, now: Time, bid: BuildId, jobs: seq<JobId>)
    requires LiveIn(c, jobs) && EndIn(c, jobs) && BuildInv(c, bid, jobs)
    ensures DbInv(Stop(c.s, id, now).db, bid, jobs)
    ensures forall t :: t in Stop(c.s, id, now).queued ==> t in c.s.queued
    ensures forall x :: x != id && x in c.s.db.rows ==>
      x in Stop(c.s, id, now).db.rows && Stop(c.s, id, now).db.rows[x] == c.s.db.rows[x]
  {
    var s := c.s;
    RemoveFacts(s.queued, id);
    match FirstTicket(s.queued, id)
    case Some(t) => SaveKeeps(s.db, bid, jobs, id, DroppedRow(t, now));
    case None =>
      if id in s.pending { SaveKeeps(s.db, bid, jobs, id, EndedRow(s.pending[id], FAILING, now)); }
  }

  lemma BuildNext(c: Coarse, id: JobId, build: BuildId, now: Time, bid: BuildId, jobs: seq<JobId>)
    requires LiveIn(c, jobs) && EndIn(c, jobs) && BuildInv(c, bid, jobs)
    requires OnceFor(c, DoNext(id, build, now), bid, jobs)
    ensures BuildInv(Step(c, DoNext(id, build, now)), bid, jobs)
  {
    var u := Stop(c.s, id, now);
    BuildStop(c, id, now, bid, jobs);
    if id in jobs {
      RemoveFacts(c.s.queued, id);
      assert !Waiting(c.s, id) && u == c.s;
    }
    SaveKeeps(u.db, bid, jobs, id, QueuedRow(Ticket(id, build, c.clock)));
  }

  lemma BuildDispatch(c: Coarse, w: nat, now: Time, bid: BuildId, jobs: seq<JobId>)
    requires LiveIn(c, jobs) && EndIn(c, jobs) && BuildInv(c, bid, jobs) && Enabled(c, DoDispatch(w, now))
    ensures BuildInv(Step(c, DoDispatch(w, now)), bid, jobs)
  {
    var t := c.s.queued[0];
    HeadLeaves(c.s.queued);
    assert t in c.s.queued && InQueue(c.s.queued, t.id);
    SaveKeeps(c.s.db, bid, jobs, t.id, RunningRow(t, now));
  }

  lemma BuildFinish(c: Coarse, e: Execution, status: string, now: Time, bid: BuildId, jobs: seq<JobId>)
    requires LiveIn(c, jobs) && EndIn(c, jobs) && BuildInv(c, bid, jobs) && Enabled(c, DoFinish(e, status, now))
    ensures BuildInv(Step(c, DoFinish(e, status, now)), bid, jobs)
  {
    SaveKeeps(c.s.db, bid, jobs, e.job.id, EndedRow(e, status, now));
  }

  lemma BuildStep(c: Coarse, l: Label, bid: BuildId, jobs: seq<JobId>)
    requires LiveIn(c, jobs) && EndIn(c, jobs) && BuildInv(c, bid, jobs)
    requires Enabled(c, l) && OnceFor(c, l, bid, jobs)
    ensures BuildInv(Step(c, l), bid, jobs)
  {
    match l
    case DoNext(id, build, now) => BuildNext(c, id, build, now, bid, jobs);
    case DoStop(id, now) =>
      BuildStop(c, id, now, bid, jobs);
      RemoveFacts(c.s.queued, id);
    case DoDispatch(w, now) => BuildDispatch(c, w, now, bid, jobs);
    case DoFinish(e, status, now) => BuildFinish(c, e, status, now, bid, jobs);
    case DoTouch(other) => TouchKeeps(c.s.db, bid, jobs, other);
    case _ =>
  }

  predicate OnceRun(c: Coarse, ls: seq<Label>, bid: BuildId, jobs: seq<JobId>)
    decreases |ls|
  {
    ls == [] || (Enabled(c, ls[0]) && OnceFor(c, ls[0], bid, jobs) && OnceRun(Step(c, ls[0]), ls[1..], bid, jobs))
  }

  lemma {:induction false} BuildRun(c: Coarse, ls: seq<Label>, d: Coarse, bid: BuildId, jobs: seq<JobId>)
    requires LiveIn(c, jobs) && EndIn(c, jobs) && BuildInv(c, bid, jobs)
    requires Run(c, ls, d) && OnceRun(c, ls, bid, jobs)
    ensures LiveIn(d, jobs) && EndIn(d, jobs) && BuildInv(d, bid, jobs)
    decreases |ls|
  {
    if ls != [] {
      LiveStep(c, ls[0], jobs);
      EndStep(c, ls[0], jobs);
      BuildStep(c, ls[0], bid, jobs);
      BuildRun(Step(c, ls[0]), ls[1..], d, bid, jobs);
    }
  }

  /** Coarse steps.  At every point of a run in which each job of the build is given to
      Next once, whatever happens to other jobs, the build has an end time and a reported
      status exactly if all its jobs were scheduled and none of them is queued or pending any
      more. */
  lemma {:induction false} BuildEndsExactly(c: Coarse, ls: seq<Label>, d: Coarse, bid: BuildId, jobs: seq<JobId>)
    requires LiveIn(c, jobs) && EndIn(c, jobs) && BuildInv(c, bid, jobs)
    requires Run(c, ls, d) && OnceRun(c, ls, bid, jobs)
    ensures bid in d.s.db.builds
    ensures d.s.db.builds[bid].end.Some? <==> forall id :: id in jobs ==> id in d.known && !Waiting(d.s, id)
    ensures d.s.db.builds[bid].sent != [] <==> d.s.db.builds[bid].end.Some?
  {
    BuildRun(c, ls, d, bid, jobs);
    var rows := JobRows(jobs, d.s.db.rows);
    JobRowsAt(jobs, d.s.db.rows);
    if AllEnded(rows) {
      forall id | id in jobs ensures id in d.known && !Waiting(d.s, id) {
        var k :| 0 <= k < |jobs| && jobs[k] == id;
        assert rows[k] in rows;
      }
    }
  }

  // ---- Restarting a build ----

  function ClearTimes(db: Db, bid: BuildId): Db
    requires bid in db.builds
  {
    db.(builds := db.builds[bid := Build(db.builds[bid].jobs, None, None, [])])
  }

  function NextAll(s: State, jobs: seq<JobId>, bid: BuildId, clock: nat, now: Time): State
    decreases |jobs|
  {
    if jobs == [] then s
    else NextAll(Next(s, Ticket(jobs[0], bid, clock), now), jobs[1..], bid, clock + 1, now)
  }

  /** RestartBuild; the log of reported statuses starts anew with the cleared times. */
  function Restart(s: State, bid: BuildId, clock: nat, now: Time): State
    requires bid in s.db.builds
  {
    NextAll(s.(db := ClearTimes(s.db, bid)), s.db.builds[bid].jobs, bid, clock, now)
  }

  function Tickets(jobs: seq<JobId>, bid: BuildId, clock: nat): seq<Ticket>
    decreases |jobs|
  {
    if jobs == [] then [] else [Ticket(jobs[0], bid, clock)] + Tickets(jobs[1..], bid, clock + 1)
  }

  lemma {:induction false} TicketsAt(jobs: seq<JobId>, bid: BuildId, clock: nat)
    ensures |Tickets(jobs, bid, clock)| == |jobs|
    ensures forall k :: 0 <= k < |jobs| ==> Tickets(jobs, bid, clock)[k] == Ticket(jobs[k], bid, clock + k)
    decreases |jobs|
  {
    if jobs != [] { TicketsAt(jobs[1..], bid, clock + 1); }
  }

  // A restart that has re-queued the first k jobs.
  ghost predicate Restarting(s: State, jobs: seq<JobId>, k: nat, bid: BuildId) {
    && QueueInv(s) && JobsOf(s.db, bid, jobs) && k <= |jobs|
    && s.db.builds[bid] == Build(jobs, None, None, [])
    && (forall i :: 0 <= i < k ==> s.db.rows[jobs[i]].start == None && s.db.rows[jobs[i]].end == None)
    && (forall i :: k <= i < |jobs| ==> !Waiting(s, jobs[i]))
  }

  // Nothing to stop, and the first job's open row keeps the aggregation waiting.
  lemma RestartOne(s: State, jobs: seq<JobId>, k: nat, bid: BuildId, clock: nat, now: Time)
    requires Restarting(s, jobs, k, bid) && k < |jobs|
    ensures var t := Next(s, Ticket(jobs[k], bid, clock), now);
      Restarting(t, jobs, k + 1, bid) && t.queued == s.queued + [Ticket(jobs[k], bid, clock)] && t.pending == s.pending
  {
    var tk := Ticket(jobs[k], bid, clock);
    RemoveFacts(s.queued, jobs[k]);
    assert Stop(s, jobs[k], now) == s;
    AppendFacts(s.queued, tk);
    forall i | 0 <= i < |s.queued| ensures s.queued[i].id != jobs[k] { assert InQueue(s.queued, s.queued[i].id); }
    JobRowsAt(jobs, s.db.rows[jobs[k] := QueuedRow(tk)]);
  }

  lemma {:induction false} RestartFrom(s: State, jobs: seq<JobId>, k: nat, rest: seq<JobId>, bid: BuildId,
                                       clock: nat, now: Time)
    requires Restarting(s, jobs, k, bid) && rest == jobs[k..]
    ensures Restarting(NextAll(s, rest, bid, clock, now), jobs, |jobs|, bid)
    ensures NextAll(s, rest, bid, clock, now).queued == s.queued + Tickets(rest, bid, clock)
    ensures NextAll(s, rest, bid, clock, now).pending == s.pending
    decreases |rest|
  {
    if rest != [] {
      var u := Next(s, Ticket(rest[0], bid, clock), now);
      RestartOne(s, jobs, k, bid, clock, now);
      RestartFrom(u, jobs, k + 1, rest[1..], bid, clock + 1, now);
      TicketsShift(s.queued, rest, bid, clock);
    }
  }

  lemma TicketsShift(q: seq<Ticket>, jobs: seq<JobId>, bid: BuildId, clock: nat)
    requires jobs != []
    ensures q + [Ticket(jobs[0], bid, clock)] + Tickets(jobs[1..], bid, clock + 1) == q + Tickets(jobs, bid, clock)
  {
  }

  /** Restarting a build with no waiting job, uninterrupted: both times and the reports are
      clear afterwards, every job is open again, and the jobs queue up in build order
      behind what was queued.  BuildRuns.BeginsAfterRestart shows that the whole-run results
      hold from there. */
  lemma RestartClears(s: State, bid: BuildId, clock: nat, now: Time)
    requires QueueInv(s) && bid in s.db.builds && JobsOf(s.db, bid, s.db.builds[bid].jobs)
    requires forall id :: id in s.db.builds[bid].jobs ==> !Waiting(s, id)
    ensures var t := Restart(s, bid, clock, now); var jobs := s.db.builds[bid].jobs;
      && t.queued == s.queued + Tickets(jobs, bid, clock) && t.pending == s.pending
      && |t.queued| == |s.queued| + |jobs|
      && (forall k :: 0 <= k < |jobs| ==> t.queued[|s.queued| + k] == Ticket(jobs[k], bid, clock + k))
      && bid in t.db.builds && t.db.builds[bid] == Build(jobs, None, None, [])
      && QueueInv(t) && DbInv(t.db, bid, jobs)
      && forall id :: id in jobs ==> t.db.rows[id].start == None && t.db.rows[id].end == None
  {
    var jobs := s.db.builds[bid].jobs;
    var u := s.(db := ClearTimes(s.db, bid));
    forall i | 0 <= i < |jobs| ensures !Waiting(u, jobs[i]) { assert jobs[i] in jobs && !Waiting(s, jobs[i]); }
    RestartFrom(u, jobs, 0, jobs, bid, clock, now);
    TicketsAt(jobs, bid, clock);
    var t := Restart(s, bid, clock, now);
    JobRowsAt(jobs, t.db.rows);
    assert JobRows(jobs, t.db.rows)[0] in JobRows(jobs, t.db.rows);
  }
}
