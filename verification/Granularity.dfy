/** How the two granularities fit together: every run of coarse steps is a run of fine
    steps in which nothing interleaves, on the same workers with the same counters.  The
    fine machine has no stored rows; these are left to the coarse steps. */
module Granularity {
  import opened Types
  import F = FineSteps
  import C = SchedulerSpec

  /** at says which activity is which live execution. */
  predicate Agree(f: F.Sys, c: C.Coarse, at: map<C.Execution, nat>) {
    && f.loop == F.Idle && !f.sh.paused
    && f.sh.queued == c.s.queued && f.sh.pending.Keys == c.s.pending.Keys && f.h.clock == c.clock
    && f.pool == c.crew.pool
    && at.Keys == c.live.Keys
    && (forall e <- at :: Executes(f, e, at[e], c.live[e]))
    && (forall d, e :: d in at && e in at && at[d] == at[e] ==> d == e)
  }

  predicate Executes(f: F.Sys, e: C.Execution, a: nat, w: nat) {
    a in f.acts && f.acts[a] == F.Start(F.Executing, e.job, w)
  }

  // ---- Stop and Next ----

  function Stopped(f: F.Sys, id: JobId): F.Sys {
    match FirstTicket(f.sh.queued, id)
    case Some(_) => F.Remove(f, id)
    case None => f.(sh := f.sh.(pending := f.sh.pending - {id}))
  }

  function Ended(f: F.Sys, a: nat, job: Ticket, forNext: bool): F.Sys {
    var u := Stopped(f, job.id);
    if forNext then F.SetAct(u, a, F.Appending(job)) else u.(acts := u.acts - {a})
  }

  lemma StopRuns(f: F.Sys, a: nat, job: Ticket, forNext: bool) returns (ls: seq<F.Label>)
    requires a in f.acts && f.acts[a] == F.Stopping(F.Looking, job, forNext)
    ensures F.Run(f, ls, Ended(f, a, job, forNext))
  {
    var f1 := F.Step(f, F.Advance(a));
    F.RunSnoc(f, [], f, F.Advance(a));
    ls := [] + [F.Advance(a)];
    var f2 := F.Step(f1, F.Advance(a));
    F.RunSnoc(f, ls, f1, F.Advance(a));
    ls := ls + [F.Advance(a)];
    if FirstTicket(f.sh.queued, job.id).Some? {
      assert f2 == Ended(f, a, job, forNext);
    } else if job.id !in f.sh.pending {
      assert f.sh.pending - {job.id} == f.sh.pending;
      assert f2 == Ended(f, a, job, forNext);
    } else {
      assert F.Step(f2, F.Advance(a)) == Ended(f, a, job, forNext);
      F.RunSnoc(f, ls, f2, F.Advance(a));
      ls := ls + [F.Advance(a)];
    }
  }

  lemma StopAgrees(f: F.Sys, c: C.Coarse, at: map<C.Execution, nat>, id: JobId, now: Time)
    returns (ls: seq<F.Label>, g: F.Sys)
    requires Agree(f, c, at) && C.QueueInv(c.s)
    ensures F.Run(f, ls, g) && Agree(g, C.Step(c, C.DoStop(id, now)), at)
  {
    var a := Unused(f.acts.Keys);
    var f1 := F.Step(f, F.CallStop(a, id));
    F.RunSnoc(f, [], f, F.CallStop(a, id));
    var ms := StopRuns(f1, a, Ticket(id, 0, 0), false);
    g := Ended(f1, a, Ticket(id, 0, 0), false);
    F.RunAppend(f, [] + [F.CallStop(a, id)], f1, ms, g);
    ls := [] + [F.CallStop(a, id)] + ms;
    StoppedQueue(f1, c.s, id, now);
    assert g.acts == f.acts;
  }

  lemma StoppedQueue(f: F.Sys, s: C.State, id: JobId, now: Time)
    requires f.sh.queued == s.queued && f.sh.pending.Keys == s.pending.Keys
    ensures Stopped(f, id).sh.queued == C.Stop(s, id, now).queued
    ensures Stopped(f, id).sh.pending.Keys == C.Stop(s, id, now).pending.Keys
    ensures Stopped(f, id).loop == f.loop && Stopped(f, id).acts == f.acts && Stopped(f, id).pool == f.pool
    ensures Stopped(f, id).sh.paused == f.sh.paused && Stopped(f, id).h.clock == f.h.clock
  {
    var k := FindFirst(s.queued, id);
  }

  lemma NextAgrees(f: F.Sys, c: C.Coarse, at: map<C.Execution, nat>, id: JobId, build: BuildId, now: Time)
    returns (ls: seq<F.Label>, g: F.Sys)
    requires Agree(f, c, at) && C.QueueInv(c.s)
    ensures F.Run(f, ls, g) && Agree(g, C.Step(c, C.DoNext(id, build, now)), at)
  {
    var a := Unused(f.acts.Keys);
    var job := Ticket(id, build, 0);
    var f1 := F.Step(f, F.CallNext(a, id, build));
    F.RunSnoc(f, [], f, F.CallNext(a, id, build));
    ls := [] + [F.CallNext(a, id, build)];
    var ms := StopRuns(f1, a, job, true);
    var f2 := Ended(f1, a, job, true);
    F.RunAppend(f, ls, f1, ms, f2);
    ls := ls + ms;
    StoppedQueue(f1, c.s, id, now);
    var f3 := F.Step(f2, F.Advance(a));
    F.RunSnoc(f, ls, f2, F.Advance(a));
    ls := ls + [F.Advance(a)];
    g := F.Step(f3, F.Advance(a));
    F.RunSnoc(f, ls, f3, F.Advance(a));
    ls := ls + [F.Advance(a)];
    assert g.acts == f.acts;
  }

  // ---- Dispatch and the end of an execution ----

  // The timer fires and the loop picks the head of the queue for worker w.
  lemma Picked(f: F.Sys, w: nat, a: nat) returns (ls: seq<F.Label>, g: F.Sys)
    requires f.loop == F.Idle && !f.sh.paused && f.sh.queued != [] && a !in f.acts && MostFreeIn(f.pool, w)
    ensures F.Run(f, ls, g)
    ensures g.pool == f.pool && g.loop == F.Idle && g.acts == f.acts[a := F.Start(F.Spawned, f.sh.queued[0], w)]
    ensures g.sh == F.Shared(f.sh.queued[1..], f.sh.pending, false, false) && g.h.clock == f.h.clock
  {
    var f1 := F.Step(f, F.Tick);
    F.RunSnoc(f, [], f, F.Tick);
    var ms := F.LoopDispatches(f1, w, a);
    g := F.Dispatched(f1, w, a);
    F.RunAppend(f, [] + [F.Tick], f1, ms, g);
    ls := [] + [F.Tick] + ms;
  }

  // The new execution runs undisturbed up to its call to the worker.
  lemma Started(f: F.Sys, w: nat, a: nat) returns (ls: seq<F.Label>, g: F.Sys)
    requires f.loop == F.Idle && !f.sh.paused && f.sh.queued != [] && a !in f.acts && MostFreeIn(f.pool, w)
    requires FirstTicket(f.sh.queued[1..], f.sh.queued[0].id) == None
    ensures F.Run(f, ls, g)
    ensures var t := f.sh.queued[0];
      && g.pool == Bump(f.pool, w, 1) && g.loop == F.Idle && g.acts == f.acts[a := F.Start(F.Executing, t, w)]
      && g.sh.queued == f.sh.queued[1..] && g.sh.pending.Keys == f.sh.pending.Keys + {t.id} && !g.sh.paused
      && g.h.clock == f.h.clock
  {
    var t := f.sh.queued[0];
    var f1;
    ls, f1 := Picked(f, w, a);
    var ms := F.Launch(f1, a, t, w);
    g := F.Launched(f1, a, t, w);
    F.RunAppend(f, ls, f1, ms, g);
    ls := ls + ms;
  }

  lemma CoarseDispatch(c: C.Coarse, w: nat, now: Time)
    requires C.QueueInv(c.s) && C.Enabled(c, C.DoDispatch(w, now))
    ensures var t, d := c.s.queued[0], C.Step(c, C.DoDispatch(w, now));
      && FirstTicket(c.s.queued[1..], t.id) == None
      && d.s.queued == c.s.queued[1..] && d.s.pending.Keys == c.s.pending.Keys + {t.id}
      && d.live == c.live[C.Execution(t, c.crew.names[w], now) := w] && d.clock == c.clock
      && d.crew.pool == Bump(c.crew.pool, w, 1)
  {
    C.HeadLeaves(c.s.queued);
    C.RemoveFacts(c.s.queued[1..], c.s.queued[0].id);
  }

  lemma DispatchAgrees(f: F.Sys, c: C.Coarse, at: map<C.Execution, nat>, w: nat, now: Time)
    returns (ls: seq<F.Label>, g: F.Sys, at': map<C.Execution, nat>)
    requires Agree(f, c, at) && C.QueueInv(c.s) && C.Enabled(c, C.DoDispatch(w, now))
    ensures F.Run(f, ls, g) && Agree(g, C.Step(c, C.DoDispatch(w, now)), at')
  {
    var e := C.Execution(c.s.queued[0], c.crew.names[w], now);
    var a := Unused(f.acts.Keys);
    CoarseDispatch(c, w, now);
    ls, g := Started(f, w, a);
    at' := at[e := a];
    AddedExecutes(f, g, c.live, at, e, w, a);
  }

  lemma AddedExecutes(f: F.Sys, g: F.Sys, live: map<C.Execution, nat>, at: map<C.Execution, nat>,
                      e: C.Execution, w: nat, a: nat)
    requires at.Keys == live.Keys && forall d <- at :: Executes(f, d, at[d], live[d])
    requires forall d, x :: d in at && x in at && at[d] == at[x] ==> d == x
    requires a !in f.acts && g.acts == f.acts[a := F.Start(F.Executing, e.job, w)]
    ensures var more, running := at[e := a], live[e := w];
      && more.Keys == running.Keys && (forall d <- more :: Executes(g, d, more[d], running[d]))
      && (forall d, x :: d in more && x in more && more[d] == more[x] ==> d == x)
  {
    forall d | d in at ensures at[d] != a && Executes(f, d, at[d], live[d]) {
    }
  }

  lemma FinishAgrees(f: F.Sys, c: C.Coarse, at: map<C.Execution, nat>, e: C.Execution, status: string, now: Time)
    returns (ls: seq<F.Label>, g: F.Sys, at': map<C.Execution, nat>)
    requires Agree(f, c, at) && C.Enabled(c, C.DoFinish(e, status, now))
    ensures F.Run(f, ls, g) && Agree(g, C.Step(c, C.DoFinish(e, status, now)), at')
  {
    var a, w := at[e], c.live[e];
    assert Executes(f, e, a, w);
    ls := F.Finish(f, a, e.job, w);
    var f1 := F.Finished(f, a, e.job, w);
    g := F.Step(f1, F.Advance(a));
    F.RunSnoc(f, ls, f1, F.Advance(a));
    ls := ls + [F.Advance(a)];
    at' := at - {e};
    forall d | d in at' ensures Executes(g, d, at'[d], c.live[d]) {
      assert Executes(f, d, at[d], c.live[d]) && at[d] != a;
    }
  }

  lemma CrewAgrees(f: F.Sys, c: C.Coarse, at: map<C.Execution, nat>, l: C.Label)
    returns (ls: seq<F.Label>, g: F.Sys)
    requires Agree(f, c, at) && C.Enabled(c, l) && (l.DoConnect? || l.DoDisconnect?)
    ensures F.Run(f, ls, g) && Agree(g, C.Step(c, l), at)
  {
    var e := if l.DoConnect? then F.Connect(l.max) else F.Disconnect(l.w);
    g := F.Step(f, e);
    F.RunSnoc(f, [], f, e);
    ls := [] + [e];
    forall d | d in at ensures Executes(g, d, at[d], c.live[d]) {
      assert Executes(f, d, at[d], c.live[d]);
    }
  }

  lemma StepAgrees(f: F.Sys, c: C.Coarse, at: map<C.Execution, nat>, l: C.Label)
    returns (ls: seq<F.Label>, g: F.Sys, at': map<C.Execution, nat>)
    requires Agree(f, c, at) && C.QueueInv(c.s) && C.Enabled(c, l)
    ensures F.Run(f, ls, g) && Agree(g, C.Step(c, l), at')
  {
    at' := at;
    match l
    case DoNext(id, build, now) => ls, g := NextAgrees(f, c, at, id, build, now);
    case DoStop(id, now) => ls, g := StopAgrees(f, c, at, id, now);
    case DoDispatch(w, now) => ls, g, at' := DispatchAgrees(f, c, at, w, now);
    case DoFinish(e, status, now) => ls, g, at' := FinishAgrees(f, c, at, e, status, now);
    case DoTouch(_) => ls, g := [], f;
    case DoConnect(_, _) => ls, g := CrewAgrees(f, c, at, l);
    case DoDisconnect(_) => ls, g := CrewAgrees(f, c, at, l);
  }

  lemma {:induction false} RunAgrees(f: F.Sys, c: C.Coarse, at: map<C.Execution, nat>, ls: seq<C.Label>, d: C.Coarse)
    returns (ms: seq<F.Label>, g: F.Sys, at': map<C.Execution, nat>)
    requires Agree(f, c, at) && C.QueueInv(c.s) && C.Run(c, ls, d)
    ensures F.Run(f, ms, g) && Agree(g, d, at')
    decreases |ls|
  {
    if ls == [] {
      ms, g, at' := [], f, at;
    } else {
      var u, first;
      first, u, at' := StepAgrees(f, c, at, ls[0]);
      C.QueueStep(c, ls[0]);
      ms, g, at' := RunAgrees(u, C.Step(c, ls[0]), at', ls[1..], d);
      F.RunAppend(f, first, u, ms, g);
      ms := first + ms;
    }
  }

  function Start(db: C.Db): C.Coarse {
    C.Coarse(C.State([], map[], db), map[], {}, 0, C.Crew(Pool([], {}), []))
  }

  /** Every coarse run from the start is a fine run: some interleaving of the lock-protected
      sections, over the same connections and with the same choice of workers, reaches a state
      with the same queue, the same pending keys, and the same worker objects and counters, in
      which every live execution is one activity on its worker. */
  lemma CoarseRunsAreFineRuns(db: C.Db, ls: seq<C.Label>, d: C.Coarse)
    returns (ms: seq<F.Label>, g: F.Sys, at: map<C.Execution, nat>)
    requires C.Run(Start(db), ls, d)
    ensures F.Reaches(ms, g) && g.sh.queued == d.s.queued && g.sh.pending.Keys == d.s.pending.Keys
    ensures g.pool == d.crew.pool
    ensures at.Keys == d.live.Keys && forall e <- d.live :: Executes(g, e, at[e], d.live[e])
    ensures forall w :: 0 <= w < |d.crew.pool.workers| ==> |OnWorker(d, w)| == d.crew.pool.workers[w].running
  {
    ms, g, at := RunAgrees(F.INIT, Start(db), map[], ls, d);
    CrewRun(Start(db), ls, d);
  }

  // ---- Counters at coarse steps ----

  function OnWorker(d: C.Coarse, w: nat): set<C.Execution> { set e | e in d.live && d.live[e] == w }

  /** Running counts the live executions; a queued job object is not one of theirs. */
  ghost predicate CrewInv(c: C.Coarse) {
    && C.QueueInv(c.s) && C.CrewInRange(c)
    && (forall t <- c.s.queued :: t.stamp < c.clock)
    && (forall e <- c.live :: e.job.stamp < c.clock && e.job !in c.s.queued)
    && (forall w :: 0 <= w < |c.crew.pool.workers| ==> |OnWorker(c, w)| == c.crew.pool.workers[w].running)
  }

  lemma CrewNext(c: C.Coarse, l: C.Label)
    requires CrewInv(c) && (l.DoNext? || l.DoStop?)
    ensures CrewInv(C.Step(c, l))
  {
    C.QueueStep(c, l);
    C.RemoveFacts(c.s.queued, l.id);
    var d := C.Step(c, l);
    forall w ensures OnWorker(d, w) == OnWorker(c, w) {
    }
  }

  // The head of the queue belongs to no live execution, and is queued no more.
  lemma FreshExecution(c: C.Coarse, w: nat, now: Time)
    requires CrewInv(c) && C.Enabled(c, C.DoDispatch(w, now))
    ensures var t, d := c.s.queued[0], C.Step(c, C.DoDispatch(w, now));
      && C.QueueInv(d.s) && C.Execution(t, c.crew.names[w], now) !in c.live && t.stamp < c.clock
      && d.s.queued == c.s.queued[1..] && t !in d.s.queued
  {
    var t := c.s.queued[0];
    C.QueueStep(c, C.DoDispatch(w, now));
    C.HeadLeaves(c.s.queued);
    C.TicketQueued(c.s.queued[1..]);
    assert t in c.s.queued;
  }

  lemma CrewDispatch(c: C.Coarse, w: nat, now: Time)
    requires CrewInv(c) && C.Enabled(c, C.DoDispatch(w, now))
    ensures CrewInv(C.Step(c, C.DoDispatch(w, now)))
  {
    var d := C.Step(c, C.DoDispatch(w, now));
    FreshExecution(c, w, now);
    forall v | 0 <= v < |d.crew.pool.workers| ensures |OnWorker(d, v)| == d.crew.pool.workers[v].running {
      OneMore(c, w, now, v);
    }
  }

  lemma OneMore(c: C.Coarse, w: nat, now: Time, v: nat)
    requires C.Enabled(c, C.DoDispatch(w, now)) && C.Execution(c.s.queued[0], c.crew.names[w], now) !in c.live
    ensures |OnWorker(C.Step(c, C.DoDispatch(w, now)), v)| == |OnWorker(c, v)| + if v == w then 1 else 0
  {
    var e := C.Execution(c.s.queued[0], c.crew.names[w], now);
    assert OnWorker(C.Step(c, C.DoDispatch(w, now)), v) == if v == w then OnWorker(c, v) + {e} else OnWorker(c, v);
  }

  lemma CrewFinish(c: C.Coarse, l: C.Label)
    requires CrewInv(c) && l.DoFinish? && C.Enabled(c, l)
    ensures CrewInv(C.Step(c, l))
  {
    var d := C.Step(c, l);
    C.QueueStep(c, l);
    forall v | 0 <= v < |d.crew.pool.workers| ensures |OnWorker(d, v)| == d.crew.pool.workers[v].running {
      assert OnWorker(d, v) == if v == c.live[l.e] then OnWorker(c, v) - {l.e} else OnWorker(c, v);
    }
  }

  lemma NobodyBeyond(c: C.Coarse, v: nat)
    requires C.CrewInRange(c)
    ensures v >= |c.crew.pool.workers| ==> OnWorker(c, v) == {}
  {
  }

  lemma CrewStep(c: C.Coarse, l: C.Label)
    requires CrewInv(c) && C.Enabled(c, l)
    ensures CrewInv(C.Step(c, l))
  {
    match l
    case DoNext(_, _, _) => CrewNext(c, l);
    case DoStop(_, _) => CrewNext(c, l);
    case DoDispatch(w, now) => CrewDispatch(c, w, now);
    case DoFinish(_, _, _) => CrewFinish(c, l);
    case _ =>
      C.QueueStep(c, l);
      var d := C.Step(c, l);
      forall v: nat | v < |d.crew.pool.workers| ensures |OnWorker(d, v)| == d.crew.pool.workers[v].running {
        assert OnWorker(d, v) == OnWorker(c, v);
        NobodyBeyond(c, v);
      }
  }

  lemma {:induction false} CrewRun(c: C.Coarse, ls: seq<C.Label>, d: C.Coarse)
    requires CrewInv(c) && C.Run(c, ls, d)
    ensures CrewInv(d)
    decreases |ls|
  {
    if ls != [] {
      CrewStep(c, ls[0]);
      CrewRun(C.Step(c, ls[0]), ls[1..], d);
    }
  }
}
