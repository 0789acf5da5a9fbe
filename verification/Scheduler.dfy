/** The scheduler and the worker registry as they update their fields.  Each method is
    the code of one call run without interruption; SchedulerSpec says on values what it
    computes, FineSteps interleaves its lock-protected sections. */
module Scheduler {
  import opened Types
  import opened BuildTimes
  import opened Levelling
  import Spec = SchedulerSpec
  import StopRecord

  /** A connected worker node. */
  class Worker {
    const id: WorkerId
    const hostId: string
    const max: int
    var running: int

    constructor (id: WorkerId, hostId: string, max: int)
      ensures this.id == id && this.hostId == hostId && this.max == max && running == 0
    {
      this.id, this.hostId, this.max, running := id, hostId, max, 0;
    }

    function Free(): int reads this { max - running }
  }

  class Registry {
    var workers: map<string, Worker>

    constructor ()
      ensures workers == map[]
    {
      workers := map[];
    }

    method Add(w: Worker)
      modifies this
      ensures workers == old(workers)[w.hostId := w]
    {
      workers := workers[w.hostId := w];
    }

    method Delete(hostId: string)
      modifies this
      ensures workers == old(workers) - {hostId}
    {
      workers := workers - {hostId};
    }

    /** The registered workers, in whatever order the map yields them. */
    method List() returns (ws: seq<Worker>)
      ensures forall w :: w in ws <==> w in workers.Values
      ensures |ws| == |workers|
    {
      ws := [];
      var rest := workers.Keys;
      while rest != {}
        invariant rest <= workers.Keys
        invariant forall w :: w in ws <==> exists k :: k in workers.Keys - rest && workers[k] == w
        invariant |ws| + |rest| == |workers|
        decreases rest
      {
        var k :| k in rest;
        ghost var done := workers.Keys - rest;
        ws, rest := ws + [workers[k]], rest - {k};
        assert workers.Keys - rest == done + {k};
      }
      assert workers.Keys - rest == workers.Keys;
    }
  }

  class Scheduler {
    var queued: seq<Ticket>
    var pending: map<JobId, Spec.Execution>
    var paused: bool
    var ready: bool              // a token is in the one-slot channel
    var db: Spec.Db
    var clock: nat               // the stamp of the next job object
    const registry: Registry

    constructor (registry: Registry, db: Spec.Db)
      ensures this.registry == registry && View() == Spec.State([], map[], db)
      ensures !paused && !ready && clock == 0
    {
      this.registry := registry;
      queued, pending, paused, ready, this.db, clock := [], map[], false, false, db, 0;
    }

    ghost function View(): Spec.State reads this { Spec.State(queued, pending, db) }

    // A second signal finds the slot taken and is dropped.
    method Signal()
      modifies `ready
      ensures ready
    {
      if !ready { ready := true; }
    }

    method Pause()
      modifies `paused
      ensures paused
    {
      paused := true;
    }

    method Resume()
      modifies `paused, `ready
      ensures !paused && ready
    {
      paused := false;
      Signal();
    }

    method FindJob(id: JobId) returns (t: Option<Ticket>)
      ensures t == FirstTicket(queued, id)
    {
      for i := 0 to |queued|
        invariant forall j :: 0 <= j < i ==> queued[j].id != id
      {
        if queued[i].id == id {
          FirstAt(queued, id, i);
          return Some(queued[i]);
        }
      }
      FirstAt(queued, id, |queued|);
      return None;
    }

    method RemoveJob(id: JobId)
      modifies `queued
      ensures queued == RemoveFirst(old(queued), id)
    {
      for i := 0 to |queued|
        invariant queued == old(queued)
        invariant forall j :: 0 <= j < i ==> queued[j].id != id
      {
        if queued[i].id == id {
          FirstAt(queued, id, i);
          queued := queued[..i] + queued[i + 1..];
          return;
        }
      }
      FirstAt(queued, id, |queued|);
    }

    method EnqueueJob() returns (t: Option<Ticket>)
      modifies `queued
      ensures old(queued) == [] ==> t == None && queued == []
      ensures old(queued) != [] ==> t == Some(old(queued)[0]) && queued == old(queued)[1..]
    {
      if |queued| > 0 {
        t, queued := Some(queued[0]), queued[1..];
      } else {
        t := None;
      }
    }

    /** A listed worker with the most free slots; none only if all are full. */
    method FindWorker() returns (worker: Worker?)
      ensures worker == null ==> forall w :: w in registry.workers.Values ==> w.Free() <= 0 && w.max <= w.running
      ensures worker != null ==> worker in registry.workers.Values && worker.Free() > 0 && worker.running < worker.max
      ensures worker != null ==> forall w :: w in registry.workers.Values ==> w.Free() <= worker.Free()
    {
      var ws := registry.List();
      var c := 0;
      worker := null;
      for i := 0 to |ws|
        invariant c >= 0 && (worker == null <==> c == 0)
        invariant worker != null ==> worker in ws && worker.Free() == c
        invariant forall j :: 0 <= j < i ==> ws[j].Free() <= c
      {
        var diff := ws[i].max - ws[i].running;
        if diff > c {
          worker, c := ws[i], diff;
        }
      }
    }

    method GetWorker(id: WorkerId) returns (found: bool)
      ensures found <==> exists w :: w in registry.workers.Values && w.id == id
    {
      var ws := registry.List();
      for i := 0 to |ws|
        invariant forall j :: 0 <= j < i ==> ws[j].id != id
      {
        if ws[i].id == id { return true; }
      }
      return false;
    }

    // The first loop of updateBuildTime: it stops at the first job that has not ended.
    static method ScanJobs(jobs: seq<JobRow>) returns (allDone: bool, start: Option<Time>, end: Option<Time>)
      ensures allDone <==> AllEnded(jobs)
      ensures start == Earliest(jobs[..EndedPrefix(jobs)]) && end == Latest(jobs[..EndedPrefix(jobs)])
    {
      allDone, start, end := true, None, None;
      AllEndedIff(jobs);
      for k := 0 to |jobs|
        invariant k <= EndedPrefix(jobs)
        invariant allDone && start == Earliest(jobs[..k]) && end == Latest(jobs[..k])
      {
        var j := jobs[k];
        if j.end == None {
          return false, start, end;
        }
        assert jobs[..k + 1][..k] == jobs[..k];
        if end == None || end.value < j.end.value {
          end := j.end;
        }
        if start == None || (j.start.Some? && j.start.value < start.value) {
          start := j.start;
        }
      }
    }

    static method Succeeded(jobs: seq<JobRow>) returns (success: bool)
      ensures success <==> AllPassing(jobs)
    {
      for i := 0 to |jobs|
        invariant forall j :: 0 <= j < i ==> jobs[j].status == PASSING
      {
        if jobs[i].status != PASSING {
          assert jobs[i] in jobs;
          return false;
        }
      }
      return true;
    }

    /** Rebuilds the build's times from its jobs' rows; false if there is no such build. */
    method UpdateBuildTime(bid: BuildId) returns (ok: bool)
      modifies `db
      ensures db == Spec.TouchBuild(old(db), bid)
      ensures ok <==> bid in db.builds
    {
      if bid !in db.builds { return false; }
      var build := db.builds[bid];
      if build.start.Some? && build.end.Some? {
        assert db.builds[bid := build] == db.builds;
        return true;
      }
      var jobs := Spec.JobRows(build.jobs, db.rows);
      var allDone, start, end := ScanJobs(jobs);
      AllEndedIff(jobs);
      assert jobs[..|jobs|] == jobs;
      if start.Some? {
        build := build.(start := start);
      }
      if allDone && end.Some? {
        var success := Succeeded(jobs);
        build := build.(end := end, sent := build.sent + [success]);
      }
      db := db.(builds := db.builds[bid := build]);
      return true;
    }

    method SaveJob(id: JobId, row: JobRow) returns (ok: bool)
      modifies `db
      ensures db == Spec.SaveJob(old(db), id, row)
      ensures ok <==> row.build in db.builds
    {
      db := db.(rows := db.rows[id := row]);
      ok := UpdateBuildTime(row.build);
    }

    /** Cancels a queued or running job.  rpcStopped is the worker's answer to StopJob. */
    method Stop(id: JobId, now: Time, rpcStopped: bool) returns (stopped: bool)
      modifies `queued, `pending, `db
      ensures View() == Spec.Stop(old(View()), id, now)
      ensures stopped <==>
                match FirstTicket(old(queued), id)
                case Some(t) => t.build in db.builds
                case None => id in old(pending) && rpcStopped &&
                             exists w :: w in registry.workers.Values && w.id == old(pending)[id].worker
    {
      var t := FindJob(id);
      if t.Some? {
        RemoveJob(id);
        stopped := SaveJob(id, Spec.DroppedRow(t.value, now));
        return;
      }
      if id in pending {
        var e := pending[id];
        var listed := GetWorker(e.worker);
        var _ := SaveJob(id, Spec.EndedRow(e, FAILING, now));
        pending := pending - {id};
        return listed && rpcStopped;
      }
      return false;
    }

    /** Schedules a job, superseding an earlier request for it. */
    method Next(id: JobId, build: BuildId, now: Time, rpcStopped: bool)
      modifies `queued, `pending, `db, `ready, `clock
      ensures View() == Spec.Next(old(View()), Ticket(id, build, old(clock)), now)
      ensures ready && clock == old(clock) + 1
    {
      var t := Ticket(id, build, clock);
      var _ := Stop(id, now, rpcStopped);
      queued, clock := queued + [t], clock + 1;
      var _ := SaveJob(id, Spec.QueuedRow(t));
      Signal();
    }

    // One goroutine per job, in an order nobody chooses.
    method StopJobs(ids: set<JobId>, at: map<JobId, Time>, rpcStopped: bool) returns (ghost order: seq<JobId>)
      requires Spec.QueueInv(View()) && ids <= at.Keys
      modifies `queued, `pending, `db
      ensures queued == Spec.Without(old(queued), ids)
      ensures pending == old(pending) - ids
      ensures db.rows == Spec.StoppedRows(old(View()), ids, at)
      ensures Spec.QueueInv(View())
      ensures Spec.IdsOf(order) == ids && View() == Spec.StopAll(old(View()), order, at)
    {
      var rest := ids;
      order := [];
      ghost var was := View();
      while rest != {}
        invariant rest <= ids && (forall id :: id in order <==> id in ids - rest)
        invariant View() == Spec.StopAll(was, order, at)
        decreases rest
      {
        var id :| id in rest;
        var _ := Stop(id, at[id], rpcStopped);
        StopAllSnoc(was, order, id, at);
        order, rest := order + [id], rest - {id};
      }
      Spec.StopOrderIrrelevant(was, order, at);
      assert Spec.IdsOf(order) == ids;
    }

    /** Stops every job of a build and aggregates once more. */
    method StopBuild(bid: BuildId, at: map<JobId, Time>, rpcStopped: bool) returns (found: bool)
      requires Spec.QueueInv(View())
      requires bid in db.builds ==> forall id :: id in db.builds[bid].jobs ==> id in at
      modifies `queued, `pending, `db
      ensures found <==> bid in old(db).builds
      ensures found ==>
        var ids := Spec.IdsOf(old(db).builds[bid].jobs);
        && queued == Spec.Without(old(queued), ids)
        && pending == old(pending) - ids
        && db.rows == Spec.StoppedRows(old(View()), ids, at)
        && Spec.QueueInv(View())
      ensures found && StopRecord.Ready(old(View()), bid, old(db).builds[bid].jobs) ==>
        db == Spec.TouchBuild(Spec.StopAll(old(View()), old(db).builds[bid].jobs, at).db, bid)
      ensures !found ==> View() == old(View())
    {
      if bid !in db.builds { return false; }
      ghost var was, jobs := View(), db.builds[bid].jobs;
      var ids := Spec.IdsOf(db.builds[bid].jobs);
      ghost var order := StopJobs(ids, at, rpcStopped);
      if StopRecord.Ready(was, bid, jobs) {
        assert forall id :: id in order <==> id in Spec.IdsOf(order);
        StopRecord.StopOrderState(was, order, jobs, at, bid, jobs);
      }
      var _ := UpdateBuildTime(bid);
      return true;
    }

    method RestartBuild(bid: BuildId, now: Time, rpcStopped: bool) returns (found: bool)
      modifies `queued, `pending, `db, `ready, `clock
      ensures found <==> bid in old(db).builds
      ensures found ==> View() == Spec.Restart(old(View()), bid, old(clock), now)
      ensures !found ==> View() == old(View())
    {
      if bid !in db.builds { return false; }
      var jobs := db.builds[bid].jobs;
      db := db.(builds := db.builds[bid := Build(jobs, None, None, [])]);
      ghost var view, rest := View(), jobs;
      ghost var goal := Spec.NextAll(view, jobs, bid, clock, now);
      for i := 0 to |jobs|
        invariant view == View() && rest == jobs[i..]
        invariant Spec.NextAll(view, rest, bid, clock, now) == goal
      {
        Next(jobs[i], bid, now, rpcStopped);
        view, rest := View(), rest[1..];
      }
      return true;
    }

    /** startJob up to its pending entry and first signal. */
    method StartJob(t: Ticket, w: Worker, now: Time)
      modifies `queued, `pending, `db, `ready, w`running
      ensures w.running == old(w.running) + 1 && ready
      ensures queued == RemoveFirst(old(queued), t.id)
      ensures pending == old(pending)[t.id := Spec.Execution(t, w.id, now)]
      ensures db == Spec.SaveJob(old(db), t.id, Spec.RunningRow(t, now))
    {
      w.running := w.running + 1;
      RemoveJob(t.id);
      var _ := SaveJob(t.id, Spec.RunningRow(t, now));
      pending := pending[t.id := Spec.Execution(t, w.id, now)];
      Signal();
    }

    /** startJob from the end of the execution on. */
    method FinishJob(e: Spec.Execution, w: Worker, status: string, now: Time)
      modifies `pending, `db, `ready, w`running
      ensures View() == Spec.Finish(old(View()), e, status, now)
      ensures w.running == old(w.running) - 1 && ready
    {
      var _ := SaveJob(e.job.id, Spec.EndedRow(e, status, now));
      pending := pending - {e.job.id};
      Signal();
      w.running := w.running - 1;
    }

    /** One call of process with the execution it spawns run up to its pending entry. */
    method Process(now: Time) returns (worker: Worker?)
      modifies `queued, `pending, `db, `ready, registry.workers.Values`running
      ensures forall w :: w in registry.workers.Values ==> w.running == old(w.running) + (if w == worker then 1 else 0)
      ensures worker == null ==>
        && View() == old(View()) && ready == old(ready)
        && (paused || queued == [] || forall w :: w in registry.workers.Values ==> w.Free() <= 0)
      ensures worker != null ==>
        && !paused && old(queued) != [] && ready
        && View() == Spec.Dispatch(old(View()), worker.id, now)
        && worker in registry.workers.Values && worker.Free() >= 0
        && (forall w :: w in registry.workers.Values ==> w.Free() <= worker.Free() + 1)
    {
      if paused { return null; }
      worker := FindWorker();
      if worker == null { return; }
      var t := EnqueueJob();
      if t == None { return null; }
      StartJob(t.value, worker, now);
    }

    // Process, with the free slots read off an enumeration of the workers.
    method ProcessOver(now: Time, ghost all: seq<Worker>) returns (worker: Worker?, ghost i: nat)
      requires Enumerates(all, registry.workers)
      modifies `queued, `pending, `db, `ready, registry.workers.Values`running
      ensures worker == null ==>
        && ready == old(ready) && View() == old(View()) && FreeOf(all) == old(FreeOf(all))
        && (paused || queued == [] || Capacity(FreeOf(all)) == 0)
      ensures worker != null ==>
        && !paused && ready && old(queued) != [] && View() == Spec.Dispatch(old(View()), worker.id, now)
        && MostFree(old(FreeOf(all)), i) && all[i] == worker
        && FreeOf(all) == old(FreeOf(all))[i := old(FreeOf(all))[i] - 1]
    {
      i := 0;
      ghost var before := FreeOf(all);
      worker := Process(now);
      forall j | 0 <= j < |all| ensures before[j] == all[j].Free() + (if all[j] == worker then 1 else 0) {
        assert all[j] in registry.workers.Values;
      }
      if worker == null {
        assert FreeOf(all) == before;
        AllFull(all, registry.workers);
      } else {
        i :| 0 <= i < |all| && all[i] == worker;
        OneTaken(all, registry.workers, before, i);
      }
    }

    // The select case that takes the token.
    method Wake(now: Time, ghost all: seq<Worker>) returns (worker: Worker?, ghost i: nat)
      requires Enumerates(all, registry.workers)
      modifies `queued, `pending, `db, `ready, registry.workers.Values`running
      ensures worker == null ==>
        && !ready && View() == old(View()) && FreeOf(all) == old(FreeOf(all))
        && (paused || queued == [] || Capacity(FreeOf(all)) == 0)
      ensures worker != null ==>
        && !paused && ready && old(queued) != [] && View() == Spec.Dispatch(old(View()), worker.id, now)
        && MostFree(old(FreeOf(all)), i) && all[i] == worker
        && FreeOf(all) == old(FreeOf(all))[i := old(FreeOf(all))[i] - 1]
    {
      ghost var before := FreeOf(all);
      ready := false;
      assert FreeOf(all) == before;
      worker, i := ProcessOver(now, all);
    }

    // One iteration of the run loop, with what the loop has done so far.
    method Iterate(now: Time, ghost all: seq<Worker>, ghost p: Progress) returns (worker: Worker?, ghost q: Progress)
      requires Enumerates(all, registry.workers) && p.view == View() && p.left == FreeOf(all) && p.Holds(all, now)
      modifies `queued, `pending, `db, `ready, registry.workers.Values`running
      ensures q.view == View() && q.left == FreeOf(all) && q.Holds(all, now)
      ensures q.was == p.was && q.free == p.free
      ensures worker == null ==>
        !ready && q.ids == p.ids && (paused || q.view.queued == [] || Capacity(q.left) == 0)
      ensures worker != null ==>
        ready && !paused && q.ids == p.ids + [worker.id] && |q.view.queued| < |p.view.queued|
    {
      ghost var i;
      worker, i := Wake(now, all);
      q := p;
      if worker != null {
        DrainStep(all, p, worker.id, i, now);
        q := Progress(p.was, p.free, p.ids + [worker.id], p.picks + [i], View(), FreeOf(all));
      }
    }

    // The loop of Drain, from what has been done so far.
    method Loop(now: Time, ghost all: seq<Worker>, ghost p: Progress) returns (ids: seq<WorkerId>, ghost q: Progress)
      requires Enumerates(all, registry.workers) && p.view == View() && p.left == FreeOf(all) && p.Holds(all, now)
      requires p.ids == []
      modifies `queued, `pending, `db, `ready, registry.workers.Values`running
      ensures !ready && q.view == View() && q.left == FreeOf(all) && q.Holds(all, now)
      ensures q.was == p.was && q.free == p.free && q.ids == ids
      ensures !old(ready) || paused ==> ids == []
      ensures old(ready) && !paused ==> q.view.queued == [] || Capacity(q.left) == 0
    {
      ids, q := [], p;
      while ready
        invariant q.was == p.was && q.free == p.free && q.ids == ids
        invariant q.view == View() && q.left == FreeOf(all) && q.Holds(all, now)
        invariant !old(ready) || paused ==> ids == []
        invariant ready ==> old(ready)
        invariant !ready && old(ready) && !paused ==> q.view.queued == [] || Capacity(q.left) == 0
        decreases |q.view.queued|, ready
      {
        var worker;
        worker, q := Iterate(now, all, q);
        if worker != null {
          ids := ids + [worker.id];
        }
      }
    }

    /** The run loop with no other events: each dispatch's signal wakes it again until
        the token stays away. */
    method Drain(now: Time, ghost all: seq<Worker>) returns (ids: seq<WorkerId>, ghost picks: seq<nat>)
      requires Spec.QueueInv(View()) && Enumerates(all, registry.workers)
      modifies `queued, `pending, `db, `ready, registry.workers.Values`running
      ensures !ready
      ensures |ids| == if old(ready) && !paused then Min(|old(queued)|, Capacity(old(FreeOf(all)))) else 0
      ensures DrainedTo(old(View()), ids, View(), now)
      ensures PlacedOn(all, old(FreeOf(all)), ids, picks, FreeOf(all))
    {
      ghost var p := Progress(View(), FreeOf(all), [], [], View(), FreeOf(all));
      ids, p := Loop(now, all, p);
      picks := p.picks;
    }
  }

  /** What the run loop has done: the state and free slots it began with, the workers it
      sent jobs to, and the state and free slots now. */
  datatype Progress = Progress(was: Spec.State, free: seq<int>, ids: seq<WorkerId>, picks: seq<nat>,
                               view: Spec.State, left: seq<int>) {
    ghost predicate Holds(all: seq<Worker>, now: Time) {
      && Spec.QueueInv(was)
      && DrainedTo(was, ids, view, now) && PlacedOn(all, free, ids, picks, left)
      && Capacity(left) == Capacity(free) - |ids|
    }
  }

  // all lists the registered workers, each once.
  ghost predicate Enumerates(all: seq<Worker>, workers: map<string, Worker>) {
    && (forall w :: w in all ==> w in workers.Values)
    && (forall w :: w in workers.Values ==> w in all)
    && (forall i, j :: 0 <= i < j < |all| ==> all[i] != all[j])
  }

  /** The head of the queue went to the named workers in order, nothing else moved. */
  ghost predicate DrainedTo(was: Spec.State, ids: seq<WorkerId>, view: Spec.State, now: Time) {
    && |ids| <= |was.queued| && view.queued == was.queued[|ids|..]
    && view == DispatchAll(was, ids, now) && Spec.QueueInv(view)
  }

  /** Each job went to a most-free worker of its moment. */
  ghost predicate PlacedOn(all: seq<Worker>, free: seq<int>, ids: seq<WorkerId>, picks: seq<nat>, after: seq<int>) {
    && |picks| == |ids| && |free| == |all| && Greedy(free, picks)
    && (forall k :: 0 <= k < |picks| ==> picks[k] < |free|)
    && (forall k :: 0 <= k < |picks| ==> all[picks[k]].id == ids[k])
    && after == Place(free, picks)
  }

  /** What Drain leaves: slots are only taken, a worker that was within its maximum is
      still within it, and no other way to place as many jobs levels the workers better. */
  lemma DrainLevels(all: seq<Worker>, free: seq<int>, ids: seq<WorkerId>, picks: seq<nat>, after: seq<int>,
                    other: seq<nat>, top: nat)
    requires PlacedOn(all, free, ids, picks, after)
    requires |other| == |ids| && forall k :: 0 <= k < |other| ==> other[k] < |free|
    requires top < |free| && forall j :: 0 <= j < |free| ==> after[j] <= after[top]
    ensures forall i :: 0 <= i < |free| ==> after[i] <= free[i] && (free[i] >= 0 ==> after[i] >= 0)
    ensures forall k :: 0 <= k < |picks| ==> after[picks[k]] >= after[top] - 1
    ensures exists j :: 0 <= j < |free| && Place(free, other)[j] >= after[top]
  {
    GreedyKeepsRoom(free, picks);
    GreedyIsOptimal(free, picks, other, top);
  }

  lemma AllFull(all: seq<Worker>, workers: map<string, Worker>)
    requires Enumerates(all, workers)
    ensures (forall w :: w in workers.Values ==> w.Free() <= 0) ==> Capacity(FreeOf(all)) == 0
  {
    CapacityZero(FreeOf(all));
    if forall w :: w in workers.Values ==> w.Free() <= 0 {
      forall j | 0 <= j < |all| ensures FreeOf(all)[j] <= 0 { assert all[j] in workers.Values; }
    }
  }

  // before and after a slot of worker i was taken
  lemma OneTaken(all: seq<Worker>, workers: map<string, Worker>, before: seq<int>, i: nat)
    requires Enumerates(all, workers) && |before| == |all| && i < |all|
    requires forall j :: 0 <= j < |all| ==> before[j] == all[j].Free() + (if all[j] == all[i] then 1 else 0)
    requires all[i].Free() >= 0 && forall w :: w in workers.Values && w != all[i] ==> w.Free() <= all[i].Free() + 1
    ensures FreeOf(all) == before[i := before[i] - 1] && MostFree(before, i)
  {
    forall j | 0 <= j < |all| ensures before[j] <= before[i] { assert all[j] in workers.Values; }
  }

  lemma DrainStep(all: seq<Worker>, p: Progress, id: WorkerId, i: nat, now: Time)
    requires p.Holds(all, now) && p.view.queued != []
    requires MostFree(p.left, i) && i < |all| && all[i].id == id
    ensures var q := Progress(p.was, p.free, p.ids + [id], p.picks + [i],
                              Spec.Dispatch(p.view, id, now), p.left[i := p.left[i] - 1]);
      q.Holds(all, now) && |q.view.queued| < |p.view.queued|
  {
    GreedySnoc(p.free, p.picks, i);
    CapacityPick(p.left, i);
    DispatchSnoc(p.was, p.ids, id, now);
  }

  function Min(a: nat, b: nat): nat { if a < b then a else b }

  function FreeOf(ws: seq<Worker>): (r: seq<int>)
    reads ws
    ensures |r| == |ws| && forall i :: 0 <= i < |ws| ==> r[i] == ws[i].Free()
  {
    if ws == [] then [] else FreeOf(ws[..|ws| - 1]) + [ws[|ws| - 1].Free()]
  }

  /** The queue's head jobs dispatched to the named workers, one after the other. */
  function DispatchAll(s: Spec.State, ids: seq<WorkerId>, now: Time): Spec.State
    decreases |ids|
  {
    if ids == [] || s.queued == [] then s else DispatchAll(Spec.Dispatch(s, ids[0], now), ids[1..], now)
  }

  lemma {:induction false} DispatchSnoc(s: Spec.State, ids: seq<WorkerId>, id: WorkerId, now: Time)
    requires Spec.QueueInv(s) && |ids| < |s.queued|
    ensures DispatchAll(s, ids, now).queued == s.queued[|ids|..]
    ensures Spec.QueueInv(DispatchAll(s, ids, now))
    ensures DispatchAll(s, ids + [id], now) == Spec.Dispatch(DispatchAll(s, ids, now), id, now)
    ensures DispatchAll(s, ids + [id], now).queued == s.queued[|ids| + 1..]
    ensures Spec.QueueInv(DispatchAll(s, ids + [id], now))
    decreases |ids|
  {
    Spec.HeadLeaves(s.queued);
    if ids == [] {
      assert [id][1..] == [];
    } else {
      var u := Spec.Dispatch(s, ids[0], now);
      DispatchSnoc(u, ids[1..], id, now);
      assert (ids + [id])[1..] == ids[1..] + [id];
    }
  }

  lemma {:induction false} StopAllSnoc(s: Spec.State, order: seq<JobId>, id: JobId, at: map<JobId, Time>)
    requires id in at && forall x :: x in order ==> x in at
    ensures forall x :: x in order + [id] ==> x in at
    ensures Spec.StopAll(s, order + [id], at) == Spec.Stop(Spec.StopAll(s, order, at), id, at[id])
    decreases |order|
  {
    if order == [] {
      assert [id][1..] == [];
    } else {
      StopAllSnoc(Spec.Stop(s, order[0], at[order[0]]), order[1..], id, at);
      assert (order + [id])[1..] == order[1..] + [id];
    }
  }
}
