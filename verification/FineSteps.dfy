/** The scheduler as a transition system in which every lock-protected section
    is one step and any number of API calls, executions and the single run loop
    interleave. */
module FineSteps {
  import opened Types

  // Where a startJob goroutine stands; each name is the state before the lines given.
  datatype StartPc =
    | Spawned        // 269, Running++
    | Counted        // 279, removeJob
    | Cleared        // 338, pending[id] = ...
    | Registered     // 357, first signal
    | Executing      // 387, delete(pending, id)
    | Unregistered   // 391, second signal
    | Releasing      // 274, Running--

  datatype StopPc =
    | Looking        // 99, findJob
    | Found          // 100, removeJob
    | Missed         // 112, pending lookup
    | Cancelled      // 116, delete(pending, id)

  datatype Act =
    | Start(spc: StartPc, ticket: Ticket, worker: nat)
    | Stopping(pc: StopPc, job: Ticket, forNext: bool)  // Stop, or line 69 of Next
    | Appending(job: Ticket)                            // Next before line 70
    | Owing                                             // Next before 93, Resume before 193

  datatype LoopPc =
    | Idle               // in the select of run
    | Woken              // token taken, before 242
    | Unpaused           // before findWorker
    | Chosen(worker: nat) // before enqueueJob

  // How the last call of process ended.
  datatype Outcome = Never | SawPaused | SawNoWorker | SawEmpty | Started(act: nat)

  /** What mu and the one-slot channel protect.  A pending entry is known by the
      activity that put it there. */
  datatype Shared = Shared(queued: seq<Ticket>, pending: map<JobId, nat>, paused: bool, ready: bool)

  /** History: the next arrival stamp, the stamps dequeued and removed so far, the last outcome
      of process, the executions that had sent their last signal but not given their slot back
      when the workers were last compared, and whether one of these gave it back, or a worker
      connected, since. */
  datatype History = History(clock: nat, dispatched: seq<nat>, removed: set<nat>,
                             last: Outcome, early: set<nat>, released: bool)

  datatype Sys = Sys(sh: Shared, pool: Pool, loop: LoopPc, acts: map<nat, Act>, h: History)

  const INIT := Sys(Shared([], map[], false, false), Pool([], {}), Idle, map[],
                    History(0, [], {}, Never, {}, false))

  datatype Label =
    | CallNext(a: nat, id: JobId, build: BuildId)
    | CallStop(a: nat, id: JobId)
    | CallPause
    | CallResume(a: nat)
    | Advance(a: nat)
    | Take
    | CheckPaused
    | Scan(choice: Option<nat>)
    | Dequeue(a: nat)
    | Tick
    | Connect(max: int)
    | Disconnect(w: nat)

  /** Free slots as findWorker computes them. */
  function Free(s: Sys, w: nat): int
    requires w < |s.pool.workers|
  {
    FreeSlots(s.pool, w)
  }

  // List may enumerate the registry in any order, so any most-free worker may be chosen.  The
  // comparison is one step here; findWorker holds each worker's own lock only while it reads it.
  predicate ScanAnswer(s: Sys, choice: Option<nat>) {
    match choice
    case None => forall w :: w in s.pool.listed && w < |s.pool.workers| ==> Free(s, w) <= 0
    case Some(c) => MostFreeIn(s.pool, c)
  }

  predicate Enabled(s: Sys, l: Label) {
    match l
    case CallNext(a, _, _) => a !in s.acts
    case CallStop(a, _) => a !in s.acts
    case CallPause => true
    case CallResume(a) => a !in s.acts
    case Advance(a) => a in s.acts && (s.acts[a].Start? ==> s.acts[a].worker < |s.pool.workers|)
    case Take => s.loop == Idle && s.sh.ready
    case CheckPaused => s.loop == Woken
    case Scan(choice) => s.loop == Unpaused && ScanAnswer(s, choice)
    case Dequeue(a) => s.loop.Chosen? && a !in s.acts
    case Tick => s.loop == Idle
    case Connect(_) => true
    case Disconnect(w) => w in s.pool.listed
  }

  function SetAct(s: Sys, a: nat, act: Act): Sys { s.(acts := s.acts[a := act]) }

  function Remove(s: Sys, id: JobId): Sys {
    match FirstTicket(s.sh.queued, id)
    case None => s
    case Some(t) => s.(sh := s.sh.(queued := RemoveFirst(s.sh.queued, id)),
                       h := s.h.(removed := s.h.removed + {t.stamp}))
  }

  function AdvanceStart(s: Sys, a: nat): Sys
    requires a in s.acts && s.acts[a].Start? && s.acts[a].worker < |s.pool.workers|
  {
    var Start(pc, ticket, w) := s.acts[a];
    match pc
    case Spawned => SetAct(s.(pool := Bump(s.pool, w, 1)), a, Start(Counted, ticket, w))
    case Counted => SetAct(Remove(s, ticket.id), a, Start(Cleared, ticket, w))
    case Cleared => SetAct(s.(sh := s.sh.(pending := s.sh.pending[ticket.id := a])), a, Start(Registered, ticket, w))
    case Registered => SetAct(s.(sh := s.sh.(ready := true)), a, Start(Executing, ticket, w))
    case Executing => SetAct(s.(sh := s.sh.(pending := s.sh.pending - {ticket.id})), a, Start(Unregistered, ticket, w))
    case Unregistered => SetAct(s.(sh := s.sh.(ready := true)), a, Start(Releasing, ticket, w))
    case Releasing => s.(pool := Bump(s.pool, w, -1), acts := s.acts - {a},
                         h := s.h.(released := s.h.released || a in s.h.early))
  }

  function EndStop(s: Sys, a: nat): Sys
    requires a in s.acts && s.acts[a].Stopping?
  {
    if s.acts[a].forNext then SetAct(s, a, Appending(s.acts[a].job)) else s.(acts := s.acts - {a})
  }

  function AdvanceStop(s: Sys, a: nat): Sys
    requires a in s.acts && s.acts[a].Stopping?
  {
    var Stopping(pc, job, forNext) := s.acts[a];
    match pc
    case Looking =>
      SetAct(s, a, Stopping(if FirstTicket(s.sh.queued, job.id).Some? then Found else Missed, job, forNext))
    case Found => EndStop(Remove(s, job.id), a)
    case Missed => if job.id in s.sh.pending then SetAct(s, a, Stopping(Cancelled, job, forNext)) else EndStop(s, a)
    case Cancelled => EndStop(s.(sh := s.sh.(pending := s.sh.pending - {job.id})), a)
  }

  // The executions between their last signal and their deferred decrement.
  function GivingBack(acts: map<nat, Act>): set<nat> {
    set a | a in acts && acts[a].Start? && acts[a].spc == Releasing
  }

  // One iteration of run, section by section.
  function StepLoop(s: Sys, l: Label): Sys
    requires Enabled(s, l) && (l.Take? || l.CheckPaused? || l.Scan? || l.Dequeue? || l.Tick?)
  {
    match l
    case Take => s.(sh := s.sh.(ready := false), loop := Woken)
    case CheckPaused =>
      if s.sh.paused then s.(loop := Idle, h := s.h.(last := SawPaused)) else s.(loop := Unpaused)
    case Scan(choice) =>
      (match choice
       case None => s.(loop := Idle, h := s.h.(last := SawNoWorker, early := GivingBack(s.acts), released := false))
       case Some(w) => s.(loop := Chosen(w), h := s.h.(early := GivingBack(s.acts), released := false)))
    case Dequeue(a) =>
      if s.sh.queued == [] then s.(loop := Idle, h := s.h.(last := SawEmpty))
      else s.(sh := s.sh.(queued := s.sh.queued[1..]), loop := Idle,
              acts := s.acts[a := Start(Spawned, s.sh.queued[0], s.loop.worker)],
              h := s.h.(dispatched := s.h.dispatched + [s.sh.queued[0].stamp], last := Started(a)))
    case Tick => s.(sh := s.sh.(ready := true))
  }

  function StepCall(s: Sys, l: Label): Sys
    requires Enabled(s, l) && (l.CallNext? || l.CallStop? || l.CallPause? || l.CallResume?)
  {
    match l
    case CallNext(a, id, build) => SetAct(s, a, Stopping(Looking, Ticket(id, build, 0), true))
    case CallStop(a, id) => SetAct(s, a, Stopping(Looking, Ticket(id, 0, 0), false))
    case CallPause => s.(sh := s.sh.(paused := true))
    case CallResume(a) => SetAct(s.(sh := s.sh.(paused := false)), a, Owing)
  }

  function Step(s: Sys, l: Label): Sys
    requires Enabled(s, l)
  {
    match l
    case Advance(a) =>
      (match s.acts[a]
       case Start(_, _, _) => AdvanceStart(s, a)
       case Stopping(_, _, _) => AdvanceStop(s, a)
       case Appending(job) =>
         s.(sh := s.sh.(queued := s.sh.queued + [Ticket(job.id, job.build, s.h.clock)]),
            acts := s.acts[a := Owing], h := s.h.(clock := s.h.clock + 1))
       case Owing => s.(sh := s.sh.(ready := true), acts := s.acts - {a}))
    case Connect(max) =>
      s.(pool := Connected(s.pool, max), h := s.h.(released := true))
    case Disconnect(w) => s.(pool := s.pool.(listed := s.pool.listed - {w}))
    case CallNext(_, _, _) => StepCall(s, l)
    case CallStop(_, _) => StepCall(s, l)
    case CallPause => StepCall(s, l)
    case CallResume(_) => StepCall(s, l)
    case _ => StepLoop(s, l)
  }

  predicate Run(s: Sys, ls: seq<Label>, t: Sys)
    decreases |ls|
  {
    if ls == [] then s == t
    else Enabled(s, ls[0]) && Run(Step(s, ls[0]), ls[1..], t)
  }

  // ---- Slot conservation ----

  predicate HoldsSlot(act: Act, w: nat) { act.Start? && act.spc != Spawned && act.worker == w }

  // The executions between their increment and their deferred decrement on worker w.
  function Holders(s: Sys, w: nat): set<nat> { set a | a in s.acts && HoldsSlot(s.acts[a], w) }

  predicate InRange(s: Sys) {
    && (forall a :: a in s.acts && s.acts[a].Start? ==> s.acts[a].worker < |s.pool.workers|)
    && (forall w :: w in s.pool.listed ==> w < |s.pool.workers|)
    && (s.loop.Chosen? ==> s.loop.worker < |s.pool.workers|)
  }

  predicate Owned(s: Sys, id: JobId)
    requires id in s.sh.pending
  {
    var a := s.sh.pending[id];
    a in s.acts && s.acts[a].Start? && s.acts[a].ticket.id == id && s.acts[a].spc in {Registered, Executing}
  }

  predicate SlotInv(s: Sys) {
    && InRange(s)
    && (forall w :: 0 <= w < |s.pool.workers| ==> s.pool.workers[w].running == |Holders(s, w)|)
    && (forall id :: id in s.sh.pending ==> Owned(s, id))
  }

  // The activities after a step differ at most in activity a.
  predicate OnlyMover(before: map<nat, Act>, after: map<nat, Act>, a: nat) {
    || after == before
    || after == before - {a}
    || (a in after && after == before[a := after[a]])
  }

  lemma MoverAt(before: map<nat, Act>, after: map<nat, Act>, a: nat, b: nat)
    requires OnlyMover(before, after, a) && b != a
    ensures b in before <==> b in after
    ensures b in before ==> before[b] == after[b]
  {
  }

  // One activity joins, leaves or keeps the holders of w.
  lemma HoldersChange(s: Sys, t: Sys, a: nat, w: nat)
    requires forall b :: b != a ==> (b in s.acts <==> b in t.acts) && (b in s.acts ==> s.acts[b] == t.acts[b])
    ensures var before := a in s.acts && HoldsSlot(s.acts[a], w);
            var after := a in t.acts && HoldsSlot(t.acts[a], w);
      |Holders(t, w)| == |Holders(s, w)| + (if after then 1 else 0) - (if before then 1 else 0)
  {
    assert Holders(s, w) - {a} == Holders(t, w) - {a};
    assert a !in Holders(s, w) ==> Holders(s, w) - {a} == Holders(s, w);
    assert a !in Holders(t, w) ==> Holders(t, w) - {a} == Holders(t, w);
  }

  // The activity a label moves; a step without one keeps the activities as they are.
  function Mover(s: Sys, l: Label): nat {
    match l
    case CallNext(a, _, _) => a
    case CallStop(a, _) => a
    case CallResume(a) => a
    case Advance(a) => a
    case Dequeue(a) => a
    case _ => 0
  }

  /** What a step owes the slot argument: only activity a changes, and each old
      counter moves exactly when a starts or stops holding a slot. */
  predicate Moves(s: Sys, t: Sys, a: nat) {
    && OnlyMover(s.acts, t.acts, a)
    && |s.pool.workers| <= |t.pool.workers|
    && (forall w :: 0 <= w < |s.pool.workers| ==>
          t.pool.workers[w].running - s.pool.workers[w].running
            == (if a in t.acts && HoldsSlot(t.acts[a], w) then 1 else 0)
             - (if a in s.acts && HoldsSlot(s.acts[a], w) then 1 else 0))
    && (forall w :: |s.pool.workers| <= w < |t.pool.workers| ==> t.pool.workers[w].running == 0 && t.acts == s.acts)
    && (InRange(s) ==> InRange(t))
  }

  lemma StartMoves(s: Sys, a: nat)
    requires a in s.acts && s.acts[a].Start? && s.acts[a].worker < |s.pool.workers|
    ensures Moves(s, AdvanceStart(s, a), a)
  {
  }

  lemma StopMoves(s: Sys, a: nat)
    requires a in s.acts && s.acts[a].Stopping?
    ensures Moves(s, AdvanceStop(s, a), a)
  {
  }

  lemma {:induction false} StepMoves(s: Sys, l: Label)
    requires Enabled(s, l)
    ensures Moves(s, Step(s, l), Mover(s, l))
  {
    if l.Advance? {
      if s.acts[l.a].Start? { StartMoves(s, l.a); }
      else if s.acts[l.a].Stopping? { StopMoves(s, l.a); }
    }
  }

  // A key is registered by the execution it points to and gone before that execution is.
  lemma PendingStart(s: Sys, a: nat, id: JobId)
    requires a in s.acts && s.acts[a].Start? && s.acts[a].worker < |s.pool.workers|
    requires id in s.sh.pending ==> Owned(s, id)
    requires id in AdvanceStart(s, a).sh.pending
    ensures Owned(AdvanceStart(s, a), id)
  {
    match s.acts[a].spc
    case Cleared =>
    case Executing =>
    case Registered =>
    case _ =>
      assert AdvanceStart(s, a).sh.pending == s.sh.pending;
      assert s.sh.pending[id] != a;
  }

  lemma PendingStop(s: Sys, a: nat, id: JobId)
    requires a in s.acts && s.acts[a].Stopping?
    requires id in s.sh.pending ==> Owned(s, id)
    requires id in AdvanceStop(s, a).sh.pending
    ensures Owned(AdvanceStop(s, a), id)
  {
    StopMoves(s, a);
  }

  lemma {:induction false} PendingStep(s: Sys, l: Label, id: JobId)
    requires SlotInv(s) && Enabled(s, l) && id in Step(s, l).sh.pending
    ensures Owned(Step(s, l), id)
  {
    if l.Advance? && s.acts[l.a].Start? { PendingStart(s, l.a, id); }
    else if l.Advance? && s.acts[l.a].Stopping? { PendingStop(s, l.a, id); }
    else { assert Owned(s, id); }
  }

  lemma SlotStep(s: Sys, l: Label)
    requires SlotInv(s) && Enabled(s, l)
    ensures SlotInv(Step(s, l))
  {
    var t := Step(s, l);
    StepMoves(s, l);
    forall b | b != Mover(s, l)
      ensures (b in s.acts <==> b in t.acts) && (b in s.acts ==> s.acts[b] == t.acts[b])
    {
      MoverAt(s.acts, t.acts, Mover(s, l), b);
    }
    forall w | 0 <= w < |t.pool.workers|
      ensures t.pool.workers[w].running == |Holders(t, w)|
    {
      HoldersChange(s, t, Mover(s, l), w);
      if w >= |s.pool.workers| { assert t.acts == s.acts && Holders(s, w) == {}; }
    }
    forall id | id in t.sh.pending ensures Owned(t, id) { PendingStep(s, l, id); }
  }

  function SumRunning(ws: seq<Slot>): int {
    if ws == [] then 0 else SumRunning(ws[..|ws| - 1]) + ws[|ws| - 1].running
  }

  function HoldersBelow(s: Sys, k: nat): set<nat> {
    set a | a in s.acts && s.acts[a].Start? && s.acts[a].spc != Spawned && s.acts[a].worker < k
  }

  // The holders of the first k workers, counted worker by worker.
  lemma {:induction false} SumIsCount(s: Sys, k: nat)
    requires SlotInv(s) && k <= |s.pool.workers|
    ensures SumRunning(s.pool.workers[..k]) ==
            |HoldersBelow(s, k)|
  {
    if k == 0 {
      assert HoldersBelow(s, 0) == {};
    } else {
      SumIsCount(s, k - 1);
      assert s.pool.workers[..k][..k - 1] == s.pool.workers[..k - 1];
      assert HoldersBelow(s, k) == HoldersBelow(s, k - 1) + Holders(s, k - 1);
      assert HoldersBelow(s, k - 1) !! Holders(s, k - 1);
    }
  }

  lemma {:induction false} InjectionBound(m: map<nat, nat>, keys: set<nat>, target: set<nat>)
    requires keys <= m.Keys
    requires forall k :: k in keys ==> m[k] in target
    requires forall j, k :: j in keys && k in keys && m[j] == m[k] ==> j == k
    ensures |keys| <= |target|
    decreases |keys|
  {
    if keys != {} {
      var k :| k in keys;
      InjectionBound(m, keys - {k}, target - {m[k]});
    }
  }

  predicate Reaches(ls: seq<Label>, t: Sys) { Run(INIT, ls, t) }

  lemma {:induction false} SlotRun(s: Sys, ls: seq<Label>, t: Sys)
    requires SlotInv(s) && Run(s, ls, t)
    ensures SlotInv(t)
    decreases |ls|
  {
    if ls != [] {
      SlotStep(s, ls[0]);
      SlotRun(Step(s, ls[0]), ls[1..], t);
    }
  }

  /** Fine steps.  Whatever calls, stops and restarts interleave: each worker's
      Running is the number of executions between increment and decrement, each
      pending key belongs to a live execution of that job, there are no more
      pending entries than counted slots, and once nothing is active every
      Running is back to 0 and pending is empty. */
  lemma SlotConservation(ls: seq<Label>, t: Sys)
    requires Reaches(ls, t)
    ensures forall w :: 0 <= w < |t.pool.workers| ==> t.pool.workers[w].running == |Holders(t, w)|
    ensures forall id :: id in t.sh.pending ==> Owned(t, id)
    ensures |t.sh.pending| <= SumRunning(t.pool.workers)
    ensures t.acts == map[] ==>
              t.sh.pending == map[] && forall w :: 0 <= w < |t.pool.workers| ==> t.pool.workers[w].running == 0
  {
    SlotRun(INIT, ls, t);
    SumIsCount(t, |t.pool.workers|);
    assert t.pool.workers[..|t.pool.workers|] == t.pool.workers;
    var all := HoldersBelow(t, |t.pool.workers|);
    forall id | id in t.sh.pending ensures t.sh.pending[id] in all { assert Owned(t, id); }
    forall i, j | i in t.sh.pending && j in t.sh.pending && t.sh.pending[i] == t.sh.pending[j] ensures i == j {
      assert Owned(t, i) && Owned(t, j);
    }
    InjectionBound(t.sh.pending, t.sh.pending.Keys, all);
    if t.acts == map[] {
      assert t.sh.pending.Keys == {};
      forall w | 0 <= w < |t.pool.workers| ensures t.pool.workers[w].running == 0 {
        assert Holders(t, w) == {};
      }
    }
  }

  // ---- The workers, read off the labels ----

  // The maxima with which workers connected.
  function Maxima(ls: seq<Label>): seq<int> {
    if ls == [] then []
    else Maxima(ls[..|ls| - 1]) + match ls[|ls| - 1] case Connect(max) => [max] case _ => []
  }

  ghost predicate CrewIs(s: Sys, maxima: seq<int>, gone: set<nat>) {
    && |s.pool.workers| == |maxima|
    && (forall w :: 0 <= w < |maxima| ==> s.pool.workers[w].max == maxima[w])
    && (forall w: nat :: w in s.pool.listed <==> w < |maxima| && w !in gone)
    && (forall w :: w in gone ==> w < |maxima|)
  }

  function Gone(ls: seq<Label>): set<nat> { set l | l in ls && l.Disconnect? :: l.w }

  lemma {:induction false} CrewRun(s: Sys, ls: seq<Label>, t: Sys, maxima: seq<int>, gone: set<nat>)
    requires CrewIs(s, maxima, gone) && Run(s, ls, t)
    ensures CrewIs(t, maxima + Maxima(ls), gone + Gone(ls))
    decreases |ls|
  {
    if ls == [] {
      assert maxima + [] == maxima && gone + Gone(ls) == gone;
    } else {
      var l, rest, u := ls[0], ls[1..], Step(s, ls[0]);
      var more := maxima + match l case Connect(max) => [max] case _ => [];
      var off := gone + if l.Disconnect? then {l.w} else {};
      CrewStep(s, l, maxima, gone);
      CrewRun(u, rest, t, more, off);
      MaximaCons(l, rest);
      assert ls == [l] + rest;
      assert more + Maxima(rest) == maxima + Maxima(ls);
      assert off + Gone(rest) == gone + Gone(ls);
    }
  }

  lemma CrewStep(s: Sys, l: Label, maxima: seq<int>, gone: set<nat>)
    requires CrewIs(s, maxima, gone) && Enabled(s, l)
    ensures CrewIs(Step(s, l), maxima + (match l case Connect(max) => [max] case _ => []),
                   gone + if l.Disconnect? then {l.w} else {})
  {
  }

  lemma {:induction false} MaximaCons(l: Label, rest: seq<Label>)
    ensures Maxima([l] + rest) == (match l case Connect(max) => [max] case _ => []) + Maxima(rest)
    decreases |rest|
  {
    var ls := [l] + rest;
    if rest == [] {
      assert ls[..|ls| - 1] == [] && ls[|ls| - 1] == l;
      assert Maxima(ls) == [] + match l case Connect(max) => [max] case _ => [];
    } else {
      assert ls[..|ls| - 1] == [l] + rest[..|rest| - 1] && ls[|ls| - 1] == rest[|rest| - 1];
      MaximaCons(l, rest[..|rest| - 1]);
    }
  }

  /** On every run the worker objects are those that connected, in order and each with the
      maximum it connected with; the registry lists the ones that have not disconnected. */
  lemma CrewIsConnected(ls: seq<Label>, t: Sys)
    requires Reaches(ls, t)
    ensures |t.pool.workers| == |Maxima(ls)|
    ensures forall w :: 0 <= w < |Maxima(ls)| ==> t.pool.workers[w].max == Maxima(ls)[w]
    ensures forall w: nat :: w in t.pool.listed <==> w < |Maxima(ls)| && Disconnect(w) !in ls
  {
    CrewRun(INIT, ls, t, [], {});
    assert [] + Maxima(ls) == Maxima(ls) && {} + Gone(ls) == Gone(ls);
    assert forall w: nat :: w in Gone(ls) <==> Disconnect(w) in ls;
  }

  // ---- Wake-up safety ----

  // An execution that has not yet delivered its first signal, or a Next or Resume before its signal.
  predicate OwesSignal(act: Act) {
    act.Owing? || (act.Start? && act.spc in {Spawned, Counted, Cleared, Registered})
  }

  predicate SomeoneOwes(s: Sys) { exists a :: a in s.acts && s.acts[a].Owing? }

  predicate OwedInv(s: Sys) {
    s.loop == Idle && !s.sh.ready ==>
      && (s.h.last in {Never, SawEmpty} && s.sh.queued != [] ==> SomeoneOwes(s))
      && (s.h.last == SawPaused && !s.sh.paused ==> SomeoneOwes(s))
      && (s.h.last.Started? ==>
            s.h.last.act in s.acts && s.acts[s.h.last.act].Start? && OwesSignal(s.acts[s.h.last.act]))
  }

  predicate FullInv(s: Sys) {
    s.loop == Idle && !s.sh.ready && s.h.last == SawNoWorker ==>
      && GivingBack(s.acts) <= s.h.early
      && (!s.h.released ==> forall w :: w in s.pool.listed && w < |s.pool.workers| ==> Free(s, w) <= 0)
  }

  // A call other than a stays as it is, and so does what it owes.
  lemma OwesPersists(s: Sys, t: Sys, a: nat)
    requires SomeoneOwes(s) && OnlyMover(s.acts, t.acts, a)
    requires a in s.acts && s.acts[a].Owing? ==> a in t.acts && t.acts[a].Owing?
    ensures SomeoneOwes(t)
  {
    var b :| b in s.acts && s.acts[b].Owing?;
    assert b in t.acts && t.acts[b].Owing?;
  }

  lemma OwedStart(s: Sys, a: nat)
    requires OwedInv(s) && a in s.acts && s.acts[a].Start? && s.acts[a].worker < |s.pool.workers|
    ensures OwedInv(AdvanceStart(s, a))
  {
    StartMoves(s, a);
    var t := AdvanceStart(s, a);
    if s.loop == Idle && !s.sh.ready && SomeoneOwes(s) { OwesPersists(s, t, a); }
  }

  lemma OwedStop(s: Sys, a: nat)
    requires OwedInv(s) && a in s.acts && s.acts[a].Stopping?
    ensures OwedInv(AdvanceStop(s, a))
  {
    StopMoves(s, a);
    var t := AdvanceStop(s, a);
    if s.loop == Idle && !s.sh.ready && SomeoneOwes(s) { OwesPersists(s, t, a); }
  }

  lemma OwedStep(s: Sys, l: Label)
    requires OwedInv(s) && Enabled(s, l)
    ensures OwedInv(Step(s, l))
  {
    if l.Advance? && s.acts[l.a].Start? { OwedStart(s, l.a); return; }
    if l.Advance? && s.acts[l.a].Stopping? { OwedStop(s, l.a); return; }
    var t := Step(s, l);
    var a := Mover(s, l);
    if t.loop == Idle && !t.sh.ready && s.loop == Idle {
      if l.Advance? || l.CallResume? {
        assert a in t.acts && t.acts[a].Owing?;
      } else if SomeoneOwes(s) {
        OwesPersists(s, t, a);
      }
    }
  }

  lemma FullStart(s: Sys, a: nat)
    requires FullInv(s) && InRange(s) && a in s.acts && s.acts[a].Start? && s.acts[a].worker < |s.pool.workers|
    ensures FullInv(AdvanceStart(s, a))
  {
    var t := AdvanceStart(s, a);
    if s.acts[a].spc == Spawned {
      forall w: nat | w < |s.pool.workers| ensures Free(t, w) <= Free(s, w) {}
    } else if s.acts[a].spc != Releasing {
      assert t.pool == s.pool;
    }
  }

  lemma FullStop(s: Sys, a: nat)
    requires FullInv(s) && a in s.acts && s.acts[a].Stopping?
    ensures FullInv(AdvanceStop(s, a))
  {
    assert AdvanceStop(s, a).pool == s.pool;
  }

  lemma FullStep(s: Sys, l: Label)
    requires FullInv(s) && InRange(s) && Enabled(s, l)
    ensures FullInv(Step(s, l))
  {
    if l.Advance? && s.acts[l.a].Start? {
      FullStart(s, l.a);
    } else if l.Advance? && s.acts[l.a].Stopping? {
      FullStop(s, l.a);
    }
  }

  lemma {:induction false} WakeRun(s: Sys, ls: seq<Label>, t: Sys)
    requires OwedInv(s) && FullInv(s) && SlotInv(s) && Run(s, ls, t)
    ensures OwedInv(t) && FullInv(t)
    decreases |ls|
  {
    if ls != [] {
      OwedStep(s, ls[0]);
      FullStep(s, ls[0]);
      SlotStep(s, ls[0]);
      WakeRun(Step(s, ls[0]), ls[1..], t);
    }
  }

  // No token, an idle run loop, and nobody who still owes a signal.
  predicate Quiet(s: Sys) {
    s.loop == Idle && !s.sh.ready && forall a :: a in s.acts ==> !OwesSignal(s.acts[a])
  }

  /** Fine steps.  Coalescing never loses a signal: if the scheduler is quiet and
      unpaused with work queued, the last process call found no free slot, and a
      slot can be free now only if, since that scan, a worker connected or an
      execution that had sent its last signal before it gave its slot back. */
  lemma WakeUpSafety(ls: seq<Label>, t: Sys)
    requires Reaches(ls, t) && Quiet(t) && !t.sh.paused && t.sh.queued != []
    ensures t.h.last == SawNoWorker
    ensures !t.h.released ==> forall w :: w in t.pool.listed && w < |t.pool.workers| ==> Free(t, w) <= 0
  {
    WakeRun(INIT, ls, t);
  }

  // ---- A tick recovers a free slot; a signal sent too early needs one ----

  lemma {:induction false} RunAppend(s: Sys, ls: seq<Label>, t: Sys, ms: seq<Label>, u: Sys)
    requires Run(s, ls, t) && Run(t, ms, u)
    ensures Run(s, ls + ms, u)
    decreases |ls|
  {
    if ls == [] {
      assert ls + ms == ms;
    } else {
      RunAppend(Step(s, ls[0]), ls[1..], t, ms, u);
      assert (ls + ms)[1..] == ls[1..] + ms;
    }
  }

  lemma RunSnoc(s: Sys, ls: seq<Label>, t: Sys, l: Label)
    requires Run(s, ls, t) && Enabled(t, l)
    ensures Run(s, ls + [l], Step(t, l))
  {
    assert Run(Step(t, l), [l][1..], Step(t, l));
    RunAppend(s, ls, t, [l], Step(t, l));
  }

  // One uninterrupted iteration of the run loop that dispatches the head of the queue.
  function Dispatched(s: Sys, w: nat, a: nat): Sys
    requires s.sh.queued != []
  {
    var head := s.sh.queued[0];
    Sys(Shared(s.sh.queued[1..], s.sh.pending, s.sh.paused, false), s.pool, Idle,
        s.acts[a := Start(Spawned, head, w)],
        History(s.h.clock, s.h.dispatched + [head.stamp], s.h.removed, Started(a), GivingBack(s.acts), false))
  }

  lemma LoopDispatches(s: Sys, w: nat, a: nat) returns (ls: seq<Label>)
    requires s.loop == Idle && s.sh.ready && !s.sh.paused && s.sh.queued != []
    requires ScanAnswer(s, Some(w)) && a !in s.acts
    ensures ls == [Take, CheckPaused, Scan(Some(w)), Dequeue(a)] && Run(s, ls, Dispatched(s, w, a))
  {
    var s1 := Step(s, Take);
    var s2 := Step(s1, CheckPaused);
    var s3 := Step(s2, Scan(Some(w)));
    var s4 := Step(s3, Dequeue(a));
    assert s4 == Dispatched(s, w, a);
    RunSnoc(s, [], s, Take);
    RunSnoc(s, [] + [Take], s1, CheckPaused);
    RunSnoc(s, [] + [Take] + [CheckPaused], s2, Scan(Some(w)));
    ls := [] + [Take] + [CheckPaused] + [Scan(Some(w))];
    RunSnoc(s, ls, s3, Dequeue(a));
    ls := ls + [Dequeue(a)];
  }

  lemma {:induction false} SomeBestBelow(s: Sys, k: nat) returns (w: nat)
    requires InRange(s) && k <= |s.pool.workers|
    requires exists v :: v in s.pool.listed && v < k && Free(s, v) > 0
    ensures w in s.pool.listed && w < k && Free(s, w) > 0
    ensures forall v :: v in s.pool.listed && v < k ==> Free(s, v) <= Free(s, w)
  {
    if exists v :: v in s.pool.listed && v < k - 1 && Free(s, v) > 0 {
      w := SomeBestBelow(s, k - 1);
      if k - 1 in s.pool.listed && Free(s, k - 1) > Free(s, w) { w := k - 1; }
    } else {
      w := k - 1;
    }
  }

  /** Fine steps.  Whenever the loop is idle, the scheduler is unpaused, work is
      queued and a listed worker has a free slot, there is a most-free worker, and
      for each such worker one timer tick and one iteration of the loop start the
      head of the queue on it. */
  lemma {:induction false} TickDispatches(s: Sys, a: nat)
    requires SlotInv(s) && s.loop == Idle && !s.sh.paused && s.sh.queued != [] && a !in s.acts
    requires exists v :: v in s.pool.listed && v < |s.pool.workers| && Free(s, v) > 0
    ensures exists w :: ScanAnswer(s, Some(w))
    ensures forall w: nat :: ScanAnswer(s, Some(w)) <==>
      && w in s.pool.listed && w < |s.pool.workers| && s.pool.workers[w].running < s.pool.workers[w].max
      && forall v :: v in s.pool.listed && v < |s.pool.workers| ==>
           s.pool.workers[v].max - s.pool.workers[v].running <= s.pool.workers[w].max - s.pool.workers[w].running
    ensures forall w :: ScanAnswer(s, Some(w)) ==>
      Run(s, [Tick, Take, CheckPaused, Scan(Some(w)), Dequeue(a)], Dispatched(s, w, a))
  {
    var best := SomeBestBelow(s, |s.pool.workers|);
    assert ScanAnswer(s, Some(best));
    forall w | ScanAnswer(s, Some(w))
      ensures Run(s, [Tick, Take, CheckPaused, Scan(Some(w)), Dequeue(a)], Dispatched(s, w, a))
    {
      TickRun(s, w, a);
    }
  }

  lemma TickRun(s: Sys, w: nat, a: nat)
    requires s.loop == Idle && !s.sh.paused && s.sh.queued != [] && a !in s.acts && ScanAnswer(s, Some(w))
    ensures Run(s, [Tick, Take, CheckPaused, Scan(Some(w)), Dequeue(a)], Dispatched(s, w, a))
  {
    var s1 := Step(s, Tick);
    assert ScanAnswer(s1, Some(w)) && Dispatched(s1, w, a) == Dispatched(s, w, a);
    var ms := LoopDispatches(s1, w, a);
    var all := [Tick, Take, CheckPaused, Scan(Some(w)), Dequeue(a)];
    assert all[1..] == ms;
  }

  // A Next that meets no other entry of its job: queue it, then signal.
  function Queued(s: Sys, id: JobId): Sys {
    s.(sh := s.sh.(queued := s.sh.queued + [Ticket(id, 0, s.h.clock)], ready := true),
       h := s.h.(clock := s.h.clock + 1))
  }

  lemma NextAlone(s: Sys, a: nat, id: JobId) returns (ls: seq<Label>)
    requires a !in s.acts && id !in s.sh.pending && FirstTicket(s.sh.queued, id) == None
    ensures ls == [CallNext(a, id, 0), Advance(a), Advance(a), Advance(a), Advance(a)]
    ensures Run(s, ls, Queued(s, id))
  {
    var s1 := Step(s, CallNext(a, id, 0));
    var s2, s3 := Step(s1, Advance(a)), Step(Step(s1, Advance(a)), Advance(a));
    var s4 := Step(s3, Advance(a));
    assert s4.acts[a] == Owing;
    assert Step(s4, Advance(a)) == Queued(s, id) by { assert s4.acts - {a} == s.acts; }
    RunSnoc(s, [], s, CallNext(a, id, 0));
    ls := [] + [CallNext(a, id, 0)];
    RunSnoc(s, ls, s1, Advance(a)); ls := ls + [Advance(a)];
    RunSnoc(s, ls, s2, Advance(a)); ls := ls + [Advance(a)];
    RunSnoc(s, ls, s3, Advance(a)); ls := ls + [Advance(a)];
    RunSnoc(s, ls, s4, Advance(a)); ls := ls + [Advance(a)];
  }

  // startJob from its first line into the execution, and from there to its deferred decrement.
  function Launched(s: Sys, a: nat, t: Ticket, w: nat): Sys
    requires w < |s.pool.workers|
  {
    Sys(s.sh.(pending := s.sh.pending[t.id := a], ready := true), Bump(s.pool, w, 1), s.loop,
        s.acts[a := Start(Executing, t, w)], s.h)
  }

  function Finished(s: Sys, a: nat, t: Ticket, w: nat): Sys {
    s.(sh := s.sh.(pending := s.sh.pending - {t.id}, ready := true), acts := s.acts[a := Start(Releasing, t, w)])
  }

  lemma Launch(s: Sys, a: nat, t: Ticket, w: nat) returns (ls: seq<Label>)
    requires a in s.acts && s.acts[a] == Start(Spawned, t, w) && w < |s.pool.workers|
    requires FirstTicket(s.sh.queued, t.id) == None
    ensures Run(s, ls, Launched(s, a, t, w))
  {
    var s1 := AdvanceStart(s, a);
    var s2 := AdvanceStart(s1, a);
    var s3 := AdvanceStart(s2, a);
    assert AdvanceStart(s3, a) == Launched(s, a, t, w);
    RunSnoc(s, [], s, Advance(a)); ls := [] + [Advance(a)];
    RunSnoc(s, ls, s1, Advance(a)); ls := ls + [Advance(a)];
    RunSnoc(s, ls, s2, Advance(a)); ls := ls + [Advance(a)];
    RunSnoc(s, ls, s3, Advance(a)); ls := ls + [Advance(a)];
  }

  lemma Finish(s: Sys, a: nat, t: Ticket, w: nat) returns (ls: seq<Label>)
    requires a in s.acts && s.acts[a] == Start(Executing, t, w) && w < |s.pool.workers|
    ensures Run(s, ls, Finished(s, a, t, w))
  {
    var s1 := AdvanceStart(s, a);
    assert AdvanceStart(s1, a) == Finished(s, a, t, w);
    RunSnoc(s, [], s, Advance(a));
    RunSnoc(s, [] + [Advance(a)], s1, Advance(a));
    ls := [] + [Advance(a)] + [Advance(a)];
  }

  // One uninterrupted iteration that finds every listed worker full.
  function FoundFull(s: Sys): Sys {
    s.(sh := s.sh.(ready := false), h := s.h.(last := SawNoWorker, early := GivingBack(s.acts), released := false))
  }

  lemma LoopFindsFull(s: Sys) returns (ls: seq<Label>)
    requires s.loop == Idle && s.sh.ready && !s.sh.paused && ScanAnswer(s, None)
    ensures Run(s, ls, FoundFull(s))
  {
    var s1 := Step(s, Take);
    var s2 := Step(s1, CheckPaused);
    assert Step(s2, Scan(None)) == FoundFull(s);
    RunSnoc(s, [], s, Take);
    RunSnoc(s, [] + [Take], s1, CheckPaused);
    RunSnoc(s, [] + [Take] + [CheckPaused], s2, Scan(None));
    ls := [] + [Take] + [CheckPaused] + [Scan(None)];
  }

  function OneWorker(running: int): Pool { Pool([Slot(1, running)], {0}) }

  // With one slot: job 7 is dequeued for it.
  lemma WitnessPicked() returns (ls: seq<Label>, t: Sys)
    ensures Reaches(ls, t)
    ensures t == Sys(Shared([], map[], false, false), OneWorker(0), Idle,
                     map[1 := Start(Spawned, Ticket(7, 0, 0), 0)], History(1, [0], {}, Started(1), {}, false))
  {
    var s1 := Step(INIT, Connect(1));
    assert s1 == Sys(Shared([], map[], false, false), OneWorker(0), Idle, map[], History(0, [], {}, Never, {}, true));
    RunSnoc(INIT, [], INIT, Connect(1));
    var m1 := NextAlone(s1, 0, 7);
    var s2 := Queued(s1, 7);
    RunAppend(INIT, [] + [Connect(1)], s1, m1, s2);
    var m2 := LoopDispatches(s2, 0, 1);
    t := Dispatched(s2, 0, 1);
    RunAppend(INIT, [] + [Connect(1)] + m1, s2, m2, t);
    ls := [] + [Connect(1)] + m1 + m2;
  }

  // It is started and executing, and has delivered its first signal.
  lemma WitnessBusy() returns (ls: seq<Label>, t: Sys)
    ensures Reaches(ls, t)
    ensures t == Sys(Shared([], map[7 := 1], false, true), OneWorker(1), Idle,
                     map[1 := Start(Executing, Ticket(7, 0, 0), 0)], History(1, [0], {}, Started(1), {}, false))
  {
    var s;
    ls, s := WitnessPicked();
    var m := Launch(s, 1, Ticket(7, 0, 0), 0);
    t := Launched(s, 1, Ticket(7, 0, 0), 0);
    RunAppend(INIT, ls, s, m, t);
    ls := ls + m;
  }

  // Job 8 is queued behind it, and the scan its signal causes finds no slot.
  lemma WitnessFull() returns (ls: seq<Label>, t: Sys)
    ensures Reaches(ls, t)
    ensures t == Sys(Shared([Ticket(8, 0, 1)], map[7 := 1], false, false), OneWorker(1), Idle,
                     map[1 := Start(Executing, Ticket(7, 0, 0), 0)], History(2, [0], {}, SawNoWorker, {}, false))
  {
    var s4;
    ls, s4 := WitnessBusy();
    var m := NextAlone(s4, 0, 8);
    var s5 := Queued(s4, 8);
    RunAppend(INIT, ls, s4, m, s5);
    ls := ls + m;
    m := LoopFindsFull(s5);
    t := FoundFull(s5);
    RunAppend(INIT, ls, s5, m, t);
    ls := ls + m;
  }

  /** Fine steps.  A wake-up can be lost: line 391 signals before the deferred
      decrement, so a scan in between sees the slot still taken.  The run ends
      quiet, unpaused and with nothing active, one job queued and one slot free. */
  lemma LostWakeUp() returns (ls: seq<Label>, t: Sys)
    ensures Reaches(ls, t) && Quiet(t) && t.acts == map[] && !t.sh.paused && t.h.released
    ensures |t.sh.queued| == 1 && 0 in t.pool.listed && |t.pool.workers| == 1 && Free(t, 0) == 1
  {
    var s6;
    ls, s6 := WitnessFull();
    var m := Finish(s6, 1, Ticket(7, 0, 0), 0);
    var s7 := Finished(s6, 1, Ticket(7, 0, 0), 0);
    RunAppend(INIT, ls, s6, m, s7);
    ls := ls + m;
    m := LoopFindsFull(s7);
    var s8 := FoundFull(s7);
    RunAppend(INIT, ls, s7, m, s8);
    ls := ls + m;
    RunSnoc(INIT, ls, s8, Advance(1));
    ls, t := ls + [Advance(1)], Step(s8, Advance(1));
    assert t.acts == map[];
  }

  // ---- Pause ----

  /** Read off the calls alone: some Pause has no Resume behind it. */
  predicate LastCallPauses(ls: seq<Label>) {
    exists i :: 0 <= i < |ls| && ls[i].CallPause? && NoResume(ls[i..])
  }

  predicate NoResume(ls: seq<Label>) { forall l <- ls :: !l.CallResume? }

  lemma LastCallCons(l: Label, rest: seq<Label>)
    ensures LastCallPauses([l] + rest) <==> LastCallPauses(rest) || (l.CallPause? && NoResume(rest))
    ensures NoResume([l] + rest) <==> !l.CallResume? && NoResume(rest)
  {
    var ls := [l] + rest;
    assert ls[0..] == ls && ls[1..] == rest;
    if LastCallPauses(rest) {
      var i :| 0 <= i < |rest| && rest[i].CallPause? && NoResume(rest[i..]);
      assert ls[i + 1..] == rest[i..] && ls[i + 1] == rest[i];
    }
    if LastCallPauses(ls) {
      var i :| 0 <= i < |ls| && ls[i].CallPause? && NoResume(ls[i..]);
      if i > 0 { assert ls[i..] == rest[i - 1..] && ls[i] == rest[i - 1]; }
    }
  }

  lemma {:induction false} PausedRun(s: Sys, ls: seq<Label>, t: Sys)
    requires Run(s, ls, t)
    ensures t.sh.paused <==> LastCallPauses(ls) || (s.sh.paused && NoResume(ls))
    decreases |ls|
  {
    if ls != [] {
      PausedRun(Step(s, ls[0]), ls[1..], t);
      LastCallCons(ls[0], ls[1..]);
      assert ls == [ls[0]] + ls[1..];
      PausedStep(s, ls[0]);
    }
  }

  lemma PausedStep(s: Sys, l: Label)
    requires Enabled(s, l)
    ensures Step(s, l).sh.paused == (l.CallPause? || (s.sh.paused && !l.CallResume?))
  {
  }

  /** Fine steps.  On every run the scheduler is paused exactly if the last of its Pause and
      Resume calls was a Pause. */
  lemma PausedIff(ls: seq<Label>, t: Sys)
    requires Reaches(ls, t)
    ensures t.sh.paused <==> LastCallPauses(ls)
  {
    PausedRun(INIT, ls, t);
  }

  /** Fine steps.  From any state, paused or not: after a call of Pause and until the next
      Resume at most one more job is dequeued, and none if the loop was not already past its
      pause check. */
  lemma PauseBound(s: Sys, ls: seq<Label>, t: Sys)
    requires Run(s, [CallPause] + ls, t) && NoResume(ls)
    ensures t.sh.paused
    ensures |s.h.dispatched| <= |t.h.dispatched|
            <= |s.h.dispatched| + (if s.loop.Unpaused? || s.loop.Chosen? then 1 else 0)
  {
    assert ([CallPause] + ls)[1..] == ls;
    WhilePaused(Step(s, CallPause), ls, t);
  }

  lemma {:induction false} WhilePaused(s: Sys, ls: seq<Label>, t: Sys)
    requires Run(s, ls, t) && s.sh.paused && NoResume(ls)
    ensures t.sh.paused
    ensures |s.h.dispatched| <= |t.h.dispatched|
            <= |s.h.dispatched| + (if s.loop.Unpaused? || s.loop.Chosen? then 1 else 0)
    decreases |ls|
  {
    if ls != [] {
      assert ls[0] in ls && forall l <- ls[1..] :: l in ls;
      PauseStep(s, ls[0]);
      WhilePaused(Step(s, ls[0]), ls[1..], t);
    }
  }

  lemma PauseStep(s: Sys, l: Label)
    requires Enabled(s, l) && s.sh.paused && !l.CallResume?
    ensures var t := Step(s, l);
      && t.sh.paused
      && (t.loop.Unpaused? || t.loop.Chosen? ==> s.loop.Unpaused? || s.loop.Chosen?)
      && (t.h.dispatched == s.h.dispatched ||
          (s.loop.Chosen? && t.loop == Idle && |t.h.dispatched| == |s.h.dispatched| + 1))
  {
  }

  // The head of the queue is being started as a on w, and the scheduler is not paused.
  predicate HeadStarted(s: Sys, w: nat, a: nat, t: Sys) {
    && s.sh.queued != [] && t.sh.queued == s.sh.queued[1..]
    && t.acts == s.acts[a := Start(Spawned, s.sh.queued[0], w)]
    && !t.sh.paused && t.loop == Idle && t.pool == s.pool
  }

  function ResumeLabels(w: nat, r: nat, a: nat): seq<Label> {
    [CallResume(r), Advance(r), Take, CheckPaused, Scan(Some(w)), Dequeue(a)]
  }

  /** Fine steps.  From any paused state with an idle loop, work and a free slot: a call of
      Resume, its signal and one iteration of the loop start the head of the queue, on any
      most-free worker, and the scheduler is no longer paused. */
  lemma {:induction false} ResumeDispatches(s: Sys, r: nat, a: nat)
    requires SlotInv(s) && s.loop == Idle && s.sh.paused && s.sh.queued != [] && r !in s.acts && a !in s.acts
    requires exists v :: v in s.pool.listed && v < |s.pool.workers| && Free(s, v) > 0
    ensures exists w :: ScanAnswer(s, Some(w))
    ensures forall w :: ScanAnswer(s, Some(w)) ==>
      exists t :: Run(s, ResumeLabels(w, r, a), t) && HeadStarted(s, w, a, t)
  {
    var best := SomeBestBelow(s, |s.pool.workers|);
    assert ScanAnswer(s, Some(best));
    forall w | ScanAnswer(s, Some(w))
      ensures exists t :: Run(s, ResumeLabels(w, r, a), t) && HeadStarted(s, w, a, t)
    {
      var t := ResumeRun(s, w, r, a);
    }
  }

  lemma ResumeRun(s: Sys, w: nat, r: nat, a: nat) returns (t: Sys)
    requires s.loop == Idle && s.sh.queued != [] && r !in s.acts && a !in s.acts && ScanAnswer(s, Some(w))
    ensures Run(s, ResumeLabels(w, r, a), t) && HeadStarted(s, w, a, t)
  {
    var s1 := Step(s, CallResume(r));
    var s2 := Step(s1, Advance(r));
    assert s2.acts == s.acts && ScanAnswer(s2, Some(w));
    var ms := LoopDispatches(s2, w, a);
    t := Dispatched(s2, w, a);
    RunSnoc(s, [], s, CallResume(r));
    RunSnoc(s, [] + [CallResume(r)], s1, Advance(r));
    RunAppend(s, [] + [CallResume(r)] + [Advance(r)], s2, ms, t);
    assert [] + [CallResume(r)] + [Advance(r)] + ms == ResumeLabels(w, r, a);
  }

  // ---- First in, first out ----

  function Stamps(q: seq<Ticket>): (r: seq<nat>)
    ensures |r| == |q|
    ensures forall i :: 0 <= i < |q| ==> r[i] == q[i].stamp
  {
    seq(|q|, i requires 0 <= i < |q| => q[i].stamp)
  }

  /** The stamps below n in arrival order, without the removed ones. */
  function Kept(n: nat, removed: set<nat>): seq<nat> {
    if n == 0 then [] else Kept(n - 1, removed) + (if n - 1 in removed then [] else [n - 1])
  }

  lemma {:induction false} KeptBelow(n: nat, removed: set<nat>, i: nat)
    requires i < |Kept(n, removed)|
    ensures Kept(n, removed)[i] < n && Kept(n, removed)[i] !in removed
  {
    if i < |Kept(n - 1, removed)| { KeptBelow(n - 1, removed, i); }
  }

  lemma {:induction false} KeptSorted(n: nat, removed: set<nat>, i: nat, j: nat)
    requires i < j < |Kept(n, removed)|
    ensures Kept(n, removed)[i] < Kept(n, removed)[j]
  {
    if j < |Kept(n - 1, removed)| {
      KeptSorted(n - 1, removed, i, j);
    } else {
      KeptBelow(n - 1, removed, i);
    }
  }

  predicate FifoInv(s: Sys) {
    && s.h.dispatched + Stamps(s.sh.queued) == Kept(s.h.clock, s.h.removed)
    && forall x :: x in s.h.removed ==> x < s.h.clock
  }

  lemma {:induction false} KeptWithout(n: nat, removed: set<nat>, i: nat)
    requires i < |Kept(n, removed)|
    ensures Kept(n, removed + {Kept(n, removed)[i]}) == Kept(n, removed)[..i] + Kept(n, removed)[i + 1..]
  {
    var ks := Kept(n, removed);
    var ls := Kept(n - 1, removed);
    if i < |ls| {
      KeptBelow(n - 1, removed, i);
      KeptWithout(n - 1, removed, i);
      assert ks[i + 1..] == ls[i + 1..] + ks[|ls|..];
    } else {
      assert ks[i] == n - 1 && ks[..i] == ls && ks[i + 1..] == [];
      KeptIgnores(n - 1, removed, n - 1);
    }
  }

  lemma {:induction false} KeptIgnores(n: nat, removed: set<nat>, x: nat)
    requires n <= x
    ensures Kept(n, removed + {x}) == Kept(n, removed)
  {
    if n > 0 { KeptIgnores(n - 1, removed, x); }
  }

  lemma CutKept(n: nat, removed: set<nat>, d: seq<nat>, q: seq<Ticket>, k: nat)
    requires d + Stamps(q) == Kept(n, removed) && k < |q|
    ensures d + Stamps(q[..k] + q[k + 1..]) == Kept(n, removed + {q[k].stamp}) && q[k].stamp < n
  {
    var i := |d| + k;
    var ks := Kept(n, removed);
    KeptBelow(n, removed, i);
    KeptWithout(n, removed, i);
    assert ks[..i] == d + Stamps(q)[..k] && ks[i + 1..] == Stamps(q)[k + 1..];
    assert Stamps(q[..k] + q[k + 1..]) == Stamps(q)[..k] + Stamps(q)[k + 1..];
  }

  lemma FifoRemove(s: Sys, id: JobId)
    requires FifoInv(s)
    ensures FifoInv(Remove(s, id))
  {
    var k := FindFirst(s.sh.queued, id);
    if k < |s.sh.queued| { CutKept(s.h.clock, s.h.removed, s.h.dispatched, s.sh.queued, k); }
  }

  // The sections that touch neither the queue nor the history of stamps.
  lemma FifoFrame(s: Sys, l: Label)
    requires Enabled(s, l) && !l.Dequeue?
    requires l.Advance? ==> !s.acts[l.a].Appending?
    requires l.Advance? && s.acts[l.a].Start? ==> s.acts[l.a].spc != Counted
    requires l.Advance? && s.acts[l.a].Stopping? ==> s.acts[l.a].pc != Found
    ensures var t := Step(s, l);
      && t.sh.queued == s.sh.queued && t.h.dispatched == s.h.dispatched
      && t.h.removed == s.h.removed && t.h.clock == s.h.clock
  {
  }

  lemma FifoStart(s: Sys, a: nat)
    requires FifoInv(s) && a in s.acts && s.acts[a].Start? && s.acts[a].worker < |s.pool.workers|
    requires s.acts[a].spc == Counted
    ensures FifoInv(Step(s, Advance(a)))
  {
    FifoRemove(s, s.acts[a].ticket.id);
    var u := Remove(s, s.acts[a].ticket.id);
    assert Step(s, Advance(a)).sh == u.sh && Step(s, Advance(a)).h == u.h;
  }

  lemma FifoStop(s: Sys, a: nat)
    requires FifoInv(s) && a in s.acts && s.acts[a].Stopping? && s.acts[a].pc == Found
    ensures FifoInv(Step(s, Advance(a)))
  {
    FifoRemove(s, s.acts[a].job.id);
    var u := Remove(s, s.acts[a].job.id);
    assert Step(s, Advance(a)).sh == u.sh && Step(s, Advance(a)).h == u.h;
  }

  lemma FifoDequeue(s: Sys, a: nat)
    requires FifoInv(s) && Enabled(s, Dequeue(a))
    ensures FifoInv(Step(s, Dequeue(a)))
  {
    if s.sh.queued != [] {
      HeadStamp(s.h.dispatched, s.sh.queued);
    }
  }

  lemma HeadStamp(d: seq<nat>, q: seq<Ticket>)
    requires q != []
    ensures d + Stamps(q) == (d + [q[0].stamp]) + Stamps(q[1..])
  {
    assert Stamps(q) == [q[0].stamp] + Stamps(q[1..]);
  }

  lemma FifoStep(s: Sys, l: Label)
    requires FifoInv(s) && Enabled(s, l)
    ensures FifoInv(Step(s, l))
  {
    if l.Dequeue? { FifoDequeue(s, l.a); return; }
    if l.Advance? && s.acts[l.a].Appending? { FifoAppend(s, l.a); return; }
    if l.Advance? && s.acts[l.a].Start? && s.acts[l.a].spc == Counted { FifoStart(s, l.a); return; }
    if l.Advance? && s.acts[l.a].Stopping? && s.acts[l.a].pc == Found { FifoStop(s, l.a); return; }
    FifoFrame(s, l);
  }

  lemma FifoAppend(s: Sys, a: nat)
    requires FifoInv(s) && a in s.acts && s.acts[a].Appending?
    ensures FifoInv(Step(s, Advance(a)))
  {
    var q, n := s.sh.queued, s.h.clock;
    var job := s.acts[a].job;
    assert Stamps(q + [Ticket(job.id, job.build, n)]) == Stamps(q) + [n];
    assert n !in s.h.removed;
    assert Kept(n + 1, s.h.removed) == Kept(n, s.h.removed) + [n];
  }

  lemma {:induction false} FifoRun(s: Sys, ls: seq<Label>, t: Sys)
    requires FifoInv(s) && Run(s, ls, t)
    ensures FifoInv(t)
    decreases |ls|
  {
    if ls != [] {
      FifoStep(s, ls[0]);
      FifoRun(Step(s, ls[0]), ls[1..], t);
    }
  }

  /** Fine steps.  What was dispatched so far followed by what is still queued is
      exactly the arrival order of all Next calls with the removed entries left out. */
  lemma FifoOrder(ls: seq<Label>, t: Sys)
    requires Reaches(ls, t)
    ensures t.h.dispatched + Stamps(t.sh.queued) == Kept(t.h.clock, t.h.removed)
    ensures forall i, j :: 0 <= i < j < |t.h.dispatched| ==> t.h.dispatched[i] < t.h.dispatched[j]
    ensures forall i, j :: 0 <= i < |t.h.dispatched| && 0 <= j < |t.sh.queued| ==>
      t.h.dispatched[i] < t.sh.queued[j].stamp
  {
    FifoRun(INIT, ls, t);
    var ks := Kept(t.h.clock, t.h.removed);
    var d := t.h.dispatched;
    forall i, j | 0 <= i < j < |ks| ensures ks[i] < ks[j] { KeptSorted(t.h.clock, t.h.removed, i, j); }
    assert forall i :: 0 <= i < |d| ==> ks[i] == d[i];
    assert forall j :: 0 <= j < |t.sh.queued| ==> ks[|d| + j] == t.sh.queued[j].stamp;
  }
}
