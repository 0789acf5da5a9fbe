/** The worker's table of jobs and its containers, shared by StartJob and StopJob calls.
    Every lock-protected section and every call of the container engine is a step. */
module WorkerJobs {
  import opened Types

  type CallId = nat
  type BoxId = nat

  /** A StartJob call: up to its look at the table, past it, with its container, and on the
      way out. */
  datatype Phase = Preparing | Cleared | Running(box: BoxId) | Leaving

  datatype Call = Call(id: JobId, phase: Phase)

  // Containers are found by name, and the name is the job's.
  datatype Sys = Sys(jobs: set<JobId>, boxes: map<JobId, BoxId>, calls: map<CallId, Call>, next: BoxId)

  datatype Step =
    | Enter(h: CallId, id: JobId)
    | GiveUp(h: CallId)
    | Look(h: CallId)
    | Boot(h: CallId)
    | End(h: CallId)
    | Leave(h: CallId)
    | Kill(id: JobId)
    | Unlist(id: JobId)

  const INIT := Sys({}, map[], map[], 0)

  predicate In(s: Sys, h: CallId, p: Phase) { h in s.calls && s.calls[h].phase == p }

  predicate Enabled(s: Sys, e: Step) {
    match e
    case Enter(h, _) => h !in s.calls
    case GiveUp(h) => In(s, h, Preparing) || In(s, h, Cleared)
    case Look(h) => In(s, h, Preparing)
    case Boot(h) => In(s, h, Cleared)
    case End(h) => h in s.calls && s.calls[h].phase.Running?
    case Leave(h) => In(s, h, Leaving)
    case Kill(_) => true
    case Unlist(_) => true
  }

  function Move(s: Sys, h: CallId, p: Phase): Sys
    requires h in s.calls
  {
    s.(calls := s.calls[h := s.calls[h].(phase := p)])
  }

  // Stop and delete, if listed: the same on entry and on exit.
  function Evict(s: Sys, id: JobId): Sys {
    if id in s.jobs then s.(boxes := s.boxes - {id}, jobs := s.jobs - {id}) else s
  }

  function Next(s: Sys, e: Step): Sys
    requires Enabled(s, e)
  {
    match e
    case Enter(h, id) =>
      var t := Evict(s, id);
      t.(jobs := t.jobs + {id}, calls := t.calls[h := Call(id, Preparing)])
    case GiveUp(h) => Move(s, h, Leaving)
    case Look(h) => Move(s, h, if s.calls[h].id in s.jobs then Cleared else Leaving)
    case Boot(h) =>
      // A container of the same name is removed first.
      var t := Move(s, h, Running(s.next));
      t.(boxes := s.boxes[s.calls[h].id := s.next], next := s.next + 1)
    case End(h) =>
      // The runner removes its own container, if that is still there.
      var Call(id, p) := s.calls[h];
      var t := Move(s, h, Leaving);
      if id in s.boxes && s.boxes[id] == p.box then t.(boxes := s.boxes - {id}) else t
    case Leave(h) =>
      var t := Evict(s, s.calls[h].id);
      t.(calls := t.calls - {h})
    case Kill(id) => s.(boxes := s.boxes - {id})
    case Unlist(id) => s.(jobs := s.jobs - {id})
  }

  // Steps that are not enabled do not happen.
  function Run(s: Sys, es: seq<Step>): Sys
    decreases |es|
  {
    if es == [] then s
    else if Enabled(s, es[0]) then Run(Next(s, es[0]), es[1..])
    else Run(s, es[1..])
  }

  /** Every listed job and every container belongs to a call that is still there. */
  ghost predicate Owned(s: Sys) {
    && (forall id <- s.jobs :: exists h :: h in s.calls && s.calls[h].id == id)
    && (forall id <- s.boxes :: exists h :: h in s.calls && s.calls[h] == Call(id, Running(s.boxes[id])))
  }

  // Box numbers are handed out once.
  ghost predicate Fresh(s: Sys) {
    && (forall h <- s.calls :: s.calls[h].phase.Running? ==> s.calls[h].phase.box < s.next)
    && (forall g, h :: g in s.calls && h in s.calls && g != h && s.calls[g].phase.Running? ==>
          s.calls[g].phase != s.calls[h].phase)
  }

  lemma NextOwned(s: Sys, e: Step)
    requires Owned(s) && Fresh(s) && Enabled(s, e)
    ensures Owned(Next(s, e)) && Fresh(Next(s, e))
  {
    var t := Next(s, e);
    forall id | id in t.jobs ensures exists h :: h in t.calls && t.calls[h].id == id {
      ListedOwned(s, e, id);
    }
    forall id | id in t.boxes ensures exists h :: h in t.calls && t.calls[h] == Call(id, Running(t.boxes[id])) {
      BoxOwned(s, e, id);
    }
  }

  lemma ListedOwned(s: Sys, e: Step, id: JobId)
    requires Owned(s) && Enabled(s, e) && id in Next(s, e).jobs
    ensures exists h :: h in Next(s, e).calls && Next(s, e).calls[h].id == id
  {
    var t := Next(s, e);
    if id in s.jobs {
      var h :| h in s.calls && s.calls[h].id == id;
      assert h in t.calls && t.calls[h].id == id;
    } else {
      assert e.Enter? && t.calls[e.h].id == id;
    }
  }

  lemma BoxOwned(s: Sys, e: Step, id: JobId)
    requires Owned(s) && Fresh(s) && Enabled(s, e) && id in Next(s, e).boxes
    ensures var t := Next(s, e); exists h :: h in t.calls && t.calls[h] == Call(id, Running(t.boxes[id]))
  {
    var t := Next(s, e);
    if e.Boot? && s.calls[e.h].id == id {
      assert t.calls[e.h] == Call(id, Running(t.boxes[id]));
    } else {
      assert id in s.boxes && t.boxes[id] == s.boxes[id];
      var h :| h in s.calls && s.calls[h] == Call(id, Running(s.boxes[id]));
      assert h in t.calls && t.calls[h] == s.calls[h];
    }
  }

  /** On any run, whatever calls overlap and whatever is stopped: when no call is left, no
      job is listed and no container exists. */
  lemma {:induction false} NothingLeftBehind(s: Sys, es: seq<Step>)
    requires Owned(s) && Fresh(s)
    ensures Owned(Run(s, es)) && Fresh(Run(s, es))
    ensures Run(s, es).calls == map[] ==> Run(s, es).jobs == {} && Run(s, es).boxes == map[]
    decreases |es|
  {
    if es == [] {
      forall id | s.calls == map[] ensures id !in s.jobs && id !in s.boxes {
      }
    } else if Enabled(s, es[0]) {
      NextOwned(s, es[0]);
      NothingLeftBehind(Next(s, es[0]), es[1..]);
    } else {
      NothingLeftBehind(s, es[1..]);
    }
  }

  lemma {:induction false} RunAppend(s: Sys, es: seq<Step>, fs: seq<Step>)
    ensures Run(s, es + fs) == Run(Run(s, es), fs)
    decreases |es|
  {
    if es == [] {
      assert es + fs == fs;
    } else {
      assert (es + fs)[1..] == es[1..] + fs;
      RunAppend(if Enabled(s, es[0]) then Next(s, es[0]) else s, es[1..], fs);
    }
  }

  lemma RunOne(s: Sys, e: Step)
    ensures Run(s, [e]) == if Enabled(s, e) then Next(s, e) else s
  {
    assert [e][1..] == [];
  }

  // ---- One job, read off the steps ----

  /** Whether a job is on the table, and the container under its name. */
  datatype Place = Place(listed: bool, box: Option<BoxId>)

  /** What a step does to job id.  Entering puts it on the table and leaving takes it off; both
      remove the container of a job that was there.  A start replaces the container, the end of a
      run removes its own one only, and a stop removes whichever is there. */
  function Place1(s: Sys, e: Step, id: JobId, p: Place): Place
    requires Enabled(s, e)
  {
    match e
    case Enter(_, x) => if x == id then Place(true, if p.listed then None else p.box) else p
    case Boot(h) => if s.calls[h].id == id then Place(p.listed, Some(s.next)) else p
    case End(h) =>
      if s.calls[h].id == id && p.box == Some(s.calls[h].phase.box) then Place(p.listed, None) else p
    case Leave(h) => if s.calls[h].id == id then Place(false, if p.listed then None else p.box) else p
    case Kill(x) => if x == id then Place(p.listed, None) else p
    case Unlist(x) => if x == id then Place(false, p.box) else p
    case _ => p
  }

  function PlaceAfter(s: Sys, es: seq<Step>, id: JobId, p: Place): Place
    decreases |es|
  {
    if es == [] then p
    else if Enabled(s, es[0]) then PlaceAfter(Next(s, es[0]), es[1..], id, Place1(s, es[0], id, p))
    else PlaceAfter(s, es[1..], id, p)
  }

  /** Whether call h is there: it has entered and not left. */
  function ThereAfter(s: Sys, es: seq<Step>, h: CallId, there: bool): bool
    decreases |es|
  {
    if es == [] then there
    else if !Enabled(s, es[0]) then ThereAfter(s, es[1..], h, there)
    else
      var now := if es[0].Enter? && es[0].h == h then true
                 else if es[0].Leave? && es[0].h == h then false
                 else there;
      ThereAfter(Next(s, es[0]), es[1..], h, now)
  }

  ghost predicate Stands(s: Sys, id: JobId, p: Place) {
    && (id in s.jobs <==> p.listed)
    && (if id in s.boxes then p.box == Some(s.boxes[id]) else p.box == None)
  }

  lemma PlaceStands(s: Sys, e: Step, id: JobId, p: Place)
    requires Stands(s, id, p) && Enabled(s, e)
    ensures Stands(Next(s, e), id, Place1(s, e, id, p))
  {
  }

  /** On any run, for every job and call: the table and the containers are what the steps for the
      job make of them, and a call is there exactly if it has entered and not left. */
  lemma {:induction false} TableIs(s: Sys, es: seq<Step>, id: JobId, p: Place, h: CallId)
    requires Stands(s, id, p)
    ensures Stands(Run(s, es), id, PlaceAfter(s, es, id, p))
    ensures h in Run(s, es).calls <==> ThereAfter(s, es, h, h in s.calls)
    decreases |es|
  {
    if es != [] {
      if Enabled(s, es[0]) {
        PlaceStands(s, es[0], id, p);
        TableIs(Next(s, es[0]), es[1..], id, Place1(s, es[0], id, p), h);
      } else {
        TableIs(s, es[1..], id, p, h);
      }
    }
  }

  // ---- Whether a stop holds ----

  predicate NoEntry(es: seq<Step>, id: JobId) {
    forall e <- es :: e.Enter? ==> e.id != id
  }

  /** No container of job id exists, and none starts until the job is sent again. */
  ghost predicate Held(s: Sys, id: JobId) {
    forall es :: NoEntry(es, id) ==> id !in Run(s, es).boxes
  }

  ghost predicate SomeAt(s: Sys, id: JobId, p: Phase) {
    exists h :: h in s.calls && s.calls[h] == Call(id, p)
  }

  // No container, and nobody on the way to one.
  ghost predicate Quiet(s: Sys, id: JobId) {
    id !in s.boxes && !SomeAt(s, id, Cleared) && (id in s.jobs ==> !SomeAt(s, id, Preparing))
  }

  lemma QuietStep(s: Sys, e: Step, id: JobId)
    requires Quiet(s, id) && Enabled(s, e) && (e.Enter? ==> e.id != id)
    ensures Quiet(Next(s, e), id)
  {
    var t := Next(s, e);
    forall h | h in t.calls ensures t.calls[h] != Call(id, Cleared) {
      assert h in s.calls ==> s.calls[h] != Call(id, Cleared);
    }
    if id in t.jobs {
      forall h | h in t.calls ensures t.calls[h] != Call(id, Preparing) {
        assert h in s.calls ==> s.calls[h] != Call(id, Preparing);
      }
    }
  }

  lemma {:induction false} QuietRun(s: Sys, es: seq<Step>, id: JobId)
    requires Quiet(s, id) && NoEntry(es, id)
    ensures Quiet(Run(s, es), id)
    decreases |es|
  {
    if es != [] {
      assert es[0] in es;
      if Enabled(s, es[0]) {
        QuietStep(s, es[0], id);
        QuietRun(Next(s, es[0]), es[1..], id);
      } else {
        QuietRun(s, es[1..], id);
      }
    }
  }

  lemma HeldIff(s: Sys, id: JobId)
    ensures Held(s, id) <==> Quiet(s, id)
  {
    if Quiet(s, id) {
      forall es | NoEntry(es, id) ensures id !in Run(s, es).boxes {
        QuietRun(s, es, id);
      }
    } else if id in s.boxes {
      assert id in Run(s, []).boxes;
    } else if SomeAt(s, id, Cleared) {
      var h :| h in s.calls && s.calls[h] == Call(id, Cleared);
      RunOne(s, Boot(h));
      assert id in Run(s, [Boot(h)]).boxes;
    } else {
      var h :| h in s.calls && s.calls[h] == Call(id, Preparing);
      RunOne(s, Look(h));
      RunOne(Next(s, Look(h)), Boot(h));
      RunAppend(s, [Look(h)], [Boot(h)]);
      assert id in Run(s, [Look(h)] + [Boot(h)]).boxes;
    }
  }

  // A StopJob call: the container is removed, other steps come between, the job leaves the table.
  function Stopped(s: Sys, es: seq<Step>, id: JobId): Sys {
    Next(Run(Next(s, Kill(id)), es), Unlist(id))
  }

  /** Whatever comes between the two steps of a stop: it holds if and only if, when the job is
      about to leave the table, no container of it exists and no call for it is between its
      look at the table and its container. */
  lemma StopHeldIff(s: Sys, es: seq<Step>, id: JobId)
    ensures var u := Run(Next(s, Kill(id)), es);
      Held(Stopped(s, es, id), id) <==> id !in u.boxes && !SomeAt(u, id, Cleared)
  {
    HeldIff(Stopped(s, es, id), id);
  }

  /** When it begins, a stop is certain to hold, whatever comes between its two steps, if and
      only if no call for the job is past its look at the table without a container yet, and
      none is still before it while the job is listed. */
  lemma StopHoldsIff(s: Sys, id: JobId)
    ensures (forall es :: NoEntry(es, id) ==> Held(Stopped(s, es, id), id))
            <==> !SomeAt(s, id, Cleared) && (id in s.jobs ==> !SomeAt(s, id, Preparing))
  {
    var k := Next(s, Kill(id));
    assert Quiet(k, id) <==> !SomeAt(s, id, Cleared) && (id in s.jobs ==> !SomeAt(s, id, Preparing));
    if Quiet(k, id) {
      forall es | NoEntry(es, id) ensures Held(Stopped(s, es, id), id) {
        QuietRun(k, es, id);
        StopHeldIff(s, es, id);
      }
    } else if SomeAt(s, id, Cleared) {
      StopHeldIff(s, [], id);
    } else {
      var h :| h in k.calls && k.calls[h] == Call(id, Preparing);
      RunOne(k, Look(h));
      assert Run(k, [Look(h)]).calls[h] == Call(id, Cleared);
      StopHeldIff(s, [Look(h)], id);
      assert NoEntry([Look(h)], id);
    }
  }

  /** It does happen: a stop that finds no container, because it is just being created, takes
      the job off the table and leaves it running. */
  lemma StopMissesContainer(id: JobId)
    ensures var s := Run(INIT, [Enter(0, id), Look(0)]);
      id !in s.boxes && id in Stopped(s, [Boot(0)], id).boxes && id !in Stopped(s, [Boot(0)], id).jobs
  {
    var s1 := Next(INIT, Enter(0, id));
    RunOne(INIT, Enter(0, id));
    RunOne(s1, Look(0));
    RunAppend(INIT, [Enter(0, id)], [Look(0)]);
    assert [Enter(0, id)] + [Look(0)] == [Enter(0, id), Look(0)];
    RunOne(Next(Next(s1, Look(0)), Kill(id)), Boot(0));
  }

  // ---- Whether a call keeps its place on the table ----

  // Nobody stops the job or sends it again.
  predicate LeftAlone(es: seq<Step>, id: JobId) {
    forall e <- es :: (e.Enter? || e.Unlist?) ==> e.id != id
  }

  ghost predicate Alone(s: Sys, g: CallId, id: JobId) {
    forall h :: h in s.calls && s.calls[h].id == id ==> h == g
  }

  ghost predicate KeepsPlace(s: Sys, g: CallId, id: JobId) {
    && Alone(s, g, id)
    && (g in s.calls && s.calls[g] == Call(id, Preparing) ==> id in s.jobs)
  }

  lemma {:induction false} PlaceRun(s: Sys, es: seq<Step>, g: CallId, id: JobId)
    requires KeepsPlace(s, g, id) && LeftAlone(es, id)
    ensures KeepsPlace(Run(s, es), g, id)
    decreases |es|
  {
    if es != [] {
      assert es[0] in es;
      if Enabled(s, es[0]) {
        PlaceStep(s, es[0], g, id);
        PlaceRun(Next(s, es[0]), es[1..], g, id);
      } else {
        PlaceRun(s, es[1..], g, id);
      }
    }
  }

  lemma PlaceStep(s: Sys, e: Step, g: CallId, id: JobId)
    requires KeepsPlace(s, g, id) && Enabled(s, e) && (e.Enter? || e.Unlist? ==> e.id != id)
    ensures KeepsPlace(Next(s, e), g, id)
  {
    var t := Next(s, e);
    forall h | h in t.calls && t.calls[h].id == id ensures h == g {
      assert h in s.calls && s.calls[h].id == id;
    }
  }

  // Another call for the job gives up, or ends, and leaves.
  lemma OtherLeaves(s: Sys, g: CallId, h: CallId, id: JobId) returns (es: seq<Step>)
    requires g != h && g in s.calls && s.calls[g] == Call(id, Preparing) && h in s.calls && s.calls[h].id == id
    ensures LeftAlone(es, id)
    ensures var t := Run(s, es); g in t.calls && t.calls[g] == Call(id, Preparing) && id !in t.jobs
  {
    var out := match s.calls[h].phase
      case Preparing => [GiveUp(h)]
      case Cleared => [GiveUp(h)]
      case Running(_) => [End(h)]
      case Leaving => [];
    var u := Run(s, out);
    if out != [] {
      RunOne(s, out[0]);
    }
    assert In(u, h, Leaving) && u.calls[h].id == id && u.calls[g] == s.calls[g];
    RunOne(u, Leave(h));
    RunAppend(s, out, [Leave(h)]);
    es := out + [Leave(h)];
  }

  /** A listed call that has not looked at the table yet stays listed until it does, as long as
      nobody stops its job or sends it again, if and only if no other call for the job is there. */
  lemma KeepsPlaceIff(s: Sys, g: CallId, id: JobId)
    requires id in s.jobs && g in s.calls && s.calls[g] == Call(id, Preparing)
    ensures (forall es :: LeftAlone(es, id) ==>
               var t := Run(s, es); g in t.calls && t.calls[g] == Call(id, Preparing) ==> id in t.jobs)
            <==> Alone(s, g, id)
  {
    if Alone(s, g, id) {
      forall es | LeftAlone(es, id)
        ensures var t := Run(s, es); g in t.calls && t.calls[g] == Call(id, Preparing) ==> id in t.jobs
      {
        PlaceRun(s, es, g, id);
      }
    } else {
      var h :| h in s.calls && s.calls[h].id == id && h != g;
      var es := OtherLeaves(s, g, h, id);
    }
  }

  /** It does happen: the first call's way out takes the second one off the table, which then
      leaves without having run anything. */
  lemma OverlapLosesJob(id: JobId)
    ensures var s := Run(INIT, [Enter(0, id), GiveUp(0), Enter(1, id), Leave(0), Look(1)]);
      In(s, 1, Leaving) && s.boxes == map[]
  {
    var s1 := Next(INIT, Enter(0, id));
    var s2 := Next(s1, GiveUp(0));
    var s3 := Next(s2, Enter(1, id));
    var s4 := Next(s3, Leave(0));
    var s5 := Next(s4, Look(1));
    assert Run(s5, []) == s5;
    assert Run(s4, [Look(1)]) == s5;
    assert Run(s3, [Leave(0), Look(1)]) == s5;
    assert Run(s2, [Enter(1, id), Leave(0), Look(1)]) == s5;
    assert Run(s1, [GiveUp(0), Enter(1, id), Leave(0), Look(1)]) == s5;
  }
}
