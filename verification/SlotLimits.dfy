/** When fine steps keep every worker within its maximum: findWorker reads the counter that
    the execution it spawns will only increment later. */
module SlotLimits {
  import opened Types
  import opened FineSteps

  // Executions sent to worker w that have not returned, counted or not.
  function Sent(s: Sys, w: nat): set<nat> { set a | a in s.acts && SentTo(s.acts[a], w) }

  predicate SentTo(act: Act, w: nat) { act.Start? && act.worker == w }

  function Limit(s: Sys, w: nat): nat
    requires w < |s.pool.workers|
  {
    if s.pool.workers[w].max > 0 then s.pool.workers[w].max else 0
  }

  function Reserved(s: Sys, w: nat): nat { if s.loop == Chosen(w) then 1 else 0 }

  predicate WithinLimits(s: Sys) {
    forall w :: 0 <= w < |s.pool.workers| ==> |Sent(s, w)| + Reserved(s, w) <= Limit(s, w)
  }

  // No worker runs more jobs than its maximum, or any at all where that is negative.
  predicate NoneOver(s: Sys) {
    forall w :: 0 <= w < |s.pool.workers| ==> s.pool.workers[w].running <= Limit(s, w)
  }

  /** A picked worker has room for one more than was ever sent to it and has not returned. */
  predicate RoomyPick(s: Sys, l: Label) {
    l.Scan? && l.choice.Some? && l.choice.value < |s.pool.workers| ==>
      |Sent(s, l.choice.value)| < Limit(s, l.choice.value)
  }

  predicate RoomyRun(s: Sys, ls: seq<Label>)
    decreases |ls|
  {
    ls == [] || (Enabled(s, ls[0]) && RoomyPick(s, ls[0]) && RoomyRun(Step(s, ls[0]), ls[1..]))
  }

  lemma SentChange(s: Sys, t: Sys, a: nat, w: nat)
    requires forall b :: b != a ==> (b in s.acts <==> b in t.acts) && (b in s.acts ==> s.acts[b] == t.acts[b])
    ensures var before := a in s.acts && SentTo(s.acts[a], w); var after := a in t.acts && SentTo(t.acts[a], w);
      |Sent(t, w)| == |Sent(s, w)| + (if after then 1 else 0) - (if before then 1 else 0)
  {
    assert Sent(s, w) - {a} == Sent(t, w) - {a};
    assert a !in Sent(s, w) ==> Sent(s, w) - {a} == Sent(s, w);
    assert a !in Sent(t, w) ==> Sent(t, w) - {a} == Sent(t, w);
  }

  // An execution never changes its worker, and only the loop sends one to a worker it reserved.
  lemma OnlyLoopSends(s: Sys, l: Label, w: nat)
    requires Enabled(s, l) && w < |s.pool.workers|
    ensures var t, a := Step(s, l), Mover(s, l);
      a in t.acts && SentTo(t.acts[a], w) ==>
        (a in s.acts && SentTo(s.acts[a], w)) || (l.Dequeue? && s.loop == Chosen(w) && t.loop == Idle)
    ensures Reserved(Step(s, l), w) > Reserved(s, w) ==> l == Scan(Some(w)) && Free(s, w) > 0
    ensures w < |Step(s, l).pool.workers| && Step(s, l).pool.workers[w].max == s.pool.workers[w].max
  {
    if l.Advance? {
      if s.acts[l.a].Start? {
        assert AdvanceStart(s, l.a).loop == s.loop;
      } else if s.acts[l.a].Stopping? {
        assert AdvanceStop(s, l.a).loop == s.loop;
      }
    }
  }

  lemma LimitStep(s: Sys, l: Label)
    requires SlotInv(s) && WithinLimits(s) && Enabled(s, l)
    ensures WithinLimits(Step(s, l)) <==> RoomyPick(s, l)
  {
    var t := Step(s, l);
    StepMoves(s, l);
    forall b | b != Mover(s, l)
      ensures (b in s.acts <==> b in t.acts) && (b in s.acts ==> s.acts[b] == t.acts[b])
    {
      MoverAt(s.acts, t.acts, Mover(s, l), b);
    }
    forall w | 0 <= w < |t.pool.workers| && l != Scan(Some(w)) ensures |Sent(t, w)| + Reserved(t, w) <= Limit(t, w) {
      SentChange(s, t, Mover(s, l), w);
      if w < |s.pool.workers| {
        OnlyLoopSends(s, l, w);
      } else {
        assert l.Connect? && t.acts == s.acts;
        assert Sent(s, w) == {};
      }
    }
    if l.Scan? && l.choice.Some? {
      var w := l.choice.value;
      assert Sent(t, w) == Sent(s, w) && Reserved(t, w) == 1 && Limit(t, w) == Limit(s, w);
    }
  }

  /** Fine steps.  As long as every picked worker has room for one more than was sent to it and
      has not returned, no worker ever exceeds its maximum, whatever else interleaves. */
  lemma {:induction false} NeverOverMax(s: Sys, ls: seq<Label>, t: Sys)
    requires SlotInv(s) && WithinLimits(s) && Run(s, ls, t) && RoomyRun(s, ls)
    ensures SlotInv(t) && WithinLimits(t) && NoneOver(t)
    decreases |ls|
  {
    if ls == [] {
      forall w | 0 <= w < |t.pool.workers| ensures t.pool.workers[w].running <= Limit(t, w) {
        SubsetCount(Holders(t, w), Sent(t, w));
      }
    } else {
      SlotStep(s, ls[0]);
      LimitStep(s, ls[0]);
      NeverOverMax(Step(s, ls[0]), ls[1..], t);
    }
  }

  lemma {:induction false} SubsetCount(a: set<nat>, b: set<nat>)
    requires a <= b
    ensures |a| <= |b|
    decreases |a|
  {
    if a != {} {
      var x :| x in a;
      SubsetCount(a - {x}, b - {x});
    }
  }

  // ---- The proviso is exact ----

  predicate NoScan(ls: seq<Label>) { forall l <- ls :: !l.Scan? }

  /** Whatever was already picked goes on as it may, no maximum is exceeded. */
  ghost predicate SafeNow(s: Sys) {
    forall ls, t :: Run(s, ls, t) && NoScan(ls) ==> NoneOver(t)
  }

  lemma {:induction false} NoScanIsRoomy(s: Sys, ls: seq<Label>, t: Sys)
    requires Run(s, ls, t) && NoScan(ls)
    ensures RoomyRun(s, ls)
    decreases |ls|
  {
    if ls != [] {
      assert ls[0] in ls;
      NoScanIsRoomy(Step(s, ls[0]), ls[1..], t);
    }
  }

  function Uncounted(s: Sys, w: nat): set<nat> {
    set a | a in s.acts && SentTo(s.acts[a], w) && s.acts[a].spc == Spawned
  }

  // The executions sent to w are counted, and nothing else happens.
  lemma {:induction false} CountAll(s: Sys, w: nat) returns (ls: seq<Label>, t: Sys)
    requires SlotInv(s) && w < |s.pool.workers| && |Sent(s, w)| > Limit(s, w)
    ensures Run(s, ls, t) && NoScan(ls) && !NoneOver(t)
    decreases |Uncounted(s, w)|
  {
    if Uncounted(s, w) == {} {
      assert Sent(s, w) == Holders(s, w) by {
        forall a | a in Sent(s, w) ensures a in Holders(s, w) {
          assert a !in Uncounted(s, w);
        }
      }
      ls, t := [], s;
    } else {
      var a :| a in Uncounted(s, w);
      var u := Step(s, Advance(a));
      SlotStep(s, Advance(a));
      assert Uncounted(u, w) == Uncounted(s, w) - {a};
      assert Sent(u, w) == Sent(s, w);
      ls, t := CountAll(u, w);
      ls := [Advance(a)] + ls;
    }
  }

  lemma DequeueSends(s: Sys, w: nat, a: nat)
    requires SlotInv(s) && s.loop == Chosen(w) && s.sh.queued != [] && a !in s.acts
    ensures var t := Step(s, Dequeue(a));
      SlotInv(t) && w < |t.pool.workers| && |Sent(t, w)| == |Sent(s, w)| + 1 && Limit(t, w) == Limit(s, w)
  {
    SlotStep(s, Dequeue(a));
    assert Sent(Step(s, Dequeue(a)), w) == Sent(s, w) + {a};
  }

  // A picked worker is sent a job, if need be one that arrives meanwhile.
  lemma SendReserved(s: Sys, w: nat) returns (ls: seq<Label>, t: Sys)
    requires SlotInv(s) && s.loop == Chosen(w)
    ensures Run(s, ls, t) && NoScan(ls) && SlotInv(t)
    ensures w < |t.pool.workers| && |Sent(t, w)| == |Sent(s, w)| + 1 && Limit(t, w) == Limit(s, w)
  {
    var a := Unused(s.acts.Keys);
    var u := s;
    ls := [];
    if s.sh.queued == [] {
      var id := Unused(s.sh.pending.Keys);
      ls := NextAlone(s, a, id);
      u := Queued(s, id);
      SlotRun(s, ls, u);
    }
    DequeueSends(u, w, a);
    t := Step(u, Dequeue(a));
    RunSnoc(s, ls, u, Dequeue(a));
    ls := ls + [Dequeue(a)];
  }

  /** Fine steps.  A state is safe as long as workers are not compared again if and only if no
      worker was sent, or is about to be sent, more jobs than its maximum. */
  lemma SafeNowIff(s: Sys)
    requires SlotInv(s)
    ensures SafeNow(s) <==> WithinLimits(s)
  {
    if WithinLimits(s) {
      forall ls, t | Run(s, ls, t) && NoScan(ls) ensures NoneOver(t) {
        NoScanIsRoomy(s, ls, t);
        NeverOverMax(s, ls, t);
      }
    } else {
      var w :| 0 <= w < |s.pool.workers| && |Sent(s, w)| + Reserved(s, w) > Limit(s, w);
      if s.loop == Chosen(w) {
        var ls, u := SendReserved(s, w);
        var ms, t := CountAll(u, w);
        RunAppend(s, ls, u, ms, t);
        assert NoScan(ls + ms);
      } else {
        var ls, t := CountAll(s, w);
      }
    }
  }

  // Every state of the run is safe.
  ghost predicate SafeAlong(s: Sys, ls: seq<Label>)
    decreases |ls|
  {
    SafeNow(s) && (ls == [] || (Enabled(s, ls[0]) && SafeAlong(Step(s, ls[0]), ls[1..])))
  }

  lemma {:induction false} SafeAlongIff(s: Sys, ls: seq<Label>, t: Sys)
    requires SlotInv(s) && WithinLimits(s) && Run(s, ls, t)
    ensures SafeAlong(s, ls) <==> RoomyRun(s, ls)
    decreases |ls|
  {
    SafeNowIff(s);
    if ls != [] {
      var u := Step(s, ls[0]);
      SlotStep(s, ls[0]);
      LimitStep(s, ls[0]);
      if RoomyPick(s, ls[0]) {
        SafeAlongIff(u, ls[1..], t);
      } else {
        SafeNowIff(u);
      }
    }
  }

  /** Fine steps.  A run from the start never leads to a worker above its maximum, by itself or by
      what it has already picked going on, if and only if every picked worker had room for one
      more than was sent to it and had not returned. */
  lemma OverMaxIff(ls: seq<Label>, t: Sys)
    requires Reaches(ls, t)
    ensures SafeAlong(INIT, ls) <==> RoomyRun(INIT, ls)
  {
    SafeAlongIff(INIT, ls, t);
  }

  // Both jobs picked for the one slot, neither counted.
  lemma BothPicked() returns (ls: seq<Label>, t: Sys)
    ensures Reaches(ls, t)
    ensures t == Sys(Shared([], map[], false, false), OneWorker(0), Idle,
                     map[1 := Start(Spawned, Ticket(7, 0, 0), 0), 2 := Start(Spawned, Ticket(8, 0, 1), 0)],
                     History(2, [0, 1], {}, Started(2), {}, false))
  {
    var s1;
    ls, s1 := WitnessPicked();
    var ms := NextAlone(s1, 0, 8);
    var s2 := Queued(s1, 8);
    RunAppend(INIT, ls, s1, ms, s2);
    ls := ls + ms;
    ms := LoopDispatches(s2, 0, 2);
    t := Dispatched(s2, 0, 2);
    RunAppend(INIT, ls, s2, ms, t);
    ls := ls + ms;
  }

  /** It does happen: one worker with one slot, two jobs picked for it before the first is
      counted, and both run. */
  lemma OverMax() returns (ls: seq<Label>, t: Sys)
    ensures Reaches(ls, t) && t.pool.workers == [Slot(1, 2)] && t.sh.pending == map[7 := 1, 8 := 2]
  {
    var s1;
    ls, s1 := BothPicked();
    var ms := Launch(s1, 1, Ticket(7, 0, 0), 0);
    var s2 := Launched(s1, 1, Ticket(7, 0, 0), 0);
    RunAppend(INIT, ls, s1, ms, s2);
    ls := ls + ms;
    ms := Launch(s2, 2, Ticket(8, 0, 1), 0);
    t := Launched(s2, 2, Ticket(8, 0, 1), 0);
    RunAppend(INIT, ls, s2, ms, t);
    ls := ls + ms;
  }
}
