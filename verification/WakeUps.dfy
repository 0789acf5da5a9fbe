/** When the comparison of workers that finds them all full can lose a wake-up.  Fine steps. */
module WakeUps {
  import opened Types
  import opened FineSteps

  predicate AllFull(s: Sys) {
    forall w :: w in s.pool.listed && w < |s.pool.workers| ==> Free(s, w) <= 0
  }

  predicate GivesBack(act: Act, w: nat) { act.Start? && act.spc == Releasing && act.worker == w }

  // The executions that have sent their last signal and still hold a slot of worker w.
  function GivingBackOn(s: Sys, w: nat): set<nat> { set a | a in s.acts && GivesBack(s.acts[a], w) }

  // Even when they have given their slots back, every listed worker is full.
  predicate NoRoomComing(s: Sys) {
    forall w :: w in s.pool.listed && w < |s.pool.workers| ==> Free(s, w) + |GivingBackOn(s, w)| <= 0
  }

  /** Steps after which the last comparison is still the last word: the loop takes no token and
      compares nothing, and no worker connects. */
  predicate Undisturbed(ls: seq<Label>) {
    forall l <- ls :: !l.Take? && !l.Scan? && !l.Connect?
  }

  lemma GivingBackChange(s: Sys, t: Sys, a: nat, w: nat)
    requires forall b :: b != a ==> (b in s.acts <==> b in t.acts) && (b in s.acts ==> s.acts[b] == t.acts[b])
    ensures var before := a in s.acts && GivesBack(s.acts[a], w);
            var after := a in t.acts && GivesBack(t.acts[a], w);
      |GivingBackOn(t, w)| == |GivingBackOn(s, w)| + (if after then 1 else 0) - (if before then 1 else 0)
  {
    assert GivingBackOn(s, w) - {a} == GivingBackOn(t, w) - {a};
    assert a !in GivingBackOn(s, w) ==> GivingBackOn(s, w) - {a} == GivingBackOn(s, w);
    assert a !in GivingBackOn(t, w) ==> GivingBackOn(t, w) - {a} == GivingBackOn(t, w);
  }

  /** What a step owes the argument: the loop stays idle, a token stays, and without one no room comes. */
  predicate KeepsRoom(s: Sys, t: Sys, w: nat)
    requires w < |s.pool.workers|
  {
    && t.loop == s.loop && |t.pool.workers| == |s.pool.workers| && t.pool.listed <= s.pool.listed
    && (s.sh.ready ==> t.sh.ready)
    && (!t.sh.ready ==> Free(t, w) + |GivingBackOn(t, w)| <= Free(s, w) + |GivingBackOn(s, w)|)
  }

  lemma OthersStay(s: Sys, l: Label, w: nat)
    requires Enabled(s, l)
    ensures var t, a := Step(s, l), Mover(s, l);
            var before := a in s.acts && GivesBack(s.acts[a], w);
            var after := a in t.acts && GivesBack(t.acts[a], w);
      |GivingBackOn(t, w)| == |GivingBackOn(s, w)| + (if after then 1 else 0) - (if before then 1 else 0)
  {
    var t, a := Step(s, l), Mover(s, l);
    StepMoves(s, l);
    forall b | b != a
      ensures (b in s.acts <==> b in t.acts) && (b in s.acts ==> s.acts[b] == t.acts[b])
    {
      MoverAt(s.acts, t.acts, a, b);
    }
    GivingBackChange(s, t, a, w);
  }

  lemma RoomStart(s: Sys, a: nat, w: nat)
    requires a in s.acts && s.acts[a].Start? && s.acts[a].worker < |s.pool.workers| && w < |s.pool.workers|
    ensures KeepsRoom(s, Step(s, Advance(a)), w)
  {
    OthersStay(s, Advance(a), w);
    assert Step(s, Advance(a)) == AdvanceStart(s, a);
  }

  // A slot comes free only from an execution that was giving it back, and one starts giving back only with a signal.
  lemma RoomStep(s: Sys, l: Label, w: nat)
    requires s.loop == Idle && Enabled(s, l) && !l.Take? && !l.Scan? && !l.Connect? && w < |s.pool.workers|
    ensures KeepsRoom(s, Step(s, l), w)
  {
    if l.Advance? && s.acts[l.a].Start? {
      RoomStart(s, l.a, w);
    } else {
      OthersStay(s, l, w);
      if l.Advance? && s.acts[l.a].Stopping? {
        assert AdvanceStop(s, l.a).pool == s.pool;
      }
    }
  }

  lemma {:induction false} SignalKept(s: Sys, ls: seq<Label>, t: Sys)
    requires InRange(s) && s.loop == Idle && (s.sh.ready || NoRoomComing(s))
    requires Run(s, ls, t) && Undisturbed(ls)
    ensures t.sh.ready || AllFull(t)
    decreases |ls|
  {
    if ls == [] {
      return;
    }
    var u := Step(s, ls[0]);
    assert ls[0] in ls;
    if |s.pool.workers| > 0 {
      RoomStep(s, ls[0], 0);
    }
    StepMoves(s, ls[0]);
    forall w | w in u.pool.listed && w < |u.pool.workers| && !u.sh.ready
      ensures Free(u, w) + |GivingBackOn(u, w)| <= 0
    {
      RoomStep(s, ls[0], w);
    }
    SignalKept(u, ls[1..], t);
  }

  // Nothing but the executions giving back a slot of w moves.
  lemma {:induction false} SlotsComeFree(s: Sys, w: nat) returns (ls: seq<Label>, t: Sys)
    requires InRange(s) && !s.sh.ready && w in s.pool.listed && w < |s.pool.workers|
    requires Free(s, w) + |GivingBackOn(s, w)| > 0
    ensures Run(s, ls, t) && Undisturbed(ls) && !AllFull(t)
    ensures t.sh == s.sh && t.loop == s.loop && forall a <- t.acts :: a in s.acts && t.acts[a] == s.acts[a]
    decreases |GivingBackOn(s, w)|
  {
    if Free(s, w) > 0 {
      ls, t := [], s;
    } else {
      assert GivingBackOn(s, w) != {};
      var a :| a in GivingBackOn(s, w);
      var u := Step(s, Advance(a));
      assert GivingBackOn(u, w) == GivingBackOn(s, w) - {a};
      ls, t := SlotsComeFree(u, w);
      ls := [Advance(a)] + ls;
    }
  }

  /** A comparison that finds every listed worker full is safe, in that a token is kept or every
      listed worker stays full as long as the loop takes no token and no worker connects, if
      and only if a token is there already or no listed worker has room even when the executions
      that have sent their last signal give their slots back. */
  lemma WakeUpKeptIff(s: Sys)
    requires SlotInv(s) && Enabled(s, Scan(None))
    ensures var t := Step(s, Scan(None));
      (forall ls, u :: Run(t, ls, u) && Undisturbed(ls) ==> u.sh.ready || AllFull(u))
      <==> t.sh.ready || NoRoomComing(t)
  {
    var t := Step(s, Scan(None));
    if t.sh.ready || NoRoomComing(t) {
      forall ls, u | Run(t, ls, u) && Undisturbed(ls) ensures u.sh.ready || AllFull(u) {
        SignalKept(t, ls, u);
      }
    } else {
      var w :| w in t.pool.listed && w < |t.pool.workers| && Free(t, w) + |GivingBackOn(t, w)| > 0;
      var ls, u := SlotsComeFree(t, w);
    }
  }

  // ---- A lost wake-up ----

  /** Unpaused work and a free slot, and nothing on its way that would bring them together. */
  predicate Stuck(s: Sys) {
    Quiet(s) && !s.sh.paused && s.sh.queued != [] && !AllFull(s)
  }

  // A token is there or will come, or it is not needed.
  predicate Covered(s: Sys) {
    s.sh.ready || s.sh.paused || s.sh.queued == [] || exists a :: a in s.acts && OwesSignal(s.acts[a])
  }

  lemma CoveredStep(s: Sys, l: Label)
    requires s.loop == Idle && Covered(s) && Enabled(s, l) && !l.Take? && !l.Scan? && !l.Connect?
    ensures Covered(Step(s, l)) && Step(s, l).loop == Idle
  {
    var t, m := Step(s, l), Mover(s, l);
    StepMoves(s, l);
    if l.Advance? && s.acts[m].Start? {
      assert t == AdvanceStart(s, m);
    } else if l.Advance? && s.acts[m].Stopping? {
      assert t == AdvanceStop(s, m);
    }
    if a :| a in s.acts && OwesSignal(s.acts[a]) {
      if a != m {
        MoverAt(s.acts, t.acts, m, a);
      }
      assert !t.sh.ready ==> a in t.acts && OwesSignal(t.acts[a]);
    }
    if m in t.acts && OwesSignal(t.acts[m]) {
      assert Covered(t);
    }
  }

  lemma {:induction false} CoveredRun(s: Sys, ls: seq<Label>, t: Sys)
    requires s.loop == Idle && Covered(s) && Run(s, ls, t) && Undisturbed(ls)
    ensures !Stuck(t)
    decreases |ls|
  {
    if ls != [] {
      assert ls[0] in ls;
      CoveredStep(s, ls[0]);
      CoveredRun(Step(s, ls[0]), ls[1..], t);
    }
  }

  /** After a comparison that finds every listed worker full, and before the loop takes a token or a
      worker connects, the wake-up of queued work can be lost if and only if there is queued work,
      the scheduler is not paused, no token is there and none is owed, and a listed worker has
      room when the executions past their last signal give their slots back. */
  lemma WakeUpLostIff(s: Sys)
    requires SlotInv(s) && Enabled(s, Scan(None))
    ensures var t := Step(s, Scan(None));
      (exists ls, u :: Run(t, ls, u) && Undisturbed(ls) && Stuck(u)) <==> !Covered(t) && !NoRoomComing(t)
  {
    var t := Step(s, Scan(None));
    SlotStep(s, Scan(None));
    if !Covered(t) && !NoRoomComing(t) {
      CanGetStuck(t);
    } else {
      forall ls, u | Run(t, ls, u) && Undisturbed(ls) ensures !Stuck(u) {
        if Covered(t) {
          CoveredRun(t, ls, u);
        } else {
          SignalKept(t, ls, u);
        }
      }
    }
  }

  lemma CanGetStuck(t: Sys)
    requires InRange(t) && t.loop == Idle && !Covered(t) && !NoRoomComing(t)
    ensures exists ls, u :: Run(t, ls, u) && Undisturbed(ls) && Stuck(u)
  {
    var w :| w in t.pool.listed && w < |t.pool.workers| && Free(t, w) + |GivingBackOn(t, w)| > 0;
    var ls, u := SlotsComeFree(t, w);
    assert Stuck(u);
  }
}
