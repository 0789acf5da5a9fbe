/** Greedy placement: a job always goes to a worker with the most free slots. */
module Levelling {

  /** Worker i may be chosen: it has a free slot and no worker has more. */
  predicate MostFree(free: seq<int>, i: nat) {
    i < |free| && free[i] > 0 && forall j :: 0 <= j < |free| ==> free[j] <= free[i]
  }

  // Free slots after one job was placed on each worker named in picks, in order.
  function Place(free: seq<int>, picks: seq<nat>): (r: seq<int>)
    requires forall k :: 0 <= k < |picks| ==> picks[k] < |free|
    ensures |r| == |free|
    decreases |picks|
  {
    if picks == [] then free else Place(free[picks[0] := free[picks[0]] - 1], picks[1..])
  }

  predicate Greedy(free: seq<int>, picks: seq<nat>)
    decreases |picks|
  {
    picks == [] ||
    (MostFree(free, picks[0]) && Greedy(free[picks[0] := free[picks[0]] - 1], picks[1..]))
  }

  lemma {:induction false} GreedyInRange(free: seq<int>, picks: seq<nat>)
    requires Greedy(free, picks)
    ensures forall k :: 0 <= k < |picks| ==> picks[k] < |free|
    decreases |picks|
  {
    if picks != [] {
      GreedyInRange(free[picks[0] := free[picks[0]] - 1], picks[1..]);
      forall k | 0 <= k < |picks| ensures picks[k] < |free| {
        if k > 0 { assert picks[k] == picks[1..][k - 1]; }
      }
    }
  }

  lemma {:induction false} GreedySnoc(free: seq<int>, picks: seq<nat>, i: nat)
    requires Greedy(free, picks) && (forall k :: 0 <= k < |picks| ==> picks[k] < |free|)
    requires MostFree(Place(free, picks), i)
    ensures Greedy(free, picks + [i]) && (forall k :: 0 <= k <= |picks| ==> (picks + [i])[k] < |free|)
    ensures Place(free, picks + [i]) == Place(free, picks)[i := Place(free, picks)[i] - 1]
    decreases |picks|
  {
    if picks == [] {
      assert [i][1..] == [];
    } else {
      GreedySnoc(free[picks[0] := free[picks[0]] - 1], picks[1..], i);
      assert (picks + [i])[1..] == picks[1..] + [i];
    }
  }

  // Every worker that received a job is within one of every other worker.
  predicate Level(origin: seq<int>, free: seq<int>) {
    && |free| == |origin|
    && (forall i :: 0 <= i < |free| ==> free[i] <= origin[i])
    && (forall i, j :: 0 <= i < |free| && 0 <= j < |free| && free[i] < origin[i] ==> free[j] - 1 <= free[i])
  }

  lemma {:induction false} LevelRun(origin: seq<int>, free: seq<int>, picks: seq<nat>)
    requires Level(origin, free) && Greedy(free, picks)
    requires forall k :: 0 <= k < |picks| ==> picks[k] < |free|
    ensures Level(origin, Place(free, picks))
    decreases |picks|
  {
    if picks != [] {
      LevelRun(origin, free[picks[0] := free[picks[0]] - 1], picks[1..]);
    }
  }

  function Sum(free: seq<int>): int {
    if free == [] then 0 else free[0] + Sum(free[1..])
  }

  lemma {:induction false} SumUpdate(free: seq<int>, i: nat, v: int)
    requires i < |free|
    ensures Sum(free[i := v]) == Sum(free) - free[i] + v
  {
    if i == 0 {
      assert free[0 := v][1..] == free[1..];
    } else {
      SumUpdate(free[1..], i - 1, v);
      assert free[i := v][1..] == free[1..][i - 1 := v];
    }
  }

  // Any placement takes one slot per job and frees none.
  lemma {:induction false} PlaceSum(free: seq<int>, picks: seq<nat>)
    requires forall k :: 0 <= k < |picks| ==> picks[k] < |free|
    ensures Sum(Place(free, picks)) == Sum(free) - |picks|
    ensures forall i :: 0 <= i < |free| ==> Place(free, picks)[i] <= free[i]
    decreases |picks|
  {
    if picks != [] {
      SumUpdate(free, picks[0], free[picks[0]] - 1);
      PlaceSum(free[picks[0] := free[picks[0]] - 1], picks[1..]);
    }
  }

  lemma {:induction false} SumMonotone(a: seq<int>, b: seq<int>, k: nat)
    requires |a| == |b| && k < |a| && a[k] < b[k]
    requires forall i :: 0 <= i < |a| ==> a[i] <= b[i]
    ensures Sum(a) < Sum(b)
  {
    if k > 0 {
      SumMonotone(a[1..], b[1..], k - 1);
    } else {
      SumAtMost(a[1..], b[1..]);
    }
  }

  lemma {:induction false} SumAtMost(a: seq<int>, b: seq<int>)
    requires |a| == |b| && forall i :: 0 <= i < |a| ==> a[i] <= b[i]
    ensures Sum(a) <= Sum(b)
  {
    if a != [] { SumAtMost(a[1..], b[1..]); }
  }

  /** Greedy levelling is optimal.  Whatever ties the enumeration breaks, every chosen
      worker ends within one slot of the most free one, and every other placement of as
      many jobs leaves some worker at least as free as the most free one here. */
  lemma {:induction false} GreedyIsOptimal(free: seq<int>, picks: seq<nat>, other: seq<nat>, top: nat)
    requires Greedy(free, picks) && (forall k :: 0 <= k < |picks| ==> picks[k] < |free|)
    requires |other| == |picks| && (forall k :: 0 <= k < |other| ==> other[k] < |free|)
    requires top < |free| && forall j :: 0 <= j < |free| ==> Place(free, picks)[j] <= Place(free, picks)[top]
    ensures forall k :: 0 <= k < |picks| ==> Place(free, picks)[picks[k]] >= Place(free, picks)[top] - 1
    ensures exists j :: 0 <= j < |free| && Place(free, other)[j] >= Place(free, picks)[top]
  {
    var after, alt := Place(free, picks), Place(free, other);
    LevelRun(free, free, picks);
    PlaceSum(free, picks);
    PlaceSum(free, other);
    forall k | 0 <= k < |picks| ensures after[picks[k]] >= after[top] - 1 {
      PickedDrops(free, picks, k);
    }
    if forall j :: 0 <= j < |free| ==> alt[j] < after[top] {
      forall i | 0 <= i < |free| ensures alt[i] <= after[i] {}
      SumMonotone(alt, after, top);
    }
  }

  // Slots are only taken, and a worker with room is never filled beyond its room.
  lemma {:induction false} GreedyKeepsRoom(free: seq<int>, picks: seq<nat>)
    requires Greedy(free, picks) && (forall k :: 0 <= k < |picks| ==> picks[k] < |free|)
    ensures forall i :: 0 <= i < |free| ==> Place(free, picks)[i] <= free[i]
    ensures forall i :: 0 <= i < |free| && free[i] >= 0 ==> Place(free, picks)[i] >= 0
    decreases |picks|
  {
    if picks != [] { GreedyKeepsRoom(free[picks[0] := free[picks[0]] - 1], picks[1..]); }
  }

  lemma {:induction false} PickedDrops(free: seq<int>, picks: seq<nat>, k: nat)
    requires k < |picks| && forall i :: 0 <= i < |picks| ==> picks[i] < |free|
    ensures Place(free, picks)[picks[k]] < free[picks[k]]
    decreases |picks|
  {
    var next := free[picks[0] := free[picks[0]] - 1];
    PlaceSum(next, picks[1..]);
    if k > 0 { PickedDrops(next, picks[1..], k - 1); }
  }

  // ---- How many jobs fit ----

  function Capacity(free: seq<int>): nat {
    if free == [] then 0 else (if free[0] > 0 then free[0] else 0) + Capacity(free[1..])
  }

  lemma {:induction false} CapacityPick(free: seq<int>, i: nat)
    requires i < |free| && free[i] > 0
    ensures Capacity(free) > 0 && Capacity(free[i := free[i] - 1]) == Capacity(free) - 1
  {
    if i == 0 {
      assert free[0 := free[0] - 1][1..] == free[1..];
    } else {
      CapacityPick(free[1..], i - 1);
      assert free[i := free[i] - 1][1..] == free[1..][i - 1 := free[i] - 1];
    }
  }

  lemma {:induction false} CapacityZero(free: seq<int>)
    ensures Capacity(free) == 0 <==> forall i :: 0 <= i < |free| ==> free[i] <= 0
  {
    if free != [] {
      CapacityZero(free[1..]);
      assert forall i :: 0 < i < |free| ==> free[i] == free[1..][i - 1];
      if forall i :: 0 <= i < |free| ==> free[i] <= 0 {
        forall i | 0 <= i < |free[1..]| ensures free[1..][i] <= 0 { assert free[1..][i] == free[i + 1]; }
      }
    }
  }
}
