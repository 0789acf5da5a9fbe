/** Values shared by the scheduler modules. */
module Types {

  datatype Option<+T> = None | Some(value: T)

  type JobId = nat
  type BuildId = nat
  type WorkerId = string

  // An abstract, monotone clock stands for wall-clock time.
  type Time = nat

  /** The job object handed to one call of Next.  Two calls for the same job
      hand over different objects; the arrival stamp tells them apart. */
  datatype Ticket = Ticket(id: JobId, build: BuildId, stamp: nat)

  const QUEUED := "queued"
  const RUNNING := "running"
  const PASSING := "passing"
  const FAILING := "failing"

  /** The columns of a stored job that the scheduler writes. */
  datatype JobRow = JobRow(build: BuildId, status: string, start: Option<Time>, end: Option<Time>)

  datatype Slot = Slot(max: int, running: int)

  /** Every worker object ever connected, and which of them the registry lists. */
  datatype Pool = Pool(workers: seq<Slot>, listed: set<nat>)

  function FreeSlots(p: Pool, w: nat): int
    requires w < |p.workers|
  {
    p.workers[w].max - p.workers[w].running
  }

  // A worker that findWorker may choose, in whatever order the registry is enumerated.
  predicate MostFreeIn(p: Pool, w: nat) {
    && w in p.listed && w < |p.workers| && FreeSlots(p, w) > 0
    && forall v :: v in p.listed && v < |p.workers| ==> FreeSlots(p, v) <= FreeSlots(p, w)
  }

  function Bump(p: Pool, w: nat, delta: int): Pool
    requires w < |p.workers|
  {
    p.(workers := p.workers[w := Slot(p.workers[w].max, p.workers[w].running + delta)])
  }

  function Connected(p: Pool, max: int): Pool {
    Pool(p.workers + [Slot(max, 0)], p.listed + {|p.workers|})
  }

  /** The queue after the first entry for job id, if there is one, is spliced out. */
  function RemoveFirst(q: seq<Ticket>, id: JobId): (r: seq<Ticket>)
  {
    if q == [] then []
    else if q[0].id == id then q[1..]
    else [q[0]] + RemoveFirst(q[1..], id)
  }

  /** The first entry for job id. */
  function FirstTicket(q: seq<Ticket>, id: JobId): (r: Option<Ticket>)
  {
    if q == [] then None
    else if q[0].id == id then Some(q[0])
    else FirstTicket(q[1..], id)
  }

  /** What removeJob and findJob do, read off the position k of the first match. */
  lemma {:induction false} FirstAt(q: seq<Ticket>, id: JobId, k: nat)
    requires k <= |q|
    requires k < |q| ==> q[k].id == id
    requires forall i :: 0 <= i < k ==> q[i].id != id
    ensures k == |q| ==> RemoveFirst(q, id) == q && FirstTicket(q, id) == None
    ensures k < |q| ==> RemoveFirst(q, id) == q[..k] + q[k + 1..] && FirstTicket(q, id) == Some(q[k])
  {
    if k > 0 {
      FirstAt(q[1..], id, k - 1);
      if k < |q| {
        assert q[..k] == [q[0]] + q[1..][..k - 1];
        assert q[k + 1..] == q[1..][k..];
      }
    }
  }

  lemma {:induction false} FindFirst(q: seq<Ticket>, id: JobId) returns (k: nat)
    ensures k <= |q|
    ensures k < |q| ==> q[k].id == id
    ensures forall i :: 0 <= i < k ==> q[i].id != id
    ensures k == |q| ==> RemoveFirst(q, id) == q && FirstTicket(q, id) == None
    ensures k < |q| ==> RemoveFirst(q, id) == q[..k] + q[k + 1..] && FirstTicket(q, id) == Some(q[k])
  {
    if q == [] || q[0].id == id {
      k := 0;
    } else {
      k := FindFirst(q[1..], id);
      k := k + 1;
    }
    FirstAt(q, id, k);
  }

  /** The positions of a set, each once, from the lowest to the highest. */
  ghost predicate Lists(at: seq<nat>, positions: set<nat>) {
    && (forall j, k :: 0 <= j < k < |at| ==> at[j] < at[k])
    && (forall i :: i in at <==> i in positions)
  }

  lemma ListsSnoc(at: seq<nat>, positions: set<nat>, i: nat)
    requires Lists(at, positions) && forall p <- positions :: p < i
    ensures Lists(at + [i], positions + {i})
  {
    forall j, k | 0 <= j < k < |at + [i]| ensures (at + [i])[j] < (at + [i])[k] {
      assert at[j] in at && (k < |at| ==> at[j] < at[k]);
    }
  }

  // Two lists of the same positions are one.
  lemma {:induction false} ListsOnce(a: seq<nat>, b: seq<nat>, positions: set<nat>)
    requires Lists(a, positions) && Lists(b, positions)
    ensures a == b
    decreases |a|
  {
    assert (a != [] ==> a[0] in b) && (b != [] ==> b[0] in a);
    if a != [] && b != [] {
      var x, y := a[|a| - 1], b[|b| - 1];
      assert x in b && y in a;
      ListsFront(a, positions);
      ListsFront(b, positions);
      ListsOnce(a[..|a| - 1], b[..|b| - 1], positions - {x});
      assert a == a[..|a| - 1] + [x] && b == b[..|b| - 1] + [x];
    }
  }

  lemma ListsFront(at: seq<nat>, positions: set<nat>)
    requires Lists(at, positions) && at != []
    ensures Lists(at[..|at| - 1], positions - {at[|at| - 1]})
  {
    assert at == at[..|at| - 1] + [at[|at| - 1]];
  }

  /** An identifier above all those in use. */
  lemma {:induction false} Unused(used: set<nat>) returns (a: nat)
    ensures forall b <- used :: b < a
    decreases |used|
  {
    if used == {} {
      a := 0;
    } else {
      var b :| b in used;
      a := Unused(used - {b});
      if b >= a {
        a := b + 1;
      }
      assert forall x <- used :: x == b || x in used - {b};
    }
  }
}
