/** Saving a job and aggregating its build, section by section.  saveJob and updateBuildTime hold
    no lock: between writing the row, reading the build with its jobs, writing the build's two
    times once or twice, and sending the status, other calls for the same build may do the same. */
module BuildSections {
  import opened Types
  import opened BuildTimes

  datatype Verdict = Verdict(end: Time, ok: bool)

  /** A call and what it has read: before writing the row, before reading, before the update at
      lines 528-534 (which writes the end time back as it was read), before the one at lines
      536-541, before sending the status. */
  datatype Phase =
    | Writing(i: nat, row: JobRow)
    | Reading
    | Starting(start: Time, was: Option<Time>, last: Option<Verdict>)
    | Ending(from: Option<Time>, v: Verdict)
    | Reporting(ok: bool)

  datatype Site = Site(b: Build, rows: seq<JobRow>, acts: map<nat, Phase>)

  // A save of a job, an aggregation alone as at the end of StopBuild, the next section of a call.
  datatype Label = Begin(a: nat, i: nat, row: JobRow) | Touch(a: nat) | Advance(a: nat)

  predicate Enabled(s: Site, l: Label) {
    match l
    case Begin(a, i, _) => a !in s.acts && i < |s.rows|
    case Touch(a) => a !in s.acts
    case Advance(a) => a in s.acts && (s.acts[a].Writing? ==> s.acts[a].i < |s.rows|)
  }

  function LastOf(rows: seq<JobRow>): Option<Verdict> {
    if EndedPrefix(rows) == |rows| && Latest(rows).Some? then Some(Verdict(Latest(rows).value, AllPassing(rows)))
    else None
  }

  // What a call does after reading; nothing, if there is nothing to write.
  function AfterRead(b: Build, rows: seq<JobRow>): Option<Phase> {
    var start := Earliest(rows[..EndedPrefix(rows)]);
    if b.start.Some? && b.end.Some? then None
    else if start.Some? then Some(Starting(start.value, b.end, LastOf(rows)))
    else if LastOf(rows).Some? then Some(Ending(b.start, LastOf(rows).value))
    else None
  }

  function GoOn(s: Site, a: nat, p: Option<Phase>): Site {
    s.(acts := if p.Some? then s.acts[a := p.value] else s.acts - {a})
  }

  function Section(s: Site, a: nat): Site
    requires Enabled(s, Advance(a))
  {
    match s.acts[a]
    case Writing(i, row) => GoOn(s.(rows := s.rows[i := row]), a, Some(Reading))
    case Reading => GoOn(s, a, AfterRead(s.b, s.rows))
    case Starting(start, was, last) =>
      GoOn(s.(b := s.b.(start := Some(start), end := was)), a,
           if last.Some? then Some(Ending(Some(start), last.value)) else None)
    case Ending(from, v) => GoOn(s.(b := s.b.(start := from, end := Some(v.end))), a, Some(Reporting(v.ok)))
    case Reporting(ok) => GoOn(s.(b := s.b.(sent := s.b.sent + [ok])), a, None)
  }

  function Step(s: Site, l: Label): Site
    requires Enabled(s, l)
  {
    match l
    case Begin(a, i, row) => s.(acts := s.acts[a := Writing(i, row)])
    case Touch(a) => s.(acts := s.acts[a := Reading])
    case Advance(a) => Section(s, a)
  }

  predicate Run(s: Site, ls: seq<Label>, t: Site)
    decreases |ls|
  {
    if ls == [] then s == t else Enabled(s, ls[0]) && Run(Step(s, ls[0]), ls[1..], t)
  }

  lemma {:induction false} RunAppend(s: Site, ls: seq<Label>, t: Site, ms: seq<Label>, u: Site)
    requires Run(s, ls, t) && Run(t, ms, u)
    ensures Run(s, ls + ms, u)
    decreases |ls|
  {
    if ls == [] {
      assert ls + ms == ms;
    } else {
      RunAppend(Step(s, ls[0]), ls[1..], t, ms, u);
      assert (ls + ms)[1..] == ls[1..] + ms;
    }
  }

  lemma RunOne(s: Site, l: Label)
    requires Enabled(s, l)
    ensures Run(s, [l], Step(s, l))
  {
    assert [l][1..] == [];
  }

  predicate OnlyAdvances(ls: seq<Label>) { forall l <- ls :: l.Advance? }

  // ---- Without interleaving ----

  function Alone(s: Site, a: nat): Site
    requires a in s.acts && s.acts[a] == Reading
  {
    Site(Aggregate(s.b, s.rows), s.rows, s.acts - {a})
  }

  // What is left for a call to do after reading.
  function Outcome(b: Build, p: Phase): Build {
    match p
    case Reporting(ok) => b.(sent := b.sent + [ok])
    case Ending(from, v) => b.(start := from, end := Some(v.end), sent := b.sent + [v.ok])
    case Starting(start, was, None) => b.(start := Some(start), end := was)
    case Starting(start, was, Some(v)) => b.(start := Some(start), end := Some(v.end), sent := b.sent + [v.ok])
    case _ => b
  }

  function Rank(p: Phase): nat {
    match p
    case Writing(_, _) => 4
    case Reading => 3
    case Starting(_, _, _) => 2
    case Ending(_, _) => 1
    case Reporting(_) => 0
  }

  lemma {:induction false} AloneFrom(s: Site, a: nat) returns (ls: seq<Label>, t: Site)
    requires a in s.acts && !s.acts[a].Writing? && !s.acts[a].Reading?
    ensures Run(s, ls, t) && OnlyAdvances(ls) && t.acts == s.acts - {a} && t.rows == s.rows
    ensures t.b == Outcome(s.b, s.acts[a])
    decreases Rank(s.acts[a])
  {
    var u := Step(s, Advance(a));
    RunOne(s, Advance(a));
    if a in u.acts {
      var ms;
      ms, t := AloneFrom(u, a);
      ls := [Advance(a)] + ms;
      RunAppend(s, [Advance(a)], u, ms, t);
      assert u.acts - {a} == s.acts - {a};
    } else {
      ls, t := [Advance(a)], u;
    }
  }

  /** The sections of one aggregation in a row do what the aggregation on values does. */
  lemma AloneIsAggregate(s: Site, a: nat) returns (ls: seq<Label>)
    requires a in s.acts && s.acts[a] == Reading
    ensures Run(s, ls, Alone(s, a))
  {
    var u := Step(s, Advance(a));
    RunOne(s, Advance(a));
    assert s.rows[..|s.rows|] == s.rows;
    if a in u.acts {
      var ms, t := AloneFrom(u, a);
      assert u.acts - {a} == s.acts - {a};
      RunAppend(s, [Advance(a)], u, ms, t);
      ls := [Advance(a)] + ms;
    } else {
      ls := [Advance(a)];
    }
  }

  // ---- Calls that complete ----

  predicate InRange(s: Site) { forall a <- s.acts :: s.acts[a].Writing? ==> s.acts[a].i < |s.rows| }

  lemma {:induction false} Complete(s: Site, a: nat) returns (ls: seq<Label>, t: Site)
    requires InRange(s) && a in s.acts
    ensures Run(s, ls, t) && OnlyAdvances(ls) && InRange(t) && t.acts == s.acts - {a} && |t.rows| == |s.rows|
    decreases Rank(s.acts[a])
  {
    var u := Step(s, Advance(a));
    RunOne(s, Advance(a));
    ls, t := [Advance(a)], u;
    if a in u.acts {
      var ms;
      ms, t := Complete(u, a);
      RunAppend(s, ls, u, ms, t);
      ls := ls + ms;
      assert u.acts - {a} == s.acts - {a};
    }
  }

  lemma {:induction false} CompleteAllBut(s: Site, keep: set<nat>) returns (ls: seq<Label>, t: Site)
    requires InRange(s)
    ensures Run(s, ls, t) && OnlyAdvances(ls) && InRange(t) && |t.rows| == |s.rows|
    ensures t.acts == s.acts - (s.acts.Keys - keep)
    decreases s.acts.Keys - keep
  {
    if s.acts.Keys <= keep {
      assert s.acts - (s.acts.Keys - keep) == s.acts;
      ls, t := [], s;
    } else {
      var a :| a in s.acts && a !in keep;
      var u, ms;
      ls, u := Complete(s, a);
      assert a in s.acts.Keys - keep && u.acts.Keys - keep == (s.acts.Keys - keep) - {a};
      ms, t := CompleteAllBut(u, keep);
      RunAppend(s, ls, u, ms, t);
      ls := ls + ms;
    }
  }

  predicate Promises(p: Phase) {
    p.Ending? || p.Reporting? || (p.Starting? && p.last.Some?)
  }

  // The calls that will yet send a status.
  function Pending(s: Site): set<nat> { set a | a in s.acts && Promises(s.acts[a]) }

  lemma PromisesKept(s: Site, a: nat)
    requires Enabled(s, Advance(a))
    ensures var t := Step(s, Advance(a)); |t.b.sent| + |Pending(t)| >= |s.b.sent| + |Pending(s)|
  {
    var t := Step(s, Advance(a));
    var p, q := Pending(s), Pending(t);
    if a in p && a !in q {
      assert q == p - {a};
    } else if a in q && a !in p {
      assert q == p + {a};
    } else {
      assert q == p;
    }
  }

  lemma {:induction false} PromisesRun(s: Site, ls: seq<Label>, t: Site)
    requires Run(s, ls, t) && OnlyAdvances(ls)
    ensures |t.b.sent| + |Pending(t)| >= |s.b.sent| + |Pending(s)|
    decreases |ls|
  {
    if ls != [] {
      assert ls[0] in ls;
      PromisesKept(s, ls[0].a);
      PromisesRun(Step(s, ls[0]), ls[1..], t);
    }
  }

  // ---- The save that ends the last job ----

  /** End and start are those of the jobs, and one status was sent, the right one. */
  predicate Right(s: Site) {
    && s.b.end == Latest(s.rows) && s.b.sent == [AllPassing(s.rows)]
    && (Earliest(s.rows).Some? ==> s.b.start == Earliest(s.rows))
  }

  // What another call may be doing when the last row is written.
  predicate Behind(p: Phase, n: nat) {
    match p
    case Writing(i, _) => i < n
    case Reading => true
    case Starting(_, was, last) => was == None && last == None
    case _ => false
  }

  /** Call a has just written the row that ends the last job. */
  predicate LastSaved(s: Site, a: nat) {
    && s.rows != [] && AllEnded(s.rows) && s.b.end == None && s.b.sent == []
    && a in s.acts && s.acts[a] == Reading && forall o <- s.acts :: Behind(s.acts[o], |s.rows|)
  }

  /** However the calls under way go on, they leave the build right. */
  ghost predicate Settles(s: Site) {
    forall ls, t :: Run(s, ls, t) && OnlyAdvances(ls) && t.acts == map[] ==> Right(t)
  }

  lemma ReadsLast(s: Site, a: nat)
    requires a in s.acts && s.acts[a] == Reading && s.rows != [] && AllEnded(s.rows) && s.b.end == None
    ensures var t := Step(s, Advance(a));
      && t.b == s.b && t.rows == s.rows && a in t.acts && Promises(t.acts[a])
      && t.acts == s.acts[a := t.acts[a]]
  {
    AllEndedIff(s.rows);
  }

  // Two calls that read before either writes send two statuses.
  lemma ReadTwice(s: Site, a: nat, o: nat)
    requires InRange(s) && a != o && a in s.acts && o in s.acts && s.acts[a] == Reading && s.acts[o] == Reading
    requires s.rows != [] && AllEnded(s.rows) && s.b.end == None
    ensures !Settles(s)
  {
    var s1 := Step(s, Advance(a));
    ReadsLast(s, a);
    var s2 := Step(s1, Advance(o));
    ReadsLast(s1, o);
    RunOne(s, Advance(a));
    RunOne(s1, Advance(o));
    RunAppend(s, [Advance(a)], s1, [Advance(o)], s2);
    var ls, t := CompleteAllBut(s2, {});
    RunAppend(s, [Advance(a)] + [Advance(o)], s2, ls, t);
    PromisesRun(s2, ls, t);
    TwoPending(s2, a, o);
    assert t.acts == map[] && Pending(t) == {};
  }

  lemma TwoPending(s: Site, a: nat, o: nat)
    requires a != o && a in Pending(s) && o in Pending(s)
    ensures |Pending(s)| >= 2
  {
    assert {a, o} <= Pending(s);
    assert |Pending(s)| == |Pending(s) - {a, o}| + |{a, o}|;
  }

  // No row is written any more.
  predicate NoWriting(s: Site) { forall a <- s.acts :: !s.acts[a].Writing? }

  lemma {:induction false} RowsStay(s: Site, ls: seq<Label>, t: Site)
    requires NoWriting(s) && Run(s, ls, t) && OnlyAdvances(ls)
    ensures t.rows == s.rows
    decreases |ls|
  {
    if ls != [] {
      assert ls[0] in ls;
      RowsStay(Step(s, ls[0]), ls[1..], t);
    }
  }

  // A call that read before the last row was written, and writes last, takes the end time away.
  lemma WritesBack(s: Site, o: nat)
    requires NoWriting(s) && s.rows != [] && AllEnded(s.rows)
    requires o in s.acts && s.acts[o].Starting? && s.acts[o].was == None && s.acts[o].last == None
    ensures !Settles(s)
  {
    var ls, u := CompleteAllBut(s, {o});
    assert u.acts == map[o := s.acts[o]];
    var t := Step(u, Advance(o));
    RunOne(u, Advance(o));
    RunAppend(s, ls, u, [Advance(o)], t);
    assert OnlyAdvances(ls + [Advance(o)]) && t.acts == map[] && t.b.end == None;
    RowsStay(s, ls + [Advance(o)], t);
    AllEndedIff(t.rows);
  }

  // Another save of an ended row writes it and is then about to read as well.
  lemma WritesThenReads(s: Site, a: nat, o: nat)
    requires InRange(s) && s.rows != [] && AllEnded(s.rows) && s.b.end == None
    requires a != o && a in s.acts && o in s.acts && s.acts[a] == Reading
    requires s.acts[o].Writing? && s.acts[o].row.end.Some?
    ensures !Settles(s)
  {
    var u := Step(s, Advance(o));
    RunOne(s, Advance(o));
    assert forall r :: r in u.rows ==> r in s.rows || r == s.acts[o].row;
    ReadTwice(u, a, o);
    var ls, t :| Run(u, ls, t) && OnlyAdvances(ls) && t.acts == map[] && !Right(t);
    RunAppend(s, [Advance(o)], u, ls, t);
    assert OnlyAdvances([Advance(o)] + ls);
  }

  predicate NotYet(p: Phase) {
    match p
    case Starting(_, was, last) => was == None && last == None
    case Ending(_, _) => false
    case Reporting(_) => false
    case _ => true
  }

  /** A row is open and stays so, and nobody has seen all of them ended. */
  predicate Reopened(s: Site) {
    && InRange(s) && !AllEnded(s.rows) && s.b.sent == []
    && forall a <- s.acts :: NotYet(s.acts[a]) && (s.acts[a].Writing? ==> s.acts[a].row.end == None)
  }

  lemma {:induction false} ReopenedRun(s: Site, ls: seq<Label>, t: Site)
    requires Reopened(s) && s.b.end == None && Run(s, ls, t) && OnlyAdvances(ls)
    ensures t.b.sent == []
    decreases |ls|
  {
    if ls != [] {
      var u := Step(s, ls[0]);
      assert ls[0] in ls;
      AllEndedIff(s.rows);
      if s.acts[ls[0].a].Writing? {
        assert u.rows[s.acts[ls[0].a].i] in u.rows;
      } else {
        assert u.rows == s.rows;
      }
      ReopenedRun(u, ls[1..], t);
    }
  }

  // A late save of an open row, such as the queued row of Next, opens the job again for good.
  lemma WritesOpen(s: Site, o: nat)
    requires InRange(s) && s.b.end == None && s.b.sent == [] && o in s.acts && s.acts[o].Writing?
    requires forall a <- s.acts :: NotYet(s.acts[a]) && (s.acts[a].Writing? ==> s.acts[a].row.end == None)
    ensures !Settles(s)
  {
    var u := Step(s, Advance(o));
    RunOne(s, Advance(o));
    assert u.rows[s.acts[o].i] in u.rows;
    var ls, t := CompleteAllBut(u, {});
    RunAppend(s, [Advance(o)], u, ls, t);
    ReopenedRun(u, ls, t);
    assert OnlyAdvances([Advance(o)] + ls) && t.acts == map[];
  }

  // The one call under way, section by section.
  predicate OnTheWay(s: Site, a: nat, p: Phase) {
    var v := LastOf(s.rows);
    var start := if Earliest(s.rows).Some? then Earliest(s.rows) else s.b.start;
    match p
    case Writing(_, _) => false
    case Reading => s.b.end == None && s.b.sent == []
    case Starting(from, _, last) => Some(from) == start && Earliest(s.rows).Some? && last == v && s.b.sent == []
    case Ending(from, w) => (Earliest(s.rows).Some? ==> from == start) && Some(w) == v && s.b.sent == []
    case Reporting(ok) => s.b.end == Latest(s.rows) && ok == AllPassing(s.rows) && s.b.sent == []
                          && (Earliest(s.rows).Some? ==> s.b.start == start)
  }

  predicate AloneRight(s: Site, a: nat) {
    && s.rows != [] && AllEnded(s.rows)
    && (if s.acts == map[] then Right(s) else a in s.acts && s.acts == map[a := s.acts[a]] && OnTheWay(s, a, s.acts[a]))
  }

  lemma AloneStep(s: Site, a: nat, l: Label)
    requires AloneRight(s, a) && Enabled(s, l) && l.Advance?
    ensures AloneRight(Step(s, l), a)
  {
    AllEndedIff(s.rows);
    assert s.rows[..|s.rows|] == s.rows;
    assert l.a == a;
    assert s.acts - {a} == map[];
  }

  lemma {:induction false} AloneRun(s: Site, a: nat, ls: seq<Label>, t: Site)
    requires AloneRight(s, a) && Run(s, ls, t) && OnlyAdvances(ls)
    ensures AloneRight(t, a)
    decreases |ls|
  {
    if ls != [] {
      assert ls[0] in ls;
      AloneStep(s, a, ls[0]);
      AloneRun(Step(s, ls[0]), a, ls[1..], t);
    }
  }

  lemma Unsettled(s: Site, a: nat)
    requires LastSaved(s, a) && s.acts.Keys != {a}
    ensures !Settles(s)
  {
    if o :| o in s.acts && o != a && s.acts[o] == Reading {
      ReadTwice(s, a, o);
    } else if o :| o in s.acts && s.acts[o].Writing? && s.acts[o].row.end.Some? {
      WritesThenReads(s, a, o);
    } else if o :| o in s.acts && s.acts[o].Writing? {
      WritesOpen(s, o);
    } else {
      var o :| o in s.acts && o != a;
      WritesBack(s, o);
    }
  }

  /** When the row that ends the last job has been written, the calls under way leave the build
      right, however they go on, if and only if no other call is under way. */
  lemma SettlesIff(s: Site, a: nat)
    requires LastSaved(s, a)
    ensures Settles(s) <==> s.acts.Keys == {a}
  {
    if s.acts.Keys == {a} {
      assert s.acts == map[a := Reading];
      forall ls, t | Run(s, ls, t) && OnlyAdvances(ls) && t.acts == map[] ensures Right(t) {
        AloneRun(s, a, ls, t);
      }
    } else {
      Unsettled(s, a);
    }
  }

  // ---- Whole runs ----

  // The save about to be written does not open the row of a job that has ended.
  predicate NoReopening(s: Site, l: Label) {
    l.Advance? && l.a in s.acts && s.acts[l.a].Writing? && s.acts[l.a].i < |s.rows| ==>
      (s.rows[s.acts[l.a].i].end.Some? ==> s.acts[l.a].row.end.Some?)
  }

  predicate NoneReopened(s: Site, ls: seq<Label>)
    decreases |ls|
  {
    ls == [] || (Enabled(s, ls[0]) && NoReopening(s, ls[0]) && NoneReopened(Step(s, ls[0]), ls[1..]))
  }

  // As long as a job is open nobody has seen all of them ended.
  predicate OpenInv(s: Site) {
    && s.rows != [] && InRange(s)
    && (!AllEnded(s.rows) ==> s.b.end == None && s.b.sent == [] && forall a <- s.acts :: NotYet(s.acts[a]))
  }

  lemma OpenStep(s: Site, l: Label)
    requires OpenInv(s) && Enabled(s, l) && NoReopening(s, l)
    ensures OpenInv(Step(s, l))
    ensures AllEnded(s.rows) ==> AllEnded(Step(s, l).rows)
  {
    var t := Step(s, l);
    AllEndedIff(s.rows);
    if l.Advance? && s.acts[l.a].Writing? {
      var i, row := s.acts[l.a].i, s.acts[l.a].row;
      if AllEnded(s.rows) {
        assert s.rows[i] in s.rows;
        forall r | r in t.rows ensures r.end.Some? {
          assert r in s.rows || r == row;
        }
      }
    } else {
      assert t.rows == s.rows;
    }
  }

  lemma {:induction false} OpenRun(s: Site, ls: seq<Label>, t: Site)
    requires OpenInv(s) && Run(s, ls, t) && NoneReopened(s, ls)
    ensures OpenInv(t)
    decreases |ls|
  {
    if ls != [] {
      OpenStep(s, ls[0]);
      OpenRun(Step(s, ls[0]), ls[1..], t);
    }
  }

  predicate Start(s: Site) {
    s.rows != [] && s.acts == map[] && s.b.end == None && s.b.sent == [] && forall r <- s.rows :: r.end == None
  }

  /** Section by section.  On any run from cleared times in which no save opens a row that had
      ended, whatever saves are still under way: when call a writes the row that ends the last
      job, the build is sure to get the latest job end, the earliest job start and exactly one
      status, the right one, from the calls then under way, if and only if no other call for the
      build is under way. */
  lemma LastSaveDecides(s: Site, ls: seq<Label>, t: Site, a: nat)
    requires Start(s) && Run(s, ls, t) && NoneReopened(s, ls)
    requires Enabled(t, Advance(a)) && t.acts[a].Writing? && NoReopening(t, Advance(a))
    requires !AllEnded(t.rows) && AllEnded(Step(t, Advance(a)).rows)
    ensures Settles(Step(t, Advance(a))) <==> t.acts.Keys == {a}
  {
    OpenRun(s, ls, t);
    var u := Step(t, Advance(a));
    assert u.acts.Keys == t.acts.Keys;
    SettlesIff(u, a);
  }

  // ---- It does happen ----

  function Open(): JobRow { JobRow(0, RUNNING, Some(1), None) }
  function Passed(end: Time): JobRow { JobRow(0, PASSING, Some(1), Some(end)) }

  lemma RunSnoc(s: Site, ls: seq<Label>, t: Site, l: Label)
    requires Run(s, ls, t) && Enabled(t, l)
    ensures Run(s, ls + [l], Step(t, l))
  {
    RunOne(t, l);
    RunAppend(s, ls, t, [l], Step(t, l));
  }

  // What is read when only the first of two jobs has ended, and when both have.
  lemma Reads()
    ensures AfterRead(Build([7, 8], None, None, []), [Passed(2), Open()]) == Some(Starting(1, None, None))
    ensures AfterRead(Build([7, 8], None, None, []), [Passed(2), Passed(3)])
            == Some(Starting(1, None, Some(Verdict(3, true))))
  {
    var one, two := [Passed(2), Open()], [Passed(2), Passed(3)];
    assert one[1..] == [Open()] && two[1..] == [Passed(3)] && [Passed(3)][1..] == [];
    assert EndedPrefix(one) == 1 && EndedPrefix(two) == 2;
    assert one[..1] == [Passed(2)] && two[..2] == two;
    assert [Passed(2)][..0] == [] && two[..1] == [Passed(2)];
    assert Earliest([Passed(2)]) == Some(1) && Earliest(two) == Some(1);
    assert Latest([Passed(2)]) == Some(2) && Latest(two) == Some(3);
  }

  // The first job's aggregation has read, then the second job's row is written.
  lemma OneBehind() returns (s: Site, ls: seq<Label>, t: Site)
    ensures Start(s) && Run(s, ls, t) && SavesEnd(s, ls)
    ensures t == Site(Build([7, 8], None, None, []), [Passed(2), Passed(3)],
                      map[0 := Starting(1, None, None), 1 := Reading])
  {
    Reads();
    var b := Build([7, 8], None, None, []);
    s := Site(b, [Open(), Open()], map[]);
    var s1 := Step(s, Begin(0, 0, Passed(2)));
    var s2 := Step(s1, Advance(0));
    assert s2 == Site(b, [Passed(2), Open()], map[0 := Reading]);
    var s3 := Step(s2, Advance(0));
    assert s3 == Site(b, [Passed(2), Open()], map[0 := Starting(1, None, None)]);
    var s4 := Step(s3, Begin(1, 1, Passed(3)));
    t := Step(s4, Advance(1));
    RunSnoc(s, [], s, Begin(0, 0, Passed(2)));
    ls := [] + [Begin(0, 0, Passed(2))];
    RunSnoc(s, ls, s1, Advance(0)); ls := ls + [Advance(0)];
    RunSnoc(s, ls, s2, Advance(0)); ls := ls + [Advance(0)];
    RunSnoc(s, ls, s3, Begin(1, 1, Passed(3))); ls := ls + [Begin(1, 1, Passed(3))];
    RunSnoc(s, ls, s4, Advance(1)); ls := ls + [Advance(1)];
  }

  /** Two jobs end; the first one's aggregation, begun before the second job ended, commits after
      the second one's.  Success was sent, both jobs are over, nothing is under way, and the
      build has no end time. */
  lemma EndLost() returns (s: Site, ls: seq<Label>, t: Site)
    ensures Start(s) && Run(s, ls, t) && NoneReopened(s, ls)
    ensures t.acts == map[] && t.rows == [Passed(2), Passed(3)] && t.b.sent == [true] && t.b.end == None
  {
    var u;
    s, ls, u := OneBehind();
    Reads();
    var v := Step(u, Advance(1));
    RunSnoc(s, ls, u, Advance(1));
    ls := ls + [Advance(1)];
    var ms, w := AloneFrom(v, 1);
    RunAppend(s, ls, v, ms, w);
    ls := ls + ms;
    assert w.acts == map[0 := Starting(1, None, None)];
    t := Step(w, Advance(0));
    RunSnoc(s, ls, w, Advance(0));
    ls := ls + [Advance(0)];
    assert t.acts == map[];
    EndingSaves(s, ls, t);
  }

  function Queued(): JobRow { JobRow(0, QUEUED, None, None) }

  /** Next appends to the queue before it saves the queued row.  If the job is dispatched and ends
      in between, the late save opens its row again: the job, scheduled once, is over, nothing is
      under way, and neither the job nor the build has an end time. */
  lemma RowReopened() returns (s: Site, ls: seq<Label>, t: Site)
    ensures Start(s) && Run(s, ls, t) && Begin(1, 0, Passed(2)) in ls
    ensures t == Site(Build([7], None, None, []), [Queued()], map[])
  {
    var b := Build([7], None, None, []);
    s := Site(b, [Open()], map[]);
    var s1 := Step(s, Begin(0, 0, Queued()));
    var s2 := Step(s1, Begin(1, 0, Passed(2)));
    var s3 := Step(s2, Advance(1));
    var s4 := Step(s3, Advance(0));
    assert s4 == Site(b, [Queued()], map[0 := Reading, 1 := Reading]);
    assert AfterRead(b, [Queued()]) == None by { assert EndedPrefix([Queued()]) == 0 && [Queued()][..0] == []; }
    var s5 := Step(s4, Advance(1));
    t := Step(s5, Advance(0));
    assert t.acts == map[];
    RunSnoc(s, [], s, Begin(0, 0, Queued()));
    ls := [] + [Begin(0, 0, Queued())];
    RunSnoc(s, ls, s1, Begin(1, 0, Passed(2))); ls := ls + [Begin(1, 0, Passed(2))];
    RunSnoc(s, ls, s2, Advance(1)); ls := ls + [Advance(1)];
    RunSnoc(s, ls, s3, Advance(0)); ls := ls + [Advance(0)];
    RunSnoc(s, ls, s4, Advance(1)); ls := ls + [Advance(1)];
    RunSnoc(s, ls, s5, Advance(0)); ls := ls + [Advance(0)];
  }

  // A run whose saves all end a job opens none again.
  predicate SavesEnd(s: Site, ls: seq<Label>) {
    && (forall a <- s.acts :: s.acts[a].Writing? ==> s.acts[a].row.end.Some?)
    && (forall l <- ls :: l.Begin? ==> l.row.end.Some?)
  }

  lemma {:induction false} EndingSaves(s: Site, ls: seq<Label>, t: Site)
    requires Run(s, ls, t) && SavesEnd(s, ls)
    ensures NoneReopened(s, ls)
    decreases |ls|
  {
    if ls != [] {
      assert ls[0] in ls;
      EndingSaves(Step(s, ls[0]), ls[1..], t);
    }
  }
}
