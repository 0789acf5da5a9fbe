/** The build aggregator: start time, end time and terminal status of a build,
    recomputed from its jobs' rows after every save of a job. */
module BuildTimes {
  import opened Types

  /** A stored build.  sent logs the terminal statuses reported for it, true for success. */
  datatype Build = Build(jobs: seq<JobId>, start: Option<Time>, end: Option<Time>, sent: seq<bool>)

  function Earlier(a: Option<Time>, b: Option<Time>): Option<Time> {
    if a == None || (b.Some? && b.value < a.value) then b else a
  }

  function Later(a: Option<Time>, b: Option<Time>): Option<Time> {
    if a == None || (b.Some? && a.value < b.value) then b else a
  }

  function Earliest(rows: seq<JobRow>): Option<Time> {
    if rows == [] then None else Earlier(Earliest(rows[..|rows| - 1]), rows[|rows| - 1].start)
  }

  function Latest(rows: seq<JobRow>): Option<Time> {
    if rows == [] then None else Later(Latest(rows[..|rows| - 1]), rows[|rows| - 1].end)
  }

  /** How many leading rows have ended; the scan stops at the first that has not. */
  function EndedPrefix(rows: seq<JobRow>): (k: nat)
    ensures k <= |rows|
    ensures forall i :: 0 <= i < k ==> rows[i].end.Some?
    ensures k < |rows| ==> rows[k].end == None
  {
    if rows == [] || rows[0].end == None then 0 else 1 + EndedPrefix(rows[1..])
  }

  predicate AllEnded(rows: seq<JobRow>) { forall r :: r in rows ==> r.end.Some? }
  predicate AllPassing(rows: seq<JobRow>) { forall r :: r in rows ==> r.status == PASSING }

  /** One call of updateBuildTime on a build that was found. */
  function Aggregate(b: Build, rows: seq<JobRow>): Build {
    if b.start.Some? && b.end.Some? then b
    else
      var k := EndedPrefix(rows);
      var start := Earliest(rows[..k]);
      var b1 := if start.Some? then b.(start := start) else b;
      if k == |rows| && Latest(rows).Some?
      then b1.(end := Latest(rows), sent := b1.sent + [AllPassing(rows)])
      else b1
  }

  lemma {:induction false} EarliestIsMin(rows: seq<JobRow>)
    ensures Earliest(rows) == None <==> forall r :: r in rows ==> r.start == None
    ensures Earliest(rows).Some? ==> exists r :: r in rows && r.start == Earliest(rows)
    ensures forall r :: r in rows && r.start.Some? ==> Earliest(rows).Some? && Earliest(rows).value <= r.start.value
  {
    if rows != [] {
      var init, last := rows[..|rows| - 1], rows[|rows| - 1];
      EarliestIsMin(init);
      assert rows == init + [last];
      if Earliest(rows).Some? && Earliest(rows) == Earliest(init) {
        var r :| r in init && r.start == Earliest(init);
        assert r in rows;
      } else {
        assert last in rows;
      }
    }
  }

  lemma {:induction false} LatestIsMax(rows: seq<JobRow>)
    ensures Latest(rows) == None <==> forall r :: r in rows ==> r.end == None
    ensures Latest(rows).Some? ==> exists r :: r in rows && r.end == Latest(rows)
    ensures forall r :: r in rows && r.end.Some? ==> Latest(rows).Some? && r.end.value <= Latest(rows).value
  {
    if rows != [] {
      var init, last := rows[..|rows| - 1], rows[|rows| - 1];
      LatestIsMax(init);
      assert rows == init + [last];
      if Latest(rows).Some? && Latest(rows) == Latest(init) {
        var r :| r in init && r.end == Latest(init);
        assert r in rows;
      } else {
        assert last in rows;
      }
    }
  }

  lemma AllEndedIff(rows: seq<JobRow>)
    ensures AllEnded(rows) <==> EndedPrefix(rows) == |rows|
    ensures AllEnded(rows) && rows != [] ==> Latest(rows).Some?
  {
    LatestIsMax(rows);
    var k := EndedPrefix(rows);
    if k < |rows| {
      assert rows[k] in rows;
    }
    if rows != [] { assert rows[0] in rows; }
  }

  /** What holds between two clearings of the build's times. */
  predicate TimesInv(b: Build, rows: seq<JobRow>) {
    && rows != []
    && (b.end.Some? <==> AllEnded(rows))
    && (b.end.Some? <==> b.sent != [])
  }

  /** One save of job i's row, followed by the aggregation, nothing coming between. */
  lemma SaveStep(b: Build, rows: seq<JobRow>, i: nat, row: JobRow)
    requires TimesInv(b, rows) && i < |rows|
    requires rows[i].end.Some? ==> row.end.Some?
    ensures var now := rows[i := row]; var c := Aggregate(b, now);
      && TimesInv(c, now)
      && (!AllEnded(now) ==> c.end == None && c.sent == [])
      && (AllEnded(now) && !AllEnded(rows) ==>
            && c.end == Latest(now)
            && c.start == (if Earliest(now).Some? then Earliest(now) else b.start)
            && c.sent == [AllPassing(now)])
      && (AllEnded(rows) && b.start.Some? ==> c == b)
  {
    var now := rows[i := row];
    AllEndedIff(rows);
    AllEndedIff(now);
    assert now[..|now|] == now;
    if AllEnded(rows) {
      assert forall r :: r in now ==> r == row || r in rows;
      assert rows[i] in rows;
    }
  }

  // ---- Whole runs of saves ----

  datatype Save = Save(i: nat, row: JobRow)
  datatype Run = Run(b: Build, rows: seq<JobRow>)

  function SaveOne(st: Run, sv: Save): Run {
    if sv.i < |st.rows| then
      var now := st.rows[sv.i := sv.row];
      Run(Aggregate(st.b, now), now)
    else st
  }

  function SaveAll(st: Run, svs: seq<Save>): Run
    decreases |svs|
  {
    if svs == [] then st else SaveAll(SaveOne(st, svs[0]), svs[1..])
  }

  // Each job is scheduled once: no save re-opens a row that has ended.
  predicate ScheduledOnce(st: Run, svs: seq<Save>)
    decreases |svs|
  {
    svs == [] ||
    (svs[0].i < |st.rows| && (st.rows[svs[0].i].end.Some? ==> svs[0].row.end.Some?)
     && ScheduledOnce(SaveOne(st, svs[0]), svs[1..]))
  }

  predicate Cleared(st: Run) {
    st.rows != [] && st.b.end == None && st.b.sent == [] && forall r :: r in st.rows ==> r.end == None
  }

  lemma {:induction false} InvRun(st: Run, svs: seq<Save>)
    requires TimesInv(st.b, st.rows) && ScheduledOnce(st, svs)
    ensures var t := SaveAll(st, svs);
      && TimesInv(t.b, t.rows)
      && (AllEnded(st.rows) && st.b.start.Some? ==> t.b == st.b)
    decreases |svs|
  {
    if svs != [] {
      var sv := svs[0];
      var u := SaveOne(st, sv);
      SaveStep(st.b, st.rows, sv.i, sv.row);
      if AllEnded(st.rows) {
        assert forall r :: r in u.rows ==> r == sv.row || r in st.rows;
        assert st.rows[sv.i] in st.rows;
      }
      InvRun(u, svs[1..]);
    }
  }

  /** Saves one at a time, each with its aggregation; BuildSections takes them apart.
      From cleared times, with every job scheduled once: at every point of the run the
      build has ended exactly if all its jobs have, and no terminal status was sent before. */
  lemma EndsWithLastJob(st: Run, svs: seq<Save>)
    requires Cleared(st) && ScheduledOnce(st, svs)
    ensures var t := SaveAll(st, svs);
      && (t.b.end.Some? <==> AllEnded(t.rows))
      && (t.b.end == None ==> t.b.sent == [])
  {
    assert st.rows[0] in st.rows;
    InvRun(st, svs);
  }

  /** Saves one at a time.  The save that ends the last job fixes the end time to the latest job end, the start
      time to the earliest job start, and reports success exactly if all jobs pass.  If
      a start time is known by then, nothing later in the run changes the build or
      reports a second status. */
  lemma VerdictOfRun(st: Run, pre: seq<Save>, sv: Save, post: seq<Save>)
    requires Cleared(st) && ScheduledOnce(st, pre)
    requires var u := SaveAll(st, pre);
      ScheduledOnce(u, [sv] + post) && !AllEnded(u.rows) && AllEnded(SaveOne(u, sv).rows)
    ensures var u := SaveAll(st, pre); var v := SaveOne(u, sv);
      && v.b.end == Latest(v.rows)
      && v.b.start == (if Earliest(v.rows).Some? then Earliest(v.rows) else u.b.start)
      && v.b.sent == [AllPassing(v.rows)]
      && (v.b.start.Some? ==> SaveAll(v, post).b == v.b)
    ensures var v := SaveOne(SaveAll(st, pre), sv);
      && (forall r :: r in v.rows && r.start.Some? && r.end.Some? ==> r.start.value <= r.end.value)
      && Earliest(v.rows).Some?
      ==> v.b.start.value <= v.b.end.value
  {
    assert st.rows[0] in st.rows;
    InvRun(st, pre);
    var u := SaveAll(st, pre);
    SaveStep(u.b, u.rows, sv.i, sv.row);
    var v := SaveOne(u, sv);
    assert ([sv] + post)[1..] == post;
    InvRun(v, post);
    EarliestIsMin(v.rows);
    LatestIsMax(v.rows);
  }

  /** A finished build is reported again by the next aggregation, as at the end of
      StopBuild, if and only if its start time was never set. */
  lemma ReportedAgainIff(b: Build, rows: seq<JobRow>)
    requires TimesInv(b, rows) && AllEnded(rows)
    ensures Aggregate(b, rows).sent != b.sent <==> b.start == None
  {
    AllEndedIff(rows);
    if b.start == None {
      assert |Aggregate(b, rows).sent| == |b.sent| + 1;
    }
  }
}
