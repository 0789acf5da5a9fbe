/** From the worker's StartJob handler over the response stream to the recorded job. */
module Verdict {
  import opened Types
  import opened Parser
  import opened CommandRunner
  import opened Masking
  import opened MaskedLog

  datatype JobStatus = StatusUnknown | StatusQueued | StatusRunning | StatusPassing | StatusFailing

  datatype Resp = Log(content: string) | Done(status: JobStatus) | CacheResp

  // How a stream ends for the receiver.
  datatype End = Eof | Broken(error: string)

  /** What the handler does besides logging: the Done message it sends, if any, and
      whether it returns nil. */
  datatype Handled = Handled(done: Option<JobStatus>, ok: bool)

  /** What happens around the container: temp directory, clone, and whether the worker
      still lists the job when the container is about to start. */
  datatype Setting = Setting(tempDir: bool, cloned: bool, listed: bool, engine: Engine)

  /** The worker's StartJob: no Done before the container ran, then one Done saying how. */
  ghost predicate Handles(cmds: seq<Command>, cache: seq<string>, w: Setting, h: Handled) {
    var green := w.engine.created && RunFrom(PlanOf(cmds, cache), w.engine, 0).result == Success;
    && (h.done.Some? <==> w.tempDir && w.cloned && w.listed)
    && (h.done.Some? ==> h.ok == green && h.done.value == if green then StatusPassing else StatusFailing)
    && (h.done.None? ==> (h.ok <==> w.tempDir && w.cloned))
  }

  method HandleStartJob(cmds: seq<Command>, cache: seq<string>, w: Setting) returns (h: Handled)
    ensures Handles(cmds, cache, w, h)
  {
    if !w.tempDir || !w.cloned { return Handled(None, false); }
    if !w.listed { return Handled(None, true); }
    var o := RunContainer(cmds, cache, w.engine);
    if o.result != Success { return Handled(Some(StatusFailing), false); }
    return Handled(Some(StatusPassing), true);
  }

  /** The container was created and every non-hook command ran and exited 0. */
  ghost predicate AllGreen(cmds: seq<Command>, cache: seq<string>, e: Engine) {
    var p := PlanOf(cmds, cache);
    e.created && forall j :: 0 <= j < |p.main| ==> Survives(p, e, j)
  }

  // ---- The stream ----

  function Dones(rs: seq<Resp>): seq<JobStatus> {
    if rs == [] then []
    else Dones(rs[..|rs| - 1]) + (if rs[|rs| - 1].Done? then [rs[|rs| - 1].status] else [])
  }

  function Logs(rs: seq<Resp>): seq<string> {
    if rs == [] then []
    else Logs(rs[..|rs| - 1]) + (if rs[|rs| - 1].Log? then [rs[|rs| - 1].content] else [])
  }

  function LogPositions(rs: seq<Resp>): set<nat> { set i | 0 <= i < |rs| && rs[i].Log? }

  /** log holds the contents of the Log messages of the stream, in the order of the stream. */
  ghost predicate Collects(rs: seq<Resp>, at: seq<nat>, log: seq<string>) {
    && Lists(at, LogPositions(rs)) && |at| == |log|
    && forall k :: 0 <= k < |at| ==> at[k] < |rs| && rs[at[k]] == Log(log[k])
  }

  ghost predicate SomeDone(rs: seq<Resp>) { exists i :: 0 <= i < |rs| && rs[i].Done? }

  ghost predicate NoneBehind(rs: seq<Resp>, i: nat) { forall j :: i < j < |rs| ==> !rs[j].Done? }

  /** status is what the last Done message of the stream says, empty if there is none. */
  ghost predicate LastDone(rs: seq<Resp>, status: string) {
    && (!SomeDone(rs) ==> status == "")
    && (forall i :: 0 <= i < |rs| && rs[i].Done? && NoneBehind(rs, i) ==> status == match rs[i].status
         case StatusUnknown => "unknown"
         case StatusQueued => "queued"
         case StatusRunning => "running"
         case StatusPassing => "passing"
         case StatusFailing => "failing")
  }

  lemma {:induction false} LogsCollect(rs: seq<Resp>) returns (at: seq<nat>)
    ensures Collects(rs, at, Logs(rs))
  {
    if rs == [] {
      at := [];
    } else {
      var init, last := rs[..|rs| - 1], rs[|rs| - 1];
      at := LogsCollect(init);
      if last.Log? {
        ListsSnoc(at, LogPositions(init), |rs| - 1);
        assert LogPositions(rs) == LogPositions(init) + {|rs| - 1};
        at := at + [|rs| - 1];
      } else {
        assert LogPositions(rs) == LogPositions(init);
      }
    }
  }

  lemma {:induction false} LastOfDones(rs: seq<Resp>, i: nat)
    requires i < |rs| && rs[i].Done? && NoneBehind(rs, i)
    ensures Dones(rs) != [] && Dones(rs)[|Dones(rs)| - 1] == rs[i].status
  {
    if i < |rs| - 1 {
      LastOfDones(rs[..|rs| - 1], i);
    }
  }

  lemma {:induction false} NoDones(rs: seq<Resp>)
    ensures Dones(rs) == [] <==> !SomeDone(rs)
  {
    if rs != [] {
      var init := rs[..|rs| - 1];
      NoDones(init);
      assert rs == init + [rs[|rs| - 1]];
      assert SomeDone(init) ==> SomeDone(rs);
    }
  }

  lemma DonesLast(rs: seq<Resp>)
    ensures LastDone(rs, FinalStatus(Dones(rs)))
  {
    NoDones(rs);
    forall i | 0 <= i < |rs| && rs[i].Done? && NoneBehind(rs, i)
      ensures FinalStatus(Dones(rs)) == StatusName(rs[i].status)
    {
      LastOfDones(rs, i);
    }
  }

  /** What the server may receive from a handler that writes these chunks: the k-th Log message
      is the masked form of the k-th chunk, though the last ones may be lost; at most the Done
      that was sent, anywhere, once; and an orderly end only if the handler returned nil and its
      Done came through.  Cancelling, timeouts and transport errors cut the stream short. */
  ghost predicate Delivers(h: Handled, chunks: seq<string>, env: seq<EnvVariable>, rs: seq<Resp>, end: End) {
    && (exists at :: LogsOf(chunks, env, rs, at))
    && (forall i, j :: 0 <= i < j < |rs| ==> !rs[i].Done? || !rs[j].Done?)
    && (forall i :: 0 <= i < |rs| && rs[i].Done? ==> h.done == Some(rs[i].status))
    && (end == Eof ==> h.ok && (h.done.Some? ==> SomeDone(rs)))
  }

  ghost predicate LogsOf(chunks: seq<string>, env: seq<EnvVariable>, rs: seq<Resp>, at: seq<nat>) {
    && Lists(at, LogPositions(rs)) && |at| <= |chunks|
    && forall k :: 0 <= k < |at| ==> at[k] < |rs| && rs[at[k]] == Log(MaskAll(chunks[k], env))
  }

  lemma DeliveredLogs(h: Handled, chunks: seq<string>, env: seq<EnvVariable>, rs: seq<Resp>, end: End)
    requires Delivers(h, chunks, env, rs, end)
    ensures Logs(rs) <= Masked(chunks, env)
  {
    var at :| LogsOf(chunks, env, rs, at);
    var here := LogsCollect(rs);
    ListsOnce(at, here, LogPositions(rs));
    MaskedAt(chunks, env);
  }

  lemma DeliveredStatus(h: Handled, chunks: seq<string>, env: seq<EnvVariable>, rs: seq<Resp>, end: End)
    requires Delivers(h, chunks, env, rs, end)
    ensures SomeDone(rs) ==> h.done.Some? && FinalStatus(Dones(rs)) == StatusName(h.done.value)
    ensures !SomeDone(rs) ==> FinalStatus(Dones(rs)) == ""
  {
    DonesLast(rs);
    if SomeDone(rs) {
      var i :| 0 <= i < |rs| && rs[i].Done?;
      assert NoneBehind(rs, i);
    }
  }

  /** Nothing cut it short. */
  predicate Intact(h: Handled, end: End) { end == Eof <==> h.ok }

  function StatusName(d: JobStatus): string {
    match d
    case StatusUnknown => "unknown"
    case StatusFailing => FAILING
    case StatusPassing => PASSING
    case StatusQueued => QUEUED
    case StatusRunning => RUNNING
  }

  // The last Done wins; without one the job keeps the empty status it was sent with.
  function FinalStatus(dones: seq<JobStatus>): string {
    if dones == [] then "" else StatusName(dones[|dones| - 1])
  }

  /** The client's receive loop.  Leaving the switch at a Done does not leave the loop. */
  method Receive(rs: seq<Resp>, end: End) returns (log: seq<string>, status: string, error: Option<string>)
    ensures log == Logs(rs) && exists at :: Collects(rs, at, log)
    ensures status == FinalStatus(Dones(rs)) && LastDone(rs, status)
    ensures error == if end == Eof then None else Some(end.error)
  {
    log, status, error := [], "", None;
    for i := 0 to |rs|
      invariant log == Logs(rs[..i]) && status == FinalStatus(Dones(rs[..i]))
    {
      assert rs[..i + 1][..i] == rs[..i];
      match rs[i]
      case Log(content) => log := log + [content];
      case Done(d) =>
        status := match d
          case StatusUnknown => "unknown"
          case StatusFailing => "failing"
          case StatusPassing => "passing"
          case StatusQueued => "queued"
          case StatusRunning => "running";
      case CacheResp =>
    }
    assert rs[..|rs|] == rs;
    var _ := LogsCollect(rs);
    DonesLast(rs);
    if end.Broken? { error := Some(end.error); }
  }

  function Red(s: string): string { "\U{1b}[1;31m" + s + "\U{1b}[0m" }

  function ErrorLine(error: string): string {
    if Contains(error, "context deadline exceeded") then Red("\r\n==> job timed out\r\n")
    else if Contains(error, "context canceled") then Red("\r\n==> job stopped\r\n")
    else Red("\r\n==> " + error + "\r\n")
  }

  lemma ErrorLineIs(error: string)
    ensures ErrorLine(error) == Red("\r\n==> " + (if Contains(error, "context deadline exceeded") then "job timed out"
                                                  else if Contains(error, "context canceled") then "job stopped"
                                                  else error) + "\r\n")
  {
  }

  datatype Recorded = Recorded(status: string, log: string)

  // The received log, and an error line if the stream broke; an error always means failing.
  function RecordOf(rs: seq<Resp>, end: End): Recorded {
    if end == Eof then Recorded(FinalStatus(Dones(rs)), Concat(Logs(rs)))
    else Recorded(FAILING, Concat(Logs(rs)) + ErrorLine(end.error))
  }

  /** What startJob writes into the job once the stream has ended. */
  method Record(rs: seq<Resp>, end: End) returns (r: Recorded)
    ensures r == RecordOf(rs, end)
    ensures if end == Eof then LastDone(rs, r.status) else r.status == "failing"
    ensures exists at, log :: Collects(rs, at, log) &&
              r.log == Concat(log) + if end == Eof then "" else ErrorLine(end.error)
  {
    var log, status, error := Receive(rs, end);
    if error.Some? {
      r := Recorded(FAILING, Concat(log) + ErrorLine(error.value));
    } else {
      r := Recorded(status, Concat(log));
      assert r.log == Concat(log) + "";
    }
  }

  lemma GreenIff(cmds: seq<Command>, cache: seq<string>, e: Engine)
    ensures e.created && RunFrom(PlanOf(cmds, cache), e, 0).result == Success <==> AllGreen(cmds, cache, e)
  {
    SuccessIff(PlanOf(cmds, cache), e, 0);
  }

  /** "passing" is recorded only if the container came up and every non-hook command ran and
      exited 0, whatever was cancelled, timed out or lost on the way. */
  lemma PassingIsEarned(cmds: seq<Command>, cache: seq<string>, w: Setting, h: Handled,
                        chunks: seq<string>, env: seq<EnvVariable>, rs: seq<Resp>, end: End)
    requires Handles(cmds, cache, w, h) && Delivers(h, chunks, env, rs, end) && RecordOf(rs, end).status == PASSING
    ensures AllGreen(cmds, cache, w.engine) && w.tempDir && w.cloned && w.listed && end == Eof
  {
    GreenIff(cmds, cache, w.engine);
    DeliveredStatus(h, chunks, env, rs, end);
  }

  /** Without cancel, timeout or transport error: passing exactly if all is green, an empty
      status exactly if the job was stopped on the worker before its container started,
      failing otherwise; no other status is ever recorded. */
  lemma VerdictIsExact(cmds: seq<Command>, cache: seq<string>, w: Setting, h: Handled,
                       chunks: seq<string>, env: seq<EnvVariable>, rs: seq<Resp>, end: End)
    requires Handles(cmds, cache, w, h) && Delivers(h, chunks, env, rs, end) && Intact(h, end)
    ensures RecordOf(rs, end).status ==
      if w.tempDir && w.cloned && !w.listed then ""
      else if w.tempDir && w.cloned && AllGreen(cmds, cache, w.engine) then PASSING
      else FAILING
  {
    GreenIff(cmds, cache, w.engine);
    DeliveredStatus(h, chunks, env, rs, end);
  }

  /** A generated test job on a working engine, over an intact stream: recorded as passing if
      its before_install to after_script commands all exit 0, as failing otherwise; hooks have
      no say. */
  lemma {:induction false} TestJobVerdict(c: RepoConfig, cache: seq<string>, w: Setting, h: Handled,
                       chunks: seq<string>, env: seq<EnvVariable>, rs: seq<Resp>, end: End)
    requires c.setup.script != [] && w.tempDir && w.cloned && w.listed
    requires NoEngineError(PlanOf(TestCommands(c), cache), w.engine)
    requires Handles(TestCommands(c), cache, w, h) && Delivers(h, chunks, env, rs, end) && Intact(h, end)
    ensures var run := UpToScript(c) + Tagged(c.finish.afterScript, AfterScript);
      RecordOf(rs, end).status ==
        if forall i :: 0 <= i < |run| ==> w.engine.exec(i) == Exit(0) then PASSING else FAILING
  {
    TestPlan(c, cache);
    var p := PlanOf(TestCommands(c), cache);
    assert p.main == UpToScript(c) + Tagged(c.finish.afterScript, AfterScript);
    assert forall i :: 0 <= i < |p.main| ==> (Survives(p, w.engine, i) <==> w.engine.exec(i) == Exit(0));
    VerdictIsExact(TestCommands(c), cache, w, h, chunks, env, rs, end);
  }

  // ---- The recorded log ----

  // Where the log broke off, as a number of chunks.
  lemma ReceivedChunks(h: Handled, chunks: seq<string>, env: seq<EnvVariable>, rs: seq<Resp>, end: End)
    requires Delivers(h, chunks, env, rs, end)
    ensures |Logs(rs)| <= |chunks| && Logs(rs) == Masked(chunks[..|Logs(rs)|], env)
  {
    DeliveredLogs(h, chunks, env, rs, end);
    MaskedAt(chunks, env);
    MaskedPrefix(chunks, |Logs(rs)|, env);
  }

  /** The recorded log is the masked chunks in order, up to where the stream broke, and for
      safe secrets no chunk in it contains one; an error adds a line at its end. */
  lemma RecordedLog(h: Handled, chunks: seq<string>, env: seq<EnvVariable>, rs: seq<Resp>, end: End)
    requires Delivers(h, chunks, env, rs, end)
    ensures |Logs(rs)| <= |chunks|
    ensures Concat(Logs(rs)) <= RecordOf(rs, end).log
    ensures forall i :: 0 <= i < |Logs(rs)| ==> Logs(rs)[i] == MaskAll(chunks[i], env)
    ensures Maskable(env) ==>
      forall i, e :: 0 <= i < |Logs(rs)| && e in env && e.secret ==> !Contains(Logs(rs)[i], e.value)
  {
    DeliveredLogs(h, chunks, env, rs, end);
    MaskedAt(chunks, env);
    forall i, e | Maskable(env) && 0 <= i < |Logs(rs)| && e in env && e.secret
      ensures !Contains(Logs(rs)[i], e.value)
    {
      MaskingComplete(chunks[i], env);
    }
  }

  /** The exact condition for the log as a whole: with safe secrets, a safe text can be read in
      what was recorded of the job's output if and only if it can be read in a stretch of the
      received chunks that no mask interrupts. */
  lemma RecordedLogContainsIff(h: Handled, chunks: seq<string>, env: seq<EnvVariable>,
                               rs: seq<Resp>, end: End, u: string)
    requires Delivers(h, chunks, env, rs, end) && Maskable(env) && Safe(u)
    ensures |Logs(rs)| <= |chunks|
    ensures Contains(Concat(Logs(rs)), u) <==>
            exists p :: p in Stretches(chunks[..|Logs(rs)|], env) && Contains(p, u)
    ensures end == Eof ==> RecordOf(rs, end).log == Concat(Logs(rs))
  {
    ReceivedChunks(h, chunks, env, rs, end);
    LogContainsIff(chunks[..|Logs(rs)|], env, u);
  }
}
