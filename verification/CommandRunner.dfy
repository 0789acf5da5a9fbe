/** RunContainer: the command list of a job run inside its container, first failure wins. */
module CommandRunner {
  import opened Types
  import opened Splitting
  import opened Parser

  // What one command came to: an exit code, or an error of the container engine.
  datatype Exec = Exit(code: int) | EngineError

  // Packing the cache failed (logged only), its archive could not be read back, or it was uploaded or tried to be.
  datatype Saving = PackFailed | ArchiveLost | Uploaded

  /** The engine's answers: whether the container is up before command i, and how it went. */
  datatype Engine = Engine(created: bool, up: nat -> bool, exec: nat -> Exec, saving: Saving)

  datatype Event = RestoreCache | Ran(command: Command) | SaveCache | Hook(command: Command)

  datatype Result = Success | Failed(code: int) | Aborted

  function Main(cmds: seq<Command>): seq<Command> {
    if cmds == [] then []
    else Main(cmds[..|cmds| - 1]) +
         (if cmds[|cmds| - 1].kind in {AfterFailure, AfterSuccess} then [] else [cmds[|cmds| - 1]])
  }

  /** The last command of a kind; a hook overwrites the ones before it. */
  function LastOf(cmds: seq<Command>, kind: CommandType): Option<Command> {
    if cmds == [] then None
    else if cmds[|cmds| - 1].kind == kind then Some(cmds[|cmds| - 1])
    else LastOf(cmds[..|cmds| - 1], kind)
  }

  /** The last install or script command among the main ones, or 0. */
  function CacheIndex(main: seq<Command>): (k: nat)
    ensures main != [] ==> k < |main|
  {
    if main == [] then 0
    else if main[|main| - 1].kind in {Install, Script} then |main| - 1
    else if |main| == 1 then 0
    else CacheIndex(main[..|main| - 1])
  }

  lemma {:induction false} CacheIndexIs(main: seq<Command>)
    ensures var k := CacheIndex(main);
      && (k > 0 ==> main != [] && main[k].kind in {Install, Script})
      && forall j :: k < j < |main| ==> main[j].kind !in {Install, Script}
  {
    if |main| > 1 && main[|main| - 1].kind !in {Install, Script} {
      CacheIndexIs(main[..|main| - 1]);
    }
  }

  /** Position i holds the last command of a kind. */
  ghost predicate IsLast(cmds: seq<Command>, kind: CommandType, i: int) {
    0 <= i < |cmds| && cmds[i].kind == kind && forall j :: i < j < |cmds| ==> cmds[j].kind != kind
  }

  lemma {:induction false} LastOfIs(cmds: seq<Command>, kind: CommandType)
    ensures LastOf(cmds, kind) == None <==> forall c :: c in cmds ==> c.kind != kind
    ensures forall i :: IsLast(cmds, kind, i) ==> LastOf(cmds, kind) == Some(cmds[i])
  {
    if cmds != [] && cmds[|cmds| - 1].kind != kind {
      var init := cmds[..|cmds| - 1];
      LastOfIs(init, kind);
      forall i | IsLast(cmds, kind, i) ensures LastOf(cmds, kind) == Some(cmds[i]) {
        assert IsLast(init, kind, i);
      }
    }
  }

  function HookEvents(hook: Option<Command>): seq<Event> {
    match hook case None => [] case Some(c) => [Hook(c)]
  }

  /** The job as the runner sees it after sorting the commands. */
  datatype Plan = Plan(main: seq<Command>, failure: Option<Command>, success: Option<Command>, cached: bool)

  function PlanOf(cmds: seq<Command>, cache: seq<string>): Plan {
    Plan(Main(cmds), LastOf(cmds, AfterFailure), LastOf(cmds, AfterSuccess), DeleteEmpty(cache) != [])
  }

  /** What happened, and how it ended. */
  datatype Outcome = Outcome(trace: seq<Event>, result: Result)

  // Main command i: its events, and the result if the run ends with it.
  function RunOne(p: Plan, e: Engine, i: nat): (seq<Event>, Option<Result>)
    requires i < |p.main|
  {
    if !e.up(i) then ([], Some(Aborted))
    else
      var pre := (if i == 0 && p.cached then [RestoreCache] else []) + [Ran(p.main[i])];
      match e.exec(i)
      case EngineError => (pre, Some(Aborted))
      case Exit(code) =>
        if code != 0 then (pre + HookEvents(p.failure), Some(Failed(code)))
        else if i == CacheIndex(p.main) && p.cached then
          (pre + [SaveCache], if e.saving == ArchiveLost then Some(Aborted) else None)
        else (pre, None)
  }

  // From main command i on.
  function RunFrom(p: Plan, e: Engine, i: nat): Outcome
    requires i <= |p.main|
    decreases |p.main| - i
  {
    if i == |p.main| then Outcome(HookEvents(p.success), Success)
    else
      var (events, stop) := RunOne(p, e, i);
      match stop
      case Some(r) => Outcome(events, r)
      case None => var rest := RunFrom(p, e, i + 1); Outcome(events + rest.trace, rest.result)
  }

  // The first loop of RunContainer: hooks apart, later ones overwriting earlier ones.
  method SortCommands(cmds: seq<Command>)
    returns (main: seq<Command>, failure: Option<Command>, success: Option<Command>)
    ensures main == Main(cmds) && failure == LastOf(cmds, AfterFailure) && success == LastOf(cmds, AfterSuccess)
    ensures forall i :: IsLast(cmds, AfterFailure, i) ==> failure == Some(cmds[i])
    ensures forall i :: IsLast(cmds, AfterSuccess, i) ==> success == Some(cmds[i])
  {
    main, failure, success := [], None, None;
    for i := 0 to |cmds|
      invariant main == Main(cmds[..i])
      invariant failure == LastOf(cmds[..i], AfterFailure) && success == LastOf(cmds[..i], AfterSuccess)
    {
      assert cmds[..i + 1][..i] == cmds[..i];
      if cmds[i].kind == AfterFailure { failure := Some(cmds[i]); continue; }
      if cmds[i].kind == AfterSuccess { success := Some(cmds[i]); continue; }
      main := main + [cmds[i]];
    }
    assert cmds[..|cmds|] == cmds;
    LastOfIs(cmds, AfterFailure);
    LastOfIs(cmds, AfterSuccess);
  }

  method FindCacheIndex(main: seq<Command>) returns (k: nat)
    ensures k == CacheIndex(main)
    ensures k > 0 ==> k < |main| && (main[k].kind == Install || main[k].kind == Script)
    ensures forall j :: k < j < |main| ==> main[j].kind != Install && main[j].kind != Script
  {
    k := 0;
    for i := 0 to |main|
      invariant k == CacheIndex(main[..i])
    {
      assert main[..i + 1][..i] == main[..i];
      if main[i].kind == Install || main[i].kind == Script { k := i; }
    }
    assert main[..|main|] == main;
    CacheIndexIs(main);
  }

  method DropEmpty(parts: seq<string>) returns (r: seq<string>)
    ensures r == DeleteEmpty(parts)
  {
    r := [];
    for i := 0 to |parts|
      invariant r == DeleteEmpty(parts[..i])
    {
      assert parts[..i + 1][..i] == parts[..i];
      if parts[i] != "" { r := r + [parts[i]]; }
    }
    assert parts[..|parts|] == parts;
  }

  method RunCommand(p: Plan, e: Engine, i: nat, cacheIndex: nat) returns (events: seq<Event>, stop: Option<Result>)
    requires i < |p.main| && cacheIndex == CacheIndex(p.main)
    ensures (events, stop) == RunOne(p, e, i)
  {
    stop := None;
    if !e.up(i) { return [], Some(Aborted); }
    events := if i == 0 && p.cached then [RestoreCache] else [];
    events := events + [Ran(p.main[i])];
    var outcome := e.exec(i);
    if outcome == EngineError { return events, Some(Aborted); }
    if outcome.code != 0 {
      ghost var before := events;
      if p.failure.Some? { events := events + [Hook(p.failure.value)]; }
      assert events == before + HookEvents(p.failure);
      return events, Some(Failed(outcome.code));
    }
    if i == cacheIndex && p.cached {
      events := events + [SaveCache];
      if e.saving == ArchiveLost { stop := Some(Aborted); }
    }
  }

  // The command loop, cut off at the first failure, and the closing hook.
  method RunCommands(p: Plan, e: Engine, cacheIndex: nat) returns (o: Outcome)
    requires cacheIndex == CacheIndex(p.main)
    ensures o == RunFrom(p, e, 0)
  {
    var trace: seq<Event> := [];
    ghost var goal, rest := RunFrom(p, e, 0), RunFrom(p, e, 0);
    for i := 0 to |p.main|
      invariant rest == RunFrom(p, e, i)
      invariant goal == Outcome(trace + rest.trace, rest.result)
    {
      var events, stop := RunCommand(p, e, i, cacheIndex);
      trace := trace + events;
      if stop.Some? { return Outcome(trace, stop.value); }
      rest := RunFrom(p, e, i + 1);
    }
    if p.success.Some? { trace := trace + [Hook(p.success.value)]; }
    return Outcome(trace, Success);
  }

  /** Runs a job's commands in its container and reports what happened. */
  method RunContainer(cmds: seq<Command>, cache: seq<string>, e: Engine) returns (o: Outcome)
    ensures !e.created ==> o == Outcome([], Aborted)
    ensures e.created ==> o == RunFrom(PlanOf(cmds, cache), e, 0)
  {
    if !e.created { return Outcome([], Aborted); }
    var folders := DropEmpty(cache);
    var main, failure, success := SortCommands(cmds);
    var cacheIndex := FindCacheIndex(main);
    o := RunCommands(Plan(main, failure, success, |folders| > 0), e, cacheIndex);
  }

  // ---- What the trace looks like when the engine works ----

  function Runs(cmds: seq<Command>): seq<Event> {
    if cmds == [] then [] else [Ran(cmds[0])] + Runs(cmds[1..])
  }

  /** The position of the first main command with a non-zero exit, or their number. */
  function FirstFailure(p: Plan, e: Engine, i: nat): (f: nat)
    requires i <= |p.main|
    ensures i <= f <= |p.main|
    ensures forall j :: i <= j < f ==> e.exec(j) == Exit(0)
    ensures f < |p.main| ==> e.exec(f) != Exit(0)
    decreases |p.main| - i
  {
    if i == |p.main| || e.exec(i) != Exit(0) then i else FirstFailure(p, e, i + 1)
  }

  predicate Healthy(e: Engine) {
    e.created && e.saving != ArchiveLost
  }

  predicate NoEngineError(p: Plan, e: Engine) {
    Healthy(e) && forall i :: 0 <= i < |p.main| ==> e.up(i) && e.exec(i).Exit?
  }

  // The commands up to and including the failing one, with the save after position cacheAt if that is passed.
  function Expected(p: Plan, f: nat, i: nat, cacheAt: nat): seq<Event>
    requires i <= f <= |p.main| && i <= |p.main|
  {
    var upTo := if f < |p.main| then f + 1 else f;
    if p.cached && i <= cacheAt < f
    then Runs(p.main[i..cacheAt + 1]) + [SaveCache] + Runs(p.main[cacheAt + 1..upTo])
    else Runs(p.main[i..upTo])
  }

  function Verdict(p: Plan, f: nat): seq<Event> {
    HookEvents(if f < |p.main| then p.failure else p.success)
  }

  lemma RunsCons(main: seq<Command>, i: nat, j: nat)
    requires i < j <= |main|
    ensures Runs(main[i..j]) == [Ran(main[i])] + Runs(main[i + 1..j])
  {
    assert main[i..j][1..] == main[i + 1..j];
  }

  // The restore event, if command i is the first.
  function Opening(p: Plan, i: nat): seq<Event> {
    if i == 0 && p.cached && p.main != [] then [RestoreCache] else []
  }

  lemma {:induction false} RunShape(p: Plan, e: Engine, i: nat)
    requires NoEngineError(p, e) && i <= |p.main|
    ensures var f := FirstFailure(p, e, i);
      && RunFrom(p, e, i).trace == Opening(p, i) + Expected(p, f, i, CacheIndex(p.main)) + Verdict(p, f)
      && RunFrom(p, e, i).result == if f == |p.main| then Success else Failed(e.exec(f).code)
    decreases |p.main| - i
  {
    if i < |p.main| {
      var f := FirstFailure(p, e, i);
      var at := CacheIndex(p.main);
      var first := [Ran(p.main[i])];
      ExpectedCons(p, f, i, at);
      if f > i {
        RunShape(p, e, i + 1);
        var save := if p.cached && i == at then [SaveCache] else [];
        assert RunOne(p, e, i) == (Opening(p, i) + first + save, None) by {
          assert Opening(p, i) + first + [] == Opening(p, i) + first;
        }
        Regroup(Opening(p, i), first, save, Expected(p, f, i + 1, at), Verdict(p, f));
      }
    }
  }

  lemma Regroup(a: seq<Event>, b: seq<Event>, c: seq<Event>, d: seq<Event>, v: seq<Event>)
    ensures (a + b + c) + ([] + d + v) == a + (b + c + d) + v
  {
  }

  lemma ExpectedCons(p: Plan, f: nat, i: nat, at: nat)
    requires i <= f <= |p.main| && i < |p.main|
    ensures f == i ==> Expected(p, f, i, at) == [Ran(p.main[i])]
    ensures var save := if p.cached && i == at then [SaveCache] else [];
      f > i ==> Expected(p, f, i, at) == [Ran(p.main[i])] + save + Expected(p, f, i + 1, at)
  {
    var upTo := if f < |p.main| then f + 1 else f;
    RunsCons(p.main, i, upTo);
    if p.cached && i <= at < f { RunsCons(p.main, i, at + 1); }
  }

  // ---- Whatever the engine does ----

  // The commands from i up to g, all passed, with the save after its command.
  function Passed(p: Plan, i: nat, g: nat): seq<Event>
    requires i <= g <= |p.main|
  {
    var at := CacheIndex(p.main);
    if p.cached && i <= at < g then Runs(p.main[i..at + 1]) + [SaveCache] + Runs(p.main[at + 1..g])
    else Runs(p.main[i..g])
  }

  /** What happens at the command where the run ends, or behind the last one. */
  function Closing(p: Plan, e: Engine, g: nat): Outcome
    requires g <= |p.main|
  {
    if g == |p.main| then Outcome(match p.success case None => [] case Some(c) => [Hook(c)], Success)
    else if !e.up(g) then Outcome([], Aborted)
    else match e.exec(g)
      case EngineError => Outcome([Ran(p.main[g])], Aborted)
      case Exit(0) => Outcome([Ran(p.main[g]), SaveCache], Aborted)
      case Exit(code) =>
        Outcome(match p.failure case None => [Ran(p.main[g])] case Some(c) => [Ran(p.main[g]), Hook(c)], Failed(code))
  }

  /** With an engine that may fail anywhere: the run goes on while the container is up, the
      command exits 0 and the packed cache can be read back.  At the first command g where one of
      this fails, what follows is that command if the container was up, and a hook only after an
      exit code other than 0; after an engine error, none. */
  lemma {:induction false} AnyRun(p: Plan, e: Engine, i: nat, g: nat)
    requires i <= g <= |p.main| && forall j :: i <= j < g ==> Survives(p, e, j)
    requires g < |p.main| ==> !Survives(p, e, g)
    ensures var restore := if i == 0 && p.cached && p.main != [] && e.up(0) then [RestoreCache] else [];
      RunFrom(p, e, i) == Outcome(restore + Passed(p, i, g) + Closing(p, e, g).trace, Closing(p, e, g).result)
    decreases g - i
  {
    var restore := if i == 0 && p.cached && p.main != [] && e.up(0) then [RestoreCache] else [];
    if i < g {
      var save := if p.cached && i == CacheIndex(p.main) then [SaveCache] else [];
      assert Survives(p, e, i);
      AnyRun(p, e, i + 1, g);
      PassedCons(p, i, g);
      assert RunOne(p, e, i) == (restore + [Ran(p.main[i])] + save, None) by {
        assert restore + [Ran(p.main[i])] + [] == restore + [Ran(p.main[i])];
      }
      Regroup(restore, [Ran(p.main[i])], save, Passed(p, i + 1, g), Closing(p, e, g).trace);
    } else {
      assert Passed(p, i, g) == [];
    }
  }

  lemma PassedCons(p: Plan, i: nat, g: nat)
    requires i < g <= |p.main|
    ensures var save := if p.cached && i == CacheIndex(p.main) then [SaveCache] else [];
      Passed(p, i, g) == [Ran(p.main[i])] + save + Passed(p, i + 1, g)
  {
    var at := CacheIndex(p.main);
    RunsCons(p.main, i, g);
    if p.cached && i <= at < g { RunsCons(p.main, i, at + 1); }
  }

  // ---- Success, with whatever the engine does ----

  predicate Survives(p: Plan, e: Engine, i: nat)
    requires i < |p.main|
  {
    e.up(i) && e.exec(i) == Exit(0) && (i == CacheIndex(p.main) && p.cached ==> e.saving != ArchiveLost)
  }

  /** RunContainer returns nil exactly if every non-hook command ran and exited 0 and the
      packed cache, if there is one, could be read back. */
  lemma {:induction false} SuccessIff(p: Plan, e: Engine, i: nat)
    requires i <= |p.main|
    ensures RunFrom(p, e, i).result == Success <==> forall j :: i <= j < |p.main| ==> Survives(p, e, j)
    decreases |p.main| - i
  {
    if i < |p.main| {
      SuccessIff(p, e, i + 1);
      assert RunOne(p, e, i).1 == None <==> Survives(p, e, i);
    }
  }

  // ---- The commands the parser generates ----

  lemma {:induction false} MainAppend(a: seq<Command>, b: seq<Command>)
    ensures Main(a + b) == Main(a) + Main(b)
  {
    if b == [] {
      assert a + b == a;
    } else {
      assert (a + b)[..|a + b| - 1] == a + b[..|b| - 1];
      MainAppend(a, b[..|b| - 1]);
    }
  }

  lemma {:induction false} MainTagged(cmds: seq<string>, kind: CommandType)
    ensures Main(Tagged(cmds, kind)) == if kind in {AfterFailure, AfterSuccess} then [] else Tagged(cmds, kind)
  {
    if cmds != [] {
      var t := Tagged(cmds, kind);
      assert t[..|t| - 1] == Tagged(cmds[..|cmds| - 1], kind);
      MainTagged(cmds[..|cmds| - 1], kind);
    }
  }

  lemma {:induction false} LastAppend(a: seq<Command>, b: seq<Command>, kind: CommandType)
    ensures LastOf(a + b, kind) == if LastOf(b, kind).Some? then LastOf(b, kind) else LastOf(a, kind)
  {
    if b == [] {
      assert a + b == a;
    } else {
      assert (a + b)[..|a + b| - 1] == a + b[..|b| - 1];
      LastAppend(a, b[..|b| - 1], kind);
    }
  }

  lemma {:induction false} LastTagged(cmds: seq<string>, tag: CommandType, kind: CommandType)
    ensures LastOf(Tagged(cmds, tag), kind)
            == if tag == kind && cmds != [] then Some(Command(kind, cmds[|cmds| - 1])) else None
  {
    if cmds != [] {
      var t := Tagged(cmds, tag);
      assert t[..|t| - 1] == Tagged(cmds[..|cmds| - 1], tag);
      LastTagged(cmds[..|cmds| - 1], tag, kind);
    }
  }

  lemma {:induction false} CacheIndexAppend(a: seq<Command>, b: seq<Command>)
    requires a != [] && a[|a| - 1].kind == Script
    requires forall c :: c in b ==> c.kind !in {Install, Script}
    ensures CacheIndex(a + b) == |a| - 1
  {
    if b == [] {
      assert a + b == a;
    } else {
      assert (a + b)[..|a + b| - 1] == a + b[..|b| - 1];
      CacheIndexAppend(a, b[..|b| - 1]);
    }
  }

  function LastText(texts: seq<string>, kind: CommandType): Option<Command> {
    if texts == [] then None else Some(Command(kind, texts[|texts| - 1]))
  }

  // The phases up to script, and all phases that are not hooks.
  function UpToScript(c: RepoConfig): seq<Command> {
    Tagged(c.setup.beforeInstall, BeforeInstall) + Tagged(c.setup.install, Install)
    + Tagged(c.setup.beforeScript, BeforeScript) + Tagged(c.setup.script, Script)
  }

  lemma TestMain(c: RepoConfig)
    ensures Main(TestCommands(c)) == UpToScript(c) + Tagged(c.finish.afterScript, AfterScript)
  {
    var a, b := UpToScript(c), Tagged(c.finish.afterSuccess, AfterSuccess);
    var d := Tagged(c.finish.afterFailure, AfterFailure);
    MainUpToScript(c);
    MainAppend(a, b);
    MainAppend(a + b, d);
    MainAppend(a + b + d, Tagged(c.finish.afterScript, AfterScript));
    MainTagged(c.finish.afterSuccess, AfterSuccess);
    MainTagged(c.finish.afterFailure, AfterFailure);
    MainTagged(c.finish.afterScript, AfterScript);
    assert Main(a + b) == a && Main(a + b + d) == a;
  }

  lemma TestHook(c: RepoConfig, kind: CommandType)
    requires kind in {AfterFailure, AfterSuccess}
    ensures LastOf(TestCommands(c), kind)
            == LastText(if kind == AfterFailure then c.finish.afterFailure else c.finish.afterSuccess, kind)
  {
    var a, b := UpToScript(c), Tagged(c.finish.afterSuccess, AfterSuccess);
    var d := Tagged(c.finish.afterFailure, AfterFailure);
    NoHookUpToScript(c, kind);
    LastAppend(a, b, kind);
    LastAppend(a + b, d, kind);
    LastAppend(a + b + d, Tagged(c.finish.afterScript, AfterScript), kind);
    LastTagged(c.finish.afterSuccess, AfterSuccess, kind);
    LastTagged(c.finish.afterFailure, AfterFailure, kind);
    LastTagged(c.finish.afterScript, AfterScript, kind);
  }

  lemma TestPlan(c: RepoConfig, cache: seq<string>)
    requires c.setup.script != []
    ensures PlanOf(TestCommands(c), cache)
            == Plan(UpToScript(c) + Tagged(c.finish.afterScript, AfterScript),
                    LastText(c.finish.afterFailure, AfterFailure), LastText(c.finish.afterSuccess, AfterSuccess),
                    DeleteEmpty(cache) != [])
    ensures CacheIndex(PlanOf(TestCommands(c), cache).main) == |UpToScript(c)| - 1 && UpToScript(c) != []
  {
    TestMain(c);
    TestHook(c, AfterFailure);
    TestHook(c, AfterSuccess);
    var x := Tagged(c.finish.afterScript, AfterScript);
    LastIsScript(c);
    TaggedAt(c.finish.afterScript, AfterScript);
    forall k | k in x ensures k.kind !in {Install, Script} {}
    CacheIndexAppend(UpToScript(c), x);
  }

  lemma LastIsScript(c: RepoConfig)
    requires c.setup.script != []
    ensures UpToScript(c) != [] && UpToScript(c)[|UpToScript(c)| - 1].kind == Script
  {
    TaggedAt(c.setup.script, Script);
  }

  lemma MainUpToScript(c: RepoConfig)
    ensures Main(UpToScript(c)) == UpToScript(c)
  {
    var a, b := Tagged(c.setup.beforeInstall, BeforeInstall), Tagged(c.setup.install, Install);
    var d := Tagged(c.setup.beforeScript, BeforeScript);
    MainAppend(a, b); MainAppend(a + b, d); MainAppend(a + b + d, Tagged(c.setup.script, Script));
    MainTagged(c.setup.beforeInstall, BeforeInstall);
    MainTagged(c.setup.install, Install);
    MainTagged(c.setup.beforeScript, BeforeScript);
    MainTagged(c.setup.script, Script);
  }

  lemma NoHookUpToScript(c: RepoConfig, kind: CommandType)
    requires kind in {AfterFailure, AfterSuccess}
    ensures LastOf(UpToScript(c), kind) == None
  {
    var a, b := Tagged(c.setup.beforeInstall, BeforeInstall), Tagged(c.setup.install, Install);
    var d := Tagged(c.setup.beforeScript, BeforeScript);
    LastAppend(a, b, kind); LastAppend(a + b, d, kind); LastAppend(a + b + d, Tagged(c.setup.script, Script), kind);
    LastTagged(c.setup.beforeInstall, BeforeInstall, kind);
    LastTagged(c.setup.install, Install, kind);
    LastTagged(c.setup.beforeScript, BeforeScript, kind);
    LastTagged(c.setup.script, Script, kind);
  }

  lemma {:induction false} MainWithoutHooks(cmds: seq<Command>)
    requires forall c :: c in cmds ==> c.kind != AfterFailure && c.kind != AfterSuccess
    ensures Main(cmds) == cmds
  {
    if cmds != [] {
      MainWithoutHooks(cmds[..|cmds| - 1]);
    }
  }

  /** A job with a deploy phase, on a working engine: the cache is restored first, then run
      before_deploy, deploy and after_deploy up to and including the first failure at position f;
      no hook follows.  A deploy job has no install or script command, so its cache is saved right
      behind its first command, if there is one to save and that command exits 0. */
  lemma DeployJobTrace(c: RepoConfig, cache: seq<string>, e: Engine)
    requires c.finish.deploy != [] && NoEngineError(PlanOf(DeployCommands(c), cache), e)
    ensures var p := PlanOf(DeployCommands(c), cache);
            var f := FirstFailure(p, e, 0);
            var o := RunFrom(p, e, 0);
            var cached := DeleteEmpty(cache) != [];
            var upTo := if f < |p.main| then f + 1 else f;
      && p.main == DeployCommands(c) && p.main != []
      && o.trace == (if cached then [RestoreCache] else []) + Runs(p.main[..1])
                    + (if cached && f > 0 then [SaveCache] else []) + Runs(p.main[1..upTo])
      && o.result == (if f == |p.main| then Success else Failed(e.exec(f).code))
  {
    DeployPlan(c, cache);
    DeployShape(PlanOf(DeployCommands(c), cache), e);
  }

  lemma DeployPlan(c: RepoConfig, cache: seq<string>)
    requires c.finish.deploy != []
    ensures DeployCommands(c) != [] && CacheIndex(DeployCommands(c)) == 0
    ensures PlanOf(DeployCommands(c), cache) == Plan(DeployCommands(c), None, None, DeleteEmpty(cache) != [])
  {
    DeployKinds(c);
    MainWithoutHooks(DeployCommands(c));
    LastOfIs(DeployCommands(c), AfterFailure);
    LastOfIs(DeployCommands(c), AfterSuccess);
    CacheIndexIs(DeployCommands(c));
  }

  lemma DeployKinds(c: RepoConfig)
    requires c.finish.deploy != []
    ensures DeployCommands(c) != []
    ensures forall k :: k in DeployCommands(c) ==> k.kind == BeforeDeploy || k.kind == Deploy || k.kind == AfterDeploy
  {
    TaggedAt(c.finish.beforeDeploy, BeforeDeploy);
    TaggedAt(c.finish.deploy, Deploy);
    TaggedAt(c.finish.afterDeploy, AfterDeploy);
  }

  // A run without hooks and with its cache point at the first command.
  lemma DeployShape(p: Plan, e: Engine)
    requires NoEngineError(p, e) && p.main != [] && CacheIndex(p.main) == 0 && p.failure == None && p.success == None
    ensures var f := FirstFailure(p, e, 0);
            var o := RunFrom(p, e, 0);
            var upTo := if f < |p.main| then f + 1 else f;
      && o.trace == (if p.cached then [RestoreCache] else []) + Runs(p.main[..1])
                    + (if p.cached && f > 0 then [SaveCache] else []) + Runs(p.main[1..upTo])
      && o.result == (if f == |p.main| then Success else Failed(e.exec(f).code))
  {
    var f := FirstFailure(p, e, 0);
    RunShape(p, e, 0);
    SavedFirst(p, f);
    assert Verdict(p, f) == [];
  }

  lemma SavedFirst(p: Plan, f: nat)
    requires f <= |p.main| && p.main != []
    ensures var upTo := if f < |p.main| then f + 1 else f;
      Expected(p, f, 0, 0)
      == Runs(p.main[..1]) + (if p.cached && f > 0 then [SaveCache] else []) + Runs(p.main[1..upTo])
  {
    var upTo := if f < |p.main| then f + 1 else f;
    RunsCons(p.main, 0, upTo);
    RunsCons(p.main, 0, 1);
    assert p.main[0..1] == p.main[..1] && p.main[1..1] == [];
  }

  lemma {:induction false} RunsNeverSave(cmds: seq<Command>)
    ensures SaveCache !in Runs(cmds)
    ensures forall ev :: ev in Runs(cmds) ==> ev.Ran?
  {
    if cmds != [] { RunsNeverSave(cmds[1..]); }
  }

  lemma CountSaves(a: seq<Event>, b: seq<Event>)
    ensures multiset(a + b)[SaveCache] == multiset(a)[SaveCache] + multiset(b)[SaveCache]
  {
  }

  lemma SavesExpected(p: Plan, f: nat, at: nat, hook: Option<Command>)
    requires f <= |p.main|
    ensures multiset(Opening(p, 0) + Expected(p, f, 0, at) + HookEvents(hook))[SaveCache]
            == if p.cached && at < f then 1 else 0
  {
    var upTo := if f < |p.main| then f + 1 else f;
    var expected := Expected(p, f, 0, at);
    CountSaves(Opening(p, 0) + expected, HookEvents(hook));
    CountSaves(Opening(p, 0), expected);
    assert SaveCache !in Opening(p, 0) && SaveCache !in HookEvents(hook);
    if p.cached && at < f {
      RunsNeverSave(p.main[0..at + 1]);
      RunsNeverSave(p.main[at + 1..upTo]);
      CountSaves(Runs(p.main[0..at + 1]) + [SaveCache], Runs(p.main[at + 1..upTo]));
      CountSaves(Runs(p.main[0..at + 1]), [SaveCache]);
    } else {
      RunsNeverSave(p.main[0..upTo]);
    }
  }

  lemma WholeRun(p: Plan, e: Engine, at: nat)
    requires NoEngineError(p, e) && CacheIndex(p.main) == at
    ensures var f := FirstFailure(p, e, 0);
      && RunFrom(p, e, 0).trace == Opening(p, 0) + Expected(p, f, 0, at) + Verdict(p, f)
      && RunFrom(p, e, 0).result == (if f == |p.main| then Success else Failed(e.exec(f).code))
      && multiset(RunFrom(p, e, 0).trace)[SaveCache] == (if p.cached && at < f then 1 else 0)
  {
    var f := FirstFailure(p, e, 0);
    RunShape(p, e, 0);
    SavesExpected(p, f, at, if f < |p.main| then p.failure else p.success);
  }

  /** A job with a script phase, on a working engine: the cache is restored first, then run
      before_install, install, before_script, script and after_script up to and including the
      first failure at position f, then only the last after_failure or after_success.  The
      cache is saved at most once, and that if and only if there is one to save and every
      command through the last script command exited 0, even if an after_script fails later. */
  lemma TestJobTrace(c: RepoConfig, cache: seq<string>, e: Engine)
    requires c.setup.script != [] && NoEngineError(PlanOf(TestCommands(c), cache), e)
    ensures var p := PlanOf(TestCommands(c), cache);
            var f := FirstFailure(p, e, 0);
            var o := RunFrom(p, e, 0);
            var lastScript := |UpToScript(c)| - 1;
      && p.main == UpToScript(c) + Tagged(c.finish.afterScript, AfterScript)
      && o.trace == Opening(p, 0) + Expected(p, f, 0, lastScript)
                    + HookEvents(if f < |p.main| then LastText(c.finish.afterFailure, AfterFailure)
                                 else LastText(c.finish.afterSuccess, AfterSuccess))
      && o.result == (if f == |p.main| then Success else Failed(e.exec(f).code))
      && multiset(o.trace)[SaveCache] == (if DeleteEmpty(cache) != [] && lastScript < f then 1 else 0)
  {
    TestPlan(c, cache);
    WholeRun(PlanOf(TestCommands(c), cache), e, |UpToScript(c)| - 1);
  }
}
