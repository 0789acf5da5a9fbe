/** The .abstruse.yml job generator.  The YAML decoder is outside: Parse gets the decoded file. */
module Parser {
  import opened Types
  import opened Splitting

  datatype CommandType =
    | BeforeInstall | Install | BeforeScript | Script | AfterSuccess | AfterFailure
    | BeforeDeploy | Deploy | AfterDeploy | AfterScript

  datatype Command = Command(kind: CommandType, text: string)

  datatype MatrixConfig = MatrixConfig(env: string, image: string)

  datatype RepoConfig = RepoConfig(
    image: string, matrix: seq<MatrixConfig>, setup: SetupConfig, finish: FinishConfig, cache: seq<string>)

  datatype SetupConfig = SetupConfig(
    beforeInstall: seq<string>, install: seq<string>, beforeScript: seq<string>, script: seq<string>)

  datatype FinishConfig = FinishConfig(
    afterSuccess: seq<string>, afterFailure: seq<string>, afterScript: seq<string>,
    beforeDeploy: seq<string>, deploy: seq<string>, afterDeploy: seq<string>)

  datatype Stage = TestStage | DeployStage

  datatype JobConfig = JobConfig(
    image: string, env: seq<string>, mount: string, stage: Stage, commands: seq<Command>, cache: seq<string>)

  datatype ParseError = EmptyConfig | BadYaml | NoScript | NoImage

  // Decoding the raw text: an error, or the file.
  datatype Decoded = Malformed | File(config: RepoConfig)

  /** Every text as a command of one type. */
  function Tagged(cmds: seq<string>, kind: CommandType): seq<Command> {
    if cmds == [] then [] else Tagged(cmds[..|cmds| - 1], kind) + [Command(kind, cmds[|cmds| - 1])]
  }

  lemma {:induction false} TaggedAt(cmds: seq<string>, kind: CommandType)
    ensures |Tagged(cmds, kind)| == |cmds|
    ensures forall i :: 0 <= i < |cmds| ==> Tagged(cmds, kind)[i] == Command(kind, cmds[i])
  {
    if cmds != [] { TaggedAt(cmds[..|cmds| - 1], kind); }
  }

  /** From position at on, the commands are these texts, each as a command of this type. */
  ghost predicate Holds(commands: seq<Command>, at: nat, kind: CommandType, texts: seq<string>) {
    && at + |texts| <= |commands|
    && forall k :: 0 <= k < |texts| ==> commands[at + k] == Command(kind, texts[k])
  }

  /** The seven phases of a test job, one behind the other, and nothing else. */
  ghost predicate TestPhases(commands: seq<Command>, s: SetupConfig, f: FinishConfig) {
    var install := |s.beforeInstall|;
    var beforeScript := install + |s.install|;
    var script := beforeScript + |s.beforeScript|;
    var afterSuccess := script + |s.script|;
    var afterFailure := afterSuccess + |f.afterSuccess|;
    var afterScript := afterFailure + |f.afterFailure|;
    && |commands| == afterScript + |f.afterScript|
    && Holds(commands, 0, BeforeInstall, s.beforeInstall)
    && Holds(commands, install, Install, s.install)
    && Holds(commands, beforeScript, BeforeScript, s.beforeScript)
    && Holds(commands, script, Script, s.script)
    && Holds(commands, afterSuccess, AfterSuccess, f.afterSuccess)
    && Holds(commands, afterFailure, AfterFailure, f.afterFailure)
    && Holds(commands, afterScript, AfterScript, f.afterScript)
  }

  /** The three phases of a deploy job, one behind the other, and nothing else. */
  ghost predicate DeployPhases(commands: seq<Command>, f: FinishConfig) {
    && |commands| == |f.beforeDeploy| + |f.deploy| + |f.afterDeploy|
    && Holds(commands, 0, BeforeDeploy, f.beforeDeploy)
    && Holds(commands, |f.beforeDeploy|, Deploy, f.deploy)
    && Holds(commands, |f.beforeDeploy| + |f.deploy|, AfterDeploy, f.afterDeploy)
  }

  function TestCommands(c: RepoConfig): seq<Command> {
    Tagged(c.setup.beforeInstall, BeforeInstall) + Tagged(c.setup.install, Install)
    + Tagged(c.setup.beforeScript, BeforeScript) + Tagged(c.setup.script, Script)
    + Tagged(c.finish.afterSuccess, AfterSuccess) + Tagged(c.finish.afterFailure, AfterFailure)
    + Tagged(c.finish.afterScript, AfterScript)
  }

  lemma TestSetup(c: RepoConfig)
    ensures var commands, s := TestCommands(c), c.setup;
      && Holds(commands, 0, BeforeInstall, s.beforeInstall)
      && Holds(commands, |s.beforeInstall|, Install, s.install)
      && Holds(commands, |s.beforeInstall| + |s.install|, BeforeScript, s.beforeScript)
      && Holds(commands, |s.beforeInstall| + |s.install| + |s.beforeScript|, Script, s.script)
  {
    TaggedAt(c.setup.beforeInstall, BeforeInstall);
    TaggedAt(c.setup.install, Install);
    TaggedAt(c.setup.beforeScript, BeforeScript);
    TaggedAt(c.setup.script, Script);
  }

  lemma TestLayout(c: RepoConfig)
    ensures TestPhases(TestCommands(c), c.setup, c.finish)
  {
    TestSetup(c);
    var setup := Tagged(c.setup.beforeInstall, BeforeInstall) + Tagged(c.setup.install, Install)
                 + Tagged(c.setup.beforeScript, BeforeScript) + Tagged(c.setup.script, Script);
    assert |setup| == |c.setup.beforeInstall| + |c.setup.install| + |c.setup.beforeScript| + |c.setup.script| by {
      TaggedAt(c.setup.beforeInstall, BeforeInstall);
      TaggedAt(c.setup.install, Install);
      TaggedAt(c.setup.beforeScript, BeforeScript);
      TaggedAt(c.setup.script, Script);
    }
    TaggedAt(c.finish.afterSuccess, AfterSuccess);
    TaggedAt(c.finish.afterFailure, AfterFailure);
    TaggedAt(c.finish.afterScript, AfterScript);
  }

  function DeployCommands(c: RepoConfig): seq<Command> {
    Tagged(c.finish.beforeDeploy, BeforeDeploy) + Tagged(c.finish.deploy, Deploy)
    + Tagged(c.finish.afterDeploy, AfterDeploy)
  }

  lemma DeployLayout(c: RepoConfig)
    ensures DeployPhases(DeployCommands(c), c.finish)
  {
    TaggedAt(c.finish.beforeDeploy, BeforeDeploy);
    TaggedAt(c.finish.deploy, Deploy);
    TaggedAt(c.finish.afterDeploy, AfterDeploy);
  }

  method AppendCommands(cmds: seq<string>, kind: CommandType) returns (commands: seq<Command>)
    ensures commands == Tagged(cmds, kind)
  {
    commands := [];
    for i := 0 to |cmds|
      invariant commands == Tagged(cmds[..i], kind)
    {
      assert cmds[..i + 1][..i] == cmds[..i];
      commands := commands + [Command(kind, cmds[i])];
    }
    assert cmds[..|cmds|] == cmds;
  }

  method GenerateCommands(c: RepoConfig) returns (commands: seq<Command>)
    ensures commands == TestCommands(c)
  {
    var cs := AppendCommands(c.setup.beforeInstall, BeforeInstall);
    commands := cs;
    cs := AppendCommands(c.setup.install, Install);
    commands := commands + cs;
    cs := AppendCommands(c.setup.beforeScript, BeforeScript);
    commands := commands + cs;
    cs := AppendCommands(c.setup.script, Script);
    commands := commands + cs;
    cs := AppendCommands(c.finish.afterSuccess, AfterSuccess);
    commands := commands + cs;
    cs := AppendCommands(c.finish.afterFailure, AfterFailure);
    commands := commands + cs;
    cs := AppendCommands(c.finish.afterScript, AfterScript);
    commands := commands + cs;
  }

  method GenerateDeployCommands(c: RepoConfig) returns (commands: seq<Command>)
    ensures commands == DeployCommands(c)
  {
    var cs := AppendCommands(c.finish.beforeDeploy, BeforeDeploy);
    commands := cs;
    cs := AppendCommands(c.finish.deploy, Deploy);
    commands := commands + cs;
    cs := AppendCommands(c.finish.afterDeploy, AfterDeploy);
    commands := commands + cs;
  }

  function MatrixJob(c: RepoConfig, env: seq<string>, m: MatrixConfig): JobConfig {
    JobConfig(if m.image != "" then m.image else c.image, if m.env != "" then env + [m.env] else env,
              "", TestStage, TestCommands(c), c.cache)
  }

  lemma JobsLaidOut(c: RepoConfig, jobs: seq<JobConfig>)
    requires forall job <- jobs ::
      job.commands == match job.stage case TestStage => TestCommands(c) case DeployStage => DeployCommands(c)
    ensures forall job <- jobs :: match job.stage
        case TestStage => TestPhases(job.commands, c.setup, c.finish)
        case DeployStage => DeployPhases(job.commands, c.finish)
  {
    TestLayout(c);
    DeployLayout(c);
  }

  /** Succeeds exactly on a decodable file with a script and an image for every job; then one
      test job per matrix entry in order (or a single one), and a deploy job if there is a
      deploy phase.  Matrix jobs get no mounts here.  The commands of the jobs are the texts of
      their phases, phase after phase. */
  method Parse(raw: string, decoded: Decoded, env: seq<string>, mount: seq<string>)
    returns (jobs: seq<JobConfig>, error: Option<ParseError>)
    ensures error ==
      if raw == "" then Some(EmptyConfig)
      else if decoded.Malformed? then Some(BadYaml)
      else if decoded.config.setup.script == [] then Some(NoScript)
      else if var c := decoded.config;
              c.image == "" && (c.matrix == [] || c.finish.deploy != [] || exists m :: m in c.matrix && m.image == "")
           then Some(NoImage)
      else None
    ensures error == None ==> var c := decoded.config;
      && |jobs| == (if c.matrix == [] then 1 else |c.matrix|) + (if c.finish.deploy == [] then 0 else 1)
      && (forall i :: 0 <= i < |c.matrix| ==> var m := c.matrix[i];
            jobs[i] == JobConfig(if m.image != "" then m.image else c.image,
                                 if m.env != "" then env + [m.env] else env,
                                 "", TestStage, TestCommands(c), c.cache))
      && (c.matrix == [] ==> jobs[0] == JobConfig(c.image, env, Join(mount, ','), TestStage, TestCommands(c), c.cache))
      && (c.finish.deploy != [] ==>
            jobs[|jobs| - 1] == JobConfig(c.image, env, Join(mount, ','), DeployStage, DeployCommands(c), c.cache))
    ensures error == None ==> var c := decoded.config;
      forall job <- jobs :: match job.stage
        case TestStage => TestPhases(job.commands, c.setup, c.finish)
        case DeployStage => DeployPhases(job.commands, c.finish)
  {
    jobs, error := [], None;
    if raw == "" { error := Some(EmptyConfig); return; }
    if decoded.Malformed? { error := Some(BadYaml); return; }
    var c := decoded.config;
    if |c.setup.script| == 0 { error := Some(NoScript); return; }
    if |c.matrix| > 0 {
      for i := 0 to |c.matrix|
        invariant |jobs| == i && error == None
        invariant forall k :: 0 <= k < i ==> jobs[k] == MatrixJob(c, env, c.matrix[k]) && jobs[k].image != ""
      {
        var item := c.matrix[i];
        var image := if item.image != "" then item.image else c.image;
        if image == "" {
          assert item in c.matrix;
          error := Some(NoImage);
          return;
        }
        var jobEnv := env;
        if item.env != "" { jobEnv := jobEnv + [item.env]; }
        var commands := GenerateCommands(c);
        assert env + [] == env;
        jobs := jobs + [JobConfig(image, jobEnv, "", TestStage, commands, c.cache)];
      }
    } else {
      if c.image == "" { error := Some(NoImage); return; }
      var commands := GenerateCommands(c);
      jobs := [JobConfig(c.image, env, Join(mount, ','), TestStage, commands, c.cache)];
    }
    if |c.finish.deploy| > 0 {
      if c.image == "" { error := Some(NoImage); return; }
      var commands := GenerateDeployCommands(c);
      jobs := jobs + [JobConfig(c.image, env, Join(mount, ','), DeployStage, commands, c.cache)];
    }
    JobsLaidOut(c, jobs);
  }
}
