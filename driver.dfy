/** The driver of download_wheels.py: `run_pip_download_deps` (28-106), the
    attempt loop of `download_package_with_deps` (110-269) and the
    requirement loop of `main` (273-388), over an oracle for the outside
    world. The global `pip_call_times` and the two side channels the script
    writes to (the instruction batch file and the optional wheel copy) are
    the fields of a `Downloader`. */
module Driver {
  import opened Seqs
  import opened PyStr
  import opened Names
  import opened Strategies
  import opened Requirements
  import opened Attempts

  /** The outside world: whether `os.makedirs` succeeds for a path on a given
      attempt, and what the pip process gives back for a command line on a
      given attempt. */
  datatype World = World(makeDirs: (string, nat) -> bool, pip: (seq<string>, nat) -> PipResult)

  /** The local settings of `download_package_with_deps`
      (download_wheels.py:131-140). */
  datatype Config = Config(platforms: seq<string>, pythonVersions: seq<string>,
                           implementations: seq<string>, binaryTypes: seq<string>,
                           downloadAllVersions: bool, copyFirstSetToParent: bool)

  /** The settings as the script fixes them. */
  const SCRIPT_CONFIG: Config :=
    Config(PLATFORMS, PYTHON_VERSIONS, IMPLEMENTATIONS, BINARY_TYPES, true, false)

  function StrategiesOf(config: Config): seq<Strategy> {
    Generate(config.platforms, config.pythonVersions, config.implementations, config.binaryTypes)
  }

  /** An entry of `installation-instructions.bat`: its fixed header, the
      install command for one requirement and its subdirectory, and its fixed
      footer (download_wheels.py:229-231, 337-355, 374-386). */
  datatype Instruction = Preamble(baseDir: string) | Install(requirement: string, subdir: string) | Closing

  /** Copying the first successful attempt's wheels from `source` into
      `target` (download_wheels.py:237-252). */
  datatype Promotion = Promotion(source: string, target: string)

  /** One call of `run_pip_download_deps`. */
  datatype Call = Call(packageSpec: string, originalName: string, attempt: nat, extraArgs: Strategy)

  /** The outcome of `run_pip_download_deps` (download_wheels.py:49-103): no
      pip call if the package subdirectory cannot be created, otherwise the
      result of pip on the base arguments, the strategy and the split spec. */
  function AttemptOutcome(world: World, packageSpec: string, originalName: string,
                          downloadDir: string, attempt: nat, extraArgs: Strategy): Outcome
  {
    var subdir := PackageSubdir(downloadDir, originalName);
    if !world.makeDirs(subdir, attempt) then DirFailed
    else Invoked(world.pip(Command(subdir, extraArgs, packageSpec), attempt))
  }

  /** One attempt succeeds exactly when the subdirectory is created and pip,
      called with that subdirectory as `--dest`, exits with code 0; a
      duration is recorded exactly when pip is called. */
  lemma AttemptClassification(world: World, packageSpec: string, originalName: string,
                              downloadDir: string, attempt: nat, extraArgs: Strategy)
    ensures var subdir := PackageSubdir(downloadDir, originalName);
      var o := AttemptOutcome(world, packageSpec, originalName, downloadDir, attempt, extraArgs);
      var result := world.pip(Command(subdir, extraArgs, packageSpec), attempt);
      (Succeeded(o) <==> world.makeDirs(subdir, attempt) && result.Exited? && result.returnCode == 0)
      && Times([o]) == (if world.makeDirs(subdir, attempt) then [result.elapsed] else [])
      && Command(subdir, extraArgs, packageSpec)[3] == subdir
  {
    var subdir := PackageSubdir(downloadDir, originalName);
    TimesOne(AttemptOutcome(world, packageSpec, originalName, downloadDir, attempt, extraArgs));
    CommandParts(subdir, extraArgs, packageSpec);
  }

  /** The outcome each strategy would have: strategy `j` is tried as
      attempt `j + 1`. */
  function AttemptOutcomes(world: World, specForPip: string, name: string, downloadDir: string,
                           strategies: seq<Strategy>): (os: seq<Outcome>)
    ensures |os| == |strategies|
  {
    if strategies == [] then []
    else
      AttemptOutcomes(world, specForPip, name, downloadDir, strategies[..|strategies| - 1])
      + [AttemptOutcome(world, specForPip, name, downloadDir, |strategies|, strategies[|strategies| - 1])]
  }

  /** The outcomes of the first `k + 1` strategies extend those of the first
      `k` by the outcome of attempt `k + 1`. */
  lemma AttemptOutcomesStep(world: World, specForPip: string, name: string, downloadDir: string,
                            strategies: seq<Strategy>, k: nat)
    requires k < |strategies|
    ensures AttemptOutcomes(world, specForPip, name, downloadDir, strategies[..k + 1])
         == AttemptOutcomes(world, specForPip, name, downloadDir, strategies[..k])
            + [AttemptOutcome(world, specForPip, name, downloadDir, k + 1, strategies[k])]
  {
    PrefixOfPrefix(strategies, k);
  }

  /** The attempts with outcomes `tried` are the first ones: strategy `j`
      tried as attempt `j + 1`, and the calls log has grown from `start` to
      `now` by exactly those calls. */
  ghost predicate Attempted(world: World, specForPip: string, name: string, downloadDir: string,
                            strategies: seq<Strategy>, tried: seq<Outcome>, start: seq<Call>, now: seq<Call>)
  {
    |tried| <= |strategies|
    && tried == AttemptOutcomes(world, specForPip, name, downloadDir, strategies[..|tried|])
    && now == start + AttemptCalls(specForPip, name, strategies, |tried|)
  }

  /** One more attempt extends the outcomes seen and the calls made by
      those of the next strategy, tried as the next attempt. */
  lemma NextAttempt(world: World, specForPip: string, name: string, downloadDir: string,
                    strategies: seq<Strategy>, attempt: nat, tried: seq<Outcome>, o: Outcome,
                    start: seq<Call>, before: seq<Call>, after: seq<Call>)
    requires Attempted(world, specForPip, name, downloadDir, strategies, tried, start, before)
    requires |tried| < |strategies| && attempt == |tried| + 1
    requires o == AttemptOutcome(world, specForPip, name, downloadDir, attempt, strategies[|tried|])
    requires after == before + [Call(specForPip, name, attempt, strategies[|tried|])]
    ensures Attempted(world, specForPip, name, downloadDir, strategies, tried + [o], start, after)
  {
    AttemptOutcomesStep(world, specForPip, name, downloadDir, strategies, |tried|);
    assert |tried + [o]| == |tried| + 1;
  }

  /** The outcomes of a prefix of the strategies are a prefix of the outcomes. */
  lemma AttemptOutcomesPrefix(world: World, specForPip: string, name: string, downloadDir: string,
                              strategies: seq<Strategy>, n: nat)
    requires n <= |strategies|
    ensures AttemptOutcomes(world, specForPip, name, downloadDir, strategies[..n])
         == AttemptOutcomes(world, specForPip, name, downloadDir, strategies)[..n]
  {
    var a := AttemptOutcomes(world, specForPip, name, downloadDir, strategies[..n]);
    var b := AttemptOutcomes(world, specForPip, name, downloadDir, strategies)[..n];
    forall j | 0 <= j < n ensures a[j] == b[j] {
      AttemptOutcomesAt(world, specForPip, name, downloadDir, strategies[..n], j);
      AttemptOutcomesAt(world, specForPip, name, downloadDir, strategies, j);
    }
  }

  /** Strategy `j` is tried as attempt `j + 1`. */
  lemma {:induction false} AttemptOutcomesAt(world: World, specForPip: string, name: string, downloadDir: string,
                                            strategies: seq<Strategy>, j: nat)
    requires j < |strategies|
    ensures AttemptOutcomes(world, specForPip, name, downloadDir, strategies)[j]
         == AttemptOutcome(world, specForPip, name, downloadDir, j + 1, strategies[j])
  {
    var init := strategies[..|strategies| - 1];
    if j < |init| {
      AttemptOutcomesAt(world, specForPip, name, downloadDir, init, j);
      assert init[j] == strategies[j];
    }
  }

  /** The first `n` calls the attempt loop makes. */
  function AttemptCalls(specForPip: string, name: string, strategies: seq<Strategy>, n: nat): (calls: seq<Call>)
    requires n <= |strategies|
    ensures |calls| == n
    ensures forall j :: 0 <= j < n ==> calls[j] == Call(specForPip, name, j + 1, strategies[j])
  {
    if n == 0 then []
    else AttemptCalls(specForPip, name, strategies, n - 1) + [Call(specForPip, name, n, strategies[n - 1])]
  }

  /** Everything the attempt loop of one requirement produces: its verdict,
      the durations it adds to `pip_call_times`, the calls it makes, the
      install instruction it writes and the copy it triggers. */
  datatype PackageRun = PackageRun(success: bool, times: seq<real>, calls: seq<Call>,
                                   installs: seq<Instruction>, promotions: seq<Promotion>)

  /** The install instruction written on the first success
      (download_wheels.py:222-231). */
  function InstallOf(packageSpec: string, name: string, downloadDir: string): seq<Instruction> {
    [Install(packageSpec, PackageSubdir(downloadDir, name))]
  }

  /** The copy made on the first success, if copying is enabled
      (download_wheels.py:235-252). */
  function PromotionOf(name: string, downloadDir: string, config: Config): seq<Promotion> {
    if config.copyFirstSetToParent then [Promotion(PackageSubdir(downloadDir, name), downloadDir)] else []
  }

  /** The attempt loop for a requirement whose bare name is `name`: all
      strategies are tried, or those up to the first success; the verdict is
      whether any strategy succeeds; the first success alone adds the install
      instruction and, if enabled, the copy. */
  function NamedRun(world: World, packageSpec: string, name: string, downloadDir: string, config: Config): PackageRun {
    var specForPip := SpecForPip(name, packageSpec);
    var strategies := StrategiesOf(config);
    var os := AttemptOutcomes(world, specForPip, name, downloadDir, strategies);
    var n := AttemptsMade(os, config.downloadAllVersions);
    var success := AnySucceeded(os);
    PackageRun(success, Times(os[..n]), AttemptCalls(specForPip, name, strategies, n),
               if success then InstallOf(packageSpec, name, downloadDir) else [],
               if success then PromotionOf(name, downloadDir, config) else [])
  }

  /** The attempt loop for a requirement (download_wheels.py:110-269). */
  function PackageRunOf(world: World, packageSpec: string, downloadDir: string, config: Config): PackageRun {
    NamedRun(world, packageSpec, BareName(packageSpec), downloadDir, config)
  }

  /** Appending to a log that extends `base` by `a` extends it by `a + b`. */
  lemma Extend<T>(base: seq<T>, prev: seq<T>, a: seq<T>, b: seq<T>, ab: seq<T>, cur: seq<T>)
    requires prev == base + a && ab == a + b && cur == prev + b
    ensures cur == base + ab
  {
  }

  /** A log that gains `xs` on the first success only holds `xs` once some
      attempt has succeeded. */
  lemma FirstOnly<T>(base: seq<T>, prev: seq<T>, cur: seq<T>, xs: seq<T>, before: bool, count: nat, now: bool)
    requires before == (count > 0)
    requires prev == base + (if before then xs else [])
    requires cur == prev + (if now && count == 0 then xs else [])
    ensures cur == base + (if before || now then xs else [])
  {
  }

  /** The runs of the attempt loop for the valid requirements, in file order. */
  function RunsOf(world: World, reqs: seq<string>, downloadDir: string, config: Config): (runs: seq<PackageRun>)
    ensures |runs| == |reqs|
  {
    if reqs == [] then []
    else RunsOf(world, reqs[..|reqs| - 1], downloadDir, config) + [PackageRunOf(world, reqs[|reqs| - 1], downloadDir, config)]
  }

  /** The runs of one more requirement extend those of the ones before it. */
  lemma RunsOfStep(world: World, reqs: seq<string>, i: nat, downloadDir: string, config: Config)
    requires i < |reqs|
    ensures RunsOf(world, reqs[..i + 1], downloadDir, config)
         == RunsOf(world, reqs[..i], downloadDir, config) + [PackageRunOf(world, reqs[i], downloadDir, config)]
  {
    PrefixOfPrefix(reqs, i);
  }

  /** Run `j` is the attempt loop of requirement `j`. */
  lemma {:induction false} RunsOfAt(world: World, reqs: seq<string>, downloadDir: string, config: Config, j: nat)
    requires j < |reqs|
    ensures RunsOf(world, reqs, downloadDir, config)[j] == PackageRunOf(world, reqs[j], downloadDir, config)
  {
    var init := reqs[..|reqs| - 1];
    var r := RunsOf(world, init, downloadDir, config);
    assert RunsOf(world, reqs, downloadDir, config) == r + [PackageRunOf(world, reqs[|reqs| - 1], downloadDir, config)];
    if j < |reqs| - 1 {
      RunsOfAt(world, init, downloadDir, config, j);
      assert init[j] == reqs[j];
    }
  }

  /** `successful_packages` (download_wheels.py:361-368): the requirements
      whose run succeeds, in order. */
  function Successful(reqs: seq<string>, runs: seq<PackageRun>): seq<string>
    requires |reqs| == |runs|
  {
    if reqs == [] then []
    else
      Successful(reqs[..|reqs| - 1], runs[..|runs| - 1])
      + (if runs[|runs| - 1].success then [reqs[|reqs| - 1]] else [])
  }

  /** `failed_packages` (download_wheels.py:361-370): the requirements whose
      run fails, in order. */
  function Failed(reqs: seq<string>, runs: seq<PackageRun>): seq<string>
    requires |reqs| == |runs|
  {
    if reqs == [] then []
    else
      Failed(reqs[..|reqs| - 1], runs[..|runs| - 1])
      + (if runs[|runs| - 1].success then [] else [reqs[|reqs| - 1]])
  }

  /** `pip_call_times` over several runs. */
  function AllTimes(runs: seq<PackageRun>): seq<real> {
    if runs == [] then [] else AllTimes(runs[..|runs| - 1]) + runs[|runs| - 1].times
  }

  /** The install instructions of several runs. */
  function AllInstalls(runs: seq<PackageRun>): seq<Instruction> {
    if runs == [] then [] else AllInstalls(runs[..|runs| - 1]) + runs[|runs| - 1].installs
  }

  /** The `run_pip_download_deps` calls of several runs. */
  function AllCalls(runs: seq<PackageRun>): seq<Call> {
    if runs == [] then [] else AllCalls(runs[..|runs| - 1]) + runs[|runs| - 1].calls
  }

  /** The copies of several runs. */
  function AllPromotions(runs: seq<PackageRun>): seq<Promotion> {
    if runs == [] then [] else AllPromotions(runs[..|runs| - 1]) + runs[|runs| - 1].promotions
  }

  /** What one more requirement and its run add to the results of `main`. */
  lemma RunsStep(reqs: seq<string>, runs: seq<PackageRun>, req: string, run: PackageRun)
    requires |reqs| == |runs|
    ensures Successful(reqs + [req], runs + [run]) == Successful(reqs, runs) + (if run.success then [req] else [])
    ensures Failed(reqs + [req], runs + [run]) == Failed(reqs, runs) + (if run.success then [] else [req])
    ensures AllTimes(runs + [run]) == AllTimes(runs) + run.times
    ensures AllCalls(runs + [run]) == AllCalls(runs) + run.calls
    ensures AllInstalls(runs + [run]) == AllInstalls(runs) + run.installs
    ensures AllPromotions(runs + [run]) == AllPromotions(runs) + run.promotions
  {
    assert (reqs + [req])[..|reqs|] == reqs;
    assert (runs + [run])[..|runs|] == runs;
  }

  /** The four logs of a `Downloader`: durations, calls, instructions and
      copies. */
  datatype Logs = Logs(times: seq<real>, calls: seq<Call>, installs: seq<Instruction>, promotions: seq<Promotion>)

  /** The effects of the attempt loop after the attempts with outcomes
      `tried`: `success` says whether one of them succeeded, and the logs
      have grown from `start` to `now` by one duration per pip call and by
      the install instruction `install` and the copy `promotion` once some
      attempt has succeeded. */
  ghost predicate Tried(tried: seq<Outcome>, success: bool, install: seq<Instruction>, promotion: seq<Promotion>,
                        start: Logs, now: Logs)
  {
    success == AnySucceeded(tried)
    && now.times == start.times + Times(tried)
    && now.installs == start.installs + (if success then install else [])
    && now.promotions == start.promotions + (if success then promotion else [])
  }

  /** One more attempt, with the effects `AttemptStrategy` has, keeps the
      loop's effects: the verdict becomes true on a success, the success
      count grows on a success, and the first-success effects appear once. */
  lemma TriedStep(tried: seq<Outcome>, success: bool, count: nat, install: seq<Instruction>,
                  promotion: seq<Promotion>, start: Logs, before: Logs, after: Logs, o: Outcome, succeeded: bool)
    requires Tried(tried, success, install, promotion, start, before)
    requires success == (count > 0) && succeeded == Succeeded(o)
    requires after.times == before.times + Times([o])
    requires after.installs == before.installs + (if succeeded && count == 0 then install else [])
    requires after.promotions == before.promotions + (if succeeded && count == 0 then promotion else [])
    ensures Tried(tried + [o], success || succeeded, install, promotion, start, after)
    ensures SuccessCount(tried + [o]) == SuccessCount(tried) + (if succeeded then 1 else 0)
  {
    AttemptStep(tried, o);
    Extend(start.times, before.times, Times(tried), Times([o]), Times(tried + [o]), after.times);
    FirstOnly(start.installs, before.installs, after.installs, install, success, count, succeeded);
    FirstOnly(start.promotions, before.promotions, after.promotions, promotion, success, count, succeeded);
  }

  /** The runs of one more requirement extend those of the ones before it
      by its run. */
  lemma RunsOfNext(world: World, reqs: seq<string>, downloadDir: string, config: Config,
                   runs: seq<PackageRun>, run: PackageRun)
    requires |runs| < |reqs| && runs == RunsOf(world, reqs[..|runs|], downloadDir, config)
    requires run == PackageRunOf(world, reqs[|runs|], downloadDir, config)
    ensures runs + [run] == RunsOf(world, reqs[..|runs + [run]|], downloadDir, config)
  {
    RunsOfStep(world, reqs, |runs|, downloadDir, config);
    assert |runs + [run]| == |runs| + 1;
  }

  /** The state of `main` after the first `|runs|` valid requirements, whose
      runs are `runs`: the two result lists split those requirements by
      verdict, `pip_call_times` holds their durations, the instruction file
      its header and their install lines, and the calls and copies made
      since `start` are theirs. */
  ghost predicate Processed(reqs: seq<string>, runs: seq<PackageRun>, successful: seq<string>, failed: seq<string>,
                            downloadDir: string, start: Logs, now: Logs)
  {
    |runs| <= |reqs|
    && successful == Successful(reqs[..|runs|], runs)
    && failed == Failed(reqs[..|runs|], runs)
    && now.times == AllTimes(runs)
    && now.calls == start.calls + AllCalls(runs)
    && now.installs == [Preamble(downloadDir)] + AllInstalls(runs)
    && now.promotions == start.promotions + AllPromotions(runs)
  }

  /** Downloading the next requirement, with the effects
      `DownloadPackageWithDeps` has, and filing it by its verdict keeps the
      state of `main`. */
  lemma ProcessedStep(reqs: seq<string>, runs: seq<PackageRun>, successful: seq<string>, failed: seq<string>,
                      downloadDir: string, start: Logs, before: Logs, after: Logs, run: PackageRun,
                      ok: bool, successfulAfter: seq<string>, failedAfter: seq<string>)
    requires Processed(reqs, runs, successful, failed, downloadDir, start, before)
    requires |runs| < |reqs| && ok == run.success
    requires after.times == before.times + run.times
    requires after.calls == before.calls + run.calls
    requires after.installs == before.installs + run.installs
    requires after.promotions == before.promotions + run.promotions
    requires successfulAfter == if ok then successful + [reqs[|runs|]] else successful
    requires failedAfter == if ok then failed else failed + [reqs[|runs|]]
    ensures Processed(reqs, runs + [run], successfulAfter, failedAfter, downloadDir, start, after)
  {
    var i := |runs|;
    RunsStep(reqs[..i], runs, reqs[i], run);
    PrefixStep(reqs, i);
    assert |runs + [run]| == i + 1;
    Extend([], before.times, AllTimes(runs), run.times, AllTimes(runs + [run]), after.times);
    Extend([Preamble(downloadDir)], before.installs, AllInstalls(runs), run.installs,
           AllInstalls(runs + [run]), after.installs);
    Extend(start.calls, before.calls, AllCalls(runs), run.calls, AllCalls(runs + [run]), after.calls);
    Extend(start.promotions, before.promotions, AllPromotions(runs), run.promotions,
           AllPromotions(runs + [run]), after.promotions);
  }

  /** The side effects of the script: the global `pip_call_times`, the lines
      of `installation-instructions.bat`, the wheel copies into the base
      directory, and (for the proofs) the log of attempted calls. */
  class Downloader {
    /** The global `pip_call_times` (download_wheels.py:20). */
    var pipCallTimes: seq<real>
    /** The entries of `installation-instructions.bat`. */
    var instructions: seq<Instruction>
    /** The wheel copies made into the base directory. */
    var promotions: seq<Promotion>
    /** Every call of `run_pip_download_deps`, in order. */
    ghost var calls: seq<Call>

    constructor ()
      ensures pipCallTimes == [] && instructions == [] && promotions == [] && calls == []
    {
      pipCallTimes := [];
      instructions := [];
      promotions := [];
      calls := [];
    }

    /** `run_pip_download_deps` (download_wheels.py:28-106): returns whether
        the attempt succeeded and records one duration per pip call. */
    method RunPipDownloadDeps(world: World, packageSpec: string, originalName: string,
                              downloadDir: string, attempt: nat, extraArgs: Strategy)
      returns (success: bool)
      modifies this`pipCallTimes, this`calls
      ensures var o := AttemptOutcome(world, packageSpec, originalName, downloadDir, attempt, extraArgs);
        success == Succeeded(o) && pipCallTimes == old(pipCallTimes) + Times([o])
      ensures calls == old(calls) + [Call(packageSpec, originalName, attempt, extraArgs)]
    {
      calls := calls + [Call(packageSpec, originalName, attempt, extraArgs)];
      TimesOne(AttemptOutcome(world, packageSpec, originalName, downloadDir, attempt, extraArgs));
      var packageSubdir := PackageSubdir(downloadDir, originalName);
      if !world.makeDirs(packageSubdir, attempt) {
        return false;
      }
      var command := Command(packageSubdir, extraArgs, packageSpec);
      var result := world.pip(command, attempt);
      match result {
        case Exited(returnCode, _) =>
          success := returnCode == 0;
        case Raised(_, _) =>
          success := false;
      }
      pipCallTimes := pipCallTimes + [result.elapsed];
    }

    /** The actions on the first successful download of a requirement
        (download_wheels.py:220-252): one install instruction for the
        requirement and its subdirectory, and the copy into the base
        directory when it is enabled. */
    method FirstSuccessActions(packageSpec: string, originalPackageNameOnly: string,
                               downloadDir: string, config: Config)
      modifies this`instructions, this`promotions
      ensures instructions == old(instructions) + InstallOf(packageSpec, originalPackageNameOnly, downloadDir)
      ensures promotions == old(promotions) + PromotionOf(originalPackageNameOnly, downloadDir, config)
    {
      var packageSubdirPath := PackageSubdir(downloadDir, originalPackageNameOnly);
      instructions := instructions + [Install(packageSpec, packageSubdirPath)];
      if config.copyFirstSetToParent {
        promotions := promotions + [Promotion(packageSubdirPath, downloadDir)];
      }
    }

    /** One pass of the attempt loop that does try its strategy
        (download_wheels.py:194-252): the spec handed to pip, the call, the
        success count, and the first-success actions exactly when the count
        becomes 1. `o` is the outcome of the call. */
    method AttemptStrategy(world: World, packageSpec: string, originalPackageNameOnly: string,
                           downloadDir: string, config: Config, attempt: nat, strategy: Strategy,
                           attemptSuccessCount: nat)
      returns (success: bool, newCount: nat, ghost o: Outcome)
      modifies this`pipCallTimes, this`calls, this`instructions, this`promotions
      ensures o == AttemptOutcome(world, SpecForPip(originalPackageNameOnly, packageSpec),
                                  originalPackageNameOnly, downloadDir, attempt, strategy)
      ensures success == Succeeded(o)
      ensures newCount == attemptSuccessCount + (if success then 1 else 0)
      ensures pipCallTimes == old(pipCallTimes) + Times([o])
      ensures calls == old(calls)
                       + [Call(SpecForPip(originalPackageNameOnly, packageSpec), originalPackageNameOnly, attempt, strategy)]
      ensures var first := success && attemptSuccessCount == 0;
        instructions == old(instructions) + (if first then InstallOf(packageSpec, originalPackageNameOnly, downloadDir) else [])
        && promotions == old(promotions) + (if first then PromotionOf(originalPackageNameOnly, downloadDir, config) else [])
    {
      var specForPip := SpecForPip(originalPackageNameOnly, packageSpec);
      o := AttemptOutcome(world, specForPip, originalPackageNameOnly, downloadDir, attempt, strategy);
      success := RunPipDownloadDeps(world, specForPip, originalPackageNameOnly, downloadDir, attempt, strategy);
      newCount := attemptSuccessCount;
      if success {
        newCount := newCount + 1;
        if newCount == 1 {
          FirstSuccessActions(packageSpec, originalPackageNameOnly, downloadDir, config);
        }
      }
    }

    /** `download_package_with_deps` (download_wheels.py:110-269): the bare
        name of the requirement, then the attempt loop. */
    method DownloadPackageWithDeps(world: World, packageSpec: string, downloadDir: string, config: Config)
      returns (downloadSuccess: bool, ghost run: PackageRun)
      modifies this`pipCallTimes, this`calls, this`instructions, this`promotions
      ensures run == PackageRunOf(world, packageSpec, downloadDir, config)
      ensures downloadSuccess == run.success
        && pipCallTimes == old(pipCallTimes) + run.times
        && calls == old(calls) + run.calls
        && instructions == old(instructions) + run.installs
        && promotions == old(promotions) + run.promotions
    {
      var originalPackageNameOnly := BareName(packageSpec);
      downloadSuccess := TryStrategies(world, packageSpec, originalPackageNameOnly, downloadDir, config);
      run := PackageRunOf(world, packageSpec, downloadDir, config);
    }

    /** The strategy list and the attempt loop of download_wheels.py:142-269
        for a requirement whose bare name is `originalPackageNameOnly`: tries
        the strategies in order, all of them or up to the first success. */
    method TryStrategies(world: World, packageSpec: string, originalPackageNameOnly: string,
                         downloadDir: string, config: Config)
      returns (downloadSuccess: bool)
      modifies this`pipCallTimes, this`calls, this`instructions, this`promotions
      ensures var run := NamedRun(world, packageSpec, originalPackageNameOnly, downloadDir, config);
        downloadSuccess == run.success
        && pipCallTimes == old(pipCallTimes) + run.times
        && calls == old(calls) + run.calls
        && instructions == old(instructions) + run.installs
        && promotions == old(promotions) + run.promotions
    {
      var downloadStrategies := BuildStrategies(config.platforms, config.pythonVersions,
                                                config.implementations, config.binaryTypes);
      ghost var tried;
      downloadSuccess, tried := AttemptLoop(world, packageSpec, originalPackageNameOnly, downloadDir, config,
                                            downloadStrategies);
      ghost var specForPip := SpecForPip(originalPackageNameOnly, packageSpec);
      ghost var os := AttemptOutcomes(world, specForPip, originalPackageNameOnly, downloadDir, downloadStrategies);
      assert Attempted(world, specForPip, originalPackageNameOnly, downloadDir, downloadStrategies,
                       tried, old(calls), calls);
      assert Tried(tried, downloadSuccess, InstallOf(packageSpec, originalPackageNameOnly, downloadDir),
                   PromotionOf(originalPackageNameOnly, downloadDir, config), old(State()), State());
      AttemptOutcomesPrefix(world, specForPip, originalPackageNameOnly, downloadDir, downloadStrategies, |tried|);
      StopsWhereRunSays(os, tried, config.downloadAllVersions);
    }

    /** The four logs the downloader writes to. */
    ghost function State(): Logs
      reads this
    {
      Logs(pipCallTimes, calls, instructions, promotions)
    }

    /** The attempt loop of download_wheels.py:191-269 over the given
        strategies. `tried` holds the outcomes of the attempts made: all
        strategies unless the download of all versions is off and an attempt
        succeeded, in which case the loop stops right after the first
        success. */
    method AttemptLoop(world: World, packageSpec: string, originalPackageNameOnly: string,
                       downloadDir: string, config: Config, downloadStrategies: seq<Strategy>)
      returns (downloadSuccess: bool, ghost tried: seq<Outcome>)
      modifies this`pipCallTimes, this`calls, this`instructions, this`promotions
      ensures Attempted(world, SpecForPip(originalPackageNameOnly, packageSpec), originalPackageNameOnly,
                        downloadDir, downloadStrategies, tried, old(calls), calls)
      ensures Tried(tried, downloadSuccess, InstallOf(packageSpec, originalPackageNameOnly, downloadDir),
                    PromotionOf(originalPackageNameOnly, downloadDir, config), old(State()), State())
      ensures config.downloadAllVersions || !downloadSuccess ==> |tried| == |downloadStrategies|
      ensures !config.downloadAllVersions && downloadSuccess ==>
        tried != [] && Succeeded(tried[|tried| - 1]) && !AnySucceeded(tried[..|tried| - 1])
    {
      downloadSuccess := false;
      var attempt := 0;
      var attemptSuccessCount := 0;
      ghost var specForPip := SpecForPip(originalPackageNameOnly, packageSpec);
      ghost var install := InstallOf(packageSpec, originalPackageNameOnly, downloadDir);
      ghost var promotion := PromotionOf(originalPackageNameOnly, downloadDir, config);
      tried := [];
      for k := 0 to |downloadStrategies|
        invariant attempt == k == |tried|
        invariant config.downloadAllVersions || !downloadSuccess
        invariant Attempted(world, specForPip, originalPackageNameOnly, downloadDir, downloadStrategies,
                            tried, old(calls), calls)
        invariant Tried(tried, downloadSuccess, install, promotion, old(State()), State())
        invariant attemptSuccessCount == SuccessCount(tried)
        invariant downloadSuccess == (attemptSuccessCount > 0)
      {
        if !downloadSuccess || config.downloadAllVersions {
          attempt := attempt + 1;
          ghost var before, triedBefore, successBefore, countBefore := State(), tried, downloadSuccess, attemptSuccessCount;
          var success;
          ghost var o;
          success, attemptSuccessCount, o := AttemptStrategy(world, packageSpec, originalPackageNameOnly, downloadDir,
                                                             config, attempt, downloadStrategies[k], attemptSuccessCount);
          NextAttempt(world, specForPip, originalPackageNameOnly, downloadDir, downloadStrategies, attempt,
                      tried, o, old(calls), before.calls, calls);
          TriedStep(tried, successBefore, countBefore, install, promotion, old(State()), before, State(), o, success);
          tried := tried + [o];
          if success {
            downloadSuccess := true;
            if !config.downloadAllVersions {
              assert tried[|tried| - 1] == o && tried[..|tried| - 1] == triedBefore;
              return;
            }
          }
        }
      }
    }

    /** The requirement processing of `main` (download_wheels.py:273-388):
        the timing list starts empty, the valid lines are read, each is
        downloaded in file order and lands in exactly one of the two result
        lists, and the instruction file gets its header, one install line per
        successful requirement and its footer. */
    method ProcessRequirements(world: World, lines: seq<string>, downloadDir: string, config: Config)
      returns (successfulPackages: seq<string>, failedPackages: seq<string>)
      modifies this`pipCallTimes, this`calls, this`instructions, this`promotions
      ensures var valid := ValidLines(lines);
        var runs := RunsOf(world, valid, downloadDir, config);
        successfulPackages == Successful(valid, runs)
        && failedPackages == Failed(valid, runs)
        && pipCallTimes == AllTimes(runs)
        && calls == old(calls) + AllCalls(runs)
        && instructions == [Preamble(downloadDir)] + AllInstalls(runs) + [Closing]
        && promotions == old(promotions) + AllPromotions(runs)
    {
      pipCallTimes := [];
      var validPackageLines := ReadValidLines(lines);
      instructions := [Preamble(downloadDir)];
      successfulPackages := [];
      failedPackages := [];
      ghost var runs: seq<PackageRun> := [];
      for i := 0 to |validPackageLines|
        invariant |runs| == i
        invariant runs == RunsOf(world, validPackageLines[..|runs|], downloadDir, config)
        invariant Processed(validPackageLines, runs, successfulPackages, failedPackages, downloadDir,
                            old(State()), State())
      {
        var packageSpec := validPackageLines[i];
        ghost var before, successfulBefore, failedBefore := State(), successfulPackages, failedPackages;
        var ok;
        ghost var run;
        ok, run := DownloadPackageWithDeps(world, packageSpec, downloadDir, config);
        if ok {
          successfulPackages := successfulPackages + [packageSpec];
        } else {
          failedPackages := failedPackages + [packageSpec];
        }
        RunsOfNext(world, validPackageLines, downloadDir, config, runs, run);
        ProcessedStep(validPackageLines, runs, successfulBefore, failedBefore, downloadDir,
                      old(State()), before, State(), run, ok, successfulPackages, failedPackages);
        runs := runs + [run];
      }
      assert validPackageLines[..|validPackageLines|] == validPackageLines;
      instructions := instructions + [Closing];
    }
  }

  /** Where the attempt loop stops: the outcomes it has seen are the first
      `AttemptsMade` outcomes, and its verdict is the overall one. */
  lemma StopsWhereRunSays(os: seq<Outcome>, tried: seq<Outcome>, downloadAll: bool)
    requires |tried| <= |os| && tried == os[..|tried|]
    requires downloadAll || !AnySucceeded(tried) ==> |tried| == |os|
    requires !downloadAll && AnySucceeded(tried) ==>
      tried != [] && Succeeded(tried[|tried| - 1]) && !AnySucceeded(tried[..|tried| - 1])
    ensures |tried| == AttemptsMade(os, downloadAll)
    ensures AnySucceeded(tried) <==> AnySucceeded(os)
  {
    if !downloadAll && AnySucceeded(tried) {
      FirstSuccessAt(os, |tried| - 1);
      assert os[..|tried| - 1] == tried[..|tried| - 1];
    } else {
      assert tried == os;
    }
    AttemptsMadeKeepVerdict(os, downloadAll);
  }

  /** Every valid requirement lands in exactly one of the two result lists:
      together they hold each requirement as often as the input does. */
  lemma {:induction false} PartitionComplete(reqs: seq<string>, runs: seq<PackageRun>)
    requires |reqs| == |runs|
    ensures multiset(Successful(reqs, runs)) + multiset(Failed(reqs, runs)) == multiset(reqs)
    ensures |Successful(reqs, runs)| + |Failed(reqs, runs)| == |reqs|
  {
    if reqs != [] {
      var n := |reqs| - 1;
      var init, initRuns, last := reqs[..n], runs[..n], reqs[n];
      PartitionComplete(init, initRuns);
      MultisetSnoc(reqs);
      if runs[n].success {
        assert Successful(reqs, runs) == Successful(init, initRuns) + [last];
        assert Failed(reqs, runs) == Failed(init, initRuns);
      } else {
        assert Successful(reqs, runs) == Successful(init, initRuns);
        assert Failed(reqs, runs) == Failed(init, initRuns) + [last];
      }
    }
  }

  /** A requirement is in the successful list exactly when one of its
      occurrences has a successful run. */
  lemma {:induction false} InSuccessful(x: string, reqs: seq<string>, runs: seq<PackageRun>)
    requires |reqs| == |runs|
    ensures x in Successful(reqs, runs) <==> exists j :: 0 <= j < |reqs| && reqs[j] == x && runs[j].success
  {
    if reqs != [] {
      var n := |reqs| - 1;
      var init, initRuns := reqs[..n], runs[..n];
      var tail := if runs[n].success then [reqs[n]] else [];
      assert Successful(reqs, runs) == Successful(init, initRuns) + tail;
      InSuccessful(x, init, initRuns);
      if x in Successful(reqs, runs) {
        if x in Successful(init, initRuns) {
          var j :| 0 <= j < n && init[j] == x && initRuns[j].success;
          assert reqs[j] == x && runs[j].success;
        } else {
          assert x in tail;
          assert reqs[n] == x && runs[n].success;
        }
      }
      if exists j :: 0 <= j < |reqs| && reqs[j] == x && runs[j].success {
        var j :| 0 <= j < |reqs| && reqs[j] == x && runs[j].success;
        if j < n {
          assert init[j] == x && initRuns[j].success;
        } else {
          assert x in tail;
        }
      }
    }
  }

  /** A requirement is in the failed list exactly when one of its
      occurrences has a failed run. */
  lemma {:induction false} InFailed(x: string, reqs: seq<string>, runs: seq<PackageRun>)
    requires |reqs| == |runs|
    ensures x in Failed(reqs, runs) <==> exists j :: 0 <= j < |reqs| && reqs[j] == x && !runs[j].success
  {
    if reqs != [] {
      var n := |reqs| - 1;
      var init, initRuns := reqs[..n], runs[..n];
      var tail := if runs[n].success then [] else [reqs[n]];
      assert Failed(reqs, runs) == Failed(init, initRuns) + tail;
      InFailed(x, init, initRuns);
      if x in Failed(reqs, runs) {
        if x in Failed(init, initRuns) {
          var j :| 0 <= j < n && init[j] == x && !initRuns[j].success;
          assert reqs[j] == x && !runs[j].success;
        } else {
          assert x in tail;
          assert reqs[n] == x && !runs[n].success;
        }
      }
      if exists j :: 0 <= j < |reqs| && reqs[j] == x && !runs[j].success {
        var j :| 0 <= j < |reqs| && reqs[j] == x && !runs[j].success;
        if j < n {
          assert init[j] == x && !initRuns[j].success;
        } else {
          assert x in tail;
        }
      }
    }
  }

  /** The result lists keep file order: those of two consecutive runs of
      requirements are those of the first followed by those of the second. */
  lemma {:induction false} PartitionAppend(a: seq<string>, ra: seq<PackageRun>, b: seq<string>, rb: seq<PackageRun>)
    requires |a| == |ra| && |b| == |rb|
    ensures Successful(a + b, ra + rb) == Successful(a, ra) + Successful(b, rb)
    ensures Failed(a + b, ra + rb) == Failed(a, ra) + Failed(b, rb)
    decreases |b|
  {
    if b == [] {
      assert a + b == a && ra + rb == ra;
    } else {
      var n := |b| - 1;
      PartitionAppend(a, ra, b[..n], rb[..n]);
      assert (a + b)[..|a + b| - 1] == a + b[..n];
      assert (ra + rb)[..|ra + rb| - 1] == ra + rb[..n];
      var s := if rb[n].success then [b[n]] else [];
      var f := if rb[n].success then [] else [b[n]];
      assert Successful(a, ra) + Successful(b[..n], rb[..n]) + s == Successful(a, ra) + (Successful(b[..n], rb[..n]) + s);
      assert Failed(a, ra) + Failed(b[..n], rb[..n]) + f == Failed(a, ra) + (Failed(b[..n], rb[..n]) + f);
    }
  }

  /** `main` reports a valid requirement as successful exactly when its own
      attempt loop succeeds, and as failed exactly when it does not; lines
      that are not valid requirements are in neither list. */
  lemma ReportedByVerdict(world: World, lines: seq<string>, downloadDir: string, config: Config, x: string)
    ensures var valid := ValidLines(lines);
      var runs := RunsOf(world, valid, downloadDir, config);
      (x in Successful(valid, runs) <==> x in valid && PackageRunOf(world, x, downloadDir, config).success)
      && (x in Failed(valid, runs) <==> x in valid && !PackageRunOf(world, x, downloadDir, config).success)
  {
    var valid := ValidLines(lines);
    var runs := RunsOf(world, valid, downloadDir, config);
    InSuccessful(x, valid, runs);
    InFailed(x, valid, runs);
    if x in valid {
      var j :| 0 <= j < |valid| && valid[j] == x;
      RunsOfAt(world, valid, downloadDir, config, j);
    }
    forall j | 0 <= j < |valid| && valid[j] == x
      ensures runs[j] == PackageRunOf(world, x, downloadDir, config)
    {
      RunsOfAt(world, valid, downloadDir, config, j);
    }
  }

  /** The calls of the attempt loop (download_wheels.py:191-213): attempt
      `j + 1` hands strategy `j` to `run_pip_download_deps`, together with
      the spec for pip and the bare name; no strategy is tried twice. */
  lemma RunCalls(world: World, packageSpec: string, name: string, downloadDir: string, config: Config)
    ensures var run := NamedRun(world, packageSpec, name, downloadDir, config);
      var strategies := StrategiesOf(config);
      |run.calls| <= |strategies|
      && forall j :: 0 <= j < |run.calls| ==>
           run.calls[j] == Call(SpecForPip(name, packageSpec), name, j + 1, strategies[j])
  {
  }

  /** The verdict of the attempt loop: it succeeds exactly when some
      strategy, tried as its attempt, would succeed. */
  lemma RunVerdict(world: World, packageSpec: string, name: string, downloadDir: string, config: Config)
    ensures var strategies := StrategiesOf(config);
      NamedRun(world, packageSpec, name, downloadDir, config).success
      <==> exists j :: 0 <= j < |strategies|
             && Succeeded(AttemptOutcome(world, SpecForPip(name, packageSpec), name, downloadDir, j + 1, strategies[j]))
  {
    var specForPip := SpecForPip(name, packageSpec);
    var strategies := StrategiesOf(config);
    var os := AttemptOutcomes(world, specForPip, name, downloadDir, strategies);
    forall j | 0 <= j < |strategies|
      ensures os[j] == AttemptOutcome(world, specForPip, name, downloadDir, j + 1, strategies[j])
    {
      AttemptOutcomesAt(world, specForPip, name, downloadDir, strategies, j);
    }
  }

  /** The continuation policy (download_wheels.py:191-193, 254-257): every
      strategy is tried when all versions are wanted or nothing succeeds;
      otherwise the loop stops right after the first success. */
  lemma RunStops(world: World, packageSpec: string, name: string, downloadDir: string, config: Config)
    ensures var run := NamedRun(world, packageSpec, name, downloadDir, config);
      var specForPip := SpecForPip(name, packageSpec);
      var strategies := StrategiesOf(config);
      var n := |run.calls|;
      (config.downloadAllVersions || !run.success ==> n == |strategies|)
      && (!config.downloadAllVersions && run.success ==>
            0 < n <= |strategies|
            && Succeeded(AttemptOutcome(world, specForPip, name, downloadDir, n, strategies[n - 1]))
            && forall j :: 0 <= j < n - 1 ==>
                 !Succeeded(AttemptOutcome(world, specForPip, name, downloadDir, j + 1, strategies[j])))
  {
    var specForPip := SpecForPip(name, packageSpec);
    var strategies := StrategiesOf(config);
    var os := AttemptOutcomes(world, specForPip, name, downloadDir, strategies);
    forall j | 0 <= j < |strategies|
      ensures os[j] == AttemptOutcome(world, specForPip, name, downloadDir, j + 1, strategies[j])
    {
      AttemptOutcomesAt(world, specForPip, name, downloadDir, strategies, j);
    }
  }

  /** When every subdirectory can be created and all versions are wanted,
      each strategy leads to exactly one pip call and one recorded duration. */
  lemma DirsAlwaysMadeRun(world: World, packageSpec: string, name: string, downloadDir: string, config: Config)
    requires config.downloadAllVersions
    requires forall path, attempt :: world.makeDirs(path, attempt)
    ensures var run := NamedRun(world, packageSpec, name, downloadDir, config);
      |run.calls| == |StrategiesOf(config)| && |run.times| == |StrategiesOf(config)|
  {
    var specForPip := SpecForPip(name, packageSpec);
    var strategies := StrategiesOf(config);
    var os := AttemptOutcomes(world, specForPip, name, downloadDir, strategies);
    forall j | 0 <= j < |os| ensures os[j].Invoked? {
      AttemptOutcomesAt(world, specForPip, name, downloadDir, strategies, j);
    }
    assert os[..|os|] == os;
  }

  /** With the settings of the script, a requirement whose subdirectory can
      always be created makes one pip call per generated strategy, 43 in
      all, and records 43 durations, whatever pip answers. */
  lemma ScriptRunCalls(world: World, packageSpec: string, downloadDir: string)
    requires forall path, attempt :: world.makeDirs(path, attempt)
    ensures var run := PackageRunOf(world, packageSpec, downloadDir, SCRIPT_CONFIG);
      |run.calls| == 43 && |run.times| == 43
  {
    ScriptStrategyCount();
    DirsAlwaysMadeRun(world, packageSpec, BareName(packageSpec), downloadDir, SCRIPT_CONFIG);
  }

  /** The install instruction of a successful requirement points at the very
      directory every attempt hands pip as `--dest`
      (download_wheels.py:50-52, 65, 224-229). */
  lemma InstallIsDest(world: World, packageSpec: string, name: string, downloadDir: string, config: Config, j: nat)
    requires j < |StrategiesOf(config)|
    ensures var run := NamedRun(world, packageSpec, name, downloadDir, config);
      var strategies := StrategiesOf(config);
      var cmd := Command(PackageSubdir(downloadDir, name), strategies[j], SpecForPip(name, packageSpec));
      run.success ==> |run.installs| == 1 && run.installs[0].subdir == cmd[3]
  {
    var strategies := StrategiesOf(config);
    CommandParts(PackageSubdir(downloadDir, name), strategies[j], SpecForPip(name, packageSpec));
  }
}
