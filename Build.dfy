/** The build orchestrator (`BuildFacade`): construction (option
    resolution, log rotation), the compile stage with its counters, the
    incremental analysis it runs for the anonymize stage, and the anonymize
    stage's gating and file selection. File-system facts, the compiler,
    the resolvers and the anonymizer are parameters. */
module Build {
  import opened Wrappers
  import opened Sequences
  import opened Text
  import opened Performance
  import opened OptionFilter
  import opened LogRotation
  import opened Staleness
  import opened CompileBatch

  /** The parts of a resolved project the orchestrator reads. The options
      object is its attribute dictionary: its keys in iteration order and
      the value of each. */
  datatype Project = Project(
    pscPaths: seq<string>,
    pexPaths: seq<string>,
    missingScripts: seq<string>,
    optionKeys: seq<string>,
    optionValues: map<string, OptionValue>)
  {
    /** A dictionary lists each of its keys once. */
    predicate WellFormed() {
      NoDups(optionKeys) && optionValues.Keys == set k | k in optionKeys
    }
  }

  /** `options.log_path` when it is a non-empty path. */
  function LogDir(options: map<string, OptionValue>): (r: Option<string>)
    ensures r.Some? ==> "log_path" in options && options["log_path"] == OptStr(r.value) && r.value != ""
    ensures r.None? ==> "log_path" !in options || !Truthy(options["log_path"]) || !options["log_path"].OptStr?
  {
    if "log_path" in options && options["log_path"].OptStr? && options["log_path"].str != ""
    then Some(options["log_path"].str) else None
  }

  function NoParallel(options: map<string, OptionValue>): bool {
    "no_parallel" in options && Truthy(options["no_parallel"])
  }

  function NoIncrementalBuild(options: map<string, OptionValue>): bool {
    "no_incremental_build" in options && Truthy(options["no_incremental_build"])
  }

  /** `options.worker_limit` when it is an integer; 0 otherwise. */
  function WorkerLimit(options: map<string, OptionValue>): int {
    if "worker_limit" in options && options["worker_limit"].OptInt? then options["worker_limit"].num else 0
  }

  /** The number of old logs the constructor asks rotation to keep. */
  const StartupKeepCount := 5

  class BuildFacade {
    const ppj: Project
    /** The options after construction-time resolution. */
    var options: map<string, OptionValue>
    var scriptsCount: int
    var successCount: int
    var commandCount: int
    /** The log files whose deletion construction attempted, and those refused. */
    var rotatedLogs: seq<string>
    var refusedLogs: seq<string>

    /** `__init__`: count the scripts, re-resolve the filtered options in
        dictionary order, then rotate the logs when a log path is set. */
    constructor (ppj: Project, resolver: (string, map<string, OptionValue>) -> OptionValue,
                 logListing: Option<seq<string>>, removable: string -> bool)
      requires ppj.WellFormed()
      ensures this.ppj == ppj
      ensures scriptsCount == |ppj.pscPaths| && successCount == 0 && commandCount == 0
      ensures options == ResolveFold(ppj.optionKeys, ppj.optionValues, resolver)
      ensures options.Keys == ppj.optionValues.Keys
      ensures rotatedLogs == match LogDir(options)
                             case None => []
                             case Some(dir) => LogsToRemove(dir, logListing, StartupKeepCount)
      ensures refusedLogs == Rejected(rotatedLogs, removable)
    {
      this.ppj := ppj;
      scriptsCount := |ppj.pscPaths|;
      successCount, commandCount := 0, 0;
      var resolved := ResolveOptions(ppj.optionKeys, ppj.optionValues, resolver);
      ResolveKeepsKeys(ppj.optionKeys, ppj.optionValues, resolver);
      options := resolved;
      match LogDir(resolved)
      case None =>
        rotatedLogs, refusedLogs := [], [];
      case Some(dir) =>
        var attempted, refused := RotateLogs(dir, logListing, StartupKeepCount, removable);
        rotatedLogs, refusedLogs := attempted, refused;
    }

    /** `failed_count`: commands run minus commands that succeeded. */
    function FailedCount(): (r: int)
      reads this
      ensures r + successCount == commandCount
    {
      commandCount - successCount
    }

    /** `build_time`: the summary line under the `Compilation time: `
        heading, reporting the succeeded, failed and script counts. */
    function BuildTime(rawTime: string, avgTime: string): (r: string)
      reads this
      ensures StartsWith(r, "Compilation time: ")
      ensures ParseSummaryCounts(r) == Some(Counts(successCount, FailedCount(), scriptsCount))
    {
      var succeeded, failed, scripts := successCount, FailedCount(), scriptsCount;
      SummaryRoundTrip("Compilation time: ", rawTime, avgTime, succeeded, failed, scripts);
      SummaryStartsWithHeading("Compilation time: ", rawTime, avgTime, succeeded, failed, scripts);
      Summary("Compilation time: ", rawTime, avgTime, succeeded, failed, scripts)
    }

    /** `_find_modified_scripts`: the compiled files that are up to date,
        each once, in first-seen order. */
    method FindModifiedScripts(fs: FileSystem) returns (result: seq<string>)
      ensures result == ModifiedScripts(ppj.pscPaths, ppj.pexPaths, fs)
    {
      var found: seq<string> := [];
      var pscPaths, pexPaths := ppj.pscPaths, ppj.pexPaths;
      for i := 0 to |pscPaths|
        invariant found == Candidates(pscPaths[..i], pexPaths, fs)
      {
        var psc := pscPaths[i];
        assert pscPaths[..i + 1] == pscPaths[..i] + [psc];
        CandidatesAppend(pscPaths[..i], psc, pexPaths, fs);
        var contribution := ScriptContribution(psc, pexPaths, fs);
        if contribution.Some? {
          found := found + [contribution.value];
        }
      }
      assert pscPaths[..|pscPaths|] == pscPaths;
      result := Uniqify(found);
    }

    /** `try_compile`: runs every command, sequentially or through a pool,
        and counts the successes. A failure never stops the batch. */
    method TryCompile(commands: seq<string>, run: string -> ProcessState)
      returns (strategy: Strategy)
      requires !NoParallel(options) && |commands| > 1 ==> WorkerLimit(options) >= 1
      modifies this`commandCount, this`successCount
      ensures commandCount == |commands|
      ensures successCount == old(successCount) + CountSuccesses(commands, run)
      ensures strategy == ChooseStrategy(NoParallel(options), |commands|, WorkerLimit(options))
      ensures strategy.Pooled? ==> 1 <= strategy.workers <= |commands|
      ensures old(successCount) == 0 ==> successCount <= commandCount && FailedCount() >= 0
    {
      commandCount := |commands|;
      if NoParallel(options) || commandCount == 1 {
        strategy := Sequential;
        for i := 0 to |commands|
          invariant successCount == old(successCount) + CountSuccesses(commands[..i], run)
          invariant commandCount == |commands|
        {
          assert commands[..i + 1][..i] == commands[..i];
          if run(commands[i]) == Success {
            successCount := successCount + 1;
          }
        }
        assert commands[..|commands|] == commands;
      } else if commandCount > 0 {
        var limit := WorkerLimit(options);
        var workers := if commandCount < limit then commandCount else limit;
        strategy := Pooled(workers);
        var states := Outcomes(commands, run);
        for i := 0 to |states|
          invariant successCount == old(successCount) + CountOutcomes(states[..i])
          invariant commandCount == |commands|
        {
          assert states[..i + 1][..i] == states[..i];
          if states[i] == Success {
            successCount := successCount + 1;
          }
        }
        assert states[..|states|] == states;
        PooledMatchesSequential(commands, run);
      } else {
        strategy := Idle;
      }
    }

    /** `try_anonymize`: skipped when no compiled file is up to date, no
        script is missing and incremental building is on; otherwise every
        known compiled path that exists is handed to the anonymizer, in
        order, and each one that does not is reported. */
    method TryAnonymize(fs: FileSystem) returns (skipped: bool, anonymized: seq<string>, notFound: seq<string>)
      ensures skipped <==> ModifiedScripts(ppj.pscPaths, ppj.pexPaths, fs) == []
                           && ppj.missingScripts == [] && !NoIncrementalBuild(options)
      ensures anonymized == if skipped then [] else Filter(ppj.pexPaths, fs.isFile)
      ensures notFound == if skipped then [] else Rejected(ppj.pexPaths, fs.isFile)
      ensures !skipped ==> forall pex :: pex in ppj.pexPaths ==> (pex in anonymized <==> fs.isFile(pex))
    {
      var scripts := FindModifiedScripts(fs);
      if scripts == [] && ppj.missingScripts == [] && !NoIncrementalBuild(options) {
        skipped, anonymized, notFound := true, [], [];
      } else {
        skipped := false;
        anonymized, notFound := AnonymizeExisting(ppj.pexPaths, fs.isFile);
      }
    }
  }

  /** One pass of the analysis loop: the compiled file a source script
      adds, skipping (None) when no listed path matches its name, the file
      is missing or its header does not read, and adding it only when the
      source is strictly older than the compile time. */
  method ScriptContribution(psc: string, pexPaths: seq<string>, fs: FileSystem) returns (r: Option<string>)
    ensures r == Contribution(psc, pexPaths, fs)
  {
    var scriptName := ScriptName(psc);
    var pexMatch := FirstEndingWith(pexPaths, scriptName + ".pex");
    if pexMatch.None? {
      return None;
    }
    var pex := pexMatch.value;
    if !fs.isFile(pex) {
      return None;
    }
    var header := fs.compileTime(pex);
    if header.None? {
      return None;
    }
    r := if fs.modifiedTime(psc) < header.value as real then Some(pex) else None;
  }

  /** The anonymize loop: each compiled path that exists is handed to the
      anonymizer, in order; each one that does not is reported and skipped. */
  method AnonymizeExisting(pexPaths: seq<string>, isFile: string -> bool)
    returns (anonymized: seq<string>, notFound: seq<string>)
    ensures anonymized == Filter(pexPaths, isFile)
    ensures notFound == Rejected(pexPaths, isFile)
  {
    anonymized, notFound := [], [];
    for i := 0 to |pexPaths|
      invariant anonymized == Filter(pexPaths[..i], isFile)
      invariant notFound == Rejected(pexPaths[..i], isFile)
    {
      var pex := pexPaths[i];
      assert pexPaths[..i + 1] == pexPaths[..i] + [pex];
      FilterAppend(pexPaths[..i], pex, isFile);
      if !isFile(pex) {
        notFound := notFound + [pex];
        continue;
      }
      anonymized := anonymized + [pex];
    }
    assert pexPaths[..|pexPaths|] == pexPaths;
  }
}
