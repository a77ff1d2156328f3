/** The compile stage's decisions and counting: which execution strategy
    runs the batch, how many pool workers it gets, and how many commands
    succeeded. The compiler run itself is an abstract function from a
    command to its outcome. */
module CompileBatch {

  /** The outcome of one compiler run; only success is distinguished. */
  datatype ProcessState = Success | Failure

  /** How `try_compile` runs a batch. */
  datatype Strategy = Idle | Sequential | Pooled(workers: int)

  /** `try_compile`'s choice: one at a time when parallelism is switched off
      or there is a single command; otherwise a pool of
      `min(commands, worker limit)` workers when there is any command; no
      run at all otherwise. */
  function ChooseStrategy(noParallel: bool, commandCount: nat, workerLimit: int): (s: Strategy)
    ensures s.Sequential? <==> noParallel || commandCount == 1
    ensures s.Pooled? <==> !noParallel && commandCount > 1
    ensures s.Idle? <==> !noParallel && commandCount == 0
    ensures s.Pooled? ==> s.workers <= commandCount && s.workers <= workerLimit
    ensures s.Pooled? ==> s.workers == commandCount || s.workers == workerLimit
  {
    if noParallel || commandCount == 1 then Sequential
    else if commandCount > 0 then Pooled(if commandCount < workerLimit then commandCount else workerLimit)
    else Idle
  }

  /** Successful commands when each command is run in order (the
      sequential loop). */
  function CountSuccesses(commands: seq<string>, run: string -> ProcessState): (n: nat)
    ensures n <= |commands|
  {
    if commands == [] then 0
    else CountSuccesses(commands[..|commands| - 1], run)
         + (if run(commands[|commands| - 1]) == Success then 1 else 0)
  }

  /** Successful outcomes in a list of outcomes (the pooled loop over
      `pool.imap`). */
  function CountOutcomes(states: seq<ProcessState>): (n: nat)
    ensures n <= |states|
  {
    if states == [] then 0
    else CountOutcomes(states[..|states| - 1]) + (if states[|states| - 1] == Success then 1 else 0)
  }

  /** The outcomes the pool yields: one per command, in command order. */
  function Outcomes(commands: seq<string>, run: string -> ProcessState): (r: seq<ProcessState>)
    ensures |r| == |commands|
    ensures forall i :: 0 <= i < |commands| ==> r[i] == run(commands[i])
  {
    seq(|commands|, i requires 0 <= i < |commands| => run(commands[i]))
  }

  /** The pooled loop counts what the sequential loop counts. */
  lemma {:induction false} PooledMatchesSequential(commands: seq<string>, run: string -> ProcessState)
    ensures CountOutcomes(Outcomes(commands, run)) == CountSuccesses(commands, run)
  {
    if commands != [] {
      var init := commands[..|commands| - 1];
      PooledMatchesSequential(init, run);
      assert Outcomes(commands, run)[..|commands| - 1] == Outcomes(init, run);
    }
  }

  /** The count is the number of `Success` entries, whatever their order. */
  lemma {:induction false} CountIsMultiplicity(states: seq<ProcessState>)
    ensures CountOutcomes(states) == multiset(states)[Success]
  {
    if states != [] {
      var init := states[..|states| - 1];
      CountIsMultiplicity(init);
      assert states == init + [states[|states| - 1]];
      assert multiset(states) == multiset(init) + multiset{states[|states| - 1]};
    }
  }

  /** Completion order does not matter: any reordering of the outcomes
      gives the same count. */
  lemma CountOrderIndependent(a: seq<ProcessState>, b: seq<ProcessState>)
    requires multiset(a) == multiset(b)
    ensures CountOutcomes(a) == CountOutcomes(b)
  {
    CountIsMultiplicity(a);
    CountIsMultiplicity(b);
  }

  /** The end-to-end scenario: three commands, the second fails, worker
      limit 2: two workers, two successes, one failure. */
  lemma ThreeCommandsOneFailing(run: string -> ProcessState)
    requires run("A") == Success && run("B") == Failure && run("C") == Success
    ensures ChooseStrategy(false, 3, 2) == Pooled(2)
    ensures CountSuccesses(["A", "B", "C"], run) == 2
  {
    assert ["A", "B", "C"][..2] == ["A", "B"];
    assert ["A", "B"][..1] == ["A"];
    assert ["A"][..0] == [];
  }
}
