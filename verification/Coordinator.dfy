/** Whole migration runs, one after the other, over the same blueprints and dogus: what a run leaves
    behind when it fails or panics is put right by a later one. */
module Coordinator {
  import opened Kubernetes
  import opened MigrationSaga
  import BlueprintControl
  import DoguControl

  /** The cluster at the moment the job starts. */
  datatype Snapshot = Snapshot(flags: map<string, Option<bool>>, world: DoguControl.World)

  /** Step `s` was called, and succeeded or not; steps about blueprints and dogus do not panic. */
  ghost function Outcome(results: Step -> StepResult, s: Step, ok: bool): (r: Step -> StepResult)
    ensures r(s) == if ok then Success else Failure
    ensures forall t | t != s :: r(t) == results(t)
  {
    (t: Step) => if t != s then results(t) else if ok then Success else Failure
  }

  /** A run depends on the results of the main steps only. */
  lemma RunOfAgrees(final: bool, r: Step -> StepResult, q: Step -> StepResult, executed: seq<Step>, main: MainOutcome)
    requires RunOf(MainSteps(final), r, executed, main)
    requires forall s | s !in {StartDogus, StartBlueprint} :: r(s) == q(s)
    ensures RunOf(MainSteps(final), q, executed, main)
  {
    NoCleanupBefore(final, r, executed, main);
  }

  lemma OneMore(final: bool, results: Step -> StepResult, n: nat)
    requires n < |MainSteps(final)| && SucceededUpTo(MainSteps(final), results, n)
    ensures results(MainSteps(final)[n]) == Success ==> SucceededUpTo(MainSteps(final), results, n + 1)
  {
  }

  /** The blueprints cannot be stopped after the four steps before succeeded. */
  lemma BlueprintsFail(final: bool, before: Step -> StepResult) returns (executed: seq<Step>)
    requires SucceededUpTo(MainSteps(final), before, 4)
    ensures RunOf(MainSteps(final), Outcome(before, StopBlueprint, false), executed, FailedAt(StopBlueprint)) && RunJob !in executed
  {
    MainStepsAre(final);
    executed := MainSteps(final)[..5];
    EndsAfter(final, Outcome(before, StopBlueprint, false), 4);
  }

  lemma BlueprintsSucceed(final: bool, before: Step -> StepResult)
    requires SucceededUpTo(MainSteps(final), before, 4)
    ensures |MainSteps(final)| >= 5 && SucceededUpTo(MainSteps(final), Outcome(before, StopBlueprint, true), 5)
  {
    MainStepsAre(final);
  }

  /** What happens to the dogus does not change the six steps before. */
  lemma BeforeTheDogus(final: bool, before: Step -> StepResult, ok: bool)
    requires SucceededUpTo(MainSteps(final), before, 6)
    ensures SucceededUpTo(MainSteps(final), Outcome(before, StopDogus, ok), 6)
  {
    MainStepsAre(final);
  }

  /** The first `n` main steps succeeded and the next one did not. */
  lemma EndsAfter(final: bool, results: Step -> StepResult, n: nat)
    requires n < |MainSteps(final)| && SucceededUpTo(MainSteps(final), results, n)
    requires results(MainSteps(final)[n]) != Success
    ensures var s := MainSteps(final);
            && RunOf(s, results, s[..n + 1], Ended(results(s[n]), s[n]))
            && (RunJob in s[..n + 1] <==> n + 1 == |s|)
  {
    MainStepsAre(final);
    var s := MainSteps(final);
    assert RunJob in s[..n + 1] ==> exists i | 0 <= i < n + 1 :: s[i] == RunJob;
    assert s[..|s|] == s;
  }

  /** What a run returns, as the cleanup puts it together when it is not ended by a panic. */
  lemma ReturnedIs(final: bool, main: MainOutcome, results: Step -> StepResult, retError: seq<Step>)
    requires forall s | s in CleanupSteps(final, main) :: results(s) != Panic
    requires retError == RunError(main) +
               if results(SendMail) != Success then [SendMail]
               else if results(StartBlueprint) != Success then [StartBlueprint]
               else if results(StartDogus) != Success then [StartDogus]
               else if final && !main.Completed? && results(DisableMaintenance) != Success then [DisableMaintenance]
               else []
    ensures ReturnOf(final, main, results) == if main.PanickedAt? then Rethrown(main.step) else Returned(retError)
    ensures retError == [] ==> main == Completed || main.PanickedAt?
    ensures retError == [] ==> results(StartDogus) == Success && results(StartBlueprint) == Success
  {
    NoPanic(CleanupSteps(final, main), results);
    LastCleanupFailure(final, main, results);
  }

  /** Switching off the maintenance mode or sending the mail may panic. */
  lemma PanicReturns(final: bool, main: MainOutcome, results: Step -> StepResult, s: Step)
    requires results(s) == Panic
    requires || (s == DisableMaintenance && final && !main.Completed?)
             || (s == SendMail && forall t | t in CleanupSteps(final, main) && t != SendMail :: results(t) != Panic)
    ensures ReturnOf(final, main, results) == Rethrown(s)
  {
    var c := CleanupSteps(final, main);
    PanicAt(c, results, if s == DisableMaintenance then 0 else |c| - 1);
  }

  lemma CalmBeforeMail(final: bool, main: MainOutcome, results: Step -> StepResult)
    requires results(StartDogus) != Panic && results(StartBlueprint) != Panic
    requires final && !main.Completed? ==> results(DisableMaintenance) != Panic
    ensures forall s | s in CleanupSteps(final, main) && s != SendMail :: results(s) != Panic
    ensures results(SendMail) != Panic ==> forall s | s in CleanupSteps(final, main) :: results(s) != Panic
  {
  }

  lemma AllDone(final: bool, results: Step -> StepResult)
    requires SucceededUpTo(MainSteps(final), results, |MainSteps(final)|)
    ensures RunOf(MainSteps(final), results, MainSteps(final), Completed) && RunJob in MainSteps(final)
  {
    MainStepsAre(final);
  }

  /** The maintenance mode has to be switched off, and that panics: nothing is started again. */
  predicate DisablePanics(final: bool, main: MainOutcome, answers: Step -> StepResult) {
    final && !main.Completed? && answers(DisableMaintenance) == Panic
  }

  class Coordinator {
    const blueprints: BlueprintControl.Control
    const dogus: DoguControl.Control
    /** The outcome of every step that is not about blueprints or dogus, per run. */
    const answers: nat -> Step -> StepResult
    var runs: nat

    constructor (blueprints: BlueprintControl.Control, dogus: DoguControl.Control, answers: nat -> Step -> StepResult)
      ensures this.blueprints == blueprints && this.dogus == dogus && this.answers == answers && runs == 0
    {
      this.blueprints, this.dogus, this.answers, runs := blueprints, dogus, answers, 0;
    }

    /** Blueprint and dogu clients fail independently. */
    predicate Wired() {
      blueprints.cli.net != dogus.cluster.net
    }

    /** No blueprint is active, and every dogu is stopped and has no active pod. */
    ghost predicate AtRest(s: Snapshot) {
      && (forall b | b in s.flags :: s.flags[b] == Some(true))
      && (forall d | d in s.world.dogus :: dogus.AtRest(s.world, s.world.dogus[d].spec))
      && (dogus.NamesMatch(s.world) ==>
            dogus.PodsAreDone(s.world) && forall d | d in s.world.dogus :: s.world.dogus[d].stopped)
    }

    /** Every dogu has a qualified name and is started. */
    ghost predicate DogusStarted()
      reads dogus.cluster
    {
      var w := dogus.cluster.world;
      && (forall d | d in w.dogus :: dogus.FlagIs(w, w.dogus[d].spec, false))
      && (dogus.NamesMatch(w) ==> forall d | d in w.dogus :: !w.dogus[d].stopped)
    }

    /** Nothing is noted down, and exactly the lost blueprints are not as their owner wants them. */
    ghost predicate BlueprintsRestored()
      reads blueprints, blueprints.cli
    {
      && blueprints.stoppedBlueprints == []
      && forall b | b in blueprints.cli.flags :: b in blueprints.original
           && ((blueprints.cli.flags[b] == Some(true) <==> blueprints.original[b]) <==> b !in blueprints.lost)
    }

    /** The first steps only ask and compare. */
    method Check(run: nat, ghost final: bool) returns (main: MainOutcome, ghost executed: seq<Step>)
      ensures main.Completed? ==> SucceededUpTo(MainSteps(final), answers(run), 4)
      ensures !main.Completed? ==> RunOf(MainSteps(final), answers(run), executed, main) && RunJob !in executed
    {
      var early := [ValidateExportMode, GetExporterInfo, GetImporterInfo, ValidateSystemInfo];
      ghost var steps := MainSteps(final);
      assert steps[..4] == early;
      for i := 0 to |early|
        invariant forall k | 0 <= k < i :: answers(run)(steps[k]) == Success
      {
        assert steps[i] == steps[..4][i];
        if answers(run)(early[i]) != Success {
          EndsAfter(final, answers(run), i);
          return Ended(answers(run)(early[i]), early[i]), steps[..i + 1];
        }
      }
      return Completed, steps[..4];
    }

    /** From the resizing on; the blueprints are not touched any more. */
    method StopDogusAndRun(final: bool, run: nat, ghost before: Step -> StepResult)
      returns (main: MainOutcome, ghost results: Step -> StepResult, ghost executed: seq<Step>, ghost atJob: Option<Snapshot>)
      requires SucceededUpTo(MainSteps(final), before, 5)
      requires forall s | s !in {StopBlueprint, StopDogus} :: before(s) == answers(run)(s)
      requires forall b | b in blueprints.cli.flags :: blueprints.cli.flags[b] == Some(true)
      modifies dogus.cluster`world, dogus.cluster.net
      ensures RunOf(MainSteps(final), results, executed, main)
      ensures forall s | s != StopDogus :: results(s) == before(s)
      ensures atJob.Some? <==> RunJob in executed
      ensures atJob.Some? ==> AtRest(atJob.value) && atJob.value.world == dogus.cluster.world
      ensures old(dogus.NamesMatch(dogus.cluster.world)) ==> dogus.NamesMatch(dogus.cluster.world)
    {
      MainStepsAre(final);
      ghost var steps := MainSteps(final);
      hide RunOf, MainSteps, AtRest, SucceededUpTo, Outcome;
      hide DoguControl.Control.AtRest, DoguControl.Control.Covers, DoguControl.Control.Unreachable, DoguControl.Control.StillActive;
      results := before;
      OneMore(final, results, 5);
      if answers(run)(ResizeVolumes) != Success {
        EndsAfter(final, results, 5);
        return Ended(answers(run)(ResizeVolumes), ResizeVolumes), results, steps[..6], None;
      }
      var dogusStopped, listed := dogus.StopAll();
      results := Outcome(before, StopDogus, dogusStopped);
      BeforeTheDogus(final, before, dogusStopped);
      OneMore(final, results, 6);
      if !dogusStopped {
        EndsAfter(final, results, 6);
        return FailedAt(StopDogus), results, steps[..7], None;
      }
      OneMore(final, results, 7);
      if final && answers(run)(EnableMaintenance) != Success {
        EndsAfter(final, results, 7);
        return Ended(answers(run)(EnableMaintenance), EnableMaintenance), results, steps[..8], None;
      }
      atJob := Some(Snapshot(blueprints.cli.flags, dogus.cluster.world));
      ReadyForJob(atJob.value, listed);
      assert steps[..|steps|] == steps;
      OneMore(final, results, |steps| - 1);
      if answers(run)(RunJob) != Success {
        EndsAfter(final, results, |steps| - 1);
        return Ended(answers(run)(RunJob), RunJob), results, steps, atJob;
      }
      AllDone(final, results);
      return Completed, results, steps, atJob;
    }

    /** The steps up to and including the job. `results` is how each of them ended. */
    method RunSteps(final: bool, run: nat)
      returns (main: MainOutcome, ghost results: Step -> StepResult, ghost executed: seq<Step>, ghost atJob: Option<Snapshot>)
      requires blueprints.Valid() && Wired()
      modifies blueprints, blueprints.cli`flags, blueprints.cli.net, dogus.cluster`world, dogus.cluster.net
      ensures blueprints.Valid()
      ensures BlueprintControl.FailuresAreClean(blueprints.cli.net.faults) ==> blueprints.lost == old(blueprints.lost)
      ensures old(BlueprintControl.Undisturbed(blueprints.cli)) ==> BlueprintControl.Undisturbed(blueprints.cli)
      ensures RunOf(MainSteps(final), results, executed, main)
      ensures forall s | s !in {StopBlueprint, StopDogus} :: results(s) == answers(run)(s)
      ensures atJob.Some? <==> RunJob in executed
      ensures atJob.Some? ==> AtRest(atJob.value) && atJob.value.world == dogus.cluster.world
      ensures old(dogus.NamesMatch(dogus.cluster.world)) ==> dogus.NamesMatch(dogus.cluster.world)
    {
      assert blueprints.cli.net != dogus.cluster.net;
      hide *;
      results, atJob := answers(run), None;
      main, executed := Check(run, final);
      if !main.Completed? {
        return;
      }
      var failed := blueprints.StopBlueprint();
      results := Outcome(answers(run), StopBlueprint, failed.None?);
      if failed.Some? {
        executed := BlueprintsFail(final, answers(run));
        main := FailedAt(StopBlueprint);
        return;
      }
      BlueprintsSucceed(final, answers(run));
      main, results, executed, atJob := StopDogusAndRun(final, run, results);
    }

    lemma ReadyForJob(s: Snapshot, listed: set<string>)
      requires forall b | b in s.flags :: s.flags[b] == Some(true)
      requires dogus.Covers(s.world, listed) && forall spec | spec in listed :: dogus.AtRest(s.world, spec)
      ensures AtRest(s)
    {
      if dogus.NamesMatch(s.world) {
        dogus.ListedMeansPresent(s.world, listed);
        dogus.DoneIff(s.world);
      }
    }

    /** The part of the cleanup that starts dogus and blueprints: both, whatever the first one reports. */
    method StartAgain() returns (dogusStarted: bool, blueprintsStarted: bool)
      requires blueprints.Valid() && Wired()
      modifies blueprints, blueprints.cli`flags, blueprints.cli.net, dogus.cluster`world, dogus.cluster.net
      ensures blueprints.Valid() && blueprints.lost == old(blueprints.lost)
      ensures old(BlueprintControl.Undisturbed(blueprints.cli)) ==> BlueprintControl.Undisturbed(blueprints.cli) && blueprintsStarted
      ensures dogusStarted ==> DogusStarted()
      ensures old(dogus.NamesMatch(dogus.cluster.world)) ==> dogus.NamesMatch(dogus.cluster.world)
      ensures blueprintsStarted ==> BlueprintsRestored()
      ensures old(BlueprintControl.Undisturbed(blueprints.cli)) ==> blueprints.cli.flags.Keys == old(blueprints.cli.flags).Keys
    {
      ghost var listed;
      dogusStarted, listed := dogus.StartAll();
      var failed := blueprints.StartBlueprint();
      blueprintsStarted := failed.None?;
    }

    /** The rest of the cleanup, once the maintenance mode was dealt with. `retError` is the error so far. */
    method StartAgainAndReport(final: bool, run: nat, main: MainOutcome, retError: seq<Step>, ghost mainResults: Step -> StepResult)
      returns (result: RunResult, ghost results: Step -> StepResult)
      requires blueprints.Valid() && Wired()
      requires forall s | s !in {StopBlueprint, StopDogus} :: mainResults(s) == answers(run)(s)
      requires final && !main.Completed? ==> answers(run)(DisableMaintenance) != Panic
      requires retError == RunError(main) +
                 if final && !main.Completed? && answers(run)(DisableMaintenance) != Success then [DisableMaintenance] else []
      modifies blueprints, blueprints.cli`flags, blueprints.cli.net, dogus.cluster`world, dogus.cluster.net
      ensures blueprints.Valid() && blueprints.lost == old(blueprints.lost)
      ensures old(BlueprintControl.Undisturbed(blueprints.cli)) ==> BlueprintControl.Undisturbed(blueprints.cli) && BlueprintsRestored()
      ensures old(dogus.NamesMatch(dogus.cluster.world)) ==> dogus.NamesMatch(dogus.cluster.world)
      ensures forall s | s !in {StartBlueprint, StartDogus} :: results(s) == mainResults(s)
      ensures result == ReturnOf(final, main, results)
      ensures result == Returned([]) ==> BlueprintsRestored() && DogusStarted()
    {
      hide *;
      var dogusStarted, blueprintsStarted := StartAgain();
      results := Outcome(Outcome(mainResults, StartDogus, dogusStarted), StartBlueprint, blueprintsStarted);
      CalmBeforeMail(final, main, results);
      if answers(run)(SendMail) == Panic {
        PanicReturns(final, main, results, SendMail);
        return Rethrown(SendMail), results;
      }
      var runError := RunError(main);
      var error := retError;
      if !dogusStarted {
        error := runError + [StartDogus];
      }
      if !blueprintsStarted {
        error := runError + [StartBlueprint];
      }
      if answers(run)(SendMail) != Success {
        error := runError + [SendMail];
      }
      ReturnedIs(final, main, results, error);
      result := if main.PanickedAt? then Rethrown(main.step) else Returned(error);
    }

    /** Everything after the main part. */
    method Cleanup(final: bool, run: nat, main: MainOutcome, ghost mainResults: Step -> StepResult)
      returns (result: RunResult, ghost results: Step -> StepResult)
      requires blueprints.Valid() && Wired()
      requires forall s | s !in {StopBlueprint, StopDogus} :: mainResults(s) == answers(run)(s)
      modifies blueprints, blueprints.cli`flags, blueprints.cli.net, dogus.cluster`world, dogus.cluster.net
      ensures blueprints.Valid() && blueprints.lost == old(blueprints.lost)
      ensures old(BlueprintControl.Undisturbed(blueprints.cli)) ==> BlueprintControl.Undisturbed(blueprints.cli)
      ensures old(dogus.NamesMatch(dogus.cluster.world)) ==> dogus.NamesMatch(dogus.cluster.world)
      ensures forall s | s !in {StartBlueprint, StartDogus} :: results(s) == mainResults(s)
      ensures result == ReturnOf(final, main, results)
      ensures result == Returned([]) ==> BlueprintsRestored() && DogusStarted()
      ensures old(BlueprintControl.Undisturbed(blueprints.cli)) && !DisablePanics(final, main, answers(run)) ==> BlueprintsRestored()
    {
      assert DisablePanics(final, main, answers(run)) <==> final && !main.Completed? && answers(run)(DisableMaintenance) == Panic;
      hide *;
      var retError := RunError(main);
      if !main.Completed? && final {
        if answers(run)(DisableMaintenance) == Panic {
          PanicReturns(final, main, mainResults, DisableMaintenance);
          return Rethrown(DisableMaintenance), mainResults;
        }
        if answers(run)(DisableMaintenance) != Success {
          retError := RunError(main) + [DisableMaintenance];
        }
      }
      result, results := StartAgainAndReport(final, run, main, retError, mainResults);
    }

    /** One run, which is a run of the saga. Whatever happens, the bookkeeping of the blueprints stays right,
        and the job only ever starts on a cluster at rest. A nil result means that blueprints and dogus are
        back. A run from whose start on the blueprint API works puts all blueprints back even if the run
        itself fails or panics, unless switching off the maintenance mode panics. */
    method RunMigration(final: bool)
      returns (result: RunResult, ghost main: MainOutcome, ghost results: Step -> StepResult,
               ghost executed: seq<Step>, ghost atJob: Option<Snapshot>)
      requires blueprints.Valid() && Wired()
      modifies `runs, blueprints, blueprints.cli`flags, blueprints.cli.net, dogus.cluster`world, dogus.cluster.net
      ensures blueprints.Valid() && runs == old(runs) + 1
      ensures BlueprintControl.FailuresAreClean(blueprints.cli.net.faults) ==> blueprints.lost == old(blueprints.lost)
      ensures old(BlueprintControl.Undisturbed(blueprints.cli)) ==> BlueprintControl.Undisturbed(blueprints.cli)
      ensures old(dogus.NamesMatch(dogus.cluster.world)) ==> dogus.NamesMatch(dogus.cluster.world)
      ensures RunOf(MainSteps(final), results, executed, main) && result == ReturnOf(final, main, results)
      ensures forall s | s !in {StopBlueprint, StopDogus, StartBlueprint, StartDogus} :: results(s) == answers(old(runs))(s)
      ensures atJob.Some? <==> RunJob in executed
      ensures atJob.Some? ==> AtRest(atJob.value)
      ensures atJob.Some? && old(dogus.NamesMatch(dogus.cluster.world)) ==> dogus.NamesMatch(atJob.value.world)
      ensures result == Returned([]) ==> BlueprintsRestored() && DogusStarted()
      ensures old(BlueprintControl.Undisturbed(blueprints.cli)) && !DisablePanics(final, main, answers(old(runs))) ==> BlueprintsRestored()
    {
      hide *;
      var run := runs;
      runs := runs + 1;
      var outcome;
      outcome, results, executed, atJob := RunSteps(final, run);
      main := outcome;
      ghost var mainResults := results;
      result, results := Cleanup(final, run, outcome, results);
      RunOfAgrees(final, mainResults, results, executed, main);
    }

    /** Any number of runs, delta and final ones, with any outcomes: if the last one returns nil, everything
        is back as it was before the first, however many failed before it. */
    method RunAll(finals: seq<bool>) returns (last: RunResult)
      requires blueprints.Valid() && Wired()
      modifies `runs, blueprints, blueprints.cli`flags, blueprints.cli.net, dogus.cluster`world, dogus.cluster.net
      ensures blueprints.Valid()
      ensures BlueprintControl.FailuresAreClean(blueprints.cli.net.faults) ==> blueprints.lost == old(blueprints.lost)
      ensures old(dogus.NamesMatch(dogus.cluster.world)) ==> dogus.NamesMatch(dogus.cluster.world)
      ensures last == Returned([]) ==> BlueprintsRestored() && DogusStarted()
      ensures last == Returned([]) && BlueprintControl.FailuresAreClean(blueprints.cli.net.faults) && old(blueprints.lost) == {} ==>
                forall b | b in blueprints.cli.flags :: blueprints.cli.flags[b] == Some(true) <==> blueprints.original[b]
    {
      last := LoggerFailed;
      for i := 0 to |finals|
        invariant blueprints.Valid()
        invariant BlueprintControl.FailuresAreClean(blueprints.cli.net.faults) ==> blueprints.lost == old(blueprints.lost)
        invariant old(dogus.NamesMatch(dogus.cluster.world)) ==> dogus.NamesMatch(dogus.cluster.world)
        invariant last == Returned([]) ==> BlueprintsRestored() && DogusStarted()
      {
        ghost var atJob;
        ghost var main, results, executed;
        last, main, results, executed, atJob := RunMigration(finals[i]);
      }
    }

    /** Two runs that overlap share the controls: the second one stops everything and starts its job, then the
        first one's cleanup starts what the first one stopped, under the second one's job. With a working
        blueprint API the rest of the second run is broken exactly when some blueprint is to run. */
    method FirstCleanupUnderSecondJob() returns (dogusStarted: bool, ghost atJob: map<string, Option<bool>>)
      requires blueprints.Valid() && Wired() && BlueprintControl.Undisturbed(blueprints.cli)
      modifies blueprints, blueprints.cli`flags, blueprints.cli.net, dogus.cluster`world, dogus.cluster.net
      ensures blueprints.Valid() && blueprints.lost == old(blueprints.lost)
      ensures atJob.Keys == blueprints.cli.flags.Keys && forall b | b in atJob :: atJob[b] == Some(true)
      ensures (exists b :: b in blueprints.cli.flags && blueprints.cli.flags[b] != Some(true))
              <==> exists b :: b in blueprints.cli.flags && !blueprints.original[b] && b !in blueprints.lost
      ensures dogusStarted ==> DogusStarted()
    {
      var first := blueprints.StopBlueprint();
      var second := blueprints.StopBlueprint();
      atJob := blueprints.cli.flags;
      hide BlueprintControl.Undisturbed, DogusStarted;
      var blueprintsStarted;
      dogusStarted, blueprintsStarted := StartAgain();
      SomeRunIff(blueprints.cli.flags, blueprints.original, blueprints.lost);
    }

    lemma SomeRunIff(flags: map<string, Option<bool>>, original: map<string, bool>, lost: set<string>)
      requires forall b | b in flags :: b in original && ((flags[b] == Some(true) <==> original[b]) <==> b !in lost)
      requires forall b | b in flags && b in lost :: flags[b] == Some(true)
      ensures (exists b :: b in flags && flags[b] != Some(true)) <==> exists b :: b in flags && !original[b] && b !in lost
    {
    }
  }
}
