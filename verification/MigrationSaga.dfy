/** One migration run: main steps until one fails or panics, then the cleanup. */
module MigrationSaga {
  datatype Step =
    | ValidateExportMode | GetExporterInfo | GetImporterInfo | ValidateSystemInfo | StopBlueprint | ResizeVolumes
    | StopDogus | EnableMaintenance | RunJob
    | DisableMaintenance | StartDogus | StartBlueprint | SendMail

  datatype StepResult = Success | Failure | Panic

  /** How the main part ends. */
  datatype MainOutcome = Completed | FailedAt(step: Step) | PanickedAt(step: Step)

  /** An error is represented by the steps whose errors it joins; the empty sequence is Go's nil. */
  datatype RunResult = LoggerFailed | Returned(error: seq<Step>) | Rethrown(step: Step)

  // ---------- the shape of a run ----------

  function MainSteps(final: bool): seq<Step> {
    if final then
      [ValidateExportMode, GetExporterInfo, GetImporterInfo, ValidateSystemInfo, StopBlueprint, ResizeVolumes, StopDogus, EnableMaintenance, RunJob]
    else
      [ValidateExportMode, GetExporterInfo, GetImporterInfo, ValidateSystemInfo, StopBlueprint, ResizeVolumes, StopDogus, RunJob]
  }

  function CleanupSteps(final: bool, main: MainOutcome): seq<Step> {
    if final && !main.Completed? then [DisableMaintenance, StartDogus, StartBlueprint, SendMail]
    else [StartDogus, StartBlueprint, SendMail]
  }

  /** `executed` are the leading `steps` up to and including the first one that does not succeed. */
  ghost predicate RunOf(steps: seq<Step>, results: Step -> StepResult, executed: seq<Step>, main: MainOutcome) {
    && executed <= steps
    && (forall i | 0 <= i < |executed| - 1 :: results(executed[i]) == Success)
    && match main
       case Completed => executed == steps && (forall i | 0 <= i < |steps| :: results(steps[i]) == Success)
       case FailedAt(s) => executed != [] && executed[|executed| - 1] == s && results(s) == Failure
       case PanickedAt(s) => executed != [] && executed[|executed| - 1] == s && results(s) == Panic
  }

  ghost predicate SucceededUpTo(steps: seq<Step>, results: Step -> StepResult, n: nat)
    requires n <= |steps|
  {
    forall i | 0 <= i < n :: results(steps[i]) == Success
  }

  /** The first `n` steps were executed since `before` and succeeded. */
  ghost predicate Reached(before: seq<Step>, now: seq<Step>, steps: seq<Step>, results: Step -> StepResult, n: nat)
    requires n <= |steps|
  {
    now == before + steps[..n] && SucceededUpTo(steps, results, n)
  }

  lemma MainStepsAre(final: bool)
    ensures var s := MainSteps(final);
            && |s| == (if final then 9 else 8) && s[|s| - 1] == RunJob
            && s[0] == ValidateExportMode && s[1] == GetExporterInfo && s[2] == GetImporterInfo && s[3] == ValidateSystemInfo
            && s[4] == StopBlueprint && s[5] == ResizeVolumes && s[6] == StopDogus && (final ==> s[7] == EnableMaintenance)
  {
  }

  lemma CompletedRun(before: seq<Step>, now: seq<Step>, steps: seq<Step>, results: Step -> StepResult)
    requires Reached(before, now, steps, results, |steps|)
    ensures now == before + steps && RunOf(steps, results, steps, Completed)
  {
    assert steps[..|steps|] == steps;
  }

  function RunError(main: MainOutcome): seq<Step> {
    if main.FailedAt? then [main.step] else []
  }

  /** The error of the last step that does not succeed. */
  function LastFailure(steps: seq<Step>, results: Step -> StepResult): seq<Step> {
    if steps == [] then []
    else if results(steps[|steps| - 1]) != Success then [steps[|steps| - 1]]
    else LastFailure(steps[..|steps| - 1], results)
  }

  /** A panic in the cleanup ends it: the leading steps up to and including the first one that panics. */
  function CleanupRun(steps: seq<Step>, results: Step -> StepResult): seq<Step> {
    if steps == [] then []
    else [steps[0]] + if results(steps[0]) == Panic then [] else CleanupRun(steps[1..], results)
  }

  function FirstPanic(steps: seq<Step>, results: Step -> StepResult): seq<Step> {
    if steps == [] then []
    else if results(steps[0]) == Panic then [steps[0]]
    else FirstPanic(steps[1..], results)
  }

  ghost predicate CalmUpTo(steps: seq<Step>, results: Step -> StepResult, n: nat)
    requires n <= |steps|
  {
    forall i | 0 <= i < n :: results(steps[i]) != Panic
  }

  lemma {:induction false} PanicAt(steps: seq<Step>, results: Step -> StepResult, n: nat)
    requires n < |steps| && CalmUpTo(steps, results, n) && results(steps[n]) == Panic
    ensures CleanupRun(steps, results) == steps[..n + 1] && FirstPanic(steps, results) == [steps[n]]
  {
    if n > 0 {
      assert forall i | 0 <= i < n - 1 :: steps[1..][i] == steps[i + 1];
      PanicAt(steps[1..], results, n - 1);
      assert steps[..n + 1] == [steps[0]] + steps[1..][..n];
    }
  }

  lemma {:induction false} NoPanic(steps: seq<Step>, results: Step -> StepResult)
    requires CalmUpTo(steps, results, |steps|)
    ensures CleanupRun(steps, results) == steps && FirstPanic(steps, results) == []
  {
    if steps != [] {
      assert forall i | 0 <= i < |steps| - 1 :: steps[1..][i] == steps[i + 1];
      NoPanic(steps[1..], results);
    }
  }

  /** Either nothing panics, or the first panic does. */
  lemma CleanupRunIs(steps: seq<Step>, results: Step -> StepResult) returns (n: nat)
    ensures n <= |steps| && CalmUpTo(steps, results, n)
    ensures n < |steps| ==> results(steps[n]) == Panic && CleanupRun(steps, results) == steps[..n + 1] && FirstPanic(steps, results) == [steps[n]]
    ensures n == |steps| ==> CleanupRun(steps, results) == steps && FirstPanic(steps, results) == []
  {
    n := 0;
    while n < |steps| && results(steps[n]) != Panic
      invariant n <= |steps| && CalmUpTo(steps, results, n)
    {
      n := n + 1;
    }
    if n < |steps| {
      PanicAt(steps, results, n);
    } else {
      NoPanic(steps, results);
    }
  }

  /** The first `n` steps were executed since `before`, and none of them panicked. */
  ghost predicate CleanupReached(before: seq<Step>, now: seq<Step>, steps: seq<Step>, results: Step -> StepResult, n: nat)
    requires n <= |steps|
  {
    now == before + steps[..n] && CalmUpTo(steps, results, n)
  }

  ghost predicate MailIsSent(final: bool, main: MainOutcome, results: Step -> StepResult) {
    SendMail in CleanupRun(CleanupSteps(final, main), results)
  }

  // ---------- the migrator ----------

  class Migrator {
    const results: Step -> StepResult
    const loggerWorks: bool
    var trace: seq<Step>
    /** What the mail reported as the result of the migration. */
    var mailed: seq<Step>

    constructor (results: Step -> StepResult, loggerWorks: bool)
      ensures this.results == results && this.loggerWorks == loggerWorks && trace == []
    {
      this.results, this.loggerWorks, trace, mailed := results, loggerWorks, [], [];
    }

    method Do(s: Step) returns (r: StepResult)
      modifies `trace
      ensures trace == old(trace) + [s] && r == results(s)
    {
      trace := trace + [s];
      r := results(s);
    }

    /** Step `i` of the main part, reached because all earlier ones succeeded. */
    method DoMain(s: Step, ghost before: seq<Step>, ghost all: seq<Step>, ghost i: nat) returns (r: StepResult)
      requires i < |all| && all[i] == s
      requires Reached(before, trace, all, results, i)
      modifies `trace
      ensures r == Success ==> Reached(before, trace, all, results, i + 1)
      ensures r != Success ==> trace == before + all[..i + 1] && RunOf(all, results, all[..i + 1], Ended(r, s))
    {
      r := Do(s);
      assert before + all[..i] + [s] == before + all[..i + 1];
    }

    method RunMain(final: bool) returns (main: MainOutcome, ghost executed: seq<Step>)
      modifies `trace
      ensures trace == old(trace) + executed
      ensures RunOf(MainSteps(final), results, executed, main)
    {
      ghost var before, all := trace, MainSteps(final);
      assert Reached(before, trace, all, results, 0);
      MainStepsAre(final);
      hide RunOf, Reached, Ended, MainSteps;
      var r := DoMain(ValidateExportMode, before, all, 0);
      if r != Success { return Ended(r, ValidateExportMode), all[..1]; }
      r := DoMain(GetExporterInfo, before, all, 1);
      if r != Success { return Ended(r, GetExporterInfo), all[..2]; }
      r := DoMain(GetImporterInfo, before, all, 2);
      if r != Success { return Ended(r, GetImporterInfo), all[..3]; }
      r := DoMain(ValidateSystemInfo, before, all, 3);
      if r != Success { return Ended(r, ValidateSystemInfo), all[..4]; }
      r := DoMain(StopBlueprint, before, all, 4);
      if r != Success { return Ended(r, StopBlueprint), all[..5]; }
      r := DoMain(ResizeVolumes, before, all, 5);
      if r != Success { return Ended(r, ResizeVolumes), all[..6]; }
      r := DoMain(StopDogus, before, all, 6);
      if r != Success { return Ended(r, StopDogus), all[..7]; }
      if final {
        r := DoMain(EnableMaintenance, before, all, 7);
        if r != Success { return Ended(r, EnableMaintenance), all[..8]; }
      }
      r := DoMain(RunJob, before, all, |all| - 1);
      assert all[..|all|] == all;
      if r != Success { return Ended(r, RunJob), all; }
      CompletedRun(before, trace, all, results);
      return Completed, all;
    }

    /** Cleanup step `i`, reached because none of the earlier ones panicked. */
    method DoCleanup(s: Step, ghost before: seq<Step>, ghost final: bool, ghost main: MainOutcome, ghost i: nat) returns (r: StepResult)
      requires i < |CleanupSteps(final, main)| && CleanupSteps(final, main)[i] == s
      requires CleanupReached(before, trace, CleanupSteps(final, main), results, i)
      modifies `trace
      ensures r == results(s)
      ensures r != Panic ==> CleanupReached(before, trace, CleanupSteps(final, main), results, i + 1)
      ensures r == Panic ==> trace == before + CleanupRun(CleanupSteps(final, main), results)
      ensures r == Panic ==> ReturnOf(final, main, results) == Rethrown(s)
      ensures r == Panic ==> (MailIsSent(final, main, results) <==> s == SendMail)
    {
      ghost var all := CleanupSteps(final, main);
      r := Do(s);
      assert before + all[..i] + [s] == before + all[..i + 1];
      if r == Panic {
        PanicAt(all, results, i);
      }
    }

    /** Cleanup steps run one after the other, whatever they return, until one panics; a later cleanup error
        replaces an earlier one, and a panic of the cleanup replaces everything. */
    method Cleanup(final: bool, main: MainOutcome) returns (r: RunResult)
      modifies `trace, `mailed
      ensures trace == old(trace) + CleanupRun(CleanupSteps(final, main), results)
      ensures r == ReturnOf(final, main, results)
      ensures mailed == if MailIsSent(final, main, results) then RunError(main) else old(mailed)
    {
      ghost var before, last := trace, |CleanupSteps(final, main)| - 1;
      assert CleanupReached(before, trace, CleanupSteps(final, main), results, 0);
      hide CleanupReached, CleanupRun, MailIsSent, ReturnOf;
      var runError := RunError(main);
      var retError := runError;
      if !main.Completed? && final {
        var disabled := DoCleanup(DisableMaintenance, before, final, main, 0);
        if disabled == Panic { return Rethrown(DisableMaintenance); }
        if disabled != Success { retError := runError + [DisableMaintenance]; }
      }
      var started := DoCleanup(StartDogus, before, final, main, last - 2);
      if started == Panic { return Rethrown(StartDogus); }
      if started != Success { retError := runError + [StartDogus]; }
      var unblocked := DoCleanup(StartBlueprint, before, final, main, last - 1);
      if unblocked == Panic { return Rethrown(StartBlueprint); }
      if unblocked != Success { retError := runError + [StartBlueprint]; }
      mailed := runError;
      var sent := DoCleanup(SendMail, before, final, main, last);
      if sent == Panic { return Rethrown(SendMail); }
      if sent != Success { retError := runError + [SendMail]; }
      CalmCleanup(before, trace, final, main, results);
      r := if main.PanickedAt? then Rethrown(main.step) else Returned(retError);
    }

    method RunMigration(final: bool) returns (r: RunResult, ghost main: MainOutcome, ghost executed: seq<Step>)
      modifies `trace, `mailed
      ensures !loggerWorks ==> r == LoggerFailed && trace == old(trace) && mailed == old(mailed)
      ensures loggerWorks ==>
                && RunOf(MainSteps(final), results, executed, main)
                && trace == old(trace) + executed + CleanupRun(CleanupSteps(final, main), results)
                && r == ReturnOf(final, main, results)
                && mailed == if MailIsSent(final, main, results) then RunError(main) else old(mailed)
    {
      if !loggerWorks {
        return LoggerFailed, Completed, [];
      }
      var outcome;
      outcome, executed := RunMain(final);
      main := outcome;
      r := Cleanup(final, outcome);
    }
  }

  /** What a run with this main part returns. */
  function ReturnOf(final: bool, main: MainOutcome, results: Step -> StepResult): RunResult {
    var cleanup := CleanupSteps(final, main);
    if FirstPanic(cleanup, results) != [] then Rethrown(FirstPanic(cleanup, results)[0])
    else if main.PanickedAt? then Rethrown(main.step)
    else Returned(RunError(main) + LastFailure(cleanup, results))
  }

  function Ended(r: StepResult, s: Step): MainOutcome
    requires r != Success
  {
    if r == Failure then FailedAt(s) else PanickedAt(s)
  }

  lemma LastCleanupFailure(final: bool, main: MainOutcome, results: Step -> StepResult)
    ensures LastFailure(CleanupSteps(final, main), results) ==
            if results(SendMail) != Success then [SendMail]
            else if results(StartBlueprint) != Success then [StartBlueprint]
            else if results(StartDogus) != Success then [StartDogus]
            else if final && !main.Completed? && results(DisableMaintenance) != Success then [DisableMaintenance]
            else []
  {
    var s := CleanupSteps(final, main);
    var s1 := s[..|s| - 1];
    var s2 := s1[..|s1| - 1];
    var s3 := s2[..|s2| - 1];
    assert LastFailure(s, results) == if results(SendMail) != Success then [SendMail] else LastFailure(s1, results);
    assert LastFailure(s1, results) == if results(StartBlueprint) != Success then [StartBlueprint] else LastFailure(s2, results);
    assert LastFailure(s2, results) == if results(StartDogus) != Success then [StartDogus] else LastFailure(s3, results);
    if final && !main.Completed? {
      assert s1 == [DisableMaintenance, StartDogus, StartBlueprint] && s2 == [DisableMaintenance, StartDogus];
      assert s3 == [DisableMaintenance] && s3[..0] == [];
      assert LastFailure(s3, results) == if results(DisableMaintenance) != Success then [DisableMaintenance] else LastFailure(s3[..0], results);
    } else {
      assert s1 == [StartDogus, StartBlueprint] && s2 == [StartDogus] && s3 == [];
    }
  }

  /** A cleanup without a panic executes all its steps, and the last error counts. */
  lemma CalmCleanup(before: seq<Step>, now: seq<Step>, final: bool, main: MainOutcome, results: Step -> StepResult)
    requires CleanupReached(before, now, CleanupSteps(final, main), results, |CleanupSteps(final, main)|)
    ensures now == before + CleanupRun(CleanupSteps(final, main), results) && MailIsSent(final, main, results)
    ensures ReturnOf(final, main, results) ==
            if main.PanickedAt? then Rethrown(main.step)
            else Returned(RunError(main) +
              if results(SendMail) != Success then [SendMail]
              else if results(StartBlueprint) != Success then [StartBlueprint]
              else if results(StartDogus) != Success then [StartDogus]
              else if final && !main.Completed? && results(DisableMaintenance) != Success then [DisableMaintenance]
              else [])
  {
    var c := CleanupSteps(final, main);
    NoPanic(c, results);
    assert c[..|c|] == c && c[|c| - 1] == SendMail;
    LastCleanupFailure(final, main, results);
    hide LastFailure, CleanupRun;
  }

  // ---------- what every run guarantees ----------

  /** The results decide the run. */
  lemma RunIsUnique(steps: seq<Step>, results: Step -> StepResult, e: seq<Step>, m: MainOutcome, e': seq<Step>, m': MainOutcome)
    requires RunOf(steps, results, e, m) && RunOf(steps, results, e', m')
    ensures e == e' && m == m'
  {
  }

  /** Everything that is executed, cleanup included. */
  function WholeRun(final: bool, results: Step -> StepResult, executed: seq<Step>, main: MainOutcome): seq<Step> {
    executed + CleanupRun(CleanupSteps(final, main), results)
  }

  /** The job starts only after every other main step has succeeded, in their order; in a final run
      enabling the maintenance mode is one of them. */
  lemma JobNeedsEverythingBefore(final: bool, results: Step -> StepResult, executed: seq<Step>, main: MainOutcome)
    requires RunOf(MainSteps(final), results, executed, main)
    requires RunJob in WholeRun(final, results, executed, main)
    ensures executed == MainSteps(final)
    ensures forall s | s in executed && s != RunJob :: results(s) == Success
    ensures forall s | s in {ValidateExportMode, ValidateSystemInfo, StopBlueprint, ResizeVolumes, StopDogus} :: results(s) == Success
    ensures final ==> results(EnableMaintenance) == Success
  {
    var n := CleanupRunIs(CleanupSteps(final, main), results);
    var steps := MainSteps(final);
    var i :| 0 <= i < |executed| && executed[i] == RunJob;
    assert steps[i] == RunJob;
    assert i == |steps| - 1;
    assert executed[0] == ValidateExportMode && executed[3] == ValidateSystemInfo && executed[4] == StopBlueprint;
    assert executed[5] == ResizeVolumes && executed[6] == StopDogus;
    if final { assert executed[7] == EnableMaintenance; }
  }

  /** No cleanup step is executed before the cleanup. */
  lemma NoCleanupBefore(final: bool, results: Step -> StepResult, executed: seq<Step>, main: MainOutcome)
    requires RunOf(MainSteps(final), results, executed, main)
    ensures forall i | 0 <= i < |executed| :: executed[i] !in {DisableMaintenance, StartDogus, StartBlueprint, SendMail}
  {
    var steps := MainSteps(final);
    forall i | 0 <= i < |executed| ensures executed[i] !in {DisableMaintenance, StartDogus, StartBlueprint, SendMail} {
      assert executed[i] == steps[i];
    }
  }

  /** Dogus and blueprints are started and the mail is sent exactly once each, last and in this order. */
  ghost predicate EndsWithTheThree(t: seq<Step>) {
    && |t| >= 3 && t[|t| - 3..] == [StartDogus, StartBlueprint, SendMail]
    && forall i | 0 <= i < |t| - 3 :: t[i] !in {StartDogus, StartBlueprint, SendMail}
  }

  lemma AllThree(executed: seq<Step>, final: bool, main: MainOutcome)
    requires forall i | 0 <= i < |executed| :: executed[i] !in {DisableMaintenance, StartDogus, StartBlueprint, SendMail}
    ensures EndsWithTheThree(executed + CleanupSteps(final, main))
  {
    var c := CleanupSteps(final, main);
    var front := c[..|c| - 3];
    assert c == front + [StartDogus, StartBlueprint, SendMail];
    assert executed + c == executed + front + [StartDogus, StartBlueprint, SendMail];
    assert front == [] || front == [DisableMaintenance];
  }

  lemma MailIsLast(final: bool, main: MainOutcome)
    ensures var c := CleanupSteps(final, main);
            |c| >= 3 && c[|c| - 1] == SendMail && forall i | 0 <= i < |c| - 1 :: c[i] != SendMail
  {
  }

  /** Once all steps before the mail went through, none but the mail panics. */
  lemma CalmBeforeTheMail(steps: seq<Step>, results: Step -> StepResult, n: nat)
    requires |steps| >= 1 && steps[|steps| - 1] == SendMail && |steps| - 1 <= n <= |steps|
    requires CalmUpTo(steps, results, n)
    ensures forall s | s in steps && s != SendMail :: results(s) != Panic
  {
  }

  lemma CutShort(t: seq<Step>, last: Step)
    requires t != [] && t[|t| - 1] == last && last != SendMail
    ensures !EndsWithTheThree(t)
  {
    if |t| >= 3 {
      assert t[|t| - 3..][2] == last;
    }
  }

  /** Whatever failed or panicked before, that is how every run ends exactly when no cleanup step before the
      mail panics. */
  lemma CleanupRunsIff(final: bool, results: Step -> StepResult, executed: seq<Step>, main: MainOutcome)
    requires RunOf(MainSteps(final), results, executed, main)
    ensures EndsWithTheThree(WholeRun(final, results, executed, main))
            <==> forall s | s in CleanupSteps(final, main) && s != SendMail :: results(s) != Panic
  {
    NoCleanupBefore(final, results, executed, main);
    var c := CleanupSteps(final, main);
    var n := CleanupRunIs(c, results);
    MailIsLast(final, main);
    hide CleanupRun, FirstPanic, RunOf, MainSteps, EndsWithTheThree, CleanupSteps, CalmUpTo;
    if n >= |c| - 1 {
      assert c[..|c|] == c;
      AllThree(executed, final, main);
      CalmBeforeTheMail(c, results, n);
    } else {
      assert c[n] in c && c[n] != SendMail;
      CutShort(WholeRun(final, results, executed, main), c[n]);
    }
  }

  /** Maintenance mode is switched off exactly in final runs that failed or panicked. */
  lemma DisableIffFinalFailed(final: bool, results: Step -> StepResult, executed: seq<Step>, main: MainOutcome)
    requires RunOf(MainSteps(final), results, executed, main)
    ensures DisableMaintenance in WholeRun(final, results, executed, main)
            <==> final && exists s | s in executed :: results(s) != Success
  {
    NoCleanupBefore(final, results, executed, main);
    var c := CleanupSteps(final, main);
    var n := CleanupRunIs(c, results);
    if !main.Completed? {
      assert executed[|executed| - 1] in executed;
      assert final ==> c[0] == DisableMaintenance && CleanupRun(c, results)[0] == DisableMaintenance;
    }
  }

  lemma {:induction false} NoLastFailure(steps: seq<Step>, results: Step -> StepResult)
    ensures LastFailure(steps, results) == [] <==> forall s | s in steps :: results(s) == Success
    ensures forall s | s in LastFailure(steps, results) :: s in steps && results(s) != Success
    ensures |LastFailure(steps, results)| <= 1
  {
    if steps != [] {
      NoLastFailure(steps[..|steps| - 1], results);
      assert steps == steps[..|steps| - 1] + [steps[|steps| - 1]];
    }
  }

  /** A run returns nil exactly when every executed step, cleanup included, succeeded. */
  lemma NilIffAllSucceeded(final: bool, results: Step -> StepResult, executed: seq<Step>, main: MainOutcome)
    requires RunOf(MainSteps(final), results, executed, main)
    ensures ReturnOf(final, main, results) == Returned([])
            <==> forall s | s in WholeRun(final, results, executed, main) :: results(s) == Success
  {
    var c := CleanupSteps(final, main);
    NoLastFailure(c, results);
    var n := CleanupRunIs(c, results);
    var t := WholeRun(final, results, executed, main);
    hide CleanupSteps, MainSteps, LastFailure, FirstPanic, CleanupRun;
    if n < |c| {
      assert c[n] == t[|t| - 1];
    } else {
      assert forall s | s in c :: s in t;
    }
    if !main.Completed? {
      assert main.step in t;
    }
  }

  /** An error of a main step is returned, and reported in the mail, whatever happens in the cleanup short of a
      panic. */
  lemma FailureIsNamed(final: bool, results: Step -> StepResult, executed: seq<Step>, main: MainOutcome, s: Step)
    requires RunOf(MainSteps(final), results, executed, main) && s in executed && results(s) == Failure
    ensures RunError(main) == [s]
    ensures FirstPanic(CleanupSteps(final, main), results) == [] ==>
              ReturnOf(final, main, results).Returned? && s in ReturnOf(final, main, results).error
  {
    var i :| 0 <= i < |executed| && executed[i] == s;
    assert i == |executed| - 1;
  }

  /** A panic of a main step is raised again unless the cleanup panics itself. */
  lemma PanicIsRaised(final: bool, results: Step -> StepResult, executed: seq<Step>, main: MainOutcome, s: Step)
    requires RunOf(MainSteps(final), results, executed, main) && s in executed && results(s) == Panic
    ensures FirstPanic(CleanupSteps(final, main), results) == [] ==> ReturnOf(final, main, results) == Rethrown(s)
  {
    var i :| 0 <= i < |executed| && executed[i] == s;
    assert i == |executed| - 1;
  }

  lemma OneNamesAll(steps: seq<Step>, last: seq<Step>, results: Step -> StepResult)
    requires |last| <= 1 && (last == [] ==> forall s | s in steps :: results(s) == Success)
    requires forall s | s in last :: s in steps && results(s) != Success
    ensures (forall s | s in steps && results(s) != Success :: s in last)
            <==> forall s, t | s in steps && t in steps && results(s) != Success && results(t) != Success :: s == t
  {
    if last != [] {
      assert last[0] in last && last == [last[0]];
    }
  }

  /** An error that is returned names every cleanup step that failed exactly when no two of them failed: only
      the last cleanup error is joined with the run's. */
  lemma CleanupErrorsCompleteIff(final: bool, main: MainOutcome, results: Step -> StepResult)
    requires ReturnOf(final, main, results).Returned?
    ensures var c, e := CleanupSteps(final, main), ReturnOf(final, main, results).error;
            && e[..|RunError(main)|] == RunError(main)
            && ((forall s | s in c && results(s) != Success :: s in e[|RunError(main)|..])
                <==> forall s, t | s in c && t in c && results(s) != Success && results(t) != Success :: s == t)
  {
    var c := CleanupSteps(final, main);
    NoLastFailure(c, results);
    var last := LastFailure(c, results);
    hide CleanupSteps, LastFailure, FirstPanic;
    assert ReturnOf(final, main, results).error[|RunError(main)|..] == last;
    OneNamesAll(c, last, results);
  }

  /** The mail reports success exactly when no main step returned an error, which includes every run that
      panicked: the panic is not part of the reported result. */
  lemma MailReportsSuccessIff(final: bool, results: Step -> StepResult, executed: seq<Step>, main: MainOutcome)
    requires RunOf(MainSteps(final), results, executed, main)
    ensures RunError(main) == [] <==> forall s | s in executed :: results(s) != Failure
  {
    if main.FailedAt? {
      assert main.step in executed;
    }
  }
}
