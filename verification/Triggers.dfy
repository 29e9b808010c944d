/** The three migration triggers (cron, manual, final) as interleaved processes over one atomic flag and
    one clock. Load, Store and clock reads are separate steps; everything else may happen in between. */
module Triggers {
  import opened Kubernetes

  /** One handler of the flag: it loads, stores true, perhaps checks the clock, runs, stores false. */
  datatype Handler = Idle | SawFalse | Stored | Running | Leaving

  /** The final process: waits for its timestamp, then polls the flag, then runs. */
  datatype Final = Waiting | Passed | Ready | FinalRunning | Finished

  datatype State = State(
    timestamp: Option<int>,  // of the final migration; None when none is configured
    flag: bool,
    now: int,
    cancelled: bool,
    cron: Handler,
    manual: Handler,
    final: Final,
    // history
    lastRead: Option<int>,   // what the last clock read returned
    passedAt: int,           // what the final process read when it stopped waiting
    checkedAt: int,          // what the cron handler read before its run
    raced: bool,             // a handler loaded the flag between another's Load and Store
    tied: bool,              // two clock reads returned the same time
    early: bool              // the final process stopped waiting because of a cancelled context
  )

  function Init(timestamp: Option<int>, now: int): State {
    State(timestamp, false, now, false, Idle, Idle, Waiting, None, now, now, false, false, false)
  }

  datatype Action =
    | Tick(d: nat) | Cancel
    | CronLoad | CronStore | CronCheck | CronFinish | CronRelease
    | ManualLoad | ManualStore | ManualStart | ManualFinish | ManualRelease
    | FinalPass | FinalLoad | FinalStart | FinalFinish

  /** FinalTimestamp.Expired for a configured timestamp: strictly later. */
  predicate Expired(s: State) {
    s.timestamp.Some? && s.now > s.timestamp.value
  }

  function Read(s: State): State {
    s.(lastRead := Some(s.now), tied := s.tied || s.lastRead == Some(s.now))
  }

  /** One step; None when the action cannot happen. */
  function Step(s: State, a: Action): Option<State> {
    match a
    case Tick(d) => Some(s.(now := s.now + d))
    case Cancel => Some(s.(cancelled := true))

    case CronLoad =>
      if s.cron != Idle then None
      else if s.flag then Some(s)
      else Some(s.(cron := SawFalse, raced := s.raced || s.manual == SawFalse))
    case CronStore => if s.cron == SawFalse then Some(s.(cron := Stored, flag := true)) else None
    case CronCheck =>
      if s.cron != Stored then None
      else if s.timestamp.None? then Some(s.(cron := Running))
      else Some(Read(s).(cron := if Expired(s) then Leaving else Running, checkedAt := s.now))
    case CronFinish => if s.cron == Running then Some(s.(cron := Leaving)) else None
    case CronRelease => if s.cron == Leaving then Some(s.(cron := Idle, flag := false)) else None

    case ManualLoad =>
      if s.manual != Idle then None
      else if s.flag then Some(s)
      else Some(s.(manual := SawFalse, raced := s.raced || s.cron == SawFalse))
    case ManualStore => if s.manual == SawFalse then Some(s.(manual := Stored, flag := true)) else None
    case ManualStart => if s.manual == Stored then Some(s.(manual := Running)) else None
    case ManualFinish => if s.manual == Running then Some(s.(manual := Leaving)) else None
    case ManualRelease => if s.manual == Leaving then Some(s.(manual := Idle, flag := false)) else None

    case FinalPass =>
      if s.final != Waiting || s.timestamp.None? then None
      else if s.now >= s.timestamp.value then Some(Read(s).(final := Passed, passedAt := s.now))
      else if s.cancelled then Some(s.(final := Passed, early := true))
      else None
    case FinalLoad => if s.final != Passed then None else Some(if s.flag then s else s.(final := Ready))
    case FinalStart => if s.final == Ready then Some(s.(final := FinalRunning)) else None
    case FinalFinish => if s.final == FinalRunning then Some(s.(final := Finished)) else None
  }

  /** Runs a sequence of actions, one after the other. */
  function Exec(s: State, run: seq<Action>): Option<State> {
    if run == [] then Some(s)
    else
      match Exec(s, run[..|run| - 1])
      case None => None
      case Some(t) => Step(t, run[|run| - 1])
  }

  predicate Critical(h: Handler) { h == Stored || h == Running || h == Leaving }

  predicate Started(f: Final) { f == FinalRunning || f == Finished }

  // ---------- the flag ----------

  /** Holds in every state of a run without a race. */
  ghost predicate FlagProtects(s: State) {
    && (s.flag <==> Critical(s.cron) || Critical(s.manual))
    && !(Critical(s.cron) && Critical(s.manual))
    && (s.cron == SawFalse ==> s.manual == Idle)
    && (s.manual == SawFalse ==> s.cron == Idle)
  }

  /** Holds in every state of every run. */
  ghost predicate ClockOrder(s: State) {
    && (s.lastRead.Some? ==> s.lastRead.value <= s.now)
    && (s.final != Waiting ==> s.timestamp.Some?)
    && (s.final != Waiting && !s.early ==>
          s.timestamp.value <= s.passedAt && s.lastRead.Some? && s.passedAt <= s.lastRead.value)
    && (s.cron == Running && s.timestamp.Some? ==>
          s.checkedAt <= s.timestamp.value && s.lastRead.Some? && s.checkedAt <= s.lastRead.value)
  }

  /** Once the final process saw the flag free, a running delta has read the clock after it did. */
  ghost predicate DeltaReadLater(s: State) {
    (s.final == Ready || Started(s.final)) && s.cron == Running && !s.early ==> s.passedAt <= s.checkedAt && s.tied
  }

  ghost predicate Inv(s: State) {
    && ClockOrder(s)
    && (s.raced || (FlagProtects(s) && DeltaReadLater(s)))
  }

  lemma StepKeepsFlag(s: State, a: Action)
    requires FlagProtects(s) && Step(s, a).Some? && !Step(s, a).value.raced
    ensures FlagProtects(Step(s, a).value)
  {
  }

  lemma StepKeepsClock(s: State, a: Action)
    requires ClockOrder(s) && Step(s, a).Some?
    ensures ClockOrder(Step(s, a).value)
  {
  }

  lemma StepKeepsOrder(s: State, a: Action)
    requires ClockOrder(s) && FlagProtects(s) && DeltaReadLater(s) && Step(s, a).Some?
    ensures DeltaReadLater(Step(s, a).value)
  {
  }

  lemma StepKeepsInv(s: State, a: Action)
    requires Inv(s) && Step(s, a).Some?
    ensures Inv(Step(s, a).value)
  {
    StepKeepsClock(s, a);
    var t := Step(s, a).value;
    if !t.raced {
      assert !s.raced;
      hide Step, ClockOrder, FlagProtects, DeltaReadLater;
      StepKeepsFlag(s, a);
      StepKeepsOrder(s, a);
    }
  }

  lemma {:induction false} RunsKeepInv(timestamp: Option<int>, now: int, run: seq<Action>)
    requires Exec(Init(timestamp, now), run).Some?
    ensures Inv(Exec(Init(timestamp, now), run).value)
  {
    if run != [] {
      RunsKeepInv(timestamp, now, run[..|run| - 1]);
      StepKeepsInv(Exec(Init(timestamp, now), run[..|run| - 1]).value, run[|run| - 1]);
    }
  }

  /** Without a race the flag is true exactly while one of the two handlers is between its two stores,
      and the handlers never run migrations together. */
  lemma FlagExcludesHandlers(timestamp: Option<int>, now: int, run: seq<Action>, s: State)
    requires Exec(Init(timestamp, now), run) == Some(s) && !s.raced
    ensures s.flag <==> Critical(s.cron) || Critical(s.manual)
    ensures !(Critical(s.cron) && Critical(s.manual))
  {
    RunsKeepInv(timestamp, now, run);
  }

  /** Without a race the final process gets ready only at a moment when neither handler is running. */
  lemma ReadyWhenNobodyRuns(timestamp: Option<int>, now: int, run: seq<Action>, s: State, t: State)
    requires Exec(Init(timestamp, now), run) == Some(s) && !s.raced
    requires Step(s, FinalLoad) == Some(t) && s.final == Passed && t.final == Ready
    ensures !Critical(t.cron) && !Critical(t.manual)
  {
    RunsKeepInv(timestamp, now, run);
  }

  /** From every reachable state a delta migration that got the flag can end, and its end frees the flag. */
  lemma DeltaEndsAndFrees(timestamp: Option<int>, now: int, run: seq<Action>, s: State) returns (rest: seq<Action>, t: State)
    requires Exec(Init(timestamp, now), run) == Some(s) && s.cron in {Running, Leaving}
    ensures Exec(s, rest) == Some(t) && forall a | a in rest :: a == CronFinish || a == CronRelease
    ensures t.cron == Idle && !t.flag && t.manual == s.manual && t.final == s.final
  {
    if s.cron == Leaving {
      rest := [CronRelease];
      Exec1(s, CronRelease);
    } else {
      rest := [CronFinish] + [CronRelease];
      ExecAppend(s, [CronFinish], [CronRelease]);
      Exec1(s, CronFinish);
      Exec1(Step(s, CronFinish).value, CronRelease);
    }
    t := Exec(s, rest).value;
  }

  /** Likewise a manual one. */
  lemma ManualEndsAndFrees(timestamp: Option<int>, now: int, run: seq<Action>, s: State) returns (rest: seq<Action>, t: State)
    requires Exec(Init(timestamp, now), run) == Some(s) && s.manual in {Running, Leaving}
    ensures Exec(s, rest) == Some(t) && forall a | a in rest :: a == ManualFinish || a == ManualRelease
    ensures t.manual == Idle && !t.flag && t.cron == s.cron && t.final == s.final
  {
    if s.manual == Leaving {
      rest := [ManualRelease];
      Exec1(s, ManualRelease);
    } else {
      rest := [ManualFinish] + [ManualRelease];
      ExecAppend(s, [ManualFinish], [ManualRelease]);
      Exec1(s, ManualFinish);
      Exec1(Step(s, ManualFinish).value, ManualRelease);
    }
    t := Exec(s, rest).value;
  }

  /** A cron tick starts a delta migration from every state in which the flag is free and the timestamp has not
      passed; after it has passed, the tick starts none and frees the flag again. */
  lemma TickStartsDelta(s: State) returns (run: seq<Action>, t: State)
    requires s.cron == Idle && !s.flag
    ensures Exec(s, run) == Some(t)
    ensures (s.timestamp.Some? ==> s.now <= s.timestamp.value) ==> t.cron == Running && t.flag
    ensures s.timestamp.Some? && s.now > s.timestamp.value ==> t.cron == Idle && !t.flag
  {
    run := [CronLoad, CronStore, CronCheck];
    Exec3(s, CronLoad, CronStore, CronCheck);
    t := Exec(s, run).value;
    if t.cron == Leaving {
      ExecAppend(s, run, [CronRelease]);
      Exec1(t, CronRelease);
      run, t := run + [CronRelease], Step(t, CronRelease).value;
    }
  }

  // ---------- delta against final ----------

  /** A delta and the final migration overlap only after a race, an early end of the wait, or two clock
      reads that returned the same time. */
  lemma DeltaExcludesFinal(timestamp: Option<int>, now: int, run: seq<Action>, s: State)
    requires Exec(Init(timestamp, now), run) == Some(s)
    requires s.cron == Running && s.final == FinalRunning
    ensures s.raced || s.early || (s.tied && s.passedAt == s.checkedAt && s.timestamp == Some(s.checkedAt))
  {
    RunsKeepInv(timestamp, now, run);
  }

  /** No delta run starts after the final one, not even after a race. */
  lemma NoDeltaAfterFinal(timestamp: Option<int>, now: int, run: seq<Action>, s: State, t: State)
    requires Exec(Init(timestamp, now), run) == Some(s)
    requires Started(s.final) && s.cron == Stored
    requires Step(s, CronCheck) == Some(t) && t.cron == Running
    ensures t.early || (t.tied && t.timestamp == Some(t.now))
  {
    RunsKeepInv(timestamp, now, run);
  }

  /** Only the cron handler and the final process act. */
  predicate NoManual(run: seq<Action>) {
    forall a | a in run :: !a.ManualLoad?
  }

  lemma StepWithoutManual(s: State, a: Action)
    requires s.manual == Idle && !s.raced && !a.ManualLoad? && Step(s, a).Some?
    ensures Step(s, a).value.manual == Idle && !Step(s, a).value.raced
  {
  }

  lemma {:induction false} NoManualNoRace(timestamp: Option<int>, now: int, run: seq<Action>, s: State)
    requires Exec(Init(timestamp, now), run) == Some(s) && NoManual(run)
    ensures s.manual == Idle && !s.raced
  {
    hide Step;
    if run != [] {
      var front := run[..|run| - 1];
      assert run == front + [run[|run| - 1]];
      assert run[|run| - 1] in run;
      NoManualNoRace(timestamp, now, front, Exec(Init(timestamp, now), front).value);
      StepWithoutManual(Exec(Init(timestamp, now), front).value, run[|run| - 1]);
    }
  }

  lemma {:induction false} NoCancelNotEarly(timestamp: Option<int>, now: int, run: seq<Action>, s: State)
    requires Exec(Init(timestamp, now), run) == Some(s) && Cancel !in run
    ensures !s.cancelled && !s.early
  {
    if run != [] {
      var front := run[..|run| - 1];
      assert run == front + [run[|run| - 1]];
      NoCancelNotEarly(timestamp, now, front, Exec(Init(timestamp, now), front).value);
    }
  }

  /** With only the cron worker and the final process, an uncancelled context and a clock that never
      returns the same time twice, delta and final migration never overlap. */
  lemma CronAndFinalExclude(timestamp: Option<int>, now: int, run: seq<Action>, s: State)
    requires Exec(Init(timestamp, now), run) == Some(s)
    requires NoManual(run) && Cancel !in run && !s.tied
    ensures !(s.cron == Running && s.final == FinalRunning)
  {
    NoManualNoRace(timestamp, now, run, s);
    NoCancelNotEarly(timestamp, now, run, s);
    RunsKeepInv(timestamp, now, run);
  }

  // ---------- each condition is needed ----------

  lemma {:induction false} ExecAppend(s: State, run: seq<Action>, more: seq<Action>)
    ensures Exec(s, run + more) == match Exec(s, run) case None => None case Some(t) => Exec(t, more)
  {
    if more == [] {
      assert run + more == run;
    } else {
      var front := more[..|more| - 1];
      assert (run + more)[..|run + more| - 1] == run + front;
      ExecAppend(s, run, front);
    }
  }

  lemma Exec1(s: State, a: Action)
    ensures Exec(s, [a]) == Step(s, a)
  {
    assert [a][..0] == [];
  }

  lemma Exec3(s: State, a: Action, b: Action, c: Action)
    ensures Exec(s, [a, b, c]) ==
            match Step(s, a)
            case None => None
            case Some(s1) => match Step(s1, b) case None => None case Some(s2) => Step(s2, c)
  {
    assert [a, b, c] == [a] + [b] + [c];
    ExecAppend(s, [a] + [b], [c]);
    ExecAppend(s, [a], [b]);
    Exec1(s, a);
    if Step(s, a).Some? {
      Exec1(Step(s, a).value, b);
      if Step(Step(s, a).value, b).Some? {
        Exec1(Step(Step(s, a).value, b).value, c);
      }
    }
  }

  /** As long as the timestamp has not passed, both migrations can run together from every state in which
      both handlers saw the flag free. */
  lemma RaceOverlaps(s: State) returns (run: seq<Action>, t: State)
    requires s.cron == SawFalse && s.manual == SawFalse && !Expired(s)
    ensures Exec(s, run) == Some(t) && t.cron == Running && t.manual == Running
  {
    run := [CronStore] + [CronCheck, ManualStore, ManualStart];
    ExecAppend(s, [CronStore], [CronCheck, ManualStore, ManualStart]);
    Exec1(s, CronStore);
    Exec3(Step(s, CronStore).value, CronCheck, ManualStore, ManualStart);
    t := Exec(s, run).value;
  }

  /** Such a state is reached at once, so cron and manual migration can overlap at any time up to the timestamp. */
  lemma HandlersOverlap(timestamp: Option<int>, now: int) returns (run: seq<Action>, t: State)
    requires timestamp.Some? ==> now <= timestamp.value
    ensures Exec(Init(timestamp, now), run) == Some(t) && t.cron == Running && t.manual == Running
  {
    var s0 := Init(timestamp, now);
    var raced := Step(Step(s0, CronLoad).value, ManualLoad).value;
    ExecAppend(s0, [CronLoad], [ManualLoad]);
    Exec1(s0, CronLoad);
    Exec1(Step(s0, CronLoad).value, ManualLoad);
    var rest, overlap := RaceOverlaps(raced);
    run, t := [CronLoad] + [ManualLoad] + rest, overlap;
    ExecAppend(s0, [CronLoad] + [ManualLoad], rest);
  }

  /** From every state in which the final migration runs while the flag is free and the timestamp is not
      yet in the past, a delta migration can join it. The final process never sets the flag. */
  lemma EarlyOrTiedOverlaps(s: State) returns (run: seq<Action>, t: State)
    requires s.final == FinalRunning && s.cron == Idle && !s.flag && !Expired(s)
    ensures run == [CronLoad, CronStore, CronCheck]
    ensures Exec(s, run) == Some(t) && t.cron == Running && t.final == FinalRunning
  {
    run := [CronLoad, CronStore, CronCheck];
    Exec3(s, CronLoad, CronStore, CronCheck);
    t := Exec(s, run).value;
  }

  /** From every state in which the final migration runs while the flag is free, a manual one can join it. */
  lemma ManualJoinsFinal(s: State) returns (run: seq<Action>, t: State)
    requires s.final == FinalRunning && s.manual == Idle && !s.flag
    ensures Exec(s, run) == Some(t) && t.manual == Running && t.final == FinalRunning
  {
    run := [ManualLoad, ManualStore, ManualStart];
    Exec3(s, ManualLoad, ManualStore, ManualStart);
    t := Exec(s, run).value;
  }

  /** The final process alone can get to run from the start: in time, or at once after a cancellation. */
  lemma FinalAlone(timestamp: int, now: int, first: Action) returns (run: seq<Action>, s: State)
    requires now <= timestamp && (first == Tick(timestamp - now) || first == Cancel)
    ensures Exec(Init(Some(timestamp), now), run) == Some(s)
    ensures s.final == FinalRunning && s.cron == Idle && s.manual == Idle && !s.flag && !Expired(s) && !s.raced
    ensures NoManual(run) && (first != Cancel ==> Cancel !in run)
  {
    var s0 := Init(Some(timestamp), now);
    run := [first] + [FinalPass, FinalLoad, FinalStart];
    ExecAppend(s0, [first], [FinalPass, FinalLoad, FinalStart]);
    Exec1(s0, first);
    Exec3(Step(s0, first).value, FinalPass, FinalLoad, FinalStart);
    s := Exec(s0, run).value;
  }

  /** A clock that stands still at the timestamp breaks the exclusion, whatever the timestamp. */
  lemma TieBreaksExclusion(timestamp: int, now: int) returns (run: seq<Action>, t: State)
    requires now <= timestamp
    ensures Exec(Init(Some(timestamp), now), run) == Some(t) && NoManual(run) && Cancel !in run
    ensures t.cron == Running && t.final == FinalRunning
  {
    var head, s := FinalAlone(timestamp, now, Tick(timestamp - now));
    var rest, overlap := EarlyOrTiedOverlaps(s);
    run, t := head + rest, overlap;
    ExecAppend(Init(Some(timestamp), now), head, rest);
  }

  /** A cron and a manual handler load the flag together, and both run. */
  lemma RaceFromTheStart(timestamp: int, now: int) returns (run: seq<Action>, s: State)
    requires now < timestamp
    ensures Exec(Init(Some(timestamp), now), run) == Some(s) && Cancel !in run
    ensures s == Init(Some(timestamp), now).(cron := Running, manual := Running, flag := true,
                                             lastRead := Some(now), checkedAt := now, raced := true)
  {
    var s0 := Init(Some(timestamp), now);
    var loads, rest := [ManualLoad, CronLoad, CronStore], [CronCheck, ManualStore, ManualStart];
    Exec3(s0, ManualLoad, CronLoad, CronStore);
    var s1 := s0.(cron := Stored, manual := SawFalse, flag := true, raced := true);
    assert Exec(s0, loads) == Some(s1);
    Exec3(s1, CronCheck, ManualStore, ManualStart);
    ExecAppend(s0, loads, rest);
    run, s := loads + rest, Exec(s1, rest).value;
  }

  /** The manual run is over first and frees the flag. */
  lemma RaceFreesTheFlag(timestamp: int, now: int) returns (run: seq<Action>, s: State)
    requires now < timestamp
    ensures Exec(Init(Some(timestamp), now), run) == Some(s) && Cancel !in run
    ensures s == Init(Some(timestamp), now).(cron := Running, lastRead := Some(now), checkedAt := now, raced := true)
  {
    var head, s1 := RaceFromTheStart(timestamp, now);
    var rest := [ManualFinish] + [ManualRelease];
    ExecAppend(s1, [ManualFinish], [ManualRelease]);
    Exec1(s1, ManualFinish);
    Exec1(s1.(manual := Leaving), ManualRelease);
    ExecAppend(Init(Some(timestamp), now), head, rest);
    run, s := head + rest, Exec(s1, rest).value;
  }

  /** So does a race, without a cancellation and on a clock that never returns the same time twice: the
      final migration starts in time while the delta is still running. */
  lemma RaceBreaksExclusion(timestamp: int, now: int) returns (run: seq<Action>, t: State)
    requires now < timestamp
    ensures Exec(Init(Some(timestamp), now), run) == Some(t) && Cancel !in run && !t.tied
    ensures t.cron == Running && t.final == FinalRunning
  {
    var head, s := RaceFreesTheFlag(timestamp, now);
    var last := [FinalPass, FinalLoad, FinalStart];
    ExecAppend(s, [Tick(timestamp - now)], last);
    Exec1(s, Tick(timestamp - now));
    Exec3(Step(s, Tick(timestamp - now)).value, FinalPass, FinalLoad, FinalStart);
    run, t := head + ([Tick(timestamp - now)] + last), Exec(s, [Tick(timestamp - now)] + last).value;
    ExecAppend(Init(Some(timestamp), now), head, [Tick(timestamp - now)] + last);
  }

  /** So does a cancelled context, on any clock. */
  lemma CancelBreaksExclusion(timestamp: int, now: int) returns (run: seq<Action>, t: State)
    requires now <= timestamp
    ensures Exec(Init(Some(timestamp), now), run) == Some(t) && NoManual(run)
    ensures t.cron == Running && t.final == FinalRunning
  {
    var head, s := FinalAlone(timestamp, now, Cancel);
    var rest, overlap := EarlyOrTiedOverlaps(s);
    run, t := head + rest, overlap;
    ExecAppend(Init(Some(timestamp), now), head, rest);
  }
}
