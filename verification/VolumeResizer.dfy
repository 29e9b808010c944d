/** Enlarging dogu volumes: one goroutine per dogu, with a bounded channel for their errors. */
module VolumeResizer {
  import opened Kubernetes

  datatype Dogu = Dogu(name: string, version: string, sizeInBytes: int)

  const NGINX := "official/nginx"

  /** defaultMaxWaitMinutes * 60 / defaultWaitSecondsBetweenRetries */
  const MAX_RETRIES: nat := 60

  /** What the cluster answers during one run, per exporter entry where it matters. Parsers and the
      descriptor repository are not part of this model; their answers are. */
  datatype Answers = Answers(
    parse: string -> Option<string>,            // simple name of a qualified name
    versionIsValid: string -> bool,
    descriptor: (string, string) -> Option<seq<bool>>,   // of a simple name and version, per volume: needs backup
    doguFound: (nat, string) -> bool,
    doguUpdated: (nat, string, int) -> bool,             // with the minimum volume size that is written
    capacity: (nat, string, nat) -> Option<int>          // the claim of this name as seen by poll k of entry i
  )

  // ---------- the sequential parts ----------

  function Simple(a: Answers, name: string): string {
    if a.parse(name).Some? then a.parse(name).value else name
  }

  /** None is an error. */
  function NeedsBackup(a: Answers, d: Dogu): Option<bool> {
    if !a.versionIsValid(d.version) || a.parse(d.name).None? || a.descriptor(a.parse(d.name).value, d.version).None? then None
    else Some(exists v | v in a.descriptor(a.parse(d.name).value, d.version).value :: v)
  }

  /** Version, name and descriptor of the dogu can be read. */
  predicate Readable(a: Answers, d: Dogu) {
    a.versionIsValid(d.version) && a.parse(d.name).Some? && a.descriptor(a.parse(d.name).value, d.version).Some?
  }

  /** Wherever it stands in the descriptor. */
  predicate SomeVolumeNeedsBackup(a: Answers, d: Dogu)
    requires Readable(a, d)
  {
    var volumes := a.descriptor(a.parse(d.name).value, d.version).value;
    exists i :: 0 <= i < |volumes| && volumes[i]
  }

  method HasVolumeWithBackup(a: Answers, d: Dogu) returns (r: Option<bool>)
    ensures r == NeedsBackup(a, d)
    ensures r.None? <==> !Readable(a, d)
    ensures r == Some(true) <==> Readable(a, d) && SomeVolumeNeedsBackup(a, d)
  {
    if !a.versionIsValid(d.version) || a.parse(d.name).None? || a.descriptor(a.parse(d.name).value, d.version).None? {
      return None;
    }
    var volumes := a.descriptor(a.parse(d.name).value, d.version).value;
    for i := 0 to |volumes|
      invariant forall j | 0 <= j < i :: !volumes[j]
    {
      if volumes[i] {
        assert volumes[i] in volumes;
        return Some(true);
      }
    }
    r := Some(false);
  }

  /** Some poll within the limit saw at least the requested size. */
  ghost predicate SeenLargeEnough(a: Answers, i: nat, name: string, size: int) {
    exists k | 1 <= k <= MAX_RETRIES :: a.capacity(i, name, k).Some? && a.capacity(i, name, k).value >= size
  }

  method WaitForPvcResize(a: Answers, i: nat, name: string, size: int) returns (ok: bool)
    ensures ok <==> SeenLargeEnough(a, i, name, size)
  {
    var retries: nat := 0;
    while true
      invariant retries <= MAX_RETRIES
      invariant forall k | 1 <= k <= retries :: a.capacity(i, name, k).None? || a.capacity(i, name, k).value < size
      decreases MAX_RETRIES - retries
    {
      retries := retries + 1;
      if retries > MAX_RETRIES {
        return false;
      }
      var pvc := a.capacity(i, name, retries);
      if pvc.None? {
        continue;
      }
      if pvc.value >= size {
        return true;
      }
    }
    assert false;
  }

  ghost predicate Resized(a: Answers, i: nat, d: Dogu, size: int) {
    && a.parse(d.name).Some? && a.doguFound(i, a.parse(d.name).value) && a.doguUpdated(i, a.parse(d.name).value, size)
    && SeenLargeEnough(a, i, a.parse(d.name).value, size)
  }

  method Resize(a: Answers, i: nat, d: Dogu, size: int) returns (ok: bool)
    ensures ok <==> Resized(a, i, d, size)
  {
    if a.parse(d.name).None? {
      return false;
    }
    var name := a.parse(d.name).value;
    if !a.doguFound(i, name) || !a.doguUpdated(i, name, size) {
      return false;
    }
    ok := WaitForPvcResize(a, i, name, size);
  }

  // ---------- what is decided per exporter entry ----------

  datatype Job = Job(a: Answers, exporter: seq<Dogu>, importer: seq<Dogu>, excluded: seq<string>)

  /** The first importer dogu of this name, or |ds|. */
  function IndexOf(ds: seq<Dogu>, name: string): (i: nat)
    ensures i <= |ds|
    ensures i < |ds| ==> ds[i].name == name
    ensures forall j | 0 <= j < i :: ds[j].name != name
  {
    if ds == [] then 0 else if ds[0].name == name then 0 else 1 + IndexOf(ds[1..], name)
  }

  datatype Plan = Skip | Fail | Spawn(importer: Dogu)

  predicate Excluded(job: Job, d: Dogu) {
    exists n | n in job.excluded + [NGINX] :: Simple(job.a, n) == Simple(job.a, d.name)
  }

  function PlanFor(job: Job, i: nat): Plan
    requires i < |job.exporter|
  {
    var d := job.exporter[i];
    if Excluded(job, d) then Skip
    else
      var k := IndexOf(job.importer, d.name);
      if k == |job.importer| then Fail
      else
        match NeedsBackup(job.a, job.importer[k])
        case None => Fail
        case Some(needed) =>
          if needed && d.sizeInBytes > job.importer[k].sizeInBytes then Spawn(job.importer[k]) else Skip
  }

  /** The entry contributes an error. */
  ghost predicate Fails(job: Job, i: nat)
    requires i < |job.exporter|
  {
    match PlanFor(job, i)
    case Skip => false
    case Fail => true
    case Spawn(d) => !Resized(job.a, i, d, job.exporter[i].sizeInBytes)
  }

  /** Left out by its simple name, like nginx. */
  predicate LeftOut(job: Job, d: Dogu) {
    exists i :: 0 <= i < |job.excluded| + 1 && SameSimpleName(job.a, (job.excluded + ["official/nginx"])[i], d.name)
  }

  predicate SameSimpleName(a: Answers, m: string, n: string) {
    (if a.parse(m).Some? then a.parse(m).value else m) == (if a.parse(n).Some? then a.parse(n).value else n)
  }

  /** `k` is the importer's first dogu of this name. */
  ghost predicate IsFirst(job: Job, name: string, k: int) {
    0 <= k < |job.importer| && job.importer[k].name == name && forall j | 0 <= j < k :: job.importer[j].name != name
  }

  /** The importer's dogu is found under its simple name and gets the exporter's size, and one of the 60 polls
      of its claim sees that size. */
  ghost predicate Enlarges(job: Job, i: nat, k: int)
    requires i < |job.exporter| && 0 <= k < |job.importer|
  {
    && job.a.parse(job.importer[k].name).Some?
    && var name, size := job.a.parse(job.importer[k].name).value, job.exporter[i].sizeInBytes;
    && job.a.doguFound(i, name) && job.a.doguUpdated(i, name, size)
    && exists poll: nat :: 1 <= poll <= 60 && job.a.capacity(i, name, poll).Some? && job.a.capacity(i, name, poll).value >= size
  }

  /** The volume is fine: left out, or the importer's first dogu of the same name can be read, and has no volume
      to back up, or is large enough from the start, or gets there. */
  ghost predicate VolumeFine(job: Job, i: nat)
    requires i < |job.exporter|
  {
    var d := job.exporter[i];
    LeftOut(job, d) ||
    exists k :: IsFirst(job, d.name, k) && Readable(job.a, job.importer[k]) &&
      (|| !SomeVolumeNeedsBackup(job.a, job.importer[k])
       || d.sizeInBytes <= job.importer[k].sizeInBytes
       || Enlarges(job, i, k))
  }

  lemma LeftOutIff(job: Job, d: Dogu)
    ensures LeftOut(job, d) <==> Excluded(job, d)
  {
    var names := job.excluded + [NGINX];
    if Excluded(job, d) {
      var n :| n in names && Simple(job.a, n) == Simple(job.a, d.name);
      var i :| 0 <= i < |names| && names[i] == n;
      assert SameSimpleName(job.a, names[i], d.name);
    }
    if LeftOut(job, d) {
      var i :| 0 <= i < |job.excluded| + 1 && SameSimpleName(job.a, (job.excluded + ["official/nginx"])[i], d.name);
      assert names[i] in names;
    }
  }

  lemma BackupIff(a: Answers, d: Dogu)
    ensures NeedsBackup(a, d).None? <==> !Readable(a, d)
    ensures Readable(a, d) ==> (NeedsBackup(a, d).value <==> SomeVolumeNeedsBackup(a, d))
  {
    if Readable(a, d) {
      var volumes := a.descriptor(a.parse(d.name).value, d.version).value;
      if NeedsBackup(a, d).value {
        assert true in volumes;
        var i :| 0 <= i < |volumes| && volumes[i];
      }
      if i :| 0 <= i < |volumes| && volumes[i] {
        assert volumes[i] in volumes;
      }
    }
  }

  lemma ResizedIff(job: Job, i: nat, k: int)
    requires i < |job.exporter| && 0 <= k < |job.importer|
    ensures Resized(job.a, i, job.importer[k], job.exporter[i].sizeInBytes) <==> Enlarges(job, i, k)
  {
  }

  /** An entry contributes an error exactly when its volume is not fine. */
  lemma FailsIffNotFine(job: Job, i: nat)
    requires i < |job.exporter|
    ensures Fails(job, i) <==> !VolumeFine(job, i)
  {
    var d := job.exporter[i];
    LeftOutIff(job, d);
    if !Excluded(job, d) {
      var k := IndexOf(job.importer, d.name);
      if k < |job.importer| {
        assert IsFirst(job, d.name, k);
        assert forall m | IsFirst(job, d.name, m) :: m == k;
        BackupIff(job.a, job.importer[k]);
        ResizedIff(job, i, k);
      }
    }
  }

  // ---------- the goroutines ----------

  datatype Worker = Untouched | NoWorker | Working | Sending | Finished

  datatype Main = Looping | Draining | Ended

  /** `workers[i]` belongs to exporter entry i; `channel` and `joined` hold the entries whose error is
      buffered or already joined. */
  datatype State = State(main: Main, next: nat, workers: seq<Worker>, channel: seq<nat>, closed: bool, joined: seq<nat>)

  datatype Action = Decide | StartCloser | Work(i: nat) | Send(i: nat) | Close | Receive | End

  function Init(job: Job): State {
    State(Looping, 0, seq(|job.exporter|, _ => Untouched), [], false, [])
  }

  /** The channel is made with one place per exporter entry. */
  function Capacity(job: Job): nat { |job.exporter| }

  ghost function Step(job: Job, s: State, a: Action): Option<State>
    requires |s.workers| == |job.exporter|
  {
    match a
    case Decide =>
      if s.main != Looping || s.next >= |job.exporter| then None
      else
        var s' := s.(next := s.next + 1);
        (match PlanFor(job, s.next)
         case Skip => Some(s'.(workers := s.workers[s.next := NoWorker]))
         case Fail => Some(s'.(workers := s.workers[s.next := NoWorker], joined := s.joined + [s.next]))
         case Spawn(_) => Some(s'.(workers := s.workers[s.next := Working])))
    case StartCloser =>
      if s.main == Looping && s.next >= |job.exporter| then Some(s.(main := Draining)) else None
    case Work(i) =>
      if i >= |s.workers| || s.workers[i] != Working then None
      else if Fails(job, i) then Some(s.(workers := s.workers[i := Sending]))
      else Some(s.(workers := s.workers[i := Finished]))
    case Send(i) =>
      if i >= |s.workers| || s.workers[i] != Sending || |s.channel| >= Capacity(job) then None
      else Some(s.(workers := s.workers[i := Finished], channel := s.channel + [i]))
    case Close =>
      if s.main == Draining && !s.closed && (forall i | 0 <= i < |s.workers| :: s.workers[i] != Working && s.workers[i] != Sending)
      then Some(s.(closed := true)) else None
    case Receive =>
      if s.main == Draining && s.channel != [] then Some(s.(joined := s.joined + [s.channel[0]], channel := s.channel[1..])) else None
    case End =>
      if s.main == Draining && s.closed && s.channel == [] then Some(s.(main := Ended)) else None
  }

  // ---------- invariant ----------

  ghost predicate NoDuplicates(s: seq<nat>) {
    forall i, j | 0 <= i < j < |s| :: s[i] != s[j]
  }

  /** The error of entry i has been produced. */
  ghost predicate Reported(job: Job, s: State, i: nat)
    requires |s.workers| == |job.exporter|
  {
    i < s.next && i < |job.exporter| && Fails(job, i) && s.workers[i] != Working && s.workers[i] != Sending
  }

  ghost predicate Inv(job: Job, s: State) {
    && |s.workers| == |job.exporter| && s.next <= |job.exporter|
    && (forall i | 0 <= i < |s.workers| :: s.workers[i] == Untouched <==> s.next <= i)
    && (forall i | 0 <= i < s.next :: PlanFor(job, i).Spawn? <==> s.workers[i] != NoWorker)
    && (forall i | 0 <= i < s.next && s.workers[i] == Sending :: Fails(job, i))
    && NoDuplicates(s.joined) && NoDuplicates(s.channel)
    && (forall i | i in s.joined :: i !in s.channel)
    && (forall i: nat :: i in s.joined || i in s.channel <==> Reported(job, s, i))
    && (s.main != Looping ==> s.next == |job.exporter|)
    && (s.closed ==> s.main != Looping && forall i | 0 <= i < |s.workers| :: s.workers[i] != Working && s.workers[i] != Sending)
    && (s.main == Ended ==> s.closed && s.channel == [])
  }

  lemma DecideKeepsInv(job: Job, s: State)
    requires Inv(job, s) && Step(job, s, Decide).Some?
    ensures Inv(job, Step(job, s, Decide).value)
  {
    var t := Step(job, s, Decide).value;
    assert !Reported(job, s, s.next);
    forall i: nat ensures i in t.joined || i in t.channel <==> Reported(job, t, i) {
      assert i in s.joined || i in s.channel <==> Reported(job, s, i);
    }
  }

  lemma WorkKeepsInv(job: Job, s: State, i: nat)
    requires Inv(job, s) && Step(job, s, Work(i)).Some?
    ensures Inv(job, Step(job, s, Work(i)).value)
  {
    var t := Step(job, s, Work(i)).value;
    forall k: nat ensures k in t.joined || k in t.channel <==> Reported(job, t, k) {
      assert k in s.joined || k in s.channel <==> Reported(job, s, k);
    }
  }

  lemma SendKeepsInv(job: Job, s: State, i: nat)
    requires Inv(job, s) && Step(job, s, Send(i)).Some?
    ensures Inv(job, Step(job, s, Send(i)).value)
  {
    var t := Step(job, s, Send(i)).value;
    assert !Reported(job, s, i);
    forall k: nat ensures k in t.joined || k in t.channel <==> Reported(job, t, k) {
      assert k in s.joined || k in s.channel <==> Reported(job, s, k);
    }
  }

  lemma ReceiveKeepsInv(job: Job, s: State)
    requires Inv(job, s) && Step(job, s, Receive).Some?
    ensures Inv(job, Step(job, s, Receive).value)
  {
    var t := Step(job, s, Receive).value;
    assert s.channel == [s.channel[0]] + t.channel;
    assert s.channel[0] in s.channel;
    forall k: nat ensures k in t.joined || k in t.channel <==> Reported(job, t, k) {
      assert k in s.joined || k in s.channel <==> Reported(job, s, k);
    }
  }

  lemma StepKeepsInv(job: Job, s: State, a: Action)
    requires Inv(job, s) && Step(job, s, a).Some?
    ensures Inv(job, Step(job, s, a).value)
  {
    match a
    case Decide => DecideKeepsInv(job, s);
    case Work(i) => WorkKeepsInv(job, s, i);
    case Send(i) => SendKeepsInv(job, s, i);
    case Receive => ReceiveKeepsInv(job, s);
    case StartCloser =>
      assert forall k: nat :: Reported(job, Step(job, s, a).value, k) <==> Reported(job, s, k);
    case Close =>
      assert forall k: nat :: Reported(job, Step(job, s, a).value, k) <==> Reported(job, s, k);
    case End =>
      assert forall k: nat :: Reported(job, Step(job, s, a).value, k) <==> Reported(job, s, k);
  }

  // ---------- runs ----------

  ghost function Exec(job: Job, run: seq<Action>): Option<State> {
    if run == [] then Some(Init(job))
    else
      match Exec(job, run[..|run| - 1])
      case None => None
      case Some(s) => if |s.workers| == |job.exporter| then Step(job, s, run[|run| - 1]) else None
  }

  lemma {:induction false} RunsKeepInv(job: Job, run: seq<Action>)
    requires Exec(job, run).Some?
    ensures Inv(job, Exec(job, run).value)
  {
    if run == [] {
      assert forall i: nat :: !Reported(job, Init(job), i);
    } else {
      RunsKeepInv(job, run[..|run| - 1]);
      StepKeepsInv(job, Exec(job, run[..|run| - 1]).value, run[|run| - 1]);
    }
  }

  function Below(n: nat): (numbers: set<nat>)
    ensures |numbers| == n && forall i: nat :: i in numbers <==> i < n
  {
    if n == 0 then {} else Below(n - 1) + {n - 1}
  }

  function Elements(s: seq<nat>): set<nat> {
    set i | i in s
  }

  /** A sequence without duplicates over 0..n that misses some number below n is shorter than n. */
  lemma ShorterThan(s: seq<nat>, n: nat, missing: nat)
    requires NoDuplicates(s) && missing < n && missing !in s
    requires forall i | i in s :: i < n
    ensures |s| < n
  {
    ElementCount(s);
    SubsetCount(Elements(s), Below(n) - {missing});
  }

  lemma {:induction false} ElementCount(s: seq<nat>)
    requires NoDuplicates(s)
    ensures |Elements(s)| == |s|
  {
    if s != [] {
      var front, last := s[..|s| - 1], s[|s| - 1];
      ElementCount(front);
      assert s == front + [last];
      assert forall i | 0 <= i < |front| :: s[i] == front[i];
      assert Elements(s) == Elements(front) + {last};
    }
  }

  lemma {:induction false} SubsetCount(a: set<nat>, b: set<nat>)
    requires a <= b
    ensures |a| <= |b|
  {
    if a != {} {
      var x :| x in a;
      SubsetCount(a - {x}, b - {x});
    }
  }

  /** Whenever a worker is about to send its error, the channel is open and has a free place: no send ever
      blocks or panics. */
  lemma SendNeverBlocks(job: Job, run: seq<Action>, s: State, i: nat)
    requires Exec(job, run) == Some(s) && i < |s.workers| && s.workers[i] == Sending
    ensures Step(job, s, Send(i)).Some? && !s.closed
  {
    RunsKeepInv(job, run);
    assert !Reported(job, s, i);
    forall k | k in s.channel ensures k < |job.exporter| {
      assert Reported(job, s, k);
    }
    ShorterThan(s.channel, |job.exporter|, i);
  }

  /** Until the main goroutine has ended, some goroutine can go on. */
  lemma NoDeadlock(job: Job, run: seq<Action>, s: State) returns (a: Action)
    requires Exec(job, run) == Some(s) && s.main != Ended
    ensures Step(job, s, a).Some?
  {
    hide Exec, Reported;
    RunsKeepInv(job, run);
    if s.main == Looping {
      a := if s.next < |job.exporter| then Decide else StartCloser;
    } else if exists i :: 0 <= i < |s.workers| && s.workers[i] == Working {
      var i :| 0 <= i < |s.workers| && s.workers[i] == Working;
      a := Work(i);
    } else if exists i :: 0 <= i < |s.workers| && s.workers[i] == Sending {
      var i :| 0 <= i < |s.workers| && s.workers[i] == Sending;
      SendNeverBlocks(job, run, s, i);
      a := Send(i);
    } else if s.channel != [] {
      a := Receive;
    } else {
      a := if s.closed then End else Close;
    }
  }

  function Weight(w: Worker): nat {
    match w
    case Untouched => 4
    case Working => 3
    case Sending => 2
    case NoWorker => 0
    case Finished => 0
  }

  function Weights(ws: seq<Worker>): nat {
    if ws == [] then 0 else Weights(ws[..|ws| - 1]) + Weight(ws[|ws| - 1])
  }

  lemma {:induction false} WeightsUpdate(ws: seq<Worker>, i: nat, w: Worker)
    requires i < |ws|
    ensures Weights(ws[i := w]) == Weights(ws) - Weight(ws[i]) + Weight(w)
  {
    if i < |ws| - 1 {
      WeightsUpdate(ws[..|ws| - 1], i, w);
      assert ws[i := w][..|ws| - 1] == ws[..|ws| - 1][i := w];
    } else {
      assert ws[i := w][..|ws| - 1] == ws[..|ws| - 1];
    }
  }

  function Remaining(s: State): nat {
    Weights(s.workers) + |s.channel| + (if s.closed then 0 else 1) + (match s.main case Looping => 2 case Draining => 1 case Ended => 0)
  }

  lemma StepsCountDown(job: Job, s: State, a: Action)
    requires |s.workers| == |job.exporter| && (s.next < |s.workers| ==> s.workers[s.next] == Untouched)
    requires Step(job, s, a).Some?
    ensures Remaining(Step(job, s, a).value) < Remaining(s)
  {
    match a
    case Decide =>
      WeightsUpdate(s.workers, s.next, NoWorker);
      WeightsUpdate(s.workers, s.next, Working);
    case Work(i) =>
      WeightsUpdate(s.workers, i, Sending);
      WeightsUpdate(s.workers, i, Finished);
    case Send(i) => WeightsUpdate(s.workers, i, Finished);
    case _ =>
  }

  lemma {:induction false} InitialWeights(n: nat)
    ensures Weights(seq(n, _ => Untouched)) == 4 * n
  {
    if n > 0 {
      InitialWeights(n - 1);
      assert seq(n, _ => Untouched)[..n - 1] == seq(n - 1, _ => Untouched);
    }
  }

  /** Under every interleaving the run is over after at most 4n + 3 steps. */
  lemma {:induction false} EveryRunEnds(job: Job, run: seq<Action>)
    requires Exec(job, run).Some?
    ensures |run| + Remaining(Exec(job, run).value) <= 4 * |job.exporter| + 3
  {
    if run == [] {
      InitialWeights(|job.exporter|);
      assert Init(job).workers == seq(|job.exporter|, _ => Untouched);
    } else {
      var front := run[..|run| - 1];
      EveryRunEnds(job, front);
      RunsKeepInv(job, front);
      StepsCountDown(job, Exec(job, front).value, run[|run| - 1]);
    }
  }

  /** Under every interleaving the joined errors are exactly one per failing exporter entry, and no error
      at all means that every volume is fine. */
  lemma OneErrorPerFailure(job: Job, run: seq<Action>, s: State)
    requires Exec(job, run) == Some(s) && s.main == Ended
    ensures NoDuplicates(s.joined)
    ensures forall i: nat :: i in s.joined <==> i < |job.exporter| && !VolumeFine(job, i)
    ensures s.joined == [] <==> forall i: nat | i < |job.exporter| :: VolumeFine(job, i)
  {
    RunsKeepInv(job, run);
    forall i: nat ensures i in s.joined <==> i < |job.exporter| && !VolumeFine(job, i) {
      assert i in s.joined || i in s.channel <==> Reported(job, s, i);
      if i < |job.exporter| {
        FailsIffNotFine(job, i);
      }
    }
    hide VolumeFine;
    if s.joined != [] {
      assert s.joined[0] in s.joined;
    }
  }
}
