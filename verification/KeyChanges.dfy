/** When a sequence of import jobs can change one of the importer's own keys although none of them may change
    the FQDN. A smuggled entry takes two imports: the first one stores it with a slash in front, where it
    counts as kept, and the second one copies it to its place. */
module KeyChanges {
  import opened Kubernetes
  import opened ConfigTree
  import opened UnorderedCopy
  import opened GlobalImport
  import opened ImportJob

  /** A run in which no job may change the FQDN. */
  ghost predicate PlainRun(jobs: seq<Job>, r: Run, keep: Keep) {
    IsRun(jobs, r, keep) && NoneQualifies(jobs, r)
  }

  /** A key that imports, one after the other, copy to `key`: it has slashes in front, and counts as kept after
      each of the copies. */
  predicate Waits(k: Key, key: Key, keep: Keep)
    decreases |k|
  {
    Kept(k, keep) && Trim(k) != k && (Trim(k) == key || Waits(Trim(k), key, keep))
  }

  ghost predicate NothingWaits(keys: set<Key>, key: Key, keep: Keep) {
    forall k | k in keys :: !Waits(k, key, keep)
  }

  /** Some outcome of the jobs leaves `key` with another value than before, or appearing, or gone, although
      nothing was waiting for it in the store. */
  ghost predicate CanChange(jobs: seq<Job>, key: Key, keep: Keep) {
    exists r :: PlainRun(jobs, r, keep) && NothingWaits(Previous(r.stored[0]).Keys, key, keep)
      && Get(Previous(r.stored[0]), key) != Get(Previous(r.stored[|jobs|]), key)
  }

  /** Nothing waits in a store whose kept keys are without a leading slash. */
  lemma NothingWaitsWhenSettled(p: Config, key: Key, keep: Keep)
    requires Settled(p, keep)
    ensures NothingWaits(p.Keys, key, keep)
  {
  }

  /** Unless the spelling with one slash is itself kept, it is the only one that waits. */
  lemma {:induction false} WaitsIff(k: Key, key: Key, keep: Keep)
    requires Trim(key) == key && Kept(key, keep) && !Kept("//" + key, keep)
    ensures Waits(k, key, keep) <==> k == "/" + key
    decreases |k|
  {
    var slashed := "/" + key;
    assert Trim(slashed) == key && Kept(slashed, keep);
    if Trim(k) != k {
      WaitsIff(Trim(k), key, keep);
      TrimmedTo(k, Trim(k));
      assert "/" + slashed == "//" + key;
    }
  }

  // ---------- the keys that exporters bring in ----------

  /** The keys of the store after an import into a store with `keys`. */
  function After(keys: set<Key>, e: seq<KeyValue>, keep: Keep): set<Key> {
    (set k | k in keys && Kept(k, keep) :: Trim(k)) + Imported(e, keep).Keys
  }

  /** The jobs in `saves` save, the others do not. */
  predicate Saves(jobs: seq<Job>, saves: set<nat>, i: nat)
    requires i < |jobs|
  {
    i in saves && jobs[i].exported.Some?
  }

  /** The keys after `n` jobs that start with an empty store. */
  function Brought(jobs: seq<Job>, saves: set<nat>, n: nat, keep: Keep): set<Key>
    requires n <= |jobs|
  {
    if n == 0 then {}
    else if Saves(jobs, saves, n - 1) then After(Brought(jobs, saves, n - 1, keep), jobs[n - 1].exported.value, keep)
    else Brought(jobs, saves, n - 1, keep)
  }

  /** Each of these saves fits in one key tree. */
  ghost predicate Fit(jobs: seq<Job>, saves: set<nat>, n: nat, keep: Keep)
    requires n <= |jobs|
  {
    forall i | 0 <= i < n && Saves(jobs, saves, i) ::
      AncestorFree(After(Brought(jobs, saves, i, keep), jobs[i].exported.value, keep))
  }

  /** Exporter entries alone can make `key` appear in an empty store. */
  ghost predicate Appears(jobs: seq<Job>, key: Key, keep: Keep) {
    exists saves :: Fit(jobs, saves, |jobs|, keep) && key in Brought(jobs, saves, |jobs|, keep)
  }

  lemma {:induction false} KeptKeyStays(jobs: seq<Job>, saves: set<nat>, m: nat, n: nat, keep: Keep, key: Key)
    requires m <= n <= |jobs| && Trim(key) == key && Kept(key, keep)
    ensures key in Brought(jobs, saves, m, keep) ==> key in Brought(jobs, saves, n, keep)
    decreases n
  {
    if m < n {
      KeptKeyStays(jobs, saves, m, n - 1, keep, key);
    }
  }

  lemma MergedKeys(p: Config, e: seq<KeyValue>, keep: Keep, r: Config)
    requires Merged(p, e, keep, r)
    ensures r.Keys == After(p.Keys, e, keep)
  {
    var c :| CopyOf(KeptPart(p, keep), c) && r == c + Imported(e, keep);
    assert c.Keys == (set k | k in p.Keys && Kept(k, keep) :: Trim(k));
  }

  lemma TargetsAreAfter(p: Config, e: seq<KeyValue>, keep: Keep)
    ensures TargetKeys(p, e, keep) == After(p.Keys, e, keep)
  {
  }

  // ---------- a run changes nothing that the exporters do not bring in ----------

  /** The jobs of a run that save. */
  ghost function SavesOf(jobs: seq<Job>, r: Run, keep: Keep): set<nat>
    requires PlainRun(jobs, r, keep)
  {
    set i: nat | i < |jobs| && jobs[i].exported.Some? && SavedFrom(r.stored[i], jobs[i].exported.value, keep, r.stored[i + 1])
  }

  /** What imports leave of keys, whatever else is in the store. */
  function Leaves(keys: set<Key>, keep: Keep): set<Key> {
    set k | k in keys && Kept(k, keep) :: Trim(k)
  }

  lemma AfterSplits(left: set<Key>, brought: set<Key>, e: seq<KeyValue>, keep: Keep)
    ensures After(left + brought, e, keep) == Leaves(left, keep) + After(brought, e, keep)
  {
  }

  lemma NothingNewWaits(keys: set<Key>, key: Key, keep: Keep)
    requires Trim(key) == key && NothingWaits(keys, key, keep)
    ensures NothingWaits(Leaves(keys, keep), key, keep)
  {
    forall t | t in Leaves(keys, keep) ensures !Waits(t, key, keep) {
      var k :| k in keys && Kept(k, keep) && Trim(k) == t;
      assert !Waits(k, key, keep);
    }
  }

  lemma SaveSplits(p: Config, q: Config, left: set<Key>, brought: set<Key>, e: seq<KeyValue>, keep: Keep)
    requires p.Keys == left + brought && Mergeable(p, e, keep) && Merged(p, e, keep, q)
    ensures q.Keys == Leaves(left, keep) + After(brought, e, keep) && AncestorFree(After(brought, e, keep))
  {
    MergedKeys(p, e, keep, q);
    TargetsAreAfter(p, e, keep);
    AfterSplits(left, brought, e, keep);
    AncestorFreeSubset(After(p.Keys, e, keep), After(brought, e, keep));
  }

  lemma NotSaved(jobs: seq<Job>, r: Run, i: nat, keep: Keep)
    requires i < |jobs| && PlainRun(jobs, r, keep) && !Saves(jobs, SavesOf(jobs, r, keep), i)
    ensures Previous(r.stored[i + 1]) == Previous(r.stored[i])
  {
    assert Step(r.stored[i], jobs[i], r.configOk[i], r.stored[i + 1], keep);
  }

  lemma OneMoreSave(jobs: seq<Job>, saves: set<nat>, i: nat, keep: Keep)
    requires i < |jobs| && Saves(jobs, saves, i) && Fit(jobs, saves, i, keep)
    requires AncestorFree(After(Brought(jobs, saves, i, keep), jobs[i].exported.value, keep))
    ensures Fit(jobs, saves, i + 1, keep)
    ensures Brought(jobs, saves, i + 1, keep) == After(Brought(jobs, saves, i, keep), jobs[i].exported.value, keep)
  {
    hide AncestorFree, After;
  }

  lemma NoSave(jobs: seq<Job>, saves: set<nat>, i: nat, keep: Keep)
    requires i < |jobs| && !Saves(jobs, saves, i) && Fit(jobs, saves, i, keep)
    ensures Fit(jobs, saves, i + 1, keep)
    ensures Brought(jobs, saves, i + 1, keep) == Brought(jobs, saves, i, keep)
  {
    hide AncestorFree, After;
  }

  lemma OneMoreStore(jobs: seq<Job>, r: Run, keep: Keep)
    requires PlainRun(jobs, r, keep)
    ensures |r.stored| == |jobs| + 1
  {
  }

  lemma AtTheStart(jobs: seq<Job>, saves: set<nat>, keep: Keep)
    ensures Brought(jobs, saves, 0, keep) == {} && Fit(jobs, saves, 0, keep)
  {
  }

  lemma SavedIsMerged(jobs: seq<Job>, r: Run, i: nat, keep: Keep)
    requires i < |jobs| && PlainRun(jobs, r, keep) && Saves(jobs, SavesOf(jobs, r, keep), i)
    ensures var p, q, e := Previous(r.stored[i]), Previous(r.stored[i + 1]), jobs[i].exported.value;
            Mergeable(p, e, keep) && Merged(p, e, keep, q)
  {
    hide Mergeable, Merged;
  }

  lemma KeysOfStep(jobs: seq<Job>, r: Run, i: nat, keep: Keep, key: Key, left: set<Key>) returns (left': set<Key>)
    requires i < |jobs| && PlainRun(jobs, r, keep) && Trim(key) == key
    requires Fit(jobs, SavesOf(jobs, r, keep), i, keep) && NothingWaits(left, key, keep)
    requires Previous(r.stored[i]).Keys == left + Brought(jobs, SavesOf(jobs, r, keep), i, keep)
    ensures Fit(jobs, SavesOf(jobs, r, keep), i + 1, keep) && NothingWaits(left', key, keep)
    ensures left' == left || left' == Leaves(left, keep)
    ensures Previous(r.stored[i + 1]).Keys == left' + Brought(jobs, SavesOf(jobs, r, keep), i + 1, keep)
  {
    assert |r.stored| == |jobs| + 1;
    hide SavesOf, PlainRun, Brought, Fit, After, Mergeable, Merged, AncestorFree, Kept, Previous, NothingWaits, Leaves, Trim;
    var saves := SavesOf(jobs, r, keep);
    if Saves(jobs, saves, i) {
      SavedIsMerged(jobs, r, i, keep);
      SaveSplits(Previous(r.stored[i]), Previous(r.stored[i + 1]), left, Brought(jobs, saves, i, keep), jobs[i].exported.value, keep);
      NothingNewWaits(left, key, keep);
      left' := Leaves(left, keep);
      OneMoreSave(jobs, saves, i, keep);
    } else {
      NotSaved(jobs, r, i, keep);
      NoSave(jobs, saves, i, keep);
      left' := left;
    }
  }

  /** The keys of the store are what is left of the first one, and what the exporters brought; nothing that is
      left waits for a key that nothing waited for before. */
  lemma {:induction false} KeysOfRun(jobs: seq<Job>, r: Run, n: nat, keep: Keep, key: Key) returns (left: set<Key>)
    requires n <= |jobs| && PlainRun(jobs, r, keep) && Trim(key) == key && NothingWaits(Previous(r.stored[0]).Keys, key, keep)
    ensures Fit(jobs, SavesOf(jobs, r, keep), n, keep) && NothingWaits(left, key, keep)
    ensures Previous(r.stored[n]).Keys == left + Brought(jobs, SavesOf(jobs, r, keep), n, keep)
    ensures Settled(Previous(r.stored[0]), keep) ==> left <= Previous(r.stored[0]).Keys
  {
    hide *;
    OneMoreStore(jobs, r, keep);
    AtTheStart(jobs, SavesOf(jobs, r, keep), keep);
    if n == 0 {
      left := Previous(r.stored[0]).Keys;
    } else {
      var before := KeysOfRun(jobs, r, n - 1, keep, key);
      left := KeysOfStep(jobs, r, n - 1, keep, key, before);
      SettledLeavesLess(Previous(r.stored[0]), before, keep);
    }
  }

  lemma SettledLeavesLess(first: Config, left: set<Key>, keep: Keep)
    ensures Settled(first, keep) && left <= first.Keys ==> Leaves(left, keep) <= first.Keys
  {
    hide Kept;
  }

  lemma SaveKeeps(p: Config, q: Config, left: set<Key>, brought: set<Key>, e: seq<KeyValue>, keep: Keep, key: Key)
    requires NothingWaits(left, key, keep) && p.Keys == left + brought
    requires Trim(key) == key && Kept(key, keep) && key !in After(brought, e, keep)
    requires Merged(p, e, keep, q)
    ensures Get(q, key) == Get(p, key)
  {
    hide Merged, AncestorFree, Imported;
    var slashed := "/" + key;
    assert Trim(slashed) == key && Kept(slashed, keep) && Waits(slashed, key, keep);
    assert slashed !in p.Keys;
    KeptEntrySurvives(p, e, keep, q, key);
  }

  lemma StepKeepsKey(jobs: seq<Job>, r: Run, i: nat, keep: Keep, key: Key)
    requires i < |jobs| && PlainRun(jobs, r, keep) && NothingWaits(Previous(r.stored[0]).Keys, key, keep)
    requires Trim(key) == key && Kept(key, keep) && key !in Brought(jobs, SavesOf(jobs, r, keep), i + 1, keep)
    ensures Get(Previous(r.stored[i + 1]), key) == Get(Previous(r.stored[i]), key)
  {
    assert |r.stored| == |jobs| + 1;
    hide SavesOf, PlainRun, Kept, NothingWaits, After, Merged, Mergeable, Trim, ConfigTree.Get;
    var saves := SavesOf(jobs, r, keep);
    if Saves(jobs, saves, i) {
      var left := KeysOfRun(jobs, r, i, keep, key);
      SavedIsMerged(jobs, r, i, keep);
      SaveKeeps(Previous(r.stored[i]), Previous(r.stored[i + 1]), left, Brought(jobs, saves, i, keep), jobs[i].exported.value, keep, key);
    } else {
      NotSaved(jobs, r, i, keep);
    }
  }

  lemma {:induction false} NothingBroughtNothingChanged(jobs: seq<Job>, r: Run, n: nat, keep: Keep, key: Key)
    requires n <= |jobs| && PlainRun(jobs, r, keep) && NothingWaits(Previous(r.stored[0]).Keys, key, keep)
    requires Trim(key) == key && Kept(key, keep) && key !in Brought(jobs, SavesOf(jobs, r, keep), n, keep)
    ensures Get(Previous(r.stored[n]), key) == Get(Previous(r.stored[0]), key)
  {
    hide *;
    OneMoreStore(jobs, r, keep);
    if n > 0 {
      KeptKeyStays(jobs, SavesOf(jobs, r, keep), n - 1, n, keep, key);
      NothingBroughtNothingChanged(jobs, r, n - 1, keep, key);
      StepKeepsKey(jobs, r, n - 1, keep, key);
    }
  }

  // ---------- and whatever they can bring in, some run brings in ----------

  /** What fits can be saved, even by a job that fails afterwards. */
  lemma OneSave(before: Option<Config>, job: Job, keep: Keep) returns (next: Option<Config>)
    requires job.exported.Some? && AncestorFree(After(Previous(before).Keys, job.exported.value, keep))
    ensures Step(before, job, false, next, keep)
    ensures Previous(next).Keys == After(Previous(before).Keys, job.exported.value, keep)
  {
    var e, p := job.exported.value, Previous(before);
    var c := CopyExists(KeptPart(p, keep));
    next := Some(c + Imported(e, keep));
    hide CopyOf, AncestorFree;
    assert Merged(p, e, keep, next.value);
    MergedKeys(p, e, keep, next.value);
    TargetsAreAfter(p, e, keep);
    assert ConfigSynced(before, job.exported, keep, next, false);
  }

  /** The stored configs of a run in which exactly the jobs in `saves` save, from an importer without config. */
  lemma {:induction false} BuildRun(jobs: seq<Job>, saves: set<nat>, n: nat, keep: Keep) returns (stored: seq<Option<Config>>)
    requires n <= |jobs| && Fit(jobs, saves, n, keep)
    ensures |stored| == n + 1 && stored[0] == None
    ensures forall i | 0 <= i < n :: Step(stored[i], jobs[i], false, stored[i + 1], keep)
    ensures Previous(stored[n]).Keys == Brought(jobs, saves, n, keep)
  {
    if n == 0 {
      stored := [None];
    } else {
      var front := BuildRun(jobs, saves, n - 1, keep);
      var last := front[n - 1];
      if Saves(jobs, saves, n - 1) {
        var next := OneSave(last, jobs[n - 1], keep);
        stored := front + [next];
      } else {
        assert ConfigSynced(last, jobs[n - 1].exported, keep, last, false);
        stored := front + [last];
      }
    }
  }

  /** Some run takes the key from absent to present. */
  lemma SomeRunBringsIt(jobs: seq<Job>, key: Key, keep: Keep) returns (r: Run)
    requires Appears(jobs, key, keep)
    ensures PlainRun(jobs, r, keep) && r.stored[0] == None && key in Previous(r.stored[|jobs|])
  {
    var saves :| Fit(jobs, saves, |jobs|, keep) && key in Brought(jobs, saves, |jobs|, keep);
    var stored := BuildRun(jobs, saves, |jobs|, keep);
    r := Run(seq(|jobs|, _ => false), stored);
  }

  /** A kept key can change exactly when the exporters can make it appear. */
  lemma ChangesIffAppears(jobs: seq<Job>, key: Key, keep: Keep)
    requires Trim(key) == key && Kept(key, keep)
    ensures CanChange(jobs, key, keep) <==> Appears(jobs, key, keep)
  {
    if CanChange(jobs, key, keep) {
      var r :| PlainRun(jobs, r, keep) && NothingWaits(Previous(r.stored[0]).Keys, key, keep)
        && Get(Previous(r.stored[0]), key) != Get(Previous(r.stored[|jobs|]), key);
      var left := KeysOfRun(jobs, r, |jobs|, keep, key);
      if key !in Brought(jobs, SavesOf(jobs, r, keep), |jobs|, keep) {
        NothingBroughtNothingChanged(jobs, r, |jobs|, keep, key);
      }
    }
    if Appears(jobs, key, keep) {
      var r := SomeRunBringsIt(jobs, key, keep);
    }
  }

  lemma ByThese(jobs: seq<Job>, saves: set<nat>, key: Key, keep: Keep)
    requires Fit(jobs, saves, |jobs|, keep) && key in Brought(jobs, saves, |jobs|, keep)
    ensures Appears(jobs, key, keep)
  {
  }

  // ---------- which two jobs it takes ----------

  /** The exporter config of the job has an entry that is stored as the key with a slash in front, and could
      be imported into an empty store. */
  ghost predicate Plants(job: Job, key: Key, keep: Keep) {
    job.exported.Some? && "/" + key in Imported(job.exported.value, keep) && Mergeable(map[], job.exported.value, keep)
  }

  /** The exporter config of `later` can be imported on top of that of `job`. */
  ghost predicate FitsOn(job: Job, later: Job, keep: Keep)
    requires job.exported.Some?
  {
    later.exported.Some? && Mergeable(Imported(job.exported.value, keep), later.exported.value, keep)
  }

  /** One job plants the key, and a later one can be imported on top of it. */
  ghost predicate TwoJobs(jobs: seq<Job>, key: Key, keep: Keep) {
    exists i, j | 0 <= i < j < |jobs| :: Plants(jobs[i], key, keep) && FitsOn(jobs[i], jobs[j], keep)
  }

  /** Planting takes an entry with two slashes in front of the key. */
  lemma PlantedByTwoSlashes(e: seq<KeyValue>, key: Key, keep: Keep)
    requires Trim(key) == key && !Kept("//" + key, keep)
    ensures "/" + key in Imported(e, keep) <==> exists kv | kv in e :: kv.key == "//" + key
  {
    var t := "/" + key;
    assert Trim("//" + key) == t;
    ImportedAreNotKept(e, keep);
    SurvivorsAreImported(e, keep);
    if t in Imported(e, keep) {
      var kv :| kv in e && Trim(kv.key) == t && !Kept(kv.key, keep);
      TrimmedTo(kv.key, t);
      assert "/" + t == "//" + key;
      assert Trim(t) == key;
    }
  }

  /** The key arrives with a save before which it was there with a slash in front. */
  lemma {:induction false} Arrival(jobs: seq<Job>, saves: set<nat>, n: nat, keep: Keep, key: Key) returns (j: nat)
    requires n <= |jobs| && Trim(key) == key && Kept(key, keep) && key in Brought(jobs, saves, n, keep)
    ensures j < n && Saves(jobs, saves, j) && "/" + key in Brought(jobs, saves, j, keep)
  {
    if key in Brought(jobs, saves, n - 1, keep) {
      j := Arrival(jobs, saves, n - 1, keep, key);
    } else {
      j := n - 1;
      var keys, e := Brought(jobs, saves, j, keep), jobs[j].exported.value;
      ImportedAreNotKept(e, keep);
      assert forall kv | kv in e && Trim(kv.key) == key :: Kept(kv.key, keep);
      var k :| k in keys && Kept(k, keep) && Trim(k) == key;
      TrimmedTo(k, key);
    }
  }

  /** There it was imported to, by the last save before. */
  lemma {:induction false} Planting(jobs: seq<Job>, saves: set<nat>, n: nat, keep: Keep, key: Key) returns (i: nat)
    requires n <= |jobs| && Trim(key) == key && !Kept("//" + key, keep) && "/" + key in Brought(jobs, saves, n, keep)
    ensures i < n && Saves(jobs, saves, i) && "/" + key in Imported(jobs[i].exported.value, keep)
    ensures Imported(jobs[i].exported.value, keep).Keys <= Brought(jobs, saves, n, keep)
  {
    if Saves(jobs, saves, n - 1) {
      i := n - 1;
      var keys, t := Brought(jobs, saves, i, keep), "/" + key;
      assert "/" + t == "//" + key && Trim(t) == key;
      forall k | k in keys && Trim(k) == t ensures !Kept(k, keep) {
        TrimmedTo(k, t);
      }
    } else {
      i := Planting(jobs, saves, n - 1, keep, key);
    }
  }

  lemma PairFits(jobs: seq<Job>, saves: set<nat>, i: nat, j: nat, keep: Keep)
    requires i < j < |jobs| && Fit(jobs, saves, |jobs|, keep) && Saves(jobs, saves, i) && Saves(jobs, saves, j)
    requires Imported(jobs[i].exported.value, keep).Keys <= Brought(jobs, saves, j, keep)
    ensures Mergeable(map[], jobs[i].exported.value, keep) && FitsOn(jobs[i], jobs[j], keep)
  {
    var e, f := jobs[i].exported.value, jobs[j].exported.value;
    AncestorFreeSubset(After(Brought(jobs, saves, i, keep), e, keep), TargetKeys(map[], e, keep));
    TargetsAreAfter(Imported(e, keep), f, keep);
    AncestorFreeSubset(After(Brought(jobs, saves, j, keep), f, keep), TargetKeys(Imported(e, keep), f, keep));
  }

  /** Jobs between two saves do not matter. */
  lemma {:induction false} Idle(jobs: seq<Job>, saves: set<nat>, m: nat, n: nat, keep: Keep)
    requires m <= n <= |jobs| && forall i | m <= i < n :: i !in saves
    ensures Brought(jobs, saves, n, keep) == Brought(jobs, saves, m, keep)
    ensures Fit(jobs, saves, m, keep) ==> Fit(jobs, saves, n, keep)
    decreases n
  {
    if m < n {
      Idle(jobs, saves, m, n - 1, keep);
    }
  }

  lemma PlantAndPick(job: Job, later: Job, keep: Keep, key: Key)
    requires Trim(key) == key && Kept(key, keep) && Plants(job, key, keep) && FitsOn(job, later, keep)
    ensures After({}, job.exported.value, keep) == Imported(job.exported.value, keep).Keys
    ensures AncestorFree(Imported(job.exported.value, keep).Keys)
    ensures var keys := After(Imported(job.exported.value, keep).Keys, later.exported.value, keep);
            AncestorFree(keys) && key in keys
  {
    var e, f := job.exported.value, later.exported.value;
    TargetsAreAfter(map[], e, keep);
    assert After({}, e, keep) == Imported(e, keep).Keys;
    TargetsAreAfter(Imported(e, keep), f, keep);
    assert Trim("/" + key) == key && Kept("/" + key, keep);
  }

  lemma PlantersSave(jobs: seq<Job>, saves: set<nat>, i: nat, j: nat, key: Key, keep: Keep)
    requires i < j < |jobs| && i in saves && j in saves
    requires Plants(jobs[i], key, keep) && FitsOn(jobs[i], jobs[j], keep)
    ensures Saves(jobs, saves, i) && Saves(jobs, saves, j)
  {
    hide Imported, Mergeable;
  }

  lemma PairBrings(jobs: seq<Job>, saves: set<nat>, i: nat, j: nat, keep: Keep, key: Key)
    requires i < j < |jobs| && Trim(key) == key && Kept(key, keep)
    requires i in saves && j in saves && forall k | k in saves :: k == i || k == j
    requires Plants(jobs[i], key, keep) && FitsOn(jobs[i], jobs[j], keep)
    ensures Fit(jobs, saves, |jobs|, keep) && key in Brought(jobs, saves, |jobs|, keep)
  {
    hide *;
    AtTheStart(jobs, saves, keep);
    PlantersSave(jobs, saves, i, j, key, keep);
    PlantAndPick(jobs[i], jobs[j], keep, key);
    Idle(jobs, saves, 0, i, keep);
    OneMoreSave(jobs, saves, i, keep);
    Idle(jobs, saves, i + 1, j, keep);
    OneMoreSave(jobs, saves, j, keep);
    Idle(jobs, saves, j + 1, |jobs|, keep);
  }

  lemma TwoJobsSuffice(jobs: seq<Job>, key: Key, keep: Keep)
    requires Trim(key) == key && Kept(key, keep) && TwoJobs(jobs, key, keep)
    ensures Appears(jobs, key, keep)
  {
    hide Fit, Brought, Appears, Mergeable, Imported, FitsOn, Kept, Trim;
    var i, j :| 0 <= i < j < |jobs| && Plants(jobs[i], key, keep) && FitsOn(jobs[i], jobs[j], keep);
    PairBrings(jobs, {i, j}, i, j, keep, key);
    ByThese(jobs, {i, j}, key, keep);
  }

  lemma TwoJobsAreNeeded(jobs: seq<Job>, saves: set<nat>, key: Key, keep: Keep)
    requires Trim(key) == key && Kept(key, keep) && !Kept("//" + key, keep)
    requires Fit(jobs, saves, |jobs|, keep) && key in Brought(jobs, saves, |jobs|, keep)
    ensures TwoJobs(jobs, key, keep)
  {
    hide Fit, Brought, FitsOn, Kept, Trim, Mergeable, Imported;
    var j := Arrival(jobs, saves, |jobs|, keep, key);
    var i := Planting(jobs, saves, j, keep, key);
    PairFits(jobs, saves, i, j, keep);
  }

  /** A kept key can change in jobs none of which may change the FQDN exactly when one of them plants it and
      a later one can be imported on top of that. */
  lemma ChangesIffTwoJobs(jobs: seq<Job>, key: Key, keep: Keep)
    requires Trim(key) == key && Kept(key, keep) && !Kept("//" + key, keep)
    ensures CanChange(jobs, key, keep) <==> TwoJobs(jobs, key, keep)
  {
    hide Fit, Brought, CanChange, TwoJobs, Kept, Trim;
    ChangesIffAppears(jobs, key, keep);
    if TwoJobs(jobs, key, keep) {
      TwoJobsSuffice(jobs, key, keep);
    }
    if Appears(jobs, key, keep) {
      var saves :| Fit(jobs, saves, |jobs|, keep) && key in Brought(jobs, saves, |jobs|, keep);
      TwoJobsAreNeeded(jobs, saves, key, keep);
    }
  }

  // ---------- the importer's own keys ----------

  lemma OwnKeysAreKept(key: Key, additional: seq<Key>)
    requires OwnKey(key)
    ensures Trim(key) == key && Kept(key, Keep(KEYS_TO_KEEP, additional))
    ensures Kept("//" + key, Keep(KEYS_TO_KEEP, additional)) <==> "/" + key in additional
  {
    assert key[0] != '/' by {
      assert "fqdn"[0] == 'f' && "alternativeFQDNs"[0] == 'a' && "certificate/"[0] == 'c';
    }
    KeptKeys(key, additional);
    var t := "//" + key;
    assert Trim(t) == "/" + key;
    KeptKeys(t, additional);
    assert Trim(t)[0] == '/';
    assert "certificate/"[0] == 'c' && "k8s/"[0] == 'k' && "proxy/"[0] == 'p';
    assert "fqdn"[0] == 'f' && "alternativeFQDNs"[0] == 'a' && "maintenance"[0] == 'm';
  }

  /** The importer's FQDN, alternative FQDNs and certificate entries can change, appear or vanish in a sequence
      of jobs none of which may change the FQDN exactly when exporters bring them in by themselves. */
  lemma OwnKeyChangesIff(jobs: seq<Job>, key: Key, additional: seq<Key>)
    requires OwnKey(key)
    ensures var keep := Keep(KEYS_TO_KEEP, additional);
            && (CanChange(jobs, key, keep) <==> Appears(jobs, key, keep))
            && ("/" + key !in additional ==> (CanChange(jobs, key, keep) <==> TwoJobs(jobs, key, keep)))
  {
    var keep := Keep(KEYS_TO_KEEP, additional);
    OwnKeysAreKept(key, additional);
    ChangesIffAppears(jobs, key, keep);
    if "/" + key !in additional {
      ChangesIffTwoJobs(jobs, key, keep);
    }
  }

  /** A single job changes none of them, unless the store already holds it with a slash in front. */
  lemma OneJobChangesNothing(job: Job, r: Run, key: Key, additional: seq<Key>)
    requires OwnKey(key)
    requires var keep := Keep(KEYS_TO_KEEP, additional);
             PlainRun([job], r, keep) && "/" + key !in Previous(r.stored[0])
    ensures Get(Previous(r.stored[1]), key) == Get(Previous(r.stored[0]), key)
  {
    var keep := Keep(KEYS_TO_KEEP, additional);
    OwnKeysAreKept(key, additional);
    assert Step(r.stored[0], [job][0], r.configOk[0], r.stored[1], keep);
    hide Merged, Mergeable, OwnKey, Kept;
    var p, q := Previous(r.stored[0]), Previous(r.stored[1]);
    if q != p {
      KeptEntrySurvives(p, job.exported.value, keep, q, key);
    }
  }

  /** If it does, a single job that exports nothing at all can do it. */
  lemma OneJobCompletes(starter: Starter, dataOk: bool, key: Key, p: Config, additional: seq<Key>) returns (r: Run)
    requires OwnKey(key) && "/" + key in p && Get(p, key) != Some(p["/" + key])
    requires Mergeable(p, [], Keep(KEYS_TO_KEEP, additional))
    ensures PlainRun([Job(starter, dataOk, Some([]))], r, Keep(KEYS_TO_KEEP, additional))
    ensures r.stored[0] == Some(p) && Get(Previous(r.stored[1]), key) == Some(p["/" + key])
  {
    var keep := Keep(KEYS_TO_KEEP, additional);
    hide OwnKey, Kept, Merged, Mergeable, PlainRun;
    OwnKeysAreKept(key, additional);
    var q := SlashedEntryWins(p, [], keep, key);
    r := RunOfOne(Job(starter, dataOk, Some([])), p, q, keep);
  }

  lemma RunOfOne(job: Job, p: Config, q: Config, keep: Keep) returns (r: Run)
    requires job.exported.Some? && Mergeable(p, job.exported.value, keep) && Merged(p, job.exported.value, keep, q)
    ensures PlainRun([job], r, keep) && r == Run([false], [Some(p), Some(q)])
  {
    hide Merged, Mergeable;
    r := Run([false], [Some(p), Some(q)]);
    assert ConfigSynced(Some(p), job.exported, keep, Some(q), false);
    assert Step(r.stored[0], job, r.configOk[0], r.stored[1], keep);
  }

  lemma SlashedBesideKey(key: Key)
    requires OwnKey(key)
    ensures AncestorFree({key, "/" + key}) && Trim(key) == key
  {
    assert key[0] != '/' by {
      assert "fqdn"[0] == 'f' && "alternativeFQDNs"[0] == 'a' && "certificate/"[0] == 'c';
    }
    assert !Under(key, "/" + key) && !Under("/" + key, key);
  }

  /** One entry with two slashes in front of the key plants it, and fits on itself. */
  lemma OneEntryPlants(job: Job, key: Key, value: string, keep: Keep)
    requires OwnKey(key) && Kept(key, keep) && !Kept("//" + key, keep)
    requires job.exported == Some([KeyValue("//" + key, value)])
    ensures Plants(job, key, keep) && FitsOn(job, job, keep)
  {
    var kv := KeyValue("//" + key, value);
    assert Trim(kv.key) == "/" + key;
    hide OwnKey, Kept, AncestorFree, Imported, After, Trim;
    SlashedBesideKey(key);
    OneEntryIsMergeable(kv, keep);
    ImportOfOne(kv, keep);
    TargetsAreAfter(Imported([kv], keep), [kv], keep);
    SlashedIsCopied(kv, key, keep);
  }

  lemma SlashedIsCopied(kv: KeyValue, key: Key, keep: Keep)
    requires Trim(key) == key && Kept(key, keep) && Imported([kv], keep).Keys == {"/" + key}
    ensures After({"/" + key}, [kv], keep) == {key, "/" + key}
  {
    hide Imported;
    assert Trim("/" + key) == key && Kept("/" + key, keep);
  }

  /** Two jobs that export the key with two slashes in front can: an importer without the key gets it. */
  lemma TwoJobsChangeIt(starter: Starter, dataOk: bool, key: Key, value: string) returns (r: Run)
    requires OwnKey(key)
    ensures var job := Job(starter, dataOk, Some([KeyValue("//" + key, value)]));
            && PlainRun([job, job], r, Keep(KEYS_TO_KEEP, []))
            && key !in Previous(r.stored[0]) && key in Previous(r.stored[2])
  {
    var job := Job(starter, dataOk, Some([KeyValue("//" + key, value)]));
    OwnKeysAreKept(key, []);
    OneEntryPlants(job, key, value, Keep(KEYS_TO_KEEP, []));
    hide Plants, FitsOn, CanChange, PlainRun;
    var jobs := [job, job];
    assert Plants(jobs[0], key, Keep(KEYS_TO_KEEP, [])) && FitsOn(jobs[0], jobs[1], Keep(KEYS_TO_KEEP, []));
    TwoJobsSuffice(jobs, key, Keep(KEYS_TO_KEEP, []));
    r := SomeRunBringsIt(jobs, key, Keep(KEYS_TO_KEEP, []));
  }

  lemma ImportOfOne(kv: KeyValue, keep: Keep)
    requires !Kept(kv.key, keep)
    ensures Imported([kv], keep).Keys == {Trim(kv.key)}
  {
    SurvivingStep([kv], keep);
    assert [kv][..0] == [] && Imported([], keep) == map[];
  }
}
