/** The import job: what the coordinator tells it through its environment, the gate in front of the
    FQDN change, and what any sequence of jobs does to the importer's own global config. */
module ImportJob {
  import opened Kubernetes
  import opened ConfigTree
  import opened GlobalConfigRepo
  import opened GlobalImport
  import DataSync
  import FqdnService
  import ObjectStore

  // ---------- flags in the context ----------

  datatype ContextKey = FinalMigration | TriggerFqdnChange

  /** A Go context as far as migrations use it. */
  type Context = map<ContextKey, bool>

  function SetFinalMigration(ctx: Context): Context { ctx[FinalMigration := true] }

  function SetTriggerFqdnChange(ctx: Context): Context { ctx[TriggerFqdnChange := true] }

  predicate IsFinalMigration(ctx: Context) { FinalMigration in ctx && ctx[FinalMigration] }

  predicate TriggersFqdnChange(ctx: Context) { TriggerFqdnChange in ctx && ctx[TriggerFqdnChange] }

  // ---------- and through the environment ----------

  datatype EnvVar = EnvVar(name: string, value: string)

  const ENV_TRIGGER_FQDN_CHANGE := "TRIGGER_FQDN_CHANGE"
  const JOB_CONFIG_PATH := "/etc/migration-job/config"

  function CreateContainerEnv(apiKey: string, ns: string, timezone: string): seq<EnvVar> {
    [EnvVar("API_KEY", apiKey), EnvVar("CONFIG_PATH", JOB_CONFIG_PATH), EnvVar("IMPORTER_NAMESPACE", ns), EnvVar("TZ", timezone)]
  }

  function AddFqdnChangeTriggerAsEnv(ctx: Context, env: seq<EnvVar>): seq<EnvVar> {
    if IsFinalMigration(ctx) && TriggersFqdnChange(ctx) then env + [EnvVar(ENV_TRIGGER_FQDN_CHANGE, "true")] else env
  }

  /** The last variable of a name counts; an unset variable reads as empty. */
  function Getenv(env: seq<EnvVar>, name: string): string {
    if env == [] then ""
    else if env[|env| - 1].name == name then env[|env| - 1].value
    else Getenv(env[..|env| - 1], name)
  }

  function SetTriggerFqdnChangeFromEnv(ctx: Context, env: seq<EnvVar>): Context {
    if Getenv(env, ENV_TRIGGER_FQDN_CHANGE) == "true" then SetTriggerFqdnChange(ctx) else ctx
  }

  /** Who starts a migration. */
  datatype Starter = Cron | Manual | Final(changeFqdn: bool)

  function CoordinatorContext(s: Starter): Context {
    if s.Final? then
      var ctx := SetFinalMigration(map[]);
      if s.changeFqdn then SetTriggerFqdnChange(ctx) else ctx
    else map[]
  }

  /** The context the job's own process starts with. */
  function JobContext(ctx: Context, env: seq<EnvVar>): Context {
    SetTriggerFqdnChangeFromEnv(map[], AddFqdnChangeTriggerAsEnv(ctx, env))
  }

  lemma {:induction false} UnsetReadsEmpty(env: seq<EnvVar>, name: string)
    requires forall v | v in env :: v.name != name
    ensures Getenv(env, name) == ""
  {
    if env != [] {
      UnsetReadsEmpty(env[..|env| - 1], name);
    }
  }

  lemma ContainerEnvHasNoTrigger(apiKey: string, ns: string, timezone: string)
    ensures Getenv(CreateContainerEnv(apiKey, ns, timezone), ENV_TRIGGER_FQDN_CHANGE) == ""
  {
    var env := CreateContainerEnv(apiKey, ns, timezone);
    assert "API_KEY"[0] != ENV_TRIGGER_FQDN_CHANGE[0] && "CONFIG_PATH"[0] != ENV_TRIGGER_FQDN_CHANGE[0];
    assert "IMPORTER_NAMESPACE"[0] != ENV_TRIGGER_FQDN_CHANGE[0] && "TZ"[1] != ENV_TRIGGER_FQDN_CHANGE[1];
    UnsetReadsEmpty(env, ENV_TRIGGER_FQDN_CHANGE);
  }

  /** The two flags of the coordinator reach the job as one, and only together. */
  lemma FlagsReachTheJobIff(ctx: Context, apiKey: string, ns: string, timezone: string)
    ensures TriggersFqdnChange(JobContext(ctx, CreateContainerEnv(apiKey, ns, timezone)))
            <==> IsFinalMigration(ctx) && TriggersFqdnChange(ctx)
  {
    ContainerEnvHasNoTrigger(apiKey, ns, timezone);
  }

  /** Only a final migration that shall change the FQDN starts a job that may change it. */
  lemma OnlyAFinalMigrationTriggers(s: Starter, apiKey: string, ns: string, timezone: string)
    ensures TriggersFqdnChange(JobContext(CoordinatorContext(s), CreateContainerEnv(apiKey, ns, timezone)))
            <==> s.Final? && s.changeFqdn
  {
    FlagsReachTheJobIff(CoordinatorContext(s), apiKey, ns, timezone);
  }

  // ---------- one job ----------

  function Previous(stored: Option<Config>): Config {
    if stored.Some? then stored.value else map[]
  }

  ghost predicate SavedFrom(before: Option<Config>, e: seq<KeyValue>, keep: Keep, after: Option<Config>) {
    after.Some? && Mergeable(Previous(before), e, keep) && Merged(Previous(before), e, keep, after.value)
  }

  /** What the config sync may do to the global config; `ok` when it reports no error. */
  ghost predicate ConfigSynced(before: Option<Config>, exported: Option<seq<KeyValue>>, keep: Keep, after: Option<Config>, ok: bool) {
    && (|| after == before
        || (before.None? && after == Some(map[]))
        || (exported.Some? && SavedFrom(before, exported.value, keep, after)))
    && (ok ==> exported.Some? && SavedFrom(before, exported.value, keep, after))
  }

  datatype End =
    | SyncFailed(dataOk: bool, configOk: bool)
    | NoChangeTriggered
    | FqdnChanged
    | FqdnNotChanged(r: FqdnService.ChangeResult)

  /** How a job ends that tried to change the FQDN. */
  function EndOf(r: FqdnService.ChangeResult): (end: End)
    ensures end.FqdnChanged? <==> r == FqdnService.ChangeResult.Changed
    ensures end.FqdnNotChanged? <==> r != FqdnService.ChangeResult.Changed
    ensures end.FqdnNotChanged? ==> end.r == r
  {
    if r.Changed? then FqdnChanged else FqdnNotChanged(r)
  }

  /** The answers of the parts of the config sync that write other objects. */
  datatype OtherConfig = OtherConfig(doguConfigs: Option<ApiError>, backupSchedules: Option<ApiError>)

  /** What the FQDN change makes of the config the sync left behind. */
  ghost predicate Changed(synced: Option<Config>, objects: ObjectStore.Objects, after: Option<Config>, objects': ObjectStore.Objects,
                          e: seq<KeyValue>, end: End) {
    && (end.FqdnChanged? ==>
          && FqdnService.Request(e).Some? && FqdnService.Switched(synced, objects, after, objects', FqdnService.Request(e).value)
          && FqdnService.TakenOver(synced, objects, after, objects', e))
    && (end.FqdnNotChanged? && end.r.NotChanged? ==> FqdnService.Unchanged(synced, objects, after, objects'))
    && (end.FqdnNotChanged? && end.r.RestoreFailed? ==> FqdnService.Retained(synced, objects, objects'))
    && (end.FqdnNotChanged? && end.r.Crashed? ==>
          FqdnService.Tears(synced, objects, e) || FqdnService.Unchanged(synced, objects, after, objects'))
    && (end.FqdnNotChanged? && (end.r.RestoreFailed? || end.r.Crashed?) ==>
          FqdnService.AtMostOverwritten(synced, objects, after, objects'))
  }

  // ---------- a job as a step of the stored config ----------

  /** One job: who started the migration, and what the exporter answered. */
  datatype Job = Job(starter: Starter, dataOk: bool, exported: Option<seq<KeyValue>>)

  /** The only jobs that may change the FQDN. */
  predicate Qualifies(job: Job, configOk: bool) {
    job.starter.Final? && job.starter.changeFqdn && job.dataOk && configOk
  }

  /** What Start does to the stored config; a qualifying job may end with anything. */
  ghost predicate Step(before: Option<Config>, job: Job, configOk: bool, after: Option<Config>, keep: Keep) {
    exists synced :: ConfigSynced(before, job.exported, keep, synced, configOk) && (after == synced || Qualifies(job, configOk))
  }

  /** The outcomes of a sequence of jobs, and the stored configs between them. */
  datatype Run = Run(configOk: seq<bool>, stored: seq<Option<Config>>)

  ghost predicate IsRun(jobs: seq<Job>, r: Run, keep: Keep) {
    && |r.configOk| == |jobs| && |r.stored| == |jobs| + 1
    && forall i | 0 <= i < |jobs| :: Step(r.stored[i], jobs[i], r.configOk[i], r.stored[i + 1], keep)
  }

  ghost predicate NoneQualifies(jobs: seq<Job>, r: Run)
    requires |r.configOk| == |jobs|
  {
    forall i | 0 <= i < |jobs| :: !Qualifies(jobs[i], r.configOk[i])
  }

  /** What a job gets to see: who started it, what the exporter and the directories answer, and how the parts
      of the config sync end that write other objects. */
  datatype Input = Input(starter: Starter, systemInfo: Option<seq<string>>, answers: DataSync.Answers,
                         exported: Option<seq<KeyValue>>, others: OtherConfig)

  /** What the job's container gets from the coordinator besides the trigger. */
  datatype Container = Container(apiKey: string, ns: string, timezone: string)

  class ImportExecuter {
    const syncer: DataSync.Syncer
    const importer: GlobalConfigImporter
    const fqdn: FqdnService.Service

    constructor (syncer: DataSync.Syncer, importer: GlobalConfigImporter, fqdn: FqdnService.Service)
      ensures this.syncer == syncer && this.importer == importer && this.fqdn == fqdn
    {
      this.syncer, this.importer, this.fqdn := syncer, importer, fqdn;
    }

    predicate Wired() {
      fqdn.Wired() && importer.repo == fqdn.fqdn.globalConfigRepo
    }

    /** The exporter answers, no call fails, everything fits in one key tree, and the other parts succeed. */
    ghost predicate ConfigSyncs(exported: Option<seq<KeyValue>>, others: OtherConfig)
      reads importer.repo, importer.repo.net
    {
      && exported.Some?
      && CallsSucceed(importer.repo.net.faults, importer.repo.net.calls, importer.repo.stored)
      && Mergeable(Previous(importer.repo.stored), exported.value, importer.keep)
      && others == OtherConfig(None, None)
    }

    /** The exporter answers, and nothing is reported for any of its dogus. */
    ghost predicate DataSyncs(systemInfo: Option<seq<string>>, a: DataSync.Answers) {
      systemInfo.Some? && DataSync.AllOk(syncer.Plans(a, systemInfo.value))
    }

    /** Stops at the first part that fails. */
    method SyncConfig(exported: Option<seq<KeyValue>>, others: OtherConfig) returns (ok: bool)
      modifies importer.repo`stored, importer.repo.net
      ensures ConfigSynced(old(importer.repo.stored), exported, importer.keep, importer.repo.stored, ok)
      ensures ok ==> others == OtherConfig(None, None)
      ensures ok <==> old(ConfigSyncs(exported, others))
      ensures old(importer.repo.net.calls) <= importer.repo.net.calls
    {
      if exported.None? {
        return false;
      }
      var err := importer.ImportGlobalConfig(exported.value);
      if err.Some? {
        return false;
      }
      if others.doguConfigs.Some? {
        return false;
      }
      if others.backupSchedules.Some? {
        return false;
      }
      ok := true;
    }

    /** Both syncs run, whatever the other one reports; the FQDN change needs both and the trigger. */
    method Start(ctx: Context, systemInfo: Option<seq<string>>, a: DataSync.Answers,
                 exported: Option<seq<KeyValue>>, others: OtherConfig) returns (end: End)
      requires Wired()
      modifies syncer`trace, importer.repo`stored, importer.repo.net, fqdn.cert.repo`objects
      ensures end.SyncFailed? <==> !(DataSyncs(systemInfo, a) && old(ConfigSyncs(exported, others)))
      ensures end.SyncFailed? ==> end.dataOk == DataSyncs(systemInfo, a) && end.configOk == old(ConfigSyncs(exported, others))
      ensures !end.SyncFailed? ==> (end.NoChangeTriggered? <==> !TriggersFqdnChange(ctx))
      ensures systemInfo.Some? ==>
                DataSync.Grew(old(syncer.trace), syncer.trace, DataSync.Trace(syncer.Plans(a, systemInfo.value)))
      ensures var before, objects := old(importer.repo.stored), old(fqdn.cert.repo.objects);
              if end.FqdnChanged? || end.FqdnNotChanged? then
                exists synced :: ConfigSynced(before, exported, importer.keep, synced, true)
                                 && Changed(synced, objects, importer.repo.stored, fqdn.cert.repo.objects, fqdn.exporterConfig, end)
                                 && (old(Quiet(fqdn.cert.repo.net.faults, fqdn.cert.repo.net.calls)) ==>
                                       EndOf(FqdnService.IdealChange(synced, objects, fqdn.exporterConfig)) == end)
              else
                && fqdn.cert.repo.objects == objects
                && ConfigSynced(before, exported, importer.keep, importer.repo.stored, !end.SyncFailed? || end.configOk)
    {
      var dataOk := syncer.SyncData(systemInfo, a);
      var configOk := SyncConfig(exported, others);
      if !dataOk || !configOk {
        return SyncFailed(dataOk, configOk);
      }
      if !TriggersFqdnChange(ctx) {
        return NoChangeTriggered;
      }
      ghost var synced := importer.repo.stored;
      var r := fqdn.ChangeFqdn();
      end := EndOf(r);
      assert Changed(synced, old(fqdn.cert.repo.objects), importer.repo.stored, fqdn.cert.repo.objects, fqdn.exporterConfig, end);
    }

    ghost function JobOf(input: Input): Job {
      Job(input.starter, DataSyncs(input.systemInfo, input.answers), input.exported)
    }

    /** The job's process from its environment on: what it does to the stored config is a step. */
    method RunJob(input: Input, c: Container) returns (end: End)
      requires Wired()
      modifies syncer`trace, importer.repo`stored, importer.repo.net, fqdn.cert.repo`objects
      ensures end.FqdnChanged? || end.FqdnNotChanged? <==> Qualifies(JobOf(input), old(ConfigSyncs(input.exported, input.others)))
      ensures Step(old(importer.repo.stored), JobOf(input), old(ConfigSyncs(input.exported, input.others)),
                   importer.repo.stored, importer.keep)
    {
      OnlyAFinalMigrationTriggers(input.starter, c.apiKey, c.ns, c.timezone);
      var ctx := JobContext(CoordinatorContext(input.starter), CreateContainerEnv(c.apiKey, c.ns, c.timezone));
      end := Start(ctx, input.systemInfo, input.answers, input.exported, input.others);
    }
  }

  ghost function JobsOf(executers: seq<ImportExecuter>, inputs: seq<Input>): seq<Job>
    requires |executers| == |inputs|
  {
    if executers == [] then []
    else
      var last := |executers| - 1;
      JobsOf(executers[..last], inputs[..last]) + [executers[last].JobOf(inputs[last])]
  }

  /** Any number of jobs, one after the other, each in a process of its own, over one stored config. */
  method RunJobs(repo: Repo, keep: Keep, executers: seq<ImportExecuter>, inputs: seq<Input>, c: Container) returns (ends: seq<End>, ghost r: Run)
    requires |executers| == |inputs|
    requires forall x | x in executers :: x.Wired() && x.importer.repo == repo && x.importer.keep == keep
    modifies repo`stored, repo.net, set x | x in executers :: x.syncer, set x | x in executers :: x.fqdn.cert.repo
    ensures |ends| == |executers| && |JobsOf(executers, inputs)| == |executers|
    ensures IsRun(JobsOf(executers, inputs), r, keep)
    ensures r.stored[0] == old(repo.stored) && r.stored[|executers|] == repo.stored
  {
    ends, r := [], Run([], [repo.stored]);
    for i := 0 to |executers|
      invariant |ends| == i && |JobsOf(executers[..i], inputs[..i])| == i
      invariant IsRun(JobsOf(executers[..i], inputs[..i]), r, keep)
      invariant r.stored[0] == old(repo.stored) && r.stored[i] == repo.stored
    {
      var x := executers[i];
      ghost var before := repo.stored;
      ghost var configOk := x.ConfigSyncs(inputs[i].exported, inputs[i].others);
      var end := x.RunJob(inputs[i], c);
      ends := ends + [end];
      assert executers[..i + 1][..i] == executers[..i] && inputs[..i + 1][..i] == inputs[..i];
      r := NextOfRun(JobsOf(executers[..i], inputs[..i]), r, x.JobOf(inputs[i]), configOk, repo.stored, keep);
    }
    assert executers[..|executers|] == executers && inputs[..|inputs|] == inputs;
  }

  lemma NextOfRun(jobs: seq<Job>, r: Run, job: Job, configOk: bool, after: Option<Config>, keep: Keep) returns (next: Run)
    requires IsRun(jobs, r, keep) && Step(r.stored[|jobs|], job, configOk, after, keep)
    ensures IsRun(jobs + [job], next, keep)
    ensures next == Run(r.configOk + [configOk], r.stored + [after])
  {
    next := Run(r.configOk + [configOk], r.stored + [after]);
    hide Step;
    forall i | 0 <= i <= |jobs|
      ensures Step(next.stored[i], (jobs + [job])[i], next.configOk[i], next.stored[i + 1], keep)
    {
      if i < |jobs| {
        assert Step(r.stored[i], jobs[i], r.configOk[i], r.stored[i + 1], keep);
      }
    }
  }

  // ---------- any sequence of jobs ----------

  /** The exporter config of the job cannot bring in an entry that counts as kept once it is stored. */
  ghost predicate Harmless(job: Job, keep: Keep) {
    job.exported.Some? ==> !Smuggles(job.exported.value, keep) || !Mergeable(map[], job.exported.value, keep)
  }

  ghost predicate SameKept(p: Option<Config>, q: Option<Config>, keep: Keep) {
    KeptPart(Previous(p), keep) == KeptPart(Previous(q), keep)
  }

  /** After the jobs the same entries count as kept as before, unless one of the jobs qualifies. */
  ghost predicate RunsProtect(jobs: seq<Job>, keep: Keep) {
    forall r | IsRun(jobs, r, keep) && NoneQualifies(jobs, r) && Settled(Previous(r.stored[0]), keep) ::
      SameKept(r.stored[0], r.stored[|jobs|], keep)
  }

  lemma StepProtects(before: Option<Config>, job: Job, configOk: bool, after: Option<Config>, keep: Keep)
    requires Step(before, job, configOk, after, keep) && !Qualifies(job, configOk)
    requires Harmless(job, keep) && Settled(Previous(before), keep)
    ensures SameKept(before, after, keep) && Settled(Previous(after), keep)
  {
    if after != before && after != Some(map[]) {
      var e := job.exported.value;
      MergeableAlone(Previous(before), e, keep);
      CleanImportProtects(Previous(before), e, keep, after.value);
    } else if after != before && before.Some? {
      var e := job.exported.value;
      MergeableAlone(Previous(before), e, keep);
      CleanImportProtects(Previous(before), e, keep, after.value);
    }
  }

  lemma {:induction false} HarmlessJobsProtect(jobs: seq<Job>, r: Run, n: nat, keep: Keep)
    requires n <= |jobs| && IsRun(jobs, r, keep) && NoneQualifies(jobs, r)
    requires Settled(Previous(r.stored[0]), keep) && forall job | job in jobs :: Harmless(job, keep)
    ensures SameKept(r.stored[0], r.stored[n], keep) && Settled(Previous(r.stored[n]), keep)
  {
    hide Step, Harmless, KeptPart, Settled;
    if n > 0 {
      HarmlessJobsProtect(jobs, r, n - 1, keep);
      StepProtects(r.stored[n - 1], jobs[n - 1], r.configOk[n - 1], r.stored[n], keep);
    }
  }

  /** The run in which every job but the i-th fails before it saves anything. */
  function OneJobSaves(jobs: seq<Job>, i: nat, saved: Config): Run {
    Run(seq(|jobs|, _ => false), seq(|jobs| + 1, k => if k <= i then None else Some(saved)))
  }

  lemma HarmfulJobBreaks(jobs: seq<Job>, i: nat, keep: Keep)
    requires i < |jobs| && !Harmless(jobs[i], keep)
    ensures !RunsProtect(jobs, keep)
  {
    var e := jobs[i].exported.value;
    var saved := Imported(e, keep);
    var r := OneJobSaves(jobs, i, saved);
    MergedWhenSettled(map[], e, keep, saved);
    assert KeptPart(map[], keep) + saved == saved;
    forall k | 0 <= k < |jobs| ensures Step(r.stored[k], jobs[k], r.configOk[k], r.stored[k + 1], keep) {
      assert ConfigSynced(r.stored[k], jobs[k].exported, keep, r.stored[k + 1], false);
    }
    SmuggledIsKept(e, keep);
    assert IsRun(jobs, r, keep) && NoneQualifies(jobs, r) && !SameKept(r.stored[0], r.stored[|jobs|], keep);
  }

  /** Over every sequence of jobs none of which qualifies, with every outcome of every job, the same entries
      count as kept, exactly when no exporter config smuggles one in. */
  lemma RunsProtectIff(jobs: seq<Job>, keep: Keep)
    ensures RunsProtect(jobs, keep) <==> forall job | job in jobs :: Harmless(job, keep)
  {
    if forall job | job in jobs :: Harmless(job, keep) {
      forall r | IsRun(jobs, r, keep) && NoneQualifies(jobs, r) && Settled(Previous(r.stored[0]), keep)
        ensures SameKept(r.stored[0], r.stored[|jobs|], keep)
      {
        HarmlessJobsProtect(jobs, r, |jobs|, keep);
      }
    } else {
      var i: nat :| i < |jobs| && !Harmless(jobs[i], keep);
      HarmfulJobBreaks(jobs, i, keep);
    }
  }

  /** The importer's own address and certificate. */
  predicate OwnKey(key: Key) {
    key in {"fqdn", "alternativeFQDNs"} || OneLevelBelow("certificate/", key)
  }

  /** In particular the importer keeps its FQDN, its alternative FQDNs and its certificate entries,
      present or absent, until a final migration that shall change them has synced everything. */
  lemma OwnKeysSurvive(jobs: seq<Job>, r: Run, additional: seq<Key>, key: Key)
    requires var keep := Keep(KEYS_TO_KEEP, additional);
             && IsRun(jobs, r, keep) && NoneQualifies(jobs, r) && Settled(Previous(r.stored[0]), keep)
             && forall job | job in jobs :: Harmless(job, keep)
    requires OwnKey(key)
    ensures var p, q := Previous(r.stored[0]), Previous(r.stored[|jobs|]);
            (key in p <==> key in q) && (key in p ==> p[key] == q[key])
  {
    var keep := Keep(KEYS_TO_KEEP, additional);
    var p, q := Previous(r.stored[0]), Previous(r.stored[|jobs|]);
    HarmlessJobsProtect(jobs, r, |jobs|, keep);
    KeptKeys(key, additional);
    assert Trim(key) == key && Kept(key, keep);
    assert key in p <==> key in KeptPart(p, keep);
    assert key in q <==> key in KeptPart(q, keep);
  }

  /** A key of the store that starts with a slash is not recognised as kept. */
  lemma SlashIsNotKept(t: Key)
    requires |t| >= 2 && t[0] == '/' && t[1] == '/'
    ensures !Kept(t, Keep(KEYS_TO_KEEP, []))
  {
    KeptKeys(t, []);
    assert Trim(t)[0] == '/';
    assert "certificate/"[0] == 'c' && "k8s/"[0] == 'k' && "proxy/"[0] == 'p';
    assert "fqdn"[0] == 'f' && "alternativeFQDNs"[0] == 'a' && "maintenance"[0] == 'm';
  }

  lemma OneEntryIsMergeable(kv: KeyValue, keep: Keep)
    requires !Kept(kv.key, keep)
    ensures Mergeable(map[], [kv], keep)
  {
    var e := [kv];
    SurvivingStep(e, keep);
    assert e[..0] == [] && Imported([], keep) == map[];
    assert TargetKeys(map[], e, keep) == {Trim(kv.key)};
  }

  /** A harmful exporter entry: with two leading slashes it is not recognised as kept, but it is stored
      under a name that the next import does keep. */
  lemma TwoSlashesAreHarmful(starter: Starter, dataOk: bool, key: Key, value: string)
    requires OwnKey(key)
    ensures !Harmless(Job(starter, dataOk, Some([KeyValue("//" + key, value)])), Keep(KEYS_TO_KEEP, []))
  {
    var keep := Keep(KEYS_TO_KEEP, []);
    var kv := KeyValue("//" + key, value);
    assert key[0] != '/' by {
      assert "fqdn"[0] == 'f' && "alternativeFQDNs"[0] == 'a' && "certificate/"[0] == 'c';
    }
    SlashIsNotKept(kv.key);
    OneEntryIsMergeable(kv, keep);
    var t := Trim(kv.key);
    assert t == "/" + key && Trim(t) == key;
    KeptKeys(t, []);
    assert Smuggles([kv], keep) by {
      assert kv in [kv];
    }
  }
}
