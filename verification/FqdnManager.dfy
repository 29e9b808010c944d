/** Backup, update and restore of the FQDN entries in the global config. */
module FqdnManager {
  import opened Kubernetes
  import opened ConfigTree
  import opened GlobalConfigRepo
  import opened ObjectStore
  import opened FqdnValues

  /** The three keys do not stand in each other's way, so all three can be set one after the other exactly
      when the store lets each of them in. */
  lemma ThreeKeysAreApart(c: Config, change: ConfigChange)
    ensures Fits(c[FQDN := change.fqdn].Keys, ALTERNATIVE_FQDNS) <==> Fits(c.Keys, ALTERNATIVE_FQDNS)
    ensures Fits(c[FQDN := change.fqdn][ALTERNATIVE_FQDNS := change.alternativeFqdns].Keys, CERT_TYPE) <==> Fits(c.Keys, CERT_TYPE)
    ensures Trim(FQDN) == FQDN && Trim(ALTERNATIVE_FQDNS) == ALTERNATIVE_FQDNS && Trim(CERT_TYPE) == CERT_TYPE
  {
    var f, a, t := FQDN, ALTERNATIVE_FQDNS, CERT_TYPE;
    assert a[|f|] != '/' && t[|f|] != '/';
    assert !Under(a, f) && !Under(f, a) && !Under(t, f) && !Under(f, t) && !Under(a, t) && !Under(t, a);
    var c1 := c[f := change.fqdn];
    assert c1.Keys == c.Keys + {f};
    assert c1[a := change.alternativeFqdns].Keys == c.Keys + {f, a};
  }

  lemma ApplyTwice(c: Config, change: ConfigChange)
    ensures Apply(Apply(c, change), change) == Apply(c, change)
  {
  }

  ghost predicate Applied(before: Option<Config>, after: Option<Config>, change: ConfigChange) {
    before.Some? && Settable(before.value) && after == Some(Apply(before.value, change))
  }

  ghost function IdealUpdate(stored: Option<Config>): Outcome {
    if stored.None? then Failed(NotFound) else if !Settable(stored.value) then Failed(Other) else Done
  }

  function WithChange(d: Data, b: ConfigChange): Data
    requires d.Entries?
  {
    Entries(d.m[BACKUP_CERT_TYPE := b.certType][FQDN := b.fqdn][ALTERNATIVE_FQDNS := b.alternativeFqdns])
  }

  ghost predicate NilFqdnBackup(objects: Objects) {
    FQDN_BACKUP in objects && objects[FQDN_BACKUP].Nil?
  }

  /** The backup holds what the stored config says. */
  ghost predicate FqdnBackedUp(stored: Option<Config>, objects: Objects) {
    && stored.Some? && FQDN_BACKUP in objects && objects[FQDN_BACKUP].Entries?
    && CreateFqdnBackup(stored.value) == Some(ChangeOf(objects[FQDN_BACKUP]))
  }

  ghost function IdealBackup(stored: Option<Config>, objects: Objects): Outcome {
    if stored.None? then Failed(NotFound)
    else if CreateFqdnBackup(stored.value).None? then Failed(Other)
    else if NilFqdnBackup(objects) then Panicked
    else Done
  }

  ghost function IdealFqdnRestore(stored: Option<Config>, objects: Objects): Outcome {
    if FQDN_BACKUP !in objects then Failed(NotFound) else IdealUpdate(stored)
  }

  class Manager {
    const repo: Cluster
    const globalConfigRepo: Repo
    const steps: nat

    constructor (repo: Cluster, globalConfigRepo: Repo, steps: nat)
      ensures this.repo == repo && this.globalConfigRepo == globalConfigRepo && this.steps == steps
    {
      this.repo, this.globalConfigRepo, this.steps := repo, globalConfigRepo, steps;
    }

    /** Client and repository use the same wire, and every operation is tried at least once. */
    predicate Wired() {
      repo.net == globalConfigRepo.net && steps >= 1
    }

    method UpdateBackup(b: ConfigChange) returns (o: Outcome)
      requires Wired()
      modifies repo`objects, repo.net
      ensures old(repo.net.calls) < repo.net.calls <= old(repo.net.calls) + 2 * steps
      ensures SameExcept(old(repo.objects), repo.objects, FQDN_BACKUP)
      ensures NilFqdnBackup(repo.objects) <==> NilFqdnBackup(old(repo.objects))
      ensures o.Done? ==> FQDN_BACKUP in repo.objects && repo.objects[FQDN_BACKUP].Entries? && ChangeOf(repo.objects[FQDN_BACKUP]) == b
      ensures o.Panicked? ==> NilFqdnBackup(old(repo.objects))
      ensures Quiet(repo.net.faults, old(repo.net.calls)) ==>
                o == if FQDN_BACKUP !in old(repo.objects) then Failed(NotFound)
                     else if NilFqdnBackup(old(repo.objects)) then Panicked else Done
      ensures FQDN_BACKUP in old(repo.objects) <==> FQDN_BACKUP in repo.objects
      ensures Plain(repo.net.faults) && FQDN_BACKUP in old(repo.objects) ==> Blamed(repo.net.faults, old(repo.net.calls), repo.net.calls, o)
      ensures OnlyConflicts(repo.net.faults) && Fewer(repo.net.faults, old(repo.net.calls), steps) && FQDN_BACKUP in old(repo.objects) ==>
                !o.Failed?
    {
      o := Done;
      for i := 0 to steps
        invariant old(repo.net.calls) + i <= repo.net.calls <= old(repo.net.calls) + 2 * i
        invariant i == 0 ==> repo.objects == old(repo.objects)
        invariant SameExcept(old(repo.objects), repo.objects, FQDN_BACKUP)
        invariant NilFqdnBackup(repo.objects) <==> NilFqdnBackup(old(repo.objects))
        invariant FQDN_BACKUP in old(repo.objects) <==> FQDN_BACKUP in repo.objects
        invariant i > 0 ==> o == Failed(Conflict) && !Quiet(repo.net.faults, old(repo.net.calls))
        invariant Plain(repo.net.faults) && FQDN_BACKUP in old(repo.objects) ==>
                    Failures(repo.net.faults, old(repo.net.calls), repo.net.calls) >= i
      {
        var backup := repo.Get(FQDN_BACKUP);
        if backup.Ok? {
          if backup.value.Nil? {
            return Panicked;
          }
          var updated := repo.Update(FQDN_BACKUP, WithChange(backup.value, b));
          o := OutcomeOf(updated);
        } else {
          o := Failed(backup.error);
        }
        if o != Failed(Conflict) {
          return;
        }
      }
    }

    method BackupOnce() returns (o: Outcome)
      requires Wired()
      modifies repo`objects, repo.net
      ensures old(repo.net.calls) < repo.net.calls <= old(repo.net.calls) + 2 + 2 * steps
      ensures SameExcept(old(repo.objects), repo.objects, FQDN_BACKUP)
      ensures NilFqdnBackup(repo.objects) <==> NilFqdnBackup(old(repo.objects))
      ensures o.Done? ==> !NilFqdnBackup(old(repo.objects)) && FqdnBackedUp(globalConfigRepo.stored, repo.objects)
      ensures o.Panicked? ==> NilFqdnBackup(old(repo.objects))
      ensures Quiet(repo.net.faults, old(repo.net.calls)) ==>
                && o == IdealBackup(globalConfigRepo.stored, old(repo.objects))
                && (o.Failed? ==> repo.objects == old(repo.objects))
      ensures Plain(repo.net.faults) && !IdealBackup(globalConfigRepo.stored, old(repo.objects)).Failed? ==>
                Blamed(repo.net.faults, old(repo.net.calls), repo.net.calls, o)
    {
      var config := globalConfigRepo.Get();
      if config.Err? {
        return Failed(config.error);
      }
      var b := CreateFqdnBackup(config.value);
      if b.None? {
        return Failed(Other);
      }
      var created := repo.Create(FQDN_BACKUP, CreateFqdnBackupData(b.value));
      if created.Err? && created.error == AlreadyExists {
        ghost var c := repo.net.calls;
        o := UpdateBackup(b.value);
        FailuresAdd(repo.net.faults, old(repo.net.calls), c, repo.net.calls);
        return;
      }
      o := OutcomeOf(created);
    }

    method Backup() returns (o: Outcome)
      requires Wired()
      modifies repo`objects, repo.net
      ensures old(repo.net.calls) < repo.net.calls <= old(repo.net.calls) + Rounds(steps, 2 + 2 * steps)
      ensures SameExcept(old(repo.objects), repo.objects, FQDN_BACKUP)
      ensures o.Done? ==> !NilFqdnBackup(old(repo.objects)) && FqdnBackedUp(globalConfigRepo.stored, repo.objects)
      ensures o.Panicked? ==> NilFqdnBackup(old(repo.objects))
      ensures Quiet(repo.net.faults, old(repo.net.calls)) ==> o == IdealBackup(globalConfigRepo.stored, old(repo.objects))
      ensures (&& Plain(repo.net.faults) && Fewer(repo.net.faults, old(repo.net.calls), steps)
               && !IdealBackup(globalConfigRepo.stored, old(repo.objects)).Failed?) ==> !o.Failed?
    {
      o := Done;
      for i := 0 to steps
        invariant old(repo.net.calls) + i <= repo.net.calls <= old(repo.net.calls) + Rounds(i, 2 + 2 * steps)
        invariant SameExcept(old(repo.objects), repo.objects, FQDN_BACKUP)
        invariant NilFqdnBackup(repo.objects) <==> NilFqdnBackup(old(repo.objects))
        invariant i > 0 ==> o.Failed?
        invariant Quiet(repo.net.faults, old(repo.net.calls)) ==>
                    repo.objects == old(repo.objects) && (i > 0 ==> o == IdealBackup(globalConfigRepo.stored, old(repo.objects)))
        invariant Plain(repo.net.faults) && !IdealBackup(globalConfigRepo.stored, old(repo.objects)).Failed? ==>
                    Failures(repo.net.faults, old(repo.net.calls), repo.net.calls) >= i
      {
        RoundsMonotone(i + 1, steps, 2 + 2 * steps);
        ghost var c := repo.net.calls;
        o := BackupOnce();
        FailuresAdd(repo.net.faults, old(repo.net.calls), c, repo.net.calls);
        if !o.Failed? || !Retriable(o.error) {
          return;
        }
      }
    }

    /** Reads the config once, sets the three keys, then saves with retry. */
    method Update(change: ConfigChange) returns (o: Outcome)
      requires Wired()
      modifies globalConfigRepo`stored, repo.net
      ensures old(repo.net.calls) < repo.net.calls <= old(repo.net.calls) + 1 + steps
      ensures globalConfigRepo.stored == old(globalConfigRepo.stored) || Applied(old(globalConfigRepo.stored), globalConfigRepo.stored, change)
      ensures o.Done? ==> Applied(old(globalConfigRepo.stored), globalConfigRepo.stored, change)
      ensures !o.Panicked?
      ensures Quiet(repo.net.faults, old(repo.net.calls)) ==> o == IdealUpdate(old(globalConfigRepo.stored))
      ensures Plain(repo.net.faults) && IdealUpdate(old(globalConfigRepo.stored)).Done? ==>
                Blamed(repo.net.faults, old(repo.net.calls), repo.net.calls, o)
    {
      var config := globalConfigRepo.Get();
      if config.Err? {
        return Failed(config.error);
      }
      ThreeKeysAreApart(config.value, change);
      var set1 := Set(config.value, FQDN, change.fqdn);
      if set1.Err? {
        return Failed(set1.error);
      }
      var set2 := Set(set1.value, ALTERNATIVE_FQDNS, change.alternativeFqdns);
      if set2.Err? {
        return Failed(set2.error);
      }
      var set3 := Set(set2.value, CERT_TYPE, change.certType);
      if set3.Err? {
        return Failed(set3.error);
      }
      o := Done;
      for i := 0 to steps
        invariant repo.net.calls == old(repo.net.calls) + 1 + i
        invariant globalConfigRepo.stored == old(globalConfigRepo.stored) || globalConfigRepo.stored == Some(set3.value)
        invariant i > 0 ==> o.Failed? && !Quiet(repo.net.faults, old(repo.net.calls))
        invariant Plain(repo.net.faults) && old(globalConfigRepo.stored).Some? && i > 0 ==>
                    Blamed(repo.net.faults, old(repo.net.calls), repo.net.calls, o)
      {
        var saved := globalConfigRepo.SaveOrMerge(set3.value);
        o := OutcomeOf(saved);
        if !o.Failed? || !Retriable(o.error) {
          return;
        }
      }
    }

    method RestoreOnce() returns (o: Outcome)
      requires Wired()
      modifies globalConfigRepo`stored, repo.net
      ensures old(repo.net.calls) < repo.net.calls <= old(repo.net.calls) + 2 + steps
      ensures FqdnKeptOr(old(globalConfigRepo.stored), globalConfigRepo.stored, repo.objects)
      ensures o.Done? ==> FqdnRestored(old(globalConfigRepo.stored), globalConfigRepo.stored, repo.objects)
      ensures !o.Panicked?
      ensures Quiet(repo.net.faults, old(repo.net.calls)) ==>
                && o == IdealFqdnRestore(old(globalConfigRepo.stored), repo.objects)
                && (o.Failed? ==> globalConfigRepo.stored == old(globalConfigRepo.stored))
      ensures Plain(repo.net.faults) && IdealFqdnRestore(old(globalConfigRepo.stored), repo.objects).Done? ==>
                Blamed(repo.net.faults, old(repo.net.calls), repo.net.calls, o)
    {
      var backup := repo.Get(FQDN_BACKUP);
      if backup.Err? {
        return Failed(backup.error);
      }
      ghost var c := repo.net.calls;
      o := Update(ChangeOf(backup.value));
      FailuresAdd(repo.net.faults, old(repo.net.calls), c, repo.net.calls);
    }

    method Restore() returns (o: Outcome)
      requires Wired()
      modifies globalConfigRepo`stored, repo.net
      ensures old(repo.net.calls) < repo.net.calls <= old(repo.net.calls) + Rounds(steps, 2 + steps)
      ensures FqdnKeptOr(old(globalConfigRepo.stored), globalConfigRepo.stored, repo.objects)
      ensures o.Done? ==> FqdnRestored(old(globalConfigRepo.stored), globalConfigRepo.stored, repo.objects)
      ensures !o.Panicked?
      ensures Quiet(repo.net.faults, old(repo.net.calls)) ==> o == IdealFqdnRestore(old(globalConfigRepo.stored), repo.objects)
      ensures (&& Plain(repo.net.faults) && Fewer(repo.net.faults, old(repo.net.calls), steps)
               && IdealFqdnRestore(old(globalConfigRepo.stored), repo.objects).Done?) ==> !o.Failed?
    {
      o := Done;
      for i := 0 to steps
        invariant old(repo.net.calls) + i <= repo.net.calls <= old(repo.net.calls) + Rounds(i, 2 + steps)
        invariant FqdnKeptOr(old(globalConfigRepo.stored), globalConfigRepo.stored, repo.objects)
        invariant i > 0 ==> o.Failed?
        invariant Quiet(repo.net.faults, old(repo.net.calls)) ==>
                    && globalConfigRepo.stored == old(globalConfigRepo.stored)
                    && (i > 0 ==> o == IdealFqdnRestore(old(globalConfigRepo.stored), repo.objects))
        invariant Plain(repo.net.faults) && IdealFqdnRestore(old(globalConfigRepo.stored), repo.objects).Done? ==>
                    Failures(repo.net.faults, old(repo.net.calls), repo.net.calls) >= i
      {
        RoundsMonotone(i + 1, steps, 2 + steps);
        ghost var before, c := globalConfigRepo.stored, repo.net.calls;
        SettableAfter(old(globalConfigRepo.stored), before, repo.objects);
        o := RestoreOnce();
        FailuresAdd(repo.net.faults, old(repo.net.calls), c, repo.net.calls);
        FqdnRestoreTwice(old(globalConfigRepo.stored), before, globalConfigRepo.stored, repo.objects);
        if !o.Failed? || !Retriable(o.error) {
          return;
        }
      }
    }

    method DeleteBackup() returns (o: Outcome)
      requires Wired()
      modifies repo`objects, repo.net
      ensures old(repo.net.calls) < repo.net.calls <= old(repo.net.calls) + steps
      ensures SameExcept(old(repo.objects), repo.objects, FQDN_BACKUP)
      ensures !o.Panicked?
      ensures Quiet(repo.net.faults, old(repo.net.calls)) ==> o.Done? && FQDN_BACKUP !in repo.objects
      ensures Plain(repo.net.faults) && Fewer(repo.net.faults, old(repo.net.calls), steps) ==> o.Done? && FQDN_BACKUP !in repo.objects
    {
      o := DeleteWithRetry(repo, FQDN_BACKUP, steps);
    }
  }

  ghost predicate FqdnRestored(before: Option<Config>, after: Option<Config>, objects: Objects) {
    FQDN_BACKUP in objects && Applied(before, after, ChangeOf(objects[FQDN_BACKUP]))
  }

  ghost predicate FqdnKeptOr(before: Option<Config>, after: Option<Config>, objects: Objects) {
    after == before || FqdnRestored(before, after, objects)
  }

  /** What was restored can be restored again. */
  lemma SettableAfter(before: Option<Config>, after: Option<Config>, objects: Objects)
    requires FqdnKeptOr(before, after, objects)
    ensures IdealUpdate(before).Done? ==> IdealUpdate(after).Done?
  {
    if FqdnRestored(before, after, objects) {
      StaysSettable(before.value, ChangeOf(objects[FQDN_BACKUP]));
    }
  }

  lemma StaysSettable(c: Config, change: ConfigChange)
    requires Settable(c)
    ensures Settable(Apply(c, change))
  {
    ThreeKeysAreApart(map[], change);
    assert Apply(c, change).Keys == c.Keys + {FQDN, ALTERNATIVE_FQDNS, CERT_TYPE};
    assert FQDN[0] == 'f' && ALTERNATIVE_FQDNS[0] == 'a' && CERT_TYPE[0] == 'c';
  }

  lemma FqdnRestoreTwice(before: Option<Config>, mid: Option<Config>, after: Option<Config>, objects: Objects)
    requires FqdnKeptOr(before, mid, objects) && FqdnKeptOr(mid, after, objects)
    ensures FqdnKeptOr(before, after, objects)
    ensures FqdnRestored(mid, after, objects) ==> FqdnRestored(before, after, objects)
  {
    if FqdnRestored(before, mid, objects) {
      ApplyTwice(before.value, ChangeOf(objects[FQDN_BACKUP]));
    }
  }
}
