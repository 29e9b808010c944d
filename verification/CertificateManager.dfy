/** Backup, update and restore of the certificate secret. */
module CertificateManager {
  import opened Kubernetes
  import opened GlobalConfigRepo
  import opened ObjectStore
  import opened FqdnValues

  ghost predicate PairWritten(before: Objects, after: Objects, name: ObjectName, pair: SecretChange) {
    && name in before && before[name].Entries?
    && after == before[name := WithPair(before[name], pair)]
  }

  lemma WriteTwice(d: Data, pair: SecretChange)
    requires d.Entries?
    ensures WithPair(WithPair(d, pair), pair) == WithPair(d, pair)
  {
  }

  // ---------- the ecosystem certificate ----------

  class EcosystemCertificate {
    const repo: Cluster
    const steps: nat

    constructor (repo: Cluster, steps: nat)
      ensures this.repo == repo && this.steps == steps
    {
      this.repo, this.steps := repo, steps;
    }

    /** One read-modify-write of a secret. */
    method UpdateOnce(name: ObjectName, pair: SecretChange) returns (o: Outcome)
      modifies repo`objects, repo.net
      ensures old(repo.net.calls) < repo.net.calls <= old(repo.net.calls) + 2
      ensures repo.objects == old(repo.objects) || PairWritten(old(repo.objects), repo.objects, name, pair)
      ensures o.Done? ==> PairWritten(old(repo.objects), repo.objects, name, pair)
      ensures o.Panicked? ==> name in repo.objects && repo.objects[name].Nil? && repo.objects == old(repo.objects)
      ensures Quiet(repo.net.faults, old(repo.net.calls)) ==>
                o == if name !in old(repo.objects) then Failed(NotFound)
                     else if old(repo.objects)[name].Nil? then Panicked else Done
      ensures Plain(repo.net.faults) && name in old(repo.objects) ==> Blamed(repo.net.faults, old(repo.net.calls), repo.net.calls, o)
      ensures OnlyConflicts(repo.net.faults) && name in old(repo.objects) && o.Failed? ==> o.error == Conflict
    {
      var secret := repo.Get(name);
      if secret.Err? {
        return Failed(secret.error);
      }
      if secret.value.Nil? {
        return Panicked;
      }
      var updated := repo.Update(name, WithPair(secret.value, pair));
      o := OutcomeOf(updated);
    }

    /** UpdateOnce, again after each conflict. */
    method UpdateSecret(name: ObjectName, pair: SecretChange) returns (o: Outcome)
      requires steps >= 1
      modifies repo`objects, repo.net
      ensures old(repo.net.calls) < repo.net.calls <= old(repo.net.calls) + 2 * steps
      ensures repo.objects == old(repo.objects) || PairWritten(old(repo.objects), repo.objects, name, pair)
      ensures o.Done? ==> PairWritten(old(repo.objects), repo.objects, name, pair)
      ensures o.Panicked? ==> name in old(repo.objects) && old(repo.objects)[name].Nil?
      ensures Quiet(repo.net.faults, old(repo.net.calls)) ==>
                o == if name !in old(repo.objects) then Failed(NotFound)
                     else if old(repo.objects)[name].Nil? then Panicked else Done
      ensures Plain(repo.net.faults) && name in old(repo.objects) ==> Blamed(repo.net.faults, old(repo.net.calls), repo.net.calls, o)
      ensures OnlyConflicts(repo.net.faults) && Fewer(repo.net.faults, old(repo.net.calls), steps) && name in old(repo.objects) ==> !o.Failed?
    {
      o := Done;
      for i := 0 to steps
        invariant old(repo.net.calls) + i <= repo.net.calls <= old(repo.net.calls) + 2 * i
        invariant repo.objects == old(repo.objects) || PairWritten(old(repo.objects), repo.objects, name, pair)
        invariant i > 0 ==> o == Failed(Conflict) && !Quiet(repo.net.faults, old(repo.net.calls))
        invariant Plain(repo.net.faults) && name in old(repo.objects) ==> Failures(repo.net.faults, old(repo.net.calls), repo.net.calls) >= i
      {
        ghost var c := repo.net.calls;
        if name in old(repo.objects) && old(repo.objects)[name].Entries? {
          WriteTwice(old(repo.objects)[name], pair);
        }
        o := UpdateOnce(name, pair);
        FailuresAdd(repo.net.faults, old(repo.net.calls), c, repo.net.calls);
        if o != Failed(Conflict) {
          return;
        }
      }
    }

    method BackupOnce() returns (o: Outcome)
      requires steps >= 1
      modifies repo`objects, repo.net
      ensures old(repo.net.calls) < repo.net.calls <= old(repo.net.calls) + 2 + 2 * steps
      ensures SameExcept(old(repo.objects), repo.objects, CERTIFICATE_BACKUP)
      ensures NilBackup(repo.objects) ==> NilBackup(old(repo.objects)) || NilCertificate(old(repo.objects))
      ensures NilBackup(old(repo.objects)) ==> NilBackup(repo.objects)
      ensures o.Done? ==> !NilBackup(old(repo.objects)) && BackedUp(repo.objects)
      ensures o.Panicked? ==> NilBackup(old(repo.objects)) || NilCertificate(old(repo.objects))
      ensures Quiet(repo.net.faults, old(repo.net.calls)) ==>
                o == if CERTIFICATE !in old(repo.objects) then Failed(NotFound)
                     else if NilBackup(old(repo.objects)) then Panicked else Done
      ensures Plain(repo.net.faults) && CERTIFICATE in old(repo.objects) ==> Blamed(repo.net.faults, old(repo.net.calls), repo.net.calls, o)
    {
      var secret := repo.Get(CERTIFICATE);
      if secret.Err? {
        return Failed(secret.error);
      }
      var created := repo.Create(CERTIFICATE_BACKUP, secret.value);
      if created.Err? && created.error == AlreadyExists {
        ghost var c := repo.net.calls;
        o := UpdateSecret(CERTIFICATE_BACKUP, PairOf(secret.value));
        FailuresAdd(repo.net.faults, old(repo.net.calls), c, repo.net.calls);
        return;
      }
      o := OutcomeOf(created);
    }

    method Backup() returns (o: Outcome)
      requires steps >= 1
      modifies repo`objects, repo.net
      ensures old(repo.net.calls) < repo.net.calls <= old(repo.net.calls) + Rounds(steps, 2 + 2 * steps)
      ensures SameExcept(old(repo.objects), repo.objects, CERTIFICATE_BACKUP)
      ensures o.Done? ==> !NilBackup(old(repo.objects)) && BackedUp(repo.objects)
      ensures o.Panicked? ==> NilBackup(old(repo.objects)) || NilCertificate(old(repo.objects))
      ensures Quiet(repo.net.faults, old(repo.net.calls)) ==>
                o == if CERTIFICATE !in old(repo.objects) then Failed(NotFound)
                     else if NilBackup(old(repo.objects)) then Panicked else Done
      ensures Plain(repo.net.faults) && Fewer(repo.net.faults, old(repo.net.calls), steps) && CERTIFICATE in old(repo.objects) ==> !o.Failed?
    {
      o := Done;
      for i := 0 to steps
        invariant old(repo.net.calls) + i <= repo.net.calls <= old(repo.net.calls) + Rounds(i, 2 + 2 * steps)
        invariant i == 0 ==> repo.net.calls == old(repo.net.calls) && repo.objects == old(repo.objects)
        invariant SameExcept(old(repo.objects), repo.objects, CERTIFICATE_BACKUP)
        invariant NilBackup(repo.objects) ==> NilBackup(old(repo.objects)) || NilCertificate(old(repo.objects))
        invariant NilBackup(old(repo.objects)) ==> NilBackup(repo.objects)
        invariant i > 0 ==> o.Failed? && !Quiet(repo.net.faults, old(repo.net.calls))
        invariant Plain(repo.net.faults) && CERTIFICATE in old(repo.objects) ==> Failures(repo.net.faults, old(repo.net.calls), repo.net.calls) >= i
      {
        RoundsMonotone(i + 1, steps, 2 + 2 * steps);
        ghost var c := repo.net.calls;
        o := BackupOnce();
        FailuresAdd(repo.net.faults, old(repo.net.calls), c, repo.net.calls);
        if !o.Failed? || !Retriable(o.error) {
          return;
        }
      }
    }

    /** Writes the pair of the backup into the certificate. */
    method RestoreOnce() returns (o: Outcome)
      requires steps >= 1
      modifies repo`objects, repo.net
      ensures old(repo.net.calls) < repo.net.calls <= old(repo.net.calls) + 1 + 2 * steps
      ensures CertificateKeptOr(old(repo.objects), repo.objects)
      ensures o.Done? ==> CertificateRestored(old(repo.objects), repo.objects)
      ensures o.Panicked? ==> NilCertificate(old(repo.objects))
      ensures Quiet(repo.net.faults, old(repo.net.calls)) ==> o == IdealRestore(old(repo.objects))
      ensures Plain(repo.net.faults) && Restorable(old(repo.objects)) ==> Blamed(repo.net.faults, old(repo.net.calls), repo.net.calls, o)
    {
      var backup := repo.Get(CERTIFICATE_BACKUP);
      if backup.Err? {
        return Failed(backup.error);
      }
      ghost var c := repo.net.calls;
      o := UpdateSecret(CERTIFICATE, PairOf(backup.value));
      FailuresAdd(repo.net.faults, old(repo.net.calls), c, repo.net.calls);
    }

    method Restore() returns (o: Outcome)
      requires steps >= 1
      modifies repo`objects, repo.net
      ensures old(repo.net.calls) < repo.net.calls <= old(repo.net.calls) + Rounds(steps, 1 + 2 * steps)
      ensures CertificateKeptOr(old(repo.objects), repo.objects)
      ensures o.Done? ==> CertificateRestored(old(repo.objects), repo.objects)
      ensures o.Panicked? ==> NilCertificate(old(repo.objects))
      ensures Quiet(repo.net.faults, old(repo.net.calls)) ==> o == IdealRestore(old(repo.objects))
      ensures Plain(repo.net.faults) && Fewer(repo.net.faults, old(repo.net.calls), steps) && Restorable(old(repo.objects)) ==> !o.Failed?
    {
      o := Done;
      for i := 0 to steps
        invariant old(repo.net.calls) + i <= repo.net.calls <= old(repo.net.calls) + Rounds(i, 1 + 2 * steps)
        invariant i == 0 ==> repo.net.calls == old(repo.net.calls) && repo.objects == old(repo.objects)
        invariant CertificateKeptOr(old(repo.objects), repo.objects)
        invariant Plain(repo.net.faults) && Restorable(old(repo.objects)) ==> Failures(repo.net.faults, old(repo.net.calls), repo.net.calls) >= i
        invariant i > 0 ==> o.Failed? && !Quiet(repo.net.faults, old(repo.net.calls))
      {
        RoundsMonotone(i + 1, steps, 1 + 2 * steps);
        ghost var before, c := repo.objects, repo.net.calls;
        o := RestoreOnce();
        FailuresAdd(repo.net.faults, old(repo.net.calls), c, repo.net.calls);
        RestoreTwice(old(repo.objects), before, repo.objects);
        if !o.Failed? || !Retriable(o.error) {
          return;
        }
      }
    }

    method DeleteBackup() returns (o: Outcome)
      requires steps >= 1
      modifies repo`objects, repo.net
      ensures old(repo.net.calls) < repo.net.calls <= old(repo.net.calls) + steps
      ensures SameExcept(old(repo.objects), repo.objects, CERTIFICATE_BACKUP)
      ensures !o.Panicked?
      ensures Quiet(repo.net.faults, old(repo.net.calls)) ==> o.Done? && CERTIFICATE_BACKUP !in repo.objects
      ensures Plain(repo.net.faults) && Fewer(repo.net.faults, old(repo.net.calls), steps) ==> o.Done? && CERTIFICATE_BACKUP !in repo.objects
    {
      o := DeleteWithRetry(repo, CERTIFICATE_BACKUP, steps);
    }
  }

  /** Certificate and backup are there. */
  ghost predicate Restorable(objects: Objects) {
    CERTIFICATE in objects && CERTIFICATE_BACKUP in objects
  }

  ghost predicate NilBackup(objects: Objects) {
    CERTIFICATE_BACKUP in objects && objects[CERTIFICATE_BACKUP].Nil?
  }

  ghost predicate NilCertificate(objects: Objects) {
    CERTIFICATE in objects && objects[CERTIFICATE].Nil?
  }

  ghost predicate BackedUp(objects: Objects) {
    && CERTIFICATE in objects && CERTIFICATE_BACKUP in objects
    && PairOf(objects[CERTIFICATE_BACKUP]) == PairOf(objects[CERTIFICATE])
  }

  ghost predicate CertificateRestored(before: Objects, after: Objects) {
    && CERTIFICATE_BACKUP in before && CERTIFICATE in before && before[CERTIFICATE].Entries?
    && after == before[CERTIFICATE := WithPair(before[CERTIFICATE], PairOf(before[CERTIFICATE_BACKUP]))]
  }

  ghost predicate CertificateKeptOr(before: Objects, after: Objects) {
    after == before || CertificateRestored(before, after)
  }

  lemma RestoreTwice(before: Objects, mid: Objects, after: Objects)
    requires CertificateKeptOr(before, mid) && CertificateKeptOr(mid, after)
    ensures CertificateKeptOr(before, after)
    ensures CertificateRestored(mid, after) ==> CertificateRestored(before, after)
  {
    if CertificateRestored(before, mid) {
      WriteTwice(before[CERTIFICATE], PairOf(before[CERTIFICATE_BACKUP]));
    }
  }

  ghost function IdealRestore(objects: Objects): Outcome {
    if CERTIFICATE_BACKUP !in objects || CERTIFICATE !in objects then Failed(NotFound)
    else if objects[CERTIFICATE].Nil? then Panicked else Done
  }
}
