/** The values an FQDN change reads and writes, and what its operations can end with. */
module FqdnValues {
  import opened Kubernetes
  import opened ConfigTree
  import opened GlobalConfigRepo
  import opened ObjectStore

  const FQDN := "fqdn"
  const ALTERNATIVE_FQDNS := "alternativeFQDNs"
  const CERT_TYPE := "certificate/type"
  const CERT := "certificate/server.crt"
  const CERT_KEY := "certificate/server.key"

  const BACKUP_CERT_TYPE := "certificate-type"
  const TLS_CERT := "tls.crt"
  const TLS_KEY := "tls.key"

  const FQDN_BACKUP := ConfigMap("ecosystem-fqdn-backup")
  const CERTIFICATE := Secret("ecosystem-certificate")
  const CERTIFICATE_BACKUP := Secret("ecosystem-certificate-backup")

  /** How an operation ends; a panic runs through every retry. */
  datatype Outcome = Done | Failed(error: ApiError) | Panicked

  function OutcomeOf<T>(r: Result<T>): Outcome {
    if r.Ok? then Done else Failed(r.error)
  }

  predicate Retriable(e: ApiError) { e != NotFound }

  /** If the operation failed, then with an error that is retried, and one of its calls failed. */
  ghost predicate Blamed(faults: nat -> Fault, from: nat, until: nat, o: Outcome) {
    o.Failed? ==> o.error != NotFound && from <= until && Failures(faults, from, until) >= 1
  }

  /** `rounds` rounds of at most `calls` calls each. */
  ghost function Rounds(rounds: nat, calls: nat): nat {
    if rounds == 0 then 0 else Rounds(rounds - 1, calls) + calls
  }

  lemma {:induction false} RoundsMonotone(i: nat, n: nat, calls: nat)
    requires i <= n
    ensures Rounds(i, calls) <= Rounds(n, calls)
    decreases n
  {
    if i < n {
      RoundsMonotone(i, n - 1, calls);
    }
  }

  lemma {:induction false} RoundsProduct(n: nat, calls: nat)
    ensures Rounds(n, calls) == n * calls
  {
    if n > 0 {
      RoundsProduct(n - 1, calls);
    }
  }

  // ---------- the values that are changed ----------

  datatype ConfigChange = ConfigChange(fqdn: string, certType: string, alternativeFqdns: string)
  datatype SecretChange = SecretChange(certificate: string, certificateKey: string)

  function Apply(c: Config, change: ConfigChange): Config {
    c[FQDN := change.fqdn][ALTERNATIVE_FQDNS := change.alternativeFqdns][CERT_TYPE := change.certType]
  }

  /** No key of the store stands in the way of the three that are written. */
  ghost predicate Settable(c: Config) {
    Fits(c.Keys, FQDN) && Fits(c.Keys, ALTERNATIVE_FQDNS) && Fits(c.Keys, CERT_TYPE)
  }

  function WithPair(d: Data, pair: SecretChange): Data
    requires d.Entries?
  {
    Entries(d.m[TLS_CERT := pair.certificate][TLS_KEY := pair.certificateKey])
  }

  function PairOf(d: Data): SecretChange {
    SecretChange(Read(d, TLS_CERT), Read(d, TLS_KEY))
  }

  function ChangeOf(d: Data): ConfigChange {
    ConfigChange(Read(d, FQDN), Read(d, BACKUP_CERT_TYPE), Read(d, ALTERNATIVE_FQDNS))
  }

  function CreateFqdnBackup(c: Config): Option<ConfigChange> {
    var fqdn, certType, alternative := Get(c, FQDN), Get(c, CERT_TYPE), Get(c, ALTERNATIVE_FQDNS);
    if fqdn.None? || certType.None? then None
    else Some(ConfigChange(fqdn.value, certType.value, if alternative.Some? then alternative.value else ""))
  }

  function CreateFqdnBackupData(b: ConfigChange): (d: Data)
    ensures d.Entries? && ChangeOf(d) == b
  {
    Entries(map[FQDN := b.fqdn, ALTERNATIVE_FQDNS := b.alternativeFqdns, BACKUP_CERT_TYPE := b.certType])
  }

  // ---------- deleting a backup ----------

  /** Deleting something that is gone is fine. */
  method DeleteWithRetry(repo: Cluster, name: ObjectName, steps: nat) returns (o: Outcome)
    requires steps >= 1
    modifies repo`objects, repo.net
    ensures old(repo.net.calls) < repo.net.calls <= old(repo.net.calls) + steps
    ensures SameExcept(old(repo.objects), repo.objects, name)
    ensures !o.Panicked?
    ensures Quiet(repo.net.faults, old(repo.net.calls)) ==> o.Done? && name !in repo.objects
    ensures Plain(repo.net.faults) && Fewer(repo.net.faults, old(repo.net.calls), steps) ==> o.Done? && name !in repo.objects
  {
    o := Done;
    for i := 0 to steps
      invariant old(repo.net.calls) + i == repo.net.calls
      invariant Plain(repo.net.faults) ==> Failures(repo.net.faults, old(repo.net.calls), repo.net.calls) == i
      invariant SameExcept(old(repo.objects), repo.objects, name)
      invariant i > 0 ==> o.Failed? && !Quiet(repo.net.faults, old(repo.net.calls))
    {
      var deleted := repo.Delete(name);
      if deleted.Ok? || deleted.error == NotFound {
        return Done;
      }
      o := Failed(deleted.error);
    }
  }
}
