/** The FQDN change as a transaction: back up two objects, update both, restore in reverse order on
    failure, delete the backups. */
module FqdnService {
  import opened Kubernetes
  import opened ConfigTree
  import opened GlobalConfigRepo
  import opened ObjectStore
  import opened FqdnValues
  import opened CertificateManager
  import opened FqdnManager

  datatype Change = Change(config: ConfigChange, secret: SecretChange)

  /** The last value the exporter sent for `name`, with or without a leading slash. */
  function Sent(e: seq<KeyValue>, name: Key): string {
    if e == [] then ""
    else if Trim(e[|e| - 1].key) == name then e[|e| - 1].value
    else Sent(e[..|e| - 1], name)
  }

  /** What the exporter asks for; refused unless everything but the alternative FQDNs is set. */
  function Request(e: seq<KeyValue>): Option<Change> {
    var change := Change(ConfigChange(Sent(e, FQDN), Sent(e, CERT_TYPE), Sent(e, ALTERNATIVE_FQDNS)),
                         SecretChange(Sent(e, CERT), Sent(e, CERT_KEY)));
    if change.config.fqdn == "" || change.config.certType == "" || change.secret.certificate == "" || change.secret.certificateKey == ""
    then None else Some(change)
  }

  // ---------- what is asked for, entry by entry ----------

  /** `v` is the value of the last entry for `name`, or empty when there is none. */
  ghost predicate LastSent(e: seq<KeyValue>, name: string, v: string) {
    || (exists i :: 0 <= i < |e| && SpellingOf(e[i].key, name) && e[i].value == v && forall j | i < j < |e| :: !SpellingOf(e[j].key, name))
    || (v == "" && forall i | 0 <= i < |e| :: !SpellingOf(e[i].key, name))
  }

  lemma LastSentNow(front: seq<KeyValue>, last: KeyValue, name: string)
    requires SpellingOf(last.key, name)
    ensures LastSent(front + [last], name, last.value)
  {
    var e := front + [last];
    assert e[|front|] == last;
  }

  lemma LastSentBefore(front: seq<KeyValue>, last: KeyValue, name: string, v: string)
    requires LastSent(front, name, v) && !SpellingOf(last.key, name)
    ensures LastSent(front + [last], name, v)
  {
    hide SpellingOf;
    var e := front + [last];
    assert e[|front|] == last && forall j | 0 <= j < |front| :: e[j] == front[j];
    if i :| 0 <= i < |front| && SpellingOf(front[i].key, name) && front[i].value == v && forall j | i < j < |front| :: !SpellingOf(front[j].key, name) {
      assert SpellingOf(e[i].key, name);
    }
  }

  lemma {:induction false} SentIsLast(e: seq<KeyValue>, name: string)
    requires Trim(name) == name
    ensures LastSent(e, name, Sent(e, name))
  {
    if e != [] {
      var front, last := e[..|e| - 1], e[|e| - 1];
      SpellingIff(last.key, name);
      assert e == front + [last];
      hide LastSent, SpellingOf;
      if SpellingOf(last.key, name) {
        LastSentNow(front, last, name);
      } else {
        SentIsLast(front, name);
        LastSentBefore(front, last, name, Sent(front, name));
      }
    }
  }

  lemma LastSentIsUnique(e: seq<KeyValue>, name: string, v: string, w: string)
    requires LastSent(e, name, v) && LastSent(e, name, w)
    ensures v == w
  {
  }

  /** One of the values that have to be there is missing or empty. */
  ghost predicate Incomplete(e: seq<KeyValue>) {
    || LastSent(e, "fqdn", "") || LastSent(e, "certificate/type", "")
    || LastSent(e, "certificate/server.crt", "") || LastSent(e, "certificate/server.key", "")
  }

  /** The request holds what the exporter sent last for each of the five names. */
  ghost predicate AsSent(e: seq<KeyValue>, change: Change) {
    && LastSent(e, "fqdn", change.config.fqdn)
    && LastSent(e, "alternativeFQDNs", change.config.alternativeFqdns)
    && LastSent(e, "certificate/type", change.config.certType)
    && LastSent(e, "certificate/server.crt", change.secret.certificate)
    && LastSent(e, "certificate/server.key", change.secret.certificateKey)
  }

  lemma EmptyIffSentEmpty(e: seq<KeyValue>, name: string)
    requires Trim(name) == name
    ensures Sent(e, name) == "" <==> LastSent(e, name, "")
  {
    SentIsLast(e, name);
    if LastSent(e, name, "") {
      LastSentIsUnique(e, name, "", Sent(e, name));
    }
  }

  lemma RequestIsAsSent(e: seq<KeyValue>)
    ensures Request(e).None? <==> Incomplete(e)
    ensures Request(e).Some? ==> AsSent(e, Request(e).value)
  {
    assert "fqdn"[0] == 'f' && "alternativeFQDNs"[0] == 'a' && "certificate/type"[0] == 'c';
    assert "certificate/server.crt"[0] == 'c' && "certificate/server.key"[0] == 'c';
    hide LastSent;
    EmptyIffSentEmpty(e, "fqdn");
    EmptyIffSentEmpty(e, "certificate/type");
    EmptyIffSentEmpty(e, "certificate/server.crt");
    EmptyIffSentEmpty(e, "certificate/server.key");
    SentIsLast(e, "fqdn");
    SentIsLast(e, "alternativeFQDNs");
    SentIsLast(e, "certificate/type");
    SentIsLast(e, "certificate/server.crt");
    SentIsLast(e, "certificate/server.key");
  }

  method CreateChangeRequest(e: seq<KeyValue>) returns (r: Option<Change>)
    ensures r == Request(e)
    ensures r.None? <==> Incomplete(e)
    ensures r.Some? ==> AsSent(e, r.value)
  {
    RequestIsAsSent(e);
    hide Incomplete, AsSent, LastSent;
    var fqdn, alternative, certType, cert, key := "", "", "", "", "";
    for i := 0 to |e|
      invariant fqdn == Sent(e[..i], FQDN) && alternative == Sent(e[..i], ALTERNATIVE_FQDNS)
      invariant certType == Sent(e[..i], CERT_TYPE) && cert == Sent(e[..i], CERT) && key == Sent(e[..i], CERT_KEY)
    {
      assert e[..i + 1][..i] == e[..i];
      match Trim(e[i].key)
      case "fqdn" => fqdn := e[i].value;
      case "alternativeFQDNs" => alternative := e[i].value;
      case "certificate/type" => certType := e[i].value;
      case "certificate/server.crt" => cert := e[i].value;
      case "certificate/server.key" => key := e[i].value;
      case _ =>
    }
    assert e[..|e|] == e;
    if fqdn == "" || certType == "" || cert == "" || key == "" {
      return None;
    }
    r := Some(Change(ConfigChange(fqdn, certType, alternative), SecretChange(cert, key)));
  }

  // ---------- what the transaction may leave behind ----------

  /** All five values are the ones the exporter sent last, and nothing else has changed. */
  ghost predicate TakenOver(st0: Option<Config>, o0: Objects, st: Option<Config>, o: Objects, e: seq<KeyValue>) {
    var secret := Secret("ecosystem-certificate");
    && st0.Some? && st.Some?
    && "fqdn" in st.value && LastSent(e, "fqdn", st.value["fqdn"])
    && "alternativeFQDNs" in st.value && LastSent(e, "alternativeFQDNs", st.value["alternativeFQDNs"])
    && "certificate/type" in st.value && LastSent(e, "certificate/type", st.value["certificate/type"])
    && (forall k | k !in {"fqdn", "alternativeFQDNs", "certificate/type"} ::
          (k in st.value <==> k in st0.value) && (k in st.value ==> st.value[k] == st0.value[k]))
    && secret in o0 && o0[secret].Entries? && secret in o && o[secret].Entries?
    && "tls.crt" in o[secret].m && LastSent(e, "certificate/server.crt", o[secret].m["tls.crt"])
    && "tls.key" in o[secret].m && LastSent(e, "certificate/server.key", o[secret].m["tls.key"])
    && (forall k | k !in {"tls.crt", "tls.key"} ::
          (k in o[secret].m <==> k in o0[secret].m) && (k in o[secret].m ==> o[secret].m[k] == o0[secret].m[k]))
  }

  lemma SwitchedIsTakenOver(st0: Option<Config>, o0: Objects, st: Option<Config>, o: Objects, e: seq<KeyValue>)
    requires Request(e).Some? && Switched(st0, o0, st, o, Request(e).value)
    ensures TakenOver(st0, o0, st, o, e)
  {
    RequestIsAsSent(e);
    hide LastSent, Request;
    assert "fqdn"[0] == 'f' && "alternativeFQDNs"[0] == 'a' && "certificate/type"[0] == 'c';
    assert "tls.crt"[4] == 'c' && "tls.key"[4] == 'k';
  }

  /** Nothing but the FQDN objects was touched. */
  ghost predicate OthersUntouched(before: Objects, after: Objects) {
    forall x | x !in {FQDN_BACKUP, CERTIFICATE_BACKUP, CERTIFICATE} ::
      (x in before <==> x in after) && (x in before ==> before[x] == after[x])
  }

  ghost predicate OnlyBackupsTouched(before: Objects, after: Objects) {
    OthersUntouched(before, after) && SameExceptBackups(before, after)
  }

  ghost predicate SameExceptBackups(before: Objects, after: Objects) {
    (CERTIFICATE in before <==> CERTIFICATE in after) && (CERTIFICATE in before ==> before[CERTIFICATE] == after[CERTIFICATE])
  }

  /** The config is as before; alternative FQDNs that were missing may have come back empty. */
  ghost predicate SameConfig(before: Option<Config>, after: Option<Config>) {
    after == before || (before.Some? && ALTERNATIVE_FQDNS !in before.value && after == Some(before.value[ALTERNATIVE_FQDNS := ""]))
  }

  /** The certificate is as before; a certificate or key entry that was missing may have come back empty. */
  ghost predicate SameCertificate(before: Objects, after: Objects) {
    || SameExceptBackups(before, after)
    || (&& CERTIFICATE in before && before[CERTIFICATE].Entries?
        && CERTIFICATE in after && after[CERTIFICATE] == WithPair(before[CERTIFICATE], PairOf(before[CERTIFICATE])))
  }

  ghost predicate Unchanged(st0: Option<Config>, o0: Objects, st: Option<Config>, o: Objects) {
    SameConfig(st0, st) && SameCertificate(o0, o)
  }

  ghost predicate Switched(st0: Option<Config>, o0: Objects, st: Option<Config>, o: Objects, change: Change) {
    && Applied(st0, st, change.config)
    && CERTIFICATE in o0 && o0[CERTIFICATE].Entries?
    && CERTIFICATE in o && o[CERTIFICATE] == WithPair(o0[CERTIFICATE], change.secret)
  }

  /** Both backups are there and hold the values of the state (st0, o0). */
  ghost predicate Retained(st0: Option<Config>, o0: Objects, o: Objects) {
    && FqdnBackedUp(st0, o)
    && CERTIFICATE in o0 && CERTIFICATE_BACKUP in o && PairOf(o[CERTIFICATE_BACKUP]) == PairOf(o0[CERTIFICATE])
  }

  ghost predicate ConfigOverwritten(st0: Option<Config>, st: Option<Config>) {
    st == st0 || exists c :: Applied(st0, st, c)
  }

  ghost predicate CertificateOverwritten(o0: Objects, o: Objects) {
    || SameExceptBackups(o0, o)
    || (&& CERTIFICATE in o0 && CERTIFICATE in o && o0[CERTIFICATE].Entries?
        && exists pair :: o[CERTIFICATE] == WithPair(o0[CERTIFICATE], pair))
  }

  /** At most the five values were overwritten. */
  ghost predicate AtMostOverwritten(st0: Option<Config>, o0: Objects, st: Option<Config>, o: Objects) {
    ConfigOverwritten(st0, st) && CertificateOverwritten(o0, o)
  }

  lemma ConfigOverwrittenAgain(st0: Option<Config>, st: Option<Config>, st': Option<Config>, b: ConfigChange)
    requires ConfigOverwritten(st0, st) && Applied(st, st', b)
    ensures Applied(st0, st', b)
  {
    if st != st0 {
      var c :| Applied(st0, st, c);
      assert Apply(Apply(st0.value, c), b) == Apply(st0.value, b);
    }
  }

  lemma CertificateOverwrittenAgain(o0: Objects, o: Objects, o': Objects, p: SecretChange)
    requires CertificateOverwritten(o0, o) && PairWritten(o, o', CERTIFICATE, p)
    ensures CERTIFICATE in o0 && o0[CERTIFICATE].Entries? && o'[CERTIFICATE] == WithPair(o0[CERTIFICATE], p)
  {
    if !SameExceptBackups(o0, o) {
      var pair :| o[CERTIFICATE] == WithPair(o0[CERTIFICATE], pair);
      assert WithPair(WithPair(o0[CERTIFICATE], pair), p) == WithPair(o0[CERTIFICATE], p);
    }
  }

  /** As long as the backups are there, one successful restore of both brings the original state back. */
  lemma OneRestoreRecovers(st0: Option<Config>, o0: Objects, st: Option<Config>, o: Objects, st': Option<Config>, o': Objects)
    requires Retained(st0, o0, o) && AtMostOverwritten(st0, o0, st, o)
    requires CertificateRestored(o, o') && FqdnRestored(st, st', o')
    ensures Unchanged(st0, o0, st', o')
  {
    ConfigOverwrittenAgain(st0, st, st', ChangeOf(o'[FQDN_BACKUP]));
    BackupIsOriginal(st0.value);
    CertificateOverwrittenAgain(o0, o, o', PairOf(o[CERTIFICATE_BACKUP]));
  }

  /** What Update promises is enough for the transaction's guarantees. */
  lemma AfterUpdate(st0: Option<Config>, o0: Objects, o1: Objects, st: Option<Config>, o: Objects, change: Change)
    requires SameExceptBackups(o0, o1) && Retained(st0, o0, o1)
    requires st == st0 || Applied(st0, st, change.config)
    requires o == o1 || PairWritten(o1, o, CERTIFICATE, change.secret)
    ensures AtMostOverwritten(st0, o0, st, o) && Retained(st0, o0, o) && OthersUntouched(o1, o)
    ensures Applied(st0, st, change.config) && PairWritten(o1, o, CERTIFICATE, change.secret) ==> Switched(st0, o0, st, o, change)
  {
  }

  /** What becomes of the backups does not matter for the rest. */
  lemma BackupsDoNotMatter(st0: Option<Config>, o0: Objects, st: Option<Config>, o: Objects, o': Objects)
    requires SameExceptBackups(o, o')
    ensures AtMostOverwritten(st0, o0, st, o) ==> AtMostOverwritten(st0, o0, st, o')
    ensures SameExceptBackups(o0, o) ==> AtMostOverwritten(st0, o0, st0, o')
    ensures forall change: Change | Switched(st0, o0, st, o, change) :: Switched(st0, o0, st, o', change)
  {
  }

  /** So is what Restore promises, however far it got. */
  lemma AfterRestore(st0: Option<Config>, o0: Objects, st: Option<Config>, o: Objects, st': Option<Config>, o': Objects)
    requires AtMostOverwritten(st0, o0, st, o) && Retained(st0, o0, o)
    requires CertificateKeptOr(o, o') && FqdnKeptOr(st, st', o')
    ensures AtMostOverwritten(st0, o0, st', o') && Retained(st0, o0, o') && OthersUntouched(o, o')
  {
    if st' != st {
      ConfigOverwrittenAgain(st0, st, st', ChangeOf(o'[FQDN_BACKUP]));
    }
    if o' != o {
      CertificateOverwrittenAgain(o0, o, o', PairOf(o[CERTIFICATE_BACKUP]));
    }
  }

  lemma BackupIsOriginal(c: Config)
    requires CreateFqdnBackup(c).Some?
    ensures Apply(c, CreateFqdnBackup(c).value) == if ALTERNATIVE_FQDNS in c then c else c[ALTERNATIVE_FQDNS := ""]
  {
    ThreeKeysAreApart(c, CreateFqdnBackup(c).value);
  }

  // ---------- the same, entry by entry ----------

  /** Every value is as before; alternative FQDNs, certificate and key that were missing may be there, empty. */
  ghost predicate AsBefore(st0: Option<Config>, o0: Objects, st: Option<Config>, o: Objects) {
    var secret := Secret("ecosystem-certificate");
    && (st0.None? <==> st.None?)
    && (st0.Some? ==>
          && (forall k | k in st0.value :: k in st.value && st.value[k] == st0.value[k])
          && (forall k | k in st.value && k !in st0.value :: k == "alternativeFQDNs" && st.value[k] == ""))
    && (secret in o0 <==> secret in o)
    && (secret in o0 ==> (o0[secret].Nil? <==> o[secret].Nil?))
    && (secret in o0 && o0[secret].Entries? ==>
          && (forall k | k in o0[secret].m :: k in o[secret].m && o[secret].m[k] == o0[secret].m[k])
          && (forall k | k in o[secret].m && k !in o0[secret].m :: k in {"tls.crt", "tls.key"} && o[secret].m[k] == ""))
  }

  lemma UnchangedIsAsBefore(st0: Option<Config>, o0: Objects, st: Option<Config>, o: Objects)
    requires Unchanged(st0, o0, st, o)
    ensures AsBefore(st0, o0, st, o)
  {
  }

  /** An entry that is missing counts as empty. */
  ghost predicate Holds(d: Data, key: string, v: string) {
    if d.Entries? && key in d.m then d.m[key] == v else v == ""
  }

  /** The two backups hold FQDN, alternative FQDNs and certificate type of the config, certificate and key of the
      secret. */
  ghost predicate BackupsHold(st0: Option<Config>, o0: Objects, o: Objects) {
    var secret, b, sb := Secret("ecosystem-certificate"), ConfigMap("ecosystem-fqdn-backup"), Secret("ecosystem-certificate-backup");
    && st0.Some? && "fqdn" in st0.value && "certificate/type" in st0.value && secret in o0 && b in o && sb in o
    && Holds(o[b], "fqdn", st0.value["fqdn"]) && Holds(o[b], "certificate-type", st0.value["certificate/type"])
    && Holds(o[b], "alternativeFQDNs", if "alternativeFQDNs" in st0.value then st0.value["alternativeFQDNs"] else "")
    && forall k, v | k in {"tls.crt", "tls.key"} && Holds(o0[secret], k, v) :: Holds(o[sb], k, v)
  }

  lemma RetainedIsHeld(st0: Option<Config>, o0: Objects, o: Objects)
    requires Retained(st0, o0, o)
    ensures BackupsHold(st0, o0, o)
  {
  }

  /** Everything but the five values is as before. */
  ghost predicate OnlyTheFive(st0: Option<Config>, o0: Objects, st: Option<Config>, o: Objects) {
    var secret := Secret("ecosystem-certificate");
    && (st0.None? <==> st.None?)
    && (st0.Some? ==> forall k | k !in {"fqdn", "alternativeFQDNs", "certificate/type"} ::
          (k in st.value <==> k in st0.value) && (k in st.value ==> st.value[k] == st0.value[k]))
    && (secret in o0 <==> secret in o)
    && (secret in o0 ==> (o0[secret].Nil? <==> o[secret].Nil?))
    && (secret in o0 && o0[secret].Entries? ==> forall k | k !in {"tls.crt", "tls.key"} ::
          (k in o[secret].m <==> k in o0[secret].m) && (k in o[secret].m ==> o[secret].m[k] == o0[secret].m[k]))
  }

  lemma OverwrittenIsOnlyTheFive(st0: Option<Config>, o0: Objects, st: Option<Config>, o: Objects)
    requires AtMostOverwritten(st0, o0, st, o)
    ensures OnlyTheFive(st0, o0, st, o)
  {
  }

  lemma EntryByEntry(st0: Option<Config>, o0: Objects, st: Option<Config>, o: Objects)
    ensures Unchanged(st0, o0, st, o) ==> AsBefore(st0, o0, st, o)
    ensures Retained(st0, o0, o) ==> BackupsHold(st0, o0, o)
    ensures AtMostOverwritten(st0, o0, st, o) ==> OnlyTheFive(st0, o0, st, o)
  {
    hide *;
    if Unchanged(st0, o0, st, o) { UnchangedIsAsBefore(st0, o0, st, o); }
    if Retained(st0, o0, o) { RetainedIsHeld(st0, o0, o); }
    if AtMostOverwritten(st0, o0, st, o) { OverwrittenIsOnlyTheFive(st0, o0, st, o); }
  }

  // ---------- the outcome when no call fails ----------

  datatype ChangeResult = Changed | NotChanged | RestoreFailed | Crashed

  ghost function IdealChange(st: Option<Config>, o: Objects, e: seq<KeyValue>): ChangeResult {
    if IdealBackup(st, o).Failed? then NotChanged
    else if NilFqdnBackup(o) then Crashed
    else if CERTIFICATE !in o then NotChanged
    else if NilBackup(o) then Crashed
    else if Request(e).None? then NotChanged
    else if NilCertificate(o) then Crashed
    else if !Settable(st.value) then RestoreFailed
    else Changed
  }

  /** A config with FQDN and certificate type, in which the three keys can be set; a certificate secret; stale
      backups, if any, with data; a complete exporter config. */
  ghost predicate Prepared(st: Option<Config>, o: Objects, e: seq<KeyValue>) {
    && st.Some? && "fqdn" in st.value && "certificate/type" in st.value
    && (forall k, n | k in st.value && n in {"fqdn", "alternativeFQDNs", "certificate/type"} :: !Under(k, n) && !Under(n, k))
    && Secret("ecosystem-certificate") in o
    && (Secret("ecosystem-certificate-backup") in o ==> o[Secret("ecosystem-certificate-backup")].Entries?)
    && (ConfigMap("ecosystem-fqdn-backup") in o ==> o[ConfigMap("ecosystem-fqdn-backup")].Entries?)
    && !Incomplete(e)
  }

  /** What a change needs when no call fails: all that, and data in the certificate secret. */
  ghost predicate Changeable(st: Option<Config>, o: Objects, e: seq<KeyValue>) {
    Prepared(st, o, e) && o[Secret("ecosystem-certificate")].Entries?
  }

  lemma ChangedIffChangeable(st: Option<Config>, o: Objects, e: seq<KeyValue>)
    ensures IdealChange(st, o, e) == Changed <==> Changeable(st, o, e)
  {
    RequestIsAsSent(e);
    hide Request, Incomplete, Under, Settable;
    assert "fqdn"[0] == 'f' && "alternativeFQDNs"[0] == 'a' && "certificate/type"[0] == 'c';
    if st.Some? {
      SettableIff(st.value);
    }
  }

  lemma SettableIff(c: Config)
    ensures Settable(c) <==> forall k, n | k in c && n in {"fqdn", "alternativeFQDNs", "certificate/type"} :: !Under(k, n) && !Under(n, k)
  {
    hide Under;
    if Settable(c) {
      forall k, n | k in c && n in {"fqdn", "alternativeFQDNs", "certificate/type"} ensures !Under(k, n) && !Under(n, k) {
        assert Fits(c.Keys, n);
      }
    }
    if forall k, n | k in c && n in {"fqdn", "alternativeFQDNs", "certificate/type"} :: !Under(k, n) && !Under(n, k) {
      forall n | n in {"fqdn", "alternativeFQDNs", "certificate/type"} ensures Fits(c.Keys, n) {
      }
    }
  }

  /** The change gets as far as the certificate, and the certificate secret has no data. */
  ghost predicate Tears(st: Option<Config>, o: Objects, e: seq<KeyValue>) {
    && st.Some? && CreateFqdnBackup(st.value).Some? && Settable(st.value)
    && !NilFqdnBackup(o) && !NilBackup(o) && NilCertificate(o) && Request(e).Some?
  }

  lemma TearsIff(st: Option<Config>, o: Objects, e: seq<KeyValue>)
    ensures Tears(st, o, e) <==> Prepared(st, o, e) && o[Secret("ecosystem-certificate")].Nil?
  {
    RequestIsAsSent(e);
    hide Request, Incomplete, Under, Settable;
    assert "fqdn"[0] == 'f' && "alternativeFQDNs"[0] == 'a' && "certificate/type"[0] == 'c';
    if st.Some? {
      SettableIff(st.value);
    }
  }

  /** And the exporter's values differ from the importer's, so that the half done change shows. */
  ghost predicate TearsVisibly(st: Option<Config>, o: Objects, e: seq<KeyValue>) {
    Tears(st, o, e) && !SameConfig(st, Some(Apply(st.value, Request(e).value.config)))
  }

  /** The exporter config of the witness: all four required values, the FQDN being the given one. */
  function FourValues(fqdn: string): seq<KeyValue> {
    [KeyValue(FQDN, fqdn), KeyValue(CERT_TYPE, "external"), KeyValue(CERT, "crt"), KeyValue(CERT_KEY, "key")]
  }

  lemma FourValuesAreARequest(fqdn: string)
    requires fqdn != ""
    ensures Request(FourValues(fqdn)) == Some(Change(ConfigChange(fqdn, "external", ""), SecretChange("crt", "key")))
  {
    var e := FourValues(fqdn);
    var e3 := e[..3];
    var e2 := e3[..2];
    var e1 := e2[..1];
    assert e1[..0] == [];
    assert FQDN[0] == 'f' && ALTERNATIVE_FQDNS[0] == 'a' && |CERT_TYPE| == 16 && |CERT| == 22 && CERT[19] == 'c' && CERT_KEY[19] == 'k';
    assert Trim(FQDN) == FQDN && Trim(CERT_TYPE) == CERT_TYPE && Trim(CERT) == CERT && Trim(CERT_KEY) == CERT_KEY;
    forall name ensures Sent(e, name) == if name == CERT_KEY then "key" else if name == CERT then "crt"
                                         else if name == CERT_TYPE then "external" else if name == FQDN then fqdn else "" {
      assert Sent(e, name) == if name == CERT_KEY then "key" else Sent(e3, name);
      assert Sent(e3, name) == if name == CERT then "crt" else Sent(e2, name);
      assert Sent(e2, name) == if name == CERT_TYPE then "external" else Sent(e1, name);
      assert Sent(e1, name) == if name == FQDN then fqdn else Sent(e1[..0], name);
    }
  }

  lemma TwoKeysAreSettable(fqdn: string)
    ensures Settable(map[FQDN := fqdn, CERT_TYPE := "external"])
  {
    var c: Config := map[FQDN := fqdn, CERT_TYPE := "external"];
    assert FQDN[0] == 'f' && ALTERNATIVE_FQDNS[0] == 'a' && CERT_TYPE[0] == 'c';
    assert c.Keys == {FQDN, CERT_TYPE};
  }

  /** An importer whose certificate secret has no data tears visibly for every other FQDN of the exporter. */
  lemma TearsForEveryOtherFqdn(fqdn: string, other: string)
    requires other != fqdn && other != ""
    ensures TearsVisibly(Some(map[FQDN := fqdn, CERT_TYPE := "external"]), map[CERTIFICATE := Nil], FourValues(other))
  {
    hide Request, Settable, Sent;
    var c := map[FQDN := fqdn, CERT_TYPE := "external"];
    FourValuesAreARequest(other);
    TwoKeysAreSettable(fqdn);
    assert FQDN[0] == 'f' && ALTERNATIVE_FQDNS[0] == 'a' && CERT_TYPE[0] == 'c';
    var change := Request(FourValues(other)).value.config;
    assert Apply(c, change)[FQDN] == other;
  }

  // ---------- few failures ----------

  /** Fewer calls fail than an operation has tries, and none with a false NotFound or AlreadyExists. */
  ghost predicate FewFailures(faults: nat -> Fault, from: nat, steps: nat) {
    Plain(faults) && Fewer(faults, from, steps)
  }

  lemma FewFailuresLater(faults: nat -> Fault, from: nat, later: nat, steps: nat)
    requires from <= later
    ensures FewFailures(faults, from, steps) ==> FewFailures(faults, later, steps)
  {
    FewerLater(faults, from, later, steps);
  }

  /** Some stored key lies above or below one of the three. */
  ghost predicate KeyInTheWay(st: Option<Config>) {
    st.Some? && exists k, n | k in st.value && n in {"fqdn", "alternativeFQDNs", "certificate/type"} :: Under(k, n) || Under(n, k)
  }

  lemma KeyInTheWayIff(st: Option<Config>)
    ensures st.Some? ==> (IdealUpdate(st).Done? <==> !KeyInTheWay(st))
  {
    if st.Some? {
      SettableIff(st.value);
    }
  }

  lemma UpdateStaysPossible(before: Option<Config>, after: Option<Config>, change: ConfigChange)
    requires after == before || Applied(before, after, change)
    ensures IdealUpdate(before).Done? ==> IdealUpdate(after).Done?
  {
    if Applied(before, after, change) {
      StaysSettable(before.value, change);
    }
  }

  // ---------- the service ----------

  class Service {
    const fqdn: Manager
    const cert: EcosystemCertificate
    const exporterConfig: seq<KeyValue>

    constructor (fqdn: Manager, cert: EcosystemCertificate, exporterConfig: seq<KeyValue>)
      ensures this.fqdn == fqdn && this.cert == cert && this.exporterConfig == exporterConfig
    {
      this.fqdn, this.cert, this.exporterConfig := fqdn, cert, exporterConfig;
    }

    predicate Wired() {
      fqdn.Wired() && cert.repo == fqdn.repo && cert.steps == fqdn.steps
    }

    method GetConfig() returns (r: Result<seq<KeyValue>>)
      modifies cert.repo.net
      ensures cert.repo.net.calls == old(cert.repo.net.calls) + 1
      ensures r.Ok? ==> r.value == exporterConfig
      ensures Quiet(cert.repo.net.faults, old(cert.repo.net.calls)) ==> r.Ok?
    {
      var f := cert.repo.net.Next();
      r := if f.Injected? then Err(f.error) else Ok(exporterConfig);
    }

    method Backup() returns (o: Outcome)
      requires Wired()
      modifies cert.repo`objects, cert.repo.net
      ensures old(cert.repo.net.calls) < cert.repo.net.calls <= old(cert.repo.net.calls) + 2 * Rounds(cert.steps, 2 + 2 * cert.steps)
      ensures OnlyBackupsTouched(old(cert.repo.objects), cert.repo.objects)
      ensures o.Done? ==> !NilFqdnBackup(old(cert.repo.objects)) && !NilBackup(old(cert.repo.objects))
      ensures o.Done? ==> fqdn.globalConfigRepo.stored.Some?
      ensures o.Done? ==> Retained(fqdn.globalConfigRepo.stored, old(cert.repo.objects), cert.repo.objects)
      ensures o.Panicked? ==> NilFqdnBackup(old(cert.repo.objects)) || NilBackup(old(cert.repo.objects)) || NilCertificate(old(cert.repo.objects))
      ensures Quiet(cert.repo.net.faults, old(cert.repo.net.calls)) ==>
                var st, before := fqdn.globalConfigRepo.stored, old(cert.repo.objects);
                o == if !IdealBackup(st, before).Done? then IdealBackup(st, before)
                     else if CERTIFICATE !in before then Failed(NotFound)
                     else if NilBackup(before) then Panicked else Done
      ensures (&& FewFailures(cert.repo.net.faults, old(cert.repo.net.calls), cert.steps)
               && !IdealBackup(fqdn.globalConfigRepo.stored, old(cert.repo.objects)).Failed?
               && CERTIFICATE in old(cert.repo.objects)) ==> !o.Failed?
    {
      o := fqdn.Backup();
      FewFailuresLater(cert.repo.net.faults, old(cert.repo.net.calls), cert.repo.net.calls, cert.steps);
      if o.Done? {
        o := cert.Backup();
      }
    }

    method DeleteBackup() returns (o: Outcome)
      requires Wired()
      modifies cert.repo`objects, cert.repo.net
      ensures old(cert.repo.net.calls) < cert.repo.net.calls <= old(cert.repo.net.calls) + 2 * cert.steps
      ensures OnlyBackupsTouched(old(cert.repo.objects), cert.repo.objects)
      ensures Quiet(cert.repo.net.faults, old(cert.repo.net.calls)) ==>
                FQDN_BACKUP !in cert.repo.objects && CERTIFICATE_BACKUP !in cert.repo.objects
      ensures FewFailures(cert.repo.net.faults, old(cert.repo.net.calls), cert.steps) ==>
                FQDN_BACKUP !in cert.repo.objects && CERTIFICATE_BACKUP !in cert.repo.objects
    {
      o := fqdn.DeleteBackup();
      FewFailuresLater(cert.repo.net.faults, old(cert.repo.net.calls), cert.repo.net.calls, cert.steps);
      if o.Done? {
        o := cert.DeleteBackup();
      }
    }

    /** The FQDN goes first; the certificate is only touched after that succeeded. */
    method Update(change: Change) returns (o: Outcome)
      requires Wired()
      modifies cert.repo`objects, fqdn.globalConfigRepo`stored, cert.repo.net
      ensures old(cert.repo.net.calls) < cert.repo.net.calls <= old(cert.repo.net.calls) + 1 + 3 * cert.steps
      ensures var st0, o0, st, o1 := old(fqdn.globalConfigRepo.stored), old(cert.repo.objects), fqdn.globalConfigRepo.stored, cert.repo.objects;
              && (st == st0 || Applied(st0, st, change.config))
              && (o1 == o0 || (Applied(st0, st, change.config) && PairWritten(o0, o1, CERTIFICATE, change.secret)))
              && (o.Done? ==> Applied(st0, st, change.config) && PairWritten(o0, o1, CERTIFICATE, change.secret))
              && (o.Panicked? ==> Applied(st0, st, change.config) && o1 == o0 && NilCertificate(o0))
              && (Quiet(cert.repo.net.faults, old(cert.repo.net.calls)) ==>
                    o == if !IdealUpdate(st0).Done? then IdealUpdate(st0)
                         else if CERTIFICATE !in o0 then Failed(NotFound)
                         else if NilCertificate(o0) then Panicked else Done)
    {
      o := fqdn.Update(change.config);
      if o.Done? {
        o := cert.UpdateSecret(CERTIFICATE, change.secret);
      }
    }

    /** In reverse order. */
    method Restore() returns (o: Outcome)
      requires Wired()
      modifies cert.repo`objects, fqdn.globalConfigRepo`stored, cert.repo.net
      ensures old(cert.repo.net.calls) < cert.repo.net.calls
              <= old(cert.repo.net.calls) + Rounds(cert.steps, 1 + 2 * cert.steps) + Rounds(cert.steps, 2 + cert.steps)
      ensures var st0, o0, st, o1 := old(fqdn.globalConfigRepo.stored), old(cert.repo.objects), fqdn.globalConfigRepo.stored, cert.repo.objects;
              && CertificateKeptOr(o0, o1) && FqdnKeptOr(st0, st, o1)
              && (o.Done? ==> CertificateRestored(o0, o1) && FqdnRestored(st0, st, o1))
              && (o.Panicked? ==> NilCertificate(o0) && st == st0 && o1 == o0)
              && (Quiet(cert.repo.net.faults, old(cert.repo.net.calls)) ==>
                    o == if !IdealRestore(o0).Done? then IdealRestore(o0) else IdealFqdnRestore(st0, o0))
              && (FewFailures(cert.repo.net.faults, old(cert.repo.net.calls), cert.steps) && Restorable(o0) && IdealFqdnRestore(st0, o0).Done? ==>
                    !o.Failed?)
    {
      o := cert.Restore();
      FewFailuresLater(cert.repo.net.faults, old(cert.repo.net.calls), cert.repo.net.calls, cert.steps);
      if o.Done? {
        o := fqdn.Restore();
      }
    }

    /** What happens while both backups hold the state (st0, o0). */
    method Transact(ghost st0: Option<Config>, ghost o0: Objects) returns (r: ChangeResult)
      requires Wired()
      requires fqdn.globalConfigRepo.stored == st0 && SameExceptBackups(o0, cert.repo.objects)
      requires Retained(st0, o0, cert.repo.objects)
      modifies cert.repo`objects, fqdn.globalConfigRepo`stored, cert.repo.net
      ensures old(cert.repo.net.calls) < cert.repo.net.calls
              <= old(cert.repo.net.calls) + 2 + 3 * cert.steps + Rounds(cert.steps, 1 + 2 * cert.steps) + Rounds(cert.steps, 2 + cert.steps)
      ensures OthersUntouched(old(cert.repo.objects), cert.repo.objects)
      ensures Retained(st0, o0, cert.repo.objects)
      ensures AtMostOverwritten(st0, o0, fqdn.globalConfigRepo.stored, cert.repo.objects)
      ensures r.Changed? ==> Request(exporterConfig).Some?
                             && Switched(st0, o0, fqdn.globalConfigRepo.stored, cert.repo.objects, Request(exporterConfig).value)
      ensures r.NotChanged? ==> Unchanged(st0, o0, fqdn.globalConfigRepo.stored, cert.repo.objects)
      ensures r.Crashed? ==> NilCertificate(o0) && SameExceptBackups(o0, cert.repo.objects)
      ensures r.Crashed? ==> fqdn.globalConfigRepo.stored == st0 ||
                                (st0.Some? && CreateFqdnBackup(st0.value).Some? && Settable(st0.value) && Request(exporterConfig).Some?)
      ensures Quiet(cert.repo.net.faults, old(cert.repo.net.calls)) ==>
                && r == (if Request(exporterConfig).None? then NotChanged
                         else if NilCertificate(o0) then Crashed
                         else if !Settable(st0.value) then RestoreFailed
                         else Changed)
                && (r.Crashed? && Settable(st0.value) ==>
                      Applied(st0, fqdn.globalConfigRepo.stored, Request(exporterConfig).value.config))
      ensures FewFailures(cert.repo.net.faults, old(cert.repo.net.calls), cert.steps) && IdealUpdate(st0).Done? ==> !r.RestoreFailed?
    {
      var config := GetConfig();
      if config.Err? {
        return NotChanged;
      }
      var request := CreateChangeRequest(config.value);
      if request.None? {
        return NotChanged;
      }
      var updated := Update(request.value);
      ghost var st, o := fqdn.globalConfigRepo.stored, cert.repo.objects;
      AfterUpdate(st0, o0, old(cert.repo.objects), st, o, request.value);
      if updated.Done? {
        return Changed;
      }
      if updated.Panicked? {
        return Crashed;
      }
      FewFailuresLater(cert.repo.net.faults, old(cert.repo.net.calls), cert.repo.net.calls, cert.steps);
      UpdateStaysPossible(st0, st, request.value.config);
      var restored := Restore();
      AfterRestore(st0, o0, st, o, fqdn.globalConfigRepo.stored, cert.repo.objects);
      if restored.Done? {
        OneRestoreRecovers(st0, o0, st, o, fqdn.globalConfigRepo.stored, cert.repo.objects);
      }
      r := if restored.Done? then NotChanged else if restored.Panicked? then Crashed else RestoreFailed;
    }

    /** Backs up, transacts and, unless the restore failed, deletes the backups, even when a panic runs
        through. */
    method ChangeFqdn() returns (r: ChangeResult)
      requires Wired()
      modifies cert.repo`objects, fqdn.globalConfigRepo`stored, cert.repo.net
      ensures var n := cert.steps; cert.repo.net.calls <= old(cert.repo.net.calls) + 7 * n * n + 12 * n + 2
      ensures OthersUntouched(old(cert.repo.objects), cert.repo.objects)
      ensures r.Changed? ==>
                && Request(exporterConfig).Some?
                && Switched(old(fqdn.globalConfigRepo.stored), old(cert.repo.objects),
                            fqdn.globalConfigRepo.stored, cert.repo.objects, Request(exporterConfig).value)
      ensures r.Changed? ==>
                TakenOver(old(fqdn.globalConfigRepo.stored), old(cert.repo.objects),
                          fqdn.globalConfigRepo.stored, cert.repo.objects, exporterConfig)
      ensures r.NotChanged? ==>
                && Unchanged(old(fqdn.globalConfigRepo.stored), old(cert.repo.objects), fqdn.globalConfigRepo.stored, cert.repo.objects)
                && AsBefore(old(fqdn.globalConfigRepo.stored), old(cert.repo.objects), fqdn.globalConfigRepo.stored, cert.repo.objects)
      ensures r.RestoreFailed? || r.Crashed? ==>
                OnlyTheFive(old(fqdn.globalConfigRepo.stored), old(cert.repo.objects), fqdn.globalConfigRepo.stored, cert.repo.objects)
      ensures r.RestoreFailed? ==> BackupsHold(old(fqdn.globalConfigRepo.stored), old(cert.repo.objects), cert.repo.objects)
      ensures r.RestoreFailed? ==>
                && Retained(old(fqdn.globalConfigRepo.stored), old(cert.repo.objects), cert.repo.objects)
                && AtMostOverwritten(old(fqdn.globalConfigRepo.stored), old(cert.repo.objects), fqdn.globalConfigRepo.stored, cert.repo.objects)
      ensures r.Crashed? ==>
                && (NilFqdnBackup(old(cert.repo.objects)) || NilBackup(old(cert.repo.objects)) || NilCertificate(old(cert.repo.objects)))
                && (Tears(old(fqdn.globalConfigRepo.stored), old(cert.repo.objects), exporterConfig) ||
                    Unchanged(old(fqdn.globalConfigRepo.stored), old(cert.repo.objects), fqdn.globalConfigRepo.stored, cert.repo.objects))
      ensures r.Crashed? ==>
                AtMostOverwritten(old(fqdn.globalConfigRepo.stored), old(cert.repo.objects), fqdn.globalConfigRepo.stored, cert.repo.objects)
      ensures Quiet(cert.repo.net.faults, old(cert.repo.net.calls)) ==>
                (r.Changed? <==> Changeable(old(fqdn.globalConfigRepo.stored), old(cert.repo.objects), exporterConfig))
      ensures Quiet(cert.repo.net.faults, old(cert.repo.net.calls)) ==>
                (r.Crashed? && !Unchanged(old(fqdn.globalConfigRepo.stored), old(cert.repo.objects), fqdn.globalConfigRepo.stored, cert.repo.objects)
                 <==> TearsVisibly(old(fqdn.globalConfigRepo.stored), old(cert.repo.objects), exporterConfig))
      ensures Quiet(cert.repo.net.faults, old(cert.repo.net.calls)) ==>
                && r == IdealChange(old(fqdn.globalConfigRepo.stored), old(cert.repo.objects), exporterConfig)
                && (r.Changed? || Tears(old(fqdn.globalConfigRepo.stored), old(cert.repo.objects), exporterConfig) ==>
                      FQDN_BACKUP !in cert.repo.objects && CERTIFICATE_BACKUP !in cert.repo.objects)
                && (Tears(old(fqdn.globalConfigRepo.stored), old(cert.repo.objects), exporterConfig) ==>
                      && SameExceptBackups(old(cert.repo.objects), cert.repo.objects)
                      && Applied(old(fqdn.globalConfigRepo.stored), fqdn.globalConfigRepo.stored, Request(exporterConfig).value.config))
      ensures FewFailures(cert.repo.net.faults, old(cert.repo.net.calls), cert.steps) ==>
                && (r.Changed? ==> FQDN_BACKUP !in cert.repo.objects && CERTIFICATE_BACKUP !in cert.repo.objects)
                && (r.RestoreFailed? ==> KeyInTheWay(old(fqdn.globalConfigRepo.stored)))
    {
      hide Retained, AtMostOverwritten, Request, Settable, Apply, TakenOver, Changeable, FewFailures, KeyInTheWay, Switched, Incomplete, Rounds, AsBefore, BackupsHold, OnlyTheFive;
      ChangedIffChangeable(fqdn.globalConfigRepo.stored, cert.repo.objects, exporterConfig);
      CallBound(cert.steps);
      var backedUp := Backup();
      if !backedUp.Done? {
        BackupsDoNotMatter(fqdn.globalConfigRepo.stored, old(cert.repo.objects), fqdn.globalConfigRepo.stored, old(cert.repo.objects), cert.repo.objects);
        EntryByEntry(fqdn.globalConfigRepo.stored, old(cert.repo.objects), fqdn.globalConfigRepo.stored, cert.repo.objects);
        return if backedUp.Panicked? then Crashed else NotChanged;
      }
      FewFailuresLater(cert.repo.net.faults, old(cert.repo.net.calls), cert.repo.net.calls, cert.steps);
      KeyInTheWayIff(fqdn.globalConfigRepo.stored);
      r := Transact(fqdn.globalConfigRepo.stored, old(cert.repo.objects));
      if !r.RestoreFailed? {
        ghost var o2 := cert.repo.objects;
        FewFailuresLater(cert.repo.net.faults, old(cert.repo.net.calls), cert.repo.net.calls, cert.steps);
        var deleted := DeleteBackup();
        BackupsDoNotMatter(old(fqdn.globalConfigRepo.stored), old(cert.repo.objects), fqdn.globalConfigRepo.stored, o2, cert.repo.objects);
        if r.Changed? {
          SwitchedIsTakenOver(old(fqdn.globalConfigRepo.stored), old(cert.repo.objects), fqdn.globalConfigRepo.stored,
                              cert.repo.objects, exporterConfig);
        }
      }
      EntryByEntry(old(fqdn.globalConfigRepo.stored), old(cert.repo.objects), fqdn.globalConfigRepo.stored, cert.repo.objects);
    }
  }

  /** The calls of the four phases add up. */
  lemma CallBound(n: nat)
    ensures 2 * Rounds(n, 2 + 2 * n) + (2 + 3 * n + Rounds(n, 1 + 2 * n) + Rounds(n, 2 + n)) + 2 * n == 7 * n * n + 12 * n + 2
  {
    RoundsProduct(n, 2 + 2 * n);
    RoundsProduct(n, 1 + 2 * n);
    RoundsProduct(n, 2 + n);
    assert n * (2 + 2 * n) == 2 * n + 2 * (n * n);
    assert n * (1 + 2 * n) == n + 2 * (n * n);
    assert n * (2 + n) == 2 * n + n * n;
    assert 7 * n * n == 7 * (n * n);
  }
}
