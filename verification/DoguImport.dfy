/** Import of one dogu's configuration: wipe and refill, with excluded keys put back as they were. */
module DoguImport {
  import opened Kubernetes
  import opened ConfigTree
  import opened DoguLists
  import opened GlobalConfigRepo
  import opened UnorderedCopy

  /** The map the refill loop walks over: keys as the exporter spells them. */
  function ValuesToSet(original: Config, e: seq<KeyValue>, excluded: seq<Key>): Config {
    if e == [] then map[]
    else
      var values, kv := ValuesToSet(original, e[..|e| - 1], excluded), e[|e| - 1];
      if Trim(kv.key) in excluded then
        match Get(original, kv.key)
        case Some(v) => values[kv.key := v]
        case None => values
      else values[kv.key := kv.value]
  }

  /** The exporter's last value for one spelling of a key. */
  function LastValue(e: seq<KeyValue>, k: Key): Option<string> {
    if e == [] then None
    else if e[|e| - 1].key == k then Some(e[|e| - 1].value)
    else LastValue(e[..|e| - 1], k)
  }

  function Lookup(c: Config, k: Key): Option<string> {
    if k in c then Some(c[k]) else None
  }

  /** What one key should be set to: nothing unless the exporter sent it; what the store held if it is
      excluded; the exporter's last value otherwise. */
  function Wanted(original: Config, e: seq<KeyValue>, excluded: seq<Key>, k: Key): Option<string> {
    if LastValue(e, k).None? then None
    else if Trim(k) in excluded then Get(original, k)
    else LastValue(e, k)
  }

  lemma {:induction false} LastValueOfSent(e: seq<KeyValue>, k: Key)
    ensures LastValue(e, k).Some? <==> exists kv | kv in e :: kv.key == k
  {
    if e != [] {
      var front, last := e[..|e| - 1], e[|e| - 1];
      LastValueOfSent(front, k);
      assert e == front + [last];
      assert last in e;
    }
  }

  lemma {:induction false} ValueToSet(original: Config, e: seq<KeyValue>, excluded: seq<Key>, k: Key)
    ensures Lookup(ValuesToSet(original, e, excluded), k) == Wanted(original, e, excluded, k)
  {
    if e != [] {
      ValueToSet(original, e[..|e| - 1], excluded, k);
    }
  }

  lemma SentKey(original: Config, e: seq<KeyValue>, excluded: seq<Key>, kv: KeyValue)
    requires kv in e
    ensures Lookup(ValuesToSet(original, e, excluded), kv.key) ==
            if Trim(kv.key) in excluded then Get(original, kv.key) else LastValue(e, kv.key)
    ensures LastValue(e, kv.key).Some?
  {
    ValueToSet(original, e, excluded, kv.key);
    LastValueOfSent(e, kv.key);
  }

  lemma KeyToSet(original: Config, e: seq<KeyValue>, excluded: seq<Key>, k: Key) returns (kv: KeyValue)
    requires k in ValuesToSet(original, e, excluded)
    ensures kv in e && kv.key == k
    ensures Some(ValuesToSet(original, e, excluded)[k]) == Wanted(original, e, excluded, k)
  {
    ValueToSet(original, e, excluded, k);
    LastValueOfSent(e, k);
    kv :| kv in e && kv.key == k;
  }

  // ---------- what the store holds afterwards ----------

  /** `r` is a possible outcome of importing `e` over `original`. */
  ghost predicate Refilled(original: Config, e: seq<KeyValue>, excluded: seq<Key>, r: Config) {
    CopyOf(ValuesToSet(original, e, excluded), r)
  }

  ghost predicate Storable(original: Config, e: seq<KeyValue>, excluded: seq<Key>) {
    AncestorFree(Targets(ValuesToSet(original, e, excluded)))
  }

  function ExporterKeys(e: seq<KeyValue>): set<Key> {
    set kv | kv in e :: Trim(kv.key)
  }

  /** Whatever the iteration order: only exporter keys are present, and an excluded exporter key is
      present exactly when it was before, with the value it had. */
  lemma RefilledKeys(original: Config, e: seq<KeyValue>, excluded: seq<Key>, r: Config)
    requires Refilled(original, e, excluded, r)
    ensures r.Keys == set t | t in ExporterKeys(e) && (t !in excluded || t in original)
    ensures forall t | t in r && t in excluded :: r[t] == original[t]
  {
    var values := ValuesToSet(original, e, excluded);
    forall t | t in r ensures t in ExporterKeys(e) && (t in excluded ==> t in original && r[t] == original[t]) {
      var k :| k in values && Trim(k) == t && values[k] == r[t];
      var kv := KeyToSet(original, e, excluded, k);
    }
    forall t | t in ExporterKeys(e) && (t !in excluded || t in original) ensures t in r {
      var kv :| kv in e && Trim(kv.key) == t;
      SentKey(original, e, excluded, kv);
      assert kv.key in values;
    }
  }

  /** Two spellings of one key end with the same value. */
  ghost predicate SpellingsAgree(e: seq<KeyValue>, excluded: seq<Key>) {
    forall a, b | a in e && b in e && Trim(a.key) == Trim(b.key) && Trim(a.key) !in excluded ::
      LastValue(e, a.key) == LastValue(e, b.key)
  }

  lemma AgreeIffUnambiguous(original: Config, e: seq<KeyValue>, excluded: seq<Key>)
    ensures Unambiguous(ValuesToSet(original, e, excluded)) <==> SpellingsAgree(e, excluded)
  {
    var values := ValuesToSet(original, e, excluded);
    if Unambiguous(values) {
      forall a, b | a in e && b in e && Trim(a.key) == Trim(b.key) && Trim(a.key) !in excluded
        ensures LastValue(e, a.key) == LastValue(e, b.key)
      {
        SentKey(original, e, excluded, a);
        SentKey(original, e, excluded, b);
        assert a.key in values && b.key in values;
      }
    } else {
      var k, l :| k in values && l in values && Trim(k) == Trim(l) && values[k] != values[l];
      var a := KeyToSet(original, e, excluded, k);
      var b := KeyToSet(original, e, excluded, l);
      assert LastValue(e, a.key) != LastValue(e, b.key);
    }
  }

  /** The outcome is independent of the iteration order exactly when no two spellings of a key that is
      not excluded end with different values. */
  lemma OrderIndependentIff(original: Config, e: seq<KeyValue>, excluded: seq<Key>)
    ensures OneCopy(ValuesToSet(original, e, excluded)) <==> SpellingsAgree(e, excluded)
  {
    OneCopyIff(ValuesToSet(original, e, excluded));
    AgreeIffUnambiguous(original, e, excluded);
  }

  /** Then every key that is not excluded carries the exporter's last value. */
  lemma RefilledValues(original: Config, e: seq<KeyValue>, excluded: seq<Key>, r: Config, kv: KeyValue)
    requires SpellingsAgree(e, excluded) && Refilled(original, e, excluded, r)
    requires kv in e && Trim(kv.key) !in excluded
    ensures Trim(kv.key) in r && LastValue(e, kv.key) == Some(r[Trim(kv.key)])
  {
    var values := ValuesToSet(original, e, excluded);
    SentKey(original, e, excluded, kv);
    assert kv.key in values;
    var k :| k in values && Trim(k) == Trim(kv.key) && values[k] == r[Trim(kv.key)];
    var other := KeyToSet(original, e, excluded, k);
  }

  /** What an import does to the values to set of the next one: nothing, as long as the next import's
      excluded keys that the store held were also sent by the first one. */
  lemma ValuesToSetAgainIff(original: Config, e1: seq<KeyValue>, e2: seq<KeyValue>, excluded: seq<Key>, r: Config)
    requires Refilled(original, e1, excluded, r)
    ensures ValuesToSet(r, e2, excluded) == ValuesToSet(original, e2, excluded)
            <==> forall kv | kv in e2 && Trim(kv.key) in excluded && Trim(kv.key) in original ::
                   Trim(kv.key) in ExporterKeys(e1)
  {
    RefilledKeys(original, e1, excluded, r);
    var p, q := ValuesToSet(r, e2, excluded), ValuesToSet(original, e2, excluded);
    if forall kv | kv in e2 && Trim(kv.key) in excluded && Trim(kv.key) in original :: Trim(kv.key) in ExporterKeys(e1) {
      forall k ensures Lookup(p, k) == Lookup(q, k) {
        ValueToSet(r, e2, excluded, k);
        ValueToSet(original, e2, excluded, k);
        LastValueOfSent(e2, k);
      }
      SameLookups(p, q);
    } else {
      var kv :| kv in e2 && Trim(kv.key) in excluded && Trim(kv.key) in original && Trim(kv.key) !in ExporterKeys(e1);
      SentKey(r, e2, excluded, kv);
      SentKey(original, e2, excluded, kv);
      assert kv.key in q && kv.key !in p;
    }
  }

  lemma SameLookups(p: Config, q: Config)
    requires forall k :: Lookup(p, k) == Lookup(q, k)
    ensures p == q
  {
    assert forall k :: (k in p <==> Lookup(p, k).Some?) && (k in q <==> Lookup(q, k).Some?);
    assert forall k | k in p :: Lookup(p, k) == Some(p[k]) && Lookup(q, k) == Some(q[k]);
  }

  /** An import of `e` into `p` may save the same stores as one into `q`, or none in both cases. */
  ghost predicate SameImport(p: Config, q: Config, e: seq<KeyValue>, excluded: seq<Key>) {
    forall r :: Storable(p, e, excluded) && Refilled(p, e, excluded, r) <==> Storable(q, e, excluded) && Refilled(q, e, excluded, r)
  }

  /** The first import can only take keys away from the second one. */
  lemma FewerTargets(original: Config, e1: seq<KeyValue>, e2: seq<KeyValue>, excluded: seq<Key>, r: Config)
    requires Refilled(original, e1, excluded, r)
    ensures Targets(ValuesToSet(r, e2, excluded)) <= Targets(ValuesToSet(original, e2, excluded))
    ensures Storable(original, e2, excluded) ==> Storable(r, e2, excluded)
  {
    RefilledKeys(original, e1, excluded, r);
    forall k | k in ValuesToSet(r, e2, excluded) ensures k in ValuesToSet(original, e2, excluded) {
      ValueToSet(r, e2, excluded, k);
      ValueToSet(original, e2, excluded, k);
    }
  }

  /** A first import does not show in what a second one may save exactly when the second one's excluded keys
      that the store held were also sent by the first, or when the second one fails either way. */
  lemma SecondImportIff(original: Config, e1: seq<KeyValue>, e2: seq<KeyValue>, excluded: seq<Key>, r: Config)
    requires Refilled(original, e1, excluded, r)
    ensures SameImport(r, original, e2, excluded)
            <==> (forall kv | kv in e2 && Trim(kv.key) in excluded && Trim(kv.key) in original ::
                    Trim(kv.key) in ExporterKeys(e1))
                 || !Storable(r, e2, excluded)
  {
    ValuesToSetAgainIff(original, e1, e2, excluded, r);
    FewerTargets(original, e1, e2, excluded, r);
    if Storable(r, e2, excluded) && ValuesToSet(r, e2, excluded) != ValuesToSet(original, e2, excluded) {
      var kv :| kv in e2 && Trim(kv.key) in excluded && Trim(kv.key) in original && Trim(kv.key) !in ExporterKeys(e1);
      KeyIsLost(original, e1, e2, excluded, r, kv);
    }
  }

  lemma KeyIsLost(original: Config, e1: seq<KeyValue>, e2: seq<KeyValue>, excluded: seq<Key>, r: Config, kv: KeyValue)
    requires Refilled(original, e1, excluded, r) && Storable(r, e2, excluded)
    requires kv in e2 && Trim(kv.key) in excluded && Trim(kv.key) in original && Trim(kv.key) !in ExporterKeys(e1)
    ensures !SameImport(r, original, e2, excluded)
  {
    var q := CopyExists(ValuesToSet(r, e2, excluded));
    RefilledKeys(original, e1, excluded, r);
    RefilledKeys(r, e2, excluded, q);
    assert Storable(r, e2, excluded) && Refilled(r, e2, excluded, q);
    assert Trim(kv.key) in ExporterKeys(e2) && Trim(kv.key) !in q;
    if Refilled(original, e2, excluded, q) {
      RefilledKeys(original, e2, excluded, q);
    }
  }

  /** Importing the same config again changes nothing. */
  lemma Idempotent(original: Config, e: seq<KeyValue>, excluded: seq<Key>, r: Config, q: Config)
    requires Refilled(original, e, excluded, r)
    ensures Storable(r, e, excluded) <==> Storable(original, e, excluded)
    ensures Refilled(r, e, excluded, q) <==> Refilled(original, e, excluded, q)
    ensures SpellingsAgree(e, excluded) ==> (Refilled(r, e, excluded, q) <==> q == r)
  {
    ValuesToSetAgainIff(original, e, e, excluded, r);
    OrderIndependentIff(original, e, excluded);
  }

  // ---------- the importer ----------

  const NGINX := "nginx"

  class DoguConfigRepo {
    const net: Network
    var stored: map<string, Config>

    constructor (net: Network, stored: map<string, Config>)
      ensures this.net == net && this.stored == stored
    {
      this.net := net;
      this.stored := stored;
    }

    method Get(dogu: string) returns (r: Result<Config>)
      modifies net
      ensures net.calls == old(net.calls) + 1
      ensures r.Ok? ==> dogu in stored && stored[dogu] == r.value
      ensures net.faults(old(net.calls)).NoFault? ==> r == if dogu in stored then Ok(stored[dogu]) else Err(NotFound)
    {
      var f := net.Next();
      r := if f.Injected? then Err(f.error) else if dogu !in stored then Err(NotFound) else Ok(stored[dogu]);
    }

    method Create(dogu: string, c: Config) returns (r: Result<Config>)
      modifies net, `stored
      ensures net.calls == old(net.calls) + 1
      ensures stored == old(stored) || (dogu !in old(stored) && stored == old(stored)[dogu := c])
      ensures r.Ok? ==> dogu !in old(stored) && stored == old(stored)[dogu := c] && r.value == c
      ensures net.faults(old(net.calls)).NoFault? ==> r == if dogu in old(stored) then Err(AlreadyExists) else Ok(c)
    {
      var f := net.Next();
      var possible := dogu !in stored;
      if possible && (f.NoFault? || f.effective) {
        stored := stored[dogu := c];
      }
      r := if f.Injected? then Err(f.error) else if possible then Ok(c) else Err(AlreadyExists);
    }

    method Update(dogu: string, c: Config) returns (r: Result<Config>)
      modifies net, `stored
      ensures net.calls == old(net.calls) + 1
      ensures stored == old(stored) || (dogu in old(stored) && stored == old(stored)[dogu := c])
      ensures r.Ok? ==> dogu in old(stored) && stored == old(stored)[dogu := c]
      ensures net.faults(old(net.calls)).NoFault? ==> r == if dogu in old(stored) then Ok(c) else Err(NotFound)
    {
      var f := net.Next();
      var possible := dogu in stored;
      if possible && (f.NoFault? || f.effective) {
        stored := stored[dogu := c];
      }
      r := if f.Injected? then Err(f.error) else if possible then Ok(c) else Err(NotFound);
    }
  }

  function Original(stored: map<string, Config>, dogu: string): Config {
    if dogu in stored then stored[dogu] else map[]
  }

  /** `dogu` now holds a complete import of `e`. */
  ghost predicate Saved(before: map<string, Config>, after: map<string, Config>, dogu: string, e: seq<KeyValue>, excluded: seq<Key>) {
    && dogu in after
    && Storable(Original(before, dogu), e, excluded)
    && Refilled(Original(before, dogu), e, excluded, after[dogu])
  }

  /** Only `dogu` changed, and only to an empty config or a complete import. */
  ghost predicate AllOrNothing(before: map<string, Config>, after: map<string, Config>, dogu: string, e: seq<KeyValue>, excluded: seq<Key>) {
    || after == before
    || (dogu !in before && after == before[dogu := map[]])
    || (dogu in after && after == before[dogu := after[dogu]] && Saved(before, after, dogu, e, excluded))
  }

  method CollectValues(original: Config, e: seq<KeyValue>, excluded: seq<Key>) returns (values: Config)
    ensures values == ValuesToSet(original, e, excluded)
  {
    values := map[];
    for i := 0 to |e|
      invariant values == ValuesToSet(original, e[..i], excluded)
    {
      assert e[..i + 1][..i] == e[..i];
      var kv := e[i];
      if Trim(kv.key) in excluded {
        var held := Get(original, kv.key);
        if held.Some? {
          values := values[kv.key := held.value];
        }
      } else {
        values := values[kv.key := kv.value];
      }
    }
    assert e[..|e|] == e;
  }

  method ImportDoguConfigWithRepo(dogu: string, e: seq<KeyValue>, repo: DoguConfigRepo, excluded: seq<Key>) returns (err: Option<ApiError>)
    modifies repo`stored, repo.net
    ensures AllOrNothing(old(repo.stored), repo.stored, dogu, e, excluded)
    ensures err.None? ==> Saved(old(repo.stored), repo.stored, dogu, e, excluded)
    ensures old(repo.net.calls) <= repo.net.calls
    ensures Quiet(repo.net.faults, old(repo.net.calls)) ==>
              (err.None? <==> Storable(Original(old(repo.stored), dogu), e, excluded))
  {
    hide AncestorFree, Targets, CopyOf, ValuesToSet;
    var found := repo.Get(dogu);
    if found.Err? {
      if found.error != NotFound {
        return Some(found.error);
      }
      found := repo.Create(dogu, map[]);
      if found.Err? {
        return Some(found.error);
      }
    }
    var values := CollectValues(found.value, e, excluded);
    var filled := SetAll(values);
    if filled.Err? {
      return Some(filled.error);
    }
    var saved := repo.Update(dogu, filled.value);
    err := if saved.Err? then Some(saved.error) else None;
  }

  datatype LocalImport = Written | FileMissing | Broken

  datatype DoguConfig = DoguConfig(name: string, normal: seq<KeyValue>, sensitive: seq<KeyValue>, local: seq<KeyValue>)

  class DoguConfigImporter {
    const normal: DoguConfigRepo
    const sensitive: DoguConfigRepo
    const excluded: map<string, seq<Key>>
    /** The exclusions as they are configured. */
    ghost const configured: seq<DoguList>
    /** Writing local.yaml is not part of this model; its outcome per dogu is. */
    const localImport: string -> LocalImport

    constructor (normal: DoguConfigRepo, sensitive: DoguConfigRepo, configured: seq<DoguList>, localImport: string -> LocalImport)
      requires normal != sensitive && normal.net == sensitive.net
      ensures Valid() && this.normal == normal && this.sensitive == sensitive
      ensures this.configured == configured && this.localImport == localImport
    {
      var byDogu := Collect(configured);
      this.normal, this.sensitive, this.excluded, this.localImport := normal, sensitive, byDogu, localImport;
      this.configured := configured;
    }

    ghost predicate Valid() {
      normal != sensitive && normal.net == sensitive.net && Collected(excluded, configured)
    }

    /** The exclusions for a dogu are what the configuration lists for it. */
    lemma ExcludedIff(dogu: string, t: Key)
      requires Valid()
      ensures t in ExcludedFor(dogu) <==> Listed(configured, dogu, t)
    {
      ListedSomewhere(configured, dogu, t);
    }

    function ExcludedFor(dogu: string): seq<Key> {
      if dogu in excluded then excluded[dogu] else []
    }

    /** Both key sets can be stored, and the local config can be written. */
    ghost predicate Importable(dc: DoguConfig, normal0: map<string, Config>, sensitive0: map<string, Config>) {
      && Storable(Original(normal0, dc.name), dc.normal, ExcludedFor(dc.name))
      && Storable(Original(sensitive0, dc.name), dc.sensitive, ExcludedFor(dc.name))
      && (dc.local == [] || !localImport(dc.name).Broken?)
    }

    method ImportDoguConfig(dc: DoguConfig) returns (ok: bool)
      requires Valid()
      modifies normal`stored, sensitive`stored, normal.net
      ensures AllOrNothing(old(normal.stored), normal.stored, dc.name, dc.normal, ExcludedFor(dc.name))
      ensures AllOrNothing(old(sensitive.stored), sensitive.stored, dc.name, dc.sensitive, ExcludedFor(dc.name))
      ensures ok ==> Saved(old(normal.stored), normal.stored, dc.name, dc.normal, ExcludedFor(dc.name))
      ensures ok ==> Saved(old(sensitive.stored), sensitive.stored, dc.name, dc.sensitive, ExcludedFor(dc.name))
      ensures ok ==> dc.local == [] || !localImport(dc.name).Broken?
      ensures old(normal.net.calls) <= normal.net.calls
      ensures Quiet(normal.net.faults, old(normal.net.calls)) ==>
                (ok <==> Importable(dc, old(normal.stored), old(sensitive.stored)))
    {
      var err := ImportDoguConfigWithRepo(dc.name, dc.normal, normal, ExcludedFor(dc.name));
      if err.Some? {
        return false;
      }
      err := ImportDoguConfigWithRepo(dc.name, dc.sensitive, sensitive, ExcludedFor(dc.name));
      if err.Some? {
        return false;
      }
      ok := dc.local == [] || !localImport(dc.name).Broken?;
    }

    lemma ImportableStays(dc: DoguConfig, normal0: map<string, Config>, sensitive0: map<string, Config>,
                          normal1: map<string, Config>, sensitive1: map<string, Config>)
      requires SameAt(normal0, normal1, dc.name) && SameAt(sensitive0, sensitive1, dc.name)
      ensures Importable(dc, normal1, sensitive1) <==> Importable(dc, normal0, sensitive0)
    {
    }

    /** Every dogu holds what its entries make of its config, taken one after the other. */
    ghost predicate AllInTurn(configs: seq<DoguConfig>, before: map<string, Config>, after: map<string, Config>, secret: bool) {
      && Names(configs) <= after.Keys
      && forall d :: InTurn(Original(before, d), configs, d, secret, ExcludedFor(d), Original(after, d))
    }

    lemma NginxInTurn(configs: seq<DoguConfig>, i: nat, m0: map<string, Config>, m1: map<string, Config>, secret: bool)
      requires i < |configs| && configs[i].name == NGINX && AllInTurn(configs[..i], m0, m1, secret)
      ensures AllInTurn(configs[..i + 1], m0, m1, secret)
    {
      NamesOfPrefix(configs, i);
      forall d ensures InTurn(Original(m0, d), configs[..i + 1], d, secret, ExcludedFor(d), Original(m1, d)) {
        InTurnStep(Original(m0, d), configs, i, d, secret, ExcludedFor(d), Original(m1, d), Original(m1, d));
      }
    }

    lemma NextInTurn(configs: seq<DoguConfig>, i: nat, m0: map<string, Config>, m1: map<string, Config>, m2: map<string, Config>, secret: bool)
      requires i < |configs| && configs[i].name != NGINX && AllInTurn(configs[..i], m0, m1, secret)
      requires var dc := configs[i];
               && AllOrNothing(m1, m2, dc.name, EntriesOf(dc, secret), ExcludedFor(dc.name))
               && Saved(m1, m2, dc.name, EntriesOf(dc, secret), ExcludedFor(dc.name))
      ensures AllInTurn(configs[..i + 1], m0, m2, secret)
    {
      NamesOfPrefix(configs, i);
      forall d ensures InTurn(Original(m0, d), configs[..i + 1], d, secret, ExcludedFor(d), Original(m2, d)) {
        InTurnStep(Original(m0, d), configs, i, d, secret, ExcludedFor(d), Original(m1, d), Original(m2, d));
      }
    }

    lemma EachOnce(configs: seq<DoguConfig>, before: map<string, Config>, after: map<string, Config>, secret: bool)
      requires AllInTurn(configs, before, after, secret) && Distinct(configs)
      ensures forall i | 0 <= i < |configs| && configs[i].name != NGINX ::
                Saved(before, after, configs[i].name, EntriesOf(configs[i], secret), ExcludedFor(configs[i].name))
    {
      forall i | 0 <= i < |configs| && configs[i].name != NGINX
        ensures Saved(before, after, configs[i].name, EntriesOf(configs[i], secret), ExcludedFor(configs[i].name))
      {
        var d := configs[i].name;
        assert configs[i] in configs && d in Names(configs);
        InTurnOnce(Original(before, d), configs, i, secret, ExcludedFor(d), Original(after, d));
      }
    }

    ghost predicate AllImportable(configs: seq<DoguConfig>, normal0: map<string, Config>, sensitive0: map<string, Config>) {
      forall i | 0 <= i < |configs| && configs[i].name != NGINX :: Importable(configs[i], normal0, sensitive0)
    }

    lemma OneMoreImportable(configs: seq<DoguConfig>, i: nat, normal0: map<string, Config>, sensitive0: map<string, Config>)
      requires i < |configs|
      ensures AllImportable(configs[..i + 1], normal0, sensitive0)
              <==> AllImportable(configs[..i], normal0, sensitive0)
                   && (configs[i].name == NGINX || Importable(configs[i], normal0, sensitive0))
      ensures AllImportable(configs, normal0, sensitive0) ==> AllImportable(configs[..i + 1], normal0, sensitive0)
    {
      hide Importable;
    }

    lemma NextImportable(configs: seq<DoguConfig>, i: nat, normal0: map<string, Config>, sensitive0: map<string, Config>,
                         normal1: map<string, Config>, sensitive1: map<string, Config>)
      requires i < |configs| && Distinct(configs)
      requires OnlyNamed(configs[..i], normal0, normal1) && OnlyNamed(configs[..i], sensitive0, sensitive1)
      ensures AllImportable(configs[..i + 1], normal0, sensitive0)
              <==> AllImportable(configs[..i], normal0, sensitive0)
                   && (configs[i].name == NGINX || Importable(configs[i], normal1, sensitive1))
      ensures AllImportable(configs, normal0, sensitive0) ==> AllImportable(configs[..i + 1], normal0, sensitive0)
    {
      hide Importable, AllImportable, Names, Distinct;
      NamesOfPrefix(configs, i);
      ImportableStays(configs[i], normal0, sensitive0, normal1, sensitive1);
      OneMoreImportable(configs, i, normal0, sensitive0);
    }

    /** Dogus that are not listed, and nginx, are untouched; success imports every other listed dogu, entry
        by entry. */
    method ImportDoguConfigs(configs: seq<DoguConfig>) returns (ok: bool)
      requires Valid()
      modifies normal`stored, sensitive`stored, normal.net
      ensures ok ==>
                forall i | IsLastOfName(configs, i) && configs[i].name != "nginx" ::
                  && ImportedAs(configured, configs[i].name, configs[i].normal, old(normal.stored), normal.stored, Distinct(configs))
                  && ImportedAs(configured, configs[i].name, configs[i].sensitive, old(sensitive.stored), sensitive.stored, Distinct(configs))
      ensures forall d | (d == "nginx" || forall dc | dc in configs :: dc.name != d) ::
                SameAt(old(normal.stored), normal.stored, d) && SameAt(old(sensitive.stored), sensitive.stored, d)
      ensures OnlyNamed(configs, old(normal.stored), normal.stored) && OnlyNamed(configs, old(sensitive.stored), sensitive.stored)
      ensures ok ==> AllInTurn(configs, old(normal.stored), normal.stored, false)
      ensures ok ==> AllInTurn(configs, old(sensitive.stored), sensitive.stored, true)
      ensures Quiet(normal.net.faults, old(normal.net.calls)) && Distinct(configs) ==>
                (ok <==> AllImportable(configs, old(normal.stored), old(sensitive.stored)))
    {
      ghost var normal0, sensitive0 := normal.stored, sensitive.stored;
      ghost var none := configs[..0];
      assert AllInTurn(none, normal0, normal0, false) && AllInTurn(none, sensitive0, sensitive0, true);
      assert OnlyNamed(none, normal0, normal0) && OnlyNamed(none, sensitive0, sensitive0) && AllImportable(none, normal0, sensitive0);
      hide *;
      for i := 0 to |configs|
        invariant OnlyNamed(configs[..i], normal0, normal.stored) && OnlyNamed(configs[..i], sensitive0, sensitive.stored)
        invariant AllInTurn(configs[..i], normal0, normal.stored, false)
        invariant AllInTurn(configs[..i], sensitive0, sensitive.stored, true)
        invariant old(normal.net.calls) <= normal.net.calls
        invariant Quiet(normal.net.faults, old(normal.net.calls)) ==> Quiet(normal.net.faults, normal.net.calls)
        invariant Quiet(normal.net.faults, old(normal.net.calls)) && Distinct(configs) ==>
                    AllImportable(configs[..i], normal0, sensitive0)
      {
        ghost var normal1, sensitive1, calls := normal.stored, sensitive.stored, normal.net.calls;
        if Distinct(configs) {
          NextImportable(configs, i, normal0, sensitive0, normal1, sensitive1);
        }
        if configs[i].name == NGINX {
          NginxInTurn(configs, i, normal0, normal.stored, false);
          NginxInTurn(configs, i, sensitive0, sensitive.stored, true);
          continue;
        }
        ghost var dc := configs[i];
        var done := ImportDoguConfig(configs[i]);
        LaterIsQuiet(normal.net.faults, calls, normal.net.calls);
        NextOnlyNamed(configs, i, normal0, normal1, normal.stored, dc.normal, ExcludedFor(dc.name));
        NextOnlyNamed(configs, i, sensitive0, sensitive1, sensitive.stored, dc.sensitive, ExcludedFor(dc.name));
        if !done {
          return false;
        }
        NextInTurn(configs, i, normal0, normal1, normal.stored, false);
        NextInTurn(configs, i, sensitive0, sensitive1, sensitive.stored, true);
      }
      assert configs[..|configs|] == configs;
      EachAsConfigured(configs, normal0, normal.stored, false);
      EachAsConfigured(configs, sensitive0, sensitive.stored, true);
      ok := true;
    }

    /** What an import leaves of each dogu, entry by entry of the configuration and of the exporter. */
    lemma EachAsConfigured(configs: seq<DoguConfig>, before: map<string, Config>, after: map<string, Config>, secret: bool)
      requires Valid() && AllInTurn(configs, before, after, secret)
      ensures forall i | IsLastOfName(configs, i) && configs[i].name != "nginx" ::
                ImportedAs(configured, configs[i].name, EntriesOf(configs[i], secret), before, after, Distinct(configs))
    {
      forall i | IsLastOfName(configs, i) && configs[i].name != "nginx"
        ensures ImportedAs(configured, configs[i].name, EntriesOf(configs[i], secret), before, after, Distinct(configs))
      {
        var d := configs[i].name;
        assert configs[i] in configs && d in Names(configs);
        var original, result := Original(before, d), Original(after, d);
        var mid := LastImport(original, configs, i, secret, ExcludedFor(d), result);
        InTurnKeepsExcluded(original, configs[..i], d, secret, ExcludedFor(d), mid);
        RefilledAs(mid, EntriesOf(configs[i], secret), ExcludedFor(d), result);
        if Distinct(configs) {
          InTurnOfOthers(original, configs[..i], d, secret, ExcludedFor(d), mid);
        }
        forall t ensures t in ExcludedFor(d) <==> Listed(configured, d, t) {
          ExcludedIff(d, t);
        }
        AsConfigured(configured, d, EntriesOf(configs[i], secret), ExcludedFor(d), mid, before, after, Distinct(configs));
      }
    }
  }

  // ---------- what an import means, entry by entry ----------

  /** Some entry of the configuration lists the key for the dogu. */
  predicate Listed(configured: seq<DoguList>, dogu: string, t: Key) {
    exists c | c in configured :: c.dogu == dogu && t in c.values
  }

  /** Entry `i` is the last one that spells its key like this. */
  ghost predicate IsLastSpelling(e: seq<KeyValue>, i: int) {
    0 <= i < |e| && forall j | i < j < |e| :: e[j].key != e[i].key
  }

  /** Only keys of the exporter; excluded ones as they were before; the other ones as last sent in one of
      their spellings. */
  ghost predicate AsSent(e: seq<KeyValue>, excluded: seq<Key>, before: Config, after: Config) {
    && (forall t | t in after :: exists i :: 0 <= i < |e| && SpellingOf(e[i].key, t))
    && (forall t | t in after && t in excluded :: t in before && after[t] == before[t])
    && (forall t | t in after && t !in excluded ::
          exists i :: IsLastSpelling(e, i) && SpellingOf(e[i].key, t) && e[i].value == after[t])
    && (forall i, t | 0 <= i < |e| && SpellingOf(e[i].key, t) && (t !in excluded || t in before) :: t in after)
  }

  lemma {:induction false} LastValueIs(e: seq<KeyValue>, k: Key, v: string) returns (i: int)
    requires LastValue(e, k) == Some(v)
    ensures IsLastSpelling(e, i) && e[i].key == k && e[i].value == v
  {
    var last := |e| - 1;
    if e[last].key == k {
      i := last;
    } else {
      i := LastValueIs(e[..last], k, v);
      assert forall j | 0 <= j < last :: e[..last][j] == e[j];
    }
  }

  lemma RefilledAs(original: Config, e: seq<KeyValue>, excluded: seq<Key>, r: Config)
    requires Refilled(original, e, excluded, r)
    ensures AsSent(e, excluded, original, r)
  {
    RefilledKeys(original, e, excluded, r);
    var values := ValuesToSet(original, e, excluded);
    forall t | t in r
      ensures exists i :: 0 <= i < |e| && SpellingOf(e[i].key, t)
      ensures t !in excluded ==> exists i :: IsLastSpelling(e, i) && SpellingOf(e[i].key, t) && e[i].value == r[t]
    {
      var k :| k in values && Trim(k) == t && values[k] == r[t];
      var kv := KeyToSet(original, e, excluded, k);
      var n :| 0 <= n < |e| && e[n] == kv;
      SpellingIff(k, t);
      if t !in excluded {
        var i := LastValueIs(e, k, r[t]);
      }
    }
    forall i, t | 0 <= i < |e| && SpellingOf(e[i].key, t) && (t !in excluded || t in original) ensures t in r {
      SpellingIff(e[i].key, t);
      assert e[i] in e && t in ExporterKeys(e);
    }
  }

  /** An import fits in one key tree exactly when no two of the keys it will set are above each other: those
      that are sent and either not excluded or held before. */
  lemma StorableIff(original: Config, e: seq<KeyValue>, excluded: seq<Key>)
    ensures Storable(original, e, excluded) <==>
            forall i, j, s, t | 0 <= i < |e| && 0 <= j < |e| && SpellingOf(e[i].key, s) && SpellingOf(e[j].key, t)
                                && (s !in excluded || s in original) && (t !in excluded || t in original) :: !Under(s, t)
  {
    var targets := Targets(ValuesToSet(original, e, excluded));
    var r := CopyExists(ValuesToSet(original, e, excluded));
    RefilledKeys(original, e, excluded, r);
    assert r.Keys == targets;
    forall t ensures t in targets <==> exists i :: 0 <= i < |e| && SpellingOf(e[i].key, t) && (t !in excluded || t in original) {
      SentIff(e, t);
    }
    hide Under, SpellingOf;
  }

  lemma SentIff(e: seq<KeyValue>, t: Key)
    ensures t in ExporterKeys(e) <==> exists i :: 0 <= i < |e| && SpellingOf(e[i].key, t)
  {
    forall i | 0 <= i < |e| ensures SpellingOf(e[i].key, t) <==> Trim(e[i].key) == t {
      SpellingIff(e[i].key, t);
    }
    if t in ExporterKeys(e) {
      var kv :| kv in e && Trim(kv.key) == t;
      var i :| 0 <= i < |e| && e[i] == kv;
    }
  }

  /** The same in terms of the configured list, for a dogu that is named by an entry. With `once` no other entry
      names it, and then an excluded key that was there and is sent stays there. */
  ghost predicate ImportedAs(configured: seq<DoguList>, d: string, e: seq<KeyValue>, before: map<string, Config>, after: map<string, Config>, once: bool) {
    var original := if d in before then before[d] else map[];
    && d in after
    && (forall t | t in after[d] :: exists i :: 0 <= i < |e| && SpellingOf(e[i].key, t))
    && (forall t | t in after[d] && Listed(configured, d, t) :: t in original && after[d][t] == original[t])
    && (forall t | t in after[d] && !Listed(configured, d, t) ::
          exists i :: IsLastSpelling(e, i) && SpellingOf(e[i].key, t) && e[i].value == after[d][t])
    && (forall i, t | 0 <= i < |e| && SpellingOf(e[i].key, t) && !Listed(configured, d, t) :: t in after[d])
    && (once ==> forall i, t | 0 <= i < |e| && SpellingOf(e[i].key, t) && t in original :: t in after[d])
  }

  lemma AsConfigured(configured: seq<DoguList>, d: string, e: seq<KeyValue>, excluded: seq<Key>, mid: Config,
                     before: map<string, Config>, after: map<string, Config>, once: bool)
    requires d in after && AsSent(e, excluded, mid, after[d])
    requires forall t :: t in excluded <==> Listed(configured, d, t)
    requires forall t | t in mid && t in excluded :: t in Original(before, d) && mid[t] == Original(before, d)[t]
    requires once ==> mid == Original(before, d)
    ensures ImportedAs(configured, d, e, before, after, once)
  {
    hide Listed, IsLastSpelling, SpellingOf;
  }

  /** Entry `i` is the last one for its dogu. */
  ghost predicate IsLastOfName(configs: seq<DoguConfig>, i: int) {
    0 <= i < |configs| && forall j | i < j < |configs| :: configs[j].name != configs[i].name
  }

  /** The last entry for a dogu decides. */
  lemma {:induction false} LastImport(before: Config, configs: seq<DoguConfig>, i: int, secret: bool, excluded: seq<Key>, after: Config)
    returns (mid: Config)
    requires IsLastOfName(configs, i) && configs[i].name != NGINX
    requires InTurn(before, configs, configs[i].name, secret, excluded, after)
    ensures InTurn(before, configs[..i], configs[i].name, secret, excluded, mid)
    ensures Refilled(mid, EntriesOf(configs[i], secret), excluded, after)
  {
    var last := |configs| - 1;
    if i < last {
      assert configs[..last][..i] == configs[..i];
      mid := LastImport(before, configs[..last], i, secret, excluded, after);
    } else {
      mid :| InTurn(before, configs[..last], configs[i].name, secret, excluded, mid)
        && Storable(mid, EntriesOf(configs[i], secret), excluded) && Refilled(mid, EntriesOf(configs[i], secret), excluded, after);
    }
  }

  /** However many imports, an excluded key has its first value or is gone. */
  lemma {:induction false} InTurnKeepsExcluded(before: Config, configs: seq<DoguConfig>, d: string, secret: bool, excluded: seq<Key>, after: Config)
    requires InTurn(before, configs, d, secret, excluded, after)
    ensures forall t | t in after && t in excluded :: t in before && after[t] == before[t]
  {
    if configs != [] {
      var front, last := configs[..|configs| - 1], configs[|configs| - 1];
      if last.name != d || d == NGINX {
        InTurnKeepsExcluded(before, front, d, secret, excluded, after);
      } else {
        var mid :| InTurn(before, front, d, secret, excluded, mid)
          && Storable(mid, EntriesOf(last, secret), excluded) && Refilled(mid, EntriesOf(last, secret), excluded, after);
        InTurnKeepsExcluded(before, front, d, secret, excluded, mid);
        RefilledKeys(mid, EntriesOf(last, secret), excluded, after);
      }
    }
  }

  /** Only dogus that the configs are about have changed. */
  ghost predicate OnlyNamed(configs: seq<DoguConfig>, before: map<string, Config>, after: map<string, Config>) {
    forall d | d !in Names(configs) :: SameAt(before, after, d)
  }

  lemma NextOnlyNamed(configs: seq<DoguConfig>, i: nat, m0: map<string, Config>, m1: map<string, Config>, m2: map<string, Config>,
                      e: seq<KeyValue>, excluded: seq<Key>)
    requires i < |configs| && configs[i].name != NGINX && OnlyNamed(configs[..i], m0, m1)
    requires AllOrNothing(m1, m2, configs[i].name, e, excluded)
    ensures OnlyNamed(configs[..i + 1], m0, m2) && OnlyNamed(configs, m0, m2)
  {
    NamesOfPrefix(configs, i);
  }

  lemma LaterIsQuiet(faults: nat -> Fault, from: nat, later: nat)
    requires from <= later
    ensures Quiet(faults, from) ==> Quiet(faults, later)
  {
  }

  function EntriesOf(dc: DoguConfig, secret: bool): seq<KeyValue> {
    if secret then dc.sensitive else dc.normal
  }

  /** `after` is a possible outcome of importing the entries for dogu `d` over `before`, one after the other. */
  ghost predicate InTurn(before: Config, configs: seq<DoguConfig>, d: string, secret: bool, excluded: seq<Key>, after: Config) {
    if configs == [] then after == before
    else
      var front, last := configs[..|configs| - 1], configs[|configs| - 1];
      if last.name != d || d == NGINX then InTurn(before, front, d, secret, excluded, after)
      else
        exists mid :: InTurn(before, front, d, secret, excluded, mid)
          && Storable(mid, EntriesOf(last, secret), excluded) && Refilled(mid, EntriesOf(last, secret), excluded, after)
  }

  lemma InTurnStep(before: Config, configs: seq<DoguConfig>, i: nat, d: string, secret: bool, excluded: seq<Key>, mid: Config, after: Config)
    requires i < |configs| && InTurn(before, configs[..i], d, secret, excluded, mid)
    requires var dc := configs[i];
             if dc.name != d || d == NGINX then after == mid
             else Storable(mid, EntriesOf(dc, secret), excluded) && Refilled(mid, EntriesOf(dc, secret), excluded, after)
    ensures InTurn(before, configs[..i + 1], d, secret, excluded, after)
  {
    assert configs[..i + 1][..i] == configs[..i];
  }

  lemma {:induction false} InTurnOfOthers(before: Config, configs: seq<DoguConfig>, d: string, secret: bool, excluded: seq<Key>, after: Config)
    requires InTurn(before, configs, d, secret, excluded, after) && forall dc | dc in configs :: dc.name != d
    ensures after == before
  {
    if configs != [] {
      assert configs[|configs| - 1] in configs;
      InTurnOfOthers(before, configs[..|configs| - 1], d, secret, excluded, after);
    }
  }

  /** With distinct names only one entry counts. */
  lemma {:induction false} InTurnOnce(before: Config, configs: seq<DoguConfig>, i: nat, secret: bool, excluded: seq<Key>, after: Config)
    requires i < |configs| && Distinct(configs) && configs[i].name != NGINX
    requires InTurn(before, configs, configs[i].name, secret, excluded, after)
    ensures Storable(before, EntriesOf(configs[i], secret), excluded) && Refilled(before, EntriesOf(configs[i], secret), excluded, after)
  {
    var front, last := configs[..|configs| - 1], configs[|configs| - 1];
    if i < |front| {
      assert last.name != configs[i].name;
      InTurnOnce(before, front, i, secret, excluded, after);
    } else {
      var mid :| InTurn(before, front, last.name, secret, excluded, mid)
        && Storable(mid, EntriesOf(last, secret), excluded) && Refilled(mid, EntriesOf(last, secret), excluded, after);
      InTurnOfOthers(before, front, last.name, secret, excluded, mid);
    }
  }

  /** The dogus an import is about. */
  function Names(configs: seq<DoguConfig>): set<string> {
    set dc | dc in configs && dc.name != NGINX :: dc.name
  }

  lemma NamesOfPrefix(configs: seq<DoguConfig>, i: nat)
    requires i < |configs|
    ensures Names(configs[..i + 1]) == Names(configs[..i]) + if configs[i].name == NGINX then {} else {configs[i].name}
    ensures Names(configs[..i + 1]) <= Names(configs)
    ensures Distinct(configs) ==> configs[i].name !in Names(configs[..i])
  {
    assert configs[..i + 1] == configs[..i] + [configs[i]];
  }

  ghost predicate Distinct(configs: seq<DoguConfig>) {
    forall i, j | 0 <= i < j < |configs| :: configs[i].name != configs[j].name
  }

  ghost predicate SameAt(before: map<string, Config>, after: map<string, Config>, d: string) {
    (d in before <==> d in after) && (d in before ==> before[d] == after[d])
  }
}
