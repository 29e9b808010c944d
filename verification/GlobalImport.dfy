/** Import of the exporter's global config: wipe the store, put back what must be kept, add the rest. */
module GlobalImport {
  import opened Kubernetes
  import opened ConfigTree
  import opened UnorderedCopy
  import opened GlobalConfigRepo
  import Glob

  const KEYS_TO_KEEP: seq<string> := ["certificate/*", "k8s/*", "proxy/*", "fqdn", "alternativeFQDNs", "maintenance"]

  predicate MatchesAnyKeyByPattern(key: Key, patterns: seq<string>) {
    exists p | p in patterns :: Glob.Match(p, Trim(key))
  }

  /** The fixed patterns and the configured additional keys. */
  datatype Keep = Keep(patterns: seq<string>, additional: seq<Key>)

  /** The test both loops apply to a key. */
  predicate Kept(key: Key, keep: Keep) {
    MatchesAnyKeyByPattern(key, keep.patterns) || Trim(key) in keep.additional
  }

  predicate OneLevelBelow(prefix: string, name: string) {
    prefix <= name && '/' !in name[|prefix|..]
  }

  lemma AnyOfSix(patterns: seq<string>, key: Key)
    requires |patterns| == 6
    ensures MatchesAnyKeyByPattern(key, patterns) <==>
            || Glob.Match(patterns[0], Trim(key)) || Glob.Match(patterns[1], Trim(key)) || Glob.Match(patterns[2], Trim(key))
            || Glob.Match(patterns[3], Trim(key)) || Glob.Match(patterns[4], Trim(key)) || Glob.Match(patterns[5], Trim(key))
  {
    if MatchesAnyKeyByPattern(key, patterns) {
      var p :| p in patterns && Glob.Match(p, Trim(key));
      var i :| 0 <= i < 6 && patterns[i] == p;
    }
  }

  lemma OneLevelPattern(pattern: string, prefix: string, name: string)
    requires pattern == prefix + "*" && '*' !in prefix
    ensures Glob.Match(pattern, name) <==> OneLevelBelow(prefix, name)
  {
    Glob.MatchOneLevel(prefix, name);
  }

  /** The kept keys, without patterns. */
  lemma KeptKeys(key: Key, additional: seq<Key>)
    ensures Kept(key, Keep(KEYS_TO_KEEP, additional)) <==>
            || OneLevelBelow("certificate/", Trim(key)) || OneLevelBelow("k8s/", Trim(key))
            || OneLevelBelow("proxy/", Trim(key))
            || Trim(key) in {"fqdn", "alternativeFQDNs", "maintenance"} || Trim(key) in additional
  {
    var p, t := KEYS_TO_KEEP, Trim(key);
    AnyOfSix(p, key);
    OneLevelPattern(p[0], "certificate/", t);
    OneLevelPattern(p[1], "k8s/", t);
    OneLevelPattern(p[2], "proxy/", t);
    Glob.MatchLiteral(p[3], t);
    Glob.MatchLiteral(p[4], t);
    Glob.MatchLiteral(p[5], t);
  }

  // ---------- what an import produces ----------

  /** The exporter entries that are not ignored, in order. */
  function Surviving(e: seq<KeyValue>, keep: Keep): seq<KeyValue> {
    if e == [] then []
    else
      var front, last := Surviving(e[..|e| - 1], keep), e[|e| - 1];
      if Kept(last.key, keep) then front else front + [last]
  }

  /** The last exporter value of every key that is not kept. */
  function Imported(e: seq<KeyValue>, keep: Keep): Config {
    Overlay(map[], Surviving(e, keep))
  }

  function KeptPart(previous: Config, keep: Keep): Config {
    map k | k in previous && Kept(k, keep) :: previous[k]
  }

  /** Where the kept entries land. */
  function KeptTargets(previous: Config, keep: Keep): set<Key> {
    set k | k in previous && Kept(k, keep) :: Trim(k)
  }

  function TargetKeys(previous: Config, e: seq<KeyValue>, keep: Keep): set<Key> {
    KeptTargets(previous, keep) + Imported(e, keep).Keys
  }

  /** The two parts fit together in one key tree. */
  ghost predicate Mergeable(previous: Config, e: seq<KeyValue>, keep: Keep) {
    AncestorFree(TargetKeys(previous, e, keep))
  }

  /** `r` is a copy of the kept entries with the imported entries written over it. */
  ghost predicate Joined(kept: Config, imported: Config, r: Config) {
    exists c :: CopyOf(kept, c) && r == c + imported
  }

  /** The order in which the kept entries are copied does not show. */
  ghost predicate OneResult(kept: Config, imported: Config) {
    forall r, q | Joined(kept, imported, r) && Joined(kept, imported, q) :: r == q
  }

  /** `r` is a possible new store. */
  ghost predicate Merged(previous: Config, e: seq<KeyValue>, keep: Keep, r: Config) {
    Joined(KeptPart(previous, keep), Imported(e, keep), r)
  }

  lemma {:induction false} ImportedAreNotKept(e: seq<KeyValue>, keep: Keep)
    ensures forall t | t in Imported(e, keep) ::
              exists kv | kv in e :: Trim(kv.key) == t && !Kept(kv.key, keep)
  {
    if e != [] {
      var front, last := e[..|e| - 1], e[|e| - 1];
      ImportedAreNotKept(front, keep);
      SurvivingStep(e, keep);
      forall t | t in Imported(e, keep)
        ensures exists kv | kv in e :: Trim(kv.key) == t && !Kept(kv.key, keep)
      {
        if t in Imported(front, keep) {
          var kv :| kv in front && Trim(kv.key) == t && !Kept(kv.key, keep);
          assert kv in e;
        } else {
          assert last in e;
        }
      }
    }
  }

  lemma SurvivingStep(e: seq<KeyValue>, keep: Keep)
    requires e != []
    ensures var front, last := e[..|e| - 1], e[|e| - 1];
            Imported(e, keep) == if Kept(last.key, keep) then Imported(front, keep)
                                       else Imported(front, keep)[Trim(last.key) := last.value]
  {
    var front, last := e[..|e| - 1], e[|e| - 1];
    var s := Surviving(e, keep);
    if !Kept(last.key, keep) {
      assert s[..|s| - 1] == Surviving(front, keep) && s[|s| - 1] == last;
    }
  }

  lemma {:induction false} SurvivorsAreImported(e: seq<KeyValue>, keep: Keep)
    ensures forall kv | kv in e && !Kept(kv.key, keep) :: Trim(kv.key) in Imported(e, keep)
  {
    if e != [] {
      var front, last := e[..|e| - 1], e[|e| - 1];
      SurvivorsAreImported(front, keep);
      SurvivingStep(e, keep);
      assert e == front + [last];
    }
  }

  /** No key comes from both sides: up to one leading slash the kept and the imported keys are disjoint. */
  lemma PartsAreDisjoint(previous: Config, e: seq<KeyValue>, keep: Keep)
    ensures KeptTargets(previous, keep) !! Imported(e, keep).Keys
  {
    ImportedAreNotKept(e, keep);
    forall t | t in KeptTargets(previous, keep) ensures t !in Imported(e, keep) {
      var k :| k in previous && Kept(k, keep) && Trim(k) == t;
      assert forall key | Trim(key) == t :: Kept(key, keep);
    }
  }

  lemma KeptPartTargets(previous: Config, keep: Keep)
    ensures forall k | k in KeptPart(previous, keep) :: Trim(k) in KeptTargets(previous, keep)
  {
  }

  // ---------- what an import means, entry by entry ----------

  /** A name that is kept: a fixed one or a configured additional one. */
  predicate KeptName(t: Key, additional: seq<Key>) {
    FixedName(t) || t in additional
  }

  /** The store held a kept entry that lands on `t`. */
  predicate HeldFor(previous: Config, additional: seq<Key>, t: Key) {
    KeptName(t, additional) && exists k | k in previous :: SpellingOf(k, t)
  }

  /** Entry `i` of the exporter is the last one for a name that is not kept. */
  ghost predicate LastFor(e: seq<KeyValue>, additional: seq<Key>, i: int, t: Key) {
    && !KeptName(t, additional)
    && 0 <= i < |e| && SpellingOf(e[i].key, t) && forall j | i < j < |e| :: !SpellingOf(e[j].key, t)
  }

  /** The new store holds the kept entries of the old one and the exporter's last value of every other name,
      and nothing else. */
  ghost predicate ImportedOver(previous: Config, e: seq<KeyValue>, additional: seq<Key>, r: Config) {
    && (forall t :: t in r <==> HeldFor(previous, additional, t) || exists i :: LastFor(e, additional, i, t))
    && (forall t | HeldFor(previous, additional, t) :: exists k | k in previous :: SpellingOf(k, t) && r[t] == previous[k])
    && (forall i, t | LastFor(e, additional, i, t) :: r[t] == e[i].value)
  }

  lemma KeptIffName(k: Key, t: Key, additional: seq<Key>)
    requires SpellingOf(k, t)
    ensures Kept(k, Keep(KEYS_TO_KEEP, additional)) <==> KeptName(t, additional)
  {
    SpellingIff(k, t);
    KeptKeys(k, additional);
  }

  lemma {:induction false} ImportedIsLast(e: seq<KeyValue>, additional: seq<Key>, t: Key) returns (i: int)
    requires t in Imported(e, Keep(KEYS_TO_KEEP, additional))
    ensures LastFor(e, additional, i, t) && Imported(e, Keep(KEYS_TO_KEEP, additional))[t] == e[i].value
  {
    var keep, last := Keep(KEYS_TO_KEEP, additional), |e| - 1;
    SurvivingStep(e, keep);
    SpellingIff(e[last].key, t);
    hide KeptName, Kept, Trim;
    if SpellingOf(e[last].key, t) {
      KeptIffName(e[last].key, t, additional);
      i := last;
      NotKeptWhenImported(e, keep, t, e[last].key);
    } else {
      i := ImportedIsLast(e[..last], additional, t);
      assert forall j | 0 <= j < last :: e[..last][j] == e[j];
    }
  }

  lemma NotKeptWhenImported(e: seq<KeyValue>, keep: Keep, t: Key, k: Key)
    requires t in Imported(e, keep) && Trim(k) == t
    ensures !Kept(k, keep)
  {
    ImportedAreNotKept(e, keep);
    var kv :| kv in e && Trim(kv.key) == t && !Kept(kv.key, keep);
  }

  lemma LastIsImported(e: seq<KeyValue>, additional: seq<Key>, i: int, t: Key)
    requires LastFor(e, additional, i, t)
    ensures t in Imported(e, Keep(KEYS_TO_KEEP, additional)) && Imported(e, Keep(KEYS_TO_KEEP, additional))[t] == e[i].value
  {
    var keep := Keep(KEYS_TO_KEEP, additional);
    SpellingIff(e[i].key, t);
    KeptIffName(e[i].key, t, additional);
    SurvivorsAreImported(e, keep);
    assert e[i] in e;
    var j := ImportedIsLast(e, additional, t);
  }

  /** Nothing else is meant by a merge. */
  lemma MergedIsImportedOver(previous: Config, e: seq<KeyValue>, additional: seq<Key>, r: Config)
    requires Merged(previous, e, Keep(KEYS_TO_KEEP, additional), r)
    ensures ImportedOver(previous, e, additional, r)
  {
    var keep := Keep(KEYS_TO_KEEP, additional);
    var kept := KeptPart(previous, keep);
    PartsAreDisjoint(previous, e, keep);
    var c :| CopyOf(kept, c) && r == c + Imported(e, keep);
    forall t ensures t in c <==> HeldFor(previous, additional, t) {
      HeldIff(previous, additional, t);
    }
    forall t | t in c ensures exists k | k in previous :: SpellingOf(k, t) && r[t] == previous[k] {
      var k :| k in kept && Trim(k) == t && kept[k] == c[t];
      SpellingIff(k, t);
      assert t in KeptTargets(previous, keep);
    }
    forall t ensures t in Imported(e, keep) <==> exists i :: LastFor(e, additional, i, t) {
      if t in Imported(e, keep) {
        var i := ImportedIsLast(e, additional, t);
      }
      if i :| LastFor(e, additional, i, t) {
        LastIsImported(e, additional, i, t);
      }
    }
    forall i, t | LastFor(e, additional, i, t) ensures r[t] == e[i].value {
      LastIsImported(e, additional, i, t);
    }
  }

  lemma HeldIff(previous: Config, additional: seq<Key>, t: Key)
    ensures HeldFor(previous, additional, t) <==> t in KeptTargets(previous, Keep(KEYS_TO_KEEP, additional))
  {
    var keep := Keep(KEYS_TO_KEEP, additional);
    forall k | k in previous ensures SpellingOf(k, t) <==> Trim(k) == t {
      SpellingIff(k, t);
    }
    forall k | SpellingOf(k, t) ensures Kept(k, keep) <==> KeptName(t, additional) {
      KeptIffName(k, t, additional);
    }
    hide Kept, KeptName, SpellingOf, Trim;
  }

  /** A merge fits in one key tree exactly when no two of the names it will hold are above each other. */
  lemma MergeableIff(previous: Config, e: seq<KeyValue>, additional: seq<Key>)
    ensures Mergeable(previous, e, Keep(KEYS_TO_KEEP, additional)) <==>
            forall s, t | (HeldFor(previous, additional, s) || exists i :: LastFor(e, additional, i, s))
                          && (HeldFor(previous, additional, t) || exists i :: LastFor(e, additional, i, t)) :: !Under(s, t)
  {
    var keep := Keep(KEYS_TO_KEEP, additional);
    forall t ensures t in TargetKeys(previous, e, keep) <==> HeldFor(previous, additional, t) || exists i :: LastFor(e, additional, i, t) {
      HeldIff(previous, additional, t);
      if t in Imported(e, keep) {
        var i := ImportedIsLast(e, additional, t);
      }
      if i :| LastFor(e, additional, i, t) {
        LastIsImported(e, additional, i, t);
      }
    }
    hide Under, HeldFor, LastFor, TargetKeys;
  }

  // ---------- independence of the map's iteration order ----------

  /** Every kept key of the store is stored without a leading slash. */
  predicate Settled(previous: Config, keep: Keep) {
    forall k | k in previous && Kept(k, keep) :: Trim(k) == k
  }

  lemma JoinedIsOneIff(kept: Config, imported: Config)
    requires forall k | k in kept :: Trim(k) !in imported
    ensures OneResult(kept, imported) <==> Unambiguous(kept)
  {
    if Unambiguous(kept) {
      forall r, q | Joined(kept, imported, r) && Joined(kept, imported, q) ensures r == q {
        var c :| CopyOf(kept, c) && r == c + imported;
        var d :| CopyOf(kept, d) && q == d + imported;
        CopyIsUnique(kept, c, d);
      }
    } else {
      var a, b :| a in kept && b in kept && Trim(a) == Trim(b) && kept[a] != kept[b];
      JoinedIsNotOne(kept, imported, a, b);
    }
  }

  lemma JoinedIsNotOne(kept: Config, imported: Config, a: Key, b: Key)
    requires a in kept && b in kept && Trim(a) == Trim(b) && kept[a] != kept[b]
    requires Trim(a) !in imported
    ensures exists r, q :: Joined(kept, imported, r) && Joined(kept, imported, q) && r != q
  {
    var c := CopyPreferring(kept, a);
    var d := CopyPreferring(kept, b);
    assert Joined(kept, imported, c + imported) && Joined(kept, imported, d + imported);
    assert (c + imported)[Trim(a)] == kept[a] && (d + imported)[Trim(a)] == kept[b];
  }

  /** The new store does not depend on the order in which the kept entries are copied exactly when no
      two kept keys with different values differ only by a leading slash. */
  lemma OrderIndependentIff(previous: Config, e: seq<KeyValue>, keep: Keep)
    ensures OneResult(KeptPart(previous, keep), Imported(e, keep))
            <==> Unambiguous(KeptPart(previous, keep))
  {
    PartsAreDisjoint(previous, e, keep);
    KeptPartTargets(previous, keep);
    JoinedIsOneIff(KeptPart(previous, keep), Imported(e, keep));
  }

  lemma JoinedWhenSettled(kept: Config, imported: Config, r: Config)
    requires forall k | k in kept :: Trim(k) == k
    ensures Joined(kept, imported, r) <==> r == kept + imported
  {
    assert CopyOf(kept, kept) by {
      assert forall t | t in kept :: t in kept && Trim(t) == t && kept[t] == kept[t];
    }
    if Joined(kept, imported, r) {
      var c :| CopyOf(kept, c) && r == c + imported;
      CopyIsUnique(kept, c, kept);
    }
  }

  /** On a settled store the import has one result: the kept entries as they are, and the exporter's. */
  lemma MergedWhenSettled(previous: Config, e: seq<KeyValue>, keep: Keep, r: Config)
    requires Settled(previous, keep)
    ensures Merged(previous, e, keep, r) <==> r == KeptPart(previous, keep) + Imported(e, keep)
  {
    JoinedWhenSettled(KeptPart(previous, keep), Imported(e, keep), r);
  }

  lemma MergeableAlone(p: Config, e: seq<KeyValue>, keep: Keep)
    ensures Mergeable(p, e, keep) ==> Mergeable(map[], e, keep)
  {
    if Mergeable(p, e, keep) {
      AncestorFreeSubset(TargetKeys(p, e, keep), TargetKeys(map[], e, keep));
    }
  }

  // ---------- when copying the kept entries fails ----------

  /** Copying the kept entries of a key tree cannot fail when none of their keys starts with a slash. */
  lemma CopyNeverFails(previous: Config, keep: Keep)
    requires AncestorFree(previous.Keys) && Settled(previous, keep)
    ensures AncestorFree(KeptTargets(previous, keep))
  {
    AncestorFreeSubset(previous.Keys, KeptTargets(previous, keep));
  }

  /** The names that are always kept. */
  predicate FixedName(t: Key) {
    || OneLevelBelow("certificate/", t) || OneLevelBelow("k8s/", t) || OneLevelBelow("proxy/", t)
    || t in {"fqdn", "alternativeFQDNs", "maintenance"}
  }

  lemma FixedNamesAreApart(a: Key, b: Key)
    requires FixedName(a) && FixedName(b)
    ensures !Under(a, b) && Trim(a) == a
  {
    var c, k, p := "certificate/", "k8s/", "proxy/";
    assert c[0] == 'c' && k[0] == 'k' && p[0] == 'p';
    assert "fqdn"[0] == 'f' && "alternativeFQDNs"[0] == 'a' && "maintenance"[0] == 'm';
  }

  /** Without additional keys copying cannot fail, whatever the store holds. */
  lemma CopyNeverFailsByDefault(previous: Config)
    ensures AncestorFree(KeptTargets(previous, Keep(KEYS_TO_KEEP, [])))
  {
    var keep := Keep(KEYS_TO_KEEP, []);
    forall a, b | a in KeptTargets(previous, keep) && b in KeptTargets(previous, keep) ensures !Under(a, b) {
      var k :| k in previous && Kept(k, keep) && Trim(k) == a;
      var l :| l in previous && Kept(l, keep) && Trim(l) == b;
      KeptKeys(k, []);
      KeptKeys(l, []);
      FixedNamesAreApart(a, b);
    }
  }

  /** One kept name lies below another. */
  ghost predicate Nested(keep: Keep) {
    exists a, b :: Kept(a, keep) && Kept(b, keep) && Under(Trim(a), Trim(b))
  }

  /** Copying can fail for some key tree exactly when kept names are nested. */
  lemma CopyNeverFailsIff(keep: Keep)
    requires KeepsNoSlash(keep)
    ensures (forall previous: Config | AncestorFree(previous.Keys) :: AncestorFree(KeptTargets(previous, keep)))
            <==> !Nested(keep)
  {
    if Nested(keep) {
      var a, b :| Kept(a, keep) && Kept(b, keep) && Under(Trim(a), Trim(b));
      var previous := NestedStore(keep, Trim(a), Trim(b));
      assert AncestorFree(previous.Keys) && !AncestorFree(KeptTargets(previous, keep));
    } else {
      forall previous: Config ensures AncestorFree(KeptTargets(previous, keep)) {
        forall s, t | s in KeptTargets(previous, keep) && t in KeptTargets(previous, keep) ensures !Under(s, t) {
          var k :| k in previous && Kept(k, keep) && Trim(k) == s;
          var l :| l in previous && Kept(l, keep) && Trim(l) == t;
        }
      }
    }
  }

  /** A key tree that holds the outer one of two nested kept names with a slash in front. */
  lemma NestedStore(keep: Keep, inner: Key, outer: Key) returns (previous: Config)
    requires Trim(inner) == inner && Trim(outer) == outer && Under(inner, outer)
    requires Kept(inner, keep) && Kept(outer, keep)
    ensures previous.Keys == {inner, "/" + outer} && AncestorFree(previous.Keys)
    ensures !AncestorFree(KeptTargets(previous, keep))
  {
    previous := map[inner := "", "/" + outer := ""];
    assert inner[0] != '/' && Trim("/" + outer) == outer && Kept("/" + outer, keep);
    assert !Under(inner, "/" + outer) && !Under("/" + outer, inner);
    assert inner in KeptTargets(previous, keep) && outer in KeptTargets(previous, keep);
  }

  /** An import can lead there, and no import is possible any more. */
  lemma CopyFailsForEver(keep: Keep, inner: Key, outer: Key, v: string, w: string) returns (r: Config)
    requires Trim(inner) == inner && Trim(outer) == outer && Under(inner, outer)
    requires Kept(inner, keep) && Kept(outer, keep) && !Kept("//" + outer, keep)
    ensures var p, e := map[inner := v], [KeyValue("//" + outer, w)];
            Settled(p, keep) && AncestorFree(p.Keys) && Mergeable(p, e, keep) && Merged(p, e, keep, r) && AncestorFree(r.Keys)
    ensures forall later :: !Mergeable(r, later, keep)
  {
    var p, e := map[inner := v], [KeyValue("//" + outer, w)];
    var t := "/" + outer;
    assert Trim(e[0].key) == t;
    SurvivingStep(e, keep);
    assert e[..0] == [] && Imported([], keep) == map[];
    assert Imported(e, keep) == map[t := w];
    r := map[inner := v] + map[t := w];
    assert KeptPart(p, keep) == p;
    MergedWhenSettled(p, e, keep, r);
    var previous := NestedStore(keep, inner, outer);
    assert KeptTargets(p, keep) == {inner} && TargetKeys(p, e, keep) == previous.Keys && r.Keys == previous.Keys;
    forall later ensures !Mergeable(r, later, keep) {
      assert KeptTargets(r, keep) == KeptTargets(previous, keep);
      assert KeptTargets(r, keep) <= TargetKeys(r, later, keep);
    }
  }

  // ---------- one import never touches a kept entry ----------

  lemma TrimmedTo(k: Key, t: Key)
    requires Trim(k) == t
    ensures k == t || k == "/" + t
  {
    if k != t {
      assert k == [k[0]] + k[1..];
    }
  }

  /** An entry that counts as kept comes through every import as it was, present or absent, unless the store
      also holds its key with a slash in front. */
  lemma KeptEntrySurvives(p: Config, e: seq<KeyValue>, keep: Keep, r: Config, key: Key)
    requires Merged(p, e, keep, r)
    requires Trim(key) == key && Kept(key, keep) && "/" + key !in p
    ensures Get(r, key) == Get(p, key)
  {
    ImportedAreNotKept(e, keep);
    assert forall kv | kv in e && Trim(kv.key) == key :: Kept(kv.key, keep);
    var kept := KeptPart(p, keep);
    assert key in p <==> key in kept;
    var c :| CopyOf(kept, c) && r == c + Imported(e, keep);
    if key in c {
      var k :| k in kept && Trim(k) == key && kept[k] == c[key];
      TrimmedTo(k, key);
    }
  }

  /** So one import leaves every kept entry alone, whatever the exporter sent, as long as no kept key of the
      store starts with a slash. */
  lemma OneImportKeepsKeptEntries(p: Config, e: seq<KeyValue>, keep: Keep, r: Config, key: Key)
    requires Settled(p, keep) && Merged(p, e, keep, r)
    requires Trim(key) == key && Kept(key, keep)
    ensures Get(r, key) == Get(p, key)
  {
    SlashedIsUnsettled(p, keep, key);
    KeptEntrySurvives(p, e, keep, r, key);
  }

  lemma SlashedEntryWins(p: Config, e: seq<KeyValue>, keep: Keep, key: Key) returns (r: Config)
    requires Trim(key) == key && Kept(key, keep) && "/" + key in p
    ensures Merged(p, e, keep, r) && Get(r, key) == Some(p["/" + key])
  {
    var kept, slashed := KeptPart(p, keep), "/" + key;
    assert Trim(slashed) == key && Kept(slashed, keep);
    var c := CopyPreferring(kept, slashed);
    PartsAreDisjoint(p, e, keep);
    assert key in KeptTargets(p, keep);
    r := c + Imported(e, keep);
  }

  lemma SameValueStays(p: Config, e: seq<KeyValue>, keep: Keep, r: Config, key: Key)
    requires Merged(p, e, keep, r) && Trim(key) == key && Kept(key, keep)
    requires "/" + key in p && Get(p, key) == Some(p["/" + key])
    ensures Get(r, key) == Get(p, key)
  {
    var kept := KeptPart(p, keep);
    PartsAreDisjoint(p, e, keep);
    assert key in kept && key in KeptTargets(p, keep);
    var c :| CopyOf(kept, c) && r == c + Imported(e, keep);
    var k :| k in kept && Trim(k) == key && kept[k] == c[key];
    TrimmedTo(k, key);
  }

  /** One import into any store can change a kept entry exactly when the store also holds its key with a slash
      in front, under another value. */
  lemma OneImportChangesIff(p: Config, e: seq<KeyValue>, keep: Keep, key: Key)
    requires Trim(key) == key && Kept(key, keep)
    ensures (exists r :: Merged(p, e, keep, r) && Get(r, key) != Get(p, key))
            <==> "/" + key in p && Get(p, key) != Some(p["/" + key])
  {
    if "/" + key !in p {
      forall r | Merged(p, e, keep, r) ensures Get(r, key) == Get(p, key) {
        KeptEntrySurvives(p, e, keep, r, key);
      }
    } else if Get(p, key) == Some(p["/" + key]) {
      forall r | Merged(p, e, keep, r) ensures Get(r, key) == Get(p, key) {
        SameValueStays(p, e, keep, r, key);
      }
    } else {
      var r := SlashedEntryWins(p, e, keep, key);
    }
  }

  lemma SlashedIsUnsettled(p: Config, keep: Keep, key: Key)
    requires Settled(p, keep) && Trim(key) == key && Kept(key, keep)
    ensures "/" + key !in p
  {
    assert Trim("/" + key) == key && Kept("/" + key, keep);
  }

  // ---------- what counts as kept afterwards ----------

  /** An entry that the import lets through although the key it is stored under will count as kept. */
  predicate Smuggles(e: seq<KeyValue>, keep: Keep) {
    exists kv | kv in e :: !Kept(kv.key, keep) && Kept(Trim(kv.key), keep)
  }

  /** After the import of `e` into any settled store the same entries count as kept as before: none is added
      under a key that the next import would take for a kept one. */
  ghost predicate Protects(e: seq<KeyValue>, keep: Keep) {
    forall p, r | Settled(p, keep) && Mergeable(p, e, keep) && Merged(p, e, keep, r) ::
      KeptPart(r, keep) == KeptPart(p, keep)
  }

  /** Only a key with two leading slashes can be smuggled. */
  lemma SmuggledKeysHaveTwoSlashes(e: seq<KeyValue>, keep: Keep)
    requires Smuggles(e, keep)
    ensures exists kv | kv in e :: "//" <= kv.key
  {
    var kv :| kv in e && !Kept(kv.key, keep) && Kept(Trim(kv.key), keep);
    assert Trim(Trim(kv.key)) != Trim(kv.key);
    assert kv.key[..2] == "//";
  }

  lemma CleanImportProtects(p: Config, e: seq<KeyValue>, keep: Keep, r: Config)
    requires !Smuggles(e, keep)
    requires Settled(p, keep) && Merged(p, e, keep, r)
    ensures KeptPart(r, keep) == KeptPart(p, keep)
    ensures Settled(r, keep)
  {
    MergedWhenSettled(p, e, keep, r);
    ImportedAreNotKept(e, keep);
    forall k | k in Imported(e, keep) ensures !Kept(k, keep) {
      var kv :| kv in e && Trim(kv.key) == k && !Kept(kv.key, keep);
    }
  }

  /** What counts as kept is the same after every import exactly when the exporter smuggles nothing in, or
      when its own entries can never be stored together. */
  lemma ProtectionIff(e: seq<KeyValue>, keep: Keep)
    ensures Protects(e, keep) <==> !Smuggles(e, keep) || !Mergeable(map[], e, keep)
  {
    if !Smuggles(e, keep) {
      forall p, r | Settled(p, keep) && Mergeable(p, e, keep) && Merged(p, e, keep, r)
        ensures KeptPart(r, keep) == KeptPart(p, keep)
      {
        CleanImportProtects(p, e, keep, r);
      }
    } else if !Mergeable(map[], e, keep) {
      assert TargetKeys(map[], e, keep) == Imported(e, keep).Keys;
      assert forall p :: !Mergeable(p, e, keep);
    } else {
      var r := Imported(e, keep);
      SmuggledIsKept(e, keep);
      MergedWhenSettled(map[], e, keep, r);
      assert KeptPart(map[], keep) + r == r;
      assert Settled(map[], keep) && KeptPart(r, keep) != KeptPart(map[], keep);
    }
  }

  lemma SmuggledIsKept(e: seq<KeyValue>, keep: Keep)
    requires Smuggles(e, keep)
    ensures KeptPart(Imported(e, keep), keep) != map[]
  {
    var kv :| kv in e && !Kept(kv.key, keep) && Kept(Trim(kv.key), keep);
    SurvivorsAreImported(e, keep);
    assert Trim(kv.key) in KeptPart(Imported(e, keep), keep);
  }

  /** No later import can tell the stores `p` and `q` apart. */
  ghost predicate SameImports(p: Config, q: Config, keep: Keep) {
    forall e, r ::
      (Mergeable(p, e, keep) && Merged(p, e, keep, r)) <==>
      (Mergeable(q, e, keep) && Merged(q, e, keep, r))
  }

  /** Whatever store `e1` was imported into, a later import behaves as if `e1` had never been there. */
  ghost predicate Absorbed(e1: seq<KeyValue>, keep: Keep) {
    forall p, r | Settled(p, keep) && Mergeable(p, e1, keep) && Merged(p, e1, keep, r) ::
      SameImports(p, r, keep)
  }

  lemma KeptPartDecides(p: Config, q: Config, keep: Keep)
    requires KeptPart(p, keep) == KeptPart(q, keep)
    ensures SameImports(p, q, keep)
  {
    assert KeptTargets(p, keep) == (set k | k in KeptPart(p, keep) :: Trim(k));
    assert KeptTargets(q, keep) == (set k | k in KeptPart(q, keep) :: Trim(k));
  }

  /** An import is absorbed by the next one exactly when it leaves what counts as kept alone. */
  lemma AbsorptionIff(e1: seq<KeyValue>, keep: Keep)
    ensures Absorbed(e1, keep) <==> !Smuggles(e1, keep) || !Mergeable(map[], e1, keep)
  {
    ProtectionIff(e1, keep);
    if Protects(e1, keep) {
      forall p, r | Settled(p, keep) && Mergeable(p, e1, keep) && Merged(p, e1, keep, r)
        ensures SameImports(p, r, keep)
      {
        KeptPartDecides(p, r, keep);
      }
    } else {
      var r := Imported(e1, keep);
      SmuggledIsKept(e1, keep);
      MergedWhenSettled(map[], e1, keep, r);
      assert KeptPart(map[], keep) + r == r;
      ImportOfNothing(r, keep);
      assert Settled(map[], keep) && Merged(map[], e1, keep, r);
    }
  }

  /** Importing nothing tells an empty store from one that holds kept entries. */
  lemma ImportOfNothing(q: Config, keep: Keep)
    requires KeptPart(q, keep) != map[]
    ensures !SameImports(map[], q, keep)
  {
    assert Imported([], keep) == map[];
    assert CopyOf(KeptPart(map[], keep), map[]);
    assert map[] + Imported([], keep) == map[];
    assert Mergeable(map[], [], keep) && Merged(map[], [], keep, map[]);
    var k :| k in KeptPart(q, keep);
    forall c | CopyOf(KeptPart(q, keep), c) ensures map[] != c + Imported([], keep) {
      assert Trim(k) in c + Imported([], keep);
    }
    assert !Merged(q, [], keep, map[]);
  }

  // ---------- idempotence ----------

  /** No kept key has two leading slashes. */
  ghost predicate KeepsNoSlash(keep: Keep) {
    forall k | Kept(k, keep) :: Trim(Trim(k)) == Trim(k)
  }

  /** After every import of `e` the same import is possible again, and changes nothing. The kept keys of the
      first store are without a leading slash, or none has two. */
  ghost predicate IdempotentImport(e: seq<KeyValue>, keep: Keep) {
    forall p, r | (Settled(p, keep) || KeepsNoSlash(keep)) && Mergeable(p, e, keep) && Merged(p, e, keep, r) :: Stable(r, e, keep)
  }

  /** Importing `e` is possible and changes nothing. */
  ghost predicate Stable(r: Config, e: seq<KeyValue>, keep: Keep) {
    Mergeable(r, e, keep) && forall q | Merged(r, e, keep, q) :: q == r
  }

  /** A clean import leaves kept entries where the next one would put them. */
  lemma CleanImportSettles(p: Config, e: seq<KeyValue>, keep: Keep, r: Config)
    requires !Smuggles(e, keep) && Merged(p, e, keep, r) && (Settled(p, keep) || KeepsNoSlash(keep))
    ensures Settled(r, keep) && r == KeptPart(r, keep) + Imported(e, keep)
    ensures KeptPart(r, keep).Keys == KeptTargets(p, keep)
  {
    ImportedAreNotKept(e, keep);
    forall k | k in Imported(e, keep) ensures !Kept(k, keep) {
      var kv :| kv in e && Trim(kv.key) == k && !Kept(kv.key, keep);
    }
    var c :| CopyOf(KeptPart(p, keep), c) && r == c + Imported(e, keep);
    forall t | t in c ensures Trim(t) == t && Kept(t, keep) {
      var k :| k in KeptPart(p, keep) && Trim(k) == t;
    }
    assert KeptPart(r, keep) == c;
  }

  /** Importing the same clean config twice changes nothing the second time. */
  lemma Idempotent(p: Config, e: seq<KeyValue>, keep: Keep, r: Config, q: Config)
    requires !Smuggles(e, keep) && (Settled(p, keep) || KeepsNoSlash(keep))
    requires Mergeable(p, e, keep) && Merged(p, e, keep, r)
    ensures Mergeable(r, e, keep)
    ensures Merged(r, e, keep, q) <==> q == r
  {
    CleanImportSettles(p, e, keep, r);
    MergedWhenSettled(r, e, keep, q);
    assert KeptTargets(r, keep) == KeptPart(r, keep).Keys;
  }

  /** A smuggled entry is copied to its place by the next import. */
  lemma SmuggledChangesAgain(e: seq<KeyValue>, keep: Keep, q: Config)
    requires Smuggles(e, keep) && Merged(Imported(e, keep), e, keep, q)
    ensures q != Imported(e, keep)
  {
    var r := Imported(e, keep);
    var kv :| kv in e && !Kept(kv.key, keep) && Kept(Trim(kv.key), keep);
    SurvivorsAreImported(e, keep);
    ImportedAreNotKept(e, keep);
    var t := Trim(Trim(kv.key));
    assert Trim(kv.key) in KeptPart(r, keep) && t in q;
    assert forall key | Trim(key) == t :: Kept(key, keep);
  }

  lemma CleanImportIsStable(p: Config, e: seq<KeyValue>, keep: Keep, r: Config)
    requires !Smuggles(e, keep) && (Settled(p, keep) || KeepsNoSlash(keep))
    requires Mergeable(p, e, keep) && Merged(p, e, keep, r)
    ensures Stable(r, e, keep)
  {
    hide Smuggles, Settled, KeepsNoSlash, Mergeable, Merged;
    Idempotent(p, e, keep, r, r);
    forall q | Merged(r, e, keep, q) ensures q == r {
      Idempotent(p, e, keep, r, q);
    }
  }

  lemma CleanIsIdempotent(e: seq<KeyValue>, keep: Keep)
    requires !Smuggles(e, keep)
    ensures IdempotentImport(e, keep)
  {
    forall p, r | (Settled(p, keep) || KeepsNoSlash(keep)) && Mergeable(p, e, keep) && Merged(p, e, keep, r)
      ensures Stable(r, e, keep)
    {
      hide *;
      CleanImportIsStable(p, e, keep, r);
    }
  }

  lemma SmuggledIsNotIdempotent(e: seq<KeyValue>, keep: Keep)
    requires Smuggles(e, keep) && Mergeable(map[], e, keep)
    ensures !IdempotentImport(e, keep)
  {
    var r := Imported(e, keep);
    MergedWhenSettled(map[], e, keep, r);
    assert KeptPart(map[], keep) + r == r;
    var c := CopyExists(KeptPart(r, keep));
    assert Settled(map[], keep) && Merged(map[], e, keep, r) && Merged(r, e, keep, c + r);
    SmuggledChangesAgain(e, keep, c + r);
  }

  /** Importing is idempotent exactly when the exporter smuggles nothing in, or when its own entries can never
      be stored together. */
  lemma IdempotentIff(e: seq<KeyValue>, keep: Keep)
    ensures IdempotentImport(e, keep) <==> !Smuggles(e, keep) || !Mergeable(map[], e, keep)
  {
    if !Smuggles(e, keep) {
      CleanIsIdempotent(e, keep);
    } else if Mergeable(map[], e, keep) {
      SmuggledIsNotIdempotent(e, keep);
    } else {
      forall p ensures !Mergeable(p, e, keep) {
        MergeableAlone(p, e, keep);
      }
    }
  }

  /** With the fixed patterns no kept key has two leading slashes unless an additional key starts with one. */
  lemma KeepsNoSlashIff(additional: seq<Key>)
    ensures KeepsNoSlash(Keep(KEYS_TO_KEEP, additional)) <==> forall a | a in additional :: Trim(a) == a
  {
    var keep := Keep(KEYS_TO_KEEP, additional);
    forall k ensures Kept(k, keep) <==> FixedName(Trim(k)) || Trim(k) in additional {
      KeptKeys(k, additional);
    }
    forall t | FixedName(t) ensures Trim(t) == t {
      FixedNamesAreApart(t, t);
    }
    if a :| a in additional && Trim(a) != a {
      assert Trim("/" + a) == a && Kept("/" + a, keep);
    }
  }

  // ---------- the importer ----------

  lemma ImportedPrefix(e: seq<KeyValue>, n: nat, keep: Keep)
    requires n < |e|
    ensures Imported(e[..n + 1], keep) ==
            if Kept(e[n].key, keep) then Imported(e[..n], keep)
            else Imported(e[..n], keep)[Trim(e[n].key) := e[n].value]
  {
    assert e[..n + 1][..n] == e[..n];
    SurvivingStep(e[..n + 1], keep);
  }

  lemma {:induction false} ImportedGrows(e: seq<KeyValue>, n: nat, keep: Keep)
    requires n <= |e|
    ensures Imported(e[..n], keep).Keys <= Imported(e, keep).Keys
    decreases |e| - n
  {
    if n == |e| {
      assert e[..n] == e;
    } else {
      ImportedPrefix(e, n, keep);
      ImportedGrows(e, n + 1, keep);
    }
  }

  lemma NextSurvivor(config: seq<KeyValue>, i: nat, keep: Keep)
    requires i < |config| && !Kept(config[i].key, keep)
    ensures Imported(config[..i + 1], keep) == Imported(config[..i], keep)[Trim(config[i].key) := config[i].value]
    ensures Imported(config[..i + 1], keep).Keys <= Imported(config, keep).Keys
  {
    ImportedPrefix(config, i, keep);
    ImportedGrows(config, i + 1, keep);
  }

  /** Adding the next entry: a misfit rules out the whole. */
  lemma RefillStep(base: Config, imported: Config, t: Key, v: string, whole: Config)
    requires AncestorFree((base + imported).Keys)
    requires imported[t := v].Keys <= whole.Keys
    ensures (base + imported)[t := v] == base + imported[t := v]
    ensures if Fits((base + imported).Keys, t) then AncestorFree((base + imported)[t := v].Keys)
            else !AncestorFree(base.Keys + whole.Keys)
  {
    var keys := (base + imported).Keys;
    assert (base + imported)[t := v].Keys == keys + {t};
    NextKey(keys, t, base.Keys + whole.Keys);
  }

  /** None of the calls that an import needs fails: a read and an update, and a creation in between when there
      is no config yet, which a not-found answer to the read does not hurt. */
  ghost predicate CallsSucceed(faults: nat -> Fault, from: nat, stored: Option<Config>) {
    if stored.Some? then faults(from).NoFault? && faults(from + 1).NoFault?
    else (faults(from).NoFault? || faults(from).error == NotFound) && faults(from + 1).NoFault? && faults(from + 2).NoFault?
  }

  lemma MergeableNeedsCopy(previous: Config, e: seq<KeyValue>, keep: Keep)
    ensures Mergeable(previous, e, keep) ==> AncestorFree(KeptTargets(previous, keep))
  {
  }

  /** A copy of the kept entries that the exporter's are written over is a possible new store. */
  lemma WrittenOver(previous: Config, copied: Config, e: seq<KeyValue>, keep: Keep)
    requires CopyOf(KeptPart(previous, keep), copied)
    ensures AncestorFree(copied.Keys + Imported(e, keep).Keys) <==> Mergeable(previous, e, keep)
    ensures Merged(previous, e, keep, copied + Imported(e, keep))
    ensures keep.patterns == KEYS_TO_KEEP ==> ImportedOver(previous, e, keep.additional, copied + Imported(e, keep))
  {
    assert copied.Keys == KeptTargets(previous, keep);
    assert Merged(previous, e, keep, copied + Imported(e, keep));
    if keep.patterns == KEYS_TO_KEEP {
      MergedIsImportedOver(previous, e, keep.additional, copied + Imported(e, keep));
    }
  }

  class GlobalConfigImporter {
    const repo: Repo
    const keep: Keep

    constructor (repo: Repo, additionalKeysToKeep: seq<Key>)
      ensures this.repo == repo && keep == Keep(KEYS_TO_KEEP, additionalKeysToKeep)
    {
      this.repo := repo;
      this.keep := Keep(KEYS_TO_KEEP, additionalKeysToKeep);
    }

    /** Copies the kept entries, in whatever order the map yields them, into an empty config. */
    method AddConfigToKeep(previous: Config) returns (r: Result<Config>)
      ensures r.Ok? <==> AncestorFree(KeptTargets(previous, keep))
      ensures r.Ok? ==> CopyOf(KeptPart(previous, keep), r.value) && AncestorFree(r.value.Keys)
    {
      var gc: Config := map[];
      var remaining := previous.Keys;
      ghost var kept := KeptPart(previous, keep);
      while remaining != {}
        invariant remaining <= previous.Keys
        invariant CopyOf(Restrict(kept, previous.Keys - remaining), gc)
        invariant gc.Keys <= KeptTargets(previous, keep)
        invariant AncestorFree(gc.Keys)
        decreases remaining
      {
        var key :| key in remaining;
        ghost var done := previous.Keys - remaining;
        remaining := remaining - {key};
        assert previous.Keys - remaining == done + {key};
        RestrictMore(kept, done, key);
        if Kept(key, keep) {
          NextKey(gc.Keys, Trim(key), KeptTargets(previous, keep));
          var set' := Set(gc, key, previous[key]);
          if set'.Err? {
            return Err(set'.error);
          }
          CopyStep(Restrict(kept, done), key, previous[key], gc);
          gc := set'.value;
        }
      }
      assert Restrict(kept, previous.Keys) == kept;
      assert gc.Keys == KeptTargets(previous, keep);
      r := Ok(gc);
    }

    /** Adds the exporter's entries that are not kept to `base`. */
    method Refill(base: Config, config: seq<KeyValue>) returns (r: Result<Config>)
      requires AncestorFree(base.Keys)
      ensures r.Ok? <==> AncestorFree(base.Keys + Imported(config, keep).Keys)
      ensures r.Ok? ==> r.value == base + Imported(config, keep)
    {
      var gc := base;
      for i := 0 to |config|
        invariant gc == base + Imported(config[..i], keep)
        invariant AncestorFree(gc.Keys)
      {
        var kv := config[i];
        if Kept(kv.key, keep) {
          ImportedPrefix(config, i, keep);
          continue;
        }
        NextSurvivor(config, i, keep);
        RefillStep(base, Imported(config[..i], keep), Trim(kv.key), kv.value, Imported(config, keep));
        var set' := Set(gc, kv.key, kv.value);
        if set'.Err? {
          return Err(set'.error);
        }
        gc := set'.value;
      }
      assert config[..|config|] == config;
      r := Ok(gc);
    }

    /** Either nothing is saved (a missing config may have been created empty), or a complete merge is. */
    method ImportGlobalConfig(config: seq<KeyValue>) returns (err: Option<ApiError>)
      modifies repo`stored, repo.net
      ensures var previous := if old(repo.stored).Some? then old(repo.stored).value else map[];
              var saved := repo.stored.Some? && Mergeable(previous, config, keep)
                           && Merged(previous, config, keep, repo.stored.value);
              && (repo.stored == old(repo.stored) || (old(repo.stored).None? && repo.stored == Some(map[])) || saved)
              && (err.None? ==> saved)
              && (err.None? <==> CallsSucceed(repo.net.faults, old(repo.net.calls), old(repo.stored)) && Mergeable(previous, config, keep))
      ensures old(repo.net.calls) <= repo.net.calls
      ensures err.None? && keep.patterns == KEYS_TO_KEEP ==>
                repo.stored.Some? && ImportedOver(if old(repo.stored).Some? then old(repo.stored).value else map[], config, keep.additional, repo.stored.value)
    {
      hide Mergeable, Merged, ImportedOver, CopyOf, Imported, KeptTargets, KeptPart, AncestorFree;
      var found := repo.Get();
      if found.Err? {
        if found.error != NotFound {
          return Some(found.error);
        }
        found := repo.Create(map[]);
        if found.Err? {
          return Some(found.error);
        }
      }
      var previous := found.value;
      MergeableNeedsCopy(previous, config, keep);
      var copied := AddConfigToKeep(previous);
      if copied.Err? {
        return Some(copied.error);
      }
      WrittenOver(previous, copied.value, config, keep);
      var merged := Refill(copied.value, config);
      if merged.Err? {
        return Some(merged.error);
      }
      var saved := repo.Update(merged.value);
      err := if saved.Err? then Some(saved.error) else None;
    }
  }
}
