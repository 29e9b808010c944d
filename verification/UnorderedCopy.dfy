/** Copying the entries of a Go map into a config: the map yields its entries in any order, and two keys
    that differ by a leading slash land on the same place. */
module UnorderedCopy {
  import opened Kubernetes
  import opened ConfigTree

  /** Where the entries land. */
  function Targets(entries: Config): set<Key> {
    set k | k in entries :: Trim(k)
  }

  /** `c` holds the entries, each under its trimmed key. */
  ghost predicate CopyOf(kept: Config, c: Config) {
    && c.Keys == Targets(kept)
    && forall t | t in c :: exists k | k in kept :: Trim(k) == t && kept[k] == c[t]
  }

  /** No two keys with different values differ only by a leading slash. */
  predicate Unambiguous(kept: Config) {
    forall a, b | a in kept && b in kept && Trim(a) == Trim(b) :: kept[a] == kept[b]
  }

  ghost function Source(kept: Config, t: Key): (k: Key)
    requires exists k | k in kept :: Trim(k) == t
    ensures k in kept && Trim(k) == t
  {
    var k :| k in kept && Trim(k) == t; k
  }

  /** A copy that prefers `k` where keys collide. */
  lemma CopyPreferring(kept: Config, k: Key) returns (c: Config)
    requires k in kept
    ensures CopyOf(kept, c) && Trim(k) in c && c[Trim(k)] == kept[k]
  {
    var targets := set a | a in kept :: Trim(a);
    c := map t | t in targets :: if t == Trim(k) then kept[k] else kept[Source(kept, t)];
  }

  lemma CopyExists(entries: Config) returns (c: Config)
    ensures CopyOf(entries, c)
  {
    var targets := set a | a in entries :: Trim(a);
    c := map t | t in targets :: entries[Source(entries, t)];
  }

  lemma CopyIsUnique(kept: Config, c: Config, d: Config)
    requires Unambiguous(kept) && CopyOf(kept, c) && CopyOf(kept, d)
    ensures c == d
  {
    assert c.Keys == d.Keys;
    forall t | t in c ensures c[t] == d[t] {
      var a :| a in kept && Trim(a) == t && kept[a] == c[t];
      var b :| b in kept && Trim(b) == t && kept[b] == d[t];
    }
  }

  function Restrict(c: Config, keys: set<Key>): Config {
    map k | k in c && k in keys :: c[k]
  }

  lemma CopyStep(kept: Config, k: Key, v: string, c: Config)
    requires k !in kept && CopyOf(kept, c)
    ensures CopyOf(kept[k := v], c[Trim(k) := v])
  {
    var kept', c' := kept[k := v], c[Trim(k) := v];
    forall t | t in c' ensures exists a | a in kept' :: Trim(a) == t && kept'[a] == c'[t] {
      if t == Trim(k) {
        assert k in kept';
      } else {
        var a :| a in kept && Trim(a) == t && kept[a] == c[t];
        assert a in kept';
      }
    }
  }

  lemma RestrictMore(c: Config, keys: set<Key>, k: Key)
    ensures Restrict(c, keys + {k}) == if k in c then Restrict(c, keys)[k := c[k]] else Restrict(c, keys)
  {
  }

  /** The order in which the entries are copied does not show. */
  ghost predicate OneCopy(entries: Config) {
    forall c, d | CopyOf(entries, c) && CopyOf(entries, d) :: c == d
  }

  lemma OneCopyIff(kept: Config)
    ensures OneCopy(kept) <==> Unambiguous(kept)
  {
    if Unambiguous(kept) {
      forall c, d | CopyOf(kept, c) && CopyOf(kept, d) ensures c == d {
        CopyIsUnique(kept, c, d);
      }
    } else {
      var a, b :| a in kept && b in kept && Trim(a) == Trim(b) && kept[a] != kept[b];
      var c := CopyPreferring(kept, a);
      var d := CopyPreferring(kept, b);
      assert c[Trim(a)] != d[Trim(a)];
    }
  }

  /** Sets all entries, in whatever order the map yields them, in an empty config. */
  method SetAll(entries: Config) returns (r: Result<Config>)
    ensures r.Ok? <==> AncestorFree(Targets(entries))
    ensures r.Ok? ==> CopyOf(entries, r.value)
  {
    var c: Config := map[];
    var remaining := entries.Keys;
    while remaining != {}
      invariant remaining <= entries.Keys
      invariant CopyOf(Restrict(entries, entries.Keys - remaining), c)
      invariant c.Keys <= Targets(entries)
      invariant AncestorFree(c.Keys)
      decreases remaining
    {
      var key :| key in remaining;
      ghost var done := entries.Keys - remaining;
      remaining := remaining - {key};
      NextKey(c.Keys, Trim(key), Targets(entries));
      var set' := Set(c, key, entries[key]);
      if set'.Err? {
        return Err(set'.error);
      }
      assert Restrict(entries, entries.Keys - remaining) == Restrict(entries, done)[key := entries[key]];
      CopyStep(Restrict(entries, done), key, entries[key], c);
      c := set'.value;
    }
    assert Restrict(entries, entries.Keys) == entries;
    r := Ok(c);
  }
}
