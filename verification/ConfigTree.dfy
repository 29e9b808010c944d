/** The hierarchical key store of the registry library: keys are paths, and a path that carries a
    value can be neither an ancestor nor a descendant of another one.

    The library itself is not part of this model; what is assumed of it is that `Set` returns a new
    store, strips one leading slash and rejects ancestors and descendants of present keys, and that
    `Get` strips one leading slash too. */
module ConfigTree {
  import opened Kubernetes

  type Key = string
  type Config = map<Key, string>

  /** Go's strings.TrimPrefix(k, "/"): at most one slash goes. */
  function Trim(k: Key): Key {
    if |k| > 0 && k[0] == '/' then k[1..] else k
  }

  /** `k` is the key `t`, possibly with a slash in front. */
  predicate SpellingOf(k: Key, t: Key) {
    k == "/" + t || (k == t && (t == "" || t[0] != '/'))
  }

  lemma SpellingIff(k: Key, t: Key)
    ensures SpellingOf(k, t) <==> Trim(k) == t
  {
    if k != "" {
      assert k == [k[0]] + k[1..];
    }
  }

  predicate Under(k: Key, parent: Key) {
    |parent| < |k| && k[..|parent|] == parent && k[|parent|] == '/'
  }

  ghost predicate AncestorFree(keys: set<Key>) {
    forall a, b | a in keys && b in keys :: !Under(a, b)
  }

  /** `t` could be stored beside `keys`. */
  ghost predicate Fits(keys: set<Key>, t: Key) {
    forall x | x in keys :: !Under(x, t) && !Under(t, x)
  }

  function Get(c: Config, k: Key): Option<string> {
    if Trim(k) in c then Some(c[Trim(k)]) else None
  }

  function Set(c: Config, k: Key, v: string): (r: Result<Config>)
    ensures r.Ok? <==> Fits(c.Keys, Trim(k))
    ensures r.Ok? ==> r.value == c[Trim(k) := v]
  {
    if forall x | x in c.Keys :: !Under(x, Trim(k)) && !Under(Trim(k), x) then Ok(c[Trim(k) := v]) else Err(Other)
  }

  /** The last value per trimmed key, written over `c`. */
  function Overlay(c: Config, kvs: seq<KeyValue>): Config {
    if kvs == [] then c
    else Overlay(c, kvs[..|kvs| - 1])[Trim(kvs[|kvs| - 1].key) := kvs[|kvs| - 1].value]
  }

  lemma {:induction false} OverlayKeys(c: Config, kvs: seq<KeyValue>)
    ensures Overlay(c, kvs).Keys == c.Keys + set kv | kv in kvs :: Trim(kv.key)
  {
    if kvs != [] {
      var front, last := kvs[..|kvs| - 1], kvs[|kvs| - 1];
      OverlayKeys(c, front);
      assert kvs == front + [last];
    }
  }

  /** Adding one key to an ancestor-free set keeps it ancestor-free exactly when the key fits. */
  lemma AncestorFreeExtend(keys: set<Key>, t: Key)
    requires AncestorFree(keys)
    ensures AncestorFree(keys + {t}) <==> Fits(keys, t)
  {
    if Fits(keys, t) {
      forall a, b | a in keys + {t} && b in keys + {t} ensures !Under(a, b) { }
    } else {
      var x :| x in keys && (Under(x, t) || Under(t, x));
      assert x in keys + {t} && t in keys + {t};
    }
  }

  /** A part of an ancestor-free set is ancestor-free. */
  lemma AncestorFreeSubset(keys: set<Key>, part: set<Key>)
    requires AncestorFree(keys) && part <= keys
    ensures AncestorFree(part)
  {
  }

  /** One step of filling a store that shall end up with the keys `all`: a key that does not fit rules
      out the whole. */
  lemma NextKey(keys: set<Key>, t: Key, all: set<Key>)
    requires AncestorFree(keys) && keys + {t} <= all
    ensures if Fits(keys, t) then AncestorFree(keys + {t}) else !AncestorFree(all)
  {
    AncestorFreeExtend(keys, t);
    if AncestorFree(all) {
      AncestorFreeSubset(all, keys + {t});
    }
  }
}
