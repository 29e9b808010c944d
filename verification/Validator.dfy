/** Comparison of the exporting with the importing system. */
module Validator {
  import opened Kubernetes

  datatype Dogu = Dogu(name: string, version: string)
  datatype Component = Component(name: string, version: string)
  datatype SystemInfo = SystemInfo(dogus: seq<Dogu>, components: seq<Component>)

  const NGINX := "official/nginx"

  datatype Discrepancy =
    | DoguMissing(name: string) | DoguVersion(name: string) | DoguUnknown(name: string)
    | ComponentMissing(name: string) | ComponentVersion(name: string)

  function SimpleNames(names: seq<string>, simple: string -> string): set<string> {
    set n | n in names :: simple(n)
  }

  function DoguNames(ds: seq<Dogu>, simple: string -> string): set<string> {
    set d | d in ds :: simple(d.name)
  }

  /** The last entry per name. */
  function LastByName(ds: seq<Dogu>, simple: string -> string): map<string, Dogu> {
    if ds == [] then map[]
    else LastByName(ds[..|ds| - 1], simple)[simple(ds[|ds| - 1].name) := ds[|ds| - 1]]
  }

  lemma {:induction false} LastByNameKeys(ds: seq<Dogu>, simple: string -> string)
    ensures LastByName(ds, simple).Keys == DoguNames(ds, simple)
  {
    if ds != [] {
      LastByNameKeys(ds[..|ds| - 1], simple);
      assert ds == ds[..|ds| - 1] + [ds[|ds| - 1]];
    }
  }

  function LastComponent(cs: seq<Component>, name: string): Option<Component> {
    if cs == [] then None
    else if cs[|cs| - 1].name == name then Some(cs[|cs| - 1])
    else LastComponent(cs[..|cs| - 1], name)
  }

  // ---------- what a valid pair of systems is ----------

  /** The entry takes part in the comparison. */
  predicate Checked(d: Dogu, simple: string -> string, excluded: set<string>) {
    simple(d.name) !in excluded && d.name != NGINX
  }

  function CheckedNames(ex: seq<Dogu>, simple: string -> string, excluded: set<string>): set<string> {
    set d | d in ex && Checked(d, simple, excluded) :: simple(d.name)
  }

  /** No two checked entries have the same simple name. */
  ghost predicate DistinctNames(ex: seq<Dogu>, simple: string -> string, excluded: set<string>) {
    forall i, j | 0 <= i < j < |ex| && Checked(ex[i], simple, excluded) && Checked(ex[j], simple, excluded) ::
      simple(ex[i].name) != simple(ex[j].name)
  }

  /** Every checked entry is installed in its version. */
  ghost predicate VersionsMatch(ex: seq<Dogu>, installed: map<string, Dogu>, simple: string -> string, excluded: set<string>) {
    forall d | d in ex && Checked(d, simple, excluded) ::
      simple(d.name) in installed && installed[simple(d.name)].version == d.version
  }

  ghost predicate DogusMatch(ex: seq<Dogu>, im: seq<Dogu>, simple: string -> string, excluded: set<string>) {
    && DistinctNames(ex, simple, excluded)
    && CheckedNames(ex, simple, excluded) == DoguNames(im, simple) - excluded
    && VersionsMatch(ex, LastByName(im, simple), simple, excluded)
  }

  ghost predicate ComponentsMatch(ex: seq<Component>, im: seq<Component>) {
    forall c | c in ex :: c.name != "" && LastComponent(im, c.name).Some? && LastComponent(im, c.name).value.version == c.version
  }

  // ---------- the way the loop sees it ----------

  /** The first entries are all fine: each one finds its name, not used up yet, in the right version. */
  ghost predicate AllFound(ex: seq<Dogu>, installed: map<string, Dogu>, simple: string -> string, excluded: set<string>) {
    ex == [] ||
    var front, d := ex[..|ex| - 1], ex[|ex| - 1];
    && AllFound(front, installed, simple, excluded)
    && (Checked(d, simple, excluded) ==>
          && simple(d.name) !in CheckedNames(front, simple, excluded)
          && simple(d.name) in installed && installed[simple(d.name)].version == d.version)
  }

  lemma CheckedNamesStep(ex: seq<Dogu>, simple: string -> string, excluded: set<string>)
    requires ex != []
    ensures var front, d := ex[..|ex| - 1], ex[|ex| - 1];
            CheckedNames(ex, simple, excluded) ==
            CheckedNames(front, simple, excluded) + if Checked(d, simple, excluded) then {simple(d.name)} else {}
  {
    assert ex == ex[..|ex| - 1] + [ex[|ex| - 1]];
  }

  lemma DistinctStep(ex: seq<Dogu>, simple: string -> string, excluded: set<string>)
    requires ex != []
    ensures var front, d := ex[..|ex| - 1], ex[|ex| - 1];
            DistinctNames(ex, simple, excluded) <==>
            && DistinctNames(front, simple, excluded)
            && (Checked(d, simple, excluded) ==> simple(d.name) !in CheckedNames(front, simple, excluded))
  {
    var n := |ex| - 1;
    var front, d := ex[..n], ex[n];
    if DistinctNames(ex, simple, excluded) && Checked(d, simple, excluded) {
      forall x | x in front && Checked(x, simple, excluded) ensures simple(x.name) != simple(d.name) {
        var i :| 0 <= i < n && front[i] == x;
        assert ex[i] == x;
      }
    }
    if DistinctNames(front, simple, excluded) && (Checked(d, simple, excluded) ==> simple(d.name) !in CheckedNames(front, simple, excluded)) {
      forall i, j | 0 <= i < j < |ex| && Checked(ex[i], simple, excluded) && Checked(ex[j], simple, excluded)
        ensures simple(ex[i].name) != simple(ex[j].name)
      {
        assert ex[i] == front[i] && ex[i] in front;
        if j < n { assert ex[j] == front[j]; }
      }
    }
  }

  lemma {:induction false} AllFoundIff(ex: seq<Dogu>, installed: map<string, Dogu>, simple: string -> string, excluded: set<string>)
    ensures AllFound(ex, installed, simple, excluded)
            <==> DistinctNames(ex, simple, excluded) && VersionsMatch(ex, installed, simple, excluded)
  {
    if ex != [] {
      AllFoundIff(ex[..|ex| - 1], installed, simple, excluded);
      DistinctStep(ex, simple, excluded);
      assert ex == ex[..|ex| - 1] + [ex[|ex| - 1]];
    }
  }

  /** What the loops check is the match of the two systems. */
  lemma LoopsDecideMatch(ex: seq<Dogu>, im: seq<Dogu>, simple: string -> string, excluded: set<string>)
    ensures var installed := LastByName(im, simple);
            AllFound(ex, installed, simple, excluded) && installed.Keys - CheckedNames(ex, simple, excluded) - excluded == {}
            <==> DogusMatch(ex, im, simple, excluded)
  {
    var installed := LastByName(im, simple);
    AllFoundIff(ex, installed, simple, excluded);
    LastByNameKeys(im, simple);
    var names := CheckedNames(ex, simple, excluded);
    assert names !! excluded;
    if AllFound(ex, installed, simple, excluded) {
      assert names <= installed.Keys;
      if installed.Keys - names - excluded == {} {
        assert forall n | n in installed.Keys - excluded :: n in names || n in installed.Keys - names - excluded;
        assert names == installed.Keys - excluded;
      }
    }
  }

  // ---------- the same, entry by entry ----------

  /** Excluded by its simple name. */
  predicate LeftOut(excludedDogus: seq<string>, simple: string -> string, name: string) {
    exists i :: 0 <= i < |excludedDogus| && simple(excludedDogus[i]) == simple(name)
  }

  predicate TakesPart(ex: seq<Dogu>, excludedDogus: seq<string>, simple: string -> string, i: int) {
    0 <= i < |ex| && ex[i].name != "official/nginx" && !LeftOut(excludedDogus, simple, ex[i].name)
  }

  /** Entry `k` is the importer's last one of its simple name. */
  predicate IsLast(im: seq<Dogu>, simple: string -> string, k: int) {
    0 <= k < |im| && forall j | k < j < |im| :: simple(im[j].name) != simple(im[k].name)
  }

  predicate IsLastComponent(im: seq<Component>, k: int) {
    0 <= k < |im| && forall j | k < j < |im| :: im[j].name != im[k].name
  }

  /** The exporter's dogus that take part have distinct simple names; the importer's last dogu of each of these
      names has the same version; and the importer has no other dogu that is not excluded. */
  ghost predicate SameDogus(ex: seq<Dogu>, im: seq<Dogu>, excludedDogus: seq<string>, simple: string -> string) {
    && (forall i, j | TakesPart(ex, excludedDogus, simple, i) && TakesPart(ex, excludedDogus, simple, j) && i != j ::
          simple(ex[i].name) != simple(ex[j].name))
    && (forall i | TakesPart(ex, excludedDogus, simple, i) ::
          exists k :: IsLast(im, simple, k) && simple(im[k].name) == simple(ex[i].name) && im[k].version == ex[i].version)
    && (forall k | 0 <= k < |im| && !LeftOut(excludedDogus, simple, im[k].name) ::
          exists i :: TakesPart(ex, excludedDogus, simple, i) && simple(ex[i].name) == simple(im[k].name))
  }

  /** Every component of the exporter has a name, and the importer's last component of that name its version. */
  ghost predicate SameComponents(ex: seq<Component>, im: seq<Component>) {
    forall i | 0 <= i < |ex| :: HasPartner(ex[i], im)
  }

  ghost predicate HasPartner(c: Component, im: seq<Component>) {
    c.name != "" && exists k :: IsLastComponent(im, k) && im[k].name == c.name && im[k].version == c.version
  }

  lemma {:induction false} LastByNameIs(ds: seq<Dogu>, simple: string -> string, n: string) returns (k: int)
    requires n in LastByName(ds, simple)
    ensures IsLast(ds, simple, k) && simple(ds[k].name) == n && LastByName(ds, simple)[n] == ds[k]
  {
    var last := |ds| - 1;
    if simple(ds[last].name) == n {
      k := last;
    } else {
      k := LastByNameIs(ds[..last], simple, n);
      assert forall j | 0 <= j < last :: ds[..last][j] == ds[j];
    }
  }

  lemma {:induction false} LastComponentIs(cs: seq<Component>, n: string) returns (k: int)
    ensures LastComponent(cs, n).Some? ==> IsLastComponent(cs, k) && cs[k].name == n && LastComponent(cs, n).value == cs[k]
    ensures LastComponent(cs, n).None? ==> forall j | 0 <= j < |cs| :: cs[j].name != n
  {
    k := 0;
    if cs != [] {
      var last := |cs| - 1;
      if cs[last].name == n {
        k := last;
      } else {
        k := LastComponentIs(cs[..last], n);
        assert forall j | 0 <= j < last :: cs[..last][j] == cs[j];
      }
    }
  }

  lemma ComponentsMatchIff(ex: seq<Component>, im: seq<Component>)
    ensures ComponentsMatch(ex, im) <==> SameComponents(ex, im)
  {
    forall c: Component ensures HasPartner(c, im) <==>
              c.name != "" && LastComponent(im, c.name).Some? && LastComponent(im, c.name).value.version == c.version {
      var m := LastComponentIs(im, c.name);
    }
    if ComponentsMatch(ex, im) {
      forall i | 0 <= i < |ex| ensures HasPartner(ex[i], im) {
        assert ex[i] in ex;
      }
    }
    if SameComponents(ex, im) {
      forall c | c in ex ensures HasPartner(c, im) {
        var i :| 0 <= i < |ex| && ex[i] == c;
      }
    }
  }

  lemma ExcludedIff(excludedDogus: seq<string>, simple: string -> string, name: string)
    ensures LeftOut(excludedDogus, simple, name) <==> simple(name) in SimpleNames(excludedDogus, simple)
  {
    if simple(name) in SimpleNames(excludedDogus, simple) {
      var n :| n in excludedDogus && simple(n) == simple(name);
      var i :| 0 <= i < |excludedDogus| && excludedDogus[i] == n;
    }
  }

  lemma TakesPartIff(ex: seq<Dogu>, excludedDogus: seq<string>, simple: string -> string, i: int)
    requires 0 <= i < |ex|
    ensures TakesPart(ex, excludedDogus, simple, i) <==> Checked(ex[i], simple, SimpleNames(excludedDogus, simple))
  {
    ExcludedIff(excludedDogus, simple, ex[i].name);
  }

  /** Some checked entry has the name. */
  lemma CheckedNameIff(ex: seq<Dogu>, excludedDogus: seq<string>, simple: string -> string, s: string)
    ensures s in CheckedNames(ex, simple, SimpleNames(excludedDogus, simple))
            <==> exists i :: TakesPart(ex, excludedDogus, simple, i) && simple(ex[i].name) == s
  {
    var excluded := SimpleNames(excludedDogus, simple);
    if s in CheckedNames(ex, simple, excluded) {
      var d :| d in ex && Checked(d, simple, excluded) && simple(d.name) == s;
      var i :| 0 <= i < |ex| && ex[i] == d;
      TakesPartIff(ex, excludedDogus, simple, i);
    }
    if i :| TakesPart(ex, excludedDogus, simple, i) && simple(ex[i].name) == s {
      TakesPartIff(ex, excludedDogus, simple, i);
      assert ex[i] in ex;
    }
  }

  lemma DogusMatchIff(ex: seq<Dogu>, im: seq<Dogu>, excludedDogus: seq<string>, simple: string -> string)
    ensures DogusMatch(ex, im, simple, SimpleNames(excludedDogus, simple)) <==> SameDogus(ex, im, excludedDogus, simple)
  {
    var excluded, installed := SimpleNames(excludedDogus, simple), LastByName(im, simple);
    forall i | 0 <= i < |ex| ensures TakesPart(ex, excludedDogus, simple, i) <==> Checked(ex[i], simple, excluded) {
      TakesPartIff(ex, excludedDogus, simple, i);
    }
    VersionsMatchIff(ex, im, excludedDogus, simple);
    NamesMatchIff(ex, im, excludedDogus, simple);
    LastByNameKeys(im, simple);
    hide Checked, TakesPart, LeftOut, IsLast, VersionsMatch, CheckedNames;
  }

  lemma VersionsMatchIff(ex: seq<Dogu>, im: seq<Dogu>, excludedDogus: seq<string>, simple: string -> string)
    ensures VersionsMatch(ex, LastByName(im, simple), simple, SimpleNames(excludedDogus, simple)) <==>
            forall i | TakesPart(ex, excludedDogus, simple, i) ::
              exists k :: IsLast(im, simple, k) && simple(im[k].name) == simple(ex[i].name) && im[k].version == ex[i].version
  {
    var excluded, installed := SimpleNames(excludedDogus, simple), LastByName(im, simple);
    LastByNameKeys(im, simple);
    forall k | IsLast(im, simple, k) ensures simple(im[k].name) in installed && installed[simple(im[k].name)] == im[k] {
      assert im[k] in im;
      var m := LastByNameIs(im, simple, simple(im[k].name));
    }
    forall i | 0 <= i < |ex| ensures TakesPart(ex, excludedDogus, simple, i) <==> Checked(ex[i], simple, excluded) {
      TakesPartIff(ex, excludedDogus, simple, i);
    }
    if VersionsMatch(ex, installed, simple, excluded) {
      forall i | TakesPart(ex, excludedDogus, simple, i)
        ensures exists k :: IsLast(im, simple, k) && simple(im[k].name) == simple(ex[i].name) && im[k].version == ex[i].version
      {
        assert ex[i] in ex;
        var k := LastByNameIs(im, simple, simple(ex[i].name));
      }
    } else {
      var d :| d in ex && Checked(d, simple, excluded) && !(simple(d.name) in installed && installed[simple(d.name)].version == d.version);
      var i :| 0 <= i < |ex| && ex[i] == d;
      assert TakesPart(ex, excludedDogus, simple, i);
    }
  }

  lemma NamesMatchIff(ex: seq<Dogu>, im: seq<Dogu>, excludedDogus: seq<string>, simple: string -> string)
    ensures DoguNames(im, simple) - SimpleNames(excludedDogus, simple)
              <= CheckedNames(ex, simple, SimpleNames(excludedDogus, simple))
            <==> forall k | 0 <= k < |im| && !LeftOut(excludedDogus, simple, im[k].name) ::
                   exists i :: TakesPart(ex, excludedDogus, simple, i) && simple(ex[i].name) == simple(im[k].name)
  {
    var excluded := SimpleNames(excludedDogus, simple);
    forall k | 0 <= k < |im| ensures im[k] in im && (LeftOut(excludedDogus, simple, im[k].name) <==> simple(im[k].name) in excluded) {
      ExcludedIff(excludedDogus, simple, im[k].name);
    }
    forall s ensures s in CheckedNames(ex, simple, excluded) <==> exists i :: TakesPart(ex, excludedDogus, simple, i) && simple(ex[i].name) == s {
      CheckedNameIff(ex, excludedDogus, simple, s);
    }
    hide LeftOut, TakesPart, CheckedNames;
    if DoguNames(im, simple) - excluded <= CheckedNames(ex, simple, excluded) {
      forall k | 0 <= k < |im| && !LeftOut(excludedDogus, simple, im[k].name)
        ensures exists i :: TakesPart(ex, excludedDogus, simple, i) && simple(ex[i].name) == simple(im[k].name)
      {
        assert simple(im[k].name) in DoguNames(im, simple) - excluded;
      }
    }
    if forall k | 0 <= k < |im| && !LeftOut(excludedDogus, simple, im[k].name) ::
         exists i :: TakesPart(ex, excludedDogus, simple, i) && simple(ex[i].name) == simple(im[k].name) {
      forall s | s in DoguNames(im, simple) && s !in excluded ensures s in CheckedNames(ex, simple, excluded) {
        var d :| d in im && simple(d.name) == s;
        var k :| 0 <= k < |im| && im[k] == d;
      }
    }
  }

  // ---------- the validator ----------

  class Validator {
    const excludedDogus: seq<string>
    /** QualifiedNameFromString: the simple name of a qualified one. Not part of this model. */
    const parse: string -> Option<string>

    constructor (excludedDogus: seq<string>, parse: string -> Option<string>)
      ensures this.excludedDogus == excludedDogus && this.parse == parse
    {
      this.excludedDogus, this.parse := excludedDogus, parse;
    }

    /** The simple name, or the name itself when it is not qualified. */
    function Simple(name: string): string {
      if parse(name).Some? then parse(name).value else name
    }

    function ExcludedNames(): set<string> {
      SimpleNames(excludedDogus, Simple)
    }

    method ValidateDogus(im: seq<Dogu>, ex: seq<Dogu>) returns (result: seq<Discrepancy>)
      ensures result == [] <==> DogusMatch(ex, im, Simple, ExcludedNames())
    {
      var imDoguMap: map<string, Dogu> := map[];
      for i := 0 to |im|
        invariant imDoguMap == LastByName(im[..i], Simple)
      {
        assert im[..i + 1][..i] == im[..i];
        imDoguMap := imDoguMap[Simple(im[i].name) := im[i]];
      }
      assert im[..|im|] == im;
      ghost var installed := imDoguMap;
      var excluded := ExcludedNames();
      result := [];
      for i := 0 to |ex|
        invariant imDoguMap == installed - CheckedNames(ex[..i], Simple, excluded)
        invariant result == [] <==> AllFound(ex[..i], installed, Simple, excluded)
      {
        assert ex[..i + 1][..i] == ex[..i];
        CheckedNamesStep(ex[..i + 1], Simple, excluded);
        var exDogu := ex[i];
        var doguName := Simple(exDogu.name);
        if doguName in excluded || exDogu.name == NGINX {
          continue;
        }
        if doguName !in imDoguMap {
          result := result + [DoguMissing(exDogu.name)];
        } else {
          if imDoguMap[doguName].version != exDogu.version {
            result := result + [DoguVersion(exDogu.name)];
          }
          imDoguMap := imDoguMap - {doguName};
        }
      }
      assert ex[..|ex|] == ex;
      var unknown := (imDoguMap - excluded).Keys;
      ghost var found := result;
      ghost var all := unknown;
      while unknown != {}
        invariant unknown <= all
        invariant result == [] <==> found == [] && unknown == all
        decreases unknown
      {
        var name :| name in unknown;
        unknown := unknown - {name};
        result := result + [DoguUnknown(name)];
      }
      LoopsDecideMatch(ex, im, Simple, excluded);
      assert all == installed.Keys - CheckedNames(ex, Simple, excluded) - excluded;
    }

    method ValidateComponents(im: seq<Component>, ex: seq<Component>) returns (result: seq<Discrepancy>)
      ensures result == [] <==> ComponentsMatch(ex, im)
    {
      var imComponentsMap: map<string, Component> := map[];
      for i := 0 to |im|
        invariant forall n :: (if n in imComponentsMap then Some(imComponentsMap[n]) else None) == LastComponent(im[..i], n)
        invariant forall n | n in imComponentsMap :: imComponentsMap[n].name == n
      {
        assert im[..i + 1][..i] == im[..i];
        imComponentsMap := imComponentsMap[im[i].name := im[i]];
      }
      assert im[..|im|] == im;
      result := [];
      for i := 0 to |ex|
        invariant result == [] <==> ComponentsMatch(ex[..i], im)
      {
        assert ex[..i + 1] == ex[..i] + [ex[i]];
        var c := ex[i];
        assert LastComponent(im, c.name) == if c.name in imComponentsMap then Some(imComponentsMap[c.name]) else None;
        var imComponent := if c.name in imComponentsMap then imComponentsMap[c.name] else Component("", "");
        if imComponent.name == "" {
          result := result + [ComponentMissing(c.name)];
        } else if imComponent.version != c.version {
          result := result + [ComponentVersion(c.name)];
        }
      }
      assert ex[..|ex|] == ex;
    }

    /** Both systems match exactly when nothing is reported. */
    method Validate(exporterInfo: SystemInfo, importerInfo: SystemInfo) returns (result: seq<Discrepancy>)
      ensures result == [] <==>
              && DogusMatch(exporterInfo.dogus, importerInfo.dogus, Simple, ExcludedNames())
              && ComponentsMatch(exporterInfo.components, importerInfo.components)
      ensures result == [] <==>
              && SameDogus(exporterInfo.dogus, importerInfo.dogus, excludedDogus, Simple)
              && SameComponents(exporterInfo.components, importerInfo.components)
    {
      DogusMatchIff(exporterInfo.dogus, importerInfo.dogus, excludedDogus, Simple);
      ComponentsMatchIff(exporterInfo.components, importerInfo.components);
      var dogus := ValidateDogus(importerInfo.dogus, exporterInfo.dogus);
      var components := ValidateComponents(importerInfo.components, exporterInfo.components);
      result := dogus + components;
    }
  }
}
