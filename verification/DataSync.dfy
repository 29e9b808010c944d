/** The rsync driver: for every exporter dogu, make it the export dogu, then copy its subdirectories. */
module DataSync {
  import opened DoguLists
  import opened Kubernetes

  const SUB_DIRS_TO_IGNORE: seq<string> := ["lost+found", "_private"]

  datatype Entry = Entry(name: string, isDir: bool)

  /** Reading the destination directory. */
  datatype Listing = Listed(entries: seq<Entry>) | Missing | Unreadable

  datatype Export = Export(volumePath: string, port: int)

  /** What the outside answers, per position in the exporter's dogu list (and per subdirectory). */
  datatype Answers = Answers(
    parse: string -> Option<string>,
    setExport: nat -> Option<Export>,
    listing: nat -> Listing,
    rsyncOk: nat -> string -> bool
  )

  /** SetExport(d, ok): the exporter was asked to export d. Rsync: one copy, with its arguments. */
  datatype Event =
    | SetExport(dogu: string, ok: bool)
    | Rsync(dogu: string, subDir: string, source: Export, patterns: seq<string>, checksum: bool, ok: bool)

  // ---------- the pieces ----------

  /** The directories that are not to be ignored, in order. */
  function SubDirs(entries: seq<Entry>, ignored: seq<string>): seq<string> {
    if entries == [] then []
    else
      var last := entries[|entries| - 1];
      SubDirs(entries[..|entries| - 1], ignored) + if last.isDir && last.name !in ignored then [last.name] else []
  }

  /** None is an error; a missing directory has no subdirectories. */
  function DirsOf(l: Listing, ignored: seq<string>): Option<seq<string>> {
    match l
    case Listed(entries) => Some(SubDirs(entries, ignored))
    case Missing => Some([])
    case Unreadable => None
  }

  method GetSubDirs(l: Listing, ignored: seq<string>) returns (r: Option<seq<string>>)
    ensures r == DirsOf(l, ignored)
  {
    if l.Missing? {
      return Some([]);
    }
    if l.Unreadable? {
      return None;
    }
    var result: seq<string> := [];
    for i := 0 to |l.entries|
      invariant result == SubDirs(l.entries[..i], ignored)
    {
      assert l.entries[..i + 1][..i] == l.entries[..i];
      if l.entries[i].isDir && l.entries[i].name !in ignored {
        result := result + [l.entries[i].name];
      }
    }
    assert l.entries[..|l.entries|] == l.entries;
    r := Some(result);
  }

  function SimpleOf(a: Answers, name: string): string {
    if a.parse(name).Some? then a.parse(name).value else name
  }

  function SimpleNames(a: Answers, names: seq<string>): set<string> {
    set n | n in names :: SimpleOf(a, n)
  }

  /** Exactly the simple names of a list of dogus. */
  ghost predicate Simplified(simple: seq<string>, a: Answers, names: seq<string>) {
    forall s :: s in simple <==> s in SimpleNames(a, names)
  }

  method GetSimpleDoguNames(a: Answers, names: seq<string>) returns (simple: seq<string>)
    ensures Simplified(simple, a, names)
  {
    simple := [];
    for i := 0 to |names|
      invariant |simple| == i && forall j | 0 <= j < i :: simple[j] == SimpleOf(a, names[j])
    {
      simple := simple + [SimpleOf(a, names[i])];
    }
    forall n | n in names ensures SimpleOf(a, n) in simple {
      var i :| 0 <= i < |names| && names[i] == n;
      assert simple[i] == SimpleOf(a, n);
    }
  }

  // ---------- what happens to one dogu ----------

  /** The outcome for one exporter dogu; rsyncOk says which of its copies succeed. */
  datatype Plan =
    | NoName                                   // not a qualified name: reported
    | LeftOut                                  // excluded
    | NotExported(dogu: string)                // reported
    | NotListed(dogu: string)                  // reported
    | Copied(dogu: string, source: Export, dirs: seq<string>, patterns: seq<string>, checksum: bool, rsyncOk: string -> bool)

  function CopyOf(p: Plan, dir: string): Event
    requires p.Copied?
  {
    Rsync(p.dogu, dir, p.source, p.patterns, p.checksum, p.rsyncOk(dir))
  }

  function Copies(p: Plan, dirs: seq<string>): seq<Event>
    requires p.Copied?
  {
    if dirs == [] then []
    else Copies(p, dirs[..|dirs| - 1]) + [CopyOf(p, dirs[|dirs| - 1])]
  }

  function PlanTrace(p: Plan): seq<Event> {
    match p
    case NoName => []
    case LeftOut => []
    case NotExported(d) => [SetExport(d, false)]
    case NotListed(d) => [SetExport(d, true)]
    case Copied(d, _, dirs, _, _, _) => [SetExport(d, true)] + Copies(p, dirs)
  }

  /** Nothing is reported for this dogu. */
  predicate PlanOk(p: Plan) {
    p.LeftOut? || (p.Copied? && forall dir | dir in p.dirs :: p.rsyncOk(dir))
  }

  predicate AllOk(plans: seq<Plan>) {
    forall i | 0 <= i < |plans| :: PlanOk(plans[i])
  }

  function Trace(plans: seq<Plan>): seq<Event> {
    if plans == [] then []
    else Trace(plans[..|plans| - 1]) + PlanTrace(plans[|plans| - 1])
  }

  /** Put together from the answers for one dogu. */
  function PlanOf(name: Option<string>, excluded: bool, e: Option<Export>, dirs: Option<seq<string>>,
                  patterns: seq<string>, checksum: bool, rsyncOk: string -> bool): Plan {
    if name.None? then NoName
    else if excluded then LeftOut
    else if e.None? then NotExported(name.value)
    else if dirs.None? then NotListed(name.value)
    else Copied(name.value, e.value, dirs.value, patterns, checksum, rsyncOk)
  }

  /** The log after has `added` appended to the log before. */
  ghost predicate Grew(before: seq<Event>, after: seq<Event>, added: seq<Event>) {
    after == before + added
  }

  lemma GrewOn(a: seq<Event>, b: seq<Event>, c: seq<Event>, x: seq<Event>, y: seq<Event>)
    requires Grew(a, b, x) && Grew(b, c, y)
    ensures Grew(a, c, x + y)
  {
  }

  // ---------- the syncer ----------

  class Syncer {
    const patterns: seq<DoguList>
    const excludedDogus: seq<string>
    const checksumDogus: seq<string>
    const subDirsToIgnore: seq<string>
    var trace: seq<Event>

    constructor (patterns: seq<DoguList>, excludedDogus: seq<string>, checksumDogus: seq<string>)
      ensures this.patterns == patterns && this.excludedDogus == excludedDogus && this.checksumDogus == checksumDogus
      ensures subDirsToIgnore == SUB_DIRS_TO_IGNORE && trace == []
    {
      this.patterns, this.excludedDogus, this.checksumDogus := patterns, excludedDogus, checksumDogus;
      subDirsToIgnore, trace := SUB_DIRS_TO_IGNORE, [];
    }

    /** The dogu's simple name is on the list. */
    predicate OnList(a: Answers, name: string, list: seq<string>) {
      a.parse(name).Some? && a.parse(name).value in SimpleNames(a, list)
    }

    /** Exclusion goes by simple name, exclude patterns go by the name as the exporter spells it. */
    function PlanFor(a: Answers, i: nat, name: string): Plan {
      PlanOf(a.parse(name), OnList(a, name, excludedDogus), a.setExport(i), DirsOf(a.listing(i), subDirsToIgnore),
             ValuesFor(patterns, name), OnList(a, name, checksumDogus), a.rsyncOk(i))
    }

    /** Per exporter dogu, in order. */
    function Plans(a: Answers, dogus: seq<string>): seq<Plan> {
      if dogus == [] then []
      else
        var last := |dogus| - 1;
        Plans(a, dogus[..last]) + [PlanFor(a, last, dogus[last])]
    }

    lemma {:induction false} PlansAre(a: Answers, dogus: seq<string>)
      ensures |Plans(a, dogus)| == |dogus|
      ensures forall i | 0 <= i < |dogus| :: Plans(a, dogus)[i] == PlanFor(a, i, dogus[i])
    {
      if dogus != [] {
        PlansAre(a, dogus[..|dogus| - 1]);
      }
    }

    /** Errors are collected; one dogu's failure does not keep the others from being synced. */
    method SyncData(systemInfo: Option<seq<string>>, a: Answers) returns (ok: bool)
      modifies `trace
      ensures systemInfo.None? ==> !ok && trace == old(trace)
      ensures systemInfo.Some? ==> Grew(old(trace), trace, Trace(Plans(a, systemInfo.value)))
      ensures systemInfo.Some? ==> (ok <==> AllOk(Plans(a, systemInfo.value)))
      ensures Valid() && systemInfo.Some? ==> (ok <==> forall i: nat | i < |systemInfo.value| :: DoguIsFine(a, systemInfo.value, i))
    {
      assert Plans(a, []) == [] && Grew(trace, trace, Trace([])) && AllOk([]);
      if systemInfo.None? {
        return false;
      }
      var dogus := systemInfo.value;
      var excludeMap := Collect(patterns);
      var excludedNames := GetSimpleDoguNames(a, excludedDogus);
      var checksumNames := GetSimpleDoguNames(a, checksumDogus);
      ghost var plans: seq<Plan> := [];
      ok := true;
      for i := 0 to |dogus|
        invariant plans == Plans(a, dogus[..i])
        invariant Grew(old(trace), trace, Trace(plans))
        invariant ok <==> AllOk(plans)
      {
        ghost var before, logged := trace, Trace(plans);
        var done := SyncDogu(i, dogus[i], excludeMap, excludedNames, checksumNames, a);
        ok := ok && done;
        plans := NextPlans(a, dogus, i, plans);
        GrewOn(old(trace), before, trace, logged, PlanTrace(PlanFor(a, i, dogus[i])));
      }
      assert dogus[..|dogus|] == dogus;
      if Valid() {
        AllOkIff(a, dogus);
      }
    }

    lemma NextPlans(a: Answers, dogus: seq<string>, i: nat, plans: seq<Plan>) returns (next: seq<Plan>)
      requires i < |dogus| && plans == Plans(a, dogus[..i])
      ensures next == Plans(a, dogus[..i + 1])
      ensures Trace(next) == Trace(plans) + PlanTrace(PlanFor(a, i, dogus[i]))
      ensures AllOk(next) <==> AllOk(plans) && PlanOk(PlanFor(a, i, dogus[i]))
    {
      hide PlanFor, PlanOk, PlanTrace;
      assert dogus[..i + 1][..i] == dogus[..i];
      next := plans + [PlanFor(a, i, dogus[i])];
      assert next[..|next| - 1] == plans;
    }

    /** The body of the loop over the dogus. */
    method SyncDogu(i: nat, dogu: string, excludeMap: map<string, seq<string>>, excludedNames: seq<string>, checksumNames: seq<string>, a: Answers)
      returns (ok: bool)
      requires Simplified(excludedNames, a, excludedDogus) && Simplified(checksumNames, a, checksumDogus)
      requires Collected(excludeMap, patterns)
      modifies `trace
      ensures Grew(old(trace), trace, PlanTrace(PlanFor(a, i, dogu))) && (ok <==> PlanOk(PlanFor(a, i, dogu)))
    {
      hide SimpleNames, ValuesFor, SubDirs, Copies;
      var name := a.parse(dogu);
      if name.None? {
        return false;
      }
      var isExcluded := name.value in excludedNames;
      if isExcluded {
        return true;
      }
      var doguExport := a.setExport(i);
      trace := trace + [SetExport(name.value, doguExport.Some?)];
      if doguExport.None? {
        return false;
      }
      var excludePattern := if dogu in excludeMap then excludeMap[dogu] else [];
      var useChecksum := name.value in checksumNames;
      var dirs := GetSubDirs(a.listing(i), subDirsToIgnore);
      if dirs.None? {
        return false;
      }
      ghost var exported := trace;
      ok := SyncDirs(Copied(name.value, doguExport.value, dirs.value, excludePattern, useChecksum, a.rsyncOk(i)));
      GrewOn(old(trace), exported, trace, [SetExport(name.value, true)], Copies(PlanFor(a, i, dogu), dirs.value));
    }

    /** The inner loop over the subdirectories. */
    method SyncDirs(p: Plan) returns (ok: bool)
      requires p.Copied?
      modifies `trace
      ensures Grew(old(trace), trace, Copies(p, p.dirs))
      ensures ok <==> PlanOk(p)
    {
      ok := true;
      for k := 0 to |p.dirs|
        invariant Grew(old(trace), trace, Copies(p, p.dirs[..k]))
        invariant ok <==> forall j | 0 <= j < k :: p.rsyncOk(p.dirs[j])
      {
        assert p.dirs[..k + 1][..k] == p.dirs[..k];
        trace := trace + [CopyOf(p, p.dirs[k])];
        ok := ok && p.rsyncOk(p.dirs[k]);
      }
      assert p.dirs[..|p.dirs|] == p.dirs;
    }

    lemma PlannedIsNotExcluded(a: Answers, i: nat, name: string)
      ensures var p := PlanFor(a, i, name); p.NoName? || p.LeftOut? || p.dogu !in SimpleNames(a, excludedDogus)
    {
    }

    // ---------- the same, dogu by dogu ----------

    /** What the source fixes. */
    predicate Valid() {
      subDirsToIgnore == ["lost+found", "_private"]
    }

    /** Some entry of the list has this simple name; an entry that is not a qualified name stands for itself. */
    predicate NamedIn(a: Answers, list: seq<string>, simple: string) {
      exists k :: 0 <= k < |list| && (if a.parse(list[k]).Some? then a.parse(list[k]).value else list[k]) == simple
    }

    /** Nothing is reported: the name is qualified; unless it is excluded, the dogu was exported, its directory
        could be read if it is there, and every directory in it that is not ignored was copied. */
    ghost predicate DoguIsFine(a: Answers, dogus: seq<string>, i: nat)
      requires i < |dogus|
    {
      a.parse(dogus[i]).Some? &&
      (|| NamedIn(a, excludedDogus, a.parse(dogus[i]).value)
       || (&& a.setExport(i).Some? && !a.listing(i).Unreadable?
           && forall dir | IsSubDir(a.listing(i), dir) :: a.rsyncOk(i)(dir)))
    }

    lemma NamedInIff(a: Answers, list: seq<string>, simple: string)
      ensures NamedIn(a, list, simple) <==> simple in SimpleNames(a, list)
    {
      if simple in SimpleNames(a, list) {
        var n :| n in list && SimpleOf(a, n) == simple;
        var k :| 0 <= k < |list| && list[k] == n;
      }
      if k :| 0 <= k < |list| && (if a.parse(list[k]).Some? then a.parse(list[k]).value else list[k]) == simple {
        assert list[k] in list && SimpleOf(a, list[k]) == simple;
      }
    }

    lemma PlanOkIff(a: Answers, dogus: seq<string>, i: nat)
      requires Valid() && i < |dogus|
      ensures PlanOk(PlanFor(a, i, dogus[i])) <==> DoguIsFine(a, dogus, i)
    {
      if a.parse(dogus[i]).Some? {
        NamedInIff(a, excludedDogus, a.parse(dogus[i]).value);
      }
      DirsAre(a.listing(i), subDirsToIgnore);
      hide SimpleNames, NamedIn, ValuesFor, DirsOf, IsSubDir;
    }

    /** Nothing is reported at all exactly when nothing is for any dogu. */
    lemma AllOkIff(a: Answers, dogus: seq<string>)
      requires Valid()
      ensures AllOk(Plans(a, dogus)) <==> forall i: nat | i < |dogus| :: DoguIsFine(a, dogus, i)
    {
      PlansAre(a, dogus);
      hide PlanOk, PlanFor, DoguIsFine, Plans;
      forall i: nat | i < |dogus| ensures PlanOk(PlanFor(a, i, dogus[i])) <==> DoguIsFine(a, dogus, i) {
        PlanOkIff(a, dogus, i);
      }
    }

    /** Every copy is one of a listed directory of a dogu that is not excluded, with the exporter's answer for
        it, the patterns configured for it and checksums as configured. */
    ghost predicate IsCopyOf(a: Answers, dogus: seq<string>, i: nat, v: Event)
      requires i < |dogus|
    {
      && v.Rsync? && a.parse(dogus[i]) == Some(v.dogu) && !NamedIn(a, excludedDogus, v.dogu)
      && a.setExport(i) == Some(v.source) && IsSubDir(a.listing(i), v.subDir) && v.ok == a.rsyncOk(i)(v.subDir)
      && (forall p :: p in v.patterns <==> exists c | c in patterns :: c.dogu == dogus[i] && p in c.values)
      && (v.checksum <==> NamedIn(a, checksumDogus, v.dogu))
    }

    lemma CopiedAsAsked(a: Answers, dogus: seq<string>, i: nat, dir: string)
      requires Valid() && i < |dogus|
      ensures var p := PlanFor(a, i, dogus[i]); p.Copied? && dir in p.dirs ==> IsCopyOf(a, dogus, i, CopyOf(p, dir))
    {
      var p := PlanFor(a, i, dogus[i]);
      if p.Copied? && dir in p.dirs {
        NamedInIff(a, excludedDogus, p.dogu);
        NamedInIff(a, checksumDogus, p.dogu);
        DirsAre(a.listing(i), subDirsToIgnore);
        forall value ensures value in ValuesFor(patterns, dogus[i]) <==> exists c | c in patterns :: c.dogu == dogus[i] && value in c.values {
          ListedSomewhere(patterns, dogus[i], value);
        }
        hide SimpleNames, NamedIn, ValuesFor, DirsOf, IsSubDir;
      }
    }

    /** No other copies are made. */
    lemma CopiesAreAsked(a: Answers, dogus: seq<string>, v: Event) returns (i: nat)
      requires Valid() && v in Trace(Plans(a, dogus)) && v.Rsync?
      ensures i < |dogus| && IsCopyOf(a, dogus, i, v)
    {
      PlansAre(a, dogus);
      i := PositionOf(Plans(a, dogus), v);
      var p := PlanFor(a, i, dogus[i]);
      hide IsCopyOf, PlanFor, Plans, Trace;
      var dir := CopyIn(p, v);
      CopiedAsAsked(a, dogus, i, dir);
    }

    /** Every dogu that has a qualified name and is not excluded is set for export, whatever happens to the other
        ones, and every listed directory of one that was exported is copied. */
    lemma EveryDoguIsTried(a: Answers, dogus: seq<string>, i: nat)
      requires Valid() && i < |dogus| && a.parse(dogus[i]).Some? && !NamedIn(a, excludedDogus, a.parse(dogus[i]).value)
      ensures SetExport(a.parse(dogus[i]).value, a.setExport(i).Some?) in Trace(Plans(a, dogus))
      ensures forall dir | a.setExport(i).Some? && IsSubDir(a.listing(i), dir) ::
                exists v | v in Trace(Plans(a, dogus)) :: v.Rsync? && v.subDir == dir && IsCopyOf(a, dogus, i, v)
    {
      PlansAre(a, dogus);
      var p, simple := PlanFor(a, i, dogus[i]), a.parse(dogus[i]).value;
      NamedInIff(a, excludedDogus, simple);
      DirsAre(a.listing(i), subDirsToIgnore);
      assert !p.NoName? && !p.LeftOut? by { hide SimpleNames, ValuesFor, DirsOf, NamedIn; }
      PlanTraceIsPart(Plans(a, dogus), i, SetExport(simple, a.setExport(i).Some?));
      forall dir | a.setExport(i).Some? && IsSubDir(a.listing(i), dir)
        ensures exists v | v in Trace(Plans(a, dogus)) :: v.Rsync? && v.subDir == dir && IsCopyOf(a, dogus, i, v)
      {
        assert p.Copied? && dir in p.dirs;
        CopiesContain(p, p.dirs, dir);
        PlanTraceIsPart(Plans(a, dogus), i, CopyOf(p, dir));
        CopiedAsAsked(a, dogus, i, dir);
      }
    }

    /** No excluded dogu is ever set for export or copied. */
    lemma ExcludedAreLeftAlone(a: Answers, dogus: seq<string>)
      ensures forall v | v in Trace(Plans(a, dogus)) :: v.dogu !in SimpleNames(a, excludedDogus)
    {
      forall v | v in Trace(Plans(a, dogus)) ensures v.dogu !in SimpleNames(a, excludedDogus) {
        PlansAre(a, dogus);
        var i := CauseOf(Plans(a, dogus), v);
        PlannedIsNotExcluded(a, i, dogus[i]);
      }
    }

    /** When nothing is reported, every dogu has a qualified name, and every listed subdirectory of every
        dogu that is not excluded was copied successfully, with the patterns of that dogu. */
    lemma NothingReportedMeansAllCopied(a: Answers, dogus: seq<string>, i: nat)
      requires i < |dogus| && AllOk(Plans(a, dogus))
      ensures a.parse(dogus[i]).Some?
      ensures var simple := a.parse(dogus[i]).value;
              simple in SimpleNames(a, excludedDogus) ||
              (&& a.setExport(i).Some? && DirsOf(a.listing(i), subDirsToIgnore).Some?
               && forall dir | dir in DirsOf(a.listing(i), subDirsToIgnore).value ::
                    Rsync(simple, dir, a.setExport(i).value, ValuesFor(patterns, dogus[i]), simple in SimpleNames(a, checksumDogus), true)
                    in Trace(Plans(a, dogus)))
    {
      PlansAre(a, dogus);
      var p := Plans(a, dogus)[i];
      assert PlanOk(p);
      if p.Copied? {
        forall dir | dir in p.dirs ensures CopyOf(p, dir) in Trace(Plans(a, dogus)) {
          CopiesContain(p, p.dirs, dir);
          PlanTraceIsPart(Plans(a, dogus), i, CopyOf(p, dir));
        }
      }
    }
  }

  /** A directory below the dogu's that is not one of the two that are ignored. */
  predicate IsSubDir(l: Listing, name: string) {
    && l.Listed? && name != "lost+found" && name != "_private"
    && exists k :: 0 <= k < |l.entries| && l.entries[k].isDir && l.entries[k].name == name
  }

  lemma DirsAre(l: Listing, ignored: seq<string>)
    requires ignored == ["lost+found", "_private"]
    ensures DirsOf(l, ignored).None? <==> l.Unreadable?
    ensures DirsOf(l, ignored).Some? ==> forall name :: name in DirsOf(l, ignored).value <==> IsSubDir(l, name)
  {
    if l.Listed? {
      forall name ensures name in SubDirs(l.entries, ignored) <==> IsSubDir(l, name) {
        SubDirsAre(l.entries, ignored, name);
        EntryAt(l.entries, name);
        assert name in ignored <==> name == ignored[0] || name == ignored[1];
      }
    }
  }

  lemma EntryAt(entries: seq<Entry>, name: string)
    ensures (exists e | e in entries :: e.isDir && e.name == name) <==> exists k :: 0 <= k < |entries| && entries[k].isDir && entries[k].name == name
  {
    if e :| e in entries && e.isDir && e.name == name {
      var k :| 0 <= k < |entries| && entries[k] == e;
    }
    if k :| 0 <= k < |entries| && entries[k].isDir && entries[k].name == name {
      assert entries[k] in entries;
    }
  }

  lemma {:induction false} PositionOf(plans: seq<Plan>, v: Event) returns (i: nat)
    requires v in Trace(plans)
    ensures i < |plans| && v in PlanTrace(plans[i])
  {
    var last := |plans| - 1;
    if v in Trace(plans[..last]) {
      i := PositionOf(plans[..last], v);
    } else {
      i := last;
    }
  }

  lemma CopyIn(p: Plan, v: Event) returns (dir: string)
    requires v in PlanTrace(p) && v.Rsync?
    ensures p.Copied? && dir in p.dirs && v == CopyOf(p, dir)
  {
    dir := CopyAmong(p, p.dirs, v);
  }

  lemma {:induction false} CopyAmong(p: Plan, dirs: seq<string>, v: Event) returns (dir: string)
    requires p.Copied? && v in Copies(p, dirs)
    ensures dir in dirs && v == CopyOf(p, dir)
  {
    var last := |dirs| - 1;
    if v in Copies(p, dirs[..last]) {
      dir := CopyAmong(p, dirs[..last], v);
    } else {
      dir := dirs[last];
    }
  }

  lemma {:induction false} CopiesContain(p: Plan, dirs: seq<string>, dir: string)
    requires p.Copied? && dir in dirs
    ensures CopyOf(p, dir) in Copies(p, dirs)
  {
    var last := |dirs| - 1;
    assert dirs == dirs[..last] + [dirs[last]];
    if dir != dirs[last] {
      CopiesContain(p, dirs[..last], dir);
    }
  }

  lemma {:induction false} CopiesAreOf(p: Plan, dirs: seq<string>)
    requires p.Copied?
    ensures forall v | v in Copies(p, dirs) :: v.Rsync? && v.dogu == p.dogu
  {
    if dirs != [] {
      CopiesAreOf(p, dirs[..|dirs| - 1]);
    }
  }

  /** The position whose dogu caused an event. */
  lemma {:induction false} CauseOf(plans: seq<Plan>, v: Event) returns (i: nat)
    requires v in Trace(plans)
    ensures i < |plans| && !plans[i].NoName? && !plans[i].LeftOut? && v.dogu == plans[i].dogu
  {
    var last := |plans| - 1;
    if v in Trace(plans[..last]) {
      i := CauseOf(plans[..last], v);
    } else {
      i := last;
      if plans[i].Copied? {
        CopiesAreOf(plans[i], plans[i].dirs);
      }
    }
  }

  lemma {:induction false} PlanTraceIsPart(plans: seq<Plan>, i: nat, v: Event)
    requires i < |plans| && v in PlanTrace(plans[i])
    ensures v in Trace(plans)
  {
    hide PlanTrace;
    var last := |plans| - 1;
    if i < last {
      PlanTraceIsPart(plans[..last], i, v);
    }
  }

  // ---------- what every run guarantees ----------

  /** The dogu the exporter was last successfully asked to export. */
  function LastExport(t: seq<Event>): Option<string> {
    if t == [] then None
    else
      var last := t[|t| - 1];
      if last.SetExport? && last.ok then Some(last.dogu) else LastExport(t[..|t| - 1])
  }

  ghost predicate CopiesFromExported(t: seq<Event>) {
    forall i | 0 <= i < |t| && t[i].Rsync? :: LastExport(t[..i]) == Some(t[i].dogu)
  }

  lemma CopyStep(t: seq<Event>, e: Event)
    requires CopiesFromExported(t)
    requires e.Rsync? ==> LastExport(t) == Some(e.dogu)
    ensures CopiesFromExported(t + [e])
    ensures LastExport(t + [e]) == if e.SetExport? && e.ok then Some(e.dogu) else LastExport(t)
  {
    var u := t + [e];
    assert u[..|u| - 1] == t;
    forall i | 0 <= i < |u| && u[i].Rsync? ensures LastExport(u[..i]) == Some(u[i].dogu) {
      if i < |t| {
        assert u[..i] == t[..i];
      } else {
        assert u[..i] == t;
      }
    }
  }

  lemma {:induction false} CopiesAreFromExported(t: seq<Event>, p: Plan, dirs: seq<string>)
    requires p.Copied? && CopiesFromExported(t) && LastExport(t) == Some(p.dogu)
    ensures CopiesFromExported(t + Copies(p, dirs))
    ensures LastExport(t + Copies(p, dirs)) == Some(p.dogu)
  {
    if dirs == [] {
      assert t + [] == t;
    } else {
      var front, last := Copies(p, dirs[..|dirs| - 1]), CopyOf(p, dirs[|dirs| - 1]);
      CopiesAreFromExported(t, p, dirs[..|dirs| - 1]);
      CopyStep(t + front, last);
      assert t + (front + [last]) == t + front + [last];
    }
  }

  lemma PlanCopiesFromExported(t: seq<Event>, p: Plan)
    requires CopiesFromExported(t)
    ensures CopiesFromExported(t + PlanTrace(p))
  {
    match p
    case NoName => assert t + [] == t;
    case LeftOut => assert t + [] == t;
    case NotExported(d) => CopyStep(t, SetExport(d, false));
    case NotListed(d) => CopyStep(t, SetExport(d, true));
    case Copied(d, _, dirs, _, _, _) =>
      CopyStep(t, SetExport(d, true));
      CopiesAreFromExported(t + [SetExport(d, true)], p, dirs);
      assert t + ([SetExport(d, true)] + Copies(p, dirs)) == t + [SetExport(d, true)] + Copies(p, dirs);
  }

  /** Every copy of a dogu runs while that dogu is the one last successfully set for export. */
  lemma {:induction false} EveryCopyIsFromTheExportedDogu(plans: seq<Plan>)
    ensures CopiesFromExported(Trace(plans))
  {
    if plans != [] {
      var last := |plans| - 1;
      EveryCopyIsFromTheExportedDogu(plans[..last]);
      PlanCopiesFromExported(Trace(plans[..last]), plans[last]);
    }
  }

  /** The listed subdirectories are the directories that are not on the ignore list. */
  lemma {:induction false} SubDirsAre(entries: seq<Entry>, ignored: seq<string>, name: string)
    ensures name in SubDirs(entries, ignored) <==>
            name !in ignored && exists e | e in entries :: e.isDir && e.name == name
  {
    if entries != [] {
      SubDirsAre(entries[..|entries| - 1], ignored, name);
      assert entries == entries[..|entries| - 1] + [entries[|entries| - 1]];
    }
  }
}
