/** The wire to the API server, and the repository that stores the global config behind it. */
module GlobalConfigRepo {
  import opened Kubernetes
  import opened ConfigTree

  /** Every API call of a run asks the adversary once. `faults` fixes all placements of failures in
      advance; `calls` counts the calls made so far. */
  class Network {
    const faults: nat -> Fault
    var calls: nat

    constructor (faults: nat -> Fault)
      ensures this.faults == faults && calls == 0
    {
      this.faults := faults;
      calls := 0;
    }

    method Next() returns (f: Fault)
      modifies this
      ensures calls == old(calls) + 1
      ensures f == faults(old(calls))
    {
      f := faults(calls);
      calls := calls + 1;
    }
  }

  /** No failure is injected from call `from` on. */
  ghost predicate Quiet(faults: nat -> Fault, from: nat) {
    forall i: nat | from <= i :: faults(i).NoFault?
  }

  // ---------- runs with few failures ----------

  /** How many calls from `from` to before `until` fail. */
  ghost function Failures(faults: nat -> Fault, from: nat, until: nat): nat
    requires from <= until
    decreases until
  {
    if from == until then 0 else Failures(faults, from, until - 1) + if faults(until - 1).Injected? then 1 else 0
  }

  /** Fewer than `n` calls fail from `from` on. */
  ghost predicate Fewer(faults: nat -> Fault, from: nat, n: nat) {
    forall until: nat | from <= until :: Failures(faults, from, until) < n
  }

  /** No failing call claims that an object is missing or there already. */
  ghost predicate Plain(faults: nat -> Fault) {
    forall i: nat | faults(i).Injected? :: faults(i).error == Conflict || faults(i).error == Other
  }

  ghost predicate OnlyConflicts(faults: nat -> Fault) {
    forall i: nat | faults(i).Injected? :: faults(i).error == Conflict
  }

  lemma {:induction false} FailuresAdd(faults: nat -> Fault, from: nat, mid: nat, until: nat)
    requires from <= mid <= until
    ensures Failures(faults, from, until) == Failures(faults, from, mid) + Failures(faults, mid, until)
    decreases until
  {
    if mid < until {
      FailuresAdd(faults, from, mid, until - 1);
    }
  }

  /** Later on there are not more. */
  lemma FewerLater(faults: nat -> Fault, from: nat, later: nat, n: nat)
    requires from <= later
    ensures Fewer(faults, from, n) ==> Fewer(faults, later, n)
  {
    forall until: nat | later <= until && Fewer(faults, from, n) ensures Failures(faults, later, until) < n {
      FailuresAdd(faults, from, later, until);
    }
  }

  class Repo {
    const net: Network
    var stored: Option<Config>

    constructor (net: Network, stored: Option<Config>)
      ensures this.net == net && this.stored == stored
    {
      this.net := net;
      this.stored := stored;
    }

    method Get() returns (r: Result<Config>)
      modifies net
      ensures net.calls == old(net.calls) + 1
      ensures net.faults(old(net.calls)).Injected? ==> r == Err(net.faults(old(net.calls)).error)
      ensures r.Ok? ==> stored == Some(r.value)
      ensures net.faults(old(net.calls)).NoFault? ==> r == if stored.Some? then Ok(stored.value) else Err(NotFound)
    {
      var f := net.Next();
      r := if f.Injected? then Err(f.error) else if stored.None? then Err(NotFound) else Ok(stored.value);
    }

    method Create(c: Config) returns (r: Result<Config>)
      modifies net, `stored
      ensures net.calls == old(net.calls) + 1
      ensures net.faults(old(net.calls)).Injected? ==> r == Err(net.faults(old(net.calls)).error)
      ensures stored == old(stored) || (old(stored).None? && stored == Some(c))
      ensures r.Ok? ==> old(stored).None? && stored == Some(c) && r.value == c
      ensures net.faults(old(net.calls)).NoFault? ==> r == if old(stored).None? then Ok(c) else Err(AlreadyExists)
    {
      var f := net.Next();
      var possible := stored.None?;
      if possible && (f.NoFault? || f.effective) {
        stored := Some(c);
      }
      r := if f.Injected? then Err(f.error) else if possible then Ok(c) else Err(AlreadyExists);
    }

    /** Replaces the stored config as a whole. */
    method Update(c: Config) returns (r: Result<Config>)
      modifies net, `stored
      ensures net.calls == old(net.calls) + 1
      ensures net.faults(old(net.calls)).Injected? ==> r == Err(net.faults(old(net.calls)).error)
      ensures stored == old(stored) || (old(stored).Some? && stored == Some(c))
      ensures r.Ok? ==> old(stored).Some? && stored == Some(c)
      ensures net.faults(old(net.calls)).NoFault? ==> r == if old(stored).Some? then Ok(c) else Err(NotFound)
    {
      var f := net.Next();
      var possible := stored.Some?;
      if possible && (f.NoFault? || f.effective) {
        stored := Some(c);
      }
      r := if f.Injected? then Err(f.error) else if possible then Ok(c) else Err(NotFound);
    }

    /** With a single writer nothing has to be merged, so a save replaces the stored config. */
    method SaveOrMerge(c: Config) returns (r: Result<Config>)
      modifies net, `stored
      ensures net.calls == old(net.calls) + 1
      ensures net.faults(old(net.calls)).Injected? ==> r == Err(net.faults(old(net.calls)).error)
      ensures stored == old(stored) || (old(stored).Some? && stored == Some(c))
      ensures r.Ok? ==> old(stored).Some? && stored == Some(c)
      ensures net.faults(old(net.calls)).NoFault? ==> r == if old(stored).Some? then Ok(c) else Err(NotFound)
    {
      r := Update(c);
    }
  }
}
