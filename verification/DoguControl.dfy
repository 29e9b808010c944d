/** Stopping all dogus before their data is synchronised, and starting them again. */
module DoguControl {
  import opened Kubernetes
  import opened GlobalConfigRepo

  datatype Phase = Pending | PodRunning | Succeeded | PodFailed | Unknown

  datatype Dogu = Dogu(spec: string, stopped: bool)

  /** Dogus by resource name, and the pods of each of them. */
  datatype World = World(dogus: map<string, Dogu>, pods: map<string, seq<Phase>>)

  predicate Terminated(p: Phase) { p == Succeeded || p == PodFailed }

  function PodsOf(w: World, dogu: string): seq<Phase> {
    if dogu in w.pods then w.pods[dogu] else []
  }

  predicate NoPodActive(w: World, dogu: string) {
    forall p | p in PodsOf(w, dogu) :: Terminated(p)
  }

  /** What happens in the cluster on its own: dogus may be deleted, but nobody else installs, starts or
      stops one. A stopped dogu gets no new pod and a terminated pod stays terminated, so a stopped dogu
      without active pods stays without. Everything else about pods is open. */
  predicate Evolves(w: World, w': World) {
    && (forall d | d in w'.dogus :: d in w.dogus && w'.dogus[d] == w.dogus[d])
    && (forall d | d in w'.dogus && w'.dogus[d].stopped && NoPodActive(w, d) :: NoPodActive(w', d))
  }

  class Cluster {
    const net: Network
    var world: World

    constructor (net: Network, world: World)
      ensures this.net == net && this.world == world
    {
      this.net, this.world := net, world;
    }

    /** Time passes before a call is answered. */
    method Elapse()
      modifies `world
      ensures Evolves(old(world), world)
    {
      assert Evolves(world, world);
      var next :| Evolves(world, next);
      world := next;
    }

    /** The spec names of all dogus. */
    method List() returns (r: Result<set<string>>)
      modifies net, `world
      ensures net.calls == old(net.calls) + 1
      ensures Evolves(old(world), world)
      ensures r.Ok? ==> forall d | d in world.dogus :: world.dogus[d].spec in r.value
      ensures net.faults(old(net.calls)).NoFault? ==> r.Ok?
    {
      Elapse();
      var f := net.Next();
      r := if f.Injected? then Err(f.error) else Ok(set d | d in world.dogus :: world.dogus[d].spec);
    }

    method Get(dogu: string) returns (r: Result<Dogu>)
      modifies net, `world
      ensures net.calls == old(net.calls) + 1
      ensures Evolves(old(world), world)
      ensures r.Ok? ==> dogu in world.dogus && world.dogus[dogu] == r.value
      ensures r == Err(NotFound) ==> dogu !in world.dogus
      ensures net.faults(old(net.calls)).NoFault? && r.Err? ==> r.error == NotFound
    {
      Elapse();
      var f := net.Next();
      r := if dogu !in world.dogus then Err(if f.Injected? then f.error else NotFound)
           else if f.Injected? then Err(if f.error == NotFound then Other else f.error)
           else Ok(world.dogus[dogu]);
    }

    /** Sets the flag, whatever conflicts happen on the way. */
    method UpdateStopped(dogu: string, stopped: bool) returns (r: Result<()>)
      modifies net, `world
      ensures net.calls == old(net.calls) + 1
      ensures StoppedMayChange(old(world), world, dogu, stopped)
      ensures r.Ok? ==> dogu in world.dogus && world.dogus[dogu].stopped == stopped
      ensures net.faults(old(net.calls)).NoFault? && r.Err? ==> dogu !in world.dogus
    {
      Elapse();
      var f := net.Next();
      var possible := dogu in world.dogus;
      if possible && (f.NoFault? || f.effective) {
        world := world.(dogus := world.dogus[dogu := world.dogus[dogu].(stopped := stopped)]);
      }
      r := if f.Injected? then Err(f.error) else if possible then Ok(()) else Err(NotFound);
    }

    method ListPods(dogu: string) returns (r: Result<seq<Phase>>)
      modifies net, `world
      ensures net.calls == old(net.calls) + 1
      ensures Evolves(old(world), world)
      ensures r.Ok? ==> r.value == PodsOf(world, dogu)
      ensures net.faults(old(net.calls)).NoFault? ==> r.Ok?
    {
      Elapse();
      var f := net.Next();
      r := if f.Injected? then Err(f.error) else Ok(PodsOf(world, dogu));
    }
  }

  /** Like Evolves, but the flag of `dogu` may have been set to `stopped`. */
  predicate StoppedMayChange(w: World, w': World, dogu: string, stopped: bool) {
    && (forall d | d in w'.dogus ::
          && d in w.dogus && w'.dogus[d].spec == w.dogus[d].spec
          && (w'.dogus[d].stopped == w.dogus[d].stopped || (d == dogu && w'.dogus[d].stopped == stopped)))
    && (forall d | d in w'.dogus && w.dogus[d].stopped && NoPodActive(w, d) :: NoPodActive(w', d))
  }

  function CountNotTerminated(pods: seq<Phase>): nat {
    if pods == [] then 0
    else CountNotTerminated(pods[..|pods| - 1]) + if Terminated(pods[|pods| - 1]) then 0 else 1
  }

  lemma {:induction false} CountZeroIff(pods: seq<Phase>)
    ensures CountNotTerminated(pods) == 0 <==> forall p | p in pods :: Terminated(p)
    ensures CountNotTerminated(pods) == 0 <==> forall p | p in pods :: p == Succeeded || p == PodFailed
  {
    if pods != [] {
      CountZeroIff(pods[..|pods| - 1]);
      assert pods == pods[..|pods| - 1] + [pods[|pods| - 1]];
    }
  }

  method CountNotTerminatedPods(pods: seq<Phase>) returns (count: nat)
    ensures count == CountNotTerminated(pods)
  {
    count := 0;
    for i := 0 to |pods|
      invariant count == CountNotTerminated(pods[..i])
    {
      assert pods[..i + 1][..i] == pods[..i];
      if pods[i] != Succeeded && pods[i] != PodFailed {
        count := count + 1;
      }
    }
    assert pods[..|pods|] == pods;
  }

  /** stopTimeout / stopPollInterval: after this many waits the timeout has fired for sure. */
  const MAX_POLLS: nat := 150

  class Control {
    const cluster: Cluster
    /** Splits a qualified name and returns the simple name. The library function is not part of this model. */
    const parse: string -> Option<string>

    constructor (cluster: Cluster, parse: string -> Option<string>)
      ensures this.cluster == cluster && this.parse == parse
    {
      this.cluster, this.parse := cluster, parse;
    }

    /** If the dogu is present, its flag is as desired. */
    ghost predicate FlagIs(w: World, spec: string, stopped: bool) {
      && parse(spec).Some?
      && (parse(spec).value in w.dogus ==> w.dogus[parse(spec).value].stopped == stopped)
    }

    /** If the dogu is present, it is stopped and none of its pods is active. */
    ghost predicate AtRest(w: World, spec: string) {
      FlagIs(w, spec, true) && (parse(spec).value in w.dogus ==> NoPodActive(w, parse(spec).value))
    }

    /** Every dogu's resource carries the simple name of its spec, as the dogu operator demands. */
    ghost predicate NamesMatch(w: World) {
      forall d | d in w.dogus :: parse(w.dogus[d].spec) == Some(d)
    }

    lemma NamesKeepMatching(w: World, w': World)
      requires Evolves(w, w') || exists dogu, stopped :: StoppedMayChange(w, w', dogu, stopped)
      ensures NamesMatch(w) ==> NamesMatch(w')
    {
    }

    /** Then what is said about the listed names is said about the dogus themselves. */
    lemma ListedMeansPresent(w: World, listed: set<string>)
      requires Covers(w, listed) && NamesMatch(w)
      ensures (forall spec | spec in listed :: FlagIs(w, spec, false)) ==> forall d | d in w.dogus :: !w.dogus[d].stopped
      ensures (forall spec | spec in listed :: AtRest(w, spec)) ==> forall d | d in w.dogus :: w.dogus[d].stopped && NoPodActive(w, d)
    {
    }

    /** Every pod of a dogu has succeeded or failed. */
    ghost predicate PodsAreDone(w: World) {
      forall d, i | d in w.dogus && d in w.pods && 0 <= i < |w.pods[d]| :: w.pods[d][i] == Succeeded || w.pods[d][i] == PodFailed
    }

    lemma DoneIff(w: World)
      ensures PodsAreDone(w) <==> forall d | d in w.dogus :: NoPodActive(w, d)
    {
      forall d | d in w.dogus && NoPodActive(w, d) && d in w.pods
        ensures forall i | 0 <= i < |w.pods[d]| :: w.pods[d][i] == Succeeded || w.pods[d][i] == PodFailed
      {
        assert forall i | 0 <= i < |w.pods[d]| :: w.pods[d][i] in PodsOf(w, d);
      }
    }

    /** Setting one more flag leaves the flags that are already right alone. */
    lemma FlagsStay(w: World, w': World, dogu: string, stopped: bool, spec: string)
      requires StoppedMayChange(w, w', dogu, stopped) && FlagIs(w, spec, stopped)
      ensures FlagIs(w', spec, stopped)
    {
    }

    /** What is right stays right while time passes. */
    lemma RestStays(w: World, w': World, listed: set<string>, done: set<string>)
      requires Evolves(w, w')
      requires Covers(w, listed)
      requires forall spec | spec in listed :: FlagIs(w, spec, true)
      requires forall spec | spec in done :: AtRest(w, spec)
      ensures Covers(w', listed)
      ensures forall spec | spec in listed :: FlagIs(w', spec, true)
      ensures forall spec | spec in done :: AtRest(w', spec)
    {
    }

    /** Not a qualified name, or its dogu was deleted meanwhile. */
    ghost predicate Unreachable(w: World, spec: string) {
      parse(spec).None? || parse(spec).value !in w.dogus
    }

    /** The last look at its pods showed one that had not terminated. */
    ghost predicate StillActive(w: World, spec: string) {
      parse(spec).Some? && !NoPodActive(w, parse(spec).value)
    }

    method StartStop(spec: string, shouldStop: bool) returns (ok: bool)
      modifies cluster`world, cluster.net
      ensures parse(spec).None? ==> !ok && cluster.world == old(cluster.world)
      ensures parse(spec).Some? ==> StoppedMayChange(old(cluster.world), cluster.world, parse(spec).value, shouldStop)
      ensures ok ==> FlagIs(cluster.world, spec, shouldStop)
      ensures old(NamesMatch(cluster.world)) ==> NamesMatch(cluster.world)
      ensures old(cluster.net.calls) <= cluster.net.calls
      ensures Quiet(cluster.net.faults, old(cluster.net.calls)) && !ok ==> Unreachable(cluster.world, spec)
    {
      if parse(spec).None? {
        return false;
      }
      var doguName := parse(spec).value;
      var dogu := cluster.Get(doguName);
      if dogu.Err? {
        return dogu.error == NotFound;
      }
      if dogu.value.stopped == shouldStop {
        return true;
      }
      var updated := cluster.UpdateStopped(doguName, shouldStop);
      ok := updated.Ok?;
    }

    method WaitForDoguPodsTerminated(spec: string) returns (ok: bool)
      modifies cluster`world, cluster.net
      ensures Evolves(old(cluster.world), cluster.world)
      ensures ok ==> parse(spec).Some? && NoPodActive(cluster.world, parse(spec).value)
      ensures Quiet(cluster.net.faults, old(cluster.net.calls)) && parse(spec).Some? && !ok ==>
                && parse(spec).value in cluster.world.pods
                && exists p | p in cluster.world.pods[parse(spec).value] :: p != Succeeded && p != PodFailed
      ensures old(cluster.net.calls) <= cluster.net.calls
      ensures Quiet(cluster.net.faults, old(cluster.net.calls)) && parse(spec).Some? && !ok ==> StillActive(cluster.world, spec)
    {
      if parse(spec).None? {
        return false;
      }
      var polls := 0;
      while true
        invariant polls <= MAX_POLLS && old(cluster.net.calls) <= cluster.net.calls
        invariant Evolves(old(cluster.world), cluster.world)
        decreases MAX_POLLS - polls
      {
        var pods := cluster.ListPods(parse(spec).value);
        if pods.Err? {
          return false;
        }
        var running := CountNotTerminatedPods(pods.value);
        CountZeroIff(pods.value);
        if running == 0 {
          return true;
        }
        var timedOut :| polls == MAX_POLLS ==> timedOut;
        if timedOut {
          return false;
        }
        polls := polls + 1;
      }
      assert false;
    }

    /** Every dogu present belongs to `listed`. */
    ghost predicate Covers(w: World, listed: set<string>) {
      forall d | d in w.dogus :: w.dogus[d].spec in listed
    }

    /** The loop over all listed dogus that sets their flags. */
    method StartStopAll(listed: set<string>, shouldStop: bool) returns (ok: bool)
      requires Covers(cluster.world, listed)
      modifies cluster`world, cluster.net
      ensures Covers(cluster.world, listed)
      ensures ok ==> forall spec | spec in listed :: FlagIs(cluster.world, spec, shouldStop)
      ensures old(NamesMatch(cluster.world)) ==> NamesMatch(cluster.world)
      ensures old(cluster.net.calls) <= cluster.net.calls
      ensures Quiet(cluster.net.faults, old(cluster.net.calls)) && !ok ==>
                exists spec :: spec in listed && Unreachable(cluster.world, spec)
    {
      var remaining := listed;
      while remaining != {}
        invariant remaining <= listed && Covers(cluster.world, listed) && old(cluster.net.calls) <= cluster.net.calls
        invariant forall spec | spec in listed - remaining :: FlagIs(cluster.world, spec, shouldStop)
        invariant old(NamesMatch(cluster.world)) ==> NamesMatch(cluster.world)
        decreases remaining
      {
        var spec :| spec in remaining;
        ghost var before, done := cluster.world, listed - remaining;
        remaining := remaining - {spec};
        var set' := StartStop(spec, shouldStop);
        if !set' {
          return false;
        }
        forall other | other in done ensures FlagIs(cluster.world, other, shouldStop) {
          FlagsStay(before, cluster.world, parse(spec).value, shouldStop, other);
        }
      }
      ok := true;
    }

    /** The loop over all listed dogus that waits for their pods. */
    method AwaitAll(listed: set<string>) returns (ok: bool)
      requires Covers(cluster.world, listed)
      requires forall spec | spec in listed :: FlagIs(cluster.world, spec, true)
      modifies cluster`world, cluster.net
      ensures Covers(cluster.world, listed)
      ensures ok ==> forall spec | spec in listed :: AtRest(cluster.world, spec)
      ensures old(NamesMatch(cluster.world)) ==> NamesMatch(cluster.world)
      ensures Quiet(cluster.net.faults, old(cluster.net.calls)) && !ok ==>
                exists spec :: spec in listed && StillActive(cluster.world, spec)
    {
      var remaining := listed;
      while remaining != {}
        invariant remaining <= listed && Covers(cluster.world, listed) && old(cluster.net.calls) <= cluster.net.calls
        invariant forall spec | spec in listed :: FlagIs(cluster.world, spec, true)
        invariant forall spec | spec in listed - remaining :: AtRest(cluster.world, spec)
        invariant old(NamesMatch(cluster.world)) ==> NamesMatch(cluster.world)
        decreases remaining
      {
        var spec :| spec in remaining;
        ghost var before, done := cluster.world, listed - remaining;
        remaining := remaining - {spec};
        var terminated := WaitForDoguPodsTerminated(spec);
        RestStays(before, cluster.world, listed, done);
        assert listed - remaining == done + {spec};
        if !terminated {
          return false;
        }
      }
      ok := true;
    }

    /** Success means that every dogu that is still present is stopped and has no active pod, also the ones
        whose wait was over long before the last one's. Without API failures it takes a bad name, a deleted
        dogu or a pod that does not terminate to fail. */
    method StopAll() returns (ok: bool, ghost listed: set<string>)
      modifies cluster`world, cluster.net
      ensures ok ==> forall spec | spec in listed :: AtRest(cluster.world, spec)
      ensures ok ==> Covers(cluster.world, listed)
      ensures old(NamesMatch(cluster.world)) ==> NamesMatch(cluster.world)
      ensures ok && NamesMatch(cluster.world) ==>
                forall d | d in cluster.world.dogus :: cluster.world.dogus[d].stopped && NoPodActive(cluster.world, d)
      ensures ok && NamesMatch(cluster.world) ==> PodsAreDone(cluster.world)
      ensures Quiet(cluster.net.faults, old(cluster.net.calls)) && !ok ==>
                exists spec :: spec in listed && (Unreachable(cluster.world, spec) || StillActive(cluster.world, spec))
    {
      listed := {};
      var list := cluster.List();
      if list.Err? {
        return false, listed;
      }
      listed := list.value;
      ok := StartStopAll(list.value, true);
      if ok {
        ok := AwaitAll(list.value);
      }
      DoneIff(cluster.world);
      hide PodsAreDone, NoPodActive;
      if ok && NamesMatch(cluster.world) {
        ListedMeansPresent(cluster.world, listed);
      }
    }

    /** Success means that every dogu that is still present is started, also one that was stopped before
        the migration. */
    method StartAll() returns (ok: bool, ghost listed: set<string>)
      modifies cluster`world, cluster.net
      ensures ok ==> forall spec | spec in listed :: FlagIs(cluster.world, spec, false)
      ensures ok ==> Covers(cluster.world, listed)
      ensures old(NamesMatch(cluster.world)) ==> NamesMatch(cluster.world)
      ensures ok && NamesMatch(cluster.world) ==> forall d | d in cluster.world.dogus :: !cluster.world.dogus[d].stopped
      ensures Quiet(cluster.net.faults, old(cluster.net.calls)) && !ok ==>
                exists spec :: spec in listed && Unreachable(cluster.world, spec)
    {
      listed := {};
      var list := cluster.List();
      if list.Err? {
        return false, listed;
      }
      listed := list.value;
      ok := StartStopAll(list.value, false);
      if ok && NamesMatch(cluster.world) {
        ListedMeansPresent(cluster.world, listed);
      }
    }
  }
}
