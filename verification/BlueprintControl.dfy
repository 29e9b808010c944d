/** Stopping and restarting blueprints around a migration, with bookkeeping that outlives failed runs. */
module BlueprintControl {
  import opened Kubernetes
  import opened GlobalConfigRepo

  /** spec.stopped is optional; a missing flag counts as false. */
  predicate Stopped(flag: Option<bool>) {
    flag == Some(true)
  }

  /** A read does not answer NotFound for an object that exists. */
  function Genuine(e: ApiError): ApiError {
    if e == NotFound then Other else e
  }

  /** Blueprints behind the API server. Before every call other parties may have deleted some. */
  class BlueprintClient {
    const net: Network
    const deletions: nat -> set<string>
    var flags: map<string, Option<bool>>

    constructor (net: Network, deletions: nat -> set<string>, flags: map<string, Option<bool>>)
      ensures this.net == net && this.deletions == deletions && this.flags == flags
    {
      this.net, this.deletions, this.flags := net, deletions, flags;
    }

    method List() returns (r: Result<set<string>>)
      modifies net, `flags
      ensures net.calls == old(net.calls) + 1
      ensures flags == old(flags) - deletions(old(net.calls))
      ensures r.Ok? ==> r.value == flags.Keys
      ensures net.faults(old(net.calls)).NoFault? ==> r.Ok?
    {
      flags := flags - deletions(net.calls);
      var f := net.Next();
      r := if f.Injected? then Err(f.error) else Ok(flags.Keys);
    }

    method Get(name: string) returns (r: Result<Option<bool>>)
      modifies net, `flags
      ensures net.calls == old(net.calls) + 1
      ensures flags == old(flags) - deletions(old(net.calls))
      ensures r.Ok? ==> name in flags && r.value == flags[name]
      ensures r == Err(NotFound) ==> name !in flags
      ensures net.faults(old(net.calls)).NoFault? && name in flags ==> r.Ok?
      ensures net.faults(old(net.calls)).NoFault? && r.Err? ==> r.error == NotFound
    {
      flags := flags - deletions(net.calls);
      var f := net.Next();
      r := if name !in flags then Err(if f.Injected? then f.error else NotFound)
           else if f.Injected? then Err(Genuine(f.error))
           else Ok(flags[name]);
    }

    /** Merges the flag into the blueprint. */
    method Patch(name: string, stopped: bool) returns (r: Result<()>)
      modifies net, `flags
      ensures net.calls == old(net.calls) + 1
      ensures var left := old(flags) - deletions(old(net.calls));
              && (flags == left || (name in left && flags == left[name := Some(stopped)]))
              && (r.Ok? ==> name in left && flags == left[name := Some(stopped)])
              && (name in left && net.faults(old(net.calls)).NoFault? ==> r.Ok?)
              && (r.Err? && flags != left ==> net.faults(old(net.calls)).Injected? && net.faults(old(net.calls)).effective)
    {
      flags := flags - deletions(net.calls);
      var f := net.Next();
      var possible := name in flags;
      if possible && (f.NoFault? || f.effective) {
        flags := flags[name := Some(stopped)];
      }
      r := if f.Injected? then Err(f.error) else if possible then Ok(()) else Err(NotFound);
    }
  }

  /** No failed call takes effect. */
  ghost predicate FailuresAreClean(faults: nat -> Fault) {
    forall i: nat :: faults(i).Injected? ==> !faults(i).effective
  }

  /** From now on nothing fails and nobody deletes anything. */
  ghost predicate Undisturbed(cli: BlueprintClient)
    reads cli, cli.net
  {
    Quiet(cli.net.faults, cli.net.calls) && forall i: nat | cli.net.calls <= i :: cli.deletions(i) == {}
  }

  /** Only blueprints that were running are added to the list. */
  ghost predicate NotedDown(before: seq<string>, after: seq<string>, flags: map<string, Option<bool>>) {
    && before <= after
    && forall i | |before| <= i < |after| :: after[i] in flags && !Stopped(flags[after[i]])
  }

  lemma NoteOne(before: seq<string>, now: seq<string>, after: seq<string>, name: string, flags: map<string, Option<bool>>)
    requires NotedDown(before, now, flags)
    requires after == now || (after == now + [name] && name in flags && !Stopped(flags[name]))
    ensures NotedDown(before, after, flags)
  {
  }

  /** The blueprints that remain are as before; the other ones are stopped. */
  ghost predicate Progress(before: map<string, Option<bool>>, now: map<string, Option<bool>>, remaining: set<string>) {
    && (forall b | b in now && b in remaining :: b in before && now[b] == before[b])
    && (forall b | b in now && b !in remaining :: Stopped(now[b]))
  }

  lemma StillAsBefore(before: map<string, Option<bool>>, now: map<string, Option<bool>>, remaining: set<string>, name: string)
    requires Progress(before, now, remaining) && name in remaining
    ensures name in now ==> name in before && now[name] == before[name]
  {
  }

  lemma NextStopped(before: map<string, Option<bool>>, now: map<string, Option<bool>>, after: map<string, Option<bool>>,
                    remaining: set<string>, name: string)
    requires Progress(before, now, remaining)
    requires after.Keys <= now.Keys && forall b | b in after && b != name :: after[b] == now[b]
    requires name in after ==> Stopped(after[name])
    ensures Progress(before, after, remaining - {name})
  {
  }

  lemma AllStopped(before: map<string, Option<bool>>, now: map<string, Option<bool>>)
    requires Progress(before, now, {})
    ensures forall b | b in now :: Stopped(now[b])
  {
  }

  class Control {
    const cli: BlueprintClient
    var stoppedBlueprints: seq<string>

    /** Whether the owner wants a blueprint stopped, for every blueprint that exists or existed. */
    ghost const original: map<string, bool>
    /** Blueprints that were stopped by a patch that reported a failure and so was not noted down. */
    ghost var lost: set<string>

    constructor (cli: BlueprintClient)
      ensures Valid() && this.cli == cli && stoppedBlueprints == [] && lost == {}
      ensures original == map b | b in cli.flags :: cli.flags[b] == Some(true)
    {
      this.cli, stoppedBlueprints, lost := cli, [], {};
      original := map b | b in cli.flags :: Stopped(cli.flags[b]);
    }

    ghost predicate Valid()
      reads this, cli
    {
      && (forall b | b in cli.flags :: b in original)
      && (forall b | b in cli.flags && original[b] :: Stopped(cli.flags[b]))
      && (forall b | b in cli.flags && Stopped(cli.flags[b]) && !original[b] :: b in stoppedBlueprints || b in lost)
      && (forall b | b in stoppedBlueprints || b in lost :: b in original && !original[b])
      && (forall b | b in lost && b in cli.flags :: Stopped(cli.flags[b]) && b !in stoppedBlueprints)
    }

    /** Does nothing when the blueprint is gone or already as desired. */
    method StartStop(name: string, shouldStop: bool) returns (changed: bool, err: Option<ApiError>)
      modifies cli`flags, cli.net
      ensures cli.flags.Keys <= old(cli.flags).Keys
      ensures forall b | b in cli.flags && b != name :: cli.flags[b] == old(cli.flags)[b]
      ensures name in cli.flags && cli.flags[name] != old(cli.flags)[name] ==>
                Stopped(old(cli.flags)[name]) != shouldStop && cli.flags[name] == Some(shouldStop)
      ensures changed ==> err.None? && name in old(cli.flags) && (old(cli.flags)[name] == Some(true) <==> !shouldStop)
      ensures err.None? && name in cli.flags ==> (cli.flags[name] == Some(true) <==> shouldStop)
      ensures err.None? && !changed && name in cli.flags ==> cli.flags[name] == old(cli.flags)[name]
      ensures FailuresAreClean(cli.net.faults) && err.Some? && name in cli.flags ==> cli.flags[name] == old(cli.flags)[name]
      ensures old(Undisturbed(cli)) ==> Undisturbed(cli) && err.None? && cli.flags.Keys == old(cli.flags).Keys
    {
      var blueprint := cli.Get(name);
      if blueprint.Err? {
        if blueprint.error == NotFound {
          return false, None;
        }
        return false, Some(blueprint.error);
      }
      if Stopped(blueprint.value) == shouldStop {
        return false, None;
      }
      var patched := cli.Patch(name, shouldStop);
      if patched.Err? {
        return false, Some(patched.error);
      }
      return true, None;
    }

    /** Stops one listed blueprint and notes it down if that changed it. */
    method StopListed(name: string) returns (err: Option<ApiError>)
      requires Valid()
      modifies this, cli`flags, cli.net
      ensures Valid()
      ensures cli.flags.Keys <= old(cli.flags).Keys
      ensures forall b | b in cli.flags && b != name :: cli.flags[b] == old(cli.flags)[b]
      ensures err.None? && name in cli.flags ==> Stopped(cli.flags[name])
      ensures || stoppedBlueprints == old(stoppedBlueprints)
              || (&& stoppedBlueprints == old(stoppedBlueprints) + [name]
                  && name in old(cli.flags) && !Stopped(old(cli.flags)[name]))
      ensures lost == old(lost) || (lost == old(lost) + {name} && !FailuresAreClean(cli.net.faults))
      ensures name !in old(lost) ==>
                (name in lost <==>
                   && err.Some? && name in old(cli.flags) && !Stopped(old(cli.flags)[name])
                   && name in cli.flags && Stopped(cli.flags[name]) && name !in stoppedBlueprints)
      ensures old(Undisturbed(cli)) ==> Undisturbed(cli) && err.None? && cli.flags.Keys == old(cli.flags).Keys
    {
      var changed, failed := StartStop(name, true);
      if failed.Some? {
        if name in cli.flags && Stopped(cli.flags[name]) && !original[name] && name !in stoppedBlueprints {
          if name !in lost {
            lost := lost + {name};
          }
        }
        return failed;
      }
      if changed {
        stoppedBlueprints := stoppedBlueprints + [name];
      }
      err := None;
    }

    /** The loop over the listed blueprints. */
    method StopEach(list: set<string>) returns (err: Option<ApiError>)
      requires Valid() && cli.flags.Keys <= list
      modifies this, cli`flags, cli.net
      ensures Valid()
      ensures NotedDown(old(stoppedBlueprints), stoppedBlueprints, old(cli.flags)) && old(lost) <= lost
      ensures FailuresAreClean(cli.net.faults) ==> lost == old(lost)
      ensures err.None? ==> forall b | b in cli.flags :: cli.flags[b] == Some(true)
      ensures cli.flags.Keys <= old(cli.flags).Keys
      ensures old(Undisturbed(cli)) ==> Undisturbed(cli) && err.None? && cli.flags.Keys == old(cli.flags).Keys
      ensures old(Undisturbed(cli)) ==> lost == old(lost)
    {
      assert NotedDown(stoppedBlueprints, stoppedBlueprints, cli.flags) && Progress(cli.flags, cli.flags, list);
      hide Valid, FailuresAreClean, NotedDown, Undisturbed, Stopped, Progress;
      var remaining := list;
      while remaining != {}
        invariant Valid()
        invariant old(Undisturbed(cli)) ==> Undisturbed(cli) && cli.flags.Keys == old(cli.flags).Keys && lost == old(lost)
        invariant cli.flags.Keys <= old(cli.flags).Keys
        invariant NotedDown(old(stoppedBlueprints), stoppedBlueprints, old(cli.flags)) && old(lost) <= lost
        invariant FailuresAreClean(cli.net.faults) ==> lost == old(lost)
        invariant Progress(old(cli.flags), cli.flags, remaining)
        decreases remaining
      {
        var name :| name in remaining;
        ghost var before, flags, todo := stoppedBlueprints, cli.flags, remaining;
        remaining := remaining - {name};
        var failed := StopListed(name);
        StillAsBefore(old(cli.flags), flags, todo, name);
        NoteOne(old(stoppedBlueprints), before, stoppedBlueprints, name, old(cli.flags));
        if failed.Some? {
          return failed;
        }
        NextStopped(old(cli.flags), flags, cli.flags, todo, name);
      }
      AllStopped(old(cli.flags), cli.flags);
      err := None;
    }

    /** Stops every listed blueprint and notes down the ones it changed. Success means every blueprint that
        still exists is stopped. */
    method StopBlueprint() returns (err: Option<ApiError>)
      requires Valid()
      modifies this, cli`flags, cli.net
      ensures Valid()
      ensures NotedDown(old(stoppedBlueprints), stoppedBlueprints, old(cli.flags)) && old(lost) <= lost
      ensures FailuresAreClean(cli.net.faults) ==> lost == old(lost)
      ensures err.None? ==> forall b | b in cli.flags :: cli.flags[b] == Some(true)
      ensures cli.flags.Keys <= old(cli.flags).Keys
      ensures forall b | b in cli.flags && old(cli.flags)[b] != Some(true) && cli.flags[b] == Some(true) ::
                b in stoppedBlueprints || b in lost
      ensures old(Undisturbed(cli)) ==> Undisturbed(cli) && err.None? && cli.flags.Keys == old(cli.flags).Keys
      ensures old(Undisturbed(cli)) ==> lost == old(lost)
    {
      var list := cli.List();
      if list.Err? {
        return Some(list.error);
      }
      err := StopEach(list.value);
    }

    /** Starts every noted blueprint. Success means that every existing blueprint is as its owner wants it,
        except exactly the lost ones. */
    method StartBlueprint() returns (err: Option<ApiError>)
      requires Valid()
      modifies this, cli`flags, cli.net
      ensures Valid() && lost == old(lost)
      ensures err.None? ==> stoppedBlueprints == []
      ensures err.Some? ==> stoppedBlueprints == old(stoppedBlueprints)
      ensures err.None? ==> forall b | b in cli.flags :: (cli.flags[b] == Some(true) <==> original[b]) <==> b !in lost
      ensures old(Undisturbed(cli)) ==> Undisturbed(cli) && err.None? && cli.flags.Keys == old(cli.flags).Keys
    {
      for i := 0 to |stoppedBlueprints|
        invariant Valid() && lost == old(lost) && stoppedBlueprints == old(stoppedBlueprints)
        invariant old(Undisturbed(cli)) ==> Undisturbed(cli) && cli.flags.Keys == old(cli.flags).Keys
        invariant forall j | 0 <= j < i && stoppedBlueprints[j] in cli.flags :: !Stopped(cli.flags[stoppedBlueprints[j]])
      {
        var changed, failed := StartStop(stoppedBlueprints[i], false);
        if failed.Some? {
          return failed;
        }
      }
      stoppedBlueprints := [];
      err := None;
    }
  }
}
