/** Import of backup schedules: each one is deleted, awaited to be gone, and created anew. */
module BackupSchedules {
  import opened Kubernetes
  import opened GlobalConfigRepo

  datatype Event = Added(name: string) | Modified(name: string) | Deleted(name: string) | Foreign

  /** Schedules with their cron expression, those of them that are marked for deletion, and the history
      that feeds the watches. */
  datatype World = World(present: map<string, string>, terminating: set<string>, log: seq<Event>)

  /** What happens on its own when the importer is the only writer: marked schedules go away, which shows
      in the history; other schedules stay as they are. A history entry that says a schedule was deleted
      is followed by no other schedule of that name. */
  predicate Evolves(w: World, w': World) {
    && w.log <= w'.log
    && (forall n | n in w'.present :: n in w.present && w'.present[n] == w.present[n])
    && (forall n | n in w.present && n !in w'.present :: n in w.terminating)
    && w'.terminating <= w.terminating
    && (forall i | |w.log| <= i < |w'.log| && w'.log[i].Deleted? :: w'.log[i].name !in w'.present)
  }

  lemma EvolvesTransitive(a: World, b: World, c: World)
    requires Evolves(a, b) && Evolves(b, c)
    ensures Evolves(a, c)
  {
    forall i | |a.log| <= i < |c.log| && c.log[i].Deleted? ensures c.log[i].name !in c.present {
      if i < |b.log| {
        assert c.log[i] == b.log[i];
      }
    }
  }

  class Client {
    const net: Network
    var world: World

    constructor (net: Network, world: World)
      ensures this.net == net && this.world == world
    {
      this.net, this.world := net, world;
    }

    method Elapse()
      modifies `world
      ensures Evolves(old(world), world)
    {
      assert Evolves(world, world);
      var next :| Evolves(world, next);
      world := next;
    }

    /** A watch sees the history from here on. NotFound means that the API is not available. */
    method Watch() returns (r: Result<nat>)
      modifies net, `world
      ensures net.calls == old(net.calls) + 1
      ensures Evolves(old(world), world)
      ensures r == if net.faults(old(net.calls)).Injected? then Err(net.faults(old(net.calls)).error) else Ok(|world.log|)
    {
      Elapse();
      var f := net.Next();
      r := if f.Injected? then Err(f.error) else Ok(|world.log|);
    }

    /** Marks the schedule for deletion; it may be gone at once or later. */
    method Delete(name: string) returns (r: Result<()>)
      modifies net, `world
      ensures net.calls == old(net.calls) + 1
      ensures Evolves(Mark(old(world), name), world)
      ensures r == Err(NotFound) ==> name !in world.present
      ensures net.faults(old(net.calls)).NoFault? ==> r == if name in old(world).present then Ok(()) else Err(NotFound)
      ensures var f := net.faults(old(net.calls)); f.Injected? ==> r.Err? && (f.error != NotFound ==> r.error == f.error)
    {
      var f := net.Next();
      if name !in world.present {
        Elapse();
        return Err(if f.Injected? then f.error else NotFound);
      }
      if f.NoFault? || f.effective {
        world := Mark(world, name);
      }
      ghost var marked := world;
      Elapse();
      r := if f.NoFault? then Ok(()) else Err(if f.error == NotFound then Other else f.error);
    }

    method Create(name: string, cron: string) returns (r: Result<()>)
      modifies net, `world
      ensures net.calls == old(net.calls) + 1
      ensures Evolves(old(world), world) ||
              (name !in old(world).present && Evolves(With(old(world), name, cron), world))
      ensures r.Ok? ==> name !in old(world).present && Evolves(With(old(world), name, cron), world)
      ensures net.faults(old(net.calls)).NoFault? && name !in old(world).present ==> r.Ok?
    {
      var f := net.Next();
      var possible := name !in world.present;
      if possible && (f.NoFault? || f.effective) {
        world := With(world, name, cron);
      }
      Elapse();
      r := if f.Injected? then Err(f.error) else if possible then Ok(()) else Err(AlreadyExists);
    }
  }

  function Mark(w: World, name: string): World {
    w.(terminating := w.terminating + {name})
  }

  function With(w: World, name: string, cron: string): World {
    w.(present := w.present[name := cron], terminating := w.terminating - {name}, log := w.log + [Added(name)])
  }

  datatype Schedule = Schedule(name: string, cron: string)

  /** Entry `i` is the last one of its name among the first `n`. */
  ghost predicate IsLast(config: seq<Schedule>, n: nat, i: int)
    requires n <= |config|
  {
    0 <= i < n && forall j | i < j < n :: config[j].name != config[i].name
  }

  /** The history says from `from` to before `until` that the schedule was deleted. */
  ghost predicate ShowsUp(name: string, log: seq<Event>, from: nat, until: nat) {
    exists i :: from <= i < until && i < |log| && log[i] == Deleted(name)
  }

  /** The call was answered as if there were no such API. */
  predicate Unavailable(f: Fault) {
    f.Injected? && f.error == NotFound
  }

  /** The first `n` entries were deleted, in order, and nothing else. */
  ghost predicate Attempted(config: seq<Schedule>, n: nat, before: seq<(string, bool)>, after: seq<(string, bool)>)
    requires n <= |config|
  {
    && |after| == |before| + n && before <= after
    && forall i | 0 <= i < n :: after[|before| + i].0 == config[i].name
  }

  class Importer {
    const client: Client
    /** How often the event loop that begins after so many API calls turns before its watch times out. */
    const patience: nat -> nat
    /** The calls of Delete so far, and whether each one succeeded. */
    ghost var deletes: seq<(string, bool)>

    constructor (client: Client, patience: nat -> nat)
      ensures this.client == client && this.patience == patience
    {
      this.client, this.patience, deletes := client, patience, [];
    }

    /** None means that the schedule is gone. */
    method Delete(name: string) returns (err: Option<ApiError>)
      modifies this`deletes, client`world, client.net
      ensures deletes == old(deletes) + [(name, err.None?)]
      ensures Evolves(Mark(old(client.world), name), client.world)
      ensures err.None? ==> name !in client.world.present
      ensures old(client.net.calls) < client.net.calls
      ensures err == Some(NotFound) <==> Unavailable(client.net.faults(old(client.net.calls)))
      ensures Quiet(client.net.faults, old(client.net.calls)) && name !in old(client.world).present ==> err.None?
    {
      ghost var accepted, from, log;
      err, accepted, from, log := DeleteAndWait(name);
      deletes := deletes + [(name, err.None?)];
    }

    /** `from` is where the watch began in the history; `log` is the history when the server had answered
        the deletion, which it accepted or not. */
    method DeleteAndWait(name: string) returns (err: Option<ApiError>, ghost accepted: bool, ghost from: nat, ghost log: seq<Event>)
      modifies client`world, client.net
      ensures Evolves(Mark(old(client.world), name), client.world)
      ensures err.None? ==> name !in client.world.present
      ensures old(client.net.calls) < client.net.calls
      ensures |old(client.world).log| <= from <= |log| && log <= client.world.log
      ensures err == Some(NotFound) <==> Unavailable(client.net.faults(old(client.net.calls)))
      ensures var f := client.net.faults(old(client.net.calls)); f.Injected? ==> err == Some(f.error)
      ensures var f, g := client.net.faults(old(client.net.calls)), client.net.faults(old(client.net.calls) + 1);
              f.NoFault? && g.Injected? && g.error != NotFound ==> err == Some(g.error)
      ensures accepted && err.None? ==> ShowsUp(name, client.world.log, from, from + patience(client.net.calls))
      ensures accepted && ShowsUp(name, log, from, from + patience(client.net.calls)) ==> err.None?
      ensures Quiet(client.net.faults, old(client.net.calls)) ==> accepted || (err.None? && name !in client.world.present)
      ensures Quiet(client.net.faults, old(client.net.calls)) && name !in old(client.world).present ==> err.None?
    {
      ghost var start := Mark(client.world, name);
      var watch := client.Watch();
      accepted, from, log := false, |client.world.log|, client.world.log;
      assert Evolves(start, Mark(client.world, name));
      if watch.Err? {
        assert Evolves(start, client.world);
        return Some(watch.error), accepted, from, log;
      }
      ghost var before := Mark(client.world, name);
      var deleted := client.Delete(name);
      EvolvesTransitive(start, before, client.world);
      log := client.world.log;
      if deleted.Err? {
        if deleted.error == NotFound {
          return None, accepted, from, log;
        }
        return Some(deleted.error), accepted, from, log;
      }
      accepted := true;
      err := Await(name, watch.value, start);
    }

    /** The event loop of the watch that began at `watch`. */
    method Await(name: string, watch: nat, ghost start: World) returns (err: Option<ApiError>)
      requires watch <= |client.world.log| && Evolves(start, client.world)
      requires forall i | watch <= i < |client.world.log| && client.world.log[i] == Deleted(name) :: name !in client.world.present
      modifies client`world
      ensures Evolves(start, client.world) && old(client.world).log <= client.world.log
      ensures err.None? ==> name !in client.world.present && ShowsUp(name, client.world.log, watch, watch + patience(client.net.calls))
      ensures ShowsUp(name, old(client.world).log, watch, watch + patience(client.net.calls)) ==> err.None?
      ensures err.None? || err == Some(Other)
    {
      ghost var log := client.world.log;
      var cursor := watch;
      for turn := 0 to patience(client.net.calls)
        invariant Evolves(start, client.world) && log <= client.world.log
        invariant watch <= cursor <= |client.world.log| && cursor <= watch + turn && (cursor == watch + turn || |log| <= cursor)
        invariant !ShowsUp(name, client.world.log, watch, cursor)
        invariant forall i | watch <= i < |client.world.log| && client.world.log[i] == Deleted(name) :: name !in client.world.present
      {
        ghost var w := client.world;
        client.Elapse();
        EvolvesTransitive(start, w, client.world);
        assert log <= w.log <= client.world.log;
        if cursor < |client.world.log| {
          var event := client.world.log[cursor];
          cursor := cursor + 1;
          if event == Deleted(name) {
            return None;
          }
        }
      }
      err := Some(Other);
    }

    lemma OthersStay(w: World, w': World, name: string, cron: string)
      requires Evolves(Mark(w, name), w') || Evolves(w, w') || Evolves(With(w, name, cron), w')
      ensures OthersKept(w, w', name)
    {
    }

    /** The body of the import loop. */
    method ImportOne(schedule: Schedule) returns (r: OneResult)
      modifies this`deletes, client`world, client.net
      ensures deletes == old(deletes) + [(schedule.name, r == Created || r == CreateFailed)]
      ensures OthersKept(old(client.world), client.world, schedule.name)
      ensures r == Created ==> Settled(client.world, schedule)
      ensures r == ApiUnavailable <==> Unavailable(client.net.faults(old(client.net.calls)))
      ensures old(client.net.calls) < client.net.calls
      ensures Quiet(client.net.faults, old(client.net.calls)) ==> r == Created || (r == DeleteFailed && schedule.name in old(client.world).present)
    {
      ghost var w0 := client.world;
      var err := Delete(schedule.name);
      ghost var w1 := client.world;
      OthersStay(w0, w1, schedule.name, schedule.cron);
      if err == Some(NotFound) {
        return ApiUnavailable;
      }
      if err.Some? {
        return DeleteFailed;
      }
      var created := client.Create(schedule.name, schedule.cron);
      OthersStay(w1, client.world, schedule.name, schedule.cron);
      r := if created.Ok? then Created else CreateFailed;
    }

    /** Unless the API was not available, success means that every schedule whose last delete succeeded is
        there with its last cron expression. Schedules that are not imported stay as they were. */
    method ImportBackupSchedules(config: seq<Schedule>) returns (ok: bool, ghost skipped: bool)
      modifies this`deletes, client`world, client.net
      ensures ok && !skipped ==>
                && Attempted(config, |config|, old(deletes), deletes)
                && LastSettled(config, |config|, client.world, |old(deletes)|, deletes)
      ensures UnlistedKept(config, old(client.world), client.world)
      ensures !ok ==> deletes != [] && deletes[|deletes| - 1].1
      ensures skipped ==> ok && deletes != [] && !deletes[|deletes| - 1].1
      ensures skipped ==> exists i: nat | i >= old(client.net.calls) :: Unavailable(client.net.faults(i))
      ensures Quiet(client.net.faults, old(client.net.calls)) ==> ok && !skipped
    {
      assert UnlistedKept(config, client.world, client.world);
      hide Settled, Kept;
      skipped := false;
      ghost var start := |deletes|;
      for i := 0 to |config|
        invariant Attempted(config, i, old(deletes), deletes) && |old(deletes)| == start
        invariant LastSettled(config, i, client.world, start, deletes)
        invariant UnlistedKept(config, old(client.world), client.world) && old(client.net.calls) <= client.net.calls
      {
        ghost var w, log := client.world, deletes;
        var r := ImportOne(config[i]);
        NextUnlisted(config, i, old(client.world), w, client.world);
        if r == ApiUnavailable {
          skipped := true;
          return true, skipped;
        }
        if r == CreateFailed {
          return false, skipped;
        }
        NextEntry(config, i, w, client.world, start, log, deletes);
      }
      ok := true;
    }
  }

  /** Each of the first `n` entries that is the last one of its name, and was deleted, is there. */
  ghost predicate LastSettled(config: seq<Schedule>, n: nat, w: World, start: nat, deletes: seq<(string, bool)>)
    requires n <= |config| && start + n <= |deletes|
  {
    forall i | IsLast(config, n, i) && deletes[start + i].1 :: Settled(w, config[i])
  }

  ghost predicate UnlistedKept(config: seq<Schedule>, w: World, w': World) {
    forall n | n !in w.terminating && (forall s | s in config :: s.name != n) :: Kept(w, w', n)
  }

  /** Importing entry `i` leaves the earlier ones that are still the last of their name settled. */
  lemma NextEntry(config: seq<Schedule>, i: nat, w: World, w': World, start: nat, log: seq<(string, bool)>, deletes: seq<(string, bool)>)
    requires i < |config| && OthersKept(w, w', config[i].name)
    requires |log| == start + i && |deletes| == |log| + 1 && log <= deletes
    requires LastSettled(config, i, w, start, log)
    requires deletes[start + i].1 ==> Settled(w', config[i])
    ensures LastSettled(config, i + 1, w', start, deletes)
  {
    forall j | IsLast(config, i + 1, j) && deletes[start + j].1 ensures Settled(w', config[j]) {
      if j < i {
        assert IsLast(config, i, j) && config[j].name != config[i].name;
        assert log[start + j].1;
        assert Kept(w, w', config[j].name);
      }
    }
  }

  lemma NextUnlisted(config: seq<Schedule>, i: nat, w: World, w1: World, w2: World)
    requires i < |config| && OthersKept(w1, w2, config[i].name) && UnlistedKept(config, w, w1)
    ensures UnlistedKept(config, w, w2)
  {
    assert config[i] in config;
    forall n | n !in w.terminating && (forall s | s in config :: s.name != n) ensures Kept(w, w2, n) {
      assert Kept(w, w1, n) && Kept(w1, w2, n);
    }
  }

  datatype OneResult = ApiUnavailable | DeleteFailed | CreateFailed | Created

  /** The schedule is there and nobody is about to remove it. */
  predicate Settled(w: World, s: Schedule) {
    s.name in w.present && w.present[s.name] == s.cron && s.name !in w.terminating
  }

  predicate Kept(w: World, w': World, n: string) {
    && n !in w'.terminating
    && (n in w'.present <==> n in w.present)
    && (n in w.present ==> w'.present[n] == w.present[n])
  }

  ghost predicate OthersKept(w: World, w': World, name: string) {
    forall n | n != name && n !in w.terminating :: Kept(w, w', n)
  }
}
