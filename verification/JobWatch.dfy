/** Waiting for the import job: the coordinator reads the events of a watch until one of them ends the wait. */
module JobWatch {
  import opened Kubernetes

  datatype Kind = Added | Modified | Deleted | Bookmark | Error

  /** What an event carries; anything but a job is unexpected. */
  datatype Payload = Job(name: string, succeeded: int, failed: int) | NotAJob

  datatype Event = Event(kind: Kind, payload: Payload)

  datatype Reason = WatchFailed | JobDeleted | UnexpectedObject | JobFailed

  /** The events the wait passes over: changes of the job itself that have neither succeeded nor failed. */
  predicate Passed(e: Event, jobName: string) {
    && e.kind != Error && e.kind != Deleted
    && e.payload.Job? && e.payload.name == jobName && e.payload.succeeded <= 0 && e.payload.failed <= 0
  }

  /** Position of the event that ends the wait; the length when the channel is closed before. */
  ghost predicate EndsAt(events: seq<Event>, jobName: string, k: nat) {
    && k <= |events|
    && (forall i | 0 <= i < k :: Passed(events[i], jobName))
    && (k < |events| ==> !Passed(events[k], jobName))
  }

  lemma EndIsUnique(events: seq<Event>, jobName: string, j: nat, k: nat)
    requires EndsAt(events, jobName, j) && EndsAt(events, jobName, k)
    ensures j == k
  {
  }

  /** The job itself, with a pod that finished successfully. */
  predicate ShowsSuccess(e: Event, jobName: string) {
    && e.kind != Error && e.kind != Deleted
    && e.payload.Job? && e.payload.name == jobName && e.payload.succeeded > 0
  }

  /** Failed pods and no successful one. */
  predicate ShowsFailure(e: Event, jobName: string) {
    && e.kind != Error && e.kind != Deleted
    && e.payload.Job? && e.payload.name == jobName && e.payload.succeeded <= 0 && e.payload.failed > 0
  }

  predicate IsForeign(e: Event, jobName: string) {
    e.kind != Error && e.kind != Deleted && e.payload.Job? && e.payload.name != jobName
  }

  /** Reads events until one ends the wait. `events` is what the channel yields until it is closed. */
  method WatchEvents(events: seq<Event>, jobName: string) returns (err: Option<Reason>, read: nat)
    ensures EndsAt(events, jobName, read)
    ensures err.None? <==> (read == |events| || ShowsSuccess(events[read], jobName) || IsForeign(events[read], jobName))
    ensures forall i | 0 <= i < read ::
              && events[i].kind != Error && events[i].kind != Deleted && events[i].payload.Job?
              && events[i].payload.name == jobName && events[i].payload.succeeded <= 0 && events[i].payload.failed <= 0
    ensures read < |events| && events[read].kind != Error && events[read].kind != Deleted && events[read].payload.Job? ==>
              && (err.None? <==> events[read].payload.name != jobName || events[read].payload.succeeded > 0)
              && (err == Some(JobFailed) <==> events[read].payload.name == jobName && events[read].payload.succeeded <= 0)
              && (events[read].payload.name == jobName ==> events[read].payload.succeeded > 0 || events[read].payload.failed > 0)
    ensures read < |events| ==>
              && (err == Some(WatchFailed) <==> events[read].kind == Error)
              && (err == Some(JobDeleted) <==> events[read].kind == Deleted)
              && (err == Some(UnexpectedObject) <==> events[read].kind !in {Error, Deleted} && events[read].payload.NotAJob?)
              && (err == Some(JobFailed) <==> ShowsFailure(events[read], jobName))
  {
    err, read := None, 0;
    while read < |events|
      invariant read <= |events| && err.None?
      invariant forall i | 0 <= i < read :: Passed(events[i], jobName)
    {
      var event := events[read];
      if event.kind == Error {
        err := Some(WatchFailed);
        break;
      }
      if event.kind == Deleted {
        err := Some(JobDeleted);
        break;
      }
      if event.payload.NotAJob? {
        err := Some(UnexpectedObject);
        break;
      }
      if event.payload.name != jobName {
        break;
      }
      if event.payload.succeeded > 0 {
        break;
      }
      if event.payload.failed > 0 {
        err := Some(JobFailed);
        break;
      }
      read := read + 1;
    }
  }

  // ---------- what a nil result is worth ----------

  /** The wait over `events` returns nil. */
  ghost predicate ReturnsNil(events: seq<Event>, jobName: string) {
    exists k: nat :: EndsAt(events, jobName, k) &&
      (k == |events| || ShowsSuccess(events[k], jobName) || IsForeign(events[k], jobName))
  }

  /** Some event showed that the job had succeeded, and none before it ended the wait. */
  ghost predicate SuccessWasSeen(events: seq<Event>, jobName: string) {
    exists k: nat :: k < |events| && EndsAt(events, jobName, k) && ShowsSuccess(events[k], jobName)
  }

  lemma {:induction false} EndExists(events: seq<Event>, jobName: string) returns (k: nat)
    ensures EndsAt(events, jobName, k)
  {
    if events == [] || !Passed(events[0], jobName) {
      k := 0;
    } else {
      k := EndExists(events[1..], jobName);
      k := k + 1;
      assert forall i | 1 <= i < k :: events[i] == events[1..][i - 1];
    }
  }

  /** A nil result proves nothing about the job exactly when the channel was closed early or another
      job's event came first. */
  lemma NilWithoutSuccessIff(events: seq<Event>, jobName: string)
    ensures ReturnsNil(events, jobName) && !SuccessWasSeen(events, jobName)
            <==> exists k: nat :: EndsAt(events, jobName, k) && (k == |events| || IsForeign(events[k], jobName))
  {
    var k := EndExists(events, jobName);
    forall j: nat | EndsAt(events, jobName, j) ensures j == k {
      EndIsUnique(events, jobName, j, k);
    }
  }

  /** Once ended, the wait ignores whatever follows. */
  lemma LaterEventsAreIgnored(events: seq<Event>, more: seq<Event>, jobName: string, k: nat)
    requires k < |events| && EndsAt(events, jobName, k)
    ensures EndsAt(events + more, jobName, k)
    ensures ReturnsNil(events + more, jobName) <==> ReturnsNil(events, jobName)
  {
    var all := events + more;
    assert forall i | 0 <= i < |events| :: all[i] == events[i];
    forall j: nat | EndsAt(events, jobName, j) ensures j == k { EndIsUnique(events, jobName, j, k); }
    forall j: nat | EndsAt(all, jobName, j) ensures j == k { EndIsUnique(all, jobName, j, k); }
  }

  /** With events of the job alone, in an order in which success and failure are never both shown and
      never withdrawn, a wait that is not cut short tells success from failure. */
  ghost predicate History(events: seq<Event>, jobName: string) {
    && (forall i | 0 <= i < |events| :: events[i].kind in {Added, Modified} && events[i].payload.Job?
                                        && events[i].payload.name == jobName)
    && (forall i, j | 0 <= i <= j < |events| && events[i].payload.succeeded > 0 ::
          events[j].payload.succeeded > 0 && events[j].payload.failed <= 0)
    && (forall i, j | 0 <= i <= j < |events| && events[i].payload.failed > 0 ::
          events[j].payload.failed > 0 && events[j].payload.succeeded <= 0)
  }

  /** Along such a history that reaches an end, nil is returned exactly when the job succeeded. */
  lemma NilIffTheJobSucceeded(events: seq<Event>, jobName: string)
    requires History(events, jobName) && events != []
    requires var last := events[|events| - 1].payload; last.succeeded > 0 || last.failed > 0
    ensures ReturnsNil(events, jobName) <==> events[|events| - 1].payload.succeeded > 0
  {
    var k := EndExists(events, jobName);
    forall j: nat | EndsAt(events, jobName, j) ensures j == k {
      EndIsUnique(events, jobName, j, k);
    }
    assert !Passed(events[|events| - 1], jobName);
  }
}
