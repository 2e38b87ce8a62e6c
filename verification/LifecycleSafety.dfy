/** What every step of every interleaving keeps: the lister, the tracker and the listener
    manager of a daemon agree on which containers are registered, active, announced and
    about to be forgotten. */
module LifecycleSafety {
  import opened Registry
  import opened ListenerManager
  import opened ContainerTracker
  import opened Lifecycle

  // Announced, but its task is not created yet.
  function Pending(d: Daemon): seq<ContainerRef> {
    match d.updater
    case Resting => []
    case Dispatching(queue) => queue
    case AwaitingPermit(ref, queue) => [ref] + queue
    case Admitted(ref, queue) => [ref] + queue
    case Leaving(queue) => queue
    case Aborted => []
  }

  // In the tracker's hands during this pass.
  function Handled(d: Daemon): seq<string> {
    match d.tracker
    case Scanning(todo) => todo
    case Reporting(id, todo) => [id] + todo
    case AwaitingStop(id, _, todo) => [id] + todo
    case _ => []
  }

  ghost predicate QueueCoherent(d: Daemon) {
    var pending := Pending(d);
    && (d.updater.Dispatching? ==> d.updater.queue != [])
    && DistinctIds(pending)
    && (forall i :: 0 <= i < |pending| ==>
          && pending[i].containerId in d.view.containers
          && pending[i].containerId !in d.tasks
          && pending[i].containerId !in Handled(d))
  }

  ghost predicate TrackerCoherent(d: Daemon) {
    var handled := Handled(d);
    && (forall i, j :: 0 <= i < j < |handled| ==> handled[i] != handled[j])
    && (forall id :: id in handled ==> id in d.view.containers)
    && (d.tracker.AwaitingStop? ==>
          && d.tracker.id !in d.tasks
          && d.tracker.task in d.jobs
          && d.jobs[d.tracker.task].containerId == d.tracker.id)
  }

  // Stored in `_tasks` under its id, or the task `stop` is waiting for.
  ghost predicate Owned(d: Daemon, task: TaskId)
    requires task in d.jobs
  {
    var id := d.jobs[task].containerId;
    || (id in d.tasks && d.tasks[id] == task)
    || (d.tracker.AwaitingStop? && d.tracker.id == id && d.tracker.task == task)
  }

  ghost predicate JobsCoherent(d: Daemon) {
    && d.tasks.Keys <= d.view.containers.Keys
    && (forall id :: id in d.tasks ==>
          && d.tasks[id] in d.jobs
          && d.jobs[d.tasks[id]].containerId == id
          && !d.jobs[d.tasks[id]].notified)
    && (forall task :: task in d.jobs ==>
          && task < d.nextTask
          && (d.jobs[task].outcome.Unfinished? ==> !d.jobs[task].notified && Owned(d, task)))
  }

  ghost predicate Coherent(d: Daemon) {
    QueueCoherent(d) && TrackerCoherent(d) && JobsCoherent(d)
  }

  lemma ListingKeepsCoherent(d: Daemon, listing: seq<ContainerRef>)
    requires Coherent(d) && d.updater.Resting?
    ensures Coherent(OnListing(d, listing))
  {
    var e := OnListing(d, listing);
    assert d.view.containers.Keys <= e.view.containers.Keys by {
      RecordedMeaning(d.view.containers, listing, d.view.listingSeq + 1);
    }
    assert Handled(e) == Handled(d);
    assert forall task :: task in d.jobs && Owned(d, task) ==> Owned(e, task);
    ListingQueues(d, listing);
  }

  lemma ListingQueues(d: Daemon, listing: seq<ContainerRef>)
    requires Coherent(d) && d.updater.Resting?
    ensures QueueCoherent(OnListing(d, listing))
  {
    var e := OnListing(d, listing);
    var refs := NewRefs(d.view.containers, listing);
    assert Pending(e) == refs && Handled(e) == Handled(d);
    assert e.view.containers.Keys == d.view.containers.Keys + Ids(listing) by {
      RecordedMeaning(d.view.containers, listing, d.view.listingSeq + 1);
    }
    assert DistinctIds(refs) && Ids(refs) == Ids(listing) - d.view.containers.Keys by {
      NewRefsMeaning(d.view.containers, listing);
    }
    forall i | 0 <= i < |refs|
      ensures refs[i].containerId in e.view.containers
      ensures refs[i].containerId !in e.tasks && refs[i].containerId !in Handled(e)
    {
      assert refs[i].containerId in Ids(refs);
      assert refs[i].containerId !in d.view.containers;
    }
  }

  // The first check of `spawn` never finds a task.
  lemma SpawnKeepsCoherent(d: Daemon, a: Act)
    requires Coherent(d) && CanStep(d, a)
    requires a.SpawnChecks? || a.SpawnAcquires? || a.SpawnReleases?
    ensures Coherent(DaemonStep(d, 0, a)) && Pending(DaemonStep(d, 0, a)) == Pending(d)
    ensures a.SpawnChecks? ==> d.updater.queue[0].containerId !in d.tasks
  {
    var e := DaemonStep(d, 0, a);
    assert a.SpawnChecks? ==> Pending(d)[0] == d.updater.queue[0];
    assert Pending(e) == Pending(d) && Handled(e) == Handled(d);
    assert forall task :: task in d.jobs && Owned(d, task) ==> Owned(e, task);
  }

  // Nor does the re-check, so a task is created.
  lemma CreationKeepsCoherent(d: Daemon)
    requires Coherent(d) && d.updater.Admitted?
    ensures Coherent(OnSpawnRecheck(d))
    ensures d.updater.ref.containerId !in d.tasks
  {
    var e := OnSpawnRecheck(d);
    var pending := Pending(d);
    assert pending[0] == d.updater.ref;
    assert Pending(e) == pending[1..];
    forall task | task in d.jobs && d.jobs[task].outcome.Unfinished?
      ensures Owned(e, task)
    {
      assert Owned(d, task);
    }
  }

  lemma PassStartKeepsCoherent(d: Daemon, order: seq<string>)
    requires Coherent(d) && d.tracker.Sleeping? && Enumerates(order, d.tasks.Keys)
    ensures Coherent(d.(tracker := Scanning(order)))
  {
    var e := d.(tracker := Scanning(order));
    assert Pending(e) == Pending(d) && Handled(e) == order;
    assert forall task :: task in d.jobs && Owned(d, task) ==> Owned(e, task);
  }

  lemma PassCheckKeepsCoherent(d: Daemon, threshold: int)
    requires Coherent(d) && d.tracker.Scanning?
    ensures Coherent(OnPassCheck(d, threshold))
    ensures d.tracker.todo != [] ==> d.tracker.todo[0] in d.view.containers
  {
    var e, handled := OnPassCheck(d, threshold), Handled(d);
    assert Pending(e) == Pending(d);
    assert handled != [] ==> handled[0] in handled && (Handled(e) == handled || Handled(e) == handled[1..]);
    assert forall task :: task in d.jobs && Owned(d, task) ==> Owned(e, task);
  }

  // Forgetting the id at the head of the tracker's list, once it has no task left.
  lemma ForgetKeepsCoherent(d: Daemon, id: string, todo: seq<string>)
    requires Coherent(d) && Handled(d) == [id] + todo && id !in d.tasks
    requires d.tracker.AwaitingStop? ==> !d.jobs[d.tracker.task].outcome.Unfinished?
    ensures Coherent(OnForget(d, id, todo))
  {
    var e := OnForget(d, id, todo);
    var handled := Handled(d);
    assert Pending(e) == Pending(d);
    assert Handled(e) == todo && handled[1..] == todo && handled[0] == id;
    assert forall i :: 0 <= i < |todo| ==> todo[i] == handled[i + 1];
    assert id in handled;
    forall task | task in d.jobs && d.jobs[task].outcome.Unfinished?
      ensures Owned(e, task)
    {
      assert Owned(d, task);
    }
  }

  lemma StopKeepsCoherent(d: Daemon, threshold: int, a: Act)
    requires Coherent(d) && CanStep(d, a) && (a.StopPops? || a.StopReturns?)
    ensures Coherent(DaemonStep(d, threshold, a))
  {
    var e := DaemonStep(d, threshold, a);
    assert Handled(d) == [d.tracker.id] + d.tracker.todo;
    if e.tracker.Scanning? {
      ForgetKeepsCoherent(d, d.tracker.id, d.tracker.todo);
    } else {
      assert Pending(e) == Pending(d);
      assert Handled(e) == Handled(d) || Handled(e) == [];
      forall task | task in d.jobs && d.jobs[task].outcome.Unfinished?
        ensures Owned(e, task)
      {
        assert Owned(d, task);
      }
    }
  }

  lemma TaskKeepsCoherent(d: Daemon, threshold: int, a: Act)
    requires Coherent(d) && CanStep(d, a) && (a.TaskEnds? || a.TaskNotifies?)
    ensures Coherent(DaemonStep(d, threshold, a))
  {
    var e := DaemonStep(d, threshold, a);
    assert Pending(e) == Pending(d) && Handled(e) == Handled(d);
    assert forall task :: task in d.jobs && Owned(d, task) && e.jobs[task].outcome.Unfinished? ==> Owned(e, task);
  }

  lemma StepKeepsCoherent(d: Daemon, threshold: int, a: Act)
    requires Coherent(d) && CanStep(d, a)
    ensures Coherent(DaemonStep(d, threshold, a))
  {
    match a {
      case ListingSucceeds(listing) => ListingKeepsCoherent(d, listing);
      case ListingFails =>
        var e := DaemonStep(d, threshold, a);
        assert Pending(e) == Pending(d) && Handled(e) == Handled(d);
        assert forall task :: task in d.jobs && Owned(d, task) ==> Owned(e, task);
      case ListingAborts =>
        var e := DaemonStep(d, threshold, a);
        assert Pending(e) == Pending(d) && Handled(e) == Handled(d);
        assert forall task :: task in d.jobs && Owned(d, task) ==> Owned(e, task);
      case SpawnChecks => SpawnKeepsCoherent(d, a);
      case SpawnAcquires => SpawnKeepsCoherent(d, a);
      case SpawnRechecks => CreationKeepsCoherent(d);
      case SpawnReleases => SpawnKeepsCoherent(d, a);
      case PassStarts(order) => PassStartKeepsCoherent(d, order);
      case PassChecks => PassCheckKeepsCoherent(d, threshold);
      case StopPops => StopKeepsCoherent(d, threshold, a);
      case StopReturns => StopKeepsCoherent(d, threshold, a);
      case TaskEnds(_, _) => TaskKeepsCoherent(d, threshold, a);
      case TaskNotifies(_) => TaskKeepsCoherent(d, threshold, a);
    }
  }
}
