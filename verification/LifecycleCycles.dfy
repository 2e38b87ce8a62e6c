/** The lifecycle machine covers its methods: a tracker pass and a registry update that
    nothing interleaves with do to the machine what the methods promise. */
module LifecycleCycles {
  import opened Registry
  import opened ListenerManager
  import opened ContainerTracker
  import opened Dispatcher
  import opened Lifecycle
  import opened LifecycleSafety

  // `acts` takes the daemon from `d` to `e`.
  ghost predicate Lives(d: Daemon, threshold: int, acts: seq<Act>, e: Daemon) {
    CanLive(d, threshold, acts) && Lived(d, threshold, acts) == e
  }

  lemma FirstAct(d: Daemon, threshold: int, a: Act) returns (acts: seq<Act>, e: Daemon)
    requires CanStep(d, a)
    ensures Lives(d, threshold, acts, e) && e == DaemonStep(d, threshold, a)
  {
    acts, e := [a], DaemonStep(d, threshold, a);
    assert acts[..0] == [];
  }

  lemma OneMoreAct(d: Daemon, threshold: int, acts: seq<Act>, e: Daemon, a: Act) returns (more: seq<Act>, f: Daemon)
    requires Lives(d, threshold, acts, e) && CanStep(e, a)
    ensures Lives(d, threshold, more, f) && f == DaemonStep(e, threshold, a)
  {
    more, f := acts + [a], DaemonStep(e, threshold, a);
    assert more[..|acts|] == acts;
  }

  lemma {:induction false} LivesOn(d: Daemon, threshold: int, acts: seq<Act>, e: Daemon, more: seq<Act>, f: Daemon)
    requires Lives(d, threshold, acts, e) && Lives(e, threshold, more, f)
    ensures Lives(d, threshold, acts + more, f)
  {
    if more == [] {
      assert acts + more == acts;
    } else {
      var init := more[..|more| - 1];
      LivesOn(d, threshold, acts, e, init, Lived(e, threshold, init));
      assert (acts + more)[..|acts + more| - 1] == acts + init;
    }
  }

  // ---------- A tracker pass ----------

  // The first `i` ids of a pass that began in `d` are dealt with.
  ghost predicate Passed(d: Daemon, threshold: int, order: seq<string>, i: nat, e: Daemon)
    requires i <= |order|
  {
    var stopped := VanishedIn(d.view, threshold, order[..i]);
    && e.tracker == Scanning(order[i..]) && e.updater == d.updater && !Dead(d) && e.nextTask == d.nextTask
    && e.tasks == d.tasks - stopped
    && e.view == d.view.(containers := d.view.containers - stopped)
    && (forall id :: id in e.tasks ==> HasJob(e, id))
  }

  ghost predicate HasJob(d: Daemon, id: string)
    requires id in d.tasks
  {
    d.tasks[id] in d.jobs && d.jobs[d.tasks[id]].containerId == id && !d.jobs[d.tasks[id]].outcome.Crashed?
  }

  // Stopping one id and forgetting it, from the verdict on.
  lemma StopsAlone(d: Daemon, threshold: int, acts: seq<Act>, e: Daemon) returns (more: seq<Act>, f: Daemon)
    requires Lives(d, threshold, acts, e) && e.tracker.Reporting? && !Dead(e)
    requires e.tracker.id in e.tasks && forall id :: id in e.tasks ==> HasJob(e, id)
    ensures Lives(d, threshold, more, f)
    ensures var id := e.tracker.id;
            && f.tasks == e.tasks - {id} && f.view == Forgotten(e.view, id)
            && f.tracker == Scanning(e.tracker.todo) && f.updater == e.updater && f.nextTask == e.nextTask
            && (forall jd :: jd in f.tasks ==> HasJob(f, jd))
  {
    var task := e.tasks[e.tracker.id];
    more, f := OneMoreAct(d, threshold, acts, e, StopPops);
    if f.jobs[task].outcome.Unfinished? {
      more, f := OneMoreAct(d, threshold, more, f, TaskEnds(task, false));
    }
    more, f := OneMoreAct(d, threshold, more, f, StopReturns);
  }

  lemma OneMorePassed(d: Daemon, threshold: int, order: seq<string>, i: nat, acts: seq<Act>, e: Daemon)
    returns (more: seq<Act>, f: Daemon)
    requires Enumerates(order, d.tasks.Keys) && i < |order|
    requires Lives(d, threshold, acts, e) && Passed(d, threshold, order, i, e)
    ensures Lives(d, threshold, more, f) && Passed(d, threshold, order, i + 1, f)
  {
    var id := order[i];
    var before, after := VanishedIn(d.view, threshold, order[..i]), VanishedIn(d.view, threshold, order[..i + 1]);
    VanishedStep(d.view, threshold, order, i);
    assert id in d.tasks && id !in before by { assert id in order; }
    assert order[i..][1..] == order[i + 1..];
    more, f := OneMoreAct(d, threshold, acts, e, PassChecks);
    if f.tracker.Reporting? {
      more, f := StopsAlone(d, threshold, more, f);
      assert after == before + {id};
    } else {
      assert after == before;
    }
  }

  lemma {:induction false} PassedAlone(d: Daemon, threshold: int, order: seq<string>, i: nat)
    returns (acts: seq<Act>, e: Daemon)
    requires d.tracker.Sleeping? && !Dead(d) && Enumerates(order, d.tasks.Keys) && i <= |order|
    requires forall id :: id in d.tasks ==> HasJob(d, id)
    ensures Lives(d, threshold, acts, e) && Passed(d, threshold, order, i, e)
  {
    if i == 0 {
      acts, e := FirstAct(d, threshold, PassStarts(order));
      assert order[0..] == order && VanishedIn(d.view, threshold, order[..0]) == {};
    } else {
      acts, e := PassedAlone(d, threshold, order, i - 1);
      acts, e := OneMorePassed(d, threshold, order, i - 1, acts, e);
    }
  }

  /** The outcome of `RunOnce`, in any iteration order, is reached by the machine from every
      coherent live state whose active listeners have not crashed. */
  lemma PassIsLived(d: Daemon, threshold: int, order: seq<string>) returns (acts: seq<Act>, e: Daemon)
    requires Coherent(d) && d.tracker.Sleeping? && !Dead(d) && Enumerates(order, d.tasks.Keys)
    requires forall id :: id in d.tasks ==> !d.jobs[d.tasks[id]].outcome.Crashed?
    ensures CanLive(d, threshold, acts) && e == Lived(d, threshold, acts)
    ensures e.tracker.Sleeping? && e.updater == d.updater
    ensures var stopped := set id | id in d.tasks && Vanished(d.view, threshold, id);
            e.tasks == d.tasks - stopped && e.view == d.view.(containers := d.view.containers - stopped)
  {
    assert forall id :: id in d.tasks ==> HasJob(d, id);
    acts, e := PassedAlone(d, threshold, order, |order|);
    assert order[..|order|] == order;
    acts, e := OneMoreAct(d, threshold, acts, e, PassChecks);
  }

  // ---------- A registry update ----------

  // The first `i` announced containers are spawned.
  ghost predicate SpawnedSoFar(d: Daemon, listing: seq<ContainerRef>, refs: seq<ContainerRef>, i: nat, e: Daemon)
    requires i <= |refs|
  {
    && e.view == Listed(d.view, listing) && e.tracker == d.tracker && !Dead(d)
    && e.updater == Dispatch(refs[i..])
    && e.tasks == SpawnedAll(d.tasks, refs[..i], d.nextTask) && e.nextTask == d.nextTask + i
  }

  // One spawn on its own, of a container that has no task.
  lemma SpawnsAlone(d: Daemon, threshold: int, acts: seq<Act>, e: Daemon) returns (more: seq<Act>, f: Daemon)
    requires Lives(d, threshold, acts, e) && !Dead(e) && e.updater.Dispatching? && e.updater.queue != []
    requires e.updater.queue[0].containerId !in e.tasks
    ensures Lives(d, threshold, more, f)
    ensures f.view == e.view && f.tracker == e.tracker && f.updater == Dispatch(e.updater.queue[1..])
    ensures f.tasks == Spawned(e.tasks, e.updater.queue[0].containerId, e.nextTask) && f.nextTask == e.nextTask + 1
    ensures f.jobs == e.jobs[e.nextTask := Job(e.updater.queue[0].containerId, Unfinished, false)]
  {
    more, f := OneMoreAct(d, threshold, acts, e, SpawnChecks);
    more, f := OneMoreAct(d, threshold, more, f, SpawnAcquires);
    more, f := OneMoreAct(d, threshold, more, f, SpawnRechecks);
    more, f := OneMoreAct(d, threshold, more, f, SpawnReleases);
  }

  lemma OneMoreSpawned(d: Daemon, threshold: int, listing: seq<ContainerRef>, refs: seq<ContainerRef>, i: nat,
                       acts: seq<Act>, e: Daemon)
    returns (more: seq<Act>, f: Daemon)
    requires DistinctIds(refs) && Ids(refs) !! d.tasks.Keys && i < |refs|
    requires Lives(d, threshold, acts, e) && SpawnedSoFar(d, listing, refs, i, e)
    ensures Lives(d, threshold, more, f) && SpawnedSoFar(d, listing, refs, i + 1, f)
  {
    var id := refs[i].containerId;
    assert id !in e.tasks by {
      SpawnedAllMeaning(d.tasks, refs[..i], d.nextTask);
      assert id in Ids(refs) && id !in Ids(refs[..i]);
    }
    assert refs[i..][0] == refs[i] && refs[i..][1..] == refs[i + 1..];
    assert SpawnedAll(d.tasks, refs[..i + 1], d.nextTask) == Spawned(e.tasks, id, e.nextTask) by {
      assert refs[..i + 1][..i] == refs[..i];
    }
    more, f := SpawnsAlone(d, threshold, acts, e);
  }

  lemma {:induction false} SpawnedInTurn(d: Daemon, threshold: int, listing: seq<ContainerRef>, i: nat)
    returns (acts: seq<Act>, e: Daemon)
    requires Coherent(d) && d.updater.Resting? && !Dead(d) && i <= |NewRefs(d.view.containers, listing)|
    ensures Lives(d, threshold, acts, e) && SpawnedSoFar(d, listing, NewRefs(d.view.containers, listing), i, e)
  {
    var refs := NewRefs(d.view.containers, listing);
    NewRefsMeaning(d.view.containers, listing);
    if i == 0 {
      acts, e := FirstAct(d, threshold, ListingSucceeds(listing));
      assert refs[0..] == refs && refs[..0] == [];
    } else {
      acts, e := SpawnedInTurn(d, threshold, listing, i - 1);
      acts, e := OneMoreSpawned(d, threshold, listing, refs, i - 1, acts, e);
    }
  }

  /** The outcome of a registry update with its callbacks is reached by the machine from every
      coherent state. */
  lemma UpdateIsLived(d: Daemon, threshold: int, listing: seq<ContainerRef>) returns (acts: seq<Act>, e: Daemon)
    requires Coherent(d) && d.updater.Resting? && !Dead(d)
    ensures CanLive(d, threshold, acts) && e == Lived(d, threshold, acts)
    ensures e.updater.Resting? && e.tracker == d.tracker && e.view == Listed(d.view, listing)
    ensures e.tasks == SpawnedAll(d.tasks, NewRefs(d.view.containers, listing), d.nextTask)
  {
    var refs := NewRefs(d.view.containers, listing);
    acts, e := SpawnedInTurn(d, threshold, listing, |refs|);
    assert refs[..|refs|] == refs;
  }
}
