/** What becomes of a container whose listener has ended, or is being stopped: when it can be
    spawned again, and when never. */
module Respawn {
  import opened Registry
  import opened ContainersListing
  import opened ListenerManager
  import opened ContainerTracker
  import opened Lifecycle
  import opened LifecycleSafety
  import opened LifecycleHistory
  import opened LifecycleTheorems
  import opened LifecycleCycles
  import opened LifecycleRuns

  // `stop` waits for a task whose error it will re-raise.
  ghost predicate AwaitsCrashed(d: Daemon) {
    d.tracker.AwaitingStop? && d.tracker.task in d.jobs && d.jobs[d.tracker.task].outcome.Crashed?
  }

  ghost predicate CanBeAnnounced(d: Daemon, threshold: int, id: string) {
    exists acts :: CanLive(d, threshold, acts) && AnnouncedMore(d, Lived(d, threshold, acts), id)
  }

  ghost predicate AnnouncedMore(d: Daemon, e: Daemon, id: string) {
    Count(e.log, Announce(id)) > Count(d.log, Announce(id))
  }

  // ---------- Never again ----------

  // Registered, but neither active nor queued, and the tracker will not get to it.
  ghost predicate Stuck(d: Daemon, id: string) {
    && id in d.view.containers
    && id !in d.tasks
    && id !in Ids(Pending(d))
    && (id in Handled(d) ==> AwaitsCrashed(d))
  }

  lemma StepKeepsStuck(d: Daemon, threshold: int, a: Act, id: string)
    requires Coherent(d) && CanStep(d, a) && Stuck(d, id)
    ensures var e := DaemonStep(d, threshold, a);
            Stuck(e, id) && Count(e.log, Announce(id)) == Count(d.log, Announce(id))
  {
    var e := DaemonStep(d, threshold, a);
    if a.ListingSucceeds? {
      ListingKeepsStuck(d, a.listing, id);
    } else if a.SpawnChecks? || a.SpawnAcquires? || a.SpawnRechecks? || a.SpawnReleases? {
      SpawnKeepsStuck(d, threshold, a, id);
    } else {
      OtherStep(d, threshold, a);
      HandledShrinks(d, threshold, a);
      if e.log != d.log {
        OneMore(d.log, e.log[|e.log| - 1], id);
      }
    }
  }

  lemma SpawnKeepsStuck(d: Daemon, threshold: int, a: Act, id: string)
    requires Coherent(d) && CanStep(d, a) && Stuck(d, id)
    requires a.SpawnChecks? || a.SpawnAcquires? || a.SpawnRechecks? || a.SpawnReleases?
    ensures var e := DaemonStep(d, threshold, a);
            Stuck(e, id) && Count(e.log, Announce(id)) == Count(d.log, Announce(id))
  {
    var e := DaemonStep(d, threshold, a);
    SpawnStep(d, threshold, a);
    assert Handled(e) == Handled(d);
    if a.SpawnRechecks? {
      assert Pending(d)[0] == d.updater.ref && d.updater.ref in Pending(d);
      OneMore(d.log, Create(d.updater.ref.containerId), id);
    }
  }

  lemma ListingKeepsStuck(d: Daemon, listing: seq<ContainerRef>, id: string)
    requires d.updater.Resting? && Stuck(d, id)
    ensures var e := OnListing(d, listing);
            Stuck(e, id) && Count(e.log, Announce(id)) == Count(d.log, Announce(id))
  {
    var e := OnListing(d, listing);
    ListingOnId(d, listing, id);
    assert Count(e.log, Announce(id)) == Count(d.log, Announce(id)) by {
      NewRefsMeaning(d.view.containers, listing);
      ListingLogged(d.log, listing, NewRefs(d.view.containers, listing), id);
    }
    assert Handled(e) == Handled(d) && AwaitsCrashed(e) == AwaitsCrashed(d);
  }

  // The tracker only ever takes up active ids, and only forgets what it had taken up.
  lemma HandledShrinks(d: Daemon, threshold: int, a: Act)
    requires CanStep(d, a)
    requires !(a.ListingSucceeds? || a.SpawnChecks? || a.SpawnAcquires? || a.SpawnRechecks? || a.SpawnReleases?)
    ensures var e := DaemonStep(d, threshold, a);
            && (forall id :: id in Handled(e) ==> id in Handled(d) || id in d.tasks)
            && (forall id :: id in d.view.containers && id !in Handled(d) ==> id in e.view.containers)
            && e.tasks.Keys <= d.tasks.Keys
            && (AwaitsCrashed(d) ==> e.view == d.view && (Handled(e) == [] || AwaitsCrashed(e)))
  {
    assert d.tracker.Reporting? || d.tracker.AwaitingStop? ==> d.tracker.id == Handled(d)[0];
  }

  /** A stuck container stays so in every continuation, whatever is listed: it is never
      announced, spawned or forgotten again. */
  lemma {:induction false} StuckForever(d: Daemon, threshold: int, acts: seq<Act>, id: string)
    requires Coherent(d) && Balanced(d, id) && Stuck(d, id) && CanLive(d, threshold, acts)
    ensures var e := Lived(d, threshold, acts);
            && Coherent(e) && Balanced(e, id) && Stuck(e, id)
            && Count(e.log, Announce(id)) == Count(d.log, Announce(id))
            && Count(e.log, Create(id)) == Count(d.log, Create(id))
            && Count(e.log, Forget(id)) == Count(d.log, Forget(id))
  {
    if acts != [] {
      var init, a := acts[..|acts| - 1], acts[|acts| - 1];
      StuckForever(d, threshold, init, id);
      StepKeepsCoherent(Lived(d, threshold, init), threshold, a);
      StepKeepsBalanced(Lived(d, threshold, init), threshold, a, id);
      StepKeepsStuck(Lived(d, threshold, init), threshold, a, id);
    }
  }

  // ---------- How a container gets announced again ----------

  lemma Goes(d: Daemon, threshold: int, acts: seq<Act>, e: Daemon, a: Act) returns (more: seq<Act>, f: Daemon)
    requires Lives(d, threshold, acts, e) && Coherent(e) && CanStep(e, a)
    ensures Lives(d, threshold, more, f) && f == DaemonStep(e, threshold, a) && Coherent(f)
  {
    more, f := OneMoreAct(d, threshold, acts, e, a);
    StepKeepsCoherent(e, threshold, a);
  }

  // How many steps the spawner has left.
  function Work(u: Updater): nat {
    match u
    case Dispatching(queue) => 4 * |queue|
    case AwaitingPermit(_, queue) => 4 * |queue| + 3
    case Admitted(_, queue) => 4 * |queue| + 2
    case Leaving(queue) => 4 * |queue| + 1
    case _ => 0
  }

  function NextSpawnAct(u: Updater): Act
    requires u.Dispatching? || u.AwaitingPermit? || u.Admitted? || u.Leaving?
  {
    match u
    case Dispatching(_) => SpawnChecks
    case AwaitingPermit(_, _) => SpawnAcquires
    case Admitted(_, _) => SpawnRechecks
    case Leaving(_) => SpawnReleases
  }

  // The tracker and what it waits for stay as they are.
  ghost predicate SameTracking(d: Daemon, e: Daemon) {
    && e.tracker == d.tracker
    && e.view == d.view
    && (forall task :: task in d.jobs ==> task in e.jobs && e.jobs[task] == d.jobs[task])
  }

  lemma SpawnActDone(d: Daemon, threshold: int)
    requires Coherent(d) && !Dead(d) && !d.updater.Resting?
    ensures CanStep(d, NextSpawnAct(d.updater))
    ensures var e := DaemonStep(d, threshold, NextSpawnAct(d.updater));
            SameTracking(d, e) && !Dead(e) && Work(e.updater) < Work(d.updater)
  {
    if d.updater.Dispatching? {
      SpawnKeepsCoherent(d, SpawnChecks);
    }
  }

  // Left alone, the spawner works off its queue.
  lemma {:induction false} UpdaterRests(d: Daemon, threshold: int, acts: seq<Act>, e: Daemon)
    returns (more: seq<Act>, f: Daemon)
    requires Lives(d, threshold, acts, e) && Coherent(e) && !Dead(e)
    ensures Lives(d, threshold, more, f) && Coherent(f) && !Dead(f) && f.updater.Resting? && SameTracking(e, f)
    decreases Work(e.updater)
  {
    more, f := acts, e;
    if !e.updater.Resting? {
      SpawnActDone(e, threshold);
      more, f := Goes(d, threshold, acts, e, NextSpawnAct(e.updater));
      more, f := UpdaterRests(d, threshold, more, f);
    }
  }

  // `n` listings in a row that find nothing.
  lemma {:induction false} NothingListed(d: Daemon, threshold: int, acts: seq<Act>, e: Daemon, n: nat)
    returns (more: seq<Act>, f: Daemon)
    requires Lives(d, threshold, acts, e) && Coherent(e) && !Dead(e) && e.updater.Resting?
    ensures Lives(d, threshold, more, f) && Coherent(f)
    ensures f == e.(view := DaemonView(e.view.listingSeq + n, e.view.containers), log := f.log)
  {
    more, f := acts, e;
    if n > 0 {
      more, f := NothingListed(d, threshold, acts, e, n - 1);
      more, f := Goes(d, threshold, more, f, ListingSucceeds([]));
    }
  }

  // The id at the head of the tracker's list is dealt with.
  ghost predicate Settled(d: Daemon, e: Daemon) {
    && Handled(d) != [] && e.tracker == Scanning(Handled(d)[1..]) && e.updater == d.updater && Coherent(e)
    && (e.view == d.view || e.view == Forgotten(d.view, Handled(d)[0]))
  }

  lemma AwaitedSettled(d: Daemon, threshold: int, acts: seq<Act>, e: Daemon) returns (more: seq<Act>, f: Daemon)
    requires Lives(d, threshold, acts, e) && Coherent(e) && !Dead(e) && e.tracker.AwaitingStop? && !AwaitsCrashed(e)
    ensures Lives(d, threshold, more, f) && Settled(e, f) && f.view == Forgotten(e.view, e.tracker.id)
  {
    more, f := acts, e;
    if e.jobs[e.tracker.task].outcome.Unfinished? {
      more, f := Goes(d, threshold, more, f, TaskEnds(e.tracker.task, false));
    }
    more, f := Goes(d, threshold, more, f, StopReturns);
    assert Handled(e)[1..] == e.tracker.todo;
  }

  // A task that has crashed by now is given the time to drop out first.
  lemma ReportedSettled(d: Daemon, threshold: int, acts: seq<Act>, e: Daemon) returns (more: seq<Act>, f: Daemon)
    requires Lives(d, threshold, acts, e) && Coherent(e) && !Dead(e) && e.tracker.Reporting?
    ensures Lives(d, threshold, more, f) && Settled(e, f) && f.view == Forgotten(e.view, e.tracker.id)
  {
    var id := e.tracker.id;
    assert Handled(e)[1..] == e.tracker.todo;
    more, f := acts, e;
    if id in e.tasks && e.jobs[e.tasks[id]].outcome.Crashed? {
      more, f := Goes(d, threshold, more, f, TaskNotifies(e.tasks[id]));
    }
    more, f := Goes(d, threshold, more, f, StopPops);
    if id in e.tasks && !e.jobs[e.tasks[id]].outcome.Crashed? {
      more, f := AwaitedSettled(d, threshold, more, f);
    }
  }

  lemma HeadSettled(d: Daemon, threshold: int, acts: seq<Act>, e: Daemon) returns (more: seq<Act>, f: Daemon)
    requires Lives(d, threshold, acts, e) && Coherent(e) && !Dead(e) && Handled(e) != [] && !AwaitsCrashed(e)
    ensures Lives(d, threshold, more, f) && Settled(e, f)
    ensures Vanished(e.view, threshold, Handled(e)[0]) ==> f.view == Forgotten(e.view, Handled(e)[0])
  {
    more, f := acts, e;
    if e.tracker.AwaitingStop? {
      more, f := AwaitedSettled(d, threshold, more, f);
    } else {
      if e.tracker.Scanning? {
        more, f := Goes(d, threshold, more, f, PassChecks);
      }
      if f.tracker.Reporting? {
        assert Handled(f) == Handled(e);
        more, f := ReportedSettled(d, threshold, more, f);
      }
    }
  }

  // A vanished container in the tracker's hands is forgotten once its turn has come.
  lemma {:induction false} ForgottenAtLast(d: Daemon, threshold: int, acts: seq<Act>, e: Daemon, id: string)
    returns (more: seq<Act>, f: Daemon)
    requires Lives(d, threshold, acts, e) && Coherent(e) && !Dead(e) && e.updater.Resting?
    requires id in Handled(e) && Vanished(e.view, threshold, id) && !AwaitsCrashed(e)
    ensures Lives(d, threshold, more, f) && Coherent(f) && !Dead(f) && f.updater.Resting?
    ensures id !in f.view.containers
    decreases |Handled(e)|
  {
    more, f := HeadSettled(d, threshold, acts, e);
    if Handled(e)[0] != id {
      assert id in Handled(e)[1..];
      more, f := ForgottenAtLast(d, threshold, more, f, id);
    }
  }

  // Announcements and forgets are never taken back.
  lemma {:induction false} LifeCounts(d: Daemon, threshold: int, acts: seq<Act>, e: Daemon, id: string)
    requires Lives(d, threshold, acts, e) && Coherent(d) && Balanced(d, id)
    ensures Coherent(e) && Balanced(e, id)
    ensures Count(e.log, Announce(id)) >= Count(d.log, Announce(id))
    decreases |acts|
  {
    if acts != [] {
      var a := acts[|acts| - 1];
      var before := LastStep(d, threshold, acts, e);
      LifeCounts(d, threshold, acts[..|acts| - 1], before, id);
      StepKeepsCoherent(before, threshold, a);
      StepKeepsBalanced(before, threshold, a, id);
      StepCounts(before, threshold, a, id);
    }
  }

  lemma StepCounts(d: Daemon, threshold: int, a: Act, id: string)
    requires Coherent(d) && CanStep(d, a)
    ensures Count(DaemonStep(d, threshold, a).log, Announce(id)) >= Count(d.log, Announce(id))
  {
    var e := DaemonStep(d, threshold, a);
    if a.ListingSucceeds? {
      NewRefsMeaning(d.view.containers, a.listing);
      ListingLogged(d.log, a.listing, NewRefs(d.view.containers, a.listing), id);
    } else if a.SpawnChecks? || a.SpawnAcquires? || a.SpawnRechecks? || a.SpawnReleases? {
      SpawnStep(d, threshold, a);
      if e.log != d.log {
        OneMore(d.log, Create(Pending(d)[0].containerId), id);
      }
    } else {
      OtherStep(d, threshold, a);
      if e.log != d.log {
        OneMore(d.log, e.log[|e.log| - 1], id);
      }
    }
  }

  // A registered container the tracker will get to: let the listings miss it until then.
  lemma ForgottenSomehow(d: Daemon, threshold: int, id: string) returns (acts: seq<Act>, e: Daemon)
    requires Coherent(d) && !Dead(d) && id in d.view.containers && id in Handled(d) && !AwaitsCrashed(d)
    ensures Lives(d, threshold, acts, e) && Coherent(e) && !Dead(e) && e.updater.Resting?
    ensures id !in e.view.containers
  {
    acts := [];
    assert Lives(d, threshold, acts, d);
    acts, e := UpdaterRests(d, threshold, acts, d);
    assert Handled(e) == Handled(d) && !AwaitsCrashed(e);
    var missing := threshold - Misses(e.view, threshold, id);
    var before := e;
    acts, e := NothingListed(d, threshold, acts, e, if missing > 0 then missing else 0);
    assert Handled(e) == Handled(before);
    acts, e := ForgottenAtLast(d, threshold, acts, e, id);
  }

  // Listing an unregistered container announces it.
  lemma ListedAnew(d: Daemon, id: string, listing: seq<ContainerRef>)
    requires d.updater.Resting? && id !in d.view.containers && id in Ids(listing)
    ensures Count(OnListing(d, listing).log, Announce(id)) == Count(d.log, Announce(id)) + 1
  {
    NewRefsMeaning(d.view.containers, listing);
    ListingLogged(d.log, listing, NewRefs(d.view.containers, listing), id);
  }

  lemma AnnouncedAgain(d: Daemon, threshold: int, id: string)
    requires Coherent(d) && Balanced(d, id) && !Dead(d)
    requires id in d.view.containers && id in Handled(d) && !AwaitsCrashed(d)
    ensures CanBeAnnounced(d, threshold, id)
  {
    var acts, e := ForgottenSomehow(d, threshold, id);
    LifeCounts(d, threshold, acts, e, id);
    var listing := [ContainerRef(id, "")];
    assert ContainerRef(id, "") in listing;
    ListedAnew(e, id, listing);
    var more, f := OneMoreAct(d, threshold, acts, e, ListingSucceeds(listing));
    assert AnnouncedMore(d, Lived(d, threshold, more), id);
  }

  /** A listener that ends by itself is meant to be respawned by a later discovery of its
      container. Once it is dropped, some continuation announces the container again if and only
      if the tracker has it in hand at that moment and is not waiting for a crashed task. */
  lemma RespawnIffInHand(d: Daemon, threshold: int, task: TaskId)
    requires Reachable(d, threshold) && CanStep(d, TaskNotifies(task))
    requires d.jobs[task].containerId in d.tasks && d.tasks[d.jobs[task].containerId] == task
    ensures CanBeAnnounced(DaemonStep(d, threshold, TaskNotifies(task)), threshold, d.jobs[task].containerId)
            <==> d.jobs[task].containerId in Handled(d) && !AwaitsCrashed(d)
  {
    var id, e := d.jobs[task].containerId, DaemonStep(d, threshold, TaskNotifies(task));
    ReachableIsSound(d, threshold);
    ReachableIsBalanced(d, threshold, id);
    StepKeepsCoherent(d, threshold, TaskNotifies(task));
    StepKeepsBalanced(d, threshold, TaskNotifies(task), id);
    assert Handled(e) == Handled(d) && Pending(e) == Pending(d) && AwaitsCrashed(e) == AwaitsCrashed(d);
    if id in Handled(d) && !AwaitsCrashed(d) {
      AnnouncedAgain(e, threshold, id);
    } else {
      NeverAnnounced(e, threshold, id);
    }
  }

  lemma NeverAnnounced(d: Daemon, threshold: int, id: string)
    requires Coherent(d) && Balanced(d, id) && Stuck(d, id)
    ensures !CanBeAnnounced(d, threshold, id)
  {
    forall acts | CanLive(d, threshold, acts)
      ensures !AnnouncedMore(d, Lived(d, threshold, acts), id)
    {
      StuckForever(d, threshold, acts, id);
    }
  }

  // ---------- Being stopped ----------

  // The tracker has reached its verdict on `id` and has not forgotten it yet.
  ghost predicate Chosen(d: Daemon, id: string) {
    (d.tracker.Reporting? || d.tracker.AwaitingStop?) && d.tracker.id == id
  }

  // One step from being chosen to being forgotten: no registration, no listener, no announcement.
  ghost predicate GivenUp(d: Daemon, e: Daemon, id: string) {
    && Chosen(d, id)
    && e.log == d.log + [Forget(id)]
    && id !in e.view.containers && id !in e.tasks && id !in Ids(Pending(e)) && id !in Handled(e)
  }

  lemma ChosenStep(d: Daemon, threshold: int, a: Act, id: string)
    requires Coherent(d) && CanStep(d, a) && Chosen(d, id)
    ensures var e := DaemonStep(d, threshold, a);
            GivenUp(d, e, id) || StillChosen(d, e, id)
  {
    var e := DaemonStep(d, threshold, a);
    StepKeepsCoherent(d, threshold, a);
    assert id == Handled(d)[0] && id in d.view.containers;
    if a.ListingSucceeds? {
      NewRefsMeaning(d.view.containers, a.listing);
      ListingLogged(d.log, a.listing, NewRefs(d.view.containers, a.listing), id);
    } else if a.SpawnChecks? || a.SpawnAcquires? || a.SpawnRechecks? || a.SpawnReleases? {
      SpawnStep(d, threshold, a);
      if e.log != d.log {
        OneMore(d.log, Create(Pending(d)[0].containerId), id);
      }
    } else if e.tracker.Scanning? {
      ChosenForgotten(d, threshold, a, id);
    }
  }

  lemma ChosenForgotten(d: Daemon, threshold: int, a: Act, id: string)
    requires Coherent(d) && CanStep(d, a) && Chosen(d, id) && DaemonStep(d, threshold, a).tracker.Scanning?
    requires a.StopPops? || a.StopReturns?
    ensures GivenUp(d, DaemonStep(d, threshold, a), id)
  {
    var e := DaemonStep(d, threshold, a);
    assert Handled(d) == [id] + Handled(e) && Pending(e) == Pending(d);
    assert id == Handled(d)[0] && forall i :: 0 <= i < |Handled(e)| ==> Handled(e)[i] == Handled(d)[i + 1];
  }

  // After `k` of these acts the container is forgotten, not having been announced since.
  ghost predicate GivesUp(d: Daemon, threshold: int, acts: seq<Act>, k: nat, id: string)
    requires k < |acts|
  {
    && CanLive(d, threshold, acts[..k]) && CanLive(d, threshold, acts[..k + 1])
    && GivenUp(Lived(d, threshold, acts[..k]), Lived(d, threshold, acts[..k + 1]), id)
    && Count(Lived(d, threshold, acts[..k]).log, Announce(id)) == Count(d.log, Announce(id))
  }

  /** A verdict is final. In every continuation, whatever is listed meanwhile, the container
      stays chosen and unannounced until it is forgotten or the stop raises; it then has neither
      a listener nor an announcement, even if the latest listing contains it. */
  lemma {:induction false} VerdictIsFinal(d: Daemon, threshold: int, acts: seq<Act>, e: Daemon, id: string)
    requires Lives(d, threshold, acts, e) && Coherent(d) && Chosen(d, id)
    ensures (exists k: nat :: k < |acts| && GivesUp(d, threshold, acts, k, id)) || StillChosen(d, e, id)
    ensures Coherent(e)
    decreases |acts|
  {
    if acts != [] {
      var n := |acts| - 1;
      var before := LastStep(d, threshold, acts, e);
      VerdictIsFinal(d, threshold, acts[..n], before, id);
      StepKeepsCoherent(before, threshold, acts[n]);
      if k: nat :| k < n && GivesUp(d, threshold, acts[..n], k, id) {
        GivesUpEarlier(d, threshold, acts, n, k, id);
      } else {
        FinalStep(d, threshold, acts, before, e, id);
      }
    }
  }

  // Not forgotten yet, or the stop has raised.
  ghost predicate StillChosen(d: Daemon, e: Daemon, id: string) {
    (Chosen(e, id) || e.tracker.Broken?) && Count(e.log, Announce(id)) == Count(d.log, Announce(id))
  }

  lemma GivesUpEarlier(d: Daemon, threshold: int, acts: seq<Act>, n: nat, k: nat, id: string)
    requires k < n <= |acts| && GivesUp(d, threshold, acts[..n], k, id)
    ensures GivesUp(d, threshold, acts, k, id)
  {
    assert acts[..n][..k] == acts[..k] && acts[..n][..k + 1] == acts[..k + 1];
  }

  lemma FinalStep(d: Daemon, threshold: int, acts: seq<Act>, before: Daemon, e: Daemon, id: string)
    requires acts != [] && Lives(d, threshold, acts, e) && Lives(d, threshold, acts[..|acts| - 1], before)
    requires Coherent(before) && StillChosen(d, before, id)
    ensures GivesUp(d, threshold, acts, |acts| - 1, id) || StillChosen(d, e, id)
  {
    ChosenStep(before, threshold, acts[|acts| - 1], id);
    assert acts[..|acts| - 1 + 1] == acts;
  }

  // ---------- The end of the process ----------

  /** When a stop returns, the process lives on exactly if the stopped listener did not crash.
      If it did, the error ends the process before the container is forgotten. */
  lemma CrashedStopEndsProcess(s: System, threshold: int, host: string)
    requires CanMove(s, Move(host, StopReturns))
    ensures var t := Moved(s, threshold, Move(host, StopReturns));
            && (Alive(t) <==> !AwaitsCrashed(s.daemons[host]))
            && (AwaitsCrashed(s.daemons[host]) ==>
                  t.daemons[host].view == s.daemons[host].view && forall m: Move :: !CanMove(t, m))
  {
    var t := Moved(s, threshold, Move(host, StopReturns));
    if AwaitsCrashed(s.daemons[host]) {
      assert Dead(t.daemons[host]);
    } else {
      assert !Dead(t.daemons[host]);
    }
  }

  // The step a listing loop takes on this outcome; `order` is what a successful one hands on.
  ghost function ListingAct(parse: string -> Parsed, output: Output, order: seq<ContainerRef>): Act {
    if Succeeds(parse, output) then ListingSucceeds(order)
    else if Fatal(parse, output) then ListingAborts
    else ListingFails
  }

  /** A cycle of the listing loop ends the process, not just the watching of its daemon, exactly if
      its outcome is fatal. */
  lemma FatalListingEndsProcess(s: System, threshold: int, host: string, parse: string -> Parsed, output: Output,
                                order: seq<ContainerRef>)
    requires Alive(s) && host in s.daemons && s.daemons[host].updater.Resting?
    ensures var m := Move(host, ListingAct(parse, output, order));
            && CanMove(s, m)
            && (Fatal(parse, output) <==> forall n: Move :: !CanMove(Moved(s, threshold, m), n))
  {
    var act := ListingAct(parse, output, order);
    var t := Moved(s, threshold, Move(host, act));
    FatalDoesNotSucceed(parse, output);
    if Fatal(parse, output) {
      assert Dead(t.daemons[host]);
    } else {
      assert CanMove(t, Move(host, if t.daemons[host].updater.Resting? then ListingFails else SpawnChecks));
    }
  }

  // ---------- Runs that lead there ----------

  function FirstView(ref: ContainerRef, listings: nat): DaemonView {
    DaemonView(listings, map[ref.containerId := ContainerState(ref, 1)])
  }

  // One container, listed once and spawned; `listings` - 1 listings have missed it since.
  ghost predicate Running(d: Daemon, ref: ContainerRef, listings: nat) {
    && d.view == FirstView(ref, listings)
    && d.tasks == map[ref.containerId := 0]
    && 0 in d.jobs && d.jobs[0] == Job(ref.containerId, Unfinished, false)
    && d.updater.Resting? && Coherent(d)
  }

  lemma RunningIsReached(ref: ContainerRef, threshold: int, missed: nat) returns (acts: seq<Act>, d: Daemon)
    ensures Lives(NEW_LIFE, threshold, acts, d) && Running(d, ref, missed + 1) && d.tracker.Sleeping?
  {
    FirstListing(ref);
    acts, d := FirstAct(NEW_LIFE, threshold, ListingSucceeds([ref]));
    acts, d := SpawnsAlone(NEW_LIFE, threshold, acts, d);
    LifeIsSound(threshold, acts);
    acts, d := NothingListed(NEW_LIFE, threshold, acts, d, missed);
  }

  lemma FirstListing(ref: ContainerRef)
    ensures NewRefs(map[], [ref]) == [ref]
    ensures Listed(NEW_DAEMON, [ref]) == FirstView(ref, 1)
  {
    assert [ref][..0] == [];
    assert Ids([ref][..0]) == {};
    assert Recorded(map[], [ref], 1) == map[ref.containerId := ContainerState(ref, 1)];
  }

  /** A stuck container: for every ref and threshold, a listener is spawned right after the first
      listing and ends by itself, and its container is never announced again. */
  lemma StuckIsReachable(ref: ContainerRef, threshold: int) returns (d: Daemon)
    ensures Reachable(d, threshold) && !Dead(d) && Stuck(d, ref.containerId)
    ensures !CanBeAnnounced(d, threshold, ref.containerId)
  {
    var acts;
    acts, d := RunningIsReached(ref, threshold, 0);
    acts, d := Goes(NEW_LIFE, threshold, acts, d, TaskEnds(0, false));
    acts, d := Goes(NEW_LIFE, threshold, acts, d, TaskNotifies(0));
    LivedIsReachable(threshold, acts, d);
    ReachableIsBalanced(d, threshold, ref.containerId);
    NeverAnnounced(d, threshold, ref.containerId);
  }

  // The tracker's verdict on a container that has been missing long enough.
  lemma ChosenIsReached(ref: ContainerRef, threshold: nat) returns (acts: seq<Act>, d: Daemon)
    ensures Lives(NEW_LIFE, threshold, acts, d) && Running(d, ref, threshold + 1)
    ensures d.tracker == Reporting(ref.containerId, [])
  {
    acts, d := RunningIsReached(ref, threshold, threshold);
    acts, d := Goes(NEW_LIFE, threshold, acts, d, PassStarts([ref.containerId]));
    acts, d := Goes(NEW_LIFE, threshold, acts, d, PassChecks);
  }

  /** A container can be listed again between the verdict and the forget; by the above it is stopped
      all the same. */
  lemma ChosenYetListed(ref: ContainerRef, threshold: nat) returns (d: Daemon)
    ensures Reachable(d, threshold) && !Dead(d) && Chosen(d, ref.containerId)
    ensures ref.containerId in d.view.containers && d.view.containers[ref.containerId].lastSeenSeq == d.view.listingSeq
  {
    var acts;
    acts, d := ChosenIsReached(ref, threshold);
    ListingOnId(d, [ref], ref.containerId);
    assert ref in [ref];
    acts, d := Goes(NEW_LIFE, threshold, acts, d, ListingSucceeds([ref]));
    LivedIsReachable(threshold, acts, d);
  }

  /** A listener that crashes while it is being stopped. */
  lemma CrashedStopIsReachable(ref: ContainerRef, threshold: nat) returns (d: Daemon)
    ensures Reachable(d, threshold) && CanStep(d, StopReturns) && AwaitsCrashed(d)
  {
    var acts;
    acts, d := ChosenIsReached(ref, threshold);
    acts, d := Goes(NEW_LIFE, threshold, acts, d, StopPops);
    acts, d := Goes(NEW_LIFE, threshold, acts, d, TaskEnds(0, true));
    LivedIsReachable(threshold, acts, d);
  }
}
