/** The lifecycle over whole runs: every schedule of every set of daemons. */
module LifecycleTheorems {
  import opened Registry
  import opened ListenerManager
  import opened ContainerTracker
  import opened Lifecycle
  import opened LifecycleSafety
  import opened LifecycleHistory

  // ---------- One daemon ----------

  lemma {:induction false} LifeIsSound(threshold: int, acts: seq<Act>)
    requires CanLive(NEW_LIFE, threshold, acts)
    ensures var d := Lived(NEW_LIFE, threshold, acts);
            && Coherent(d)
            && Justified(d, threshold)
            && (forall id :: Balanced(d, id))
  {
    if acts != [] {
      var d := Lived(NEW_LIFE, threshold, acts[..|acts| - 1]);
      var a := acts[|acts| - 1];
      LifeIsSound(threshold, acts[..|acts| - 1]);
      StepKeepsCoherent(d, threshold, a);
      StepKeepsJustified(d, threshold, a);
      forall id ensures Balanced(DaemonStep(d, threshold, a), id) {
        StepKeepsBalanced(d, threshold, a, id);
      }
    }
  }

  // ---------- Daemons side by side ----------

  function ActsOf(host: string, moves: seq<Move>): seq<Act> {
    if moves == [] then []
    else
      var init, last := moves[..|moves| - 1], moves[|moves| - 1];
      if last.host == host then ActsOf(host, init) + [last.act] else ActsOf(host, init)
  }

  /** Whatever the other daemons do in between, a daemon goes through exactly the states its
      own moves would take it through alone. */
  lemma {:induction false} DaemonIsolation(hosts: set<string>, max: nat, threshold: int, moves: seq<Move>, host: string)
    requires CanRun(Start(hosts, max), threshold, moves) && host in hosts
    ensures var s := After(Start(hosts, max), threshold, moves);
            var acts := ActsOf(host, moves);
            && s.daemons.Keys == hosts
            && CanLive(NEW_LIFE, threshold, acts)
            && s.daemons[host] == Lived(NEW_LIFE, threshold, acts)
  {
    if moves != [] {
      var last := moves[|moves| - 1];
      DaemonIsolation(hosts, max, threshold, moves[..|moves| - 1], host);
      var acts := ActsOf(host, moves[..|moves| - 1]);
      assert (acts + [last.act])[..|acts|] == acts;
    }
  }

  predicate Inside(d: Daemon) {
    d.updater.Admitted? || d.updater.Leaving?
  }

  function Insiders(s: System): set<string> {
    set host | host in s.daemons && Inside(s.daemons[host])
  }

  // Only the acquire enters the guarded section and only the release leaves it.
  lemma StepAtTheGate(d: Daemon, threshold: int, a: Act)
    requires CanStep(d, a)
    ensures Inside(DaemonStep(d, threshold, a)) == (a.SpawnAcquires? || (Inside(d) && !a.SpawnReleases?))
    ensures a.SpawnAcquires? ==> !Inside(d)
    ensures a.SpawnReleases? ==> Inside(d)
  {
  }

  /** Free permits and spawns inside the guarded section add up to the configured bound. */
  lemma {:induction false} SpawnBound(hosts: set<string>, max: nat, threshold: int, moves: seq<Move>)
    requires CanRun(Start(hosts, max), threshold, moves)
    ensures var s := After(Start(hosts, max), threshold, moves);
            s.permits + |Insiders(s)| == max
  {
    if moves == [] {
      assert Insiders(Start(hosts, max)) == {};
    } else {
      var init, m := moves[..|moves| - 1], moves[|moves| - 1];
      SpawnBound(hosts, max, threshold, init);
      MoveKeepsBound(After(Start(hosts, max), threshold, init), threshold, m);
    }
  }

  lemma MoveKeepsBound(s: System, threshold: int, m: Move)
    requires CanMove(s, m)
    ensures var t := Moved(s, threshold, m);
            t.permits + |Insiders(t)| == s.permits + |Insiders(s)|
  {
    var t := Moved(s, threshold, m);
    StepAtTheGate(s.daemons[m.host], threshold, m.act);
    assert Insiders(t) == if m.act.SpawnAcquires? then Insiders(s) + {m.host}
                          else if m.act.SpawnReleases? then Insiders(s) - {m.host}
                          else Insiders(s);
  }

  // The daemon `host` in some state the process can reach.
  ghost predicate Reachable(d: Daemon, threshold: int) {
    exists hosts, max, moves, host :: ReachedBy(d, threshold, hosts, max, moves, host)
  }

  ghost predicate ReachedBy(d: Daemon, threshold: int, hosts: set<string>, max: nat, moves: seq<Move>, host: string) {
    && host in hosts
    && CanRun(Start(hosts, max), threshold, moves)
    && host in After(Start(hosts, max), threshold, moves).daemons
    && After(Start(hosts, max), threshold, moves).daemons[host] == d
  }

  lemma ReachableIsSound(d: Daemon, threshold: int)
    requires Reachable(d, threshold)
    ensures Coherent(d) && Justified(d, threshold) && forall id :: Balanced(d, id)
  {
    var hosts, max, moves, host :| ReachedBy(d, threshold, hosts, max, moves, host);
    DaemonIsolation(hosts, max, threshold, moves, host);
    LifeIsSound(threshold, ActsOf(host, moves));
  }

  lemma ReachableIsBalanced(d: Daemon, threshold: int, id: string)
    requires Reachable(d, threshold)
    ensures Balanced(d, id)
  {
    ReachableIsSound(d, threshold);
  }

  // ---------- The theorems ----------

  /** Two unfinished listeners of one container are the same task, and every unfinished
      listener is in `_tasks` or is the one `stop` is awaiting. */
  lemma AtMostOneListener(d: Daemon, threshold: int, t: TaskId, u: TaskId)
    requires Reachable(d, threshold)
    requires t in d.jobs && d.jobs[t].outcome.Unfinished?
    requires u in d.jobs && d.jobs[u].outcome.Unfinished?
    requires d.jobs[t].containerId == d.jobs[u].containerId
    ensures t == u
    ensures Owned(d, t)
  {
    ReachableIsSound(d, threshold);
    assert Owned(d, t) && Owned(d, u);
  }

  /** What is announced, active and in the tracker's hands never overlaps, and all of it is registered. */
  lemma RolesAreDisjoint(d: Daemon, threshold: int, id: string)
    requires Reachable(d, threshold)
    ensures id in d.tasks || id in Ids(Pending(d)) || id in Handled(d) ==> id in d.view.containers
    ensures id in Ids(Pending(d)) ==> id !in d.tasks && id !in Handled(d)
    ensures d.tracker.AwaitingStop? ==> d.tracker.id !in d.tasks
  {
    ReachableIsSound(d, threshold);
  }

  /** Every announcement creates exactly one task: none is skipped, and those not yet
      answered are the queued ones. The tracker never meets an unregistered id. */
  lemma EveryAnnouncementSpawns(d: Daemon, threshold: int, id: string)
    requires Reachable(d, threshold)
    ensures Count(d.log, Announce(id)) == Count(d.log, Create(id)) + if id in Ids(Pending(d)) then 1 else 0
    ensures SkipSpawn(id) !in d.log && Select(id, false) !in d.log
  {
    ReachableIsBalanced(d, threshold, id);
    ReachableIsSound(d, threshold);
  }

  /** Announcements minus forgets: one while registered, none otherwise. */
  lemma AnnouncementConservation(d: Daemon, threshold: int, id: string)
    requires Reachable(d, threshold)
    ensures Count(d.log, Announce(id)) == Count(d.log, Forget(id)) + if id in d.view.containers then 1 else 0
  {
    ReachableIsBalanced(d, threshold, id);
  }

  /** A listing announces a container it contains exactly if every earlier announcement of it
      was followed by a forget. */
  lemma ReannouncedIffForgotten(d: Daemon, threshold: int, listing: seq<ContainerRef>, id: string)
    requires Reachable(d, threshold) && d.updater.Resting? && id in Ids(listing)
    ensures id in Ids(Pending(OnListing(d, listing)))
            <==> Count(d.log, Announce(id)) == Count(d.log, Forget(id))
  {
    AnnouncementConservation(d, threshold, id);
    NewRefsMeaning(d.view.containers, listing);
    assert Pending(OnListing(d, listing)) == NewRefs(d.view.containers, listing);
  }

  /** The miss count of a registered container is exactly the number of successful listings
      since the most recent one that contained it; there is such a listing. */
  lemma MissCountIsExact(d: Daemon, threshold: int, id: string)
    requires Reachable(d, threshold) && id in d.view.containers
    ensures var misses := Misses(d.view, threshold, id);
            var listings := Listings(d.log);
            && 0 <= misses < |listings|
            && AbsentFromLast(listings, id, misses)
            && id in listings[|listings| - 1 - misses]
  {
    ReachableIsBalanced(d, threshold, id);
    MissedListingsMeaning(d.log, id);
  }

  /** Whenever the tracker selected a listener to stop, its container had been absent from at
      least `threshold` successful listings in a row. */
  lemma StopSafety(d: Daemon, threshold: nat, i: nat)
    requires Reachable(d, threshold) && i < |d.log| && d.log[i].Select?
    ensures AbsentFromLast(Listings(d.log[..i]), d.log[i].id, threshold)
  {
    ReachableIsSound(d, threshold);
    MissedListingsMeaning(d.log[..i], d.log[i].id);
  }

  /** And the verdict on an active container is exact: it is selected precisely if it has been
      absent from the `threshold` latest successful listings. */
  lemma VerdictIsExact(d: Daemon, threshold: nat)
    requires Reachable(d, threshold) && CanStep(d, PassChecks) && d.tracker.todo != []
    ensures DaemonStep(d, threshold, PassChecks).tracker.Reporting?
            <==> AbsentFromLast(Listings(d.log), d.tracker.todo[0], threshold)
  {
    var id := d.tracker.todo[0];
    assert id in Handled(d);
    RolesAreDisjoint(d, threshold, id);
    MissCountIsExact(d, threshold, id);
  }
}
