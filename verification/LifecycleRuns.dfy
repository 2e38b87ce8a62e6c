/** Every schedule of one daemon is part of a run of the process: neither the other daemons nor
    the shared semaphore can keep a daemon from it, as long as there is a permit at all. */
module LifecycleRuns {
  import opened Lifecycle
  import opened LifecycleCycles
  import opened LifecycleTheorems

  // `moves` takes the process from its start to `s`.
  ghost predicate Runs(hosts: set<string>, max: nat, threshold: int, moves: seq<Move>, s: System) {
    CanRun(Start(hosts, max), threshold, moves) && After(Start(hosts, max), threshold, moves) == s
  }

  // The same daemon states and own schedule as before; the others are still alive.
  ghost predicate Untouched(moves: seq<Move>, s: System, more: seq<Move>, t: System, host: string) {
    && host in s.daemons && host in t.daemons
    && t.daemons[host] == s.daemons[host]
    && ActsOf(host, more) == ActsOf(host, moves)
    && Alive(t)
  }

  lemma OneMoreMove(hosts: set<string>, max: nat, threshold: int, moves: seq<Move>, s: System, m: Move)
    returns (more: seq<Move>, t: System)
    requires Runs(hosts, max, threshold, moves, s) && CanMove(s, m)
    ensures Runs(hosts, max, threshold, more, t) && t == Moved(s, threshold, m)
    ensures forall host :: ActsOf(host, more) == ActsOf(host, moves) + if m.host == host then [m.act] else []
  {
    more, t := moves + [m], Moved(s, threshold, m);
    assert more[..|moves|] == moves;
  }

  // One step inside the guarded section, seen from the others.
  lemma SectionStep(s: System, threshold: int, g: string, a: Act)
    requires Alive(s) && g in s.daemons && CanStep(s.daemons[g], a) && (a.SpawnRechecks? || a.SpawnReleases?)
    ensures CanMove(s, Move(g, a))
    ensures var t := Moved(s, threshold, Move(g, a));
            Alive(t) && Insiders(t) == if a.SpawnReleases? then Insiders(s) - {g} else Insiders(s)
  {
    var t := Moved(s, threshold, Move(g, a));
    StepAtTheGate(s.daemons[g], threshold, a);
    assert !Dead(t.daemons[g]);
  }

  // One step of another daemon that does not end the process.
  lemma OtherMoves(hosts: set<string>, max: nat, threshold: int, moves: seq<Move>, s: System, g: string, a: Act)
    returns (more: seq<Move>, t: System)
    requires Runs(hosts, max, threshold, moves, s) && Alive(s) && g in s.daemons && CanStep(s.daemons[g], a)
    requires a.SpawnRechecks? || a.SpawnReleases?
    ensures Runs(hosts, max, threshold, more, t) && t == Moved(s, threshold, Move(g, a))
    ensures forall host :: host in s.daemons && host != g ==> Untouched(moves, s, more, t, host)
    ensures Alive(t) && Insiders(t) == if a.SpawnReleases? then Insiders(s) - {g} else Insiders(s)
  {
    SectionStep(s, threshold, g, a);
    more, t := OneMoreMove(hosts, max, threshold, moves, s, Move(g, a));
  }

  // A daemon inside the guarded section can leave it at once.
  lemma OneLeaves(hosts: set<string>, max: nat, threshold: int, moves: seq<Move>, s: System, g: string)
    returns (more: seq<Move>, t: System)
    requires Runs(hosts, max, threshold, moves, s) && Alive(s) && g in Insiders(s)
    ensures Runs(hosts, max, threshold, more, t) && Alive(t) && Insiders(t) == Insiders(s) - {g}
    ensures forall host :: host in s.daemons && host != g ==> Untouched(moves, s, more, t, host)
  {
    more, t := moves, s;
    if s.daemons[g].updater.Admitted? {
      more, t := OtherMoves(hosts, max, threshold, more, t, g, SpawnRechecks);
    }
    more, t := OtherMoves(hosts, max, threshold, more, t, g, SpawnReleases);
  }

  lemma {:induction false} AllLeave(hosts: set<string>, max: nat, threshold: int, moves: seq<Move>, s: System,
                                    host: string)
    returns (more: seq<Move>, t: System)
    requires Runs(hosts, max, threshold, moves, s) && Alive(s) && host in s.daemons && !Inside(s.daemons[host])
    ensures Runs(hosts, max, threshold, more, t) && Untouched(moves, s, more, t, host) && Insiders(t) == {}
    decreases Insiders(s)
  {
    more, t := moves, s;
    if Insiders(s) != {} {
      var g :| g in Insiders(s);
      more, t := OneLeaves(hosts, max, threshold, moves, s, g);
      more, t := AllLeave(hosts, max, threshold, more, t, host);
    }
  }

  // One step of a daemon, after the others have made room for it if it needs a permit.
  lemma StepIsMade(hosts: set<string>, max: nat, threshold: int, moves: seq<Move>, s: System, host: string, a: Act)
    returns (more: seq<Move>, t: System)
    requires max >= 1 && Runs(hosts, max, threshold, moves, s) && Alive(s)
    requires host in s.daemons && CanStep(s.daemons[host], a)
    ensures Runs(hosts, max, threshold, more, t) && host in t.daemons
    ensures t.daemons[host] == DaemonStep(s.daemons[host], threshold, a)
    ensures ActsOf(host, more) == ActsOf(host, moves) + [a]
    ensures Alive(t) || Dead(t.daemons[host])
  {
    more, t := moves, s;
    if a.SpawnAcquires? {
      more, t := AllLeave(hosts, max, threshold, moves, s, host);
      SpawnBound(hosts, max, threshold, more);
    }
    more, t := OneMoreMove(hosts, max, threshold, more, t, Move(host, a));
  }

  lemma LastStep(d: Daemon, threshold: int, acts: seq<Act>, e: Daemon) returns (before: Daemon)
    requires acts != [] && Lives(d, threshold, acts, e)
    ensures Lives(d, threshold, acts[..|acts| - 1], before)
    ensures CanStep(before, acts[|acts| - 1]) && e == DaemonStep(before, threshold, acts[|acts| - 1])
  {
    before := Lived(d, threshold, acts[..|acts| - 1]);
  }

  /** From any state of any run in which the process is alive, every schedule one daemon can
      follow alone is followed in some continuation of the run. Together with the isolation of
      daemons, the states of a daemon in the process are exactly those of its life alone. */
  lemma {:induction false} LifeIsARun(hosts: set<string>, max: nat, threshold: int, moves: seq<Move>, s: System,
                                      host: string, acts: seq<Act>, e: Daemon)
    returns (more: seq<Move>, t: System)
    requires max >= 1 && Runs(hosts, max, threshold, moves, s) && Alive(s)
    requires host in s.daemons && Lives(s.daemons[host], threshold, acts, e)
    ensures Runs(hosts, max, threshold, more, t) && host in t.daemons && t.daemons[host] == e
    ensures ActsOf(host, more) == ActsOf(host, moves) + acts
    ensures Alive(t) || Dead(e)
    decreases |acts|
  {
    if acts == [] {
      more, t := moves, s;
    } else {
      var init, a := acts[..|acts| - 1], acts[|acts| - 1];
      assert acts == init + [a];
      var d := LastStep(s.daemons[host], threshold, acts, e);
      more, t := LifeIsARun(hosts, max, threshold, moves, s, host, init, d);
      more, t := StepIsMade(hosts, max, threshold, more, t, host, a);
    }
  }

  /** Whatever a daemon can live through from its start, it reaches in a process. */
  lemma LivedIsReachable(threshold: int, acts: seq<Act>, d: Daemon)
    requires Lives(NEW_LIFE, threshold, acts, d)
    ensures Reachable(d, threshold)
  {
    var start := Start({""}, 1);
    assert Runs({""}, 1, threshold, [], start);
    var moves, t := LifeIsARun({""}, 1, threshold, [], start, "", acts, d);
    assert ReachedBy(d, threshold, {""}, 1, moves, "");
  }
}
