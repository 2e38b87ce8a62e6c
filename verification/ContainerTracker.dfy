/** The container tracker (container_tracker.py): one reconciliation pass of the active
    listeners against the registry. */
module ContainerTracker {
  import opened Registry
  import opened ListenerManager

  // The miss count of line 53-59; an id the registry does not know counts as missing.
  function Misses(view: DaemonView, threshold: int, containerId: string): int {
    if containerId in view.containers then view.listingSeq - view.containers[containerId].lastSeenSeq
    else threshold
  }

  predicate Vanished(view: DaemonView, threshold: int, containerId: string) {
    Misses(view, threshold, containerId) >= threshold
  }

  // `order` is an iteration order of the set `ids`.
  ghost predicate Enumerates(order: seq<string>, ids: set<string>) {
    && (forall id :: id in ids <==> id in order)
    && (forall i, j :: 0 <= i < j < |order| ==> order[i] != order[j])
  }

  class ContainerTracker {
    const registry: Registry
    const dockerHost: string
    const listeners: ListenerManager
    const missingThresholdCycles: int

    constructor (registry: Registry, dockerHost: string, listeners: ListenerManager,
                 missingThresholdCycles: int)
      ensures this.registry == registry && this.dockerHost == dockerHost
      ensures this.listeners == listeners && this.missingThresholdCycles == missingThresholdCycles
    {
      this.registry, this.dockerHost := registry, dockerHost;
      this.listeners, this.missingThresholdCycles := listeners, missingThresholdCycles;
    }

    // The loop body for one active id: the check, and the stop and forget it may lead to.
    method Reconcile(containerId: string)
      requires registry.Valid() && dockerHost in registry.daemons
      modifies registry.daemons.Values, listeners
      ensures registry.Valid() && registry.daemons == old(registry.daemons)
      ensures var view := old(registry.ViewOf(dockerHost));
              var missing := containerId !in view.containers
                             || view.listingSeq - view.containers[containerId].lastSeenSeq >= missingThresholdCycles;
              var stopped := if missing then {containerId} else {};
              && listeners.tasks == old(listeners.tasks) - stopped
              && registry.ViewOf(dockerHost) == view.(containers := view.containers - stopped)
      ensures forall host :: host != dockerHost ==> registry.ViewOf(host) == old(registry.ViewOf(host))
    {
      var misses := Misses(registry.daemons[dockerHost].View(), missingThresholdCycles, containerId);
      if misses >= missingThresholdCycles {
        var task := listeners.Stop(containerId);
        registry.Forget(dockerHost, containerId);
      }
    }

    // The loop over the snapshot of active ids.
    method ReconcileAll(order: seq<string>)
      requires registry.Valid() && dockerHost in registry.daemons
      requires forall i, j :: 0 <= i < j < |order| ==> order[i] != order[j]
      modifies registry.daemons.Values, listeners
      ensures registry.Valid() && registry.daemons == old(registry.daemons)
      ensures var view := old(registry.ViewOf(dockerHost));
              var stopped := VanishedIn(view, missingThresholdCycles, order);
              && listeners.tasks == old(listeners.tasks) - stopped
              && registry.ViewOf(dockerHost) == view.(containers := view.containers - stopped)
      ensures forall host :: host != dockerHost ==> registry.ViewOf(host) == old(registry.ViewOf(host))
    {
      ghost var view := registry.ViewOf(dockerHost);
      for i := 0 to |order|
        invariant registry.Valid() && registry.daemons == old(registry.daemons)
        invariant listeners.tasks == old(listeners.tasks) - VanishedIn(view, missingThresholdCycles, order[..i])
        invariant registry.ViewOf(dockerHost)
                  == view.(containers := view.containers - VanishedIn(view, missingThresholdCycles, order[..i]))
        invariant forall host :: host != dockerHost ==> registry.ViewOf(host) == old(registry.ViewOf(host))
      {
        VanishedStep(view, missingThresholdCycles, order, i);
        Reconcile(order[i]);
      }
      assert order[..|order|] == order;
    }

    // One pass with nothing interleaved, in any iteration order of the active set: exactly
    // the vanished active containers are stopped and forgotten.
    method RunOnce(order: seq<string>)
      requires registry.Valid()
      requires Enumerates(order, listeners.ActiveContainerIds())
      modifies registry, registry.daemons.Values, listeners
      ensures registry.Valid()
      ensures var view := old(registry.ViewOf(dockerHost));
              var threshold := missingThresholdCycles;
              var stopped := set id | id in old(listeners.tasks)
                                      && (id !in view.containers
                                          || view.listingSeq - view.containers[id].lastSeenSeq >= threshold);
              && listeners.tasks == old(listeners.tasks) - stopped
              && registry.ViewOf(dockerHost) == view.(containers := view.containers - stopped)
      ensures forall host :: host != dockerHost ==> registry.ViewOf(host) == old(registry.ViewOf(host))
    {
      var state := registry.StateFor(dockerHost);
      ReconcileAll(order);
    }
  }

  function VanishedIn(view: DaemonView, threshold: int, order: seq<string>): set<string> {
    set id | id in order && Vanished(view, threshold, id)
  }

  // Stopping earlier ids of the pass does not change the verdict on a later one.
  lemma VanishedStep(view: DaemonView, threshold: int, order: seq<string>, i: nat)
    requires i < |order| && forall j, k :: 0 <= j < k < |order| ==> order[j] != order[k]
    ensures var before := VanishedIn(view, threshold, order[..i]);
            && Vanished(view.(containers := view.containers - before), threshold, order[i])
               == Vanished(view, threshold, order[i])
            && VanishedIn(view, threshold, order[..i + 1])
               == before + if Vanished(view, threshold, order[i]) then {order[i]} else {}
  {
  }
}
