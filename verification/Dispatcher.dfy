/** The wiring of the process (app.py: run, _build_new_container_dispatcher): one listener
    manager per daemon, one semaphore for all of them, and one callback that routes newly
    discovered containers. Without interleaving, so that a permit is always free. */
module Dispatcher {
  import opened Wrappers
  import opened Registry
  import opened ListenerManager

  // A daemon the dispatcher has no manager for: `KeyError`.
  datatype RoutingError = UnknownDaemon

  // The tasks after spawning these refs in turn, with fresh identities from `next` on.
  function SpawnedAll(tasks: map<string, TaskId>, refs: seq<ContainerRef>, next: TaskId): map<string, TaskId> {
    if refs == [] then tasks
    else Spawned(SpawnedAll(tasks, refs[..|refs| - 1], next), refs[|refs| - 1].containerId, next + |refs| - 1)
  }

  /** Spawning leaves running listeners alone and gives every other container its own task. */
  lemma {:induction false} SpawnedAllMeaning(tasks: map<string, TaskId>, refs: seq<ContainerRef>, next: TaskId)
    ensures var after := SpawnedAll(tasks, refs, next);
            && after.Keys == tasks.Keys + Ids(refs)
            && (forall id :: id in tasks ==> after[id] == tasks[id])
            && (forall id :: id in after && id !in tasks ==> next <= after[id] < next + |refs|)
            && (forall id, jd :: id in after && jd in after && id !in tasks && jd !in tasks && id != jd ==>
              after[id] != after[jd])
  {
    if refs != [] {
      SpawnedAllMeaning(tasks, refs[..|refs| - 1], next);
      IdsOfLast(refs);
    }
  }

  class Dispatcher {
    const managers: map<string, ListenerManager>
    const spawnSemaphore: Semaphore

    // Every daemon has its own manager, and all of them share the semaphore.
    ghost predicate Valid() {
      forall host :: host in managers ==>
        managers[host].dockerHost == host && managers[host].spawnSemaphore == spawnSemaphore
    }

    constructor (daemonIds: seq<string>, max: nat)
      ensures Valid() && managers.Keys == (set id | id in daemonIds)
      ensures spawnSemaphore.permits == max && fresh(spawnSemaphore)
      ensures forall host :: host in managers ==> managers[host].tasks == map[] && fresh(managers[host])
    {
      var semaphore := new Semaphore(max);
      var byDaemon: map<string, ListenerManager> := map[];
      for i := 0 to |daemonIds|
        invariant semaphore.permits == max && fresh(semaphore)
        invariant byDaemon.Keys == set id | id in daemonIds[..i]
        invariant forall host :: host in byDaemon ==>
                    && byDaemon[host].dockerHost == host && byDaemon[host].spawnSemaphore == semaphore
                    && byDaemon[host].tasks == map[] && fresh(byDaemon[host])
      {
        assert daemonIds[..i + 1] == daemonIds[..i] + [daemonIds[i]];
        var manager := new ListenerManager(daemonIds[i], semaphore);
        byDaemon := byDaemon[daemonIds[i] := manager];
      }
      assert daemonIds[..|daemonIds|] == daemonIds;
      managers, spawnSemaphore := byDaemon, semaphore;
    }

    // The registered callback: the container goes to its own daemon's manager and to no other.
    method OnNewContainer(dockerHost: string, ref: ContainerRef, next: TaskId)
      returns (created: Result<bool, RoutingError>)
      requires Valid() && spawnSemaphore.permits > 0
      modifies if dockerHost in managers then {managers[dockerHost], spawnSemaphore} else {}
      ensures created.Failure? <==> dockerHost !in managers
      ensures dockerHost in managers ==>
                && created.value == (ref.containerId !in old(managers[dockerHost].tasks))
                && managers[dockerHost].tasks == Spawned(old(managers[dockerHost].tasks), ref.containerId, next)
      ensures forall host :: host in managers && host != dockerHost ==>
                managers[host].tasks == old(managers[host].tasks)
      ensures spawnSemaphore.permits == old(spawnSemaphore.permits)
    {
      if dockerHost !in managers {
        return Failure(UnknownDaemon);
      }
      var spawned := managers[dockerHost].Spawn(ref, next);
      created := Success(spawned);
    }

    // The loop over the newly found refs at the end of `Registry.update`.
    method DispatchAll(dockerHost: string, refs: seq<ContainerRef>, next: TaskId)
      requires Valid() && spawnSemaphore.permits > 0 && dockerHost in managers
      modifies managers[dockerHost], spawnSemaphore
      ensures managers[dockerHost].tasks == SpawnedAll(old(managers[dockerHost].tasks), refs, next)
      ensures forall host :: host in managers && host != dockerHost ==>
                managers[host].tasks == old(managers[host].tasks)
      ensures spawnSemaphore.permits == old(spawnSemaphore.permits)
    {
      for i := 0 to |refs|
        invariant managers[dockerHost].tasks == SpawnedAll(old(managers[dockerHost].tasks), refs[..i], next)
        invariant forall host :: host in managers && host != dockerHost ==>
                    managers[host].tasks == old(managers[host].tasks)
        invariant spawnSemaphore.permits == old(spawnSemaphore.permits)
      {
        assert refs[..i + 1][..i] == refs[..i];
        var created := OnNewContainer(dockerHost, refs[i], next + i);
      }
      assert refs[..|refs|] == refs;
    }

    // `Registry.update` with its callbacks: afterwards exactly the containers that were active
    // or newly found are active, each new one under a task of its own.
    method Discover(registry: Registry, dockerHost: string, listing: seq<ContainerRef>, next: TaskId)
      requires Valid() && spawnSemaphore.permits > 0 && dockerHost in managers && registry.Valid()
      modifies registry, registry.daemons.Values, managers[dockerHost], spawnSemaphore
      ensures registry.Valid()
      ensures registry.ViewOf(dockerHost) == Listed(old(registry.ViewOf(dockerHost)), listing)
      ensures var before, after := old(managers[dockerHost].tasks), managers[dockerHost].tasks;
              var found := Ids(listing) - old(registry.ViewOf(dockerHost)).containers.Keys;
              && after.Keys == before.Keys + found
              && (forall id :: id in before ==> after[id] == before[id])
              && (forall id :: id in after && id !in before ==> after[id] >= next)
              && (forall id, jd :: id in after && jd in after && id !in before && jd !in before && id != jd ==>
                after[id] != after[jd])
      ensures forall host :: host != dockerHost ==> registry.ViewOf(host) == old(registry.ViewOf(host))
      ensures forall host :: host in managers && host != dockerHost ==>
                managers[host].tasks == old(managers[host].tasks)
    {
      ghost var containers := registry.ViewOf(dockerHost).containers;
      ghost var tasks := managers[dockerHost].tasks;
      var refs := registry.Update(dockerHost, listing);
      NewRefsMeaning(containers, listing);
      SpawnedAllMeaning(tasks, refs, next);
      DispatchAll(dockerHost, refs, next);
    }
  }
}
