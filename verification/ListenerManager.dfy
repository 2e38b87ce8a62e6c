/** `ListenerManager` (app.py): the running container listeners of one daemon. An asyncio
    task is represented by its identity; the event loop hands out fresh ones. Every method
    below is a stretch of code with no interleaving point in it. */
module ListenerManager {
  import opened Wrappers
  import opened Registry

  type TaskId = nat

  // What spawn, the done-callback and stop do to the `_tasks` dictionary.
  function Spawned(tasks: map<string, TaskId>, containerId: string, task: TaskId): map<string, TaskId> {
    if containerId in tasks then tasks else tasks[containerId := task]
  }

  function Dropped(tasks: map<string, TaskId>, containerId: string, task: TaskId): map<string, TaskId> {
    if containerId in tasks && tasks[containerId] == task then tasks - {containerId} else tasks
  }

  // The process-wide bound on listener startups.
  class Semaphore {
    var permits: nat

    constructor (max: nat)
      ensures permits == max
    {
      permits := max;
    }

    method Acquire()
      requires permits > 0
      modifies this
      ensures permits == old(permits) - 1
    {
      permits := permits - 1;
    }

    method Release()
      modifies this
      ensures permits == old(permits) + 1
    {
      permits := permits + 1;
    }
  }

  class ListenerManager {
    const dockerHost: string
    const spawnSemaphore: Semaphore
    var tasks: map<string, TaskId>

    constructor (dockerHost: string, spawnSemaphore: Semaphore)
      ensures this.dockerHost == dockerHost && this.spawnSemaphore == spawnSemaphore && tasks == map[]
    {
      this.dockerHost := dockerHost;
      this.spawnSemaphore := spawnSemaphore;
      tasks := map[];
    }

    function ActiveContainerIds(): set<string>
      reads this
    {
      tasks.Keys
    }

    // The guarded section of `spawn` up to its only interleaving point: the re-check after
    // waiting for a permit, and the creation of the task.
    method SpawnAdmitted(ref: ContainerRef, next: TaskId) returns (created: bool)
      modifies this
      ensures created <==> ref.containerId !in old(tasks)
      ensures tasks == Spawned(old(tasks), ref.containerId, next)
    {
      if ref.containerId in tasks {
        return false;
      }
      tasks := tasks[ref.containerId := next];
      created := true;
    }

    // The whole of `spawn` when a permit is free and nothing interleaves.
    method Spawn(ref: ContainerRef, next: TaskId) returns (created: bool)
      requires spawnSemaphore.permits > 0
      modifies this, spawnSemaphore
      ensures created <==> ref.containerId !in old(tasks)
      ensures tasks == Spawned(old(tasks), ref.containerId, next)
      ensures spawnSemaphore.permits == old(spawnSemaphore.permits)
    {
      if ref.containerId in tasks {
        return false;
      }
      spawnSemaphore.Acquire();
      created := SpawnAdmitted(ref, next);
      spawnSemaphore.Release();
    }

    // The done-callback registered for `containerId`, called with the task that ended.
    method OnDone(containerId: string, task: TaskId)
      modifies this
      ensures tasks == Dropped(old(tasks), containerId, task)
    {
      if containerId in tasks && tasks[containerId] == task {
        tasks := tasks - {containerId};
      }
    }

    // `stop` up to the await: the task to cancel and wait for, if there is one.
    method Stop(containerId: string) returns (task: Option<TaskId>)
      modifies this
      ensures task == if containerId in old(tasks) then Some(old(tasks)[containerId]) else None
      ensures tasks == old(tasks) - {containerId}
    {
      task := if containerId in tasks then Some(tasks[containerId]) else None;
      tasks := tasks - {containerId};
    }
  }
}
