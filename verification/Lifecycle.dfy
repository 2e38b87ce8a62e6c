/** The listener lifecycle as a step machine: the listing loop, the spawner, the tracker and
    the listener tasks of every daemon share one event loop. A step is code without an
    interleaving point in it, built from the same functions the class methods are proved against;
    any enabled step may come next. Some steps are finer than the code's: a pass takes its snapshot
    and makes its checks up to a verdict without a break (container_tracker.py:52-61), here one by
    one. So every run of the code is a run of the machine, and a state `Scanning` is never seen. */
module Lifecycle {
  import opened Registry
  import opened ListenerManager
  import opened ContainerTracker

  datatype Outcome = Unfinished | Ended | Crashed

  // A listener task that was created; `notified` once its done-callback has run.
  datatype Job = Job(containerId: string, outcome: Outcome, notified: bool)

  // Where one daemon's listing loop is. While it dispatches, it does not list. `Aborted`: a
  // listing raised an error the loop does not catch.
  datatype Updater =
    | Resting
    | Dispatching(queue: seq<ContainerRef>)
    | AwaitingPermit(ref: ContainerRef, queue: seq<ContainerRef>)
    | Admitted(ref: ContainerRef, queue: seq<ContainerRef>)
    | Leaving(queue: seq<ContainerRef>)
    | Aborted

  // Where one daemon's tracker is. `Broken`: `stop` re-raised the error of a crashed task.
  datatype Tracker =
    | Sleeping
    | Scanning(todo: seq<string>)
    | Reporting(id: string, todo: seq<string>)
    | AwaitingStop(id: string, task: TaskId, todo: seq<string>)
    | Broken

  // What happened, oldest first: a history of the run that no step reads.
  datatype Event =
    | Listing(ids: set<string>)
    | FailedListing
    | Announce(id: string)
    | Create(id: string)
    | SkipSpawn(id: string)
    | Select(id: string, known: bool)
    | Forget(id: string)

  datatype Daemon = Daemon(
    view: DaemonView,
    tasks: map<string, TaskId>,
    jobs: map<TaskId, Job>,
    nextTask: TaskId,
    updater: Updater,
    tracker: Tracker,
    log: seq<Event>)

  datatype System = System(daemons: map<string, Daemon>, permits: nat)

  datatype Act =
    | ListingSucceeds(listing: seq<ContainerRef>)
    | ListingFails
    | ListingAborts
    | SpawnChecks
    | SpawnAcquires
    | SpawnRechecks
    | SpawnReleases
    | PassStarts(order: seq<string>)
    | PassChecks
    | StopPops
    | StopReturns
    | TaskEnds(task: TaskId, crashed: bool)
    | TaskNotifies(task: TaskId)

  datatype Move = Move(host: string, act: Act)

  // ---------- Steps of one daemon ----------

  // An error left the listing loop or the tracker. It passes through every `gather` and ends
  // the process (app.py:165, app.py:203, __main__.py:53).
  predicate Dead(d: Daemon) {
    d.updater.Aborted? || d.tracker.Broken?
  }

  ghost predicate CanStep(d: Daemon, a: Act) {
    !Dead(d) && Enabled(d, a)
  }

  ghost predicate Enabled(d: Daemon, a: Act) {
    match a
    case ListingSucceeds(_) => d.updater.Resting?
    case ListingFails => d.updater.Resting?
    case ListingAborts => d.updater.Resting?
    case SpawnChecks => d.updater.Dispatching? && d.updater.queue != []
    case SpawnAcquires => d.updater.AwaitingPermit?
    case SpawnRechecks => d.updater.Admitted?
    case SpawnReleases => d.updater.Leaving?
    case PassStarts(order) => d.tracker.Sleeping? && Enumerates(order, d.tasks.Keys)
    case PassChecks => d.tracker.Scanning?
    case StopPops => d.tracker.Reporting?
    case StopReturns =>
      d.tracker.AwaitingStop? && d.tracker.task in d.jobs && !d.jobs[d.tracker.task].outcome.Unfinished?
    case TaskEnds(task, _) => task in d.jobs && d.jobs[task].outcome.Unfinished?
    case TaskNotifies(task) => task in d.jobs && !d.jobs[task].outcome.Unfinished? && !d.jobs[task].notified
  }

  function Dispatch(queue: seq<ContainerRef>): Updater {
    if queue == [] then Resting else Dispatching(queue)
  }

  function Announcements(refs: seq<ContainerRef>): seq<Event> {
    if refs == [] then [] else Announcements(refs[..|refs| - 1]) + [Announce(refs[|refs| - 1].containerId)]
  }

  // registry.py:68-77, then the queue that lines 80-81 work off.
  function OnListing(d: Daemon, listing: seq<ContainerRef>): Daemon {
    var refs := NewRefs(d.view.containers, listing);
    d.(view := Listed(d.view, listing),
       updater := Dispatch(refs),
       log := d.log + [Listing(Ids(listing))] + Announcements(refs))
  }

  // app.py:63-64
  function OnSpawnCheck(d: Daemon): Daemon
    requires d.updater.Dispatching? && d.updater.queue != []
  {
    var ref, rest := d.updater.queue[0], d.updater.queue[1..];
    if ref.containerId in d.tasks then d.(updater := Dispatch(rest), log := d.log + [SkipSpawn(ref.containerId)])
    else d.(updater := AwaitingPermit(ref, rest))
  }

  // app.py:66-79
  function OnSpawnRecheck(d: Daemon): Daemon
    requires d.updater.Admitted?
  {
    var id := d.updater.ref.containerId;
    if id in d.tasks then d.(updater := Leaving(d.updater.queue), log := d.log + [SkipSpawn(id)])
    else d.(tasks := Spawned(d.tasks, id, d.nextTask),
            jobs := d.jobs[d.nextTask := Job(id, Unfinished, false)],
            nextTask := d.nextTask + 1,
            updater := Leaving(d.updater.queue),
            log := d.log + [Create(id)])
  }

  // container_tracker.py:52-61
  function OnPassCheck(d: Daemon, threshold: int): Daemon
    requires d.tracker.Scanning?
  {
    if d.tracker.todo == [] then d.(tracker := Sleeping)
    else
      var id, rest := d.tracker.todo[0], d.tracker.todo[1..];
      if Vanished(d.view, threshold, id)
      then d.(tracker := Reporting(id, rest), log := d.log + [Select(id, id in d.view.containers)])
      else d.(tracker := Scanning(rest))
  }

  // container_tracker.py:69
  function OnForget(d: Daemon, id: string, todo: seq<string>): Daemon {
    d.(view := Forgotten(d.view, id), tracker := Scanning(todo), log := d.log + [Forget(id)])
  }

  // app.py:110-113; without a task to wait for, the forget follows at once.
  function OnStopPop(d: Daemon): Daemon
    requires d.tracker.Reporting?
  {
    var id, todo := d.tracker.id, d.tracker.todo;
    if id in d.tasks then d.(tasks := d.tasks - {id}, tracker := AwaitingStop(id, d.tasks[id], todo))
    else OnForget(d, id, todo)
  }

  function DaemonStep(d: Daemon, threshold: int, a: Act): Daemon
    requires CanStep(d, a)
  {
    match a
    case ListingSucceeds(listing) => OnListing(d, listing)
    case ListingFails => d.(log := d.log + [FailedListing])
    case ListingAborts => d.(updater := Aborted)
    case SpawnChecks => OnSpawnCheck(d)
    case SpawnAcquires => d.(updater := Admitted(d.updater.ref, d.updater.queue))
    case SpawnRechecks => OnSpawnRecheck(d)
    case SpawnReleases => d.(updater := Dispatch(d.updater.queue))
    case PassStarts(order) => d.(tracker := Scanning(order))
    case PassChecks => OnPassCheck(d, threshold)
    case StopPops => OnStopPop(d)
    case StopReturns =>
      if d.jobs[d.tracker.task].outcome.Crashed? then d.(tracker := Broken)
      else OnForget(d, d.tracker.id, d.tracker.todo)
    case TaskEnds(task, crashed) =>
      d.(jobs := d.jobs[task := d.jobs[task].(outcome := if crashed then Crashed else Ended)])
    case TaskNotifies(task) =>
      d.(tasks := Dropped(d.tasks, d.jobs[task].containerId, task),
         jobs := d.jobs[task := d.jobs[task].(notified := true)])
  }

  // `acts` is a schedule one daemon can follow from `d`, and the state it then reaches.
  ghost predicate CanLive(d: Daemon, threshold: int, acts: seq<Act>)
    decreases |acts|, 0
  {
    acts == [] || (CanLive(d, threshold, acts[..|acts| - 1])
                   && CanStep(Lived(d, threshold, acts[..|acts| - 1]), acts[|acts| - 1]))
  }

  ghost function Lived(d: Daemon, threshold: int, acts: seq<Act>): Daemon
    requires CanLive(d, threshold, acts)
    decreases |acts|, 1
  {
    if acts == [] then d
    else DaemonStep(Lived(d, threshold, acts[..|acts| - 1]), threshold, acts[|acts| - 1])
  }

  const NEW_LIFE := Daemon(NEW_DAEMON, map[], map[], 0, Resting, Sleeping, [])

  // ---------- The process: all daemons, one semaphore ----------

  // No daemon's loop has let an error out.
  ghost predicate Alive(s: System) {
    forall host :: host in s.daemons ==> !Dead(s.daemons[host])
  }

  ghost predicate CanMove(s: System, m: Move) {
    && m.host in s.daemons
    && Alive(s)
    && CanStep(s.daemons[m.host], m.act)
    && (m.act.SpawnAcquires? ==> s.permits > 0)
  }

  ghost function Moved(s: System, threshold: int, m: Move): System
    requires CanMove(s, m)
  {
    System(s.daemons[m.host := DaemonStep(s.daemons[m.host], threshold, m.act)],
           if m.act.SpawnAcquires? then s.permits - 1 else if m.act.SpawnReleases? then s.permits + 1 else s.permits)
  }

  function Start(hosts: set<string>, max: nat): System {
    System(map host | host in hosts :: NEW_LIFE, max)
  }

  ghost predicate CanRun(s: System, threshold: int, moves: seq<Move>)
    decreases |moves|, 0
  {
    moves == [] || (CanRun(s, threshold, moves[..|moves| - 1])
                    && CanMove(After(s, threshold, moves[..|moves| - 1]), moves[|moves| - 1]))
  }

  ghost function After(s: System, threshold: int, moves: seq<Move>): System
    requires CanRun(s, threshold, moves)
    decreases |moves|, 1
  {
    if moves == [] then s
    else Moved(After(s, threshold, moves[..|moves| - 1]), threshold, moves[|moves| - 1])
  }
}
