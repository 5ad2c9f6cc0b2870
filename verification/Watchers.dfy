/**
 The service watcher as a transition system: a map of watchers behind a read-write lock, the event
 tasks spawned for them, the calls in progress, the command queue and the worker that drains it.
 */
module Watchers {
  import opened Wrappers
  import opened HostConfigs
  import opened Manifests
  import opened Clusters

  /**
   A watcher is a value: cloning it copies its namespaces. The cancellation token is shared between
   clones, so it appears by its number.
   */
  datatype Watcher = Watcher(namespaces: set<string>, lattice: string, shutdown: nat)

  /** A spawned event task with the clone it owns; a task that is no longer running has dropped it. */
  datatype Task = Task(dup: Watcher, running: bool)

  /** What the watcher's operations work on. Task number i owns token number i. */
  datatype Shared = Shared(
    watchers: map<string, Watcher>,
    tasks: seq<Task>,
    cancelled: set<nat>,
    sent: seq<Command>)

  /** An application as wadm lists it. */
  datatype App = App(name: string, deployed: bool)

  /** How an address is read, and how the cluster answers. */
  datatype Setup = Setup(parse: string -> Option<Port>, api: Api, world: World)

  // ---------------------------------------------------------------- the pieces of the operations

  function Send(s: Shared, c: Command): Shared {
    s.(sent := s.sent + [c])
  }

  /** The command a published manifest gives rise to; none without a usable http server. */
  function PublishedCommand(setup: Setup, w: Watcher, m: Manifest): Option<Command> {
    match HttpServerOf(m)
    case None => None
    case Some(server) =>
      match setup.parse(server.address)
      case None => None
      case Some(port) => Some(UpsertService(ServiceParams(m.name, w.namespaces, w.lattice, port, server.labels)))
  }

  /** handle_manifest_published. */
  function Publish(setup: Setup, s: Shared, w: Watcher, m: Manifest): Shared {
    match PublishedCommand(setup, w, m)
    case None => s
    case Some(c) => Send(s, c)
  }

  /** handle_manifest_unpublished. */
  function Unpublish(s: Shared, w: Watcher, name: string): Shared {
    Send(s, RemoveService(name, w.namespaces))
  }

  /** watch on a lattice that is already watched. */
  function AddNamespace(s: Shared, lattice: string, ns: string): Shared
    requires lattice in s.watchers
  {
    var w := s.watchers[lattice];
    s.(watchers := s.watchers[lattice := w.(namespaces := w.namespaces + {ns})])
  }

  /** The end of watch: a new watcher with its task; a watcher it replaces would be dropped. */
  function Install(s: Shared, lattice: string, ns: string): Shared {
    var w := Watcher({ns}, lattice, |s.tasks|);
    s.(watchers := s.watchers[lattice := w],
       tasks := s.tasks + [Task(w, true)],
       cancelled := s.cancelled + (if lattice in s.watchers then {s.watchers[lattice].shutdown} else {}))
  }

  /** stop_watch: removing the last namespace drops the watcher and so cancels its token. */
  function Stop(s: Shared, lattice: string, ns: string): Shared {
    if lattice !in s.watchers then s
    else
      var w := s.watchers[lattice];
      var w' := w.(namespaces := w.namespaces - {ns});
      var s' := if w'.namespaces == {}
                then s.(watchers := s.watchers - {lattice}, cancelled := s.cancelled + {w.shutdown})
                else s.(watchers := s.watchers[lattice := w']);
      Send(s', RemoveServices({ns}))
  }

  /** One application of reconcile_services; fetched is the answer to the request for its manifest. */
  function ReconcileApp(setup: Setup, s: Shared, w: Watcher, app: App, fetched: Option<Manifest>): Shared {
    if !app.deployed || fetched.None? then s else Publish(setup, s, w, fetched.value)
  }

  // ---------------------------------------------------------------- the transition system

  datatype RwLock = RwLock(readers: set<nat>, writer: Option<nat>)

  /** A call that holds the lock across an await. */
  datatype Call =
    | Reconciling(watcher: Watcher, apps: seq<App>)
    | OpeningStream(lattice: string, ns: string)
    | OpeningConsumer(lattice: string, ns: string)

  datatype State = State(shared: Shared, lock: RwLock, calls: map<nat, Call>, processed: nat, world: World)

  datatype Action =
    | BeginReconcile(id: nat, lattice: string, apps: seq<App>)
    | ReconcileNext(id: nat, fetched: Option<Manifest>)
    | EndReconcile(id: nat)
    | BeginWatch(id: nat, lattice: string, ns: string)
    | StreamReady(id: nat, ok: bool)
    | ConsumerReady(id: nat, ok: bool)
    | StopWatch(lattice: string, ns: string)
    | TaskPublished(task: nat, manifest: Manifest)
    | TaskUnpublished(task: nat, name: string)
    | TaskSeesCancellation(task: nat)
    | TaskEnds(task: nat)
    | WorkerNext

  function Start(setup: Setup): State {
    State(Shared(map[], [], {}, []), RwLock({}, None), map[], 0, setup.world)
  }

  predicate CanRead(lock: RwLock) {
    lock.writer.None?
  }

  predicate CanWrite(lock: RwLock) {
    lock.writer.None? && lock.readers == {}
  }

  predicate RunningTask(s: Shared, task: nat) {
    task < |s.tasks| && s.tasks[task].running
  }

  predicate Enabled(s: State, a: Action) {
    match a
    case BeginReconcile(id, _, _) => CanRead(s.lock) && id !in s.calls
    case ReconcileNext(id, _) => id in s.calls && s.calls[id].Reconciling? && s.calls[id].apps != []
    case EndReconcile(id) => id in s.calls && s.calls[id].Reconciling? && s.calls[id].apps == []
    case BeginWatch(id, _, _) => CanWrite(s.lock) && id !in s.calls
    case StreamReady(id, _) => id in s.calls && s.calls[id].OpeningStream?
    case ConsumerReady(id, _) => id in s.calls && s.calls[id].OpeningConsumer?
    case StopWatch(_, _) => CanWrite(s.lock)
    case TaskPublished(task, _) => RunningTask(s.shared, task)
    case TaskUnpublished(task, _) => RunningTask(s.shared, task)
    case TaskSeesCancellation(task) => RunningTask(s.shared, task) && task in s.shared.cancelled
    case TaskEnds(task) => RunningTask(s.shared, task)
    case WorkerNext => s.processed < |s.shared.sent|
  }

  /** The call returns: it is over and whatever lock it held is free. */
  function Return(s: State, id: nat): State {
    s.(calls := s.calls - {id},
       lock := RwLock(s.lock.readers - {id}, if s.lock.writer == Some(id) then None else s.lock.writer))
  }

  function StopTask(s: Shared, task: nat): Shared
    requires task < |s.tasks|
  {
    s.(tasks := s.tasks[task := s.tasks[task].(running := false)], cancelled := s.cancelled + {task})
  }

  function Next(setup: Setup, s: State, a: Action): State
    requires Enabled(s, a)
  {
    match a
    case BeginReconcile(id, lattice, apps) =>
      if lattice !in s.shared.watchers then s
      else s.(calls := s.calls[id := Reconciling(s.shared.watchers[lattice], apps)],
              lock := s.lock.(readers := s.lock.readers + {id}))
    case ReconcileNext(id, fetched) =>
      var call := s.calls[id];
      s.(shared := ReconcileApp(setup, s.shared, call.watcher, call.apps[0], fetched),
         calls := s.calls[id := call.(apps := call.apps[1..])])
    case EndReconcile(id) => Return(s, id)
    case BeginWatch(id, lattice, ns) =>
      if lattice in s.shared.watchers then s.(shared := AddNamespace(s.shared, lattice, ns))
      else s.(calls := s.calls[id := OpeningStream(lattice, ns)], lock := s.lock.(writer := Some(id)))
    case StreamReady(id, ok) =>
      if ok then s.(calls := s.calls[id := OpeningConsumer(s.calls[id].lattice, s.calls[id].ns)])
      else Return(s, id)
    case ConsumerReady(id, ok) =>
      if ok then Return(s.(shared := Install(s.shared, s.calls[id].lattice, s.calls[id].ns)), id)
      else Return(s, id)
    case StopWatch(lattice, ns) => s.(shared := Stop(s.shared, lattice, ns))
    case TaskPublished(task, m) => s.(shared := Publish(setup, s.shared, s.shared.tasks[task].dup, m))
    case TaskUnpublished(task, name) => s.(shared := Unpublish(s.shared, s.shared.tasks[task].dup, name))
    case TaskSeesCancellation(task) => s.(shared := StopTask(s.shared, task))
    case TaskEnds(task) => s.(shared := StopTask(s.shared, task))
    case WorkerNext =>
      s.(world := Process(setup.api, s.world, s.shared.sent[s.processed]), processed := s.processed + 1)
  }

  ghost predicate StepAt(setup: Setup, states: seq<State>, actions: seq<Action>, i: nat)
    requires |states| == |actions| + 1 && i < |actions|
  {
    Enabled(states[i], actions[i]) && states[i + 1] == Next(setup, states[i], actions[i])
  }

  /** A run: states joined by enabled actions, from the start. */
  ghost predicate IsRun(setup: Setup, states: seq<State>, actions: seq<Action>) {
    && |states| == |actions| + 1
    && states[0] == Start(setup)
    && forall i: nat | i < |actions| :: StepAt(setup, states, actions, i)
  }

  // ---------------------------------------------------------------- vocabulary of the properties

  /** In this step a watch call for the pair returns successfully. */
  predicate WatchSucceeds(s: State, a: Action, lattice: string, ns: string) {
    || (a.BeginWatch? && a.lattice == lattice && a.ns == ns && lattice in s.shared.watchers)
    || (a.ConsumerReady? && a.ok && a.id in s.calls && s.calls[a.id] == OpeningConsumer(lattice, ns))
  }

  /** The pair is registered. */
  predicate Registered(s: Shared, lattice: string, ns: string) {
    lattice in s.watchers && ns in s.watchers[lattice].namespaces
  }

  /** In this step a reconcile call of the lattice sends the command. */
  predicate ReconcileSends(s: State, a: Action, s': State, lattice: string, c: Command) {
    && a.ReconcileNext? && a.id in s.calls && s.calls[a.id].Reconciling?
    && s.calls[a.id].watcher.lattice == lattice
    && s'.shared.sent == s.shared.sent + [c]
  }

  /** In this step the event task sends the command. */
  predicate TaskSends(s: State, a: Action, s': State, task: nat, c: Command) {
    && (a.TaskPublished? || a.TaskUnpublished?) && a.task == task
    && s'.shared.sent == s.shared.sent + [c]
  }
}
