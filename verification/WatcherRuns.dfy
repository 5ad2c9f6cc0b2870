/** Properties of all runs of the service watcher. */
module WatcherRuns {
  import opened Wrappers
  import opened Manifests
  import opened Clusters
  import opened QueueSemantics
  import opened Watchers

  // ---------------------------------------------------------------- the invariant

  /** Who holds the lock is who is in a call that needs it; writers exclude everyone. */
  ghost predicate LockInv(s: State) {
    && (forall id :: id in s.lock.readers <==> id in s.calls && s.calls[id].Reconciling?)
    && (forall id :: s.lock.writer == Some(id) <==> id in s.calls && !s.calls[id].Reconciling?)
    && (s.lock.writer.Some? ==> s.lock.readers == {})
  }

  /** What a call saw when it took the lock is still so. */
  ghost predicate CallInv(s: State) {
    forall id | id in s.calls ::
      match s.calls[id]
      case Reconciling(w, _) => w.lattice in s.shared.watchers && s.shared.watchers[w.lattice] == w
      case OpeningStream(lattice, _) => lattice !in s.shared.watchers
      case OpeningConsumer(lattice, _) => lattice !in s.shared.watchers
  }

  /** An entry is the lattice's own, serves somebody, and its token is uncancelled unless its task has stopped. */
  ghost predicate EntryInv(s: Shared) {
    forall l | l in s.watchers ::
      && s.watchers[l].lattice == l
      && s.watchers[l].namespaces != {}
      && s.watchers[l].shutdown < |s.tasks|
      && s.tasks[s.watchers[l].shutdown].dup.lattice == l
      && (s.watchers[l].shutdown in s.cancelled ==> !s.tasks[s.watchers[l].shutdown].running)
  }

  /** A task owns the token of its number; while the token is uncancelled it runs for its lattice's entry. */
  ghost predicate TaskInv(s: Shared) {
    && (forall t | 0 <= t < |s.tasks| ::
          && s.tasks[t].dup.shutdown == t
          && (t !in s.cancelled ==>
                && s.tasks[t].running
                && s.tasks[t].dup.lattice in s.watchers
                && s.watchers[s.tasks[t].dup.lattice].shutdown == t))
    && (forall t | t in s.cancelled :: t < |s.tasks|)
  }

  ghost predicate WorkerInv(setup: Setup, s: State) {
    && s.processed <= |s.shared.sent|
    && s.world == Drain(setup.api, setup.world, s.shared.sent[..s.processed])
  }

  ghost predicate Inv(setup: Setup, s: State) {
    LockInv(s) && CallInv(s) && EntryInv(s.shared) && TaskInv(s.shared) && WorkerInv(setup, s)
  }

  lemma LockStep(setup: Setup, s: State, a: Action)
    requires LockInv(s) && Enabled(s, a)
    ensures LockInv(Next(setup, s, a))
  {
  }

  lemma CallStep(setup: Setup, s: State, a: Action)
    requires LockInv(s) && CallInv(s) && EntryInv(s.shared) && Enabled(s, a)
    ensures CallInv(Next(setup, s, a))
  {
    match a
    case BeginReconcile(_, _, _) =>
    case ReconcileNext(_, _) =>
    case EndReconcile(_) =>
    case BeginWatch(_, _, _) =>
    case StreamReady(_, _) =>
    case ConsumerReady(_, _) =>
    case StopWatch(_, _) =>
    case TaskPublished(_, _) =>
    case TaskUnpublished(_, _) =>
    case TaskSeesCancellation(_) =>
    case TaskEnds(_) =>
    case WorkerNext =>
  }

  lemma AddKeeps(s: Shared, lattice: string, ns: string)
    requires EntryInv(s) && TaskInv(s) && lattice in s.watchers
    ensures EntryInv(AddNamespace(s, lattice, ns)) && TaskInv(AddNamespace(s, lattice, ns))
  {
  }

  lemma InstallKeeps(s: Shared, lattice: string, ns: string)
    requires EntryInv(s) && TaskInv(s) && lattice !in s.watchers
    ensures EntryInv(Install(s, lattice, ns)) && TaskInv(Install(s, lattice, ns))
  {
    assert forall t | 0 <= t < |s.tasks| :: t !in s.cancelled ==> s.tasks[t].dup.lattice != lattice;
  }

  lemma StopKeeps(s: Shared, lattice: string, ns: string)
    requires EntryInv(s) && TaskInv(s)
    ensures EntryInv(Stop(s, lattice, ns)) && TaskInv(Stop(s, lattice, ns))
  {
  }

  lemma StopTaskKeeps(s: Shared, task: nat)
    requires EntryInv(s) && TaskInv(s) && task < |s.tasks|
    ensures EntryInv(StopTask(s, task)) && TaskInv(StopTask(s, task))
  {
  }

  lemma SendKeeps(s: Shared, c: Command)
    requires EntryInv(s) && TaskInv(s)
    ensures EntryInv(Send(s, c)) && TaskInv(Send(s, c))
  {
  }

  lemma PublishKeeps(setup: Setup, s: Shared, w: Watcher, m: Manifest)
    requires EntryInv(s) && TaskInv(s)
    ensures EntryInv(Publish(setup, s, w, m)) && TaskInv(Publish(setup, s, w, m))
  {
    if PublishedCommand(setup, w, m).Some? {
      SendKeeps(s, PublishedCommand(setup, w, m).value);
    }
  }

  /** One lemma above for each action that changes what is shared. */
  lemma SharedStep(setup: Setup, s: State, a: Action)
    requires CallInv(s) && EntryInv(s.shared) && TaskInv(s.shared) && Enabled(s, a)
    ensures EntryInv(Next(setup, s, a).shared) && TaskInv(Next(setup, s, a).shared)
  {
    match a
    case BeginReconcile(_, _, _) =>
    case ReconcileNext(id, fetched) =>
      if fetched.Some? {
        PublishKeeps(setup, s.shared, s.calls[id].watcher, fetched.value);
      }
    case EndReconcile(_) =>
    case BeginWatch(_, lattice, ns) =>
      if lattice in s.shared.watchers {
        AddKeeps(s.shared, lattice, ns);
      }
    case StreamReady(_, _) =>
    case ConsumerReady(id, _) =>
      InstallKeeps(s.shared, s.calls[id].lattice, s.calls[id].ns);
    case StopWatch(lattice, ns) => StopKeeps(s.shared, lattice, ns);
    case TaskPublished(t, m) => PublishKeeps(setup, s.shared, s.shared.tasks[t].dup, m);
    case TaskUnpublished(t, name) => SendKeeps(s.shared, RemoveService(name, s.shared.tasks[t].dup.namespaces));
    case TaskSeesCancellation(t) => StopTaskKeeps(s.shared, t);
    case TaskEnds(t) => StopTaskKeeps(s.shared, t);
    case WorkerNext =>
  }

  lemma WorkerStep(setup: Setup, s: State, a: Action)
    requires WorkerInv(setup, s) && Enabled(s, a)
    ensures WorkerInv(setup, Next(setup, s, a))
  {
    var s' := Next(setup, s, a);
    assert s.shared.sent <= s'.shared.sent;
    assert s'.shared.sent[..s.processed] == s.shared.sent[..s.processed];
    if a.WorkerNext? {
      assert s.shared.sent[..s.processed + 1][..s.processed] == s.shared.sent[..s.processed];
    }
  }

  /** The invariant holds in every state of every run. */
  lemma {:induction false} InvAlways(setup: Setup, states: seq<State>, actions: seq<Action>, i: nat)
    requires IsRun(setup, states, actions) && i < |states|
    ensures Inv(setup, states[i])
  {
    if i > 0 {
      InvAlways(setup, states, actions, i - 1);
      var s, a := states[i - 1], actions[i - 1];
      assert StepAt(setup, states, actions, i - 1);
      LockStep(setup, s, a);
      CallStep(setup, s, a);
      SharedStep(setup, s, a);
      WorkerStep(setup, s, a);
    }
  }

  /** Mutual exclusion: a call that may write is alone. */
  lemma WriterIsAlone(setup: Setup, states: seq<State>, actions: seq<Action>, i: nat, id: nat, other: nat)
    requires IsRun(setup, states, actions) && i < |states|
    requires id in states[i].calls && !states[i].calls[id].Reconciling?
    requires other in states[i].calls
    ensures other == id
  {
    InvAlways(setup, states, actions, i);
    var s := states[i];
    assert s.lock.writer == Some(id);
    assert s.calls[other].Reconciling? ==> other in s.lock.readers;
  }

  // ---------------------------------------------------------------- what never goes back

  ghost predicate Grows(s: Shared, s': Shared) {
    && s.sent <= s'.sent
    && s.cancelled <= s'.cancelled
    && |s.tasks| <= |s'.tasks|
    && forall t | 0 <= t < |s.tasks| ::
         s'.tasks[t].dup == s.tasks[t].dup && (s'.tasks[t].running ==> s.tasks[t].running)
  }

  lemma GrowsStep(setup: Setup, s: State, a: Action)
    requires Enabled(s, a)
    ensures Grows(s.shared, Next(setup, s, a).shared)
  {
  }

  /** Commands stay sent, tokens stay cancelled, tasks stay stopped and never change their snapshot. */
  lemma {:induction false} GrowsAlways(setup: Setup, states: seq<State>, actions: seq<Action>, i: nat, j: nat)
    requires IsRun(setup, states, actions) && i <= j < |states|
    ensures Grows(states[i].shared, states[j].shared)
    decreases j
  {
    if i < j {
      GrowsAlways(setup, states, actions, i, j - 1);
      assert StepAt(setup, states, actions, j - 1);
      GrowsStep(setup, states[j - 1], actions[j - 1]);
    }
  }

  // ---------------------------------------------------------------- the registry

  lemma RegistersByWatch(setup: Setup, s: State, a: Action, lattice: string, ns: string)
    requires CallInv(s) && Enabled(s, a)
    ensures var s' := Next(setup, s, a);
            Registered(s'.shared, lattice, ns)
            <==> (WatchSucceeds(s, a, lattice, ns)
                  || (Registered(s.shared, lattice, ns) && a != StopWatch(lattice, ns)))
  {
  }

  /** Before state n a watch call for the pair has succeeded and no stop_watch for it has run since. */
  ghost predicate WatchedSinceStopped(states: seq<State>, actions: seq<Action>, n: nat, lattice: string, ns: string)
    requires |states| == |actions| + 1 && n < |states|
  {
    exists k :: && 0 <= k < n && WatchSucceeds(states[k], actions[k], lattice, ns)
                && forall m | k < m < n :: actions[m] != StopWatch(lattice, ns)
  }

  lemma WatchedStep(states: seq<State>, actions: seq<Action>, n: nat, lattice: string, ns: string)
    requires |states| == |actions| + 1 && n < |actions|
    ensures WatchedSinceStopped(states, actions, n + 1, lattice, ns)
       <==> || WatchSucceeds(states[n], actions[n], lattice, ns)
            || (WatchedSinceStopped(states, actions, n, lattice, ns) && actions[n] != StopWatch(lattice, ns))
  {
    if WatchedSinceStopped(states, actions, n + 1, lattice, ns) {
      var k :| 0 <= k < n + 1 && WatchSucceeds(states[k], actions[k], lattice, ns)
               && forall m | k < m < n + 1 :: actions[m] != StopWatch(lattice, ns);
      assert k < n ==> actions[n] != StopWatch(lattice, ns);
    }
    if WatchedSinceStopped(states, actions, n, lattice, ns) && actions[n] != StopWatch(lattice, ns) {
      var k :| 0 <= k < n && WatchSucceeds(states[k], actions[k], lattice, ns)
               && forall m | k < m < n :: actions[m] != StopWatch(lattice, ns);
      assert forall m | k < m < n + 1 :: actions[m] != StopWatch(lattice, ns);
    }
  }

  /**
   The registry is what the calls made it: a pair is registered exactly if a watch call for it has
   returned successfully and no stop_watch for it has run since.
   */
  lemma {:induction false} RegistryRefinement(setup: Setup, states: seq<State>, actions: seq<Action>, n: nat,
                                              lattice: string, ns: string)
    requires IsRun(setup, states, actions) && n < |states|
    ensures Registered(states[n].shared, lattice, ns) <==> WatchedSinceStopped(states, actions, n, lattice, ns)
    decreases n
  {
    if n > 0 {
      InvAlways(setup, states, actions, n - 1);
      assert StepAt(setup, states, actions, n - 1);
      RegistryRefinement(setup, states, actions, n - 1, lattice, ns);
      RegistersByWatch(setup, states[n - 1], actions[n - 1], lattice, ns);
      WatchedStep(states, actions, n - 1, lattice, ns);
    }
  }

  /** A watched lattice has its own watcher and at least one namespace. */
  lemma EntriesAreWellFormed(setup: Setup, states: seq<State>, actions: seq<Action>, n: nat, lattice: string)
    requires IsRun(setup, states, actions) && n < |states|
    ensures lattice in states[n].shared.watchers <==> exists ns :: Registered(states[n].shared, lattice, ns)
    ensures lattice in states[n].shared.watchers ==> states[n].shared.watchers[lattice].lattice == lattice
  {
    InvAlways(setup, states, actions, n);
    if lattice in states[n].shared.watchers {
      var ns :| ns in states[n].shared.watchers[lattice].namespaces;
      assert Registered(states[n].shared, lattice, ns);
    }
  }

  /** In this step a watch call creates a watcher, and with it task number |tasks|. */
  predicate Creates(s: State, a: Action, lattice: string, ns: string) {
    a.ConsumerReady? && a.ok && a.id in s.calls && s.calls[a.id] == OpeningConsumer(lattice, ns)
  }

  /** In this step the entry of the lattice goes away. */
  predicate Drops(s: State, a: Action, s': State, lattice: string) {
    a.StopWatch? && a.lattice == lattice && lattice in s.shared.watchers && lattice !in s'.shared.watchers
  }

  lemma EntryLostByDrop(setup: Setup, s: State, a: Action, lattice: string)
    requires Enabled(s, a)
    requires lattice in s.shared.watchers && lattice !in Next(setup, s, a).shared.watchers
    ensures Drops(s, a, Next(setup, s, a), lattice)
  {
  }

  lemma {:induction false} EntryKeptOrDropped(setup: Setup, states: seq<State>, actions: seq<Action>, i: nat,
                                              j: nat, lattice: string)
    requires IsRun(setup, states, actions) && i <= j < |states|
    requires lattice in states[i].shared.watchers && lattice !in states[j].shared.watchers
    ensures exists m :: i <= m < j && Drops(states[m], actions[m], states[m + 1], lattice)
    decreases j
  {
    if lattice in states[j - 1].shared.watchers {
      assert StepAt(setup, states, actions, j - 1);
      EntryLostByDrop(setup, states[j - 1], actions[j - 1], lattice);
      assert Drops(states[j - 1], actions[j - 1], states[j - 1 + 1], lattice);
    } else {
      EntryKeptOrDropped(setup, states, actions, i, j - 1, lattice);
    }
  }

  /** Racing watch calls of one lattice create one watcher: a second one needs the first to be dropped. */
  lemma OneWatcherPerLattice(setup: Setup, states: seq<State>, actions: seq<Action>, i: nat, j: nat,
                             lattice: string, ns: string, ns': string)
    requires IsRun(setup, states, actions) && i < j < |actions|
    requires Creates(states[i], actions[i], lattice, ns) && Creates(states[j], actions[j], lattice, ns')
    ensures exists m :: i < m < j && Drops(states[m], actions[m], states[m + 1], lattice)
  {
    assert StepAt(setup, states, actions, i);
    assert lattice in states[i + 1].shared.watchers;
    InvAlways(setup, states, actions, j);
    assert states[j].calls[actions[j].id] == OpeningConsumer(lattice, ns');
    EntryKeptOrDropped(setup, states, actions, i + 1, j, lattice);
  }

  // ---------------------------------------------------------------- lock-ordered cleanup

  /** A reconcile sends upserts to exactly the namespaces registered at that moment. */
  lemma ReconcileUsesCurrentNamespaces(setup: Setup, states: seq<State>, actions: seq<Action>, j: nat,
                                       lattice: string, c: Command)
    requires IsRun(setup, states, actions) && j < |actions|
    requires ReconcileSends(states[j], actions[j], states[j + 1], lattice, c)
    ensures c.UpsertService? && c.params.latticeId == lattice
    ensures forall ns :: ns in NamespacesOf(c) <==> Registered(states[j].shared, lattice, ns)
  {
    InvAlways(setup, states, actions, j);
    assert StepAt(setup, states, actions, j);
    var call := states[j].calls[actions[j].id];
    assert states[j].shared.watchers[lattice] == call.watcher;
    var sent, sent' := states[j].shared.sent, states[j + 1].shared.sent;
    assert sent'[|sent|] == c;
  }

  /** A pair that becomes registered between two states does so by a successful watch call in between. */
  lemma {:induction false} RegisteredInBetween(setup: Setup, states: seq<State>, actions: seq<Action>, i: nat,
                                               j: nat, lattice: string, ns: string)
    requires IsRun(setup, states, actions) && i <= j < |states|
    requires !Registered(states[i].shared, lattice, ns) && Registered(states[j].shared, lattice, ns)
    ensures exists k :: i <= k < j && WatchSucceeds(states[k], actions[k], lattice, ns)
    decreases j
  {
    if Registered(states[j - 1].shared, lattice, ns) {
      RegisteredInBetween(setup, states, actions, i, j - 1, lattice, ns);
    } else {
      InvAlways(setup, states, actions, j - 1);
      assert StepAt(setup, states, actions, j - 1);
      RegistersByWatch(setup, states[j - 1], actions[j - 1], lattice, ns);
    }
  }

  /**
   Lock-ordered cleanup. Once stop_watch has run for a pair, no reconcile call of the lattice sends an
   upsert for the namespace, not even one begun before, unless a watch call for the pair has
   succeeded in between.
   */
  lemma LockOrderedCleanup(setup: Setup, states: seq<State>, actions: seq<Action>, i: nat, j: nat,
                           lattice: string, ns: string, c: Command)
    requires IsRun(setup, states, actions) && i < j < |actions|
    requires actions[i] == StopWatch(lattice, ns)
    requires ReconcileSends(states[j], actions[j], states[j + 1], lattice, c) && ns in NamespacesOf(c)
    ensures exists k :: i < k < j && WatchSucceeds(states[k], actions[k], lattice, ns)
  {
    InvAlways(setup, states, actions, i);
    assert StepAt(setup, states, actions, i);
    RegistersByWatch(setup, states[i], actions[i], lattice, ns);
    ReconcileUsesCurrentNamespaces(setup, states, actions, j, lattice, c);
    RegisteredInBetween(setup, states, actions, i + 1, j, lattice, ns);
  }

  // ---------------------------------------------------------------- tasks and tokens

  /**
   In every reachable state a task whose token is not cancelled is running and is the one its
   lattice's entry was created with; so no lattice has two of them.
   */
  lemma UncancelledTasks(setup: Setup, states: seq<State>, actions: seq<Action>, n: nat, t: nat, t': nat)
    requires IsRun(setup, states, actions) && n < |states|
    requires t < |states[n].shared.tasks| && t !in states[n].shared.cancelled
    ensures var s := states[n].shared;
            var lattice := s.tasks[t].dup.lattice;
            && s.tasks[t].running
            && lattice in s.watchers && s.watchers[lattice].shutdown == t
            && (t' < |s.tasks| && t' !in s.cancelled && s.tasks[t'].dup.lattice == lattice ==> t' == t)
  {
    InvAlways(setup, states, actions, n);
  }

  /**
   Which step cancels what: a stop_watch that drops an entry cancels that entry's token, a task that
   ends cancels its own, and nothing else cancels anything.
   */
  lemma CancelsExactly(setup: Setup, states: seq<State>, actions: seq<Action>, n: nat)
    requires IsRun(setup, states, actions) && n < |actions|
    ensures var s, a, s' := states[n].shared, actions[n], states[n + 1].shared;
            s'.cancelled == s.cancelled
              + (if a.StopWatch? && a.lattice in s.watchers && a.lattice !in s'.watchers
                 then {s.watchers[a.lattice].shutdown} else {})
              + (if a.TaskEnds? || a.TaskSeesCancellation? then {a.task} else {})
    ensures actions[n].StopWatch? && actions[n].lattice in states[n].shared.watchers
              && states[n].shared.watchers[actions[n].lattice].namespaces != {actions[n].ns}
            ==> actions[n].lattice in states[n + 1].shared.watchers
  {
    InvAlways(setup, states, actions, n);
    assert StepAt(setup, states, actions, n);
    if actions[n].StopWatch? && actions[n].lattice in states[n].shared.watchers {
      NothingButOne(states[n].shared.watchers[actions[n].lattice].namespaces, actions[n].ns);
    }
  }

  lemma NothingButOne(s: set<string>, x: string)
    requires s != {}
    ensures s - {x} == {} <==> s == {x}
  {
    if s - {x} == {} {
      assert forall y | y in s :: y == x || y in s - {x};
    }
  }

  /** In this step a stop_watch drops the entry that carries token t. */
  predicate DropsToken(s: State, a: Action, s': State, t: nat) {
    && a.StopWatch? && a.lattice in s.shared.watchers && a.lattice !in s'.shared.watchers
    && s.shared.watchers[a.lattice].shutdown == t
  }

  lemma CancelStep(setup: Setup, s: State, a: Action, t: nat)
    requires CallInv(s) && Enabled(s, a)
    ensures t in Next(setup, s, a).shared.cancelled
       <==> t in s.shared.cancelled || DropsToken(s, a, Next(setup, s, a), t) || a == TaskEnds(t)
  {
  }

  /** A token is cancelled exactly if a stop_watch dropped the entry that carried it, or its task's event loop ended. */
  lemma {:induction false} TokenCancelledIff(setup: Setup, states: seq<State>, actions: seq<Action>, n: nat, t: nat)
    requires IsRun(setup, states, actions) && n < |states|
    ensures t in states[n].shared.cancelled
       <==> exists m :: 0 <= m < n && (DropsToken(states[m], actions[m], states[m + 1], t) || actions[m] == TaskEnds(t))
    decreases n
  {
    if n > 0 {
      TokenCancelledIff(setup, states, actions, n - 1, t);
      assert StepAt(setup, states, actions, n - 1);
      InvAlways(setup, states, actions, n - 1);
      CancelStep(setup, states[n - 1], actions[n - 1], t);
    }
  }

  /** In one of the first n steps the event loop of the task ended. */
  ghost predicate LoopEnded(actions: seq<Action>, n: nat, t: nat)
    requires n <= |actions|
  {
    exists m :: 0 <= m < n && actions[m] == TaskEnds(t)
  }

  lemma LoopEndedStep(actions: seq<Action>, n: nat, t: nat)
    requires n < |actions|
    ensures LoopEnded(actions, n + 1, t) <==> LoopEnded(actions, n, t) || actions[n] == TaskEnds(t)
  {
  }

  /**
   The task of an entry runs until its event loop ends of itself: as long as the lattice is watched,
   nobody else stops it.
   */
  lemma {:induction false} EntryHasTaskIff(setup: Setup, states: seq<State>, actions: seq<Action>, n: nat,
                                           lattice: string)
    requires IsRun(setup, states, actions) && n < |states|
    requires lattice in states[n].shared.watchers
    ensures var t := states[n].shared.watchers[lattice].shutdown;
            && t < |states[n].shared.tasks|
            && (states[n].shared.tasks[t].running <==> !LoopEnded(actions, n, t))
    decreases n
  {
    InvAlways(setup, states, actions, n - 1);
    assert StepAt(setup, states, actions, n - 1);
    var t := states[n].shared.watchers[lattice].shutdown;
    EntryTaskStep(setup, states[n - 1], actions[n - 1], lattice);
    LoopEndedStep(actions, n - 1, t);
    if t < |states[n - 1].shared.tasks| {
      EntryHasTaskIff(setup, states, actions, n - 1, lattice);
    } else {
      NotEndedBefore(setup, states, actions, n - 1, t);
    }
  }

  /** A task that does not exist yet has not ended. */
  lemma NotEndedBefore(setup: Setup, states: seq<State>, actions: seq<Action>, n: nat, t: nat)
    requires IsRun(setup, states, actions) && n < |states| && t >= |states[n].shared.tasks|
    ensures !LoopEnded(actions, n, t)
  {
    forall m | 0 <= m < n ensures actions[m] != TaskEnds(t) {
      assert StepAt(setup, states, actions, m);
      GrowsAlways(setup, states, actions, m, n);
    }
  }

  /** An entry after a step is an old one, whose task only TaskEnds can have stopped, or has just been created. */
  lemma EntryTaskStep(setup: Setup, s: State, a: Action, lattice: string)
    requires EntryInv(s.shared) && CallInv(s) && Enabled(s, a) && lattice in Next(setup, s, a).shared.watchers
    ensures var s' := Next(setup, s, a).shared;
            var t := s'.watchers[lattice].shutdown;
            && t < |s'.tasks|
            && if t < |s.shared.tasks| then
                 && lattice in s.shared.watchers && s.shared.watchers[lattice].shutdown == t
                 && (s'.tasks[t].running <==> s.shared.tasks[t].running && a != TaskEnds(t))
               else
                 s'.tasks[t].running && a != TaskEnds(t)
  {
  }

  /** A task that has seen its cancellation, or has ended, never sends again. */
  lemma StoppedTasksAreSilent(setup: Setup, states: seq<State>, actions: seq<Action>, i: nat, j: nat, t: nat,
                              c: Command)
    requires IsRun(setup, states, actions) && i <= j < |actions|
    requires t < |states[i].shared.tasks| && !states[i].shared.tasks[t].running
    ensures !TaskSends(states[j], actions[j], states[j + 1], t, c)
  {
    GrowsAlways(setup, states, actions, i, j);
    assert StepAt(setup, states, actions, j);
  }

  // ---------------------------------------------------------------- snapshots

  /** Every task was created by one successful watch call, and keeps that call's namespace. */
  lemma {:induction false} TaskBirth(setup: Setup, states: seq<State>, actions: seq<Action>, n: nat, t: nat)
    returns (k: nat, lattice: string, ns: string)
    requires IsRun(setup, states, actions) && n < |states| && t < |states[n].shared.tasks|
    ensures k < n && Creates(states[k], actions[k], lattice, ns) && |states[k].shared.tasks| == t
    ensures states[n].shared.tasks[t].dup == Watcher({ns}, lattice, t)
    decreases n
  {
    var s, a := states[n - 1], actions[n - 1];
    assert StepAt(setup, states, actions, n - 1);
    if t < |s.shared.tasks| {
      k, lattice, ns := TaskBirth(setup, states, actions, n - 1, t);
      GrowsStep(setup, s, a);
    } else {
      k, lattice, ns := n - 1, s.calls[a.id].lattice, s.calls[a.id].ns;
    }
  }

  /** Every command of an event task goes to the one namespace its watcher was created for. */
  lemma EventCommandsUseSnapshot(setup: Setup, states: seq<State>, actions: seq<Action>, j: nat, t: nat, c: Command)
    returns (k: nat, lattice: string, ns: string)
    requires IsRun(setup, states, actions) && j < |actions|
    requires TaskSends(states[j], actions[j], states[j + 1], t, c)
    ensures k < j && Creates(states[k], actions[k], lattice, ns) && |states[k].shared.tasks| == t
    ensures t < |states[j].shared.tasks| && states[j].shared.tasks[t] == Task(Watcher({ns}, lattice, t), true)
    ensures NamespacesOf(c) == {ns} && !c.RemoveServices?
  {
    assert StepAt(setup, states, actions, j);
    k, lattice, ns := TaskBirth(setup, states, actions, j, t);
    var sent, sent' := states[j].shared.sent, states[j + 1].shared.sent;
    assert sent'[|sent|] == c;
  }

  /** Between two states every successful watch call for the lattice was for this namespace. */
  ghost predicate WatchedOnlyFor(states: seq<State>, actions: seq<Action>, k: nat, j: nat, lattice: string, ns: string)
    requires k <= j <= |actions| && j < |states|
  {
    forall m, ns' | k < m < j && WatchSucceeds(states[m], actions[m], lattice, ns') :: ns' == ns
  }

  lemma CreationEffect(setup: Setup, s: State, a: Action, lattice: string, ns: string)
    requires Enabled(s, a) && Creates(s, a, lattice, ns)
    ensures var s' := Next(setup, s, a).shared;
            && |s'.tasks| == |s.shared.tasks| + 1
            && lattice in s'.watchers && s'.watchers[lattice] == Watcher({ns}, lattice, |s.shared.tasks|)
  {
  }

  /**
   The snapshot equals the registered namespaces for as long as the watcher lives, if every watch
   call for the lattice in that time was for the same namespace.
   */
  lemma {:induction false} SnapshotStaysCurrent(setup: Setup, states: seq<State>, actions: seq<Action>, k: nat, j: nat,
                                                lattice: string, ns: string)
    requires IsRun(setup, states, actions) && k < j < |states|
    requires Creates(states[k], actions[k], lattice, ns)
    requires lattice in states[j].shared.watchers
          && states[j].shared.watchers[lattice].shutdown == |states[k].shared.tasks|
    requires WatchedOnlyFor(states, actions, k, j, lattice, ns)
    ensures states[j].shared.watchers[lattice].namespaces == {ns}
    decreases j
  {
    assert StepAt(setup, states, actions, k) && StepAt(setup, states, actions, j - 1);
    CreationEffect(setup, states[k], actions[k], lattice, ns);
    if j - 1 > k {
      GrowsAlways(setup, states, actions, k + 1, j - 1);
      EntryKeepsToken(setup, states[j - 1], actions[j - 1], lattice, |states[k].shared.tasks|);
      assert WatchedOnlyFor(states, actions, k, j - 1, lattice, ns);
      SnapshotStaysCurrent(setup, states, actions, k, j - 1, lattice, ns);
      SingletonKept(setup, states[j - 1], actions[j - 1], lattice, ns);
    }
  }

  lemma SingletonKept(setup: Setup, s: State, a: Action, lattice: string, ns: string)
    requires Enabled(s, a) && lattice in s.shared.watchers && s.shared.watchers[lattice].namespaces == {ns}
    requires lattice in Next(setup, s, a).shared.watchers
    requires Next(setup, s, a).shared.watchers[lattice].shutdown == s.shared.watchers[lattice].shutdown
    requires forall ns' | WatchSucceeds(s, a, lattice, ns') :: ns' == ns
    ensures Next(setup, s, a).shared.watchers[lattice].namespaces == {ns}
  {
    if a.BeginWatch? && a.lattice == lattice {
      assert WatchSucceeds(s, a, lattice, a.ns);
    }
    if a.ConsumerReady? && a.ok && s.calls[a.id].lattice == lattice {
      assert WatchSucceeds(s, a, lattice, s.calls[a.id].ns);
    }
  }

  /** An entry with the token of an existing task had it before the step. */
  lemma EntryKeepsToken(setup: Setup, s: State, a: Action, lattice: string, t: nat)
    requires Enabled(s, a) && t < |s.shared.tasks|
    requires var w := Next(setup, s, a).shared.watchers; lattice in w && w[lattice].shutdown == t
    ensures lattice in s.shared.watchers && s.shared.watchers[lattice].shutdown == t
  {
  }
}
