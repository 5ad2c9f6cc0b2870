/**
 Host configurations as the callers of the service watcher. A reconciled configuration watches its
 lattice for its namespace, a deleted one stops doing so; the watcher keeps pairs and does not
 count the configurations behind them.
 */
module ConfigRuns {
  import opened Wrappers
  import opened Manifests
  import opened Clusters
  import opened WorkerRuns
  import opened Watchers
  import opened WatcherRuns
  import opened CleanupRuns

  /** A host configuration: its name, and the pair it calls the watcher with. */
  datatype Config = Config(name: string, namespace: string, lattice: string)

  /** The configuration on whose behalf each step is taken; of interest for watch and stop_watch only. */
  type Callers = nat -> Config

  predicate SamePair(c: Config, d: Config) {
    c.lattice == d.lattice && c.namespace == d.namespace
  }

  /** Watch and stop_watch are called by configurations, each with its own lattice and namespace. */
  ghost predicate CalledByConfigs(states: seq<State>, actions: seq<Action>, caller: Callers)
    requires |states| == |actions| + 1
  {
    && (forall m: nat | m < |actions| && actions[m].StopWatch? ::
          actions[m] == StopWatch(caller(m).lattice, caller(m).namespace))
    && (forall m: nat, lattice, ns | m < |actions| && WatchSucceeds(states[m], actions[m], lattice, ns) ::
          lattice == caller(m).lattice && ns == caller(m).namespace)
  }

  /** In step m the reconciliation of the configuration gets its watch call through. */
  predicate Reconciled(states: seq<State>, actions: seq<Action>, caller: Callers, m: nat, c: Config)
    requires |states| == |actions| + 1 && m < |actions|
  {
    caller(m) == c && WatchSucceeds(states[m], actions[m], c.lattice, c.namespace)
  }

  /** In step m the configuration is cleaned up. */
  predicate CleanedUp(actions: seq<Action>, caller: Callers, m: nat, c: Config)
    requires m < |actions|
  {
    caller(m) == c && actions[m] == StopWatch(c.lattice, c.namespace)
  }

  /** The configuration has been reconciled before state n and not been cleaned up since. */
  ghost predicate Active(states: seq<State>, actions: seq<Action>, caller: Callers, n: nat, c: Config)
    requires |states| == |actions| + 1 && n < |states|
  {
    exists k: nat :: && k < n && Reconciled(states, actions, caller, k, c)
                     && forall m: nat | k < m < n :: !CleanedUp(actions, caller, m, c)
  }

  /** Step m cleans up the configuration, and none of the same pair has been reconciled since. */
  ghost predicate CleanedLast(states: seq<State>, actions: seq<Action>, caller: Callers, m: nat, n: nat, d: Config)
    requires |states| == |actions| + 1 && m < n < |states|
  {
    && CleanedUp(actions, caller, m, d)
    && forall k: nat, e | m < k < n && SamePair(d, e) :: !Reconciled(states, actions, caller, k, e)
  }

  /** Step k reconciles the configuration, and none of the same pair has been cleaned up since. */
  ghost predicate ReconciledLast(states: seq<State>, actions: seq<Action>, caller: Callers, k: nat, n: nat, e: Config)
    requires |states| == |actions| + 1 && k < n < |states|
  {
    && Reconciled(states, actions, caller, k, e)
    && forall m: nat, d | k < m < n && SamePair(e, d) :: !CleanedUp(actions, caller, m, d)
  }

  /**
   The registry in terms of configurations: the pair of a configuration is registered exactly if some
   configuration of the pair was reconciled and none of the pair, not even another, was cleaned up since.
   */
  lemma RegisteredIffReconciled(setup: Setup, states: seq<State>, actions: seq<Action>, caller: Callers,
                                n: nat, c: Config)
    requires IsRun(setup, states, actions) && n < |states| && CalledByConfigs(states, actions, caller)
    ensures Registered(states[n].shared, c.lattice, c.namespace)
       <==> exists k: nat, e :: k < n && SamePair(c, e) && ReconciledLast(states, actions, caller, k, n, e)
  {
    RegistryRefinement(setup, states, actions, n, c.lattice, c.namespace);
    if Registered(states[n].shared, c.lattice, c.namespace) {
      var k :| 0 <= k < n && WatchSucceeds(states[k], actions[k], c.lattice, c.namespace)
               && forall m | k < m < n :: actions[m] != StopWatch(c.lattice, c.namespace);
      assert ReconciledLast(states, actions, caller, k, n, caller(k));
    }
    if k: nat, e :| k < n && SamePair(c, e) && ReconciledLast(states, actions, caller, k, n, e) {
      forall m | k < m < n ensures actions[m] != StopWatch(c.lattice, c.namespace) {
        assert !CleanedUp(actions, caller, m, caller(m)) || !SamePair(e, caller(m));
      }
    }
  }

  /** The last step before state n in which a watch call for the pair succeeds. */
  lemma {:induction false} LastWatch(states: seq<State>, actions: seq<Action>, n: nat, k: nat, lattice: string,
                                     ns: string)
    returns (last: nat)
    requires |states| == |actions| + 1 && k < n < |states|
    requires WatchSucceeds(states[k], actions[k], lattice, ns)
    ensures k <= last < n && WatchSucceeds(states[last], actions[last], lattice, ns)
    ensures forall m | last < m < n :: !WatchSucceeds(states[m], actions[m], lattice, ns)
  {
    last := n - 1;
    if k < n - 1 && !WatchSucceeds(states[n - 1], actions[n - 1], lattice, ns) {
      last := LastWatch(states, actions, n - 1, k, lattice, ns);
    }
  }

  /**
   Registration is not counted. The pair of an active configuration is missing from the registry
   exactly if some other configuration of the same pair was cleaned up and none of the pair has been
   reconciled since.
   */
  lemma ActiveButUnregisteredIff(setup: Setup, states: seq<State>, actions: seq<Action>, caller: Callers,
                                 n: nat, c: Config)
    requires IsRun(setup, states, actions) && n < |states| && CalledByConfigs(states, actions, caller)
    requires Active(states, actions, caller, n, c)
    ensures !Registered(states[n].shared, c.lattice, c.namespace)
       <==> exists m: nat, d :: m < n && d != c && SamePair(c, d) && CleanedLast(states, actions, caller, m, n, d)
  {
    RegistryRefinement(setup, states, actions, n, c.lattice, c.namespace);
    if !Registered(states[n].shared, c.lattice, c.namespace) {
      var m, d := CleanedByAnother(states, actions, caller, n, c);
    }
    if m: nat, d :| m < n && d != c && SamePair(c, d) && CleanedLast(states, actions, caller, m, n, d) {
      NotWatchedSince(states, actions, caller, m, n, d);
    }
  }

  lemma CleanedByAnother(states: seq<State>, actions: seq<Action>, caller: Callers, n: nat, c: Config)
    returns (m: nat, d: Config)
    requires |states| == |actions| + 1 && n < |states| && CalledByConfigs(states, actions, caller)
    requires Active(states, actions, caller, n, c)
    requires !WatchedSinceStopped(states, actions, n, c.lattice, c.namespace)
    ensures m < n && d != c && SamePair(c, d) && CleanedLast(states, actions, caller, m, n, d)
  {
    var k: nat :| && k < n && Reconciled(states, actions, caller, k, c)
                  && forall m: nat | k < m < n :: !CleanedUp(actions, caller, m, c);
    var last := LastWatch(states, actions, n, k, c.lattice, c.namespace);
    m :| last < m < n && actions[m] == StopWatch(c.lattice, c.namespace);
    d := caller(m);
    assert CleanedUp(actions, caller, m, d) && !CleanedUp(actions, caller, m, c);
  }

  lemma NotWatchedSince(states: seq<State>, actions: seq<Action>, caller: Callers, m: nat, n: nat, d: Config)
    requires |states| == |actions| + 1 && m < n < |states| && CalledByConfigs(states, actions, caller)
    requires CleanedLast(states, actions, caller, m, n, d)
    ensures !WatchedSinceStopped(states, actions, n, d.lattice, d.namespace)
  {
    forall k | 0 <= k < n && WatchSucceeds(states[k], actions[k], d.lattice, d.namespace) ensures k < m {
      if m < k {
        assert Reconciled(states, actions, caller, k, caller(k));
      }
    }
  }

  // ---------------------------------------------------------------- runs

  /** Every watch call that succeeds and every stop_watch is for this pair. */
  ghost predicate OnePair(states: seq<State>, actions: seq<Action>, lattice: string, ns: string)
    requires |states| == |actions| + 1
  {
    && (forall m: nat | m < |actions| && actions[m].StopWatch? :: actions[m] == StopWatch(lattice, ns))
    && (forall m: nat, l, x | m < |actions| && WatchSucceeds(states[m], actions[m], l, x) :: l == lattice && x == ns)
  }

  lemma OnePairCalled(states: seq<State>, actions: seq<Action>, caller: Callers, c: Config)
    requires |states| == |actions| + 1 && OnePair(states, actions, c.lattice, c.namespace)
    requires forall m :: SamePair(caller(m), c)
    ensures CalledByConfigs(states, actions, caller)
  {
  }

  /** One more step of a run about one pair. */
  lemma ExtendPair(setup: Setup, states: seq<State>, actions: seq<Action>, a: Action, lattice: string, ns: string)
    returns (states': seq<State>, actions': seq<Action>)
    requires IsRun(setup, states, actions) && Enabled(states[|actions|], a)
    requires OnePair(states, actions, lattice, ns)
    requires a.StopWatch? ==> a == StopWatch(lattice, ns)
    requires forall l, x :: WatchSucceeds(states[|actions|], a, l, x) ==> l == lattice && x == ns
    ensures actions' == actions + [a] && states' == states + [Next(setup, states[|actions|], a)]
    ensures IsRun(setup, states', actions') && OnePair(states', actions', lattice, ns)
    ensures forall i: nat | Quiet(states, actions, i) && !a.BeginWatch? && !a.ConsumerReady? ::
              Quiet(states', actions', i)
  {
    states', actions' := Extend(setup, states, actions, a);
    forall i: nat | Quiet(states, actions, i) && !a.BeginWatch? && !a.ConsumerReady?
      ensures Quiet(states', actions', i)
    {
      forall m: nat, l, x | i <= m < |actions'| ensures !WatchSucceeds(states'[m], actions'[m], l, x) {
        assert m < |actions| ==> states'[m] == states[m] && actions'[m] == actions[m];
      }
    }
  }

  /** From step i on no watch call succeeds. */
  ghost predicate Quiet(states: seq<State>, actions: seq<Action>, i: nat)
    requires |states| == |actions| + 1
  {
    i <= |actions| && forall m: nat, l, x | i <= m < |actions| :: !WatchSucceeds(states[m], actions[m], l, x)
  }

  lemma ServedPair(setup: Setup, lattice: string, ns: string, m: Manifest)
    returns (states: seq<State>, actions: seq<Action>)
    requires setup.api.Valid() && setup.api.Reliable()
    requires PublishedCommand(setup, Watcher({ns}, lattice, 0), m).Some?
    ensures IsRun(setup, states, actions) && |actions| == 5 && OnePair(states, actions, lattice, ns)
    ensures WatchSucceeds(states[2], actions[2], lattice, ns)
    ensures forall j | 0 <= j < 5 :: !actions[j].StopWatch?
    ensures var w := Watcher({ns}, lattice, 0);
            && states[5].shared == Shared(map[lattice := w], [Task(w, true)], {}, [PublishedCommand(setup, w, m).value])
            && states[5].calls == map[] && states[5].lock == RwLock({}, None) && states[5].processed == 1
    ensures IsManaged(states[5].world.At(Key(ns, m.name)))
  {
    states, actions := ServedLattice(setup, lattice, ns, m);
    forall j: nat, l, x | j < |actions| && WatchSucceeds(states[j], actions[j], l, x) ensures l == lattice && x == ns {
      assert j != 1 && j != 3 && j != 4;
    }
  }

  /** What is shared once a pair that was watched twice has stopped. */
  lemma StopTwice(s: Shared, lattice: string, ns: string)
    requires s.watchers == map[lattice := Watcher({ns}, lattice, 0)] && s.cancelled == {}
    ensures AddNamespace(s, lattice, ns) == s
    ensures Stop(s, lattice, ns) == Shared(map[], s.tasks, {0}, s.sent + [RemoveServices({ns})])
  {
    assert {ns} + {ns} == {ns} && {ns} - {ns} == {};
    assert s.watchers - {lattice} == map[];
  }

  /** The pair is watched twice and its service is deployed in between. */
  lemma WatchedTwice(setup: Setup, lattice: string, ns: string, m: Manifest)
    returns (states: seq<State>, actions: seq<Action>)
    requires setup.api.Valid() && setup.api.Reliable()
    requires PublishedCommand(setup, Watcher({ns}, lattice, 0), m).Some?
    ensures IsRun(setup, states, actions) && |actions| == 6 && OnePair(states, actions, lattice, ns)
    ensures WatchSucceeds(states[2], actions[2], lattice, ns) && WatchSucceeds(states[5], actions[5], lattice, ns)
    ensures forall j | 0 <= j < 6 :: !actions[j].StopWatch?
    ensures IsManaged(states[6].world.At(Key(ns, m.name)))
    ensures var w := Watcher({ns}, lattice, 0);
            && states[6].shared == Shared(map[lattice := w], [Task(w, true)], {}, [PublishedCommand(setup, w, m).value])
            && states[6].lock == RwLock({}, None) && states[6].processed == 1
  {
    var states5, actions5 := ServedPair(setup, lattice, ns, m);
    StopTwice(states5[5].shared, lattice, ns);
    states, actions := ExtendPair(setup, states5, actions5, BeginWatch(1, lattice, ns), lattice, ns);
    assert forall j | 0 <= j < 5 :: actions[j] == actions5[j];
  }

  /** Then it stops once. */
  lemma StoppedOnce(setup: Setup, lattice: string, ns: string, m: Manifest)
    returns (states: seq<State>, actions: seq<Action>)
    requires setup.api.Valid() && setup.api.Reliable()
    requires PublishedCommand(setup, Watcher({ns}, lattice, 0), m).Some?
    ensures IsRun(setup, states, actions) && |actions| == 8 && OnePair(states, actions, lattice, ns)
    ensures WatchSucceeds(states[2], actions[2], lattice, ns) && WatchSucceeds(states[5], actions[5], lattice, ns)
    ensures Quiet(states, actions, 6)
    ensures actions[6] == StopWatch(lattice, ns) && forall j | 0 <= j < 6 :: !actions[j].StopWatch?
    ensures IsManaged(states[6].world.At(Key(ns, m.name))) && !IsManaged(states[8].world.At(Key(ns, m.name)))
    ensures states[8].shared == Shared(map[], [Task(Watcher({ns}, lattice, 0), true)], {0}, states[8].shared.sent)
    ensures states[8].processed == |states[8].shared.sent| && states[8].lock == RwLock({}, None)
  {
    var states6, actions6 := WatchedTwice(setup, lattice, ns, m);
    StopTwice(states6[6].shared, lattice, ns);
    assert Quiet(states6, actions6, 6);
    states, actions := ExtendPair(setup, states6, actions6, StopWatch(lattice, ns), lattice, ns);
    states, actions := ExtendPair(setup, states, actions, WorkerNext, lattice, ns);
    WorkerCleans(setup, states[7], Key(ns, m.name));
    assert forall j | 0 <= j < 6 :: actions[j] == actions6[j] && states[j] == states6[j];
  }

  /** Two configurations of one pair, the second reconciled in step 5 and cleaned up in step 11. */
  function TwoCallers(first: Config, second: Config): Callers {
    m => if m == 5 || m == 11 then second else first
  }

  /**
   Two configurations share lattice and namespace. Deleting the first unregisters the pair and
   removes the application's service, although the second is active.
   */
  lemma SharedPairLosesService(setup: Setup, first: Config, second: Config, m: Manifest)
    returns (states: seq<State>, actions: seq<Action>)
    requires setup.api.Valid() && setup.api.Reliable() && first != second && SamePair(first, second)
    requires PublishedCommand(setup, Watcher({first.namespace}, first.lattice, 0), m).Some?
    ensures IsRun(setup, states, actions) && |actions| == 8
    ensures CalledByConfigs(states, actions, TwoCallers(first, second))
    ensures Active(states, actions, TwoCallers(first, second), 6, first)
    ensures IsManaged(states[6].world.At(Key(first.namespace, m.name)))
    ensures CleanedUp(actions, TwoCallers(first, second), 6, first)
    ensures var s := states[8];
            && Active(states, actions, TwoCallers(first, second), 8, second)
            && RegisteredNowhere(s.shared, second.namespace) && s.processed == |s.shared.sent|
            && !IsManaged(s.world.At(Key(second.namespace, m.name)))
  {
    states, actions := StoppedOnce(setup, first.lattice, first.namespace, m);
    var caller := TwoCallers(first, second);
    OnePairCalled(states, actions, caller, first);
    assert Reconciled(states, actions, caller, 2, first);
    assert Reconciled(states, actions, caller, 5, second);
  }

  /** Before the task of the pair sees its cancellation it publishes once more. */
  lemma LastWord(setup: Setup, lattice: string, ns: string, m: Manifest)
    returns (states: seq<State>, actions: seq<Action>)
    requires setup.api.Valid() && setup.api.Reliable()
    requires PublishedCommand(setup, Watcher({ns}, lattice, 0), m).Some?
    ensures IsRun(setup, states, actions) && |actions| == 11 && OnePair(states, actions, lattice, ns)
    ensures actions[6] == StopWatch(lattice, ns) && Quiet(states, actions, 6)
    ensures states[11].shared.watchers == map[] && states[11].processed == |states[11].shared.sent|
    ensures states[11].shared.tasks == [Task(Watcher({ns}, lattice, 0), false)] && states[11].lock == RwLock({}, None)
    ensures IsManaged(states[11].world.At(Key(ns, m.name)))
  {
    var states8, actions8 := StoppedOnce(setup, lattice, ns, m);
    var c := PublishedCommand(setup, Watcher({ns}, lattice, 0), m).value;
    states, actions := ExtendPair(setup, states8, actions8, TaskPublished(0, m), lattice, ns);
    states, actions := ExtendPair(setup, states, actions, WorkerNext, lattice, ns);
    WorkerServes(setup, states[9], c, ns);
    states, actions := ExtendPair(setup, states, actions, TaskSeesCancellation(0), lattice, ns);
    assert actions[6] == actions8[6];
  }

  /** Then the pair stops again. */
  lemma StoppedAgain(setup: Setup, lattice: string, ns: string, m: Manifest)
    returns (states: seq<State>, actions: seq<Action>)
    requires setup.api.Valid() && setup.api.Reliable()
    requires PublishedCommand(setup, Watcher({ns}, lattice, 0), m).Some?
    ensures IsRun(setup, states, actions) && |actions| == 12 && OnePair(states, actions, lattice, ns)
    ensures actions[6] == actions[11] == StopWatch(lattice, ns) && Quiet(states, actions, 6)
    ensures states[12].shared.watchers == map[] && states[12].processed == |states[12].shared.sent|
    ensures forall t | 0 <= t < |states[12].shared.tasks| :: !states[12].shared.tasks[t].running
    ensures IsManaged(states[12].world.At(Key(ns, m.name)))
  {
    var states11, actions11 := LastWord(setup, lattice, ns, m);
    states, actions := ExtendPair(setup, states11, actions11, StopWatch(lattice, ns), lattice, ns);
    assert actions[6] == actions11[6];
  }

  /**
   The event task of the pair publishes once more before it sees its cancellation, and then the
   second configuration is deleted. Its stop_watch finds the lattice unwatched and sends nothing: no
   configuration is left, no task runs, and the service is there.
   */
  lemma UnwatchedStopLeavesService(setup: Setup, first: Config, second: Config, m: Manifest)
    returns (states: seq<State>, actions: seq<Action>)
    requires setup.api.Valid() && setup.api.Reliable() && first != second && SamePair(first, second)
    requires PublishedCommand(setup, Watcher({first.namespace}, first.lattice, 0), m).Some?
    ensures IsRun(setup, states, actions) && |actions| == 12
    ensures CalledByConfigs(states, actions, TwoCallers(first, second))
    ensures CleanedUp(actions, TwoCallers(first, second), 11, second)
    ensures var s := states[12];
            && (forall c :: !Active(states, actions, TwoCallers(first, second), 12, c))
            && Abandoned(s.shared, second.namespace) && s.processed == |s.shared.sent|
            && IsManaged(s.world.At(Key(second.namespace, m.name)))
  {
    states, actions := StoppedAgain(setup, first.lattice, first.namespace, m);
    var caller := TwoCallers(first, second);
    OnePairCalled(states, actions, caller, first);
    assert CleanedUp(actions, caller, 6, first) && CleanedUp(actions, caller, 11, second);
  }

  /**
   The operator starts anew in a cluster where a service is left from before, and the configuration
   is deleted. Nothing is watched yet, so its stop_watch sends nothing.
   */
  lemma StopAfterRestart(setup: Setup, c: Config, k: Key) returns (states: seq<State>, actions: seq<Action>)
    requires IsManaged(setup.world.At(k)) && k.namespace == c.namespace
    ensures IsRun(setup, states, actions) && actions == [StopWatch(c.lattice, c.namespace)]
    ensures CalledByConfigs(states, actions, _ => c)
    ensures var s := states[1];
            && Abandoned(s.shared, c.namespace) && s.processed == |s.shared.sent|
            && IsManaged(s.world.At(k))
  {
    states, actions := Extend(setup, [Start(setup)], [], StopWatch(c.lattice, c.namespace));
  }
}
