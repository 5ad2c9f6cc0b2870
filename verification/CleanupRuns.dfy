/**
 From calls to the cluster: what a stop_watch guarantees about the services of its namespace, and
 a run that shows what it does not.
 */
module CleanupRuns {
  import opened Wrappers
  import opened Manifests
  import opened Clusters
  import opened WorkerRuns
  import opened QueueSemantics
  import opened Watchers
  import opened WatcherRuns

  /** In every reachable state the cluster is what draining the processed commands makes of it. */
  lemma ClusterFollowsQueue(setup: Setup, states: seq<State>, actions: seq<Action>, n: nat)
    requires IsRun(setup, states, actions) && n < |states|
    ensures var s := states[n];
            && s.processed <= |s.shared.sent|
            && s.world == Drain(setup.api, setup.world, s.shared.sent[..s.processed])
  {
    InvAlways(setup, states, actions, n);
  }

  lemma DrainedWorld(setup: Setup, states: seq<State>, actions: seq<Action>, n: nat)
    requires IsRun(setup, states, actions) && n < |states| && states[n].processed == |states[n].shared.sent|
    ensures states[n].world == Drain(setup.api, setup.world, states[n].shared.sent)
  {
    ClusterFollowsQueue(setup, states, actions, n);
    assert states[n].shared.sent[..|states[n].shared.sent|] == states[n].shared.sent;
  }

  // ---------------------------------------------------------------- who sends what

  /** Each step sends at most one command. */
  lemma SendsAtMostOne(setup: Setup, s: State, a: Action)
    requires Enabled(s, a)
    ensures var sent, sent' := s.shared.sent, Next(setup, s, a).shared.sent;
            sent' == sent || (|sent'| == |sent| + 1 && sent' == sent + [sent'[|sent|]])
  {
  }

  /** The step that sent command number q. */
  lemma {:induction false} SentAt(setup: Setup, states: seq<State>, actions: seq<Action>, i: nat, n: nat, q: nat)
    returns (m: nat)
    requires IsRun(setup, states, actions) && i <= n < |states|
    requires |states[i].shared.sent| <= q < |states[n].shared.sent|
    ensures i <= m < n && |states[m].shared.sent| == q
    ensures states[m + 1].shared.sent == states[m].shared.sent + [states[n].shared.sent[q]]
    decreases n
  {
    assert StepAt(setup, states, actions, n - 1);
    SendsAtMostOne(setup, states[n - 1], actions[n - 1]);
    if q < |states[n - 1].shared.sent| {
      m := SentAt(setup, states, actions, i, n - 1, q);
    } else {
      m := n - 1;
    }
  }

  /** Upserts come from reconcile calls and event tasks. */
  lemma UpsertSender(setup: Setup, s: State, a: Action, c: Command)
    requires Enabled(s, a) && c.UpsertService?
    requires Next(setup, s, a).shared.sent == s.shared.sent + [c]
    ensures || (exists lattice :: ReconcileSends(s, a, Next(setup, s, a), lattice, c))
            || (a.TaskPublished? && TaskSends(s, a, Next(setup, s, a), a.task, c))
  {
    var sent := s.shared.sent;
    assert (sent + [c])[|sent|] == c;
    if a.ReconcileNext? {
      assert ReconcileSends(s, a, Next(setup, s, a), s.calls[a.id].watcher.lattice, c);
    }
  }

  /** From state i to state n no watch call for the namespace succeeds, in any lattice. */
  ghost predicate NoWatchFor(states: seq<State>, actions: seq<Action>, i: nat, n: nat, ns: string)
    requires |states| == |actions| + 1 && n <= |actions|
  {
    forall k, lattice | i <= k < n :: !WatchSucceeds(states[k], actions[k], lattice, ns)
  }

  ghost predicate RegisteredNowhere(s: Shared, ns: string) {
    forall lattice :: !Registered(s, lattice, ns)
  }

  /** The namespace is registered for no lattice, and no running task still carries it. */
  ghost predicate Abandoned(s: Shared, ns: string) {
    && RegisteredNowhere(s, ns)
    && (forall t | 0 <= t < |s.tasks| && s.tasks[t].running :: ns !in s.tasks[t].dup.namespaces)
  }

  /** In step m an event task that was running in state i, and was created for the namespace, sends the upsert. */
  ghost predicate OldTaskUpserts(states: seq<State>, actions: seq<Action>, i: nat, m: nat, ns: string, c: Command)
    requires |states| == |actions| + 1 && i <= m < |actions|
  {
    && actions[m].TaskPublished? && c.UpsertService?
    && TaskSends(states[m], actions[m], states[m + 1], actions[m].task, c)
    && RunningTask(states[i].shared, actions[m].task)
    && states[i].shared.tasks[actions[m].task].dup.namespaces == {ns}
  }

  ghost predicate NoOldTaskUpserts(states: seq<State>, actions: seq<Action>, i: nat, n: nat, ns: string)
    requires |states| == |actions| + 1 && n <= |actions|
  {
    forall m, c | i <= m < n :: !OldTaskUpserts(states, actions, i, m, ns, c)
  }

  /** While a namespace is registered nowhere and not watched again, only old event tasks upsert into it. */
  lemma UpsertIntoUnregistered(setup: Setup, states: seq<State>, actions: seq<Action>, i: nat, m: nat,
                               ns: string, c: Command)
    requires IsRun(setup, states, actions) && i <= m < |actions|
    requires RegisteredNowhere(states[i].shared, ns) && NoWatchFor(states, actions, i, m, ns)
    requires states[m + 1].shared.sent == states[m].shared.sent + [c]
    requires c.UpsertService? && ns in NamespacesOf(c)
    ensures OldTaskUpserts(states, actions, i, m, ns, c)
  {
    assert StepAt(setup, states, actions, m);
    UpsertSender(setup, states[m], actions[m], c);
    if actions[m].TaskPublished? {
      var t := actions[m].task;
      GrowsAlways(setup, states, actions, i, m);
      var k, lattice, ns' := EventCommandsUseSnapshot(setup, states, actions, m, t, c);
      if t >= |states[i].shared.tasks| {
        BornSince(setup, states, actions, i, k, lattice, ns');
        assert WatchSucceeds(states[k], actions[k], lattice, ns');
      }
    } else {
      var lattice :| ReconcileSends(states[m], actions[m], states[m + 1], lattice, c);
      ReconcileUsesCurrentNamespaces(setup, states, actions, m, lattice, c);
      RegisteredInBetween(setup, states, actions, i, m, lattice, ns);
    }
  }

  /** A task that did not exist in state i was created after it. */
  lemma BornSince(setup: Setup, states: seq<State>, actions: seq<Action>, i: nat, k: nat, lattice: string, ns: string)
    requires IsRun(setup, states, actions) && i < |states| && k < |actions|
    requires Creates(states[k], actions[k], lattice, ns) && |states[k].shared.tasks| >= |states[i].shared.tasks|
    ensures i <= k
  {
    assert StepAt(setup, states, actions, k);
    CreationEffect(setup, states[k], actions[k], lattice, ns);
    if k < i {
      GrowsAlways(setup, states, actions, k + 1, i);
    }
  }

  /** While a namespace is abandoned and not watched again nothing upserts into it. */
  lemma NoUpsertIntoAbandoned(setup: Setup, states: seq<State>, actions: seq<Action>, i: nat, m: nat,
                              ns: string, c: Command)
    requires IsRun(setup, states, actions) && i <= m < |actions|
    requires Abandoned(states[i].shared, ns) && NoWatchFor(states, actions, i, m, ns)
    requires states[m + 1].shared.sent == states[m].shared.sent + [c]
    ensures c.UpsertService? ==> ns !in NamespacesOf(c)
  {
    if c.UpsertService? && ns in NamespacesOf(c) {
      UpsertIntoUnregistered(setup, states, actions, i, m, ns, c);
    }
  }

  /** The run goes on. */
  ghost predicate Continues(setup: Setup, states: seq<State>, actions: seq<Action>, states': seq<State>,
                            actions': seq<Action>)
  {
    IsRun(setup, states', actions') && states <= states' && actions <= actions'
  }

  /** The command sent in step m upserts into the namespace, and no watch call for it has succeeded since state i. */
  ghost predicate UpsertsUnwatched(states: seq<State>, actions: seq<Action>, i: nat, m: nat, ns: string, c: Command)
    requires |states| == |actions| + 1 && i <= m < |actions|
  {
    && c.UpsertService? && ns in NamespacesOf(c)
    && states[m + 1].shared.sent == states[m].shared.sent + [c]
    && NoWatchFor(states, actions, i, m, ns)
  }

  /** However the run goes on, nothing upserts into the namespace until it is watched again. */
  ghost predicate StaysClean(setup: Setup, states: seq<State>, actions: seq<Action>, ns: string) {
    forall states', actions', m, c |
      Continues(setup, states, actions, states', actions') && |actions| <= m < |actions'| ::
      !UpsertsUnwatched(states', actions', |actions|, m, ns, c)
  }

  /**
   When a stop_watch is safe. Nothing upserts into its namespace in any continuation of the run
   exactly if no lattice registers the namespace and no running task carries it; the manifest is any
   that asks for a service.
   */
  lemma StaysCleanIff(setup: Setup, states: seq<State>, actions: seq<Action>, lattice: string, ns: string, m: Manifest)
    requires IsRun(setup, states, actions) && actions != []
    requires actions[|actions| - 1] == StopWatch(lattice, ns)
    requires PublishedCommand(setup, Watcher({ns}, lattice, 0), m).Some?
    ensures StaysClean(setup, states, actions, ns) <==> Abandoned(states[|actions|].shared, ns)
  {
    var n := |actions|;
    var s := states[n].shared;
    if Abandoned(s, ns) {
      forall states', actions', j, c | Continues(setup, states, actions, states', actions') && n <= j < |actions'|
        ensures !UpsertsUnwatched(states', actions', n, j, ns, c)
      {
        assert states'[n] == states[n];
        if UpsertsUnwatched(states', actions', n, j, ns, c) {
          NoUpsertIntoAbandoned(setup, states', actions', n, j, ns, c);
        }
      }
    } else if !RegisteredNowhere(s, ns) {
      var l :| Registered(s, l, ns);
      ReconcileSoils(setup, states, actions, lattice, l, ns, m);
    } else {
      var t :| 0 <= t < |s.tasks| && s.tasks[t].running && ns in s.tasks[t].dup.namespaces;
      var states', actions' := Extend(setup, states, actions, TaskPublished(t, m));
      var c := PublishedCommand(setup, s.tasks[t].dup, m).value;
      assert Continues(setup, states, actions, states', actions') && UpsertsUnwatched(states', actions', n, n, ns, c);
    }
  }

  /** Nobody is in a call, so a watched lattice can be reconciled with a manifest that asks for a service. */
  lemma ReconcileOnce(setup: Setup, s: State, begin: Action, next: Action, l: string, m: Manifest) returns (c: Command)
    requires LockInv(s) && CanWrite(s.lock) && l in s.shared.watchers
    requires begin == BeginReconcile(0, l, [App(m.name, true)]) && next == ReconcileNext(0, Some(m))
    requires PublishedCommand(setup, s.shared.watchers[l], m).Some?
    ensures Enabled(s, begin) && Enabled(Next(setup, s, begin), next)
    ensures c.UpsertService? && NamespacesOf(c) == s.shared.watchers[l].namespaces
    ensures Next(setup, Next(setup, s, begin), next).shared.sent == Next(setup, s, begin).shared.sent + [c]
  {
    assert 0 !in s.calls;
    c := PublishedCommand(setup, s.shared.watchers[l], m).value;
  }

  /** After a stop_watch the lock is free, so a lattice that registers the namespace can be reconciled. */
  lemma ReconcileSoils(setup: Setup, states: seq<State>, actions: seq<Action>, lattice: string, l: string,
                       ns: string, m: Manifest)
    requires IsRun(setup, states, actions) && actions != []
    requires actions[|actions| - 1] == StopWatch(lattice, ns)
    requires PublishedCommand(setup, Watcher({ns}, lattice, 0), m).Some?
    requires Registered(states[|actions|].shared, l, ns)
    ensures !StaysClean(setup, states, actions, ns)
  {
    var n := |actions|;
    assert StepAt(setup, states, actions, n - 1);
    InvAlways(setup, states, actions, n);
    var begin, next := BeginReconcile(0, l, [App(m.name, true)]), ReconcileNext(0, Some(m));
    var c := ReconcileOnce(setup, states[n], begin, next, l, m);
    var states', actions' := Extend(setup, states, actions, begin);
    states', actions' := Extend(setup, states', actions', next);
    assert NoWatchFor(states', actions', n, n + 1, ns);
    assert Continues(setup, states, actions, states', actions') && UpsertsUnwatched(states', actions', n, n + 1, ns, c);
  }

  // ---------------------------------------------------------------- the cluster after a stop

  /** A service that is not managed stays so until a command upserts it, whatever fails. */
  lemma {:induction false} NotManagedStays(api: Api, w: World, commands: seq<Command>, i: nat, k: Key)
    requires api.Valid() && i <= |commands|
    requires !IsManaged(Drain(api, w, commands[..i]).At(k))
    requires forall j | i <= j < |commands| :: commands[j].UpsertService? ==> !Covers(commands[j], k)
    ensures !IsManaged(Drain(api, w, commands).At(k))
    decreases |commands|
  {
    if i == |commands| {
      assert commands[..i] == commands;
    } else {
      var n := |commands| - 1;
      assert commands[..n][..i] == commands[..i];
      NotManagedStays(api, w, commands[..n], i, k);
      StaysUnmanaged(api, w, commands, k);
    }
  }

  lemma StaysUnmanaged(api: Api, w: World, commands: seq<Command>, k: Key)
    requires api.Valid() && commands != []
    requires var n := |commands| - 1;
             !IsManaged(Drain(api, w, commands[..n]).At(k)) && (commands[n].UpsertService? ==> !Covers(commands[n], k))
    ensures !IsManaged(Drain(api, w, commands).At(k))
  {
    var n := |commands| - 1;
    ProcessFootprint(api, Drain(api, w, commands[..n]), commands[n], k);
  }

  /** The position at which a stop_watch puts its removal into the queue, and that it stays there. */
  lemma RemovalSent(setup: Setup, states: seq<State>, actions: seq<Action>, i: nat, n: nat, lattice: string, ns: string)
    requires IsRun(setup, states, actions) && i < n < |states|
    requires actions[i] == StopWatch(lattice, ns) && lattice in states[i].shared.watchers
    ensures var sent, q := states[n].shared.sent, |states[i].shared.sent|;
            && q < |sent| && sent[..q] == states[i].shared.sent && sent[q] == RemoveServices({ns})
            && |states[i + 1].shared.sent| == q + 1
  {
    assert StepAt(setup, states, actions, i);
    assert states[i + 1].shared.sent == states[i].shared.sent + [RemoveServices({ns})];
    GrowsAlways(setup, states, actions, i + 1, n);
  }

  /**
   Cleanup reaches the cluster. A stop_watch leaves its namespace registered nowhere; nobody watches
   it again, no event task left over publishes into it, and the calls made for the RemoveServices it
   sent succeed. Then, once the queue is drained, the namespace holds no managed service, whatever
   other calls failed and whatever reconcile calls were in progress.
   */
  lemma CleanupReachesCluster(setup: Setup, states: seq<State>, actions: seq<Action>, i: nat, n: nat,
                              lattice: string, ns: string, k: Key)
    requires IsRun(setup, states, actions) && setup.api.Valid() && i < n < |states|
    requires actions[i] == StopWatch(lattice, ns) && lattice in states[i].shared.watchers
    requires RegisteredNowhere(states[i + 1].shared, ns) && NoWatchFor(states, actions, i + 1, n, ns)
    requires NoOldTaskUpserts(states, actions, i + 1, n, ns)
    requires states[n].processed == |states[n].shared.sent|
    requires Succeeds(setup.api, Drain(setup.api, setup.world, states[i].shared.sent), RemoveServices({ns}))
    requires k.namespace == ns
    ensures !IsManaged(states[n].world.At(k))
  {
    var q, sent := |states[i].shared.sent|, states[n].shared.sent;
    RemovalSent(setup, states, actions, i, n, lattice, ns);
    forall j | q + 1 <= j < |sent| ensures sent[j].UpsertService? ==> !Covers(sent[j], k) {
      var m := SentAt(setup, states, actions, i + 1, n, j);
      if sent[j].UpsertService? && Covers(sent[j], k) {
        UpsertIntoUnregistered(setup, states, actions, i + 1, m, ns, sent[j]);
      }
    }
    RemovalUndone(setup.api, setup.world, sent, q, k);
    DrainedWorld(setup, states, actions, n);
  }

  lemma LastAfterRemoval(api: Api, w: World, sent: seq<Command>, q: nat, k: Key)
    requires api.Valid() && q < |sent| && sent[q] == RemoveServices({k.namespace})
    requires LastSucceeds(api, w, sent, k)
    ensures var last := LastCovering(sent, k);
            last >= q && (IsManaged(Drain(api, w, sent).At(k)) <==> last > q && sent[last].UpsertService?)
  {
    assert Covers(sent[q], k);
    LastWriterDecides(api, w, sent, k);
  }

  /** A successful removal of the namespace that no upsert follows leaves no managed service. */
  lemma RemovalUndone(api: Api, w: World, sent: seq<Command>, q: nat, k: Key)
    requires api.Valid() && q < |sent| && sent[q] == RemoveServices({k.namespace})
    requires Succeeds(api, Drain(api, w, sent[..q]), sent[q])
    requires forall j | q + 1 <= j < |sent| :: sent[j].UpsertService? ==> !Covers(sent[j], k)
    ensures !IsManaged(Drain(api, w, sent).At(k))
  {
    assert sent[..q + 1][..q] == sent[..q];
    ProcessFootprint(api, Drain(api, w, sent[..q]), sent[q], k);
    NotManagedStays(api, w, sent, q + 1, k);
  }

  /** A stop_watch for a lattice that is not watched sends nothing. */
  lemma UnwatchedStopIsSilent(setup: Setup, states: seq<State>, actions: seq<Action>, i: nat, lattice: string,
                              ns: string)
    requires IsRun(setup, states, actions) && i < |actions|
    requires actions[i] == StopWatch(lattice, ns) && lattice !in states[i].shared.watchers
    ensures states[i + 1] == states[i]
  {
    assert StepAt(setup, states, actions, i);
  }

  /** The service a stop_watch leaves as it finds it: it sends no removal and no later command covers the service. */
  ghost predicate LeftAlone(setup: Setup, states: seq<State>, i: nat, n: nat, lattice: string, k: Key)
    requires i < |states| && n < |states|
  {
    && lattice !in states[i].shared.watchers
    && LastCovering(states[n].shared.sent, k) < |states[i].shared.sent|
    && IsManaged(Drain(setup.api, setup.world, states[i].shared.sent).At(k))
  }

  /** If a command that covers the service was sent from state i on, the calls made for the last such one succeed. */
  ghost predicate LastSucceedsSince(setup: Setup, states: seq<State>, i: nat, n: nat, k: Key)
    requires i < |states| && n < |states|
  {
    var sent := states[n].shared.sent;
    LastCovering(sent, k) >= |states[i].shared.sent| ==> LastSucceeds(setup.api, setup.world, sent, k)
  }

  /** The last command that covers the service is an upsert sent from state i on. */
  ghost predicate UpsertedSince(states: seq<State>, i: nat, n: nat, k: Key)
    requires i < |states| && n < |states|
  {
    var sent := states[n].shared.sent;
    LastCovering(sent, k) >= |states[i].shared.sent| && sent[LastCovering(sent, k)].UpsertService?
  }

  /**
   What survives a stop_watch. The removal it sends covers every service of the namespace, whichever
   lattice it is for, but for a lattice that is not watched it sends none. Once drained, a managed
   service is there exactly if the last command that covers it is an upsert sent after the stop, or
   if the lattice was not watched and nothing touches the service that was there.
   */
  lemma SurvivesStopIff(setup: Setup, states: seq<State>, actions: seq<Action>, i: nat, n: nat,
                        lattice: string, ns: string, k: Key)
    requires IsRun(setup, states, actions) && setup.api.Valid() && i < n < |states|
    requires actions[i] == StopWatch(lattice, ns) && k.namespace == ns
    requires states[n].processed == |states[n].shared.sent| && LastSucceedsSince(setup, states, i, n, k)
    ensures IsManaged(states[n].world.At(k))
       <==> UpsertedSince(states, i + 1, n, k) || LeftAlone(setup, states, i, n, lattice, k)
  {
    var q, sent := |states[i].shared.sent|, states[n].shared.sent;
    DrainedWorld(setup, states, actions, n);
    if lattice in states[i].shared.watchers {
      RemovalSent(setup, states, actions, i, n, lattice, ns);
      assert Covers(sent[q], k);
      LastAfterRemoval(setup.api, setup.world, sent, q, k);
    } else {
      UnwatchedStopIsSilent(setup, states, actions, i, lattice, ns);
      GrowsAlways(setup, states, actions, i, n);
      assert sent[..q] == states[i].shared.sent;
      LastSince(setup.api, setup.world, sent, q, k);
    }
  }

  /** A queue cut in two: what the last covering command decides, or what the first part left. */
  lemma LastSince(api: Api, w: World, sent: seq<Command>, q: nat, k: Key)
    requires api.Valid() && q <= |sent|
    requires LastCovering(sent, k) >= q ==> LastSucceeds(api, w, sent, k)
    ensures var last := LastCovering(sent, k);
            IsManaged(Drain(api, w, sent).At(k))
            <==> if last >= q then sent[last].UpsertService? else IsManaged(Drain(api, w, sent[..q]).At(k))
  {
    if LastCovering(sent, k) >= q {
      LastWriterDecides(api, w, sent, k);
    } else {
      DrainTail(api, w, sent, q, k);
    }
  }

  /**
   When cleanup fails. For a namespace registered nowhere after the stop and not watched again, a
   managed service is left exactly for one of two reasons: the last command that covers it is an
   upsert published after the stop by an event task that was created for the namespace and still ran
   when it stopped; or the lattice was not watched, so that nothing was sent, and the service was there.
   */
  lemma CleanupFailsIff(setup: Setup, states: seq<State>, actions: seq<Action>, i: nat, n: nat,
                        lattice: string, ns: string, k: Key)
    requires IsRun(setup, states, actions) && setup.api.Valid() && i < n < |states|
    requires actions[i] == StopWatch(lattice, ns) && k.namespace == ns
    requires RegisteredNowhere(states[i + 1].shared, ns) && NoWatchFor(states, actions, i + 1, n, ns)
    requires states[n].processed == |states[n].shared.sent| && LastSucceedsSince(setup, states, i, n, k)
    ensures IsManaged(states[n].world.At(k))
       <==> || SentByOldTask(states, actions, i + 1, n, ns, LastCovering(states[n].shared.sent, k))
            || LeftAlone(setup, states, i, n, lattice, k)
  {
    SurvivesStopIff(setup, states, actions, i, n, lattice, ns, k);
    var last := LastCovering(states[n].shared.sent, k);
    if last >= |states[i + 1].shared.sent| {
      SentByOldTaskIff(setup, states, actions, i + 1, n, ns, last);
    }
  }

  /** Command number q is an upsert that an old event task sent in some step from state i on. */
  ghost predicate SentByOldTask(states: seq<State>, actions: seq<Action>, i: nat, n: nat, ns: string, q: int)
    requires |states| == |actions| + 1 && n < |states| && q < |states[n].shared.sent|
  {
    exists m :: && i <= m < n && |states[m].shared.sent| == q >= |states[i].shared.sent|
                && OldTaskUpserts(states, actions, i, m, ns, states[n].shared.sent[q])
  }

  lemma SentByOldTaskIff(setup: Setup, states: seq<State>, actions: seq<Action>, i: nat, n: nat, ns: string, q: nat)
    requires IsRun(setup, states, actions) && i <= n < |states|
    requires RegisteredNowhere(states[i].shared, ns) && NoWatchFor(states, actions, i, n, ns)
    requires |states[i].shared.sent| <= q < |states[n].shared.sent| && ns in NamespacesOf(states[n].shared.sent[q])
    ensures SentByOldTask(states, actions, i, n, ns, q) <==> states[n].shared.sent[q].UpsertService?
  {
    var c := states[n].shared.sent[q];
    if c.UpsertService? {
      var m := SentAt(setup, states, actions, i, n, q);
      UpsertIntoUnregistered(setup, states, actions, i, m, ns, c);
    }
  }

  /**
   Reconciling reaches the cluster. An upsert sent by a reconcile call goes to every namespace then
   registered; if the calls made for it succeed and no later command covers the service there, the
   drained cluster has it as the upsert wants it, whatever other calls failed.
   */
  lemma ReconcileReachesCluster(setup: Setup, states: seq<State>, actions: seq<Action>, j: nat, n: nat,
                                lattice: string, ns: string, c: Command)
    requires IsRun(setup, states, actions) && setup.api.Valid() && j < n < |states|
    requires ReconcileSends(states[j], actions[j], states[j + 1], lattice, c)
    requires Registered(states[j].shared, lattice, ns)
    requires states[n].processed == |states[n].shared.sent|
    requires Succeeds(setup.api, Drain(setup.api, setup.world, states[j].shared.sent), c)
    requires c.UpsertService? ==> forall q | |states[j].shared.sent| < q < |states[n].shared.sent| ::
               !Covers(states[n].shared.sent[q], Key(ns, c.params.name))
    ensures c.UpsertService? && c.params.latticeId == lattice
    ensures states[n].world.At(Key(ns, c.params.name)) == Some(AppService(c.params))
  {
    ReconcileUsesCurrentNamespaces(setup, states, actions, j, lattice, c);
    var q, sent, k := |states[j].shared.sent|, states[n].shared.sent, Key(ns, c.params.name);
    GrowsAlways(setup, states, actions, j + 1, n);
    assert sent[..q] == states[j].shared.sent && sent[q] == c;
    assert ns in NamespacesOf(c);
    assert LastCovering(sent, k) == q;
    LastWriterDecides(setup.api, setup.world, sent, k);
    DrainedWorld(setup, states, actions, n);
  }

  // ---------------------------------------------------------------- what a stop does not guarantee

  /**
   A command of an event task goes to a registered namespace exactly when the namespace the task was
   created for has been watched successfully since it was last stopped. It misses no registered
   namespace exactly when every other one that was ever watched for the lattice was stopped later.
   */
  lemma EventCommandIsCurrentIff(setup: Setup, states: seq<State>, actions: seq<Action>, j: nat, t: nat, c: Command)
    returns (lattice: string, ns: string)
    requires IsRun(setup, states, actions) && j < |actions|
    requires TaskSends(states[j], actions[j], states[j + 1], t, c)
    ensures t < |states[j].shared.tasks| && states[j].shared.tasks[t].dup == Watcher({ns}, lattice, t)
    ensures NamespacesOf(c) == {ns}
    ensures (forall x | x in NamespacesOf(c) :: Registered(states[j].shared, lattice, x))
       <==> WatchedSinceStopped(states, actions, j, lattice, ns)
    ensures (forall x | Registered(states[j].shared, lattice, x) :: x in NamespacesOf(c))
       <==> StoppedBesides(states, actions, j, lattice, ns)
  {
    var birth;
    birth, lattice, ns := EventCommandsUseSnapshot(setup, states, actions, j, t, c);
    assert ns in NamespacesOf(c);
    forall x ensures Registered(states[j].shared, lattice, x) <==> WatchedSinceStopped(states, actions, j, lattice, x) {
      RegistryRefinement(setup, states, actions, j, lattice, x);
    }
    StoppedBesidesIff(states, actions, j, lattice, ns);
  }

  /** After step k and before step j a stop_watch runs for the pair. */
  predicate StoppedBetween(actions: seq<Action>, k: nat, j: nat, lattice: string, ns: string)
    requires j <= |actions|
  {
    exists m :: k < m < j && actions[m] == StopWatch(lattice, ns)
  }

  /** Each successful watch call for the lattice and another namespace was followed by a stop of that namespace. */
  ghost predicate StoppedBesides(states: seq<State>, actions: seq<Action>, j: nat, lattice: string, ns: string)
    requires |states| == |actions| + 1 && j < |states|
  {
    forall x, k | x != ns && 0 <= k < j && WatchSucceeds(states[k], actions[k], lattice, x) ::
      StoppedBetween(actions, k, j, lattice, x)
  }

  lemma StoppedBesidesIff(states: seq<State>, actions: seq<Action>, j: nat, lattice: string, ns: string)
    requires |states| == |actions| + 1 && j < |states|
    ensures StoppedBesides(states, actions, j, lattice, ns)
       <==> forall x | x != ns :: !WatchedSinceStopped(states, actions, j, lattice, x)
  {
    if forall x | x != ns :: !WatchedSinceStopped(states, actions, j, lattice, x) {
      forall x, k | x != ns && 0 <= k < j && WatchSucceeds(states[k], actions[k], lattice, x)
        ensures StoppedBetween(actions, k, j, lattice, x)
      {
        assert !WatchedSinceStopped(states, actions, j, lattice, x);
      }
    }
  }

  /**
   Two namespaces watch a lattice and the first one stops. The event task lives on with the snapshot
   it was created with: what it publishes goes to the namespace that stopped, and not to the one
   that is still registered. Once the worker is done, the service is in the namespace that stopped.
   */
  lemma StoppedNamespaceIsStillServed(setup: Setup, lattice: string, first: string, second: string, m: Manifest)
    returns (states: seq<State>, actions: seq<Action>)
    requires first != second
    requires PublishedCommand(setup, Watcher({first}, lattice, 0), m).Some?
    ensures IsRun(setup, states, actions) && |actions| == 8 && actions[4] == StopWatch(lattice, first)
    ensures var s := states[5].shared;
            && s.cancelled == {}
            && !Registered(s, lattice, first) && Registered(s, lattice, second)
    ensures var c := PublishedCommand(setup, Watcher({first}, lattice, 0), m).value;
            && TaskSends(states[5], actions[5], states[6], 0, c)
            && NamespacesOf(c) == {first}
    ensures states[8].processed == |states[8].shared.sent| && states[8].shared == states[6].shared
    ensures setup.api.Valid() && setup.api.Reliable() ==> IsManaged(states[8].world.At(Key(first, m.name)))
  {
    states, actions := FirstStillPublishes(setup, lattice, first, second, m);
    var s6 := states[6];
    states, actions := Extend(setup, states, actions, WorkerNext);
    states, actions := Extend(setup, states, actions, WorkerNext);
    if setup.api.Valid() && setup.api.Reliable() {
      WorkerServes(setup, states[7], s6.shared.sent[1], first);
    }
  }

  /** The same run up to the command. */
  lemma FirstStillPublishes(setup: Setup, lattice: string, first: string, second: string, m: Manifest)
    returns (states: seq<State>, actions: seq<Action>)
    requires first != second
    requires PublishedCommand(setup, Watcher({first}, lattice, 0), m).Some?
    ensures IsRun(setup, states, actions) && |actions| == 6 && actions[4] == StopWatch(lattice, first)
    ensures var s := states[5].shared;
            && s.cancelled == {}
            && !Registered(s, lattice, first) && Registered(s, lattice, second)
    ensures var c := PublishedCommand(setup, Watcher({first}, lattice, 0), m).value;
            && TaskSends(states[5], actions[5], states[6], 0, c)
            && NamespacesOf(c) == {first} && c.UpsertService? && c.params.name == m.name
            && states[6].shared.sent == [RemoveServices({first}), c] && states[6].processed == 0
  {
    states, actions := FirstStops(setup, lattice, first, second);
    states, actions := Extend(setup, states, actions, TaskPublished(0, m));
  }

  /** The worker comes to an upsert and no call fails. */
  lemma WorkerServes(setup: Setup, s: State, c: Command, ns: string)
    requires setup.api.Valid() && setup.api.Reliable()
    requires s.processed < |s.shared.sent| && s.shared.sent[s.processed] == c
    requires c.UpsertService? && ns in c.params.namespaces
    ensures IsManaged(Next(setup, s, WorkerNext).world.At(Key(ns, c.params.name)))
  {
    ProcessFootprint(setup.api, s.world, c, Key(ns, c.params.name));
    AppServiceIsManaged(c.params);
  }

  /** The worker comes to a removal of a namespace and no call fails. */
  lemma WorkerCleans(setup: Setup, s: State, k: Key)
    requires setup.api.Valid() && setup.api.Reliable()
    requires s.processed < |s.shared.sent| && s.shared.sent[s.processed] == RemoveServices({k.namespace})
    ensures !IsManaged(Next(setup, s, WorkerNext).world.At(k))
  {
    ProcessFootprint(setup.api, s.world, RemoveServices({k.namespace}), k);
  }

  /** The run in which two namespaces watch a lattice and the first one stops. */
  lemma FirstStops(setup: Setup, lattice: string, first: string, second: string)
    returns (states: seq<State>, actions: seq<Action>)
    requires first != second
    ensures IsRun(setup, states, actions) && |actions| == 5 && actions[4] == StopWatch(lattice, first)
    ensures states[5].processed == 0
    ensures states[5].shared == Shared(map[lattice := Watcher({second}, lattice, 0)],
                                       [Task(Watcher({first}, lattice, 0), true)], {}, [RemoveServices({first})])
  {
    states, actions := FirstWatch(setup, lattice, first);
    states, actions := Extend(setup, states, actions, BeginWatch(1, lattice, second));
    assert states[4].shared.watchers[lattice].namespaces == {first, second};
    states, actions := Extend(setup, states, actions, StopWatch(lattice, first));
    assert {first, second} - {first} == {second};
  }

  /** One more step of a run. */
  lemma Extend(setup: Setup, states: seq<State>, actions: seq<Action>, a: Action)
    returns (states': seq<State>, actions': seq<Action>)
    requires IsRun(setup, states, actions) && Enabled(states[|actions|], a)
    ensures actions' == actions + [a] && states' == states + [Next(setup, states[|actions|], a)]
    ensures IsRun(setup, states', actions')
  {
    actions', states' := actions + [a], states + [Next(setup, states[|actions|], a)];
    forall i: nat | i < |actions'| ensures StepAt(setup, states', actions', i) {
      if i < |actions| {
        assert StepAt(setup, states, actions, i);
      }
    }
  }

  /** A successful watch call for a new lattice while nobody else is in a call. */
  lemma WatchRun(setup: Setup, states: seq<State>, actions: seq<Action>, lattice: string, ns: string)
    returns (states': seq<State>, actions': seq<Action>)
    requires IsRun(setup, states, actions)
    requires var s := states[|actions|]; s.calls == map[] && s.lock == RwLock({}, None) && lattice !in s.shared.watchers
    ensures IsRun(setup, states', actions') && |actions'| == |actions| + 3
    ensures states <= states'
    ensures actions' == actions + [BeginWatch(0, lattice, ns), StreamReady(0, true), ConsumerReady(0, true)]
    ensures var n := |actions|;
            && states'[n + 2].calls == map[0 := OpeningConsumer(lattice, ns)]
            && states'[n + 1].shared == states'[n + 2].shared == states[n].shared
    ensures var s := states[|actions|];
            states'[|actions'|] == s.(shared := Install(s.shared, lattice, ns))
  {
    states', actions' := Extend(setup, states, actions, BeginWatch(0, lattice, ns));
    states', actions' := Extend(setup, states', actions', StreamReady(0, true));
    states', actions' := Extend(setup, states', actions', ConsumerReady(0, true));
    assert states'[|actions'|].calls == map[];
  }

  /** The run of a first watch call. */
  lemma FirstWatch(setup: Setup, lattice: string, ns: string) returns (states: seq<State>, actions: seq<Action>)
    ensures IsRun(setup, states, actions) && |actions| == 3
    ensures var w := Watcher({ns}, lattice, 0);
            states[3] == Start(setup).(shared := Shared(map[lattice := w], [Task(w, true)], {}, []))
    ensures actions == [BeginWatch(0, lattice, ns), StreamReady(0, true), ConsumerReady(0, true)]
    ensures states[2].calls == map[0 := OpeningConsumer(lattice, ns)]
  {
    states, actions := WatchRun(setup, [Start(setup)], [], lattice, ns);
  }

  /**
   Two lattices share a namespace. The second stops, and a service of the first is gone, although
   the first is still registered there and its event task runs.
   */
  lemma StopRemovesOtherLattice(setup: Setup, lattice: string, other: string, ns: string, m: Manifest)
    returns (states: seq<State>, actions: seq<Action>)
    requires lattice != other && setup.api.Valid() && setup.api.Reliable()
    requires PublishedCommand(setup, Watcher({ns}, lattice, 0), m).Some?
    ensures IsRun(setup, states, actions) && |actions| == 10
    ensures IsManaged(states[5].world.At(Key(ns, m.name)))
    ensures actions[8] == StopWatch(other, ns)
    ensures var s := states[10];
            && s.processed == |s.shared.sent|
            && Registered(s.shared, lattice, ns) && RunningTask(s.shared, 0) && s.shared.cancelled == {1}
            && !IsManaged(s.world.At(Key(ns, m.name)))
  {
    var k := Key(ns, m.name);
    states, actions := ServedLattice(setup, lattice, ns, m);
    var s5 := states[5];
    states, actions := WatchRun(setup, states, actions, other, ns);
    StopSecond(s5.shared, lattice, other, ns);
    states, actions := Extend(setup, states, actions, StopWatch(other, ns));
    states, actions := Extend(setup, states, actions, WorkerNext);
    WorkerCleans(setup, states[9], k);
  }

  /** The run in which a lattice is watched and the service of its one application is deployed. */
  lemma ServedLattice(setup: Setup, lattice: string, ns: string, m: Manifest)
    returns (states: seq<State>, actions: seq<Action>)
    requires setup.api.Valid() && setup.api.Reliable()
    requires PublishedCommand(setup, Watcher({ns}, lattice, 0), m).Some?
    ensures IsRun(setup, states, actions)
    ensures actions == [BeginWatch(0, lattice, ns), StreamReady(0, true), ConsumerReady(0, true),
                        TaskPublished(0, m), WorkerNext]
    ensures states[0].shared.watchers == map[] && states[2].calls == map[0 := OpeningConsumer(lattice, ns)]
    ensures var w := Watcher({ns}, lattice, 0);
            && states[5].shared == Shared(map[lattice := w], [Task(w, true)], {}, [PublishedCommand(setup, w, m).value])
            && states[5].calls == map[] && states[5].lock == RwLock({}, None) && states[5].processed == 1
    ensures IsManaged(states[5].world.At(Key(ns, m.name)))
  {
    states, actions := PublishedOnce(setup, lattice, ns, m);
    WorkerServes(setup, states[4], states[4].shared.sent[0], ns);
    states, actions := Extend(setup, states, actions, WorkerNext);
  }

  /** The same run up to the command. */
  lemma PublishedOnce(setup: Setup, lattice: string, ns: string, m: Manifest)
    returns (states: seq<State>, actions: seq<Action>)
    requires PublishedCommand(setup, Watcher({ns}, lattice, 0), m).Some?
    ensures IsRun(setup, states, actions)
    ensures actions == [BeginWatch(0, lattice, ns), StreamReady(0, true), ConsumerReady(0, true), TaskPublished(0, m)]
    ensures states[0].shared.watchers == map[] && states[2].calls == map[0 := OpeningConsumer(lattice, ns)]
    ensures var w := Watcher({ns}, lattice, 0);
            var c := PublishedCommand(setup, w, m).value;
            && states[4].shared == Shared(map[lattice := w], [Task(w, true)], {}, [c])
            && c.UpsertService? && c.params.name == m.name && ns in c.params.namespaces
            && states[4].calls == map[] && states[4].lock == RwLock({}, None) && states[4].processed == 0
  {
    states, actions := FirstWatch(setup, lattice, ns);
    states, actions := Extend(setup, states, actions, TaskPublished(0, m));
  }

  /** A second lattice comes and goes. */
  lemma StopSecond(s: Shared, lattice: string, other: string, ns: string)
    requires other !in s.watchers && |s.tasks| == 1 && s.cancelled == {}
    ensures var s' := Stop(Install(s, other, ns), other, ns);
            && s'.watchers == s.watchers && s'.cancelled == {1}
            && s'.tasks == s.tasks + [Task(Watcher({ns}, other, 1), true)]
            && s'.sent == s.sent + [RemoveServices({ns})]
  {
    assert {ns} - {ns} == {};
    assert s.watchers[other := Watcher({ns}, other, 1)] - {other} == s.watchers;
  }

  /** An entry whose task has ended: the token is cancelled but the lattice still counts as watched. */
  lemma EntryWithoutTask(setup: Setup, lattice: string, ns: string) returns (states: seq<State>, actions: seq<Action>)
    ensures IsRun(setup, states, actions)
    ensures var s := states[|actions|].shared;
            && Registered(s, lattice, ns)
            && forall t | 0 <= t < |s.tasks| :: !s.tasks[t].running && t in s.cancelled
  {
    states, actions := FirstWatch(setup, lattice, ns);
    states, actions := Extend(setup, states, actions, TaskEnds(0));
  }
}
