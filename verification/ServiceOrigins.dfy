/**
 Which manifest the service of an application comes from. A manifest without a usable http server
 sends no command, so publishing it leaves the service an earlier manifest asked for.
 */
module ServiceOrigins {
  import opened Wrappers
  import opened Labels
  import opened Manifests
  import opened Clusters
  import opened WorkerRuns
  import opened QueueSemantics
  import opened Watchers
  import opened WatcherRuns
  import opened CleanupRuns

  // ---------------------------------------------------------------- what a step means for a service

  /** The manifest asks for a service: it has an http server at an address that can be read. */
  predicate Usable(setup: Setup, m: Manifest) {
    HttpServerOf(m).Some? && setup.parse(HttpServerOf(m).value.address).Some?
  }

  /** The service a usable manifest asks for, whoever publishes it. */
  function ServiceOf(setup: Setup, m: Manifest): Service
    requires Usable(setup, m)
  {
    var server := HttpServerOf(m).value;
    var port := setup.parse(server.address).value;
    Service(ServiceLabels(m.name), ServiceSelector(server.labels), port, [SERVICE_FINALIZER])
  }

  /** In this step an event task or a reconcile call publishes the manifest for the namespaces. */
  predicate Publishes(s: State, a: Action, m: Manifest, namespaces: set<string>) {
    || (a.TaskPublished? && a.manifest == m && RunningTask(s.shared, a.task)
        && namespaces == s.shared.tasks[a.task].dup.namespaces)
    || (a.ReconcileNext? && a.fetched == Some(m) && a.id in s.calls && s.calls[a.id].Reconciling?
        && s.calls[a.id].apps != [] && s.calls[a.id].apps[0].deployed
        && namespaces == s.calls[a.id].watcher.namespaces)
  }

  /** In this step the manifest is published for the service's application and namespace. */
  ghost predicate PublishedFor(s: State, a: Action, m: Manifest, k: Key) {
    m.name == k.name && exists namespaces :: Publishes(s, a, m, namespaces) && k.namespace in namespaces
  }

  /** In this step the application is unpublished for the namespace. */
  predicate UnpublishedFor(s: State, a: Action, k: Key) {
    && a.TaskUnpublished? && a.name == k.name && RunningTask(s.shared, a.task)
    && k.namespace in s.shared.tasks[a.task].dup.namespaces
  }

  /** In this step a watched lattice stops for the namespace. */
  predicate StoppedFor(s: State, a: Action, k: Key) {
    a.StopWatch? && a.ns == k.namespace && a.lattice in s.shared.watchers
  }

  /** The step decides over the service. Publishing a manifest that is not usable does not. */
  ghost predicate Decides(setup: Setup, s: State, a: Action, k: Key) {
    || (exists m :: PublishedFor(s, a, m, k) && Usable(setup, m))
    || UnpublishedFor(s, a, k)
    || StoppedFor(s, a, k)
  }

  /** The step sends exactly one command, and it covers the service. */
  ghost predicate SendsFor(s: State, s': State, k: Key) {
    && |s'.shared.sent| == |s.shared.sent| + 1
    && s'.shared.sent == s.shared.sent + [s'.shared.sent[|s.shared.sent|]]
    && Covers(s'.shared.sent[|s.shared.sent|], k)
  }

  /** Publishing sends an upsert for the manifest's service if it is usable, and nothing otherwise. */
  lemma PublishingSends(setup: Setup, s: State, a: Action, m: Manifest, namespaces: set<string>)
    requires Enabled(s, a) && Publishes(s, a, m, namespaces)
    ensures var sent, sent' := s.shared.sent, Next(setup, s, a).shared.sent;
            if Usable(setup, m) then
              && |sent'| == |sent| + 1 && sent' == sent + [sent'[|sent|]] && sent'[|sent|].UpsertService?
              && NamespacesOf(sent'[|sent|]) == namespaces
              && sent'[|sent|].params.name == m.name && AppService(sent'[|sent|].params) == ServiceOf(setup, m)
            else sent' == sent
  {
  }

  /** A step that publishes nothing usable leaves no upsert. */
  lemma OnlyPublishingUpserts(setup: Setup, s: State, a: Action, c: Command) returns (m: Manifest)
    requires Enabled(s, a) && Next(setup, s, a).shared.sent == s.shared.sent + [c] && c.UpsertService?
    ensures Usable(setup, m) && Publishes(s, a, m, NamespacesOf(c)) && m.name == c.params.name
  {
    var sent := s.shared.sent;
    assert (sent + [c])[|sent|] == c;
    m := if a.TaskPublished? then a.manifest else a.fetched.value;
  }

  /** A step sends a command that covers the service exactly if it decides over it. */
  lemma DecidesIffSends(setup: Setup, s: State, a: Action, k: Key)
    requires Enabled(s, a)
    ensures SendsFor(s, Next(setup, s, a), k) <==> Decides(setup, s, a, k)
  {
    var sent, sent' := s.shared.sent, Next(setup, s, a).shared.sent;
    if SendsFor(s, Next(setup, s, a), k) {
      var c := sent'[|sent|];
      if c.UpsertService? {
        var m := OnlyPublishingUpserts(setup, s, a, c);
        assert PublishedFor(s, a, m, k);
      }
    }
    if m :| PublishedFor(s, a, m, k) && Usable(setup, m) {
      var namespaces :| Publishes(s, a, m, namespaces) && k.namespace in namespaces;
      PublishingSends(setup, s, a, m, namespaces);
    }
  }

  // ---------------------------------------------------------------- the deciding step of a run

  /** From step i to step n nothing decides over the service. */
  ghost predicate Undecided(setup: Setup, states: seq<State>, actions: seq<Action>, i: nat, n: nat, k: Key)
    requires |states| == |actions| + 1 && n <= |actions|
  {
    forall j | i <= j < n :: !Decides(setup, states[j], actions[j], k)
  }

  /** Nothing was sent for the service from step i to step n exactly if nothing decided over it. */
  lemma UndecidedIff(setup: Setup, states: seq<State>, actions: seq<Action>, i: nat, n: nat, k: Key)
    requires IsRun(setup, states, actions) && i <= n < |states|
    ensures Undecided(setup, states, actions, i, n, k)
       <==> LastCovering(states[n].shared.sent, k) < |states[i].shared.sent|
  {
    var sent := states[n].shared.sent;
    var last := LastCovering(sent, k);
    if last >= |states[i].shared.sent| {
      var m := SentAt(setup, states, actions, i, n, last);
      assert StepAt(setup, states, actions, m);
      DecidesIffSends(setup, states[m], actions[m], k);
      assert Decides(setup, states[m], actions[m], k);
    } else {
      forall j | i <= j < n ensures !Decides(setup, states[j], actions[j], k) {
        assert StepAt(setup, states, actions, j);
        DecidesIffSends(setup, states[j], actions[j], k);
        GrowsAlways(setup, states, actions, i, j);
        GrowsAlways(setup, states, actions, j + 1, n);
      }
    }
  }

  /** Step m published the manifest for the service, and nothing has decided over the service since. */
  ghost predicate Origin(setup: Setup, states: seq<State>, actions: seq<Action>, m: nat, n: nat, k: Key, man: Manifest)
    requires |states| == |actions| + 1 && n <= |actions|
  {
    && m < n && PublishedFor(states[m], actions[m], man, k) && Usable(setup, man)
    && Undecided(setup, states, actions, m + 1, n, k)
  }

  /** The origin of a service is the sender of the last command that covers it. */
  lemma OriginIsLast(setup: Setup, states: seq<State>, actions: seq<Action>, m: nat, n: nat, k: Key, man: Manifest)
    requires IsRun(setup, states, actions) && n < |states|
    requires Origin(setup, states, actions, m, n, k, man)
    ensures var last := LastCovering(states[n].shared.sent, k);
            && last == |states[m].shared.sent|
            && states[n].shared.sent[last].UpsertService?
            && AppService(states[n].shared.sent[last].params) == ServiceOf(setup, man)
  {
    var namespaces :| Publishes(states[m], actions[m], man, namespaces) && k.namespace in namespaces;
    assert StepAt(setup, states, actions, m);
    PublishingSends(setup, states[m], actions[m], man, namespaces);
    GrowsAlways(setup, states, actions, m + 1, n);
    UndecidedIff(setup, states, actions, m + 1, n, k);
  }

  /** Where the last command that covers the service is an upsert, the service has an origin. */
  lemma UpsertHasOrigin(setup: Setup, states: seq<State>, actions: seq<Action>, n: nat, k: Key)
    returns (m: nat, man: Manifest)
    requires IsRun(setup, states, actions) && n < |states|
    requires UpsertedSince(states, 0, n, k)
    ensures Origin(setup, states, actions, m, n, k, man)
  {
    var sent := states[n].shared.sent;
    m := SentAt(setup, states, actions, 0, n, LastCovering(sent, k));
    assert StepAt(setup, states, actions, m);
    man := OnlyPublishingUpserts(setup, states[m], actions[m], sent[LastCovering(sent, k)]);
    assert PublishedFor(states[m], actions[m], man, k);
    UndecidedIff(setup, states, actions, m + 1, n, k);
  }

  /**
   Where a service comes from. Once the queue is drained, a managed service is there exactly if a
   usable manifest of its application was published for its namespace and since then no other
   usable one was, the application was not unpublished there and no watched lattice stopped there;
   or if none of this ever happened and the service was there from the start.
   */
  lemma ManagedIffOrigin(setup: Setup, states: seq<State>, actions: seq<Action>, n: nat, k: Key)
    requires IsRun(setup, states, actions) && setup.api.Valid() && n < |states|
    requires states[n].processed == |states[n].shared.sent|
    requires LastSucceeds(setup.api, setup.world, states[n].shared.sent, k)
    ensures IsManaged(states[n].world.At(k))
       <==> || (exists m: nat, man :: Origin(setup, states, actions, m, n, k, man))
            || (Undecided(setup, states, actions, 0, n, k) && IsManaged(setup.world.At(k)))
  {
    DrainedWorld(setup, states, actions, n);
    LastWriterDecides(setup.api, setup.world, states[n].shared.sent, k);
    UndecidedIff(setup, states, actions, 0, n, k);
    if UpsertedSince(states, 0, n, k) {
      var m, man := UpsertHasOrigin(setup, states, actions, n, k);
    }
    if m: nat, man :| Origin(setup, states, actions, m, n, k, man) {
      OriginIsLast(setup, states, actions, m, n, k, man);
    }
  }

  /**
   The service is the one its origin asks for, whatever was published after it that is not usable
   and whatever other calls failed.
   */
  lemma ServiceOfOrigin(setup: Setup, states: seq<State>, actions: seq<Action>, m: nat, n: nat, k: Key, man: Manifest)
    requires IsRun(setup, states, actions) && setup.api.Valid() && n < |states|
    requires states[n].processed == |states[n].shared.sent|
    requires LastSucceeds(setup.api, setup.world, states[n].shared.sent, k)
    requires Origin(setup, states, actions, m, n, k, man)
    ensures states[n].world.At(k) == Some(ServiceOf(setup, man))
  {
    OriginIsLast(setup, states, actions, m, n, k, man);
    LastWriterDecides(setup.api, setup.world, states[n].shared.sent, k);
    DrainedWorld(setup, states, actions, n);
  }

  /**
   An application is published again without its http server. The cluster keeps the service of the
   first manifest.
   */
  lemma OldServiceRemains(setup: Setup, lattice: string, ns: string, first: Manifest, second: Manifest)
    returns (states: seq<State>, actions: seq<Action>)
    requires setup.api.Valid() && setup.api.Reliable()
    requires Usable(setup, first) && !Usable(setup, second) && first.name == second.name
    ensures IsRun(setup, states, actions) && |actions| == 6
    ensures PublishedFor(states[5], actions[5], second, Key(ns, second.name))
    ensures states[6].processed == |states[6].shared.sent|
    ensures states[6].world.At(Key(ns, second.name)) == Some(ServiceOf(setup, first))
  {
    var k := Key(ns, first.name);
    states, actions := ServedLattice(setup, lattice, ns, first);
    states, actions := Extend(setup, states, actions, TaskPublished(0, second));
    assert Publishes(states[5], actions[5], second, {ns});
    PublishingSends(setup, states[5], actions[5], second, {ns});
    var c := PublishedCommand(setup, Watcher({ns}, lattice, 0), first).value;
    assert states[6].shared.sent == [c] && [c][..0] == [];
    assert LastCovering([c], k) == 0;
    LastWriterDecides(setup.api, setup.world, [c], k);
    DrainedWorld(setup, states, actions, 6);
  }
}
