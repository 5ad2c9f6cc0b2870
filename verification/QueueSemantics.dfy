/** What draining a whole queue leaves behind: the last command covering a service decides. */
module QueueSemantics {
  import opened Wrappers
  import opened HostConfigs
  import opened Labels
  import opened Clusters
  import opened WorkerRuns

  // ---------------------------------------------------------------- the last writer, under failures

  /** The position of the last command that covers the service, or -1. */
  function LastCovering(commands: seq<Command>, k: Key): (i: int)
    ensures -1 <= i < |commands|
    ensures i >= 0 ==> Covers(commands[i], k)
    ensures forall j | i < j < |commands| :: !Covers(commands[j], k)
  {
    if commands == [] then -1
    else if Covers(commands[|commands| - 1], k) then |commands| - 1
    else LastCovering(commands[..|commands| - 1], k)
  }

  lemma AppServiceIsManaged(p: ServiceParams)
    ensures AppService(p).Managed()
  {
    ManagedBySelection(p.name, UNNAMED);
  }

  /**
   What an upsert asks for: a managed service under the application's name, with its port and the
   operator's finalizer, that selects the pods of exactly the configurations with the wanted host
   labels; without wanted host labels it has no selector and relies on its endpoint slice.
   */
  lemma ServiceOfUpsert(p: ServiceParams, cfg: HostConfig)
    ensures var svc := AppService(p);
            && svc.Managed() && svc.port == p.port && svc.finalizers == ["operator.k8s.wasmcloud.dev/service"]
            && (p.hostLabels.Some? ==>
                  (Matches(svc.selector, PodLabels(cfg)) <==> Matches(p.hostLabels.value, HostLabels(cfg))))
            && (p.hostLabels.None? ==> svc.selector == map[])
  {
    AppServiceIsManaged(p);
    if p.hostLabels.Some? {
      HostLabelSelection(p.hostLabels.value, cfg);
    }
  }

  /** The upserted service, key by key. */
  lemma ServiceByKey(p: ServiceParams, key: string)
    ensures AppService(p).port == p.port
    ensures AppService(p).finalizers == ["operator.k8s.wasmcloud.dev/service"]
    ensures Lookup(AppService(p).labels, key)
         == if key == "app.kubernetes.io/name" then Some(p.name)
            else if key == "app.kubernetes.io/managed-by" then Some("wadm-operator")
            else None
    ensures Lookup(AppService(p).selector, key)
         == if p.hostLabels.Some? && key == "app.kubernetes.io/name" then Some("wasmcloud")
            else HostLabelAt(p.hostLabels, key)
  {
    ServiceLabelsByKey(p.name, UNNAMED, key);
    ServiceSelectorByKey(p.hostLabels, key);
  }

  /** A service no command covers is left alone, whatever fails. */
  lemma {:induction false} UncoveredIsKept(api: Api, w: World, commands: seq<Command>, k: Key)
    requires api.Valid()
    requires forall c | c in commands :: !Covers(c, k)
    ensures Drain(api, w, commands).At(k) == w.At(k)
  {
    if commands != [] {
      var n := |commands| - 1;
      UncoveredIsKept(api, w, commands[..n], k);
      ProcessFootprint(api, Drain(api, w, commands[..n]), commands[n], k);
    }
  }

  lemma {:induction false} DrainTail(api: Api, w: World, commands: seq<Command>, i: nat, k: Key)
    requires api.Valid() && i <= |commands|
    requires forall j | i <= j < |commands| :: !Covers(commands[j], k)
    ensures Drain(api, w, commands).At(k) == Drain(api, w, commands[..i]).At(k)
    decreases |commands|
  {
    if i == |commands| {
      assert commands[..i] == commands;
    } else {
      var n := |commands| - 1;
      DrainTail(api, w, commands[..n], i, k);
      assert commands[..n][..i] == commands[..i];
      ProcessFootprint(api, Drain(api, w, commands[..n]), commands[n], k);
    }
  }

  /** The calls made for the last command that covers the service succeed. */
  ghost predicate LastSucceeds(api: Api, w: World, commands: seq<Command>, k: Key) {
    var last := LastCovering(commands, k);
    last >= 0 ==> Succeeds(api, Drain(api, w, commands[..last]), commands[last])
  }

  /**
   The last writer decides. Calls made for any other command may fail: as long as those of the last
   command covering the service succeed, the service ends as that command wants it, and it is a
   managed service exactly when that command is an upsert, or no command covers it and it was one.
   */
  lemma LastWriterDecides(api: Api, w: World, commands: seq<Command>, k: Key)
    requires api.Valid() && LastSucceeds(api, w, commands, k)
    ensures var i := LastCovering(commands, k);
            var end := Drain(api, w, commands).At(k);
            && (IsManaged(end) <==> if i < 0 then IsManaged(w.At(k)) else commands[i].UpsertService?)
            && (i < 0 ==> end == w.At(k))
            && (i >= 0 && commands[i].UpsertService? ==> end == Some(AppService(commands[i].params)))
            && (i >= 0 && commands[i].RemoveService? ==> end == None)
  {
    var i := LastCovering(commands, k);
    if i < 0 {
      UncoveredIsKept(api, w, commands, k);
    } else {
      var before := Drain(api, w, commands[..i]);
      assert commands[..i + 1][..i] == commands[..i];
      ProcessFootprint(api, before, commands[i], k);
      DrainTail(api, w, commands, i + 1, k);
      if commands[i].UpsertService? {
        AppServiceIsManaged(commands[i].params);
      }
    }
  }

  // ---------------------------------------------------------------- whose services are removed

  /** The service carries the operator's managed-by label. */
  predicate IsOperators(svc: Service) {
    Lookup(svc.labels, "app.kubernetes.io/managed-by") == Some("wadm-operator")
  }

  /** Managed services are those that carry the label; the value counts and not only the key. */
  lemma ManagedIsOperators(svc: Service)
    ensures svc.Managed() <==> IsOperators(svc)
  {
    assert MANAGED_BY_LABEL in ManagedBySelector();
  }

  /** RemoveServices removes the operator's services of its namespaces and no others. */
  lemma RemovesOperatorsOnly(api: Api, w: World, namespaces: set<string>, k: Key)
    requires api.Valid() && Succeeds(api, w, RemoveServices(namespaces))
    ensures Process(api, w, RemoveServices(namespaces)).At(k)
         == if k.namespace in namespaces && w.At(k).Some? && IsOperators(w.At(k).value) then None else w.At(k)
  {
    ProcessFootprint(api, w, RemoveServices(namespaces), k);
    if w.At(k).Some? {
      ManagedIsOperators(w.At(k).value);
    }
  }

  /** A service that is somebody else's survives every queue of removals of namespaces, whatever fails. */
  lemma {:induction false} OthersSurvive(api: Api, w: World, commands: seq<Command>, k: Key)
    requires api.Valid() && forall c | c in commands :: c.RemoveServices?
    requires w.At(k).Some? && !IsOperators(w.At(k).value)
    ensures Drain(api, w, commands).At(k) == w.At(k)
  {
    if commands != [] {
      var n := |commands| - 1;
      assert commands[n] in commands;
      OthersSurvive(api, w, commands[..n], k);
      ManagedIsOperators(w.At(k).value);
      ProcessFootprint(api, Drain(api, w, commands[..n]), commands[n], k);
    }
  }

  /** The service of the hosts is one of these. */
  lemma HostServiceSurvives(api: Api, w: World, commands: seq<Command>, k: Key, cfg: HostConfig)
    requires api.Valid() && forall c | c in commands :: c.RemoveServices?
    requires w.At(k).Some? && w.At(k).value.labels == HostServiceLabels(cfg)
    ensures Drain(api, w, commands).At(k) == w.At(k)
  {
    ServiceLabelsByKey("", cfg, "app.kubernetes.io/managed-by");
    OwnKeysDiffer();
    OthersSurvive(api, w, commands, k);
  }

  // ---------------------------------------------------------------- queues as functions on one service

  /** The state of one service after the commands, if no call fails. */
  function Settle(k: Key, s: Option<Service>, commands: seq<Command>): Option<Service> {
    if commands == [] then s
    else Effect(commands[|commands| - 1], k, Settle(k, s, commands[..|commands| - 1]))
  }

  /** Somebody else's service: it is there but not managed. Commands of the operator never make one. */
  predicate Foreign(s: Option<Service>) {
    s.Some? && !s.value.Managed()
  }

  /** The calls made for every command that covers the service succeed. */
  ghost predicate CoveringSucceed(api: Api, w: World, commands: seq<Command>, k: Key) {
    forall i | 0 <= i < |commands| && Covers(commands[i], k) :: Succeeds(api, Drain(api, w, commands[..i]), commands[i])
  }

  /**
   The calls on which the service depends succeed: those for the last command that covers it, or,
   if the service was somebody else's, those for every command that covers it.
   */
  ghost predicate CallsSuffice(api: Api, w: World, commands: seq<Command>, k: Key) {
    if Foreign(w.At(k)) then CoveringSucceed(api, w, commands, k) else LastSucceeds(api, w, commands, k)
  }

  /** Without failures the calls suffice for every service. */
  lemma ReliableSuffices(api: Api, w: World, commands: seq<Command>, k: Key)
    requires api.Reliable()
    ensures CallsSuffice(api, w, commands, k)
  {
  }

  /** Whatever else fails, the service ends as if nothing had. */
  lemma DrainSettles(api: Api, w: World, commands: seq<Command>, k: Key)
    requires api.Valid() && CallsSuffice(api, w, commands, k)
    ensures Drain(api, w, commands).At(k) == Settle(k, w.At(k), commands)
  {
    if Foreign(w.At(k)) {
      CoveredSettles(api, w, commands, k);
    } else {
      NeverForeign(api, w, commands, k);
      LastWriterDecides(api, w, commands, k);
      SettleByLast(k, w.At(k), commands);
    }
  }

  lemma {:induction false} CoveredSettles(api: Api, w: World, commands: seq<Command>, k: Key)
    requires api.Valid() && CoveringSucceed(api, w, commands, k)
    ensures Drain(api, w, commands).At(k) == Settle(k, w.At(k), commands)
  {
    if commands != [] {
      var n := |commands| - 1;
      assert forall i | 0 <= i < n :: commands[..n][..i] == commands[..i];
      CoveredSettles(api, w, commands[..n], k);
      ProcessFootprint(api, Drain(api, w, commands[..n]), commands[n], k);
    }
  }

  lemma {:induction false} NeverForeign(api: Api, w: World, commands: seq<Command>, k: Key)
    requires api.Valid() && !Foreign(w.At(k))
    ensures !Foreign(Drain(api, w, commands).At(k))
  {
    if commands != [] {
      var n := |commands| - 1;
      NeverForeign(api, w, commands[..n], k);
      ProcessFootprint(api, Drain(api, w, commands[..n]), commands[n], k);
      if commands[n].UpsertService? {
        AppServiceIsManaged(commands[n].params);
      }
    }
  }

  /** Settling, too, is decided by the last command that covers the service. */
  lemma {:induction false} SettleByLast(k: Key, s: Option<Service>, commands: seq<Command>)
    requires !Foreign(s)
    ensures var i := LastCovering(commands, k);
            Settle(k, s, commands)
            == if i < 0 then s
               else if commands[i].UpsertService? then Some(AppService(commands[i].params)) else None
  {
    if commands != [] {
      var n := |commands| - 1;
      SettleByLast(k, s, commands[..n]);
      var i := LastCovering(commands[..n], k);
      if i >= 0 && commands[i].UpsertService? {
        AppServiceIsManaged(commands[i].params);
      }
    }
  }

  lemma {:induction false} SettleConcat(k: Key, s: Option<Service>, a: seq<Command>, b: seq<Command>)
    ensures Settle(k, s, a + b) == Settle(k, Settle(k, s, a), b)
  {
    if b == [] {
      assert a + b == a;
    } else {
      assert (a + b)[..|a + b| - 1] == a + b[..|b| - 1];
      SettleConcat(k, s, a, b[..|b| - 1]);
    }
  }

  lemma SameServices(w: World, w': World)
    requires forall k :: w.At(k) == w'.At(k)
    ensures w.services == w'.services
  {
    forall k ensures k in w.services <==> k in w'.services
             ensures k in w.services ==> w.services[k] == w'.services[k]
    {
      assert w.At(k) == w'.At(k);
    }
  }

  // ---------------------------------------------------------------- redelivery

  /** A whole block of commands does one of three things to a service. */
  datatype Summary = Keep | Put(s: Option<Service>) | Purge

  function Apply(summary: Summary, s: Option<Service>): Option<Service> {
    match summary
    case Keep => s
    case Put(t) => t
    case Purge => if IsManaged(s) then None else s
  }

  function Summarize(commands: seq<Command>, k: Key): Summary {
    if commands == [] then Keep
    else
      var before := Summarize(commands[..|commands| - 1], k);
      var c := commands[|commands| - 1];
      if !Covers(c, k) then before
      else match c
        case UpsertService(p) => Put(Some(AppService(p)))
        case RemoveService(_, _) => Put(None)
        case RemoveServices(_) => if before.Put? then Put(Apply(Purge, before.s)) else Purge
  }

  lemma {:induction false} SettleIsSummary(k: Key, s: Option<Service>, commands: seq<Command>)
    ensures Settle(k, s, commands) == Apply(Summarize(commands, k), s)
  {
    if commands != [] {
      SettleIsSummary(k, s, commands[..|commands| - 1]);
    }
  }

  /** Without failures a block of commands that comes twice in a row does what it does once. */
  lemma SettleTwice(k: Key, s: Option<Service>, before: seq<Command>, block: seq<Command>, after: seq<Command>)
    ensures Settle(k, s, before + block + block + after) == Settle(k, s, before + block + after)
  {
    var s' := Settle(k, s, before);
    SettleConcat(k, s, before, block);
    SettleConcat(k, s, before + block, block);
    SettleConcat(k, s, before + block, after);
    SettleConcat(k, s, before + block + block, after);
    SettleIsSummary(k, s', block);
    SettleIsSummary(k, Settle(k, s', block), block);
  }

  /**
   Delivering a block of commands a second time right after the first does not show in any service
   for which the calls suffice in both queues, whatever other calls fail.
   */
  lemma RedeliveryIsSafe(api: Api, w: World, before: seq<Command>, block: seq<Command>, after: seq<Command>, k: Key)
    requires api.Valid()
    requires CallsSuffice(api, w, before + block + after, k)
    requires CallsSuffice(api, w, before + block + block + after, k)
    ensures Drain(api, w, before + block + block + after).At(k) == Drain(api, w, before + block + after).At(k)
  {
    DrainSettles(api, w, before + block + after, k);
    DrainSettles(api, w, before + block + block + after, k);
    SettleTwice(k, w.At(k), before, block, after);
  }

  /** Without failures it changes no service at all. */
  lemma RedeliveryChangesNothing(api: Api, w: World, before: seq<Command>, block: seq<Command>, after: seq<Command>)
    requires api.Valid() && api.Reliable()
    ensures Drain(api, w, before + block + block + after).services == Drain(api, w, before + block + after).services
  {
    var once, twice := before + block + after, before + block + block + after;
    forall k ensures Drain(api, w, twice).At(k) == Drain(api, w, once).At(k) {
      ReliableSuffices(api, w, once, k);
      ReliableSuffices(api, w, twice, k);
      RedeliveryIsSafe(api, w, before, block, after, k);
    }
    SameServices(Drain(api, w, twice), Drain(api, w, once));
  }

  // ---------------------------------------------------------------- interleaving

  function NamespacesOf(c: Command): set<string> {
    match c
    case UpsertService(p) => p.namespaces
    case RemoveService(_, namespaces) => namespaces
    case RemoveServices(namespaces) => namespaces
  }

  /** The command with one namespace only. */
  function Narrow(c: Command, ns: string): Command {
    match c
    case UpsertService(p) => UpsertService(p.(namespaces := {ns}))
    case RemoveService(name, _) => RemoveService(name, {ns})
    case RemoveServices(_) => RemoveServices({ns})
  }

  /** The part of a queue that concerns one namespace. */
  function Project(commands: seq<Command>, ns: string): seq<Command> {
    if commands == [] then []
    else
      var rest := Project(commands[..|commands| - 1], ns);
      var c := commands[|commands| - 1];
      if ns in NamespacesOf(c) then rest + [Narrow(c, ns)] else rest
  }

  lemma {:induction false} SettleByProjection(k: Key, s: Option<Service>, commands: seq<Command>)
    ensures Settle(k, s, commands) == Settle(k, s, Project(commands, k.namespace))
  {
    if commands != [] {
      var n := |commands| - 1;
      SettleByProjection(k, s, commands[..n]);
      var rest := Project(commands[..n], k.namespace);
      if k.namespace in NamespacesOf(commands[n]) {
        assert (rest + [Narrow(commands[n], k.namespace)])[..|rest|] == rest;
      }
    }
  }

  /**
   A service depends on nothing but the commands for its namespace, in their order: not on other
   commands, nor on the other namespaces of the same commands, nor on the order in which hash sets
   are walked, nor on calls other than those that must suffice for it.
   */
  lemma NamespaceIndependence(api: Api, api': Api, w: World, a: seq<Command>, b: seq<Command>, k: Key)
    requires api.Valid() && CallsSuffice(api, w, a, k)
    requires api'.Valid() && CallsSuffice(api', w, b, k)
    requires Project(a, k.namespace) == Project(b, k.namespace)
    ensures Drain(api, w, a).At(k) == Drain(api', w, b).At(k)
  {
    DrainSettles(api, w, a, k);
    DrainSettles(api', w, b, k);
    SettleByProjection(k, w.At(k), a);
    SettleByProjection(k, w.At(k), b);
  }

  /**
   Two queues that hold the same commands for each namespace in the same order leave the same
   services, however commands for different namespaces interleave, if the calls suffice for all.
   */
  lemma InterleavingIndependence(api: Api, api': Api, w: World, queue: seq<Command>, queue': seq<Command>)
    requires api.Valid() && forall k :: CallsSuffice(api, w, queue, k)
    requires api'.Valid() && forall k :: CallsSuffice(api', w, queue', k)
    requires forall ns :: Project(queue, ns) == Project(queue', ns)
    ensures Drain(api, w, queue).services == Drain(api', w, queue').services
  {
    forall k ensures Drain(api, w, queue).At(k) == Drain(api', w, queue').At(k) {
      NamespaceIndependence(api, api', w, queue, queue', k);
    }
    SameServices(Drain(api, w, queue), Drain(api', w, queue'));
  }

  /** The queue takes its commands from two producers, each in its own order. */
  predicate IsMerge(queue: seq<Command>, a: seq<Command>, b: seq<Command>) {
    if queue == [] then a == [] && b == []
    else
      var n := |queue| - 1;
      || (a != [] && a[|a| - 1] == queue[n] && IsMerge(queue[..n], a[..|a| - 1], b))
      || (b != [] && b[|b| - 1] == queue[n] && IsMerge(queue[..n], a, b[..|b| - 1]))
  }

  /** If only one producer touches the namespace then any merge projects to that producer. */
  lemma {:induction false} ProjectMerge(queue: seq<Command>, a: seq<Command>, b: seq<Command>, ns: string)
    requires IsMerge(queue, a, b)
    requires forall c | c in b :: ns !in NamespacesOf(c)
    ensures Project(queue, ns) == Project(a, ns)
    decreases |queue|
  {
    if queue != [] {
      var n := |queue| - 1;
      if a != [] && a[|a| - 1] == queue[n] && IsMerge(queue[..n], a[..|a| - 1], b) {
        ProjectMerge(queue[..n], a[..|a| - 1], b, ns);
      } else {
        assert b[|b| - 1] in b;
        ProjectMerge(queue[..n], a, b[..|b| - 1], ns);
      }
    }
  }

  lemma {:induction false} MergeIsSymmetric(queue: seq<Command>, a: seq<Command>, b: seq<Command>)
    requires IsMerge(queue, a, b)
    ensures IsMerge(queue, b, a)
    decreases |queue|
  {
    if queue != [] {
      var n := |queue| - 1;
      if a != [] && a[|a| - 1] == queue[n] && IsMerge(queue[..n], a[..|a| - 1], b) {
        MergeIsSymmetric(queue[..n], a[..|a| - 1], b);
      } else {
        MergeIsSymmetric(queue[..n], a, b[..|b| - 1]);
      }
    }
  }

  /** Two producers with no namespace in common: all their interleavings leave the same services. */
  lemma DisjointProducers(api: Api, api': Api, w: World, a: seq<Command>, b: seq<Command>,
                          queue: seq<Command>, queue': seq<Command>)
    requires api.Valid() && forall k :: CallsSuffice(api, w, queue, k)
    requires api'.Valid() && forall k :: CallsSuffice(api', w, queue', k)
    requires IsMerge(queue, a, b) && IsMerge(queue', a, b)
    requires forall c, d | c in a && d in b :: NamespacesOf(c) !! NamespacesOf(d)
    ensures Drain(api, w, queue).services == Drain(api', w, queue').services
  {
    forall ns ensures Project(queue, ns) == Project(queue', ns) {
      if forall c | c in b :: ns !in NamespacesOf(c) {
        ProjectMerge(queue, a, b, ns);
        ProjectMerge(queue', a, b, ns);
      } else {
        MergeIsSymmetric(queue, a, b);
        MergeIsSymmetric(queue', a, b);
        ProjectMerge(queue, b, a, ns);
        ProjectMerge(queue', b, a, ns);
      }
    }
    InterleavingIndependence(api, api', w, queue, queue');
  }
}
