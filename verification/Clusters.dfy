/**
 The cluster the worker writes to, and what each command makes of it under every pattern of
 failing API calls.
 */
module Clusters {
  import opened Wrappers
  import opened HostConfigs
  import opened Labels

  const SERVICE_FINALIZER := "operator.k8s.wasmcloud.dev/service"
  const RUNNING := "Running"

  datatype Key = Key(namespace: string, name: string)

  datatype Service = Service(labels: LabelMap, selector: LabelMap, port: Port, finalizers: seq<string>)
  {
    /** The service is found by the managed-by requirement. */
    predicate Managed() {
      Matches(ManagedBySelector(), labels)
    }
  }

  datatype EndpointSlice = EndpointSlice(labels: LabelMap, addresses: seq<string>, port: Port)

  datatype PodStatus = PodStatus(phase: Option<string>, podIps: Option<seq<Option<string>>>)

  datatype Pod = Pod(name: string, labels: LabelMap, status: Option<PodStatus>)

  datatype ServiceParams = ServiceParams(
    name: string,
    namespaces: set<string>,
    latticeId: string,
    port: Port,
    hostLabels: Option<LabelMap>)

  datatype Command =
    | UpsertService(params: ServiceParams)
    | RemoveService(name: string, namespaces: set<string>)
    | RemoveServices(namespaces: set<string>)

  /** A sequence lists a set: every member once. */
  ghost predicate Enumerates(order: seq<string>, s: set<string>) {
    && (forall x :: x in order <==> x in s)
    && forall i, j | 0 <= i < j < |order| :: order[i] != order[j]
  }

  /**
   Everything the worker does not decide: whether API call number n succeeds, in which order a
   hash set or a listing is walked, and which configurations and pods a listing answers with.
   */
  datatype Api = Api(
    ok: nat -> bool,
    order: (nat, set<string>) -> seq<string>,
    configs: (nat, string) -> seq<NamedConfig>,
    pods: (nat, string) -> seq<Pod>)
  {
    ghost predicate Valid() {
      forall n, s :: Enumerates(order(n, s), s)
    }

    /** No call fails. */
    ghost predicate Reliable() {
      forall n :: ok(n)
    }
  }

  /** The state of the cluster as far as the worker writes it, and the number of API calls made. */
  datatype World = World(services: map<Key, Service>, slices: map<Key, EndpointSlice>, calls: nat)
  {
    function Tick(): World {
      this.(calls := calls + 1)
    }

    /** What a delete request does: an object with finalizers stays, waiting for them to be removed. */
    function Delete(k: Key): World {
      if k in services && services[k].finalizers == [] then this.(services := services - {k}) else this
    }

    function At(k: Key): Option<Service> {
      if k in services then Some(services[k]) else None
    }
  }

  /** Where a function that may stop at a failing call left the world. */
  datatype Outcome = Outcome(world: World, ok: bool)

  // ---------------------------------------------------------------- upsert

  /** The service create_or_update_service applies. */
  function AppService(p: ServiceParams): Service {
    Service(ServiceLabels(p.name), ServiceSelector(p.hostLabels), p.port, [SERVICE_FINALIZER])
  }

  /** The addresses of a pod, if it is running and has been given some. */
  function PodIps(pod: Pod): seq<Option<string>> {
    if pod.status.Some? && pod.status.value.phase == Some(RUNNING) && pod.status.value.podIps.Some?
    then pod.status.value.podIps.value
    else []
  }

  /** The addresses of the pods a label selector finds. */
  function SelectedIps(pods: seq<Pod>, selector: LabelMap): seq<Option<string>> {
    if pods == [] then []
    else
      (if Matches(selector, pods[0].labels) then PodIps(pods[0]) else []) + SelectedIps(pods[1..], selector)
  }

  /** Addresses gathered so far, the number of calls, and whether all of them succeeded. */
  datatype Gathered = Gathered(ips: seq<Option<string>>, calls: nat, ok: bool)

  /** Lists the pods of each configuration of the lattice in turn; stops at a failing call. */
  function GatherIps(api: Api, soFar: Gathered, namespace: string, lattice: string, configs: seq<NamedConfig>): Gathered
    decreases |configs|
  {
    if configs == [] || !soFar.ok then soFar
    else if configs[0].lattice != lattice then GatherIps(api, soFar, namespace, lattice, configs[1..])
    else if !api.ok(soFar.calls) then Gathered(soFar.ips, soFar.calls + 1, false)
    else
      var found := SelectedIps(api.pods(soFar.calls, namespace), InstanceSelector(configs[0].name.value));
      GatherIps(api, Gathered(soFar.ips + found, soFar.calls + 1, true), namespace, lattice, configs[1..])
  }

  /** An endpoint takes one address; entries without an address give no endpoint. */
  function Addresses(ips: seq<Option<string>>): seq<string> {
    if ips == [] then []
    else (if ips[0].Some? then [ips[0].value] else []) + Addresses(ips[1..])
  }

  function AppSlice(p: ServiceParams, ips: seq<Option<string>>): EndpointSlice {
    EndpointSlice(ServiceLabels(p.name)[SERVICE_NAME_LABEL := p.name], Addresses(ips), p.port)
  }

  /** The endpoint part of an upsert without host labels. */
  function SyncEndpoints(api: Api, w: World, p: ServiceParams, namespace: string): Outcome {
    if !api.ok(w.calls) then Outcome(w.Tick(), false)
    else
      var configs := api.configs(w.calls, namespace);
      var gathered := GatherIps(api, Gathered([], w.calls + 1, true), namespace, p.latticeId, configs);
      var w' := w.(calls := gathered.calls);
      if !gathered.ok then Outcome(w', false)
      else if gathered.ips == [] then Outcome(w', true)
      else if !api.ok(w'.calls) then Outcome(w'.Tick(), false)
      else Outcome(w'.Tick().(slices := w.slices[Key(namespace, p.name) := AppSlice(p, gathered.ips)]), true)
  }

  function UpsertOne(api: Api, w: World, p: ServiceParams, namespace: string): Outcome {
    if !api.ok(w.calls) then Outcome(w.Tick(), false)
    else
      var w' := w.Tick().(services := w.services[Key(namespace, p.name) := AppService(p)]);
      if p.hostLabels.Some? then Outcome(w', true) else SyncEndpoints(api, w', p, namespace)
  }

  /** create_or_update_service: one namespace after the other, up to the first failure. */
  function UpsertIn(api: Api, w: World, p: ServiceParams, namespaces: seq<string>): Outcome
    decreases |namespaces|
  {
    if namespaces == [] then Outcome(w, true)
    else
      var first := UpsertOne(api, w, p, namespaces[0]);
      if !first.ok then first else UpsertIn(api, first.world, p, namespaces[1..])
  }

  // ---------------------------------------------------------------- removal

  /** delete_service: get, apply without finalizers, delete. */
  function DeleteOne(api: Api, w: World, k: Key): Outcome {
    if !api.ok(w.calls) || k !in w.services then Outcome(w.Tick(), false)
    else
      var w1 := w.Tick();
      if !api.ok(w1.calls) then Outcome(w1.Tick(), false)
      else
        var w2 := w1.Tick().(services := w.services[k := w.services[k].(finalizers := [])]);
        if !api.ok(w2.calls) then Outcome(w2.Tick(), false)
        else Outcome(w2.Tick().Delete(k), true)
  }

  /** Deletes the named services of a namespace up to the first failure. */
  function DeleteNames(api: Api, w: World, namespace: string, names: seq<string>): Outcome
    decreases |names|
  {
    if names == [] then Outcome(w, true)
    else
      var first := DeleteOne(api, w, Key(namespace, names[0]));
      if !first.ok then first else DeleteNames(api, first.world, namespace, names[1..])
  }

  function ManagedNames(services: map<Key, Service>, namespace: string): set<string> {
    set k | k in services && k.namespace == namespace && services[k].Managed() :: k.name
  }

  /** delete_services: list the managed services of a namespace and delete them. */
  function DeleteManaged(api: Api, w: World, namespace: string): Outcome {
    if !api.ok(w.calls) then Outcome(w.Tick(), false)
    else DeleteNames(api, w.Tick(), namespace, api.order(w.calls + 1, ManagedNames(w.services, namespace)))
  }

  /** The worker's loop for RemoveService: a failure in one namespace does not stop the others. */
  function RemoveIn(api: Api, w: World, name: string, namespaces: seq<string>): World
    decreases |namespaces|
  {
    if namespaces == [] then w
    else RemoveIn(api, DeleteOne(api, w, Key(namespaces[0], name)).world, name, namespaces[1..])
  }

  /** The worker's loop for RemoveServices. */
  function RemoveAllIn(api: Api, w: World, namespaces: seq<string>): World
    decreases |namespaces|
  {
    if namespaces == [] then w
    else RemoveAllIn(api, DeleteManaged(api, w, namespaces[0]).world, namespaces[1..])
  }

  // ---------------------------------------------------------------- the worker

  function Process(api: Api, w: World, c: Command): World {
    match c
    case UpsertService(p) => UpsertIn(api, w, p, api.order(w.calls, p.namespaces)).world
    case RemoveService(name, namespaces) => RemoveIn(api, w, name, api.order(w.calls, namespaces))
    case RemoveServices(namespaces) => RemoveAllIn(api, w, api.order(w.calls, namespaces))
  }

  /** The world after all commands of the queue. */
  function Drain(api: Api, w: World, commands: seq<Command>): World {
    if commands == [] then w
    else Process(api, Drain(api, w, commands[..|commands| - 1]), commands[|commands| - 1])
  }
}
