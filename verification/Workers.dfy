/** The worker that drains the command queue, as a class over the cluster it writes to. */
module Workers {
  import opened Wrappers
  import opened Labels
  import opened Clusters

  class Worker {
    const api: Api
    var services: map<Key, Service>
    var slices: map<Key, EndpointSlice>
    var calls: nat

    constructor (api: Api, w: World)
      ensures this.api == api && Now() == w
    {
      this.api := api;
      services, slices, calls := w.services, w.slices, w.calls;
    }

    function Now(): World
      reads this
    {
      World(services, slices, calls)
    }

    /** One API call: its number is used up, and it succeeds or not. */
    method Call() returns (ok: bool)
      modifies `calls
      ensures ok == api.ok(old(calls)) && calls == old(calls) + 1
    {
      ok := api.ok(calls);
      calls := calls + 1;
    }

    /** The service to apply in every namespace, and whether it needs endpoints of its own. */
    static method BuildService(p: ServiceParams) returns (svc: Service, createEndpoints: bool)
      ensures svc == AppService(p)
      ensures createEndpoints == p.hostLabels.None?
    {
      var labels := CommonLabels();
      labels := labels + map[NAME_LABEL := p.name];
      var selector: LabelMap := map[];
      createEndpoints := false;
      match p.hostLabels {
        case Some(hostLabels) =>
          selector := map[NAME_LABEL := WASMCLOUD];
          selector := selector + Prefixed(hostLabels);
        case None =>
          createEndpoints := true;
      }
      svc := Service(labels, selector, p.port, [SERVICE_FINALIZER]);
    }

    method CreateOrUpdateService(p: ServiceParams) returns (ok: bool)
      modifies this
      ensures Outcome(Now(), ok) == UpsertIn(api, old(Now()), p, api.order(old(calls), p.namespaces))
    {
      var svc, createEndpoints := BuildService(p);
      var order := api.order(calls, p.namespaces);
      for i := 0 to |order|
        invariant UpsertIn(api, old(Now()), p, order) == UpsertIn(api, Now(), p, order[i..])
      {
        var ns := order[i];
        assert order[i..][0] == ns && order[i..][1..] == order[i + 1..];
        var applied := ApplyService(p, svc, createEndpoints, ns);
        if !applied {
          return false;
        }
      }
      return true;
    }

    /** One namespace of create_or_update_service. */
    method ApplyService(p: ServiceParams, svc: Service, createEndpoints: bool, ns: string) returns (ok: bool)
      requires svc == AppService(p) && createEndpoints == p.hostLabels.None?
      modifies this
      ensures Outcome(Now(), ok) == UpsertOne(api, old(Now()), p, ns)
    {
      var patched := Call();
      if !patched {
        return false;
      }
      services := services[Key(ns, p.name) := svc];
      if createEndpoints {
        ok := CreateEndpoints(p, ns);
        return ok;
      }
      return true;
    }

    /** The part of create_or_update_service that maps endpoints to running hosts. */
    method CreateEndpoints(p: ServiceParams, ns: string) returns (ok: bool)
      modifies `slices, `calls
      ensures Outcome(Now(), ok) == SyncEndpoints(api, old(Now()), p, ns)
    {
      var configs := api.configs(calls, ns);
      var listed := Call();
      if !listed {
        return false;
      }
      var ips: seq<Option<string>> := [];
      ghost var start := Gathered([], calls, true);
      for i := 0 to |configs|
        invariant slices == old(slices)
        invariant GatherIps(api, start, ns, p.latticeId, configs)
               == GatherIps(api, Gathered(ips, calls, true), ns, p.latticeId, configs[i..])
      {
        var cfg := configs[i];
        assert configs[i..][0] == cfg && configs[i..][1..] == configs[i + 1..];
        if cfg.lattice == p.latticeId {
          var pods := api.pods(calls, ns);
          var found := Call();
          if !found {
            return false;
          }
          ips := ips + SelectedIps(pods, InstanceSelector(cfg.name.value));
        }
      }
      if ips != [] {
        var patched := Call();
        if !patched {
          return false;
        }
        slices := slices[Key(ns, p.name) := AppSlice(p, ips)];
      }
      return true;
    }

    method DeleteService(ns: string, name: string) returns (ok: bool)
      modifies `services, `calls
      ensures Outcome(Now(), ok) == DeleteOne(api, old(Now()), Key(ns, name))
    {
      var k := Key(ns, name);
      var got := Call();
      if !got || k !in services {
        return false;
      }
      var svc := services[k];
      svc := svc.(finalizers := []);
      var patched := Call();
      if !patched {
        return false;
      }
      services := services[k := svc];
      var deleted := Call();
      if !deleted {
        return false;
      }
      services := Now().Delete(k).services;
      return true;
    }

    method DeleteServices(ns: string) returns (ok: bool)
      modifies `services, `calls
      ensures Outcome(Now(), ok) == DeleteManaged(api, old(Now()), ns)
    {
      var listed := Call();
      if !listed {
        return false;
      }
      var names := api.order(calls, ManagedNames(services, ns));
      for i := 0 to |names|
        invariant DeleteNames(api, old(Now()).Tick(), ns, names) == DeleteNames(api, Now(), ns, names[i..])
      {
        assert names[i..][0] == names[i] && names[i..][1..] == names[i + 1..];
        var deleted := DeleteService(ns, names[i]);
        if !deleted {
          return false;
        }
      }
      return true;
    }

    /** One turn of the worker loop: errors are logged and dropped. */
    method Handle(c: Command)
      modifies this
      ensures Now() == Process(api, old(Now()), c)
    {
      match c {
        case UpsertService(params) =>
          var _ := CreateOrUpdateService(params);
        case RemoveService(name, namespaces) =>
          var order := api.order(calls, namespaces);
          for i := 0 to |order|
            invariant RemoveIn(api, old(Now()), name, order) == RemoveIn(api, Now(), name, order[i..])
          {
            assert order[i..][0] == order[i] && order[i..][1..] == order[i + 1..];
            var _ := DeleteService(order[i], name);
          }
        case RemoveServices(namespaces) =>
          var order := api.order(calls, namespaces);
          for i := 0 to |order|
            invariant RemoveAllIn(api, old(Now()), order) == RemoveAllIn(api, Now(), order[i..])
          {
            assert order[i..][0] == order[i] && order[i..][1..] == order[i + 1..];
            var _ := DeleteServices(order[i]);
          }
      }
    }

    /** The worker loop over the commands received. */
    method Run(received: seq<Command>)
      modifies this
      ensures Now() == Drain(api, old(Now()), received)
    {
      for i := 0 to |received|
        invariant Now() == Drain(api, old(Now()), received[..i])
      {
        assert received[..i + 1][..i] == received[..i];
        Handle(received[i]);
      }
      assert received[..|received|] == received;
    }
  }
}
