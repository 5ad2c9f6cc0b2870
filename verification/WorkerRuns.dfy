/**
 What the worker makes of a queue of commands: under failing API calls one command at a time,
 and over whole queues where the calls that matter succeed.
 */
module WorkerRuns {
  import opened Wrappers
  import opened HostConfigs
  import opened Labels
  import opened Clusters

  /** The commands that decide over a service. RemoveServices decides over every name of a namespace. */
  predicate Covers(c: Command, k: Key) {
    match c
    case UpsertService(p) => k.name == p.name && k.namespace in p.namespaces
    case RemoveService(name, namespaces) => k.name == name && k.namespace in namespaces
    case RemoveServices(namespaces) => k.namespace in namespaces
  }

  predicate IsManaged(s: Option<Service>) {
    s.Some? && s.value.Managed()
  }

  /** The state a command is meant to bring a service to. */
  function Effect(c: Command, k: Key, s: Option<Service>): Option<Service> {
    if !Covers(c, k) then s
    else match c
      case UpsertService(p) => Some(AppService(p))
      case RemoveService(_, _) => None
      case RemoveServices(_) => if IsManaged(s) then None else s
  }

  function Stripped(s: Option<Service>): Option<Service> {
    match s
    case None => None
    case Some(svc) => Some(svc.(finalizers := []))
  }

  /** What a removal that stopped at a service has left of it. */
  predicate HalfRemoved(before: Option<Service>, after: Option<Service>) {
    after == before || after == Stripped(before)
  }

  /** Calls number a to b - 1 succeed. */
  ghost predicate AllOk(api: Api, a: nat, b: nat) {
    forall n: nat | a <= n < b :: api.ok(n)
  }

  // ---------------------------------------------------------------- removal under failures

  lemma DeleteOneFacts(api: Api, w: World, k: Key)
    ensures var o := DeleteOne(api, w, k);
            && o.world.calls > w.calls && o.world.slices == w.slices
            && (forall other | other != k :: o.world.At(other) == w.At(other))
            && (o.ok ==> o.world.At(k) == None)
            && (!o.ok ==> HalfRemoved(w.At(k), o.world.At(k)))
            && (AllOk(api, w.calls, o.world.calls) ==> o.world.At(k) == None && o.ok == w.At(k).Some?)
  {
    assert AllOk(api, w.calls, DeleteOne(api, w, k).world.calls) ==> api.ok(w.calls);
    assert DeleteOne(api, w, k).world.calls > w.calls + 1 && AllOk(api, w.calls, DeleteOne(api, w, k).world.calls)
      ==> api.ok(w.calls + 1);
    assert DeleteOne(api, w, k).world.calls > w.calls + 2 && AllOk(api, w.calls, DeleteOne(api, w, k).world.calls)
      ==> api.ok(w.calls + 2);
  }

  predicate NoDuplicates(names: seq<string>) {
    forall i, j | 0 <= i < j < |names| :: names[i] != names[j]
  }

  /**
   Of a list of services exactly the first n are gone, the next may have lost its finalizers, and
   nothing else has changed.
   */
  ghost predicate PrefixRemoved(w: World, w': World, ns: string, names: seq<string>, n: nat)
    requires n <= |names|
  {
    && (forall i | 0 <= i < n :: w'.At(Key(ns, names[i])) == None)
    && (n < |names| ==> HalfRemoved(w.At(Key(ns, names[n])), w'.At(Key(ns, names[n]))))
    && (forall i | n < i < |names| :: w'.At(Key(ns, names[i])) == w.At(Key(ns, names[i])))
    && (forall k: Key | k.namespace != ns || k.name !in names :: w'.At(k) == w.At(k))
  }

  lemma PrefixAfterTick(w: World, w': World, ns: string, names: seq<string>, n: nat)
    requires n <= |names|
    ensures PrefixRemoved(w.Tick(), w', ns, names, n) <==> PrefixRemoved(w, w', ns, names, n)
    ensures PrefixRemoved(w, w.Tick(), ns, names, 0)
  {
    assert forall k: Key :: w.Tick().At(k) == w.At(k);
  }

  /**
   Deleting a list of services that exist: exactly a prefix of the list is gone, the one at which
   it stopped may have lost its finalizers, the rest is as it was.
   */
  lemma {:induction false} DeleteNamesPrefix(api: Api, w: World, ns: string, names: seq<string>) returns (n: nat)
    requires NoDuplicates(names)
    requires forall name | name in names :: w.At(Key(ns, name)).Some?
    ensures var o := DeleteNames(api, w, ns, names);
            && n <= |names|
            && (n == |names| <==> o.ok)
            && o.world.calls >= w.calls && o.world.slices == w.slices
            && PrefixRemoved(w, o.world, ns, names, n)
            && (AllOk(api, w.calls, o.world.calls) ==> o.ok)
    decreases |names|
  {
    n := 0;
    if names != [] {
      var first := DeleteOne(api, w, Key(ns, names[0]));
      DeleteOneFacts(api, w, Key(ns, names[0]));
      HeadDiffers(names);
      if first.ok {
        forall name | name in names[1..] ensures first.world.At(Key(ns, name)).Some? {
          assert name in names;
        }
        var m := DeleteNamesPrefix(api, first.world, ns, names[1..]);
        n := m + 1;
        OneMoreRemoved(w, first.world, DeleteNames(api, w, ns, names).world, ns, names, m);
      } else {
        assert forall i | 0 < i < |names| :: names[i] != names[0];
      }
    }
  }

  lemma HeadDiffers(names: seq<string>)
    requires names != [] && NoDuplicates(names)
    ensures NoDuplicates(names[1..])
    ensures names[0] !in names[1..]
    ensures forall i | 0 < i < |names| :: names[i] == names[1..][i - 1]
  {
    forall i, j | 0 <= i < j < |names[1..]| ensures names[1..][i] != names[1..][j] {
      assert names[i + 1] != names[j + 1];
    }
  }

  /** Removing the first service and then a prefix of the others removes a longer prefix. */
  lemma OneMoreRemoved(w: World, w1: World, w': World, ns: string, names: seq<string>, m: nat)
    requires names != [] && NoDuplicates(names) && m < |names|
    requires w1.At(Key(ns, names[0])) == None
    requires forall k | k != Key(ns, names[0]) :: w1.At(k) == w.At(k)
    requires PrefixRemoved(w1, w', ns, names[1..], m)
    ensures PrefixRemoved(w, w', ns, names, m + 1)
  {
    HeadDiffers(names);
    forall i | 0 < i < |names|
      ensures w1.At(Key(ns, names[i])) == w.At(Key(ns, names[i]))
    {
      assert Key(ns, names[i]) != Key(ns, names[0]);
    }
    forall k: Key | k.namespace != ns || k.name !in names ensures w'.At(k) == w.At(k) {
      assert k != Key(ns, names[0]);
      assert k.name in names[1..] ==> k.name in names;
    }
  }

  /** What a removal may leave at a service it covers. */
  ghost predicate RemovalLeft(before: Option<Service>, after: Option<Service>) {
    after == before || after == None || after == Stripped(before)
  }

  lemma ManagedNameFacts(w: World, k: Key)
    ensures k.name in ManagedNames(w.services, k.namespace) <==> IsManaged(w.At(k))
  {
    if k.name in ManagedNames(w.services, k.namespace) {
      var other :| other in w.services && other.namespace == k.namespace
                   && w.services[other].Managed() && other.name == k.name;
      assert other == k;
    }
  }

  lemma ListedExist(w: World, ns: string, order: seq<string>)
    requires Enumerates(order, ManagedNames(w.services, ns))
    ensures NoDuplicates(order)
    ensures forall name | name in order :: w.At(Key(ns, name)).Some?
  {
    forall name | name in order ensures w.At(Key(ns, name)).Some? {
      ManagedNameFacts(w, Key(ns, name));
    }
  }

  /** A listing call followed by the deletion of what it listed. */
  function DeleteListed(api: Api, w: World, ns: string, order: seq<string>): Outcome {
    if !api.ok(w.calls) then Outcome(w.Tick(), false) else DeleteNames(api, w.Tick(), ns, order)
  }

  lemma DeleteListedPrefix(api: Api, w: World, ns: string, order: seq<string>) returns (n: nat)
    requires NoDuplicates(order)
    requires forall name | name in order :: w.At(Key(ns, name)).Some?
    ensures var o := DeleteListed(api, w, ns, order);
            && n <= |order|
            && (n == |order| <== o.ok)
            && o.world.calls >= w.calls && o.world.slices == w.slices
            && PrefixRemoved(w, o.world, ns, order, n)
            && (AllOk(api, w.calls, o.world.calls) ==> o.ok)
  {
    n := 0;
    if api.ok(w.calls) {
      assert forall k: Key :: w.Tick().At(k) == w.At(k);
      n := DeleteNamesPrefix(api, w.Tick(), ns, order);
    }
    PrefixAfterTick(w, DeleteListed(api, w, ns, order).world, ns, order, n);
  }

  /**
   delete_services under failures: either nothing was listed and nothing changed, or the managed
   services of the namespace were taken in some order and exactly a prefix of them is gone.
   */
  lemma DeleteManagedPrefix(api: Api, w: World, ns: string) returns (order: seq<string>, n: nat)
    requires api.Valid()
    ensures var o := DeleteManaged(api, w, ns);
            && Enumerates(order, ManagedNames(w.services, ns))
            && n <= |order|
            && (n == |order| <== o.ok)
            && o.world.calls >= w.calls && o.world.slices == w.slices
            && PrefixRemoved(w, o.world, ns, order, n)
            && (AllOk(api, w.calls, o.world.calls) ==> o.ok)
  {
    order := api.order(w.calls + 1, ManagedNames(w.services, ns));
    ListedExist(w, ns, order);
    n := DeleteListedPrefix(api, w, ns, order);
  }

  /** delete_services, seen from one service. */
  lemma DeleteManagedAt(api: Api, w: World, ns: string, k: Key)
    requires api.Valid()
    ensures var o := DeleteManaged(api, w, ns);
            && o.world.calls >= w.calls
            && (k.namespace != ns || !IsManaged(w.At(k)) ==> o.world.At(k) == w.At(k))
            && RemovalLeft(w.At(k), o.world.At(k))
            && (AllOk(api, w.calls, o.world.calls) && k.namespace == ns && IsManaged(w.At(k)) ==> o.world.At(k) == None)
  {
    var order, n := DeleteManagedPrefix(api, w, ns);
    ManagedNameFacts(w, k);
    if k.namespace == ns && k.name in order {
      var i :| 0 <= i < |order| && order[i] == k.name;
      assert k == Key(ns, order[i]);
    }
  }

  lemma {:induction false} RemoveAllInAt(api: Api, w: World, namespaces: seq<string>, k: Key)
    requires api.Valid()
    ensures var w' := RemoveAllIn(api, w, namespaces);
            && w'.calls >= w.calls
            && (k.namespace !in namespaces || !IsManaged(w.At(k)) ==> w'.At(k) == w.At(k))
            && RemovalLeft(w.At(k), w'.At(k))
            && (AllOk(api, w.calls, w'.calls) && k.namespace in namespaces && IsManaged(w.At(k)) ==> w'.At(k) == None)
    decreases |namespaces|
  {
    if namespaces != [] {
      var first := DeleteManaged(api, w, namespaces[0]).world;
      DeleteManagedAt(api, w, namespaces[0], k);
      RemoveAllInAt(api, first, namespaces[1..], k);
      assert k.namespace in namespaces <==> k.namespace == namespaces[0] || k.namespace in namespaces[1..];
    }
  }

  lemma {:induction false} RemoveInAt(api: Api, w: World, name: string, namespaces: seq<string>, k: Key)
    ensures var w' := RemoveIn(api, w, name, namespaces);
            && w'.calls >= w.calls
            && (k.namespace !in namespaces || k.name != name ==> w'.At(k) == w.At(k))
            && RemovalLeft(w.At(k), w'.At(k))
            && (AllOk(api, w.calls, w'.calls) && k.namespace in namespaces && k.name == name ==> w'.At(k) == None)
            && (w.At(k) == None ==> w'.At(k) == None)
    decreases |namespaces|
  {
    if namespaces != [] {
      var first := DeleteOne(api, w, Key(namespaces[0], name)).world;
      DeleteOneFacts(api, w, Key(namespaces[0], name));
      RemoveInAt(api, first, name, namespaces[1..], k);
      assert k.namespace in namespaces <==> k.namespace == namespaces[0] || k.namespace in namespaces[1..];
    }
  }

  // ---------------------------------------------------------------- upserts under failures

  lemma {:induction false} GatherIpsCalls(api: Api, soFar: Gathered, ns: string, lattice: string,
                                          configs: seq<NamedConfig>)
    ensures var g := GatherIps(api, soFar, ns, lattice, configs);
            && g.calls >= soFar.calls
            && (soFar.ok && AllOk(api, soFar.calls, g.calls) ==> g.ok)
    decreases |configs|
  {
    if configs != [] && soFar.ok {
      if configs[0].lattice != lattice {
        GatherIpsCalls(api, soFar, ns, lattice, configs[1..]);
      } else if api.ok(soFar.calls) {
        var found := SelectedIps(api.pods(soFar.calls, ns), InstanceSelector(configs[0].name.value));
        GatherIpsCalls(api, Gathered(soFar.ips + found, soFar.calls + 1, true), ns, lattice, configs[1..]);
      }
    }
  }

  lemma SyncEndpointsFacts(api: Api, w: World, p: ServiceParams, ns: string)
    ensures var o := SyncEndpoints(api, w, p, ns);
            && o.world.calls > w.calls && o.world.services == w.services
            && (AllOk(api, w.calls, o.world.calls) ==> o.ok)
  {
    var start := Gathered([], w.calls + 1, true);
    GatherIpsCalls(api, start, ns, p.latticeId, api.configs(w.calls, ns));
  }

  lemma UpsertOneFacts(api: Api, w: World, p: ServiceParams, ns: string)
    ensures var o := UpsertOne(api, w, p, ns);
            && o.world.calls > w.calls
            && o.world.services
               == (if api.ok(w.calls) then w.services[Key(ns, p.name) := AppService(p)] else w.services)
            && (o.ok ==> api.ok(w.calls))
            && (AllOk(api, w.calls, o.world.calls) ==> o.ok)
  {
    if api.ok(w.calls) {
      var applied := w.Tick().(services := w.services[Key(ns, p.name) := AppService(p)]);
      SyncEndpointsFacts(api, applied, p, ns);
    }
  }

  /** The service at a key once the first namespaces of a list have been served. */
  function AfterPrefix(p: ServiceParams, served: seq<string>, k: Key, before: Option<Service>): Option<Service> {
    if k.name == p.name && k.namespace in served then Some(AppService(p)) else before
  }

  /**
   create_or_update_service under failures: exactly a prefix of the namespaces has the new service,
   whichever call failed; all of them have it if none did.
   */
  lemma {:induction false} UpsertInPrefix(api: Api, w: World, p: ServiceParams, namespaces: seq<string>)
    returns (n: nat)
    ensures var o := UpsertIn(api, w, p, namespaces);
            && n <= |namespaces|
            && (o.ok ==> n == |namespaces|)
            && o.world.calls >= w.calls
            && (forall k: Key :: o.world.At(k) == AfterPrefix(p, namespaces[..n], k, w.At(k)))
            && (AllOk(api, w.calls, o.world.calls) ==> o.ok)
    decreases |namespaces|
  {
    n := 0;
    if namespaces != [] {
      var first := UpsertOne(api, w, p, namespaces[0]);
      UpsertOneFacts(api, w, p, namespaces[0]);
      if first.ok {
        var m := UpsertInPrefix(api, first.world, p, namespaces[1..]);
        n := m + 1;
        ServedOneMore(p, namespaces, m, w, first.world);
      } else if api.ok(w.calls) {
        n := 1;
      }
    }
  }

  lemma ServedOneMore(p: ServiceParams, namespaces: seq<string>, m: nat, w: World, w': World)
    requires m < |namespaces|
    requires w'.services == w.services[Key(namespaces[0], p.name) := AppService(p)]
    ensures forall k: Key ::
              AfterPrefix(p, namespaces[1..][..m], k, w'.At(k)) == AfterPrefix(p, namespaces[..m + 1], k, w.At(k))
  {
    assert namespaces[..m + 1] == [namespaces[0]] + namespaces[1..][..m];
  }

  // ---------------------------------------------------------------- one command

  /** Every API call made for the command succeeds. */
  ghost predicate Succeeds(api: Api, w: World, c: Command) {
    AllOk(api, w.calls, Process(api, w, c).calls)
  }

  /**
   The footprint of a command under any failures: what it does not cover stays, what it covers ends
   in its old state, its target state or, for removals, without finalizers.
   */
  ghost predicate Leaves(c: Command, k: Key, before: Option<Service>, after: Option<Service>) {
    if !Covers(c, k) then after == before
    else match c
      case UpsertService(_) => after == before || after == Effect(c, k, before)
      case RemoveService(_, _) => RemovalLeft(before, after)
      case RemoveServices(_) => if IsManaged(before) then RemovalLeft(before, after) else after == before
  }

  lemma ProcessFootprint(api: Api, w: World, c: Command, k: Key)
    requires api.Valid()
    ensures Process(api, w, c).calls >= w.calls
    ensures Leaves(c, k, w.At(k), Process(api, w, c).At(k))
    ensures Succeeds(api, w, c) ==> Process(api, w, c).At(k) == Effect(c, k, w.At(k))
  {
    match c
    case UpsertService(p) =>
      var order := api.order(w.calls, p.namespaces);
      assert Enumerates(order, p.namespaces);
      var n := UpsertInPrefix(api, w, p, order);
      assert forall ns | ns in order[..n] :: ns in order;
      assert n == |order| ==> order[..n] == order;
    case RemoveService(name, namespaces) =>
      var order := api.order(w.calls, namespaces);
      assert Enumerates(order, namespaces);
      RemoveInAt(api, w, name, order, k);
    case RemoveServices(namespaces) =>
      var order := api.order(w.calls, namespaces);
      assert Enumerates(order, namespaces);
      RemoveAllInAt(api, w, order, k);
  }

  // ---------------------------------------------------------------- what a failing call stops

  /** No call but the last one failed, and the outcome says whether that one did. */
  ghost predicate StopsAtFailure(api: Api, from: nat, o: Outcome) {
    && o.world.calls >= from
    && (o.ok ==> AllOk(api, from, o.world.calls))
    && (!o.ok ==> o.world.calls > from && AllOk(api, from, o.world.calls - 1) && !api.ok(o.world.calls - 1))
  }

  lemma {:induction false} GatherStops(api: Api, soFar: Gathered, ns: string, lattice: string,
                                       configs: seq<NamedConfig>)
    requires soFar.ok
    ensures var g := GatherIps(api, soFar, ns, lattice, configs);
            && g.calls >= soFar.calls
            && (g.ok ==> AllOk(api, soFar.calls, g.calls))
            && (!g.ok ==> g.calls > soFar.calls && AllOk(api, soFar.calls, g.calls - 1) && !api.ok(g.calls - 1))
    decreases |configs|
  {
    if configs != [] {
      if configs[0].lattice != lattice {
        GatherStops(api, soFar, ns, lattice, configs[1..]);
      } else if api.ok(soFar.calls) {
        var found := SelectedIps(api.pods(soFar.calls, ns), InstanceSelector(configs[0].name.value));
        GatherStops(api, Gathered(soFar.ips + found, soFar.calls + 1, true), ns, lattice, configs[1..]);
      }
    }
  }

  lemma SyncStops(api: Api, w: World, p: ServiceParams, ns: string)
    ensures StopsAtFailure(api, w.calls, SyncEndpoints(api, w, p, ns))
  {
    if api.ok(w.calls) {
      GatherStops(api, Gathered([], w.calls + 1, true), ns, p.latticeId, api.configs(w.calls, ns));
    }
  }

  lemma UpsertOneStops(api: Api, w: World, p: ServiceParams, ns: string)
    ensures StopsAtFailure(api, w.calls, UpsertOne(api, w, p, ns))
  {
    if api.ok(w.calls) && p.hostLabels.None? {
      SyncStops(api, w.Tick().(services := w.services[Key(ns, p.name) := AppService(p)]), p, ns);
    }
  }

  /** An upsert makes no call after one that failed, be it for a service, a listing or a slice. */
  lemma {:induction false} UpsertStopsAtFailure(api: Api, w: World, p: ServiceParams, namespaces: seq<string>)
    ensures StopsAtFailure(api, w.calls, UpsertIn(api, w, p, namespaces))
    decreases |namespaces|
  {
    if namespaces != [] {
      var first := UpsertOne(api, w, p, namespaces[0]);
      UpsertOneStops(api, w, p, namespaces[0]);
      if first.ok {
        UpsertStopsAtFailure(api, first.world, p, namespaces[1..]);
      }
    }
  }

  /** Nor does the removal of the services of one namespace. */
  lemma {:induction false} DeleteNamesStop(api: Api, w: World, ns: string, names: seq<string>)
    requires NoDuplicates(names) && forall name | name in names :: w.At(Key(ns, name)).Some?
    ensures StopsAtFailure(api, w.calls, DeleteNames(api, w, ns, names))
    decreases |names|
  {
    if names != [] {
      var first := DeleteOne(api, w, Key(ns, names[0]));
      DeleteOneFacts(api, w, Key(ns, names[0]));
      HeadDiffers(names);
      assert names[0] in names;
      if first.ok {
        forall name | name in names[1..] ensures first.world.At(Key(ns, name)).Some? {
          assert name in names;
        }
        DeleteNamesStop(api, first.world, ns, names[1..]);
      }
    }
  }

  lemma DeleteManagedStopsAtFailure(api: Api, w: World, ns: string)
    requires api.Valid()
    ensures StopsAtFailure(api, w.calls, DeleteManaged(api, w, ns)) && DeleteManaged(api, w, ns).world.calls > w.calls
  {
    var order := api.order(w.calls + 1, ManagedNames(w.services, ns));
    ListedExist(w, ns, order);
    if api.ok(w.calls) {
      assert forall k: Key :: w.Tick().At(k) == w.At(k);
      DeleteNamesStop(api, w.Tick(), ns, order);
    }
  }

  /**
   The removal of an application goes on whatever fails: the worker comes to each namespace, with at
   least one call for each one before it, and if the calls it makes there succeed the service is gone.
   */
  lemma {:induction false} RemovalGoesOn(api: Api, w: World, name: string, namespaces: seq<string>, at: nat)
    returns (n: nat, n': nat)
    requires at < |namespaces|
    ensures w.calls + at <= n < n' <= RemoveIn(api, w, name, namespaces).calls
    ensures AllOk(api, n, n') ==> RemoveIn(api, w, name, namespaces).At(Key(namespaces[at], name)) == None
    decreases |namespaces|
  {
    var k := Key(namespaces[0], name);
    var first, rest := DeleteOne(api, w, k).world, namespaces[1..];
    DeleteOneFacts(api, w, k);
    RemoveInAt(api, first, name, rest, k);
    if at == 0 {
      n, n' := w.calls, first.calls;
    } else {
      n, n' := RemovalGoesOn(api, first, name, rest, at - 1);
    }
  }

  /** So does the removal of whole namespaces. */
  lemma {:induction false} CleanupGoesOn(api: Api, w: World, namespaces: seq<string>, at: nat, k: Key)
    returns (n: nat, n': nat)
    requires api.Valid() && at < |namespaces| && k.namespace == namespaces[at]
    ensures w.calls + at <= n < n' <= RemoveAllIn(api, w, namespaces).calls
    ensures AllOk(api, n, n') ==> !IsManaged(RemoveAllIn(api, w, namespaces).At(k))
    decreases |namespaces|
  {
    var first, rest := DeleteManaged(api, w, namespaces[0]).world, namespaces[1..];
    DeleteManagedAt(api, w, namespaces[0], k);
    DeleteManagedStopsAtFailure(api, w, namespaces[0]);
    if at == 0 {
      RemoveAllInAt(api, first, rest, k);
      n, n' := w.calls, first.calls;
    } else {
      n, n' := CleanupGoesOn(api, first, rest, at - 1, k);
    }
  }
}
