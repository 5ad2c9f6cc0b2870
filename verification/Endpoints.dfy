/** The endpoint slice of a service without host labels: exactly the addresses of its lattice's hosts. */
module Endpoints {
  import opened Wrappers
  import opened HostConfigs
  import opened Labels
  import opened Clusters
  import opened WorkerRuns

  /** A pod seen while walking the pods of a configuration: positions in the two listings. */
  datatype Visit = Visit(config: nat, pod: nat)

  /** The pods listed for each configuration; for those outside the lattice none are asked for. */
  type Listed = seq<seq<Pod>>

  /** The answers to the pod listings made for a list of configurations, the first of them call number n. */
  function PodListings(api: Api, n: nat, ns: string, lattice: string, configs: seq<NamedConfig>): (listed: Listed)
    ensures |listed| == |configs|
    decreases |configs|
  {
    if configs == [] then []
    else if configs[0].lattice != lattice then [[]] + PodListings(api, n, ns, lattice, configs[1..])
    else [api.pods(n, ns)] + PodListings(api, n + 1, ns, lattice, configs[1..])
  }

  predicate Exists(listed: Listed, v: Visit) {
    v.config < |listed| && v.pod < |listed[v.config]|
  }

  function PodAt(listed: Listed, v: Visit): Pod
    requires Exists(listed, v)
  {
    listed[v.config][v.pod]
  }

  /** Pod p was listed for configuration c as a pod of its own, and c belongs to the lattice. */
  predicate Belongs(configs: seq<NamedConfig>, listed: Listed, lattice: string, v: Visit) {
    && v.config < |configs| && Exists(listed, v)
    && configs[v.config].lattice == lattice
    && Matches(InstanceSelector(configs[v.config].name.value), PodAt(listed, v).labels)
  }

  predicate Before(v: Visit, v': Visit) {
    v.config < v'.config || (v.config == v'.config && v.pod < v'.pod)
  }

  /**
   The walk the slice must be made from: every pod of a configuration of the lattice, once per such
   configuration, configurations in listing order and pods in listing order within each.
   */
  ghost predicate IsWalk(configs: seq<NamedConfig>, listed: Listed, lattice: string, walk: seq<Visit>) {
    && (forall v :: v in walk <==> Belongs(configs, listed, lattice, v))
    && forall i, j | 0 <= i < j < |walk| :: Before(walk[i], walk[j])
  }

  /** The addresses met on a walk: those of running pods, in order. */
  function IpsAlong(listed: Listed, walk: seq<Visit>): seq<Option<string>> {
    if walk == [] then []
    else (if Exists(listed, walk[0]) then PodIps(PodAt(listed, walk[0])) else []) + IpsAlong(listed, walk[1..])
  }

  // ---------------------------------------------------------------- the walk the code takes

  /** The walk over the pods from position p on of configuration c. */
  function PodWalk(listed: Listed, selector: LabelMap, c: nat, p: nat): (walk: seq<Visit>)
    requires c < |listed| && p <= |listed[c]|
    ensures forall v ::
              v in walk <==> v.config == c && p <= v.pod < |listed[c]| && Matches(selector, PodAt(listed, v).labels)
    ensures forall i, j | 0 <= i < j < |walk| :: Before(walk[i], walk[j])
    decreases |listed[c]| - p
  {
    if p == |listed[c]| then []
    else
      var rest := PodWalk(listed, selector, c, p + 1);
      if Matches(selector, listed[c][p].labels) then [Visit(c, p)] + rest else rest
  }

  lemma {:induction false} IpsAlongConcat(listed: Listed, a: seq<Visit>, b: seq<Visit>)
    ensures IpsAlong(listed, a + b) == IpsAlong(listed, a) + IpsAlong(listed, b)
  {
    if a == [] {
      assert a + b == b;
    } else {
      assert (a + b)[1..] == a[1..] + b;
      IpsAlongConcat(listed, a[1..], b);
    }
  }

  lemma {:induction false} SelectedAlongPodWalk(listed: Listed, selector: LabelMap, c: nat, p: nat)
    requires c < |listed| && p <= |listed[c]|
    ensures SelectedIps(listed[c][p..], selector) == IpsAlong(listed, PodWalk(listed, selector, c, p))
    decreases |listed[c]| - p
  {
    var pods := listed[c];
    if p < |pods| {
      SelectedAlongPodWalk(listed, selector, c, p + 1);
      assert pods[p..][1..] == pods[p + 1..];
      if Matches(selector, pods[p].labels) {
        assert PodWalk(listed, selector, c, p)[1..] == PodWalk(listed, selector, c, p + 1);
      }
    }
  }

  /** The walk over the configurations from position c on. */
  function Walk(configs: seq<NamedConfig>, listed: Listed, lattice: string, c: nat): (walk: seq<Visit>)
    requires c <= |configs| == |listed|
    ensures forall v :: v in walk <==> c <= v.config && Belongs(configs, listed, lattice, v)
    ensures forall i, j | 0 <= i < j < |walk| :: Before(walk[i], walk[j])
    decreases |configs| - c
  {
    if c == |configs| then []
    else
      var rest := Walk(configs, listed, lattice, c + 1);
      if configs[c].lattice != lattice then rest
      else PodWalk(listed, InstanceSelector(configs[c].name.value), c, 0) + rest
  }

  /** One configuration of the lattice: the addresses found are those along its part of the walk. */
  lemma FoundAlongWalk(configs: seq<NamedConfig>, listed: Listed, lattice: string, c: nat)
    requires c < |configs| == |listed| && configs[c].lattice == lattice
    ensures SelectedIps(listed[c], InstanceSelector(configs[c].name.value))
            + IpsAlong(listed, Walk(configs, listed, lattice, c + 1))
         == IpsAlong(listed, Walk(configs, listed, lattice, c))
  {
    var selector := InstanceSelector(configs[c].name.value);
    SelectedAlongPodWalk(listed, selector, c, 0);
    assert listed[c][0..] == listed[c];
    IpsAlongConcat(listed, PodWalk(listed, selector, c, 0), Walk(configs, listed, lattice, c + 1));
  }

  lemma {:induction false} GatheredAlongWalk(api: Api, soFar: Gathered, ns: string, lattice: string,
                                             configs: seq<NamedConfig>, listed: Listed, c: nat)
    requires c <= |configs| == |listed| && soFar.ok
    requires listed[c..] == PodListings(api, soFar.calls, ns, lattice, configs[c..])
    requires GatherIps(api, soFar, ns, lattice, configs[c..]).ok
    ensures GatherIps(api, soFar, ns, lattice, configs[c..]).ips
         == soFar.ips + IpsAlong(listed, Walk(configs, listed, lattice, c))
    decreases |configs| - c
  {
    if c < |configs| {
      assert configs[c..][0] == configs[c] && configs[c..][1..] == configs[c + 1..];
      assert listed[c..][0] == listed[c] && listed[c..][1..] == listed[c + 1..];
      if configs[c].lattice != lattice {
        GatheredAlongWalk(api, soFar, ns, lattice, configs, listed, c + 1);
      } else {
        var found := SelectedIps(listed[c], InstanceSelector(configs[c].name.value));
        GatheredAlongWalk(api, Gathered(soFar.ips + found, soFar.calls + 1, true), ns, lattice, configs, listed, c + 1);
        FoundAlongWalk(configs, listed, lattice, c);
      }
    }
  }

  // ---------------------------------------------------------------- whose pods are met

  /** A name stands for one pod: in one listing it occurs once, and in all of them with the same labels. */
  ghost predicate PodsKeepNames(listed: Listed) {
    forall v, v' | Exists(listed, v) && Exists(listed, v') && PodAt(listed, v).name == PodAt(listed, v').name ::
      PodAt(listed, v).labels == PodAt(listed, v').labels && (v.config == v'.config ==> v == v')
  }

  /** The pods met are there, and they are pairwise different. */
  ghost predicate NamesDiffer(listed: Listed, walk: seq<Visit>) {
    && (forall i | 0 <= i < |walk| :: Exists(listed, walk[i]))
    && forall i, j | 0 <= i < j < |walk| :: PodAt(listed, walk[i]).name != PodAt(listed, walk[j]).name
  }

  predicate DistinctConfigs(configs: seq<NamedConfig>) {
    forall i, j | 0 <= i < j < |configs| :: configs[i].name != configs[j].name
  }

  /** With distinct configuration names no pod is met twice, unless it changed its labels between two listings. */
  lemma NoPodTwice(configs: seq<NamedConfig>, listed: Listed, lattice: string, walk: seq<Visit>)
    requires IsWalk(configs, listed, lattice, walk) && PodsKeepNames(listed)
    requires DistinctConfigs(configs)
    ensures NamesDiffer(listed, walk)
  {
    assert forall i | 0 <= i < |walk| :: walk[i] in walk;
    forall i, j | 0 <= i < j < |walk| ensures PodAt(listed, walk[i]).name != PodAt(listed, walk[j]).name {
      var v, v' := walk[i], walk[j];
      assert v in walk && v' in walk && Before(v, v');
      if v.config != v'.config {
        var name, name' := configs[v.config].name.value, configs[v'.config].name.value;
        assert configs[v.config].name != configs[v'.config].name;
        SelectorsExclude(name, name', PodAt(listed, v).labels);
      }
    }
  }

  /** A pod carries one instance label. */
  lemma SelectorsExclude(name: string, name': string, labels: LabelMap)
    requires name != name' && Matches(InstanceSelector(name), labels)
    ensures !Matches(InstanceSelector(name'), labels)
  {
    OwnKeysDiffer();
    assert INSTANCE_LABEL in InstanceSelector(name) && INSTANCE_LABEL in InstanceSelector(name');
    assert InstanceSelector(name)[INSTANCE_LABEL] == name && InstanceSelector(name')[INSTANCE_LABEL] == name';
  }

  /**
   The hosts' own pods: one made for a configuration, with further labels or without, is on the walk
   exactly where that configuration was listed, if it belongs to the lattice.
   */
  lemma HostPodsOnWalk(configs: seq<NamedConfig>, listed: Listed, lattice: string, walk: seq<Visit>, v: Visit,
                       owner: NamedConfig)
    requires IsWalk(configs, listed, lattice, walk)
    requires v.config < |configs| && Exists(listed, v) && Matches(PodLabels(owner), PodAt(listed, v).labels)
    ensures v in walk <==> configs[v.config].lattice == lattice && configs[v.config].name == owner.name
  {
    var name, labels := configs[v.config].name.value, PodAt(listed, v).labels;
    InstanceSelection(owner.name.value, owner);
    InstanceSelection(name, owner);
    assert Matches(InstanceSelector(owner.name.value), labels);
    if name != owner.name.value {
      SelectorsExclude(owner.name.value, name, labels);
    }
  }

  // ---------------------------------------------------------------- the slice

  function SliceAt(w: World, k: Key): Option<EndpointSlice> {
    if k in w.slices then Some(w.slices[k]) else None
  }

  /** The pods listed right after call number n listed the configurations. */
  function ListedAfter(api: Api, n: nat, ns: string, lattice: string): (listed: Listed)
    ensures |listed| == |api.configs(n, ns)|
  {
    PodListings(api, n + 1, ns, lattice, api.configs(n, ns))
  }

  /**
   The slice is made from the configurations that call number n listed and the pods listed for each
   of them right after: the addresses of running pods along a walk over exactly the pods of the
   lattice; without any address it stays as it was.
   */
  ghost predicate SliceFollows(api: Api, before: Option<EndpointSlice>, after: Option<EndpointSlice>,
                               p: ServiceParams, ns: string, n: nat, walk: seq<Visit>)
  {
    var listed := ListedAfter(api, n, ns, p.latticeId);
    && IsWalk(api.configs(n, ns), listed, p.latticeId, walk)
    && var ips := IpsAlong(listed, walk);
    after == if ips == [] then before else Some(AppSlice(p, ips))
  }

  lemma GatheredIsWalk(api: Api, n: nat, ns: string, lattice: string) returns (walk: seq<Visit>)
    requires GatherIps(api, Gathered([], n + 1, true), ns, lattice, api.configs(n, ns)).ok
    ensures var listed := ListedAfter(api, n, ns, lattice);
            && IsWalk(api.configs(n, ns), listed, lattice, walk)
            && GatherIps(api, Gathered([], n + 1, true), ns, lattice, api.configs(n, ns)).ips == IpsAlong(listed, walk)
  {
    var configs, listed := api.configs(n, ns), ListedAfter(api, n, ns, lattice);
    walk := Walk(configs, listed, lattice, 0);
    assert configs[0..] == configs && listed[0..] == listed;
    GatheredAlongWalk(api, Gathered([], n + 1, true), ns, lattice, configs, listed, 0);
    NothingGathered(IpsAlong(listed, walk));
  }

  lemma NothingGathered(ips: seq<Option<string>>)
    ensures [] + ips == ips
  {
  }

  /** What the upsert of one namespace makes of the slice there. */
  lemma EndpointsOfOne(api: Api, w: World, p: ServiceParams, ns: string) returns (walk: seq<Visit>)
    requires p.hostLabels.None? && UpsertOne(api, w, p, ns).ok
    ensures var k, w' := Key(ns, p.name), UpsertOne(api, w, p, ns).world;
            SliceFollows(api, SliceAt(w, k), SliceAt(w', k), p, ns, w.calls + 1, walk)
    ensures UpsertOne(api, w, p, ns).world.calls > w.calls + 1
  {
    GatherIpsCalls(api, Gathered([], w.calls + 2, true), ns, p.latticeId, api.configs(w.calls + 1, ns));
    walk := GatheredIsWalk(api, w.calls + 1, ns, p.latticeId);
  }

  /** The world in which a successful upsert comes to a namespace: the slice there is untouched before and after. */
  lemma {:induction false} UpsertComesTo(api: Api, w: World, p: ServiceParams, namespaces: seq<string>, at: nat)
    returns (u: World)
    requires UpsertIn(api, w, p, namespaces).ok
    requires at < |namespaces| && NoDuplicates(namespaces)
    ensures var k, w' := Key(namespaces[at], p.name), UpsertIn(api, w, p, namespaces).world;
            var one := UpsertOne(api, u, p, namespaces[at]);
            && one.ok && w.calls <= u.calls && one.world.calls <= w'.calls
            && SliceAt(u, k) == SliceAt(w, k) && SliceAt(w', k) == SliceAt(one.world, k)
    decreases |namespaces|
  {
    FirstOfUpsert(api, w, p, namespaces, Key(namespaces[at], p.name));
    if at == 0 {
      u := w;
    } else {
      u := UpsertComesTo(api, UpsertOne(api, w, p, namespaces[0]).world, p, namespaces[1..], at - 1);
    }
  }

  /** A successful upsert is that of its first namespace and then of the others, which have other slices. */
  lemma FirstOfUpsert(api: Api, w: World, p: ServiceParams, namespaces: seq<string>, k: Key)
    requires UpsertIn(api, w, p, namespaces).ok && namespaces != [] && NoDuplicates(namespaces)
    ensures var first, rest := UpsertOne(api, w, p, namespaces[0]), namespaces[1..];
            && first.ok && first.world.calls > w.calls
            && NoDuplicates(rest) && namespaces == [namespaces[0]] + rest
            && UpsertIn(api, w, p, namespaces) == UpsertIn(api, first.world, p, rest)
            && UpsertIn(api, first.world, p, rest).world.calls >= first.world.calls
            && (k == Key(namespaces[0], p.name) ==>
                  SliceAt(UpsertIn(api, first.world, p, rest).world, k) == SliceAt(first.world, k))
            && (k != Key(namespaces[0], p.name) ==> SliceAt(first.world, k) == SliceAt(w, k))
            && forall i | 0 < i < |namespaces| :: namespaces[i] != namespaces[0]
  {
    var first := UpsertOne(api, w, p, namespaces[0]).world;
    HeadDiffers(namespaces);
    UpsertOneFacts(api, w, p, namespaces[0]);
    OtherSlicesKept(api, first, p, namespaces[1..], Key(namespaces[0], p.name));
    if k != Key(namespaces[0], p.name) {
      SliceOfOthersKept(api, w, p, namespaces[0], k);
    }
  }

  /**
   When an upsert without host labels has succeeded, the slice of each of its
   namespaces holds, in listing order, the addresses of the running pods of the namespace's
   configurations in the lattice, as listed while the command was processed; no pod is met twice if
   configuration names are distinct and pods keep their labels; without addresses the slice stays.
   */
  lemma {:induction false} EndpointsFollowWalk(api: Api, w: World, p: ServiceParams, ns: string)
    returns (n: nat, walk: seq<Visit>)
    requires api.Valid() && p.hostLabels.None? && ns in p.namespaces && Succeeds(api, w, UpsertService(p))
    ensures w.calls < n < Process(api, w, UpsertService(p)).calls
    ensures var k, w' := Key(ns, p.name), Process(api, w, UpsertService(p));
            SliceFollows(api, SliceAt(w, k), SliceAt(w', k), p, ns, n, walk)
    ensures PodsKeepNames(ListedAfter(api, n, ns, p.latticeId)) && DistinctConfigs(api.configs(n, ns))
            ==> NamesDiffer(ListedAfter(api, n, ns, p.latticeId), walk)
  {
    var at := PositionIn(api, w, p, ns);
    var u := UpsertComesTo(api, w, p, api.order(w.calls, p.namespaces), at);
    n := u.calls + 1;
    walk := EndpointsOfOne(api, u, p, ns);
    var listed := ListedAfter(api, n, ns, p.latticeId);
    if PodsKeepNames(listed) && DistinctConfigs(api.configs(n, ns)) {
      NoPodTwice(api.configs(n, ns), listed, p.latticeId, walk);
    }
  }

  lemma PositionIn(api: Api, w: World, p: ServiceParams, ns: string) returns (at: nat)
    requires api.Valid() && ns in p.namespaces && Succeeds(api, w, UpsertService(p))
    ensures var order := api.order(w.calls, p.namespaces);
            at < |order| && order[at] == ns && NoDuplicates(order) && UpsertIn(api, w, p, order).ok
  {
    var order := api.order(w.calls, p.namespaces);
    assert Enumerates(order, p.namespaces);
    var served := UpsertInPrefix(api, w, p, order);
    at :| 0 <= at < |order| && order[at] == ns;
  }

  lemma SliceOfOthersKept(api: Api, w: World, p: ServiceParams, ns: string, k: Key)
    requires k != Key(ns, p.name)
    ensures SliceAt(UpsertOne(api, w, p, ns).world, k) == SliceAt(w, k)
  {
  }

  lemma {:induction false} OtherSlicesKept(api: Api, w: World, p: ServiceParams, namespaces: seq<string>, k: Key)
    requires k.namespace !in namespaces
    ensures SliceAt(UpsertIn(api, w, p, namespaces).world, k) == SliceAt(w, k)
    ensures UpsertIn(api, w, p, namespaces).world.calls >= w.calls
    decreases |namespaces|
  {
    if namespaces != [] {
      var first := UpsertOne(api, w, p, namespaces[0]);
      UpsertOneFacts(api, w, p, namespaces[0]);
      SliceOfOthersKept(api, w, p, namespaces[0], k);
      if first.ok {
        OtherSlicesKept(api, first.world, p, namespaces[1..], k);
      }
    }
  }

  // ---------------------------------------------------------------- slices under failures

  /** The slice at a key is as it was or was made by an upsert, from some addresses. */
  ghost predicate SliceKeptOrMade(p: ServiceParams, before: Option<EndpointSlice>, after: Option<EndpointSlice>) {
    after == before || (p.hostLabels.None? && exists ips :: ips != [] && after == Some(AppSlice(p, ips)))
  }

  lemma UpsertOneSlices(api: Api, w: World, p: ServiceParams, ns: string, k: Key)
    ensures k != Key(ns, p.name) ==> SliceAt(UpsertOne(api, w, p, ns).world, k) == SliceAt(w, k)
    ensures SliceKeptOrMade(p, SliceAt(w, k), SliceAt(UpsertOne(api, w, p, ns).world, k))
  {
    var gathered := GatherIps(api, Gathered([], w.calls + 2, true), ns, p.latticeId, api.configs(w.calls + 1, ns));
    assert AppSlice(p, gathered.ips) == AppSlice(p, gathered.ips);
  }

  lemma {:induction false} UpsertSlices(api: Api, w: World, p: ServiceParams, namespaces: seq<string>, k: Key)
    ensures var w' := UpsertIn(api, w, p, namespaces).world;
            && (k.namespace !in namespaces || k.name != p.name ==> SliceAt(w', k) == SliceAt(w, k))
            && SliceKeptOrMade(p, SliceAt(w, k), SliceAt(w', k))
    decreases |namespaces|
  {
    if namespaces != [] {
      var first := UpsertOne(api, w, p, namespaces[0]);
      UpsertOneSlices(api, w, p, namespaces[0], k);
      if first.ok {
        UpsertSlices(api, first.world, p, namespaces[1..], k);
      }
    }
  }

  lemma {:induction false} RemovalKeepsSlices(api: Api, w: World, name: string, namespaces: seq<string>)
    requires api.Valid()
    ensures RemoveIn(api, w, name, namespaces).slices == w.slices
    ensures RemoveAllIn(api, w, namespaces).slices == w.slices
    decreases |namespaces|
  {
    if namespaces != [] {
      DeleteOneFacts(api, w, Key(namespaces[0], name));
      var order, n := DeleteManagedPrefix(api, w, namespaces[0]);
      RemovalKeepsSlices(api, DeleteOne(api, w, Key(namespaces[0], name)).world, name, namespaces[1..]);
      RemovalKeepsSlices(api, DeleteManaged(api, w, namespaces[0]).world, name, namespaces[1..]);
    }
  }

  /**
   The footprint of a command on endpoint slices under any failures: removals touch none, and an
   upsert at most those of its own name in its own namespaces, and only without host labels.
   */
  lemma {:induction false} SliceFootprint(api: Api, w: World, c: Command, k: Key)
    requires api.Valid()
    ensures c.UpsertService? && Covers(c, k)
            ==> SliceKeptOrMade(c.params, SliceAt(w, k), SliceAt(Process(api, w, c), k))
    ensures !(c.UpsertService? && Covers(c, k)) ==> SliceAt(Process(api, w, c), k) == SliceAt(w, k)
  {
    match c
    case UpsertService(p) =>
      var order := api.order(w.calls, p.namespaces);
      assert Enumerates(order, p.namespaces);
      UpsertSlices(api, w, p, order, k);
    case RemoveService(name, namespaces) =>
      RemovalKeepsSlices(api, w, name, api.order(w.calls, namespaces));
    case RemoveServices(namespaces) =>
      RemovalKeepsSlices(api, w, "", api.order(w.calls, namespaces));
  }

  // ---------------------------------------------------------------- the walk is determined

  /** Two walks over the same listings are the same walk, so the specification leaves no choice. */
  lemma {:induction false} WalkIsUnique(configs: seq<NamedConfig>, listed: Listed, lattice: string,
                                        a: seq<Visit>, b: seq<Visit>)
    requires IsWalk(configs, listed, lattice, a) && IsWalk(configs, listed, lattice, b)
    ensures a == b
  {
    SortedUnique(a, b);
  }

  lemma NonEmptyHasMember(walk: seq<Visit>)
    ensures walk == [] || exists v :: v in walk
  {
    if walk != [] {
      assert walk[0] in walk;
    }
  }

  lemma {:induction false} SortedUnique(a: seq<Visit>, b: seq<Visit>)
    requires forall v :: v in a <==> v in b
    requires forall i, j | 0 <= i < j < |a| :: Before(a[i], a[j])
    requires forall i, j | 0 <= i < j < |b| :: Before(b[i], b[j])
    ensures a == b
    decreases |a|
  {
    if a == [] {
      NonEmptyHasMember(b);
    } else {
      assert a[0] in b && b != [];
      assert b[0] in a;
      var i :| 0 <= i < |b| && b[i] == a[0];
      var j :| 0 <= j < |a| && a[j] == b[0];
      assert a[0] == b[0];
      forall v ensures v in a[1..] <==> v in b[1..] {
        if v in a[1..] {
          var n :| 0 <= n < |a[1..]| && a[1..][n] == v;
          assert Before(a[0], a[n + 1]);
          assert v in b;
        }
        if v in b[1..] {
          var n :| 0 <= n < |b[1..]| && b[1..][n] == v;
          assert Before(b[0], b[n + 1]);
          assert v in a;
        }
      }
      SortedUnique(a[1..], b[1..]);
    }
  }
}
