/**
 The contents of an endpoint slice, position by position: which address of which pod stands where,
 under which port and labels.
 */
module Slices {
  import opened Wrappers
  import opened HostConfigs
  import opened Labels
  import opened Clusters
  import opened WorkerRuns
  import opened Endpoints

  /** An entry among the addresses of a pod: positions in the two listings and in the pod's status. */
  datatype Slot = Slot(config: nat, pod: nat, entry: nat)

  /** Reading order. */
  predicate Precedes(a: Slot, b: Slot) {
    || a.config < b.config
    || (a.config == b.config && a.pod < b.pod)
    || (a.config == b.config && a.pod == b.pod && a.entry < b.entry)
  }

  /** The pod is running and its status lists addresses. */
  predicate HasEntries(pod: Pod) {
    pod.status.Some? && pod.status.value.phase == Some("Running") && pod.status.value.podIps.Some?
  }

  /** The slot is an entry of a running pod of a configuration of the lattice. */
  predicate IsEntry(configs: seq<NamedConfig>, listed: Listed, lattice: string, s: Slot) {
    && s.config < |configs| && s.config < |listed| && s.pod < |listed[s.config]|
    && configs[s.config].lattice == lattice
    && var pod := listed[s.config][s.pod];
    && Lookup(pod.labels, "app.kubernetes.io/name") == Some("wasmcloud")
    && Lookup(pod.labels, "app.kubernetes.io/instance") == configs[s.config].name
    && HasEntries(pod) && s.entry < |pod.status.value.podIps.value|
  }

  /** What the entry holds; entries may be without an address. */
  function EntryAt(listed: Listed, s: Slot): Option<string> {
    if s.config < |listed| && s.pod < |listed[s.config]| && HasEntries(listed[s.config][s.pod])
       && s.entry < |listed[s.config][s.pod].status.value.podIps.value|
    then listed[s.config][s.pod].status.value.podIps.value[s.entry]
    else None
  }

  /** The slots list exactly the entries that hold an address, in reading order. */
  ghost predicate ListsAddresses(configs: seq<NamedConfig>, listed: Listed, lattice: string, slots: seq<Slot>) {
    && (forall s :: s in slots <==> IsEntry(configs, listed, lattice, s) && EntryAt(listed, s).Some?)
    && forall i, j | 0 <= i < j < |slots| :: Precedes(slots[i], slots[j])
  }

  /** The addresses of the slice are those at the slots, one for one; port and labels are the service's. */
  ghost predicate SliceHolds(slice: EndpointSlice, p: ServiceParams, listed: Listed, slots: seq<Slot>) {
    && |slice.addresses| == |slots|
    && (forall i | 0 <= i < |slots| :: EntryAt(listed, slots[i]) == Some(slice.addresses[i]))
    && slice.port == p.port
    && forall key :: Lookup(slice.labels, key) == SliceLabelAt(p.name, key)
  }

  /** The labels of a slice. */
  function SliceLabelAt(app: string, key: string): Option<string> {
    if key == "kubernetes.io/service-name" || key == "app.kubernetes.io/name" then Some(app)
    else if key == "app.kubernetes.io/managed-by" then Some("wadm-operator")
    else None
  }

  // ---------------------------------------------------------------- from visits to slots

  /** The slots with an address of one pod, from an entry on. */
  function SlotsOf(listed: Listed, v: Visit, entry: nat): (slots: seq<Slot>)
    requires Exists(listed, v) && entry <= |PodIps(PodAt(listed, v))|
    ensures forall s :: s in slots <==> && s.config == v.config && s.pod == v.pod
                                        && entry <= s.entry < |PodIps(PodAt(listed, v))|
                                        && PodIps(PodAt(listed, v))[s.entry].Some?
    ensures forall i, j | 0 <= i < j < |slots| :: Precedes(slots[i], slots[j])
    decreases |PodIps(PodAt(listed, v))| - entry
  {
    if entry == |PodIps(PodAt(listed, v))| then []
    else
      var rest := SlotsOf(listed, v, entry + 1);
      if PodIps(PodAt(listed, v))[entry].Some? then [Slot(v.config, v.pod, entry)] + rest else rest
  }

  /** Addresses and slots one for one. */
  ghost predicate Matched(listed: Listed, addresses: seq<string>, slots: seq<Slot>) {
    && |addresses| == |slots|
    && forall i | 0 <= i < |slots| :: EntryAt(listed, slots[i]) == Some(addresses[i])
  }

  lemma PodIpsAreEntries(pod: Pod)
    ensures PodIps(pod) == if HasEntries(pod) then pod.status.value.podIps.value else []
  {
  }

  lemma {:induction false} SlotsOfPod(listed: Listed, v: Visit, entry: nat)
    requires Exists(listed, v) && entry <= |PodIps(PodAt(listed, v))|
    ensures Matched(listed, Addresses(PodIps(PodAt(listed, v))[entry..]), SlotsOf(listed, v, entry))
    decreases |PodIps(PodAt(listed, v))| - entry
  {
    var ips := PodIps(PodAt(listed, v));
    if entry < |ips| {
      SlotsOfPod(listed, v, entry + 1);
      PodIpsAreEntries(PodAt(listed, v));
      assert ips[entry..][0] == ips[entry] && ips[entry..][1..] == ips[entry + 1..];
      assert EntryAt(listed, Slot(v.config, v.pod, entry)) == ips[entry];
    }
  }

  lemma {:induction false} AddressesConcat(a: seq<Option<string>>, b: seq<Option<string>>)
    ensures Addresses(a + b) == Addresses(a) + Addresses(b)
  {
    if a == [] {
      assert a + b == b;
    } else {
      assert (a + b)[1..] == a[1..] + b;
      AddressesConcat(a[1..], b);
    }
  }

  lemma MatchedConcat(listed: Listed, a: seq<string>, b: seq<string>, s: seq<Slot>, t: seq<Slot>)
    requires Matched(listed, a, s) && Matched(listed, b, t)
    ensures Matched(listed, a + b, s + t)
  {
  }

  /** The visit of a slot. */
  function VisitOf(s: Slot): Visit {
    Visit(s.config, s.pod)
  }

  /** The slots along a walk. */
  lemma {:induction false} SlotsAlong(listed: Listed, walk: seq<Visit>) returns (slots: seq<Slot>)
    requires forall i | 0 <= i < |walk| :: Exists(listed, walk[i])
    requires forall i, j | 0 <= i < j < |walk| :: Before(walk[i], walk[j])
    ensures Matched(listed, Addresses(IpsAlong(listed, walk)), slots)
    ensures forall s :: s in slots <==> VisitOf(s) in walk && EntryAt(listed, s).Some?
    ensures forall i, j | 0 <= i < j < |slots| :: Precedes(slots[i], slots[j])
  {
    if walk == [] {
      slots := [];
    } else {
      var v, rest := walk[0], walk[1..];
      var later := SlotsAlong(listed, rest);
      var first := SlotsOf(listed, v, 0);
      slots := first + later;
      SlotsOfPod(listed, v, 0);
      assert PodIps(PodAt(listed, v))[0..] == PodIps(PodAt(listed, v));
      AddressesConcat(PodIps(PodAt(listed, v)), IpsAlong(listed, rest));
      MatchedConcat(listed, Addresses(PodIps(PodAt(listed, v))), Addresses(IpsAlong(listed, rest)), first, later);
      PodIpsAreEntries(PodAt(listed, v));
      SlotsJoin(listed, walk, first, later);
    }
  }

  lemma SlotsJoin(listed: Listed, walk: seq<Visit>, first: seq<Slot>, later: seq<Slot>)
    requires walk != [] && forall j | 0 < j < |walk| :: Before(walk[0], walk[j])
    requires forall s :: s in first <==> VisitOf(s) == walk[0] && EntryAt(listed, s).Some?
    requires forall s :: s in later <==> VisitOf(s) in walk[1..] && EntryAt(listed, s).Some?
    requires forall i, j | 0 <= i < j < |first| :: Precedes(first[i], first[j])
    requires forall i, j | 0 <= i < j < |later| :: Precedes(later[i], later[j])
    ensures var slots := first + later;
            && (forall s :: s in slots <==> VisitOf(s) in walk && EntryAt(listed, s).Some?)
            && forall i, j | 0 <= i < j < |slots| :: Precedes(slots[i], slots[j])
  {
    var slots := first + later;
    forall s ensures s in slots <==> VisitOf(s) in walk && EntryAt(listed, s).Some? {
      assert s in slots <==> s in first || s in later;
      assert walk == [walk[0]] + walk[1..];
    }
    forall i, j | 0 <= i < j < |slots| ensures Precedes(slots[i], slots[j]) {
      if i < |first| && |first| <= j {
        assert slots[i] in first && slots[j] in later;
        var k :| 0 <= k < |walk[1..]| && walk[1..][k] == VisitOf(slots[j]);
        assert walk[k + 1] == VisitOf(slots[j]);
      }
    }
  }

  /** A visit on the walk is one whose entries count. */
  lemma EntriesOnWalk(configs: seq<NamedConfig>, listed: Listed, lattice: string, s: Slot)
    requires |listed| == |configs|
    ensures Belongs(configs, listed, lattice, VisitOf(s)) && EntryAt(listed, s).Some?
       <==> IsEntry(configs, listed, lattice, s) && EntryAt(listed, s).Some?
    ensures IsEntry(configs, listed, lattice, s)
        ==> Belongs(configs, listed, lattice, VisitOf(s)) && s.entry < |PodIps(PodAt(listed, VisitOf(s)))|
  {
    if s.config < |configs| && s.pod < |listed[s.config]| {
      SelectedByLabels(configs[s.config].name.value, listed[s.config][s.pod].labels);
      PodIpsAreEntries(listed[s.config][s.pod]);
    }
  }

  lemma SelectedByLabels(name: string, labels: LabelMap)
    ensures Matches(InstanceSelector(name), labels)
       <==> && Lookup(labels, "app.kubernetes.io/name") == Some("wasmcloud")
            && Lookup(labels, "app.kubernetes.io/instance") == Some(name)
  {
    OwnKeysDiffer();
    assert NAME_LABEL in InstanceSelector(name) && INSTANCE_LABEL in InstanceSelector(name);
  }

  /** There are addresses or empty entries along a walk exactly if some visit has an entry. */
  lemma {:induction false} EntriesAlong(listed: Listed, walk: seq<Visit>)
    requires forall i | 0 <= i < |walk| :: Exists(listed, walk[i])
    ensures IpsAlong(listed, walk) != [] <==> exists i :: 0 <= i < |walk| && PodIps(PodAt(listed, walk[i])) != []
  {
    if walk != [] {
      EntriesAlong(listed, walk[1..]);
      assert forall i | 0 < i < |walk| :: walk[i] == walk[1..][i - 1];
    }
  }

  lemma SomeEntry(configs: seq<NamedConfig>, listed: Listed, lattice: string, walk: seq<Visit>)
    requires |listed| == |configs| && IsWalk(configs, listed, lattice, walk)
    ensures IpsAlong(listed, walk) != [] <==> exists s :: IsEntry(configs, listed, lattice, s)
  {
    assert forall i | 0 <= i < |walk| :: walk[i] in walk;
    EntriesAlong(listed, walk);
    if i :| 0 <= i < |walk| && PodIps(PodAt(listed, walk[i])) != [] {
      var s := Slot(walk[i].config, walk[i].pod, 0);
      assert walk[i] in walk;
      SelectedByLabels(configs[s.config].name.value, PodAt(listed, walk[i]).labels);
      PodIpsAreEntries(PodAt(listed, walk[i]));
      assert IsEntry(configs, listed, lattice, s);
    }
    if s :| IsEntry(configs, listed, lattice, s) {
      EntriesOnWalk(configs, listed, lattice, s);
      assert VisitOf(s) in walk;
      var i :| 0 <= i < |walk| && walk[i] == VisitOf(s);
      assert PodIps(PodAt(listed, walk[i])) != [];
    }
  }

  lemma SliceOfWalk(p: ServiceParams, configs: seq<NamedConfig>, listed: Listed, lattice: string, walk: seq<Visit>)
    returns (slots: seq<Slot>)
    requires |listed| == |configs| && IsWalk(configs, listed, lattice, walk)
    ensures ListsAddresses(configs, listed, lattice, slots)
    ensures SliceHolds(AppSlice(p, IpsAlong(listed, walk)), p, listed, slots)
    ensures forall i | 0 <= i < |slots| :: VisitOf(slots[i]) in walk
  {
    assert forall i | 0 <= i < |walk| :: walk[i] in walk;
    slots := SlotsAlong(listed, walk);
    forall s ensures s in slots <==> IsEntry(configs, listed, lattice, s) && EntryAt(listed, s).Some? {
      EntriesOnWalk(configs, listed, lattice, s);
    }
    SliceLabels(p, IpsAlong(listed, walk));
  }

  lemma SliceLabels(p: ServiceParams, ips: seq<Option<string>>)
    ensures var slice := AppSlice(p, ips);
            && slice.port == p.port
            && forall key :: Lookup(slice.labels, key) == SliceLabelAt(p.name, key)
  {
    var labels := AppSlice(p, ips).labels;
    forall key ensures Lookup(labels, key) == SliceLabelAt(p.name, key) {
      ServiceLabelsByKey(p.name, UNNAMED, key);
    }
  }

  // ---------------------------------------------------------------- exactness

  /** Slots of different pods are slots of pods with different names. */
  ghost predicate PodsDiffer(listed: Listed, slots: seq<Slot>) {
    forall i, j | 0 <= i < j < |slots| && VisitOf(slots[i]) != VisitOf(slots[j])
                  && Exists(listed, VisitOf(slots[i])) && Exists(listed, VisitOf(slots[j])) ::
      PodAt(listed, VisitOf(slots[i])).name != PodAt(listed, VisitOf(slots[j])).name
  }

  lemma WalkPodsDiffer(listed: Listed, walk: seq<Visit>, slots: seq<Slot>)
    requires NamesDiffer(listed, walk) && forall i | 0 <= i < |slots| :: VisitOf(slots[i]) in walk
    ensures PodsDiffer(listed, slots)
  {
    forall i, j | 0 <= i < j < |slots| && VisitOf(slots[i]) != VisitOf(slots[j])
      ensures PodAt(listed, VisitOf(slots[i])).name != PodAt(listed, VisitOf(slots[j])).name
    {
      var a :| 0 <= a < |walk| && walk[a] == VisitOf(slots[i]);
      var b :| 0 <= b < |walk| && walk[b] == VisitOf(slots[j]);
      assert if a < b then PodAt(listed, walk[a]).name != PodAt(listed, walk[b]).name
             else PodAt(listed, walk[b]).name != PodAt(listed, walk[a]).name;
    }
  }

  /**
   Endpoint exactness. When an upsert without host labels has succeeded, the slice of each of its
   namespaces holds, one for one and in reading order, the addresses of the running pods of the
   namespace's configurations in the lattice, as listed while the command was processed, with the
   service's port and name; without any entry the slice stays as it was. With distinct configuration
   names, and pods that keep their labels, no pod counts twice.
   */
  lemma {:induction false} EndpointsAreExact(api: Api, w: World, p: ServiceParams, ns: string)
    returns (n: nat, slots: seq<Slot>)
    requires api.Valid() && p.hostLabels.None? && ns in p.namespaces && Succeeds(api, w, UpsertService(p))
    ensures w.calls < n < Process(api, w, UpsertService(p)).calls
    ensures ListsAddresses(api.configs(n, ns), ListedAfter(api, n, ns, p.latticeId), p.latticeId, slots)
    ensures var k, w' := Key(ns, p.name), Process(api, w, UpsertService(p));
            var configs, listed := api.configs(n, ns), ListedAfter(api, n, ns, p.latticeId);
            if exists s :: IsEntry(configs, listed, p.latticeId, s)
            then SliceAt(w', k).Some? && SliceHolds(SliceAt(w', k).value, p, listed, slots)
            else SliceAt(w', k) == SliceAt(w, k)
    ensures PodsKeepNames(ListedAfter(api, n, ns, p.latticeId)) && DistinctConfigs(api.configs(n, ns))
            ==> PodsDiffer(ListedAfter(api, n, ns, p.latticeId), slots)
  {
    var walk;
    n, walk := EndpointsFollowWalk(api, w, p, ns);
    var configs, listed := api.configs(n, ns), ListedAfter(api, n, ns, p.latticeId);
    slots := SliceOfWalk(p, configs, listed, p.latticeId, walk);
    SomeEntry(configs, listed, p.latticeId, walk);
    if PodsKeepNames(listed) && DistinctConfigs(configs) {
      WalkPodsDiffer(listed, walk, slots);
    }
  }
}
