/**
 Labels written in one place and selectors written in another: the pods of a host configuration,
 the services made for applications, and the service made for the hosts themselves.
 */
module Labels {
  import opened Wrappers
  import opened HostConfigs

  type LabelMap = map<string, string>

  const NAME_LABEL := "app.kubernetes.io/name"
  const INSTANCE_LABEL := "app.kubernetes.io/instance"
  const MANAGED_BY_LABEL := "app.kubernetes.io/managed-by"
  const ROUTE_TO_LABEL := "wasmcloud.dev/route-to"
  const SERVICE_NAME_LABEL := "kubernetes.io/service-name"
  const HOST_LABEL_PREFIX := "host-label.k8s.wasmcloud.dev"
  const WASMCLOUD := "wasmcloud"
  const OPERATOR := "wadm-operator"

  /** An equality-based label selector accepts a label set that holds all its pairs. */
  predicate Matches(selector: LabelMap, labels: LabelMap) {
    forall key | key in selector :: key in labels && labels[key] == selector[key]
  }

  function CommonLabels(): LabelMap {
    map[NAME_LABEL := WASMCLOUD, MANAGED_BY_LABEL := OPERATOR]
  }

  /** The requirement delete_services lists services by. */
  function ManagedBySelector(): LabelMap {
    map[MANAGED_BY_LABEL := OPERATOR]
  }

  function SelectorLabels(cfg: HostConfig): LabelMap {
    map[NAME_LABEL := WASMCLOUD, INSTANCE_LABEL := cfg.NameAny()]
  }

  /** The label key under which a host label appears on a pod; a service selects by the same key. */
  function HostLabelKey(key: string): string {
    HOST_LABEL_PREFIX + "/" + key
  }

  lemma HostLabelKeysDiffer(a: string, b: string)
    requires HostLabelKey(a) == HostLabelKey(b)
    ensures a == b
  {
    var at := |HOST_LABEL_PREFIX| + 1;
    assert HostLabelKey(a)[at..] == a && HostLabelKey(b)[at..] == b;
  }

  /** Host labels under their pod label keys. */
  function Prefixed(hostLabels: LabelMap): LabelMap {
    assert forall a, b | HostLabelKey(a) == HostLabelKey(b) :: a == b by {
      forall a, b | HostLabelKey(a) == HostLabelKey(b) ensures a == b {
        HostLabelKeysDiffer(a, b);
      }
    }
    map key | key in hostLabels :: HostLabelKey(key) := hostLabels[key]
  }

  function HostLabels(cfg: HostConfig): LabelMap {
    match cfg.hostLabels
    case Some(labels) => labels
    case None => map[]
  }

  /** The labels of the pods of a host configuration. */
  function PodLabels(cfg: HostConfig): LabelMap {
    SelectorLabels(cfg) + CommonLabels() + Prefixed(HostLabels(cfg))
  }

  /** The labels of a service made for an application. */
  function ServiceLabels(app: string): LabelMap {
    CommonLabels() + map[NAME_LABEL := app]
  }

  /** The pod selector of a service made for an application: empty without host labels. */
  function ServiceSelector(hostLabels: Option<LabelMap>): LabelMap {
    match hostLabels
    case Some(labels) => map[NAME_LABEL := WASMCLOUD] + Prefixed(labels)
    case None => map[]
  }

  /** The labels of the service made for the hosts of a configuration. */
  function HostServiceLabels(cfg: HostConfig): LabelMap {
    SelectorLabels(cfg)[ROUTE_TO_LABEL := "true"]
  }

  /** The selector by which the pods of one configuration are listed for an endpoint slice. */
  function InstanceSelector(name: string): LabelMap {
    map[NAME_LABEL := WASMCLOUD, INSTANCE_LABEL := name]
  }

  /** No host label collides with one of the operator's own label keys. */
  lemma HostLabelKeyIsNew(key: string)
    ensures HostLabelKey(key) !in {NAME_LABEL, INSTANCE_LABEL, MANAGED_BY_LABEL}
  {
    assert HostLabelKey(key)[0] == 'h';
    assert NAME_LABEL[0] == INSTANCE_LABEL[0] == MANAGED_BY_LABEL[0] == 'a';
  }

  lemma OwnKeysDiffer()
    ensures NAME_LABEL != INSTANCE_LABEL && NAME_LABEL != MANAGED_BY_LABEL
    ensures INSTANCE_LABEL != MANAGED_BY_LABEL
    ensures ROUTE_TO_LABEL !in {NAME_LABEL, INSTANCE_LABEL, MANAGED_BY_LABEL}
  {
    assert |NAME_LABEL| == 22 && |INSTANCE_LABEL| == 26 && |MANAGED_BY_LABEL| == 28 && |ROUTE_TO_LABEL| == 22;
    assert NAME_LABEL[0] != ROUTE_TO_LABEL[0];
  }

  lemma PrefixedIsNew(hostLabels: LabelMap)
    ensures Prefixed(hostLabels).Keys !! {NAME_LABEL, INSTANCE_LABEL, MANAGED_BY_LABEL}
  {
    forall key | key in hostLabels
      ensures HostLabelKey(key) !in {NAME_LABEL, INSTANCE_LABEL, MANAGED_BY_LABEL}
    {
      HostLabelKeyIsNew(key);
    }
  }

  lemma PrefixedAt(hostLabels: LabelMap, key: string)
    ensures HostLabelKey(key) in Prefixed(hostLabels) <==> key in hostLabels
    ensures key in hostLabels ==> Prefixed(hostLabels)[HostLabelKey(key)] == hostLabels[key]
  {
    if HostLabelKey(key) in Prefixed(hostLabels) {
      var k :| k in hostLabels && HostLabelKey(k) == HostLabelKey(key);
      HostLabelKeysDiffer(k, key);
    }
    forall k | HostLabelKey(k) == HostLabelKey(key) ensures k == key {
      HostLabelKeysDiffer(k, key);
    }
  }

  /** Adding a host label adds one prefixed label. */
  lemma PrefixedGrows(hostLabels: LabelMap, key: string, value: string)
    ensures Prefixed(hostLabels[key := value]) == Prefixed(hostLabels)[HostLabelKey(key) := value]
  {
    var grown := Prefixed(hostLabels[key := value]);
    var updated := Prefixed(hostLabels)[HostLabelKey(key) := value];
    PrefixedAt(hostLabels[key := value], key);
    forall k ensures k in grown <==> k in updated
             ensures k in grown ==> grown[k] == updated[k]
    {
      if k in grown && k != HostLabelKey(key) {
        var j :| j in hostLabels[key := value] && HostLabelKey(j) == k;
        PrefixedAt(hostLabels, j);
        PrefixedAt(hostLabels[key := value], j);
      }
      if k in Prefixed(hostLabels) {
        var j :| j in hostLabels && HostLabelKey(j) == k;
        PrefixedAt(hostLabels[key := value], j);
      }
    }
  }

  lemma UnionWithEmpty(a: LabelMap)
    ensures a + map[] == a
  {
  }

  lemma PrefixedEmpty()
    ensures Prefixed(map[]) == map[]
  {
  }

  lemma OneFewer(all: LabelMap, todo: set<string>, key: string)
    requires key in todo && todo <= all.Keys
    ensures (all - todo)[key := all[key]] == all - (todo - {key})
  {
  }

  lemma UpdateAfterUnion(a: LabelMap, b: LabelMap, key: string, value: string)
    ensures (a + b)[key := value] == a + b[key := value]
  {
  }

  /** The loop of pod_labels over the host labels: insert one prefixed label at a time. */
  method InsertHostLabels(start: LabelMap, hostLabels: LabelMap) returns (labels: LabelMap)
    ensures labels == start + Prefixed(hostLabels)
  {
    labels := start;
    var todo := hostLabels.Keys;
    ghost var done: LabelMap := map[];
    PrefixedEmpty();
    UnionWithEmpty(start);
    while todo != {}
      invariant todo <= hostLabels.Keys
      invariant done == hostLabels - todo
      invariant labels == start + Prefixed(done)
      decreases todo
    {
      var key :| key in todo;
      PrefixedGrows(done, key, hostLabels[key]);
      UpdateAfterUnion(start, Prefixed(done), HostLabelKey(key), hostLabels[key]);
      labels := labels[HostLabelKey(key) := hostLabels[key]];
      done := done[key := hostLabels[key]];
      OneFewer(hostLabels, todo, key);
      todo := todo - {key};
    }
    assert done == hostLabels;
  }

  /** pod_labels. */
  method BuildPodLabels(cfg: HostConfig) returns (labels: LabelMap)
    ensures labels == PodLabels(cfg)
  {
    labels := SelectorLabels(cfg);
    labels := labels + CommonLabels();
    match cfg.hostLabels {
      case Some(hostLabels) =>
        labels := InsertHostLabels(labels, hostLabels);
      case None =>
        PrefixedEmpty();
        assert HostLabels(cfg) == map[];
        UnionWithEmpty(labels);
    }
  }

  // ---------------------------------------------------------------- correspondence

  /** A two-label selector against a label set made of own labels, common labels and others. */
  lemma TwoLabelMatch(n: string, i: string, m: string, w: string, o: string, a: string, b: string, more: LabelMap)
    requires n != i && n != m && i != m && more.Keys !! {n, i, m}
    ensures Matches(map[n := w, i := a], map[n := w, i := b] + map[n := w, m := o] + more) <==> a == b
  {
    var selector := map[n := w, i := a];
    var labels := map[n := w, i := b] + map[n := w, m := o] + more;
    assert labels[n] == w && labels[i] == b;
    assert i in selector;
  }

  /** A deployment's own selector finds its own pods, and the pods of no other name. */
  lemma SelectorFindsOwnPods(mine: HostConfig, other: HostConfig)
    ensures Matches(SelectorLabels(mine), PodLabels(other)) <==> mine.NameAny() == other.NameAny()
  {
    OwnKeysDiffer();
    PrefixedIsNew(HostLabels(other));
    TwoLabelMatch(NAME_LABEL, INSTANCE_LABEL, MANAGED_BY_LABEL, WASMCLOUD, OPERATOR,
                  mine.NameAny(), other.NameAny(), Prefixed(HostLabels(other)));
  }

  /** Prefixing keeps and reflects matching. */
  lemma PrefixedMatches(wanted: LabelMap, offered: LabelMap)
    ensures Matches(Prefixed(wanted), Prefixed(offered)) <==> Matches(wanted, offered)
  {
    forall key | key in wanted
      ensures (HostLabelKey(key) in Prefixed(offered)
               && Prefixed(offered)[HostLabelKey(key)] == Prefixed(wanted)[HostLabelKey(key)])
         <==> (key in offered && offered[key] == wanted[key])
    {
      PrefixedAt(wanted, key);
      PrefixedAt(offered, key);
    }
    if Matches(Prefixed(wanted), Prefixed(offered)) {
      forall key | key in wanted ensures key in offered && offered[key] == wanted[key] {
        PrefixedAt(wanted, key);
      }
    }
    if Matches(wanted, offered) {
      forall key | key in Prefixed(wanted)
        ensures key in Prefixed(offered) && Prefixed(offered)[key] == Prefixed(wanted)[key]
      {
        var k :| k in wanted && HostLabelKey(k) == key;
        PrefixedAt(wanted, k);
      }
    }
  }

  /** Common labels on both sides do not influence whether the rest matches. */
  lemma MatchBesides(n: string, w: string, wanted: LabelMap, base: LabelMap, offered: LabelMap)
    requires n in base && base[n] == w
    requires wanted.Keys !! base.Keys && offered.Keys !! base.Keys
    ensures Matches(map[n := w] + wanted, base + offered) <==> Matches(wanted, offered)
  {
    var selector, labels := map[n := w] + wanted, base + offered;
    assert labels[n] == w;
    forall key | key in wanted
      ensures key in selector && selector[key] == wanted[key]
      ensures key in labels <==> key in offered
      ensures key in offered ==> labels[key] == offered[key]
    {
    }
  }

  /** A service with host labels selects a configuration's pods exactly when those are among its labels. */
  lemma HostLabelSelection(wanted: LabelMap, cfg: HostConfig)
    ensures Matches(ServiceSelector(Some(wanted)), PodLabels(cfg)) <==> Matches(wanted, HostLabels(cfg))
    ensures Matches(wanted, HostLabels(cfg))
       <==> forall key | key in wanted ::
              cfg.hostLabels.Some? && key in cfg.hostLabels.value && cfg.hostLabels.value[key] == wanted[key]
  {
    var base := SelectorLabels(cfg) + CommonLabels();
    PrefixedIsNew(wanted);
    PrefixedIsNew(HostLabels(cfg));
    assert base.Keys == {NAME_LABEL, INSTANCE_LABEL, MANAGED_BY_LABEL};
    MatchBesides(NAME_LABEL, WASMCLOUD, Prefixed(wanted), base, Prefixed(HostLabels(cfg)));
    PrefixedMatches(wanted, HostLabels(cfg));
  }

  /**
   Listing by the managed-by requirement finds what carries the operator's label: every application
   service and no host service.
   */
  lemma ManagedBySelection(app: string, cfg: HostConfig)
    ensures forall labels :: Matches(ManagedBySelector(), labels)
              <==> "app.kubernetes.io/managed-by" in labels && labels["app.kubernetes.io/managed-by"] == "wadm-operator"
    ensures Matches(ManagedBySelector(), ServiceLabels(app))
    ensures !Matches(ManagedBySelector(), HostServiceLabels(cfg))
  {
    OwnKeysDiffer();
    assert MANAGED_BY_LABEL in ManagedBySelector();
    assert HostServiceLabels(cfg).Keys == {NAME_LABEL, INSTANCE_LABEL, ROUTE_TO_LABEL};
  }

  /** The pods listed for an endpoint slice are those of the configuration of that name. */
  lemma InstanceSelection(name: string, cfg: HostConfig)
    ensures Matches(InstanceSelector(name), PodLabels(cfg)) <==> name == cfg.NameAny()
  {
    SelectorFindsOwnPods(cfg.(name := Some(name)), cfg);
  }

  // ---------------------------------------------------------------- every label, key by key

  /** The value of a label, if it is there. */
  function Lookup(labels: LabelMap, key: string): Option<string> {
    if key in labels then Some(labels[key]) else None
  }

  /** What the host labels of a configuration or a service put under a pod label key. */
  function HostLabelAt(hostLabels: Option<LabelMap>, key: string): Option<string> {
    var prefix := "host-label.k8s.wasmcloud.dev/";
    if hostLabels.Some? && prefix <= key && key[|prefix|..] in hostLabels.value
    then Some(hostLabels.value[key[|prefix|..]])
    else None
  }

  lemma PrefixedByKey(hostLabels: LabelMap, key: string)
    ensures Lookup(Prefixed(hostLabels), key) == HostLabelAt(Some(hostLabels), key)
  {
    var prefix := "host-label.k8s.wasmcloud.dev/";
    if prefix <= key {
      assert key == HostLabelKey(key[|prefix|..]);
      PrefixedAt(hostLabels, key[|prefix|..]);
    }
  }

  /** The labels of a configuration's pods. */
  lemma PodLabelsByKey(cfg: HostConfig, key: string)
    ensures Lookup(PodLabels(cfg), key)
         == if key == "app.kubernetes.io/name" then Some("wasmcloud")
            else if key == "app.kubernetes.io/instance" then Some(cfg.NameAny())
            else if key == "app.kubernetes.io/managed-by" then Some("wadm-operator")
            else HostLabelAt(cfg.hostLabels, key)
  {
    OwnKeysDiffer();
    PrefixedIsNew(HostLabels(cfg));
    PrefixedByKey(HostLabels(cfg), key);
  }

  /** The selector of an application's service. */
  lemma ServiceSelectorByKey(hostLabels: Option<LabelMap>, key: string)
    ensures Lookup(ServiceSelector(hostLabels), key)
         == if hostLabels.Some? && key == "app.kubernetes.io/name" then Some("wasmcloud")
            else HostLabelAt(hostLabels, key)
  {
    if hostLabels.Some? {
      PrefixedIsNew(hostLabels.value);
      PrefixedByKey(hostLabels.value, key);
    }
  }

  /** The labels of an application's service and of the service of the hosts. */
  lemma ServiceLabelsByKey(app: string, cfg: HostConfig, key: string)
    ensures Lookup(ServiceLabels(app), key)
         == if key == "app.kubernetes.io/name" then Some(app)
            else if key == "app.kubernetes.io/managed-by" then Some("wadm-operator")
            else None
    ensures Lookup(HostServiceLabels(cfg), key)
         == if key == "app.kubernetes.io/name" then Some("wasmcloud")
            else if key == "app.kubernetes.io/instance" then Some(cfg.NameAny())
            else if key == "wasmcloud.dev/route-to" then Some("true")
            else None
  {
    OwnKeysDiffer();
  }

  /** The selectors pods and services are found by. */
  lemma SelectorsByKey(cfg: HostConfig, name: string, key: string)
    ensures Lookup(SelectorLabels(cfg), key)
         == if key == "app.kubernetes.io/name" then Some("wasmcloud")
            else if key == "app.kubernetes.io/instance" then Some(cfg.NameAny())
            else None
    ensures Lookup(InstanceSelector(name), key)
         == if key == "app.kubernetes.io/name" then Some("wasmcloud")
            else if key == "app.kubernetes.io/instance" then Some(name)
            else None
    ensures Lookup(ManagedBySelector(), key)
         == if key == "app.kubernetes.io/managed-by" then Some("wadm-operator") else None
  {
    OwnKeysDiffer();
  }

  /** A selector accepts labels exactly if they hold the same value under each of its keys. */
  lemma MatchesByKey(selector: LabelMap, labels: LabelMap)
    ensures Matches(selector, labels)
       <==> forall key :: Lookup(selector, key).Some? ==> Lookup(labels, key) == Lookup(selector, key)
  {
    if Matches(selector, labels) {
      assert forall key | key in selector :: key in labels && labels[key] == selector[key];
    }
    if forall key :: Lookup(selector, key).Some? ==> Lookup(labels, key) == Lookup(selector, key) {
      forall key | key in selector ensures key in labels && labels[key] == selector[key] {
        assert Lookup(selector, key).Some?;
      }
    }
  }
}
