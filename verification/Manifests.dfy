/**
 Reading an application manifest: which http server it deploys, on which address, and on hosts
 with which labels.
 */
module Manifests {
  import opened Wrappers

  datatype ConfigProperty = ConfigProperty(name: string, properties: Option<map<string, string>>)

  /** The properties of a link: the interface it carries and the configuration of its source. */
  datatype LinkProps = LinkProps(
    namespace: string,
    package: string,
    interfaces: seq<string>,
    source: Option<seq<ConfigProperty>>)

  /** A scaler lists one requirement map per spread. */
  datatype TraitProperty = Link(link: LinkProps) | SpreadScaler(spread: seq<map<string, string>>) | Custom

  datatype Trait = Trait(traitType: string, properties: TraitProperty)

  datatype Properties = Capability(image: string) | Actor(image: string)

  datatype Component = Component(name: string, properties: Properties, traits: Option<seq<Trait>>)

  datatype Manifest = Manifest(name: string, components: seq<Component>)

  /** What a service is made from. */
  datatype HttpServer = HttpServer(labels: Option<map<string, string>>, address: string)

  // ---------------------------------------------------------------- vocabulary of the specification

  predicate IsHttpServer(c: Component) {
    c.properties.Capability? && "ghcr.io/wasmcloud/http-server" <= c.properties.image
  }

  predicate HasTrait(c: Component, traitType: string) {
    c.traits.Some? && exists i :: 0 <= i < |c.traits.value| && c.traits.value[i].traitType == traitType
  }

  /** Trait i of the component is its first one of that type. */
  predicate IsFirstTrait(c: Component, traitType: string, i: int) {
    && c.traits.Some?
    && 0 <= i < |c.traits.value|
    && c.traits.value[i].traitType == traitType
    && forall j | 0 <= j < i :: c.traits.value[j].traitType != traitType
  }

  /** Configuration j of the link at trait t of server i gives the address. */
  predicate GivesAddress(cs: seq<Component>, i: int, t: int, j: int, address: string) {
    && 0 <= i < |cs| && IsHttpServer(cs[i]) && IsFirstTrait(cs[i], "link", t)
    && cs[i].traits.value[t].properties.Link?
    && var link := cs[i].traits.value[t].properties.link;
    && link.namespace == "wasi" && link.package == "http" && "incoming-handler" in link.interfaces
    && link.source.Some? && 0 <= j < |link.source.value|
    && var config := link.source.value[j].properties;
    && config.Some? && "address" in config.value && config.value["address"] == address
  }

  /** Spread j of the scaler at trait t, the first link-typed trait of server i, requires key = value. */
  predicate Requires(cs: seq<Component>, i: int, t: int, j: int, key: string, value: string) {
    && 0 <= i < |cs| && IsHttpServer(cs[i]) && IsFirstTrait(cs[i], "link", t)
    && var properties := cs[i].traits.value[t].properties;
    && properties.SpreadScaler?
    && 0 <= j < |properties.spread|
    && key in properties.spread[j] && properties.spread[j][key] == value
  }

  /** Reading order of (component, entry) positions. */
  predicate NotAfter(i: int, j: int, i': int, j': int) {
    i < i' || (i == i' && j <= j')
  }

  // ---------------------------------------------------------------- what the loops compute

  const HTTP_SERVER_IMAGE := "ghcr.io/wasmcloud/http-server"
  const DAEMONSCALER := "daemonscaler"
  const LINK := "link"
  const ADDRESS := "address"

  /** The filter on components. */
  predicate IsServer(c: Component) {
    c.properties.Capability? && HTTP_SERVER_IMAGE <= c.properties.image
  }

  /** The condition on links. */
  predicate CarriesIncomingHttp(link: LinkProps) {
    && link.namespace == "wasi"
    && link.package == "http"
    && "incoming-handler" in link.interfaces
    && link.source.Some?
  }

  /** The first trait of that type, if any. */
  function FirstTrait(traits: seq<Trait>, traitType: string): Option<Trait> {
    if traits == [] then None
    else if traits[0].traitType == traitType then Some(traits[0])
    else FirstTrait(traits[1..], traitType)
  }

  /** The first trait of that type of an http server, as a sequence of at most one. */
  function TraitOf(c: Component, traitType: string): seq<Trait> {
    if !IsServer(c) || c.traits.None? then []
    else match FirstTrait(c.traits.value, traitType)
      case None => []
      case Some(t) => [t]
  }

  /** The traits collected from the http servers among the components. */
  function Collected(cs: seq<Component>, traitType: string): seq<Trait> {
    if cs == [] then []
    else Collected(cs[..|cs| - 1], traitType) + TraitOf(cs[|cs| - 1], traitType)
  }

  /** The state of the extraction loops: the address found last, and the labels so far. */
  datatype Found = Found(address: Option<string>, labels: Option<map<string, string>>)

  function VisitConfigs(address: Option<string>, configs: seq<ConfigProperty>): Option<string> {
    if configs == [] then address
    else
      var before := VisitConfigs(address, configs[..|configs| - 1]);
      var properties := configs[|configs| - 1].properties;
      if properties.Some? && ADDRESS in properties.value then Some(properties.value[ADDRESS]) else before
  }

  /** Requirements are inserted one by one into a map created at the first insertion. */
  function AddRequirements(labels: Option<map<string, string>>, requirements: map<string, string>)
    : Option<map<string, string>>
  {
    if requirements == map[] then labels
    else match labels
      case None => Some(requirements)
      case Some(present) => Some(present + requirements)
  }

  function VisitSpreads(labels: Option<map<string, string>>, spreads: seq<map<string, string>>)
    : Option<map<string, string>>
  {
    if spreads == [] then labels
    else AddRequirements(VisitSpreads(labels, spreads[..|spreads| - 1]), spreads[|spreads| - 1])
  }

  function VisitTrait(found: Found, t: Trait): Found {
    match t.properties
    case Link(link) =>
      if CarriesIncomingHttp(link)
      then found.(address := VisitConfigs(found.address, link.source.value))
      else found
    case SpreadScaler(spread) => found.(labels := VisitSpreads(found.labels, spread))
    case Custom => found
  }

  function VisitTraits(traits: seq<Trait>): Found {
    if traits == [] then Found(None, None)
    else VisitTrait(VisitTraits(traits[..|traits| - 1]), traits[|traits| - 1])
  }

  /** http_server_component as a function. */
  function HttpServerOf(m: Manifest): Option<HttpServer> {
    if Collected(m.components, DAEMONSCALER) == [] then None
    else
      var found := VisitTraits(Collected(m.components, LINK));
      match found.address
      case None => None
      case Some(address) => Some(HttpServer(found.labels, address))
  }

  // ---------------------------------------------------------------- the loops

  method FindTrait(traits: seq<Trait>, traitType: string) returns (found: Option<Trait>)
    ensures found == FirstTrait(traits, traitType)
  {
    for i := 0 to |traits|
      invariant FirstTrait(traits, traitType) == FirstTrait(traits[i..], traitType)
    {
      if traits[i].traitType == traitType {
        return Some(traits[i]);
      }
      assert traits[i..][1..] == traits[i + 1..];
    }
    found := None;
  }

  /** Collects the servers, then one trait from each of them. */
  method Collect(servers: seq<Component>, traitType: string) returns (collected: seq<Trait>)
    requires forall c | c in servers :: IsServer(c)
    ensures collected == Collected(servers, traitType)
  {
    collected := [];
    for i := 0 to |servers|
      invariant collected == Collected(servers[..i], traitType)
    {
      assert servers[..i + 1][..i] == servers[..i];
      if servers[i].traits.Some? {
        var t := FindTrait(servers[i].traits.value, traitType);
        if t.Some? {
          collected := collected + [t.value];
        }
      }
    }
    assert servers[..|servers|] == servers;
  }

  method CollectServers(cs: seq<Component>) returns (servers: seq<Component>)
    ensures forall c | c in servers :: IsServer(c)
    ensures forall traitType :: Collected(servers, traitType) == Collected(cs, traitType)
  {
    servers := [];
    for i := 0 to |cs|
      invariant forall c | c in servers :: IsServer(c)
      invariant forall traitType :: Collected(servers, traitType) == Collected(cs[..i], traitType)
    {
      assert cs[..i + 1][..i] == cs[..i];
      if IsServer(cs[i]) {
        assert (servers + [cs[i]])[..|servers|] == servers;
        servers := servers + [cs[i]];
      }
    }
    assert cs[..|cs|] == cs;
  }

  method HttpServerComponent(m: Manifest) returns (server: Option<HttpServer>)
    ensures server == HttpServerOf(m)
  {
    var servers := CollectServers(m.components);
    var scalers := Collect(servers, DAEMONSCALER);
    if scalers == [] {
      return None;
    }
    var links := Collect(servers, LINK);
    var details := HttpServer(None, "");
    var shouldCreateService := false;
    for l := 0 to |links|
      invariant Found(if shouldCreateService then Some(details.address) else None, details.labels)
             == VisitTraits(links[..l])
    {
      assert links[..l + 1][..l] == links[..l];
      match links[l].properties {
        case Link(link) =>
          if CarriesIncomingHttp(link) {
            details, shouldCreateService := ReadConfigs(details, shouldCreateService, link.source.value);
          }
        case SpreadScaler(spread) =>
          details := ReadSpreads(details, spread);
        case Custom =>
      }
    }
    assert links[..|links|] == links;
    if shouldCreateService {
      return Some(details);
    }
    return None;
  }

  method ReadConfigs(start: HttpServer, found: bool, configs: seq<ConfigProperty>)
    returns (details: HttpServer, shouldCreateService: bool)
    ensures (if shouldCreateService then Some(details.address) else None)
         == VisitConfigs(if found then Some(start.address) else None, configs)
    ensures details.labels == start.labels
  {
    details, shouldCreateService := start, found;
    ghost var before := if found then Some(start.address) else None;
    for c := 0 to |configs|
      invariant (if shouldCreateService then Some(details.address) else None) == VisitConfigs(before, configs[..c])
      invariant details.labels == start.labels
    {
      assert configs[..c + 1][..c] == configs[..c];
      var properties := configs[c].properties;
      if properties.Some? && ADDRESS in properties.value {
        details := details.(address := properties.value[ADDRESS]);
        shouldCreateService := true;
      }
    }
    assert configs[..|configs|] == configs;
  }

  method ReadSpreads(start: HttpServer, spread: seq<map<string, string>>) returns (details: HttpServer)
    ensures details == start.(labels := VisitSpreads(start.labels, spread))
  {
    details := start;
    for s := 0 to |spread|
      invariant details == start.(labels := VisitSpreads(start.labels, spread[..s]))
    {
      assert spread[..s + 1][..s] == spread[..s];
      var labels := InsertAll(details.labels, spread[s]);
      details := details.(labels := labels);
    }
    assert spread[..|spread|] == spread;
  }

  /** The innermost loop: each insertion first makes the map if there is none. */
  method InsertAll(start: Option<map<string, string>>, requirements: map<string, string>)
    returns (labels: Option<map<string, string>>)
    ensures labels == AddRequirements(start, requirements)
  {
    labels := start;
    var todo := requirements.Keys;
    while todo != {}
      invariant todo <= requirements.Keys
      invariant labels == AddRequirements(start, requirements - todo)
      decreases todo
    {
      var key :| key in todo;
      var present := match labels case None => map[] case Some(p) => p;
      labels := Some(present[key := requirements[key]]);
      ghost var inserted := requirements - todo;
      todo := todo - {key};
      assert requirements - todo == inserted[key := requirements[key]];
      assert key in requirements - todo;
      if start.Some? {
        assert start.value + inserted[key := requirements[key]]
            == (start.value + inserted)[key := requirements[key]];
        assert inserted == map[] ==> start.value + inserted == start.value;
      }
    }
    assert requirements - {} == requirements;
  }

  // ---------------------------------------------------------------- the loops meet the specification

  lemma {:induction false} FirstTraitIsFirst(traits: seq<Trait>, traitType: string) returns (i: int)
    ensures 0 <= i <= |traits|
    ensures forall j | 0 <= j < i :: traits[j].traitType != traitType
    ensures i < |traits| ==> traits[i].traitType == traitType && FirstTrait(traits, traitType) == Some(traits[i])
    ensures i == |traits| ==> FirstTrait(traits, traitType) == None
  {
    if traits == [] {
      i := 0;
    } else if traits[0].traitType == traitType {
      i := 0;
    } else {
      var rest := FirstTraitIsFirst(traits[1..], traitType);
      i := rest + 1;
      assert forall j | 0 < j < i :: traits[j] == traits[1..][j - 1];
    }
  }

  /** A trait is collected from exactly the servers that have one of the type. */
  lemma {:induction false} CollectedSomething(cs: seq<Component>, traitType: string)
    ensures Collected(cs, traitType) != []
       <==> exists i :: 0 <= i < |cs| && IsHttpServer(cs[i]) && HasTrait(cs[i], traitType)
  {
    if cs != [] {
      var n := |cs| - 1;
      CollectedSomething(cs[..n], traitType);
      if cs[n].traits.Some? {
        var t := FirstTraitIsFirst(cs[n].traits.value, traitType);
      }
      assert TraitOf(cs[n], traitType) != [] <==> IsHttpServer(cs[n]) && HasTrait(cs[n], traitType);
      assert forall i | 0 <= i < n :: cs[..n][i] == cs[i];
    }
  }

  /** The address of the components is the one given at the last position that gives one. */
  ghost predicate AddressSpec(cs: seq<Component>, address: Option<string>) {
    match address
    case None => forall i, t, j, a :: !GivesAddress(cs, i, t, j, a)
    case Some(last) => exists i, t, j :: IsLastAddress(cs, i, t, j, last)
  }

  ghost predicate IsLastAddress(cs: seq<Component>, i: int, t: int, j: int, address: string) {
    && GivesAddress(cs, i, t, j, address)
    && forall i', t', j', a :: GivesAddress(cs, i', t', j', a) ==> NotAfter(i', j', i, j)
  }

  function LabelAt(labels: Option<map<string, string>>, key: string): Option<string> {
    if labels.Some? && key in labels.value then Some(labels.value[key]) else None
  }

  /** The label of that key has the value of the last position that requires the key. */
  ghost predicate LabelSpec(cs: seq<Component>, key: string, value: Option<string>) {
    match value
    case None => forall i, t, j, v :: !Requires(cs, i, t, j, key, v)
    case Some(last) => exists i, t, j :: IsLastRequirement(cs, i, t, j, key, last)
  }

  ghost predicate IsLastRequirement(cs: seq<Component>, i: int, t: int, j: int, key: string, value: string) {
    && Requires(cs, i, t, j, key, value)
    && forall i', t', j', v :: Requires(cs, i', t', j', key, v) ==> NotAfter(i', j', i, j)
  }

  predicate ConfigGives(configs: seq<ConfigProperty>, j: int, address: string) {
    && 0 <= j < |configs| && configs[j].properties.Some?
    && ADDRESS in configs[j].properties.value && configs[j].properties.value[ADDRESS] == address
  }

  /** The last configuration with an address decides; without one nothing changes. */
  lemma {:induction false} LastConfigDecides(start: Option<string>, configs: seq<ConfigProperty>)
    returns (last: int)
    ensures -1 <= last < |configs|
    ensures forall j, a :: ConfigGives(configs, j, a) ==> j <= last
    ensures if last < 0 then VisitConfigs(start, configs) == start
            else VisitConfigs(start, configs).Some? && ConfigGives(configs, last, VisitConfigs(start, configs).value)
  {
    if configs == [] {
      last := -1;
    } else {
      var n := |configs| - 1;
      var properties := configs[n].properties;
      if properties.Some? && ADDRESS in properties.value {
        last := n;
      } else {
        last := LastConfigDecides(start, configs[..n]);
        forall j, a | ConfigGives(configs, j, a) ensures j <= last {
          assert ConfigGives(configs[..n], j, a);
        }
      }
    }
  }

  /** The last spread with the key decides the label; without one nothing changes. */
  lemma {:induction false} LastSpreadDecides(start: Option<map<string, string>>, spreads: seq<map<string,
                                             string>>, key: string)
    returns (last: int)
    ensures -1 <= last < |spreads|
    ensures forall j | 0 <= j < |spreads| && key in spreads[j] :: j <= last
    ensures LabelAt(VisitSpreads(start, spreads), key)
         == if last < 0 then LabelAt(start, key)
            else if key in spreads[last] then Some(spreads[last][key]) else None
    ensures last >= 0 ==> key in spreads[last]
  {
    if spreads == [] {
      last := -1;
    } else {
      var n := |spreads| - 1;
      last := LastSpreadDecides(start, spreads[..n], key);
      if key in spreads[n] {
        last := n;
      }
    }
  }

  /** Only the first link-typed trait of a server counts, and its position is unique. */
  lemma LinkOfServer(c: Component) returns (t: int)
    ensures TraitOf(c, LINK) == [] ==> forall i :: !(IsHttpServer(c) && IsFirstTrait(c, LINK, i))
    ensures TraitOf(c, LINK) != [] ==>
              && IsHttpServer(c) && IsFirstTrait(c, LINK, t)
              && TraitOf(c, LINK) == [c.traits.value[t]]
              && forall i :: IsFirstTrait(c, LINK, i) ==> i == t
  {
    t := 0;
    if IsHttpServer(c) && c.traits.Some? {
      t := FirstTraitIsFirst(c.traits.value, LINK);
    }
  }

  /** One more component extends what was visited by at most its first link-typed trait. */
  lemma {:induction false} VisitOneMore(cs: seq<Component>)
    requires cs != []
    ensures var before := VisitTraits(Collected(cs[..|cs| - 1], LINK));
            var link := TraitOf(cs[|cs| - 1], LINK);
            VisitTraits(Collected(cs, LINK)) == if link == [] then before else VisitTrait(before, link[0])
  {
    var before := Collected(cs[..|cs| - 1], LINK);
    var link := TraitOf(cs[|cs| - 1], LINK);
    if link == [] {
      assert before + link == before;
    } else {
      assert (before + link)[..|before|] == before;
    }
  }

  lemma AddressKept(cs: seq<Component>, address: Option<string>)
    requires cs != [] && AddressSpec(cs[..|cs| - 1], address)
    requires forall i, t, j, a | i == |cs| - 1 :: !GivesAddress(cs, i, t, j, a)
    ensures AddressSpec(cs, address)
  {
    var n := |cs| - 1;
    forall i, t, j, a
      ensures GivesAddress(cs, i, t, j, a) <==> GivesAddress(cs[..n], i, t, j, a)
    {
      assert 0 <= i < n ==> cs[..n][i] == cs[i];
    }
    if address.Some? {
      var i, t, j :| IsLastAddress(cs[..n], i, t, j, address.value);
      assert IsLastAddress(cs, i, t, j, address.value);
    }
  }

  lemma LabelKept(cs: seq<Component>, key: string, value: Option<string>)
    requires cs != [] && LabelSpec(cs[..|cs| - 1], key, value)
    requires forall i, t, j, v | i == |cs| - 1 :: !Requires(cs, i, t, j, key, v)
    ensures LabelSpec(cs, key, value)
  {
    var n := |cs| - 1;
    forall i, t, j, v
      ensures Requires(cs, i, t, j, key, v) <==> Requires(cs[..n], i, t, j, key, v)
    {
      assert 0 <= i < n ==> cs[..n][i] == cs[i];
    }
    if value.Some? {
      var i, t, j :| IsLastRequirement(cs[..n], i, t, j, key, value.value);
      assert IsLastRequirement(cs, i, t, j, key, value.value);
    }
  }

  lemma {:induction false} AddressIsLast(cs: seq<Component>)
    ensures AddressSpec(cs, VisitTraits(Collected(cs, LINK)).address)
  {
    if cs != [] {
      var n := |cs| - 1;
      AddressIsLast(cs[..n]);
      VisitOneMore(cs);
      var before := VisitTraits(Collected(cs[..n], LINK)).address;
      var t := LinkOfServer(cs[n]);
      if TraitOf(cs[n], LINK) == [] {
        AddressKept(cs, before);
      } else {
        var properties := cs[n].traits.value[t].properties;
        if properties.Link? && CarriesIncomingHttp(properties.link) {
          var configs := properties.link.source.value;
          var last := LastConfigDecides(before, configs);
          forall t', j, a | GivesAddress(cs, n, t', j, a) ensures ConfigGives(configs, j, a) {
            assert t' == t;
          }
          if last < 0 {
            AddressKept(cs, before);
          } else {
            assert IsLastAddress(cs, n, t, last, VisitConfigs(before, configs).value);
          }
        } else {
          AddressKept(cs, before);
        }
      }
    }
  }

  lemma {:induction false} LabelIsLast(cs: seq<Component>, key: string)
    ensures LabelSpec(cs, key, LabelAt(VisitTraits(Collected(cs, LINK)).labels, key))
  {
    if cs != [] {
      var n := |cs| - 1;
      LabelIsLast(cs[..n], key);
      VisitOneMore(cs);
      var before := VisitTraits(Collected(cs[..n], LINK)).labels;
      var t := LinkOfServer(cs[n]);
      if TraitOf(cs[n], LINK) == [] || !cs[n].traits.value[t].properties.SpreadScaler? {
        LabelKept(cs, key, LabelAt(before, key));
      } else {
        var last := LastSpreadDecides(before, cs[n].traits.value[t].properties.spread, key);
        LabelFromLast(cs, t, key, last);
        if last < 0 {
          LabelKept(cs, key, LabelAt(before, key));
        }
      }
    }
  }

  /** The spreads of the last component come last; the last of them with the key, if any, decides. */
  lemma LabelFromLast(cs: seq<Component>, t: int, key: string, last: int)
    requires cs != []
    requires var c := cs[|cs| - 1];
             && IsHttpServer(c) && IsFirstTrait(c, LINK, t) && c.traits.value[t].properties.SpreadScaler?
             && var spreads := c.traits.value[t].properties.spread;
             && last < |spreads|
             && (last >= 0 ==> key in spreads[last])
             && forall j | 0 <= j < |spreads| && key in spreads[j] :: j <= last
    ensures last < 0 ==> forall i, t', j, v | i == |cs| - 1 :: !Requires(cs, i, t', j, key, v)
    ensures last >= 0 ==>
              IsLastRequirement(cs, |cs| - 1, t, last, key, cs[|cs| - 1].traits.value[t].properties.spread[last][key])
  {
    var n := |cs| - 1;
    forall t', j, v | Requires(cs, n, t', j, key, v) ensures t' == t && j <= last {
      assert IsFirstTrait(cs[n], LINK, t');
      assert t' == t;
    }
  }

  /** A label map is only ever made by inserting a label into it. */
  lemma {:induction false} LabelsAreNotEmpty(traits: seq<Trait>)
    ensures VisitTraits(traits).labels != Some(map[])
  {
    if traits != [] {
      LabelsAreNotEmpty(traits[..|traits| - 1]);
      var t := traits[|traits| - 1];
      if t.properties.SpreadScaler? {
        SpreadsAreNotEmpty(VisitTraits(traits[..|traits| - 1]).labels, t.properties.spread);
      }
    }
  }

  lemma {:induction false} SpreadsAreNotEmpty(labels: Option<map<string, string>>, spreads: seq<map<string, string>>)
    requires labels != Some(map[])
    ensures VisitSpreads(labels, spreads) != Some(map[])
  {
    if spreads != [] {
      SpreadsAreNotEmpty(labels, spreads[..|spreads| - 1]);
      var present := VisitSpreads(labels, spreads[..|spreads| - 1]);
      var key :| key in spreads[|spreads| - 1] || spreads[|spreads| - 1] == map[];
      assert present.Some? && key in spreads[|spreads| - 1] ==> key in present.value + spreads[|spreads| - 1];
    }
  }

  /**
   The whole extraction: a service is wanted exactly when some http server has a daemonscaler and
   some http server's first link-typed trait gives an address; the address and each label are the
   ones given last, and there are labels only if some scaler requires one.
   */
  lemma ExtractionMeetsSpec(m: Manifest)
    ensures var cs := m.components;
            HttpServerOf(m).Some?
            <==> && (exists i :: 0 <= i < |cs| && IsHttpServer(cs[i]) && HasTrait(cs[i], "daemonscaler"))
                 && (exists i, t, j, a :: GivesAddress(cs, i, t, j, a))
    ensures HttpServerOf(m).Some? ==>
              && AddressSpec(m.components, Some(HttpServerOf(m).value.address))
              && HttpServerOf(m).value.labels != Some(map[])
              && forall key :: LabelSpec(m.components, key, LabelAt(HttpServerOf(m).value.labels, key))
  {
    var cs := m.components;
    CollectedSomething(cs, DAEMONSCALER);
    AddressIsLast(cs);
    LabelsAreNotEmpty(Collected(cs, LINK));
    forall key ensures LabelSpec(cs, key, LabelAt(VisitTraits(Collected(cs, LINK)).labels, key)) {
      LabelIsLast(cs, key);
    }
    var address := VisitTraits(Collected(cs, LINK)).address;
    if address.Some? {
      var i, t, j :| IsLastAddress(cs, i, t, j, address.value);
    }
  }

  // ---------------------------------------------------------------- which components count

  /** The capabilities whose image is some version of the http server. */
  function HttpServers(cs: seq<Component>): seq<Component> {
    if cs == [] then []
    else
      var c := cs[|cs| - 1];
      HttpServers(cs[..|cs| - 1])
      + (if c.properties.Capability? && "ghcr.io/wasmcloud/http-server" <= c.properties.image then [c] else [])
  }

  lemma {:induction false} CollectedFromServers(cs: seq<Component>, traitType: string)
    ensures Collected(HttpServers(cs), traitType) == Collected(cs, traitType)
  {
    if cs != [] {
      var before, c := HttpServers(cs[..|cs| - 1]), cs[|cs| - 1];
      CollectedFromServers(cs[..|cs| - 1], traitType);
      if c.properties.Capability? && "ghcr.io/wasmcloud/http-server" <= c.properties.image {
        assert HttpServers(cs) == before + [c] && (before + [c])[..|before|] == before;
      } else {
        assert HttpServers(cs) == before && TraitOf(c, traitType) == [];
      }
    }
  }

  /** Every other component could as well not be in the manifest, whatever traits it has. */
  lemma {:induction false} OnlyHttpServersCount(m: Manifest)
    ensures HttpServerOf(m.(components := HttpServers(m.components))) == HttpServerOf(m)
  {
    CollectedFromServers(m.components, DAEMONSCALER);
    CollectedFromServers(m.components, LINK);
  }

  /** Without such a component there is nothing to serve. */
  lemma {:induction false} NoHttpServerNoService(m: Manifest)
    requires forall c | c in m.components ::
               !(c.properties.Capability? && "ghcr.io/wasmcloud/http-server" <= c.properties.image)
    ensures HttpServerOf(m) == None
  {
    assert forall i | 0 <= i < |m.components| :: m.components[i] in m.components;
    CollectedSomething(m.components, DAEMONSCALER);
  }

  // ---------------------------------------------------------------- daemonscaler labels

  /** Every link-typed trait carries the properties of a link, as a well-formed manifest has it. */
  predicate LinksAreLinks(m: Manifest) {
    forall c, t | c in m.components && c.traits.Some? && t in c.traits.value ::
      t.traitType == LINK ==> t.properties.Link?
  }

  /** Some daemonscaler of some http server requires key = value. */
  ghost predicate DaemonscalerRequires(m: Manifest, key: string, value: string) {
    exists i, j, n :: DaemonscalerRequiresAt(m, i, j, n, key, value)
  }

  predicate DaemonscalerRequiresAt(m: Manifest, i: int, j: int, n: int, key: string, value: string) {
    && 0 <= i < |m.components| && IsHttpServer(m.components[i]) && m.components[i].traits.Some?
    && var traits := m.components[i].traits.value;
    && 0 <= j < |traits| && traits[j].traitType == "daemonscaler" && traits[j].properties.SpreadScaler?
    && var spread := traits[j].properties.spread;
    && 0 <= n < |spread| && key in spread[n] && spread[n][key] == value
  }

  /** What daemonscalers require is what the service selects hosts by. */
  ghost predicate DaemonscalersHonoured(m: Manifest, labels: Option<map<string, string>>) {
    forall key, value | DaemonscalerRequires(m, key, value) :: LabelAt(labels, key) == Some(value)
  }

  /** At the last place where the first link-typed trait of a server requires the key, it requires the value. */
  ghost predicate RequiredLast(m: Manifest, key: string, value: string) {
    exists i, t, j :: IsLastRequirement(m.components, i, t, j, key, value)
  }

  /**
   What daemonscalers require reaches the service exactly when all of it is also what the first
   link-typed traits require last. The README promises it always.
   */
  lemma DaemonscalersHonouredIff(m: Manifest)
    requires HttpServerOf(m).Some?
    ensures DaemonscalersHonoured(m, HttpServerOf(m).value.labels)
       <==> forall key, value | DaemonscalerRequires(m, key, value) :: RequiredLast(m, key, value)
  {
    forall key, value
      ensures LabelAt(HttpServerOf(m).value.labels, key) == Some(value) <==> RequiredLast(m, key, value)
    {
      LabelIsRequiredLast(m, key, value);
    }
  }

  lemma LabelIsRequiredLast(m: Manifest, key: string, value: string)
    requires HttpServerOf(m).Some?
    ensures LabelAt(HttpServerOf(m).value.labels, key) == Some(value) <==> RequiredLast(m, key, value)
  {
    ExtractionMeetsSpec(m);
    var found := LabelAt(HttpServerOf(m).value.labels, key);
    assert LabelSpec(m.components, key, found);
    if RequiredLast(m, key, value) {
      var i, t, j :| IsLastRequirement(m.components, i, t, j, key, value);
      assert found.Some?;
      var i', t', j' :| IsLastRequirement(m.components, i', t', j', key, found.value);
      assert i == i' && j == j';
      assert IsFirstTrait(m.components[i], LINK, t) && IsFirstTrait(m.components[i], LINK, t');
    }
  }

  /** Where links are links no label is collected, so a daemonscaler is honoured only if it requires none. */
  lemma DaemonscalerLabelsAreIgnored(m: Manifest)
    requires LinksAreLinks(m) && HttpServerOf(m).Some?
    ensures HttpServerOf(m).value.labels == None
    ensures DaemonscalersHonoured(m, HttpServerOf(m).value.labels)
       <==> forall key, value :: !DaemonscalerRequires(m, key, value)
  {
    DaemonscalersHonouredIff(m);
    ExtractionMeetsSpec(m);
    var labels := HttpServerOf(m).value.labels;
    forall key, value ensures !RequiredLast(m, key, value) {
      forall i, t, j ensures !Requires(m.components, i, t, j, key, value) {
        if 0 <= i < |m.components| && IsFirstTrait(m.components[i], LINK, t) {
          assert m.components[i].traits.value[t] in m.components[i].traits.value;
        }
      }
    }
    forall key ensures LabelAt(labels, key) == None {
      if LabelAt(labels, key).Some? {
        LabelIsRequiredLast(m, key, LabelAt(labels, key).value);
      }
    }
    SomeLabel(labels);
  }

  lemma SomeLabel(labels: Option<map<string, string>>)
    requires labels != Some(map[])
    ensures labels.Some? ==> exists key :: LabelAt(labels, key).Some?
  {
    if labels.Some? {
      var key :| key in labels.value;
      assert LabelAt(labels, key).Some?;
    }
  }

  /** A manifest that asks, on its daemonscaler, for hosts with a label. */
  function LabelledManifest(key: string, value: string, address: string): Manifest {
    var config := ConfigProperty("default-http", Some(map[ADDRESS := address]));
    var link := Trait(LINK, Link(LinkProps("wasi", "http", ["incoming-handler"], Some([config]))));
    var scaler := Trait(DAEMONSCALER, SpreadScaler([map[key := value]]));
    Manifest("hello", [Component("httpserver", Capability(HTTP_SERVER_IMAGE), Some([link, scaler]))])
  }

  /** It gets a service, and the service is for all hosts. */
  lemma LabelledManifestSelectsAllHosts(key: string, value: string, address: string)
    ensures DaemonscalerRequires(LabelledManifest(key, value, address), key, value)
    ensures HttpServerOf(LabelledManifest(key, value, address)) == Some(HttpServer(None, address))
  {
    var m := LabelledManifest(key, value, address);
    var server := m.components[0];
    var link, scaler := server.traits.value[0], server.traits.value[1];
    assert DaemonscalerRequiresAt(m, 0, 1, 0, key, value);
    assert LINK != DAEMONSCALER by {
      assert |LINK| != |DAEMONSCALER|;
    }
    OneServer(server, link, scaler);
    assert [link][..0] == [];
    assert VisitTraits([link]) == VisitTrait(Found(None, None), link);
    var configs := link.properties.link.source.value;
    assert configs[..0] == [];
    assert VisitConfigs(None, configs) == Some(address);
  }

  lemma OneServer(server: Component, link: Trait, scaler: Trait)
    requires IsHttpServer(server) && server.traits == Some([link, scaler])
    requires link.traitType == LINK && scaler.traitType == DAEMONSCALER && LINK != DAEMONSCALER
    ensures Collected([server], LINK) == [link]
    ensures Collected([server], DAEMONSCALER) == [scaler]
  {
    assert [server][..0] == [];
    assert [link, scaler][1..] == [scaler];
    assert FirstTrait([link, scaler], LINK) == Some(link);
    assert FirstTrait([link, scaler], DAEMONSCALER) == Some(scaler);
  }
}
