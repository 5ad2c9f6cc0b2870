/**
 The volumes, mounts and certificate arguments of the host pods: what pod_template wires together
 from a host configuration and the keys it discovers in secrets and config maps.
 */
module PodTemplates {
  import opened Wrappers
  import opened HostConfigs

  const NATS_CONFIG := "nats-config"
  const NATS_CREDS := "nats-creds"
  const CA_PREFIX := "ca-"
  const CERTIFICATES_PATH := "/wasmcloud/certificates/"
  const TLS_CA_PATH := "--tls-ca-path"
  const CRT := ".crt"

  datatype Mount = Mount(name: string, path: string)

  /** The keys of a secret or config map by name; None if it cannot be read. */
  datatype Discovery = Discovery(secrets: string -> Option<seq<string>>, configMaps: string -> Option<seq<string>>)

  datatype CertificateError =
    | NoSource(authority: string)
    | NoSecretName(authority: string)
    | NoConfigMapName(authority: string)
    | Unreadable(name: string)

  datatype Wiring = Wiring(volumes: seq<Volume>, mounts: seq<Mount>, args: seq<string>)

  datatype Template = Template(
    volumes: seq<Volume>,
    natsMounts: seq<Mount>,
    hostMounts: seq<Mount>,
    hostArgs: seq<string>)

  predicate EndsWith(s: string, suffix: string) {
    |s| >= |suffix| && s[|s| - |suffix|..] == suffix
  }

  /** The certificate keys, in order. */
  function Certificates(keys: seq<string>): seq<string> {
    if keys == [] then []
    else Certificates(keys[..|keys| - 1]) + (if EndsWith(keys[|keys| - 1], CRT) then [keys[|keys| - 1]] else [])
  }

  function VolumeName(a: Authority): string {
    CA_PREFIX + a.name
  }

  function MountPath(a: Authority): string {
    CERTIFICATES_PATH + VolumeName(a)
  }

  /** A certificate file under a mount. */
  datatype CaFile = CaFile(mount: Mount, item: string)

  function Files(m: Mount, items: seq<string>): seq<CaFile> {
    if items == [] then [] else Files(m, items[..|items| - 1]) + [CaFile(m, items[|items| - 1])]
  }

  /** The arguments that make the host trust some certificate files: a pair for each of them. */
  function CaArgs(files: seq<CaFile>): seq<string> {
    if files == [] then []
    else
      var last := files[|files| - 1];
      CaArgs(files[..|files| - 1]) + [TLS_CA_PATH, last.mount.path + "/" + last.item]
  }

  /** What one authority adds: volumes, at most one mount, and the certificates under it. */
  datatype Contribution = Contribution(volumes: seq<Volume>, mounted: bool, items: seq<string>)

  const NOTHING := Contribution([], false, [])

  /** The certificates of one source, or why there are none to be had. */
  function Discover(keys: string -> Option<seq<string>>, name: Option<string>, missing: CertificateError)
    : Result<seq<string>, CertificateError>
  {
    match name
    case None => Err(missing)
    case Some(n) =>
      match keys(n)
      case None => Err(Unreadable(n))
      case Some(found) => Ok(Certificates(found))
  }

  function FromConfigMapSource(d: Discovery, a: Authority, secretVolumes: seq<Volume>, items: seq<string>)
    : Result<Contribution, CertificateError>
  {
    match a.configMap
    case None => Ok(Contribution(secretVolumes, true, items))
    case Some(ref) =>
      match Discover(d.configMaps, ref, NoConfigMapName(a.name))
      case Err(e) => Err(e)
      case Ok(found) =>
        if found == [] then Ok(Contribution(secretVolumes, false, []))
        else Ok(Contribution(secretVolumes + [Volume(VolumeName(a), FromConfigMap(ref.value))], true, found))
  }

  /** One turn of the certificate loop. */
  function Contribute(d: Discovery, a: Authority): Result<Contribution, CertificateError> {
    if a.secret.None? && a.configMap.None? then Err(NoSource(a.name))
    else match a.secret
      case None => FromConfigMapSource(d, a, [], [])
      case Some(ref) =>
        match Discover(d.secrets, ref, NoSecretName(a.name))
        case Err(e) => Err(e)
        case Ok(found) =>
          if found == [] then Ok(NOTHING)
          else FromConfigMapSource(d, a, [Volume(VolumeName(a), FromSecret(ref.value))], found)
  }

  function MountOf(a: Authority): Mount {
    Mount(VolumeName(a), MountPath(a))
  }

  function MountsOf(a: Authority, c: Contribution): seq<Mount> {
    if c.mounted then [MountOf(a)] else []
  }

  function FilesOf(a: Authority, c: Contribution): seq<CaFile> {
    if c.mounted then Files(MountOf(a), c.items) else []
  }

  function Add(w: Wiring, a: Authority, c: Contribution): Wiring {
    Wiring(w.volumes + c.volumes, w.mounts + MountsOf(a, c), w.args + CaArgs(FilesOf(a, c)))
  }

  /** The certificate loop; the first authority that fails ends it. */
  function Wire(d: Discovery, w: Wiring, authorities: seq<Authority>): Result<Wiring, CertificateError>
    decreases |authorities|
  {
    if authorities == [] then Ok(w)
    else match Contribute(d, authorities[0])
      case Err(e) => Err(e)
      case Ok(c) => Wire(d, Add(w, authorities[0], c), authorities[1..])
  }

  function Authorities(cfg: HostConfig): seq<Authority> {
    match cfg.authorities
    case None => []
    case Some(authorities) => authorities
  }

  function CredsVolumes(cfg: HostConfig): seq<Volume> {
    match cfg.secretName
    case None => []
    case Some(name) => [Volume(NATS_CREDS, FromSecret(name))]
  }

  function ExtraVolumes(cfg: HostConfig): seq<Volume> {
    match cfg.podAdditions
    case Some(Some(volumes)) => volumes
    case _ => []
  }

  function NatsMounts(cfg: HostConfig): seq<Mount> {
    [Mount(NATS_CONFIG, "/nats/nats.conf")]
    + (if cfg.secretName.Some? then [Mount(NATS_CREDS, "/nats/nats.creds")] else [])
  }

  /** Volumes, mounts and arguments in front of the certificate loop. */
  function WiringBefore(cfg: HostConfig, args: seq<string>): Wiring {
    Wiring([Volume(NATS_CONFIG, FromConfigMap(cfg.NameAny()))], [], args)
  }

  /** pod_template, as far as volumes, mounts and certificate arguments go; args are the ones before them. */
  function PodTemplate(d: Discovery, cfg: HostConfig, args: seq<string>): Result<Template, CertificateError> {
    match Wire(d, WiringBefore(cfg, args), Authorities(cfg))
    case Err(e) => Err(e)
    case Ok(w) => Ok(Template(w.volumes + CredsVolumes(cfg) + ExtraVolumes(cfg), NatsMounts(cfg), w.mounts, w.args))
  }

  // ---------------------------------------------------------------- the loops

  method FilterCertificates(keys: seq<string>) returns (certs: seq<string>)
    ensures certs == Certificates(keys)
  {
    certs := [];
    for i := 0 to |keys|
      invariant certs == Certificates(keys[..i])
    {
      assert keys[..i + 1][..i] == keys[..i];
      if EndsWith(keys[i], CRT) {
        certs := certs + [keys[i]];
      }
    }
    assert keys[..|keys|] == keys;
  }

  method DiscoverCertificates(keys: Option<seq<string>>, name: string)
    returns (certs: Result<seq<string>, CertificateError>)
    ensures certs == Discover(_ => keys, Some(name), Unreadable(name))
    ensures certs.Ok? ==> forall c :: c in certs.value <==> c in keys.value && EndsWith(c, CRT)
  {
    if keys.None? {
      return Err(Unreadable(name));
    }
    var found := FilterCertificates(keys.value);
    CertificatesAreCrt(keys.value);
    return Ok(found);
  }

  /** The positions of the first n keys that end in .crt. */
  function CertificatePositions(keys: seq<string>, n: nat): (at: seq<nat>)
    requires n <= |keys|
    ensures forall i :: i in at <==> 0 <= i < n && EndsWith(keys[i], CRT)
    ensures forall i, j | 0 <= i < j < |at| :: at[i] < at[j]
  {
    if n == 0 then []
    else
      var before := CertificatePositions(keys, n - 1);
      assert forall i | 0 <= i < |before| :: before[i] in before;
      if EndsWith(keys[n - 1], CRT) then before + [n - 1] else before
  }

  /**
   Which certificates are found: those at the positions of the keys that end in .crt, no more and no
   fewer, in the order of the keys.
   */
  lemma {:induction false} CertificatesByPosition(keys: seq<string>, n: nat)
    requires n <= |keys|
    ensures var at := CertificatePositions(keys, n);
            && |Certificates(keys[..n])| == |at|
            && forall i | 0 <= i < |at| :: at[i] in at && Certificates(keys[..n])[i] == keys[at[i]]
  {
    if n > 0 {
      CertificatesByPosition(keys, n - 1);
      assert keys[..n][..n - 1] == keys[..n - 1];
    }
  }

  lemma Assoc<T>(a: seq<T>, b: seq<T>, c: seq<T>)
    ensures (a + b) + c == a + (b + c)
  {
  }

  lemma AddUnmounted(w: Wiring, a: Authority, volumes: seq<Volume>)
    ensures Add(w, a, Contribution(volumes, false, [])) == w.(volumes := w.volumes + volumes)
    ensures volumes == [] ==> Add(w, a, Contribution(volumes, false, [])) == w
  {
  }

  /** The certificate loop of pod_template, with its early returns and its continue. */
  method WireCertificates(d: Discovery, start: Wiring, authorities: seq<Authority>)
    returns (wired: Result<Wiring, CertificateError>)
    ensures wired == Wire(d, start, authorities)
  {
    var volumes, mounts, args := start.volumes, start.mounts, start.args;
    for n := 0 to |authorities|
      invariant Wire(d, start, authorities) == Wire(d, Wiring(volumes, mounts, args), authorities[n..])
    {
      var a := authorities[n];
      assert authorities[n..][0] == a && authorities[n..][1..] == authorities[n + 1..];
      ghost var before := Wiring(volumes, mounts, args);
      var items: seq<string> := [];
      if a.secret.None? && a.configMap.None? {
        return Err(NoSource(a.name));
      }
      if a.secret.Some? {
        if a.secret.value.None? {
          return Err(NoSecretName(a.name));
        }
        var name := a.secret.value.value;
        var found := DiscoverCertificates(d.secrets(name), name);
        if found.Err? {
          return Err(found.error);
        }
        items := found.value;
        if items == [] {
          AddUnmounted(before, a, []);
          continue;
        }
        volumes := volumes + [Volume(VolumeName(a), FromSecret(name))];
      }
      ghost var fromSecret := if a.secret.Some? then [Volume(VolumeName(a), FromSecret(a.secret.value.value))] else [];
      assert volumes == before.volumes + fromSecret;
      if a.configMap.Some? {
        if a.configMap.value.None? {
          return Err(NoConfigMapName(a.name));
        }
        var name := a.configMap.value.value;
        var found := DiscoverCertificates(d.configMaps(name), name);
        if found.Err? {
          return Err(found.error);
        }
        items := found.value;
        if items == [] {
          AddUnmounted(before, a, fromSecret);
          continue;
        }
        volumes := volumes + [Volume(VolumeName(a), FromConfigMap(name))];
        Assoc(before.volumes, fromSecret, [Volume(VolumeName(a), FromConfigMap(name))]);
      }
      mounts := mounts + [Mount(VolumeName(a), MountPath(a))];
      args := AppendCaArgs(args, MountOf(a), items);
    }
    return Ok(Wiring(volumes, mounts, args));
  }

  method AppendCaArgs(start: seq<string>, m: Mount, items: seq<string>) returns (args: seq<string>)
    ensures args == start + CaArgs(Files(m, items))
  {
    args := start;
    for i := 0 to |items|
      invariant args == start + CaArgs(Files(m, items[..i]))
    {
      assert items[..i + 1][..i] == items[..i];
      ghost var before := Files(m, items[..i]);
      assert (before + [CaFile(m, items[i])])[..|before|] == before;
      args := args + [TLS_CA_PATH];
      args := args + [m.path + "/" + items[i]];
    }
    assert items[..|items|] == items;
  }

  method BuildPodTemplate(d: Discovery, cfg: HostConfig, args: seq<string>)
    returns (template: Result<Template, CertificateError>)
    ensures template == PodTemplate(d, cfg, args)
  {
    var volumes := [Volume(NATS_CONFIG, FromConfigMap(cfg.NameAny()))];
    var natsMounts := [Mount(NATS_CONFIG, "/nats/nats.conf")];
    var authorities := match cfg.authorities case None => [] case Some(list) => list;
    var wired := WireCertificates(d, Wiring(volumes, [], args), authorities);
    if wired.Err? {
      return Err(wired.error);
    }
    volumes := wired.value.volumes;
    ghost var w := wired.value;
    if cfg.secretName.Some? {
      volumes := volumes + [Volume(NATS_CREDS, FromSecret(cfg.secretName.value))];
      natsMounts := natsMounts + [Mount(NATS_CREDS, "/nats/nats.creds")];
    }
    assert volumes == w.volumes + CredsVolumes(cfg) && natsMounts == NatsMounts(cfg);
    if cfg.podAdditions.Some? {
      if cfg.podAdditions.value.Some? {
        volumes := volumes + cfg.podAdditions.value.value;
      }
    }
    assert volumes == w.volumes + CredsVolumes(cfg) + ExtraVolumes(cfg);
    return Ok(Template(volumes, natsMounts, wired.value.mounts, wired.value.args));
  }

  // ---------------------------------------------------------------- when it fails

  /** The source cannot be used: it has no name or cannot be read. */
  predicate BadSource(keys: string -> Option<seq<string>>, source: Option<Option<string>>) {
    source.Some? && (source.value.None? || keys(source.value.value).None?)
  }

  /** The source can be read and has certificates. */
  predicate HasCertificates(keys: string -> Option<seq<string>>, source: Option<Option<string>>) {
    && source.Some? && source.value.Some? && keys(source.value.value).Some?
    && exists i :: 0 <= i < |keys(source.value.value).value| && EndsWith(keys(source.value.value).value[i], CRT)
  }

  /** The authority makes the template fail. A config map is not looked at behind a secret without certificates. */
  predicate Fails(d: Discovery, a: Authority) {
    || (a.secret.None? && a.configMap.None?)
    || BadSource(d.secrets, a.secret)
    || ((a.secret.None? || HasCertificates(d.secrets, a.secret)) && BadSource(d.configMaps, a.configMap))
  }

  lemma {:induction false} CertificatesAreCrt(keys: seq<string>)
    ensures forall c :: c in Certificates(keys) <==> c in keys && EndsWith(c, CRT)
  {
    if keys != [] {
      var n := |keys| - 1;
      CertificatesAreCrt(keys[..n]);
      assert keys == keys[..n] + [keys[n]];
    }
  }

  lemma SomeCertificate(keys: seq<string>)
    ensures Certificates(keys) != [] <==> exists i :: 0 <= i < |keys| && EndsWith(keys[i], CRT)
  {
    CertificatesAreCrt(keys);
    if Certificates(keys) != [] {
      assert Certificates(keys)[0] in Certificates(keys);
    }
    forall i | 0 <= i < |keys| && EndsWith(keys[i], CRT) ensures Certificates(keys) != [] {
      assert keys[i] in Certificates(keys);
    }
  }

  /** What an authority contributes, in terms of its two sources. */
  lemma ContributionFacts(d: Discovery, a: Authority)
    ensures Contribute(d, a).Err? <==> Fails(d, a)
    ensures Contribute(d, a).Ok? ==>
              var c := Contribute(d, a).value;
              var secret, configMap := HasCertificates(d.secrets, a.secret), HasCertificates(d.configMaps, a.configMap);
              && (forall v | v in c.volumes :: v.name == VolumeName(a))
              && |c.volumes| == (if secret then 1 else 0) + (if configMap && (a.secret.None? || secret) then 1 else 0)
              && (c.mounted <==> (a.secret.None? || secret) && (a.configMap.None? || configMap))
              && (c.mounted ==> c.volumes != [] && c.items != [])
              && (c.volumes != [] <==> AddsVolume(d, a))
              && (forall item | item in c.items :: EndsWith(item, CRT))
  {
    if a.secret.Some? && a.secret.value.Some? && d.secrets(a.secret.value.value).Some? {
      SomeCertificate(d.secrets(a.secret.value.value).value);
      CertificatesAreCrt(d.secrets(a.secret.value.value).value);
    }
    if a.configMap.Some? && a.configMap.value.Some? && d.configMaps(a.configMap.value.value).Some? {
      SomeCertificate(d.configMaps(a.configMap.value.value).value);
      CertificatesAreCrt(d.configMaps(a.configMap.value.value).value);
    }
  }

  /** The template fails exactly if some authority does, with the error of the first. */
  lemma {:induction false} WireFailsIff(d: Discovery, w: Wiring, authorities: seq<Authority>)
    ensures Wire(d, w, authorities).Err? <==> exists i :: 0 <= i < |authorities| && Fails(d, authorities[i])
    ensures Wire(d, w, authorities).Err? ==>
              exists i :: && 0 <= i < |authorities| && Fails(d, authorities[i])
                          && (forall j | 0 <= j < i :: !Fails(d, authorities[j]))
                          && Contribute(d, authorities[i]) == Err(Wire(d, w, authorities).error)
    decreases |authorities|
  {
    if authorities != [] {
      var first, rest := authorities[0], authorities[1..];
      ContributionFacts(d, first);
      if Contribute(d, first).Ok? {
        var w' := Add(w, first, Contribute(d, first).value);
        WireFailsIff(d, w', rest);
        assert forall i | 0 < i < |authorities| :: authorities[i] == rest[i - 1];
        if Wire(d, w', rest).Err? {
          var i :| && 0 <= i < |rest| && Fails(d, rest[i])
                   && (forall j | 0 <= j < i :: !Fails(d, rest[j]))
                   && Contribute(d, rest[i]) == Err(Wire(d, w', rest).error);
          assert Fails(d, authorities[i + 1]);
        }
      }
    }
  }

  // ---------------------------------------------------------------- what a success holds

  /** None of the authorities makes the template fail. */
  ghost predicate NoneFails(d: Discovery, authorities: seq<Authority>) {
    forall i | 0 <= i < |authorities| :: Contribute(d, authorities[i]).Ok?
  }

  function CaVolumes(d: Discovery, authorities: seq<Authority>): seq<Volume>
    requires NoneFails(d, authorities)
  {
    if authorities == [] then []
    else Contribute(d, authorities[0]).value.volumes + CaVolumes(d, authorities[1..])
  }

  function CaMounts(d: Discovery, authorities: seq<Authority>): seq<Mount>
    requires NoneFails(d, authorities)
  {
    if authorities == [] then []
    else MountsOf(authorities[0], Contribute(d, authorities[0]).value) + CaMounts(d, authorities[1..])
  }

  function CaFiles(d: Discovery, authorities: seq<Authority>): seq<CaFile>
    requires NoneFails(d, authorities)
  {
    if authorities == [] then []
    else FilesOf(authorities[0], Contribute(d, authorities[0]).value) + CaFiles(d, authorities[1..])
  }

  lemma {:induction false} CaArgsConcat(a: seq<CaFile>, b: seq<CaFile>)
    ensures CaArgs(a + b) == CaArgs(a) + CaArgs(b)
  {
    if b == [] {
      assert a + b == a;
    } else {
      var n := |b| - 1;
      assert (a + b)[..|a + b| - 1] == a + b[..n];
      CaArgsConcat(a, b[..n]);
    }
  }

  /** The loop concatenates what the authorities contribute. */
  lemma {:induction false} WireSucceeds(d: Discovery, w: Wiring, authorities: seq<Authority>)
    requires Wire(d, w, authorities).Ok?
    ensures NoneFails(d, authorities)
    ensures Wire(d, w, authorities).value
         == Wiring(w.volumes + CaVolumes(d, authorities), w.mounts + CaMounts(d, authorities),
                   w.args + CaArgs(CaFiles(d, authorities)))
    decreases |authorities|
  {
    if authorities != [] {
      var first, rest := authorities[0], authorities[1..];
      var c := Contribute(d, first).value;
      WireSucceeds(d, Add(w, first, c), rest);
      assert forall i | 0 < i < |authorities| :: authorities[i] == rest[i - 1];
      Assoc(w.volumes, c.volumes, CaVolumes(d, rest));
      Assoc(w.mounts, MountsOf(first, c), CaMounts(d, rest));
      CaArgsConcat(FilesOf(first, c), CaFiles(d, rest));
      Assoc(w.args, CaArgs(FilesOf(first, c)), CaArgs(CaFiles(d, rest)));
    }
  }

  lemma {:induction false} FilesAt(m: Mount, items: seq<string>)
    ensures forall f :: f in Files(m, items) <==> f.mount == m && f.item in items
  {
    if items != [] {
      var n := |items| - 1;
      FilesAt(m, items[..n]);
      assert items == items[..n] + [items[n]];
    }
  }

  /** Each certificate file lies under a certificate mount, and each such mount has one. */
  ghost predicate FilesFitMounts(files: seq<CaFile>, mounts: seq<Mount>) {
    && (forall f | f in files :: f.mount in mounts && EndsWith(f.item, CRT))
    && forall m | m in mounts :: exists f :: f in files && f.mount == m
  }

  lemma {:induction false} AllFilesFit(d: Discovery, authorities: seq<Authority>)
    requires NoneFails(d, authorities)
    ensures FilesFitMounts(CaFiles(d, authorities), CaMounts(d, authorities))
  {
    if authorities != [] {
      var first, rest := authorities[0], authorities[1..];
      var c := Contribute(d, first).value;
      AllFilesFit(d, rest);
      ContributionFacts(d, first);
      FilesAt(MountOf(first), c.items);
      if c.mounted {
        assert c.items[0] in c.items;
        assert CaFile(MountOf(first), c.items[0]) in CaFiles(d, authorities);
      }
      forall m | m in CaMounts(d, rest) ensures exists f :: f in CaFiles(d, authorities) && f.mount == m {
        var f :| f in CaFiles(d, rest) && f.mount == m;
        assert f in CaFiles(d, authorities);
      }
    }
  }

  ghost predicate NamesAVolume(m: Mount, volumes: seq<Volume>) {
    exists v :: v in volumes && v.name == m.name
  }

  lemma {:induction false} MountsNameVolumes(d: Discovery, authorities: seq<Authority>)
    requires NoneFails(d, authorities)
    ensures forall m | m in CaMounts(d, authorities) :: NamesAVolume(m, CaVolumes(d, authorities))
  {
    if authorities != [] {
      var first, rest := authorities[0], authorities[1..];
      var c := Contribute(d, first).value;
      ContributionFacts(d, first);
      MountsNameVolumes(d, rest);
      forall m | m in CaMounts(d, authorities) ensures NamesAVolume(m, CaVolumes(d, authorities)) {
        if m in CaMounts(d, rest) {
          var v :| v in CaVolumes(d, rest) && v.name == m.name;
          assert v in CaVolumes(d, authorities);
        } else {
          assert c.volumes[0] in c.volumes;
          assert c.volumes[0] in CaVolumes(d, authorities);
        }
      }
    }
  }

  /** The volumes of the pod other than those of the overrides. */
  function GeneratedVolumes(d: Discovery, cfg: HostConfig): seq<Volume>
    requires NoneFails(d, Authorities(cfg))
  {
    [Volume(NATS_CONFIG, FromConfigMap(cfg.NameAny()))] + CaVolumes(d, Authorities(cfg)) + CredsVolumes(cfg)
  }

  /** What a successful template consists of. */
  lemma TemplateParts(d: Discovery, cfg: HostConfig, args: seq<string>)
    requires PodTemplate(d, cfg, args).Ok?
    ensures NoneFails(d, Authorities(cfg))
    ensures var t := PodTemplate(d, cfg, args).value;
            && t.volumes == GeneratedVolumes(d, cfg) + ExtraVolumes(cfg)
            && t.natsMounts == NatsMounts(cfg) && t.hostMounts == CaMounts(d, Authorities(cfg))
            && t.hostArgs == args + CaArgs(CaFiles(d, Authorities(cfg)))
  {
    WireSucceeds(d, WiringBefore(cfg, args), Authorities(cfg));
    NothingBefore(CaMounts(d, Authorities(cfg)));
  }

  lemma NothingBefore<T>(a: seq<T>)
    ensures [] + a == a
  {
  }

  /**
   Certificate wiring. Whenever the template comes about, every mount of either container names a
   volume of the pod, the arguments before it are kept, and behind them come exactly the pairs of
   option and path for a list of certificate files, each under a certificate mount and at least one
   for each such mount.
   */
  lemma CertificateWiring(d: Discovery, cfg: HostConfig, args: seq<string>) returns (files: seq<CaFile>)
    requires PodTemplate(d, cfg, args).Ok?
    ensures var t := PodTemplate(d, cfg, args).value;
            && (forall m | m in t.natsMounts || m in t.hostMounts :: NamesAVolume(m, t.volumes))
            && t.hostArgs == args + CaArgs(files)
            && FilesFitMounts(files, t.hostMounts)
  {
    var authorities := Authorities(cfg);
    var config := Volume(NATS_CONFIG, FromConfigMap(cfg.NameAny()));
    TemplateParts(d, cfg, args);
    AllFilesFit(d, authorities);
    MountsNameVolumes(d, authorities);
    var t := PodTemplate(d, cfg, args).value;
    files := CaFiles(d, authorities);
    forall m | m in t.natsMounts || m in t.hostMounts ensures NamesAVolume(m, t.volumes) {
      if m in t.hostMounts {
        var v :| v in CaVolumes(d, authorities) && v.name == m.name;
        assert v in t.volumes;
      } else if m.name == NATS_CONFIG {
        assert config in t.volumes;
      } else {
        assert CredsVolumes(cfg)[0] in t.volumes;
      }
    }
  }

  // ---------------------------------------------------------------- unique volume names

  /** The names of a sequence of volumes are pairwise different. */
  predicate DistinctNames(volumes: seq<Volume>) {
    forall i, j | 0 <= i < j < |volumes| :: volumes[i].name != volumes[j].name
  }

  predicate NoCommonName(a: seq<Volume>, b: seq<Volume>) {
    forall v, v' | v in a && v' in b :: v.name != v'.name
  }

  lemma DistinctConcat(a: seq<Volume>, b: seq<Volume>)
    ensures DistinctNames(a + b) <==> DistinctNames(a) && DistinctNames(b) && NoCommonName(a, b)
  {
    var all := a + b;
    if DistinctNames(all) {
      forall i, j | 0 <= i < j < |a| ensures a[i].name != a[j].name {
        assert all[i] == a[i] && all[j] == a[j];
      }
      forall i, j | 0 <= i < j < |b| ensures b[i].name != b[j].name {
        assert all[|a| + i] == b[i] && all[|a| + j] == b[j];
      }
      forall v, v' | v in a && v' in b ensures v.name != v'.name {
        var i :| 0 <= i < |a| && a[i] == v;
        var j :| 0 <= j < |b| && b[j] == v';
        assert all[i] == v && all[|a| + j] == v';
      }
    }
    if DistinctNames(a) && DistinctNames(b) && NoCommonName(a, b) {
      forall i, j | 0 <= i < j < |all| ensures all[i].name != all[j].name {
        if i < |a| && j >= |a| {
          assert a[i] in a && b[j - |a|] in b;
        }
      }
    }
  }

  /** The authority has certificates in both a secret and a config map, and so adds two volumes of one name. */
  predicate TwoSources(d: Discovery, a: Authority) {
    HasCertificates(d.secrets, a.secret) && HasCertificates(d.configMaps, a.configMap)
  }

  /** The authority adds a volume. */
  predicate AddsVolume(d: Discovery, a: Authority) {
    HasCertificates(d.secrets, a.secret) || (a.secret.None? && HasCertificates(d.configMaps, a.configMap))
  }

  /** No authority has certificates in two sources, and no two that add volumes share their name. */
  ghost predicate AuthoritiesApart(d: Discovery, authorities: seq<Authority>) {
    && (forall i | 0 <= i < |authorities| :: !TwoSources(d, authorities[i]))
    && forall i, j | 0 <= i < j < |authorities| ::
         AddsVolume(d, authorities[i]) && AddsVolume(d, authorities[j]) ==> authorities[i].name != authorities[j].name
  }

  lemma VolumeNamesDiffer(a: Authority, b: Authority)
    ensures VolumeName(a) == VolumeName(b) <==> a.name == b.name
    ensures VolumeName(a) != NATS_CONFIG && VolumeName(a) != NATS_CREDS
  {
    assert VolumeName(a)[|CA_PREFIX|..] == a.name && VolumeName(b)[|CA_PREFIX|..] == b.name;
    assert VolumeName(a)[0] == 'c' && NATS_CONFIG[0] == 'n' && NATS_CREDS[0] == 'n';
  }

  /** The authority at i gave rise to a volume of that name. */
  predicate GivesName(d: Discovery, authorities: seq<Authority>, i: int, name: string) {
    0 <= i < |authorities| && AddsVolume(d, authorities[i]) && VolumeName(authorities[i]) == name
  }

  ghost predicate HasName(volumes: seq<Volume>, name: string) {
    exists v :: v in volumes && v.name == name
  }

  lemma {:induction false} CaVolumeNames(d: Discovery, authorities: seq<Authority>, name: string)
    requires NoneFails(d, authorities)
    ensures HasName(CaVolumes(d, authorities), name) <==> exists i :: GivesName(d, authorities, i, name)
  {
    if authorities != [] {
      var first, rest := authorities[0], authorities[1..];
      var c := Contribute(d, first).value;
      ContributionFacts(d, first);
      CaVolumeNames(d, rest, name);
      if HasName(CaVolumes(d, authorities), name) {
        var v :| v in CaVolumes(d, authorities) && v.name == name;
        if v in c.volumes {
          assert GivesName(d, authorities, 0, name);
        } else {
          assert v in CaVolumes(d, rest);
          var i :| GivesName(d, rest, i, name);
          assert GivesName(d, authorities, i + 1, name);
        }
      }
      if exists i :: GivesName(d, authorities, i, name) {
        var i :| GivesName(d, authorities, i, name);
        if i == 0 {
          assert c.volumes[0] in c.volumes && c.volumes[0] in CaVolumes(d, authorities);
        } else {
          assert GivesName(d, rest, i - 1, name);
          var v :| v in CaVolumes(d, rest) && v.name == name;
          assert v in CaVolumes(d, authorities);
        }
      }
    }
  }

  lemma ContributedDistinct(d: Discovery, a: Authority)
    requires Contribute(d, a).Ok?
    ensures DistinctNames(Contribute(d, a).value.volumes) <==> !TwoSources(d, a)
  {
    ContributionFacts(d, a);
    var volumes := Contribute(d, a).value.volumes;
    if |volumes| == 2 {
      assert volumes[0] in volumes && volumes[1] in volumes;
    }
  }

  lemma {:induction false} CaVolumesDistinct(d: Discovery, authorities: seq<Authority>)
    requires NoneFails(d, authorities)
    ensures DistinctNames(CaVolumes(d, authorities)) <==> AuthoritiesApart(d, authorities)
  {
    if authorities != [] {
      var first, rest := authorities[0], authorities[1..];
      var volumes := Contribute(d, first).value.volumes;
      assert forall i | 0 < i < |authorities| :: authorities[i] == rest[i - 1];
      CaVolumesDistinct(d, rest);
      ContributionFacts(d, first);
      ContributedDistinct(d, first);
      DistinctConcat(volumes, CaVolumes(d, rest));
      CaVolumeNames(d, rest, VolumeName(first));
      ApartStep(d, authorities);
      if AddsVolume(d, first) {
        assert volumes[0] in volumes;
        assert NoCommonName(volumes, CaVolumes(d, rest)) <==> !HasName(CaVolumes(d, rest), VolumeName(first));
      }
    }
  }

  lemma ApartStep(d: Discovery, authorities: seq<Authority>)
    requires authorities != []
    ensures var first, rest := authorities[0], authorities[1..];
            AuthoritiesApart(d, authorities)
            <==> && AuthoritiesApart(d, rest) && !TwoSources(d, first)
                 && (AddsVolume(d, first) ==> forall i :: !GivesName(d, rest, i, VolumeName(first)))
  {
    var first, rest := authorities[0], authorities[1..];
    forall i, j | 0 <= i < |authorities| && 0 <= j < |authorities|
      ensures VolumeName(authorities[i]) == VolumeName(authorities[j]) <==> authorities[i].name == authorities[j].name
    {
      VolumeNamesDiffer(authorities[i], authorities[j]);
    }
    if AuthoritiesApart(d, authorities) {
      forall i | 0 <= i < |rest| ensures !TwoSources(d, rest[i]) {
        assert rest[i] == authorities[i + 1];
      }
      forall i, j | 0 <= i < j < |rest| && AddsVolume(d, rest[i]) && AddsVolume(d, rest[j])
        ensures rest[i].name != rest[j].name
      {
        assert rest[i] == authorities[i + 1] && rest[j] == authorities[j + 1];
      }
      forall i | AddsVolume(d, first) ensures !GivesName(d, rest, i, VolumeName(first)) {
        assert 0 <= i < |rest| ==> rest[i] == authorities[i + 1];
      }
    }
    if AuthoritiesApart(d, rest) && !TwoSources(d, first)
       && (AddsVolume(d, first) ==> forall i :: !GivesName(d, rest, i, VolumeName(first))) {
      forall i | 0 <= i < |authorities| ensures !TwoSources(d, authorities[i]) {
        assert i > 0 ==> authorities[i] == rest[i - 1];
      }
      forall i, j | 0 <= i < j < |authorities| && AddsVolume(d, authorities[i]) && AddsVolume(d, authorities[j])
        ensures authorities[i].name != authorities[j].name
      {
        assert authorities[j] == rest[j - 1];
        if i == 0 {
          assert !GivesName(d, rest, j - 1, VolumeName(first));
        } else {
          assert authorities[i] == rest[i - 1];
        }
      }
    }
  }

  lemma GeneratedDistinct(d: Discovery, cfg: HostConfig)
    requires NoneFails(d, Authorities(cfg))
    ensures DistinctNames(GeneratedVolumes(d, cfg)) <==> AuthoritiesApart(d, Authorities(cfg))
  {
    var config := [Volume(NATS_CONFIG, FromConfigMap(cfg.NameAny()))];
    var ca, creds := CaVolumes(d, Authorities(cfg)), CredsVolumes(cfg);
    CaVolumesDistinct(d, Authorities(cfg));
    DistinctConcat(config, ca);
    DistinctConcat(config + ca, creds);
    forall v | v in ca ensures v.name != NATS_CONFIG && v.name != NATS_CREDS {
      assert HasName(ca, v.name);
      CaVolumeNames(d, Authorities(cfg), v.name);
      var i :| GivesName(d, Authorities(cfg), i, v.name);
      VolumeNamesDiffer(Authorities(cfg)[i], Authorities(cfg)[i]);
    }
    assert NATS_CONFIG != NATS_CREDS by {
      assert |NATS_CONFIG| != |NATS_CREDS|;
    }
  }

  /**
   The volume names of the pod are unique exactly if no authority has certificates in both of its
   sources, authorities that add volumes have different names, and the overrides add volumes whose
   names are different from each other and from the generated ones.
   */
  lemma VolumeNamesUniqueIff(d: Discovery, cfg: HostConfig, args: seq<string>)
    requires PodTemplate(d, cfg, args).Ok?
    ensures NoneFails(d, Authorities(cfg))
    ensures DistinctNames(PodTemplate(d, cfg, args).value.volumes)
       <==> && AuthoritiesApart(d, Authorities(cfg))
            && DistinctNames(ExtraVolumes(cfg))
            && NoCommonName(GeneratedVolumes(d, cfg), ExtraVolumes(cfg))
  {
    TemplateParts(d, cfg, args);
    GeneratedDistinct(d, cfg);
    DistinctConcat(GeneratedVolumes(d, cfg), ExtraVolumes(cfg));
  }

  /** Names that clash: an authority with certificates in both of its sources. */
  lemma ClashingVolumes(name: string, secret: string, configMap: string, args: seq<string>)
    returns (d: Discovery, cfg: HostConfig)
    ensures PodTemplate(d, cfg, args).Ok? && cfg.podAdditions.None?
    ensures !DistinctNames(PodTemplate(d, cfg, args).value.volumes)
  {
    var keys := (_: string) => Some(["root.crt"]);
    d, cfg := Discovery(keys, keys), OneAuthority(Authority(name, Some(Some(secret)), Some(Some(configMap))));
    assert EndsWith(["root.crt"][0], CRT);
    OneAuthorityWired(d, cfg, args);
    assert TwoSources(d, Authorities(cfg)[0]);
    VolumeNamesUniqueIff(d, cfg, args);
  }

  // ---------------------------------------------------------------- volumes nothing mounts

  /** The authority gives rise to a mount, if it does not fail. */
  predicate AddsMount(d: Discovery, a: Authority) {
    && (a.secret.None? || HasCertificates(d.secrets, a.secret))
    && (a.configMap.None? || HasCertificates(d.configMaps, a.configMap))
  }

  /** The authority gives rise to a volume, but its config map has no certificates and ends its turn. */
  predicate AddsVolumeAlone(d: Discovery, a: Authority) {
    && HasCertificates(d.secrets, a.secret)
    && a.configMap.Some? && !HasCertificates(d.configMaps, a.configMap)
  }

  /** The authority at i gave rise to a mount of that name. */
  predicate MountsName(d: Discovery, authorities: seq<Authority>, i: int, name: string) {
    0 <= i < |authorities| && AddsMount(d, authorities[i]) && VolumeName(authorities[i]) == name
  }

  /** The authority at i gave rise to a volume of that name without a mount of its own. */
  predicate LeavesAlone(d: Discovery, authorities: seq<Authority>, i: int, name: string) {
    0 <= i < |authorities| && AddsVolumeAlone(d, authorities[i]) && VolumeName(authorities[i]) == name
  }

  ghost predicate Mounted(mounts: seq<Mount>, name: string) {
    exists m :: m in mounts && m.name == name
  }

  lemma {:induction false} CaMountNames(d: Discovery, authorities: seq<Authority>, name: string)
    requires NoneFails(d, authorities)
    ensures Mounted(CaMounts(d, authorities), name) <==> exists i :: MountsName(d, authorities, i, name)
  {
    if authorities != [] {
      var first, rest := authorities[0], authorities[1..];
      var c := Contribute(d, first).value;
      ContributionFacts(d, first);
      CaMountNames(d, rest, name);
      if Mounted(CaMounts(d, authorities), name) {
        var m :| m in CaMounts(d, authorities) && m.name == name;
        if m in CaMounts(d, rest) {
          var i :| MountsName(d, rest, i, name);
          assert MountsName(d, authorities, i + 1, name);
        } else {
          assert MountsName(d, authorities, 0, name);
        }
      }
      if exists i :: MountsName(d, authorities, i, name) {
        var i :| MountsName(d, authorities, i, name);
        if i == 0 {
          assert MountOf(first) in CaMounts(d, authorities);
        } else {
          assert MountsName(d, rest, i - 1, name);
          var m :| m in CaMounts(d, rest) && m.name == name;
          assert m in CaMounts(d, authorities);
        }
      }
    }
  }

  /**
   A certificate volume of the pod has no mount of its name exactly if some authority of that name
   has certificates in its secret and a config map without any, and no authority of the same name
   gets its certificates mounted.
   */
  lemma UnmountedVolumeIff(d: Discovery, cfg: HostConfig, args: seq<string>, name: string)
    requires PodTemplate(d, cfg, args).Ok?
    ensures NoneFails(d, Authorities(cfg))
    ensures forall v | v in CaVolumes(d, Authorities(cfg)) :: v in PodTemplate(d, cfg, args).value.volumes
    ensures var t, authorities := PodTemplate(d, cfg, args).value, Authorities(cfg);
            HasName(CaVolumes(d, authorities), name) && !Mounted(t.natsMounts + t.hostMounts, name)
            <==> && (exists i :: LeavesAlone(d, authorities, i, name))
                 && (forall i :: !MountsName(d, authorities, i, name))
  {
    TemplateParts(d, cfg, args);
    UnmountedNames(d, Authorities(cfg), name);
    if HasName(CaVolumes(d, Authorities(cfg)), name) {
      NatsMountsApart(d, cfg, name);
      MountedEither(NatsMounts(cfg), CaMounts(d, Authorities(cfg)), name);
    }
  }

  lemma NatsMountsApart(d: Discovery, cfg: HostConfig, name: string)
    requires NoneFails(d, Authorities(cfg)) && HasName(CaVolumes(d, Authorities(cfg)), name)
    ensures forall m | m in NatsMounts(cfg) :: m.name != name
  {
    CaVolumeNames(d, Authorities(cfg), name);
    var i :| GivesName(d, Authorities(cfg), i, name);
    VolumeNamesDiffer(Authorities(cfg)[i], Authorities(cfg)[i]);
  }

  lemma MountedEither(a: seq<Mount>, b: seq<Mount>, name: string)
    requires forall m | m in a :: m.name != name
    ensures Mounted(a + b, name) <==> Mounted(b, name)
  {
    forall m | m in b && m.name == name ensures Mounted(a + b, name) {
      assert m in a + b;
    }
  }

  lemma UnmountedNames(d: Discovery, authorities: seq<Authority>, name: string)
    requires NoneFails(d, authorities)
    ensures HasName(CaVolumes(d, authorities), name) && !Mounted(CaMounts(d, authorities), name)
       <==> && (exists i :: LeavesAlone(d, authorities, i, name))
            && (forall i :: !MountsName(d, authorities, i, name))
  {
    CaVolumeNames(d, authorities, name);
    CaMountNames(d, authorities, name);
    if i :| GivesName(d, authorities, i, name) {
      assert !MountsName(d, authorities, i, name) ==> LeavesAlone(d, authorities, i, name);
    }
    if i :| LeavesAlone(d, authorities, i, name) {
      assert GivesName(d, authorities, i, name);
    }
  }

  function OneAuthority(a: Authority): HostConfig {
    UNNAMED.(authorities := Some([a]))
  }

  lemma OneAuthorityWired(d: Discovery, cfg: HostConfig, args: seq<string>)
    requires |Authorities(cfg)| == 1 && !Fails(d, Authorities(cfg)[0])
    ensures PodTemplate(d, cfg, args).Ok?
  {
    WireFailsIff(d, WiringBefore(cfg, args), Authorities(cfg));
  }

  /** A volume nothing mounts: the secret has a certificate and the config map beside it has none. */
  lemma UnmountedVolume(name: string, secret: string, configMap: string, args: seq<string>)
    returns (d: Discovery, cfg: HostConfig)
    ensures PodTemplate(d, cfg, args).Ok?
    ensures var t := PodTemplate(d, cfg, args).value;
            HasName(t.volumes, CA_PREFIX + name) && !Mounted(t.natsMounts + t.hostMounts, CA_PREFIX + name)
  {
    d := Discovery(_ => Some(["root.crt"]), _ => Some([]));
    cfg := OneAuthority(Authority(name, Some(Some(secret)), Some(Some(configMap))));
    assert EndsWith(["root.crt"][0], CRT);
    OneAuthorityWired(d, cfg, args);
    UnmountedVolumeIff(d, cfg, args, CA_PREFIX + name);
    assert LeavesAlone(d, Authorities(cfg), 0, CA_PREFIX + name);
  }
}
