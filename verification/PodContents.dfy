/**
 What the pod of a host configuration holds, spelled out: every volume with the source its contents
 come from, every mount with its path, every certificate argument by position, and every error.
 */
module PodContents {
  import opened Wrappers
  import opened HostConfigs
  import opened PodTemplates

  // ---------------------------------------------------------------- vocabulary

  predicate IsCrt(key: string) {
    |key| >= 4 && key[|key| - 4..] == ".crt"
  }

  /** A source that can be read and holds a certificate. */
  predicate HasCrt(keys: Option<seq<string>>) {
    keys.Some? && exists i :: 0 <= i < |keys.value| && IsCrt(keys.value[i])
  }

  /** Authority number i of the configuration. */
  predicate IsAuthority(cfg: HostConfig, i: int, a: Authority) {
    cfg.authorities.Some? && 0 <= i < |cfg.authorities.value| && cfg.authorities.value[i] == a
  }

  /** The authority has certificates in that secret. */
  predicate InSecret(d: Discovery, a: Authority, secret: string) {
    a.secret == Some(Some(secret)) && HasCrt(d.secrets(secret))
  }

  /** The authority has no secret, or one with certificates: only then is its config map looked at. */
  predicate ReachesConfigMap(d: Discovery, a: Authority) {
    a.secret.None? || (a.secret.value.Some? && HasCrt(d.secrets(a.secret.value.value)))
  }

  /** The config map of the authority is reached and has certificates. */
  predicate InConfigMap(d: Discovery, a: Authority, configMap: string) {
    a.configMap == Some(Some(configMap)) && ReachesConfigMap(d, a) && HasCrt(d.configMaps(configMap))
  }

  /** The certificates of the authority are mounted: each source it names has some. */
  predicate GetsMount(d: Discovery, a: Authority) {
    && (a.secret.Some? ==> a.secret.value.Some? && HasCrt(d.secrets(a.secret.value.value)))
    && (a.configMap.Some? ==> a.configMap.value.Some? && HasCrt(d.configMaps(a.configMap.value.value)))
    && (a.secret.Some? || a.configMap.Some?)
  }

  /** The keys its arguments are taken from: those of the config map if there is one. */
  function KeysOf(d: Discovery, a: Authority): seq<string>
    requires GetsMount(d, a)
  {
    if a.configMap.Some? then d.configMaps(a.configMap.value.value).value else d.secrets(a.secret.value.value).value
  }

  /** The error an authority ends the template with, if it does. */
  function ErrorOf(d: Discovery, a: Authority): Option<CertificateError> {
    if a.secret.None? && a.configMap.None? then Some(NoSource(a.name))
    else if a.secret == Some(None) then Some(NoSecretName(a.name))
    else if a.secret.Some? && d.secrets(a.secret.value.value).None? then Some(Unreadable(a.secret.value.value))
    else if a.configMap.None? || !ReachesConfigMap(d, a) then None
    else if a.configMap == Some(None) then Some(NoConfigMapName(a.name))
    else if d.configMaps(a.configMap.value.value).None? then Some(Unreadable(a.configMap.value.value))
    else None
  }

  // ---------------------------------------------------------------- one authority

  lemma CrtFacts(keys: seq<string>)
    ensures Certificates(keys) != [] <==> HasCrt(Some(keys))
  {
    SomeCertificate(keys);
  }

  lemma SourceFacts(keys: string -> Option<seq<string>>, source: Option<Option<string>>)
    ensures HasCertificates(keys, source) <==> source.Some? && source.value.Some? && HasCrt(keys(source.value.value))
    ensures source.Some? && source.value.Some? && keys(source.value.value).Some? ==>
              (Certificates(keys(source.value.value).value) != [] <==> HasCertificates(keys, source))
  {
    if source.Some? && source.value.Some? && keys(source.value.value).Some? {
      CrtFacts(keys(source.value.value).value);
      SomeCertificate(keys(source.value.value).value);
    }
  }

  /** The volume takes its contents from the secret or the config map of the authority. */
  ghost predicate VolumeOf(d: Discovery, a: Authority, v: Volume) {
    && v.name == "ca-" + a.name
    && match v.source
       case FromSecret(s) => InSecret(d, a, s)
       case FromConfigMap(c) => InConfigMap(d, a, c)
       case OtherSource => false
  }

  lemma AuthorityFails(d: Discovery, a: Authority)
    ensures match ErrorOf(d, a)
            case None => Contribute(d, a).Ok?
            case Some(e) => Contribute(d, a) == Err(e)
  {
    SourceFacts(d.secrets, a.secret);
    SourceFacts(d.configMaps, a.configMap);
  }

  lemma AuthorityAdds(d: Discovery, a: Authority)
    requires Contribute(d, a).Ok?
    ensures var c := Contribute(d, a).value;
            && (forall v :: v in c.volumes <==> VolumeOf(d, a, v))
            && (c.mounted <==> GetsMount(d, a))
            && (c.mounted ==> c.items == Certificates(KeysOf(d, a)))
  {
    SourceFacts(d.secrets, a.secret);
    SourceFacts(d.configMaps, a.configMap);
  }

  // ---------------------------------------------------------------- volumes

  lemma {:induction false} CaVolumesExact(d: Discovery, authorities: seq<Authority>, v: Volume)
    requires NoneFails(d, authorities)
    ensures v in CaVolumes(d, authorities) <==> exists i :: 0 <= i < |authorities| && VolumeOf(d, authorities[i], v)
  {
    if authorities != [] {
      var first, rest := authorities[0], authorities[1..];
      AuthorityAdds(d, first);
      CaVolumesExact(d, rest, v);
      assert forall i | 0 < i < |authorities| :: authorities[i] == rest[i - 1];
      if v in CaVolumes(d, rest) {
        var i :| 0 <= i < |rest| && VolumeOf(d, rest[i], v);
        assert VolumeOf(d, authorities[i + 1], v);
      }
    }
  }

  lemma VolumeInParts(d: Discovery, cfg: HostConfig, args: seq<string>, v: Volume)
    requires PodTemplate(d, cfg, args).Ok?
    ensures NoneFails(d, Authorities(cfg))
    ensures v in PodTemplate(d, cfg, args).value.volumes
       <==> || v == Volume("nats-config", FromConfigMap(match cfg.name case Some(n) => n case None => ""))
            || v in CaVolumes(d, Authorities(cfg)) || v in CredsVolumes(cfg) || v in ExtraVolumes(cfg)
  {
    TemplateParts(d, cfg, args);
  }

  lemma OtherVolumesExact(cfg: HostConfig, v: Volume)
    ensures v in CredsVolumes(cfg)
       <==> exists s :: cfg.secretName == Some(s) && v == Volume("nats-creds", FromSecret(s))
    ensures v in ExtraVolumes(cfg) <==> exists volumes :: cfg.podAdditions == Some(Some(volumes)) && v in volumes
  {
  }

  /**
   The volumes of the pod, with their sources: the nats configuration, for each authority its secret
   if that has certificates and its config map if that is reached and has some, the credentials, and
   what the overrides bring along.
   */
  lemma {:induction false} VolumesAreExact(d: Discovery, cfg: HostConfig, args: seq<string>, v: Volume)
    requires PodTemplate(d, cfg, args).Ok?
    ensures v in PodTemplate(d, cfg, args).value.volumes
       <==> || v == Volume("nats-config", FromConfigMap(match cfg.name case Some(n) => n case None => ""))
            || (exists i, a :: IsAuthority(cfg, i, a) && VolumeOf(d, a, v))
            || (exists s :: cfg.secretName == Some(s) && v == Volume("nats-creds", FromSecret(s)))
            || (exists volumes :: cfg.podAdditions == Some(Some(volumes)) && v in volumes)
  {
    VolumeInParts(d, cfg, args, v);
    OtherVolumesExact(cfg, v);
    CaVolumesExact(d, Authorities(cfg), v);
    if i :| 0 <= i < |Authorities(cfg)| && VolumeOf(d, Authorities(cfg)[i], v) {
      assert IsAuthority(cfg, i, Authorities(cfg)[i]);
    }
  }

  // ---------------------------------------------------------------- mounts

  predicate GetsMountFrom(d: Discovery, authorities: seq<Authority>, i: nat, n: int) {
    i <= n < |authorities| && GetsMount(d, authorities[n])
  }

  /** The positions of the authorities from i on that get a mount, and the mounts. */
  ghost predicate ListsMounts(d: Discovery, authorities: seq<Authority>, i: nat, mounts: seq<Mount>, at: seq<nat>) {
    && (forall n :: n in at <==> GetsMountFrom(d, authorities, i, n))
    && (forall j, k | 0 <= j < k < |at| :: at[j] < at[k])
    && |mounts| == |at|
    && forall j | 0 <= j < |at| :: at[j] < |authorities| && mounts[j] == MountFor(authorities[at[j]])
  }

  function MountFor(a: Authority): Mount {
    Mount("ca-" + a.name, "/wasmcloud/certificates/ca-" + a.name)
  }

  lemma MountForIsMountOf(a: Authority)
    ensures MountFor(a) == MountOf(a)
  {
    assert "/wasmcloud/certificates/ca-" + a.name == "/wasmcloud/certificates/" + ("ca-" + a.name);
  }

  lemma CaMountsFrom(d: Discovery, authorities: seq<Authority>, i: nat)
    requires i < |authorities| && NoneFails(d, authorities[i..])
    ensures NoneFails(d, authorities[i + 1..])
    ensures CaMounts(d, authorities[i..])
         == (if GetsMount(d, authorities[i]) then [MountFor(authorities[i])] else [])
            + CaMounts(d, authorities[i + 1..])
  {
    var from := authorities[i..];
    assert from[1..] == authorities[i + 1..] && from[0] == authorities[i];
    assert forall j | 0 <= j < |from| - 1 :: from[1..][j] == from[j + 1];
    AuthorityAdds(d, from[0]);
    MountForIsMountOf(from[0]);
  }

  lemma {:induction false} MountsFrom(d: Discovery, authorities: seq<Authority>, i: nat) returns (at: seq<nat>)
    requires i <= |authorities| && NoneFails(d, authorities[i..])
    ensures ListsMounts(d, authorities, i, CaMounts(d, authorities[i..]), at)
    decreases |authorities| - i
  {
    at := [];
    if i < |authorities| {
      CaMountsFrom(d, authorities, i);
      at := MountsFrom(d, authorities, i + 1);
      if GetsMount(d, authorities[i]) {
        MountsAdd(d, authorities, i, CaMounts(d, authorities[i + 1..]), at);
        at := [i] + at;
      } else {
        assert [] + CaMounts(d, authorities[i + 1..]) == CaMounts(d, authorities[i + 1..]);
        assert forall n :: GetsMountFrom(d, authorities, i, n) <==> GetsMountFrom(d, authorities, i + 1, n);
      }
    }
  }

  lemma MountsAdd(d: Discovery, authorities: seq<Authority>, i: nat, mounts: seq<Mount>, at: seq<nat>)
    requires i < |authorities| && ListsMounts(d, authorities, i + 1, mounts, at) && GetsMount(d, authorities[i])
    ensures ListsMounts(d, authorities, i, [MountFor(authorities[i])] + mounts, [i] + at)
  {
    var all := [i] + at;
    forall n ensures n in all <==> GetsMountFrom(d, authorities, i, n) {
      assert n in all <==> n == i || n in at;
    }
    forall j, k | 0 <= j < k < |all| ensures all[j] < all[k] {
      assert all[k] == at[k - 1] && at[k - 1] in at;
      assert j > 0 ==> all[j] == at[j - 1];
    }
  }

  /** The mounts of both containers: the nats server's, and one for each authority whose sources all have some. */
  lemma {:induction false} MountsAreExact(d: Discovery, cfg: HostConfig, args: seq<string>) returns (at: seq<nat>)
    requires PodTemplate(d, cfg, args).Ok?
    ensures var t := PodTemplate(d, cfg, args).value;
            && t.natsMounts == [Mount("nats-config", "/nats/nats.conf")]
                               + (if cfg.secretName.Some? then [Mount("nats-creds", "/nats/nats.creds")] else [])
            && ListsMounts(d, match cfg.authorities case Some(list) => list case None => [], 0, t.hostMounts, at)
  {
    TemplateParts(d, cfg, args);
    assert Authorities(cfg)[0..] == Authorities(cfg);
    at := MountsFrom(d, Authorities(cfg), 0);
  }

  // ---------------------------------------------------------------- arguments

  /** A certificate: positions of the authority and of the key in its source. */
  datatype CrtSlot = CrtSlot(authority: nat, key: nat)

  predicate Precedes(a: CrtSlot, b: CrtSlot) {
    a.authority < b.authority || (a.authority == b.authority && a.key < b.key)
  }

  /** The certificate is mounted: its authority is, and it is in the source its arguments are taken from. */
  predicate IsCertificate(d: Discovery, authorities: seq<Authority>, s: CrtSlot) {
    && s.authority < |authorities| && GetsMount(d, authorities[s.authority])
    && s.key < |KeysOf(d, authorities[s.authority])| && IsCrt(KeysOf(d, authorities[s.authority])[s.key])
  }

  /** The slots list exactly the mounted certificates from authority i on, in reading order. */
  ghost predicate ListsCertificates(d: Discovery, authorities: seq<Authority>, i: nat, slots: seq<CrtSlot>) {
    && (forall s :: s in slots <==> i <= s.authority && IsCertificate(d, authorities, s))
    && forall j, k | 0 <= j < k < |slots| :: Precedes(slots[j], slots[k])
  }

  /** The path under which the host finds the certificate. */
  function PathOf(d: Discovery, authorities: seq<Authority>, s: CrtSlot): string
    requires IsCertificate(d, authorities, s)
  {
    var a := authorities[s.authority];
    "/wasmcloud/certificates/ca-" + a.name + "/" + KeysOf(d, a)[s.key]
  }

  /** The slots and the files one for one. */
  ghost predicate FilesMatch(d: Discovery, authorities: seq<Authority>, files: seq<CaFile>, slots: seq<CrtSlot>) {
    && |files| == |slots|
    && forall k | 0 <= k < |slots| ::
         && IsCertificate(d, authorities, slots[k])
         && files[k].mount.path + "/" + files[k].item == PathOf(d, authorities, slots[k])
  }

  lemma {:induction false} FilesByPosition(m: Mount, items: seq<string>)
    ensures |Files(m, items)| == |items|
    ensures forall k | 0 <= k < |items| :: Files(m, items)[k] == CaFile(m, items[k])
  {
    if items != [] {
      FilesByPosition(m, items[..|items| - 1]);
    }
  }

  lemma {:induction false} CaArgsByPosition(files: seq<CaFile>)
    ensures |CaArgs(files)| == 2 * |files|
    ensures forall k | 0 <= k < |files| ::
              && CaArgs(files)[2 * k] == "--tls-ca-path"
              && CaArgs(files)[2 * k + 1] == files[k].mount.path + "/" + files[k].item
  {
    if files != [] {
      CaArgsByPosition(files[..|files| - 1]);
    }
  }

  lemma PathUnderMount(a: Authority, key: string)
    ensures MountOf(a).path + "/" + key == "/wasmcloud/certificates/ca-" + a.name + "/" + key
  {
    MountForIsMountOf(a);
  }

  /** The certificates of one authority. */
  lemma {:induction false} SlotsOfAuthority(d: Discovery, authorities: seq<Authority>, i: nat)
    returns (slots: seq<CrtSlot>)
    requires i < |authorities| && GetsMount(d, authorities[i])
    ensures forall s :: s in slots <==> s.authority == i && IsCertificate(d, authorities, s)
    ensures forall j, k | 0 <= j < k < |slots| :: Precedes(slots[j], slots[k])
    ensures FilesMatch(d, authorities, Files(MountOf(authorities[i]), Certificates(KeysOf(d, authorities[i]))), slots)
  {
    var keys := KeysOf(d, authorities[i]);
    var at := CertificatePositions(keys, |keys|);
    slots := seq(|at|, j requires 0 <= j < |at| => CrtSlot(i, at[j]));
    SlotsAreCertificates(d, authorities, i, at, slots);
    FilesOfAuthority(d, authorities, i, slots);
  }

  lemma FilesOfAuthority(d: Discovery, authorities: seq<Authority>, i: nat, slots: seq<CrtSlot>)
    requires i < |authorities| && GetsMount(d, authorities[i])
    requires forall k | 0 <= k < |slots| :: IsCertificate(d, authorities, slots[k])
    requires var keys := KeysOf(d, authorities[i]);
             var at := CertificatePositions(keys, |keys|);
             |slots| == |at| && forall j | 0 <= j < |at| :: slots[j] == CrtSlot(i, at[j])
    ensures FilesMatch(d, authorities, Files(MountOf(authorities[i]), Certificates(KeysOf(d, authorities[i]))), slots)
  {
    var keys := KeysOf(d, authorities[i]);
    CertificatesByPosition(keys, |keys|);
    assert keys[..|keys|] == keys;
    FilesByPosition(MountOf(authorities[i]), Certificates(keys));
    forall key ensures MountOf(authorities[i]).path + "/" + key
                    == "/wasmcloud/certificates/ca-" + authorities[i].name + "/" + key {
      PathUnderMount(authorities[i], key);
    }
  }

  lemma SlotsAreCertificates(d: Discovery, authorities: seq<Authority>, i: nat, at: seq<nat>, slots: seq<CrtSlot>)
    requires i < |authorities| && GetsMount(d, authorities[i])
    requires var keys := KeysOf(d, authorities[i]);
             forall n :: n in at <==> 0 <= n < |keys| && EndsWith(keys[n], CRT)
    requires |slots| == |at| && forall j | 0 <= j < |at| :: slots[j] == CrtSlot(i, at[j])
    ensures forall s :: s in slots <==> s.authority == i && IsCertificate(d, authorities, s)
    ensures forall k | 0 <= k < |slots| :: IsCertificate(d, authorities, slots[k])
  {
    forall s ensures s in slots <==> s.authority == i && IsCertificate(d, authorities, s) {
      if s in slots {
        var j :| 0 <= j < |slots| && slots[j] == s;
        assert at[j] in at;
      }
      if s.authority == i && IsCertificate(d, authorities, s) {
        assert s.key in at;
        var j :| 0 <= j < |at| && at[j] == s.key;
        assert slots[j] == s;
      }
    }
    assert forall k | 0 <= k < |slots| :: slots[k] in slots;
  }

  lemma {:induction false} CertificatesFrom(d: Discovery, authorities: seq<Authority>, i: nat)
    returns (slots: seq<CrtSlot>)
    requires i <= |authorities| && NoneFails(d, authorities[i..])
    ensures ListsCertificates(d, authorities, i, slots)
    ensures FilesMatch(d, authorities, CaFiles(d, authorities[i..]), slots)
    decreases |authorities| - i
  {
    slots := [];
    if i < |authorities| {
      CaFilesFrom(d, authorities, i);
      slots := CertificatesFrom(d, authorities, i + 1);
      if GetsMount(d, authorities[i]) {
        var mine := SlotsOfAuthority(d, authorities, i);
        SlotsJoin(d, authorities, i, mine, slots);
        FilesJoin(d, authorities, Files(MountOf(authorities[i]), Certificates(KeysOf(d, authorities[i]))),
                  CaFiles(d, authorities[i + 1..]), mine, slots);
        slots := mine + slots;
      }
    }
  }

  lemma CaFilesFrom(d: Discovery, authorities: seq<Authority>, i: nat)
    requires i < |authorities| && NoneFails(d, authorities[i..])
    ensures NoneFails(d, authorities[i + 1..])
    ensures CaFiles(d, authorities[i..])
         == if GetsMount(d, authorities[i])
            then Files(MountOf(authorities[i]), Certificates(KeysOf(d, authorities[i])))
                 + CaFiles(d, authorities[i + 1..])
            else CaFiles(d, authorities[i + 1..])
  {
    var from := authorities[i..];
    assert from[1..] == authorities[i + 1..] && from[0] == authorities[i];
    assert forall j | 0 <= j < |from| - 1 :: from[1..][j] == from[j + 1];
    AuthorityAdds(d, from[0]);
    assert [] + CaFiles(d, from[1..]) == CaFiles(d, from[1..]);
  }

  lemma FilesJoin(d: Discovery, authorities: seq<Authority>, files: seq<CaFile>, later: seq<CaFile>,
                  mine: seq<CrtSlot>, slots: seq<CrtSlot>)
    requires FilesMatch(d, authorities, files, mine) && FilesMatch(d, authorities, later, slots)
    ensures FilesMatch(d, authorities, files + later, mine + slots)
  {
  }

  lemma SlotsJoin(d: Discovery, authorities: seq<Authority>, i: nat, mine: seq<CrtSlot>, later: seq<CrtSlot>)
    requires forall s :: s in mine <==> s.authority == i && IsCertificate(d, authorities, s)
    requires forall j, k | 0 <= j < k < |mine| :: Precedes(mine[j], mine[k])
    requires ListsCertificates(d, authorities, i + 1, later)
    ensures ListsCertificates(d, authorities, i, mine + later)
  {
    var slots := mine + later;
    forall s ensures s in slots <==> i <= s.authority && IsCertificate(d, authorities, s) {
      assert s in slots <==> s in mine || s in later;
    }
    forall j, k | 0 <= j < k < |slots| ensures Precedes(slots[j], slots[k]) {
      if j < |mine| <= k {
        assert slots[j] in mine && slots[k] in later;
      }
    }
  }

  /** Behind the earlier arguments stands, for each certificate, the option and behind it the path. */
  ghost predicate ArgumentsHold(d: Discovery, authorities: seq<Authority>, args: seq<string>, hostArgs: seq<string>,
                                slots: seq<CrtSlot>)
  {
    && |hostArgs| == |args| + 2 * |slots|
    && hostArgs[..|args|] == args
    && forall k | 0 <= k < |slots| ::
         && hostArgs[|args| + 2 * k] == "--tls-ca-path"
         && IsCertificate(d, authorities, slots[k])
         && hostArgs[|args| + 2 * k + 1] == PathOf(d, authorities, slots[k])
  }

  lemma FilesGiveArguments(d: Discovery, authorities: seq<Authority>, args: seq<string>, files: seq<CaFile>,
                           slots: seq<CrtSlot>)
    requires FilesMatch(d, authorities, files, slots)
    ensures ArgumentsHold(d, authorities, args, args + CaArgs(files), slots)
  {
    CaArgsByPosition(files);
    ArgumentsBehind(args, CaArgs(files));
    forall k | 0 <= k < |slots|
      ensures (args + CaArgs(files))[|args| + 2 * k] == "--tls-ca-path"
      ensures (args + CaArgs(files))[|args| + 2 * k + 1] == PathOf(d, authorities, slots[k])
    {
      assert (args + CaArgs(files))[|args| + (2 * k)] == CaArgs(files)[2 * k];
      assert (args + CaArgs(files))[|args| + (2 * k + 1)] == CaArgs(files)[2 * k + 1];
    }
  }

  /**
   The arguments of the host: those before, and then one pair for each mounted certificate, in the
   order of authorities and of keys.
   */
  lemma {:induction false} ArgumentsAreExact(d: Discovery, cfg: HostConfig, args: seq<string>)
    returns (slots: seq<CrtSlot>)
    requires PodTemplate(d, cfg, args).Ok?
    ensures var authorities := match cfg.authorities case Some(list) => list case None => [];
            && ListsCertificates(d, authorities, 0, slots)
            && ArgumentsHold(d, authorities, args, PodTemplate(d, cfg, args).value.hostArgs, slots)
  {
    var authorities := Authorities(cfg);
    TemplateParts(d, cfg, args);
    assert authorities[0..] == authorities;
    slots := CertificatesFrom(d, authorities, 0);
    FilesGiveArguments(d, authorities, args, CaFiles(d, authorities), slots);
  }

  lemma ArgumentsBehind(args: seq<string>, more: seq<string>)
    ensures (args + more)[..|args|] == args
    ensures forall j | 0 <= j < |more| :: (args + more)[|args| + j] == more[j]
  {
  }

  // ---------------------------------------------------------------- errors

  /** The template fails with the error of the first authority that has one. */
  lemma {:induction false} ErrorsAreExact(d: Discovery, cfg: HostConfig, args: seq<string>, e: CertificateError)
    ensures PodTemplate(d, cfg, args) == Err(e)
       <==> exists i, a :: && IsAuthority(cfg, i, a) && ErrorOf(d, a) == Some(e)
                           && forall j, b | 0 <= j < i && IsAuthority(cfg, j, b) :: ErrorOf(d, b) == None
  {
    var authorities := Authorities(cfg);
    WireErrors(d, WiringBefore(cfg, args), authorities, e);
    if i :| FirstError(d, authorities, i, e) {
      assert IsAuthority(cfg, i, authorities[i]);
    }
    if i, a :| && IsAuthority(cfg, i, a) && ErrorOf(d, a) == Some(e)
               && forall j, b | 0 <= j < i && IsAuthority(cfg, j, b) :: ErrorOf(d, b) == None {
      forall j | 0 <= j < i ensures ErrorOf(d, authorities[j]) == None {
        assert IsAuthority(cfg, j, authorities[j]);
      }
      assert FirstError(d, authorities, i, e);
    }
  }

  predicate FirstError(d: Discovery, authorities: seq<Authority>, i: int, e: CertificateError) {
    && 0 <= i < |authorities| && ErrorOf(d, authorities[i]) == Some(e)
    && forall j | 0 <= j < i :: ErrorOf(d, authorities[j]) == None
  }

  lemma {:induction false} WireErrors(d: Discovery, w: Wiring, authorities: seq<Authority>, e: CertificateError)
    ensures Wire(d, w, authorities) == Err(e) <==> exists i :: FirstError(d, authorities, i, e)
    decreases |authorities|
  {
    if authorities != [] {
      var first, rest := authorities[0], authorities[1..];
      AuthorityFails(d, first);
      assert forall i | 0 < i < |authorities| :: authorities[i] == rest[i - 1];
      if Contribute(d, first).Ok? {
        WireErrors(d, Add(w, first, Contribute(d, first).value), rest, e);
        if i :| FirstError(d, rest, i, e) {
          assert FirstError(d, authorities, i + 1, e);
        }
        if i :| FirstError(d, authorities, i, e) {
          assert FirstError(d, rest, i - 1, e);
        }
      } else {
        assert ErrorOf(d, first) == Some(e) ==> FirstError(d, authorities, 0, e);
      }
    }
  }
}
