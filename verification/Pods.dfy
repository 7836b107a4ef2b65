/** Volumes, mounts, containers and init containers of the Jenkins deployment. */
module Pods {
  import opened Common
  import opened Specs
  import JenkinsOptions

  const HOME_VOLUME := "jenkins-home"
  const SCRIPTS_VOLUME := "scripts"
  const INIT_VOLUME := "init-configuration"
  const PLUGINS_VOLUME := "base-plugins"
  const CREDENTIALS_VOLUME := "operator-credentials"
  const CASC_VOLUME := "casc-config"
  const CASC_SECRET_VOLUME := "casc-secret"
  const CASC_DEFAULT_VOLUME := "casc-default-jenkins-default-configuration"
  const BACKUP_VOLUME := "backup-pool"
  const HELPER_VOLUME := "helper-scripts"

  /** A container of the pod as far as volumes are concerned. */
  datatype PodContainer = PodContainer(name: string, image: string, mounts: seq<Mount>)

  datatype Deployment = Deployment(
    initContainers: seq<PodContainer>, containers: seq<PodContainer>, volumes: seq<Volume>)

  function CascInit(configMap: string): string
  {
    "casc-init-" + configMap
  }

  function HomePath(master: MasterValue): string
    requires master.containers != []
  {
    match JenkinsOptions.FirstValue(master.containers[0].env, "JENKINS_HOME")
    case Some(value) => value
    case None => "/var/lib/jenkins"
  }

  function InitVolumes(configMaps: seq<string>): (r: seq<Volume>)
    ensures |r| == |configMaps|
    ensures forall i | 0 <= i < |r| :: r[i] == Volume(CascInit(configMaps[i]), ConfigMap(configMaps[i], false))
  {
    seq(|configMaps|, i requires 0 <= i < |configMaps| => Volume(CascInit(configMaps[i]), ConfigMap(configMaps[i], false)))
  }

  function CascVolumes(casc: Option<Configuration>): seq<Volume>
  {
    if casc.None? || !casc.value.enabled then []
    else
      [Volume(CASC_VOLUME, EmptyDir)] +
      (if casc.value.defaultConfig
       then [Volume(CASC_DEFAULT_VOLUME, ConfigMap("jenkins-default-configuration", false))] else []) +
      InitVolumes(casc.value.configurations) +
      (if casc.value.secret != "" then [Volume(CASC_SECRET_VOLUME, Secret(casc.value.secret, false))] else [])
  }

  /** Volumes the operator adds by itself, backup aside. */
  function BaseVolumes(jenkins: string, casc: Option<Configuration>): seq<Volume>
  {
    FixedVolumes(jenkins) + CascVolumes(casc)
  }

  method AddInitVolumes(volumes: seq<Volume>, configMaps: seq<string>) returns (r: seq<Volume>)
    ensures r == volumes + InitVolumes(configMaps)
  {
    r := volumes;
    for i := 0 to |configMaps|
      invariant r == volumes + InitVolumes(configMaps[..i])
    {
      var v := Volume(CascInit(configMaps[i]), ConfigMap(configMaps[i], false));
      assert InitVolumes(configMaps[..i + 1]) == InitVolumes(configMaps[..i]) + [v];
      r := r + [v];
    }
    assert configMaps[..|configMaps|] == configMaps;
  }

  method NewCascVolumes(c: Configuration) returns (r: seq<Volume>)
    requires c.enabled
    ensures r == CascVolumes(Some(c))
  {
    r := [Volume(CASC_VOLUME, EmptyDir)];
    if c.defaultConfig {
      r := r + [Volume(CASC_DEFAULT_VOLUME, ConfigMap("jenkins-default-configuration", false))];
    } else {
      assert r + [] == r;
    }
    r := AddInitVolumes(r, c.configurations);
    if c.secret != "" {
      r := r + [Volume(CASC_SECRET_VOLUME, Secret(c.secret, false))];
    } else {
      assert r + [] == r;
    }
  }

  /** The five volumes that are always there. */
  function FixedVolumes(jenkins: string): seq<Volume>
  {
    [Volume(HOME_VOLUME, EmptyDir),
     Volume(SCRIPTS_VOLUME, ConfigMap("jenkins-" + jenkins + "-scripts", false)),
     Volume(INIT_VOLUME, ConfigMap("jenkins-" + jenkins + "-init-configuration", false)),
     Volume(PLUGINS_VOLUME, ConfigMap("jenkins-" + jenkins + "-base-plugins", false)),
     Volume(CREDENTIALS_VOLUME, Secret("jenkins-" + jenkins + "-credentials", false))]
  }

  method GetJenkinsMasterPodBaseVolumes(jenkins: string, casc: Option<Configuration>) returns (volumes: seq<Volume>)
    ensures volumes == BaseVolumes(jenkins, casc)
  {
    volumes := FixedVolumes(jenkins);
    if casc.Some? && casc.value.enabled {
      var more := NewCascVolumes(casc.value);
      volumes := volumes + more;
    } else {
      assert volumes + [] == volumes;
    }
  }

  function MasterMounts(master: MasterValue, casc: Option<Configuration>): seq<Mount>
    requires master.containers != []
  {
    [Mount(HOME_VOLUME, HomePath(master)), Mount(SCRIPTS_VOLUME, "/var/jenkins/scripts"),
     Mount(INIT_VOLUME, "/var/jenkins/init-configuration"), Mount(PLUGINS_VOLUME, "/var/jenkins/base-plugins")] +
    if casc.None? || !casc.value.enabled then []
    else [Mount(CASC_VOLUME, "/var/jenkins/configuration-as-code")] +
         if casc.value.secret != "" then [Mount(CASC_SECRET_VOLUME, "/tmp/configuration-as-code-secrets")] else []
  }

  function MasterContainer(master: MasterValue, casc: Option<Configuration>): PodContainer
    requires master.containers != []
  {
    PodContainer("jenkins", master.containers[0].image, MasterMounts(master, casc) + master.containers[0].mounts)
  }

  function ConfigSidecar(master: MasterValue): PodContainer
    requires master.containers != []
  {
    PodContainer("config", "", [
      Mount(CASC_VOLUME, "/tmp/configuration-as-code-secrets"), Mount(HOME_VOLUME, HomePath(master)),
      Mount(SCRIPTS_VOLUME, "/var/jenkins/scripts")])
  }

  function BackupSidecar(master: MasterValue): PodContainer
    requires master.containers != []
  {
    PodContainer("backup", "", [
      Mount(BACKUP_VOLUME, "/jenkins-backups"), Mount(HELPER_VOLUME, "/jenkins-operator-scripts"),
      Mount(HOME_VOLUME, HomePath(master))])
  }

  function PluginsInit(image: string): PodContainer
  {
    PodContainer("plugins-init", image, [
      Mount(SCRIPTS_VOLUME, "/var/jenkins/scripts"), Mount(PLUGINS_VOLUME, "/var/jenkins/base-plugins")])
  }

  function InitMounts(configMaps: seq<string>): (r: seq<Mount>)
    ensures |r| == |configMaps|
    ensures forall i | 0 <= i < |r| :: r[i] == Mount(CascInit(configMaps[i]), "/var/jenkins/" + CascInit(configMaps[i]))
  {
    seq(|configMaps|, i requires 0 <= i < |configMaps| => Mount(CascInit(configMaps[i]), "/var/jenkins/" + CascInit(configMaps[i])))
  }

  function ConfigInit(image: string, casc: Option<Configuration>): PodContainer
  {
    PodContainer("config-init", image,
      [Mount(CASC_VOLUME, "/var/jenkins/configuration-as-code")] +
      (if casc.None? || casc.value.defaultConfig then [Mount(CASC_DEFAULT_VOLUME, "/var/jenkins/" + CASC_DEFAULT_VOLUME)] else []) +
      (if casc.Some? && casc.value.enabled then InitMounts(casc.value.configurations) else []))
  }

  method NewJenkinsConfigInitContainer(image: string, casc: Option<Configuration>) returns (c: PodContainer)
    ensures c == ConfigInit(image, casc)
  {
    var mounts := [Mount(CASC_VOLUME, "/var/jenkins/configuration-as-code")];
    if casc.None? || casc.value.defaultConfig {
      mounts := mounts + [Mount(CASC_DEFAULT_VOLUME, "/var/jenkins/" + CASC_DEFAULT_VOLUME)];
    }
    if casc.Some? && casc.value.enabled {
      var cms := casc.value.configurations;
      ghost var front := mounts;
      for i := 0 to |cms|
        invariant mounts == front + InitMounts(cms[..i])
      {
        assert InitMounts(cms[..i + 1]) == InitMounts(cms[..i]) + [Mount(CascInit(cms[i]), "/var/jenkins/" + CascInit(cms[i]))];
        mounts := mounts + [Mount(CascInit(cms[i]), "/var/jenkins/" + CascInit(cms[i]))];
      }
      assert cms[..|cms|] == cms;
    }
    c := PodContainer("config-init", image, mounts);
  }

  function BackupInit(image: string): PodContainer
  {
    PodContainer("backup-init", image, [
      Mount(BACKUP_VOLUME, "/jenkins-backups"), Mount(HELPER_VOLUME, "/jenkins-operator-scripts")])
  }

  function Converted(c: Container): PodContainer
  {
    PodContainer(c.name, c.image, c.mounts)
  }

  function Sidecars(cs: seq<Container>): (r: seq<PodContainer>)
    ensures |r| == |cs| && forall i | 0 <= i < |r| :: r[i] == Converted(cs[i])
  {
    seq(|cs|, i requires 0 <= i < |cs| => Converted(cs[i]))
  }

  /** Sidecars of the user are taken over only together with a configuration-as-code section. */
  function Containers(master: MasterValue, rest: Rest): seq<PodContainer>
    requires master.containers != []
  {
    [MasterContainer(master, rest.casc)] +
    (if rest.casc.None? then []
     else (if rest.casc.value.enabled && rest.casc.value.enableAutoReload then [ConfigSidecar(master)] else []) +
          Sidecars(master.containers[1..])) +
    if rest.backupEnabled then [BackupSidecar(master)] else []
  }

  method AddSidecars(containers: seq<PodContainer>, others: seq<Container>) returns (r: seq<PodContainer>)
    ensures r == containers + Sidecars(others)
  {
    r := containers;
    for i := 0 to |others|
      invariant r == containers + Sidecars(others[..i])
    {
      assert Sidecars(others[..i + 1]) == Sidecars(others[..i]) + [Converted(others[i])];
      r := r + [Converted(others[i])];
    }
    assert others[..|others|] == others;
  }

  method NewContainers(master: MasterValue, rest: Rest) returns (containers: seq<PodContainer>)
    requires master.containers != []
    ensures containers == Containers(master, rest)
  {
    containers := [MasterContainer(master, rest.casc)];
    if rest.casc.Some? {
      if rest.casc.value.enabled && rest.casc.value.enableAutoReload {
        containers := containers + [ConfigSidecar(master)];
      }
      containers := AddSidecars(containers, master.containers[1..]);
    }
    if rest.backupEnabled {
      containers := containers + [BackupSidecar(master)];
    }
  }

  function InitContainers(master: MasterValue, rest: Rest): seq<PodContainer>
    requires master.containers != []
  {
    var image := master.containers[0].image;
    [PluginsInit(image)] +
    (if rest.casc.None? || rest.casc.value.enabled then [ConfigInit(image, rest.casc)] else []) +
    if rest.backupEnabled then [BackupInit(image)] else []
  }

  /** The backup volumes hang on the requested spec, the containers that mount them on the calculated one. */
  function BackupVolumes(jenkins: string, requested: bool): seq<Volume>
  {
    if requested then [Volume(BACKUP_VOLUME, Claim(jenkins + "-jenkins-backup")), Volume(HELPER_VOLUME, EmptyDir)] else []
  }

  function NewJenkinsDeployment(jenkins: string, requested: SpecValue, calculated: SpecValue): Deployment
    requires calculated.master.Some? && calculated.master.value.containers != []
  {
    var master := calculated.master.value;
    Deployment(InitContainers(master, calculated.rest), Containers(master, calculated.rest),
               BaseVolumes(jenkins, calculated.rest.casc) + master.volumes +
               BackupVolumes(jenkins, requested.rest.backupEnabled))
  }

  /** A spec that uses everything: a configuration and a secret, reload, one sidecar, one volume, backups. */
  function Everything(image: string, sidecar: PodContainer, volume: Volume, configMap: string, secret: string): SpecValue
  {
    SpecValue(
      Some(MasterValue([Container("jenkins", image, "Always", Unset, [], [], [], None, None),
                        Container(sidecar.name, sidecar.image, "Always", Unset, [], [], sidecar.mounts, None, None)],
                       [volume], [])),
      Rest("", false, ZERO_SERVICE, ZERO_SERVICE, None, Some(Configuration(true, true, secret, [configMap], true)), true))
  }

  /** Its volumes, one by one. */
  lemma AllVolumes(jenkins: string, image: string, sidecar: PodContainer, volume: Volume, configMap: string, secret: string)
    requires secret != ""
    ensures var v := Everything(image, sidecar, volume, configMap, secret);
            NewJenkinsDeployment(jenkins, v, v).volumes == [
              Volume("jenkins-home", EmptyDir),
              Volume("scripts", ConfigMap("jenkins-" + jenkins + "-scripts", false)),
              Volume("init-configuration", ConfigMap("jenkins-" + jenkins + "-init-configuration", false)),
              Volume("base-plugins", ConfigMap("jenkins-" + jenkins + "-base-plugins", false)),
              Volume("operator-credentials", Secret("jenkins-" + jenkins + "-credentials", false)),
              Volume("casc-config", EmptyDir),
              Volume("casc-default-jenkins-default-configuration", ConfigMap("jenkins-default-configuration", false)),
              Volume("casc-init-" + configMap, ConfigMap(configMap, false)),
              Volume("casc-secret", Secret(secret, false)),
              volume,
              Volume("backup-pool", Claim(jenkins + "-jenkins-backup")),
              Volume("helper-scripts", EmptyDir)]
  {
  }

  /** Its containers with their mounts, one by one. */
  lemma AllContainers(jenkins: string, image: string, sidecar: PodContainer, volume: Volume, configMap: string, secret: string)
    requires secret != ""
    ensures var v := Everything(image, sidecar, volume, configMap, secret);
            NewJenkinsDeployment(jenkins, v, v).containers == [
              PodContainer("jenkins", image, [
                Mount("jenkins-home", "/var/lib/jenkins"), Mount("scripts", "/var/jenkins/scripts"),
                Mount("init-configuration", "/var/jenkins/init-configuration"),
                Mount("base-plugins", "/var/jenkins/base-plugins"),
                Mount("casc-config", "/var/jenkins/configuration-as-code"),
                Mount("casc-secret", "/tmp/configuration-as-code-secrets")]),
              PodContainer("config", "", [
                Mount("casc-config", "/tmp/configuration-as-code-secrets"), Mount("jenkins-home", "/var/lib/jenkins"),
                Mount("scripts", "/var/jenkins/scripts")]),
              sidecar,
              PodContainer("backup", "", [
                Mount("backup-pool", "/jenkins-backups"), Mount("helper-scripts", "/jenkins-operator-scripts"),
                Mount("jenkins-home", "/var/lib/jenkins")])]
  {
    var v := Everything(image, sidecar, volume, configMap, secret);
    var master, rest := v.master.value, v.rest;
    assert HomePath(master) == "/var/lib/jenkins" by {
      assert JenkinsOptions.FirstValue([], "JENKINS_HOME") == None;
    }
    assert MasterContainer(master, rest.casc).mounts == [
      Mount("jenkins-home", "/var/lib/jenkins"), Mount("scripts", "/var/jenkins/scripts"),
      Mount("init-configuration", "/var/jenkins/init-configuration"), Mount("base-plugins", "/var/jenkins/base-plugins"),
      Mount("casc-config", "/var/jenkins/configuration-as-code"),
      Mount("casc-secret", "/tmp/configuration-as-code-secrets")];
    assert Sidecars(master.containers[1..]) == [sidecar];
    assert Containers(master, rest) ==
           [MasterContainer(master, rest.casc), ConfigSidecar(master), sidecar, BackupSidecar(master)];
  }

  /** Its init containers with their mounts, one by one. */
  lemma AllInitContainers(jenkins: string, image: string, sidecar: PodContainer, volume: Volume, configMap: string, secret: string)
    requires secret != ""
    ensures var v := Everything(image, sidecar, volume, configMap, secret);
            NewJenkinsDeployment(jenkins, v, v).initContainers == [
              PodContainer("plugins-init", image, [
                Mount("scripts", "/var/jenkins/scripts"), Mount("base-plugins", "/var/jenkins/base-plugins")]),
              PodContainer("config-init", image, [
                Mount("casc-config", "/var/jenkins/configuration-as-code"),
                Mount("casc-default-jenkins-default-configuration", "/var/jenkins/" + "casc-default-jenkins-default-configuration"),
                Mount("casc-init-" + configMap, "/var/jenkins/" + ("casc-init-" + configMap))]),
              PodContainer("backup-init", image, [
                Mount("backup-pool", "/jenkins-backups"), Mount("helper-scripts", "/jenkins-operator-scripts")])]
  {
    var v := Everything(image, sidecar, volume, configMap, secret);
    assert ConfigInit(image, v.rest.casc).mounts == [
      Mount("casc-config", "/var/jenkins/configuration-as-code"),
      Mount("casc-default-jenkins-default-configuration", "/var/jenkins/" + "casc-default-jenkins-default-configuration"),
      Mount("casc-init-" + configMap, "/var/jenkins/" + ("casc-init-" + configMap))];
    assert InitContainers(v.master.value, v.rest) ==
           [PluginsInit(image), ConfigInit(image, v.rest.casc), BackupInit(image)];
  }

  /** A home of its own is where the home volume is mounted. */
  lemma HomeIsMounted(master: MasterValue, casc: Option<Configuration>, before: seq<EnvVar>, home: string, after: seq<EnvVar>)
    requires master.containers != [] && forall i | 0 <= i < |before| :: before[i].name != "JENKINS_HOME"
    requires master.containers[0].env == before + [JenkinsOptions.EnvVar("JENKINS_HOME", home)] + after
    ensures MasterContainer(master, casc).mounts[0] == Mount("jenkins-home", home)
  {
    JenkinsOptions.FirstIsFirst(before, "JENKINS_HOME", home, after);
  }
}
