/** Defaulting, validation and the deployment builders together: what an accepted spec is turned into. */
module ClosedPods {
  import opened Common
  import opened Specs
  import opened Pods
  import Defaulting
  import Plugins
  import Validation

  predicate Covered(mounts: seq<Mount>, volumes: seq<Volume>)
  {
    forall m | m in mounts :: Validation.Names(volumes, m.name)
  }

  /** Every mount of every container and init container names a volume of the deployment. */
  predicate Closed(d: Deployment)
  {
    AllCovered(d.initContainers, d.volumes) && AllCovered(d.containers, d.volumes)
  }

  /** A volume of this name is part of the list, at a place that is easy to see. */
  lemma NamedAt(volumes: seq<Volume>, i: nat)
    requires i < |volumes|
    ensures Validation.Names(volumes, volumes[i].name)
  {
  }

  lemma NamesWiden(a: seq<Volume>, b: seq<Volume>, name: string)
    ensures Validation.Names(a + b, name) <==> Validation.Names(a, name) || Validation.Names(b, name)
  {
    if Validation.Names(a, name) {
      var i :| 0 <= i < |a| && a[i].name == name;
      assert (a + b)[i].name == name;
    }
    if Validation.Names(b, name) {
      var i :| 0 <= i < |b| && b[i].name == name;
      assert (a + b)[|a| + i].name == name;
    }
  }

  lemma CoveredWiden(mounts: seq<Mount>, a: seq<Volume>, b: seq<Volume>)
    requires Covered(mounts, a)
    ensures Covered(mounts, a + b)
  {
    forall m | m in mounts ensures Validation.Names(a + b, m.name) {
      NamesWiden(a, b, m.name);
    }
  }

  /** The five volumes that are always there. */
  lemma FixedNames(jenkins: string, casc: Option<Configuration>)
    ensures var base := BaseVolumes(jenkins, casc);
            && Validation.Names(base, HOME_VOLUME) && Validation.Names(base, SCRIPTS_VOLUME)
            && Validation.Names(base, INIT_VOLUME) && Validation.Names(base, PLUGINS_VOLUME)
            && Validation.Names(base, CREDENTIALS_VOLUME)
  {
    var base := BaseVolumes(jenkins, casc);
    NamedAt(base, 0);
    NamedAt(base, 1);
    NamedAt(base, 2);
    NamedAt(base, 3);
    NamedAt(base, 4);
  }

  /** Which configuration-as-code volumes there are. */
  lemma CascNames(c: Configuration)
    requires c.enabled
    ensures var vs := CascVolumes(Some(c));
            && Validation.Names(vs, CASC_VOLUME)
            && (c.defaultConfig ==> Validation.Names(vs, CASC_DEFAULT_VOLUME))
            && (c.secret != "" ==> Validation.Names(vs, CASC_SECRET_VOLUME))
            && (forall cm | cm in c.configurations :: Validation.Names(vs, CascInit(cm)))
  {
    var vs := CascVolumes(Some(c));
    NamedAt(vs, 0);
    if c.defaultConfig {
      NamedAt(vs, 1);
    }
    if c.secret != "" {
      NamedAt(vs, |vs| - 1);
    }
    var from := if c.defaultConfig then 2 else 1;
    forall cm | cm in c.configurations ensures Validation.Names(vs, CascInit(cm)) {
      var i :| 0 <= i < |c.configurations| && c.configurations[i] == cm;
      assert vs[from + i] == InitVolumes(c.configurations)[i];
    }
  }

  lemma BaseHasCasc(jenkins: string, c: Configuration, name: string)
    requires Validation.Names(CascVolumes(Some(c)), name)
    ensures Validation.Names(BaseVolumes(jenkins, Some(c)), name)
  {
    var base := BaseVolumes(jenkins, Some(c));
    assert base == base[..5] + CascVolumes(Some(c));
    NamesWiden(base[..5], CascVolumes(Some(c)), name);
  }

  /** The operator's own mounts are covered by its own volumes, whatever the flags. */
  lemma MasterCovered(jenkins: string, master: MasterValue, c: Configuration)
    requires master.containers != []
    ensures Covered(MasterMounts(master, Some(c)), BaseVolumes(jenkins, Some(c)))
  {
    hide Validation.Names, BaseVolumes, CascVolumes;
    FixedNames(jenkins, Some(c));
    if c.enabled {
      CascNames(c);
      BaseHasCasc(jenkins, c, CASC_VOLUME);
      if c.secret != "" {
        BaseHasCasc(jenkins, c, CASC_SECRET_VOLUME);
      }
    }
  }

  lemma ConfigSidecarCovered(jenkins: string, master: MasterValue, c: Configuration)
    requires master.containers != [] && c.enabled
    ensures Covered(ConfigSidecar(master).mounts, BaseVolumes(jenkins, Some(c)))
  {
    FixedNames(jenkins, Some(c));
    CascNames(c);
    BaseHasCasc(jenkins, c, CASC_VOLUME);
  }

  lemma CoveredConcat(a: seq<Mount>, b: seq<Mount>, volumes: seq<Volume>)
    ensures Covered(a + b, volumes) <==> Covered(a, volumes) && Covered(b, volumes)
  {
    hide Validation.Names;
    if Covered(a + b, volumes) {
      assert forall m | m in a :: m in a + b;
      assert forall m | m in b :: m in a + b;
    }
  }

  lemma OneCovered(m: Mount, volumes: seq<Volume>)
    requires Validation.Names(volumes, m.name)
    ensures Covered([m], volumes)
  {
  }

  lemma InitMountsCovered(jenkins: string, c: Configuration)
    requires c.enabled
    ensures Covered(InitMounts(c.configurations), BaseVolumes(jenkins, Some(c)))
  {
    hide Validation.Names, BaseVolumes, CascVolumes;
    CascNames(c);
    var mounts := InitMounts(c.configurations);
    forall m | m in mounts ensures Validation.Names(BaseVolumes(jenkins, Some(c)), m.name) {
      var i :| 0 <= i < |mounts| && m == mounts[i];
      assert c.configurations[i] in c.configurations;
      BaseHasCasc(jenkins, c, CascInit(c.configurations[i]));
    }
  }

  lemma ConfigInitCovered(jenkins: string, image: string, c: Configuration)
    requires c.enabled
    ensures Covered(ConfigInit(image, Some(c)).mounts, BaseVolumes(jenkins, Some(c)))
  {
    hide Validation.Names, BaseVolumes, CascVolumes, Covered;
    CascNames(c);
    var base := BaseVolumes(jenkins, Some(c));
    var own := [Mount(CASC_VOLUME, "/var/jenkins/configuration-as-code")];
    var preset := if c.defaultConfig then [Mount(CASC_DEFAULT_VOLUME, "/var/jenkins/" + CASC_DEFAULT_VOLUME)] else [];
    BaseHasCasc(jenkins, c, CASC_VOLUME);
    OneCovered(own[0], base);
    if c.defaultConfig {
      BaseHasCasc(jenkins, c, CASC_DEFAULT_VOLUME);
      OneCovered(preset[0], base);
    } else {
      NothingCovered(base);
    }
    InitMountsCovered(jenkins, c);
    CoveredConcat(own, preset, base);
    CoveredConcat(own + preset, InitMounts(c.configurations), base);
  }

  lemma NothingCovered(volumes: seq<Volume>)
    ensures Covered([], volumes)
  {
  }

  lemma PluginsInitCovered(jenkins: string, image: string, casc: Option<Configuration>)
    ensures Covered(PluginsInit(image).mounts, BaseVolumes(jenkins, casc))
  {
    FixedNames(jenkins, casc);
  }

  /** The volumes of a deployment before those of the backup. */
  function Plain(jenkins: string, master: MasterValue, rest: Rest): seq<Volume>
  {
    BaseVolumes(jenkins, rest.casc) + master.volumes
  }

  lemma BackupNames(jenkins: string)
    ensures Validation.Names(BackupVolumes(jenkins, true), BACKUP_VOLUME)
    ensures Validation.Names(BackupVolumes(jenkins, true), HELPER_VOLUME)
  {
    NamedAt(BackupVolumes(jenkins, true), 0);
    NamedAt(BackupVolumes(jenkins, true), 1);
  }

  lemma BackupCovered(jenkins: string, master: MasterValue, rest: Rest)
    requires master.containers != []
    ensures var all := Plain(jenkins, master, rest) + BackupVolumes(jenkins, true);
            Covered(BackupSidecar(master).mounts, all) && Covered(BackupInit(master.containers[0].image).mounts, all)
  {
    var plain, backup := Plain(jenkins, master, rest), BackupVolumes(jenkins, true);
    BackupNames(jenkins);
    NamesWiden(plain, backup, BACKUP_VOLUME);
    NamesWiden(plain, backup, HELPER_VOLUME);
    FixedNames(jenkins, rest.casc);
    NamesWiden(BaseVolumes(jenkins, rest.casc), master.volumes, HOME_VOLUME);
    NamesWiden(plain, backup, HOME_VOLUME);
  }

  /** Mounts of the user's containers are covered by the volumes of the deployment. */
  predicate UserCovered(jenkins: string, master: MasterValue, rest: Rest)
  {
    forall c | c in master.containers :: Covered(c.mounts, Plain(jenkins, master, rest) + BackupVolumes(jenkins, rest.backupEnabled))
  }

  lemma CoveredByAll(mounts: seq<Mount>, jenkins: string, master: MasterValue, rest: Rest)
    requires Covered(mounts, BaseVolumes(jenkins, rest.casc))
    ensures Covered(mounts, Plain(jenkins, master, rest) + BackupVolumes(jenkins, rest.backupEnabled))
  {
    CoveredWiden(mounts, BaseVolumes(jenkins, rest.casc), master.volumes);
    CoveredWiden(mounts, Plain(jenkins, master, rest), BackupVolumes(jenkins, rest.backupEnabled));
  }

  lemma InitContainersCovered(jenkins: string, master: MasterValue, rest: Rest)
    requires master.containers != [] && rest.casc.Some?
    ensures forall c | c in InitContainers(master, rest) ::
              Covered(c.mounts, Plain(jenkins, master, rest) + BackupVolumes(jenkins, rest.backupEnabled))
  {
    var image := master.containers[0].image;
    PluginsInitCovered(jenkins, image, rest.casc);
    CoveredByAll(PluginsInit(image).mounts, jenkins, master, rest);
    if rest.casc.value.enabled {
      ConfigInitCovered(jenkins, image, rest.casc.value);
      CoveredByAll(ConfigInit(image, rest.casc).mounts, jenkins, master, rest);
    }
    if rest.backupEnabled {
      BackupCovered(jenkins, master, rest);
    }
  }

  /** All containers are covered exactly if the user's are. */
  lemma ContainersCoveredIff(jenkins: string, master: MasterValue, rest: Rest)
    requires master.containers != [] && rest.casc.Some?
    ensures AllCovered(Containers(master, rest), Plain(jenkins, master, rest) + BackupVolumes(jenkins, rest.backupEnabled)) <==>
            UserCovered(jenkins, master, rest)
  {
    var all := Plain(jenkins, master, rest) + BackupVolumes(jenkins, rest.backupEnabled);
    var c := rest.casc.value;
    var own := MasterContainer(master, rest.casc);
    MasterCovered(jenkins, master, c);
    CoveredByAll(MasterMounts(master, rest.casc), jenkins, master, rest);
    assert Covered(own.mounts, all) <==> Covered(master.containers[0].mounts, all);
    if c.enabled {
      ConfigSidecarCovered(jenkins, master, c);
      CoveredByAll(ConfigSidecar(master).mounts, jenkins, master, rest);
    }
    if rest.backupEnabled {
      BackupCovered(jenkins, master, rest);
    }
    SidecarsCoveredIff(master.containers, all);
    ContainersSplit(master, rest, all);
  }

  predicate AllCovered(cs: seq<PodContainer>, all: seq<Volume>)
  {
    forall c | c in cs :: Covered(c.mounts, all)
  }

  lemma AllCoveredConcat(a: seq<PodContainer>, b: seq<PodContainer>, all: seq<Volume>)
    ensures AllCovered(a + b, all) <==> AllCovered(a, all) && AllCovered(b, all)
  {
    if AllCovered(a + b, all) {
      forall c | c in a ensures Covered(c.mounts, all) {
        assert c in a + b;
      }
      forall c | c in b ensures Covered(c.mounts, all) {
        assert c in a + b;
      }
    }
  }

  lemma SidecarsCoveredIff(cs: seq<Container>, all: seq<Volume>)
    requires cs != []
    ensures AllCovered(Sidecars(cs[1..]), all) && Covered(cs[0].mounts, all) <==>
            forall c | c in cs :: Covered(c.mounts, all)
  {
    var side := Sidecars(cs[1..]);
    if AllCovered(side, all) && Covered(cs[0].mounts, all) {
      forall c | c in cs ensures Covered(c.mounts, all) {
        var i :| 0 <= i < |cs| && cs[i] == c;
        if i > 0 {
          assert side[i - 1] in side && side[i - 1] == Converted(c);
        }
      }
    }
    if forall c | c in cs :: Covered(c.mounts, all) {
      forall p | p in side ensures Covered(p.mounts, all) {
        var i :| 0 <= i < |side| && p == side[i];
        assert cs[i + 1] in cs && p == Converted(cs[i + 1]);
      }
    }
  }

  lemma ContainersSplit(master: MasterValue, rest: Rest, all: seq<Volume>)
    requires master.containers != [] && rest.casc.Some?
    requires rest.casc.value.enabled ==> Covered(ConfigSidecar(master).mounts, all)
    requires rest.backupEnabled ==> Covered(BackupSidecar(master).mounts, all)
    ensures AllCovered(Containers(master, rest), all) <==>
            Covered(MasterContainer(master, rest.casc).mounts, all) && AllCovered(Sidecars(master.containers[1..]), all)
  {
    var own, side := [MasterContainer(master, rest.casc)], Sidecars(master.containers[1..]);
    var config := if rest.casc.value.enabled && rest.casc.value.enableAutoReload then [ConfigSidecar(master)] else [];
    var backup := if rest.backupEnabled then [BackupSidecar(master)] else [];
    AllCoveredConcat(config, side, all);
    AllCoveredConcat(own, config + side, all);
    AllCoveredConcat(own + (config + side), backup, all);
    assert own[0] in own;
  }

  /** What defaulting guarantees to the builders. */
  lemma DefaultedShape(v: SpecValue, e: Defaulting.Environment)
    requires Defaulting.Defaulted(v, e).Ok?
    ensures var s := Defaulting.Defaulted(v, e).value;
            s.master.Some? && s.master.value.containers != [] && s.rest.casc.Some? && s.rest.backupEnabled == v.rest.backupEnabled
  {
  }

  /** Of a defaulted spec, the deployment is closed if and only if the user's own mounts are. */
  lemma {:induction false} ClosedIff(jenkins: string, v: SpecValue, e: Defaulting.Environment)
    requires Defaulting.Defaulted(v, e).Ok?
    ensures var s := Defaulting.Defaulted(v, e).value;
            s.master.Some? && s.master.value.containers != [] &&
            (Closed(NewJenkinsDeployment(jenkins, v, s)) <==> UserCovered(jenkins, s.master.value, s.rest))
  {
    DefaultedShape(v, e);
    var s := Defaulting.Defaulted(v, e).value;
    var master := s.master.value;
    InitContainersCovered(jenkins, master, s.rest);
    ContainersCoveredIff(jenkins, master, s.rest);
  }

  /**
   * Accepted specs build closed pods: when defaulting succeeds and validation has neither messages nor an error,
   * every mount of every container and init container names a volume of the deployment, for every combination of
   * configuration-as-code, secret, auto-reload and backup flags.
   */
  lemma {:induction false} AcceptedIsClosed(jenkins: string, v: SpecValue, e: Defaulting.Environment,
                         required: seq<Plugins.Plugin>, o: Validation.Oracle)
    requires Defaulting.Defaulted(v, e).Ok?
    requires var s := Defaulting.Defaulted(v, e).value;
             s.master.Some? && s.master.value.containers != [] &&
             Validation.Accepted(jenkins, s.master.value, s.rest, required, o)
    ensures Closed(NewJenkinsDeployment(jenkins, v, Defaulting.Defaulted(v, e).value))
  {
    var s := Defaulting.Defaulted(v, e).value;
    var master := s.master.value;
    forall c | c in master.containers
      ensures Covered(c.mounts, Plain(jenkins, master, s.rest) + BackupVolumes(jenkins, s.rest.backupEnabled))
    {
      assert Validation.ContainerFine(c, Plain(jenkins, master, s.rest), o);
      CoveredWiden(c.mounts, Plain(jenkins, master, s.rest), BackupVolumes(jenkins, s.rest.backupEnabled));
    }
    ClosedIff(jenkins, v, e);
  }

  /** The mount check of validation, against the deployment: complete but for the two backup volumes. */
  lemma MountCheckIff(jenkins: string, master: MasterValue, rest: Rest, m: Mount)
    ensures Validation.Names(Plain(jenkins, master, rest) + BackupVolumes(jenkins, rest.backupEnabled), m.name) <==>
            Validation.Names(Plain(jenkins, master, rest), m.name) ||
            (rest.backupEnabled && (m.name == BACKUP_VOLUME || m.name == HELPER_VOLUME))
  {
    NamesWiden(Plain(jenkins, master, rest), BackupVolumes(jenkins, rest.backupEnabled), m.name);
    if rest.backupEnabled {
      BackupNames(jenkins);
    }
  }

  predicate Distinct(volumes: seq<Volume>)
  {
    forall i, j | 0 <= i < j < |volumes| :: volumes[i].name != volumes[j].name
  }

  predicate DistinctStrings(s: seq<string>)
  {
    forall i, j | 0 <= i < j < |s| :: s[i] != s[j]
  }

  lemma DistinctConcat(a: seq<Volume>, b: seq<Volume>)
    ensures Distinct(a + b) <==> Distinct(a) && Distinct(b) && forall j | 0 <= j < |b| :: !Validation.Names(a, b[j].name)
  {
    var ab := a + b;
    if Distinct(ab) {
      forall i, j | 0 <= i < j < |a| ensures a[i].name != a[j].name {
        assert ab[i] == a[i] && ab[j] == a[j];
      }
      forall i, j | 0 <= i < j < |b| ensures b[i].name != b[j].name {
        assert ab[|a| + i] == b[i] && ab[|a| + j] == b[j];
      }
      forall j | 0 <= j < |b| ensures !Validation.Names(a, b[j].name) {
        forall i | 0 <= i < |a| ensures a[i].name != b[j].name {
          assert ab[i] == a[i] && ab[|a| + j] == b[j];
        }
      }
    }
  }

  /** The names of the operator's volumes, configuration-as-code aside, and of those for configuration as code, differ. */
  lemma FixedDiffer()
    ensures HOME_VOLUME[0] == 'j' && SCRIPTS_VOLUME[0] == 's' && INIT_VOLUME[0] == 'i' && PLUGINS_VOLUME[..2] == "ba"
    ensures CREDENTIALS_VOLUME[0] == 'o' && BACKUP_VOLUME[..4] == "back" && PLUGINS_VOLUME[..4] == "base" && HELPER_VOLUME[0] == 'h'
    ensures CASC_VOLUME[..6] == "casc-c" && CASC_DEFAULT_VOLUME[..6] == "casc-d" && CASC_SECRET_VOLUME[..6] == "casc-s"
    ensures forall cm :: CascInit(cm)[..6] == "casc-i"
  {
    var d := CASC_DEFAULT_VOLUME;
    assert d[0] == 'c' && d[1] == 'a' && d[2] == 's' && d[3] == 'c' && d[4] == '-' && d[5] == 'd';
    forall cm ensures CascInit(cm)[..6] == "casc-i" {
      assert CascInit(cm)[..10] == "casc-init-";
      assert CascInit(cm)[..6] == CascInit(cm)[..10][..6];
    }
  }

  lemma CascInitInjective(a: string, b: string)
    requires CascInit(a) == CascInit(b)
    ensures a == b
  {
    assert a == CascInit(a)[10..] && b == CascInit(b)[10..];
  }

  lemma InitVolumesDistinct(cms: seq<string>)
    ensures Distinct(InitVolumes(cms)) <==> DistinctStrings(cms)
  {
    var vs := InitVolumes(cms);
    if Distinct(vs) {
      forall i, j | 0 <= i < j < |cms| ensures cms[i] != cms[j] {
        assert vs[i].name != vs[j].name;
      }
    }
    if DistinctStrings(cms) {
      forall i, j | 0 <= i < j < |vs| ensures vs[i].name != vs[j].name {
        if vs[i].name == vs[j].name {
          CascInitInjective(cms[i], cms[j]);
        }
      }
    }
  }

  lemma CascDistinct(casc: Option<Configuration>)
    ensures Distinct(CascVolumes(casc)) <==>
            casc.None? || !casc.value.enabled || DistinctStrings(casc.value.configurations)
    ensures forall i | 0 <= i < |CascVolumes(casc)| :: |CascVolumes(casc)[i].name| >= 5 && CascVolumes(casc)[i].name[..5] == "casc-"
  {
    FixedDiffer();
    if casc.Some? && casc.value.enabled {
      var c := casc.value;
      var head := [Volume(CASC_VOLUME, EmptyDir)] +
        (if c.defaultConfig then [Volume(CASC_DEFAULT_VOLUME, ConfigMap("jenkins-default-configuration", false))] else []);
      var inits := InitVolumes(c.configurations);
      var tail := if c.secret != "" then [Volume(CASC_SECRET_VOLUME, Secret(c.secret, false))] else [];
      assert CascVolumes(casc) == head + inits + tail;
      InitVolumesDistinct(c.configurations);
      HeadTailDistinct(head, inits, tail);
      forall i | 0 <= i < |CascVolumes(casc)|
        ensures |CascVolumes(casc)[i].name| >= 5 && CascVolumes(casc)[i].name[..5] == "casc-"
      {
        CascPrefix(head, inits, tail, i);
      }
    }
  }

  lemma CascPrefix(head: seq<Volume>, inits: seq<Volume>, tail: seq<Volume>, i: nat)
    requires forall k | 0 <= k < |head| :: head[k].name == CASC_VOLUME || head[k].name == CASC_DEFAULT_VOLUME
    requires forall k | 0 <= k < |inits| :: exists cm :: inits[k].name == CascInit(cm)
    requires forall k | 0 <= k < |tail| :: tail[k].name == CASC_SECRET_VOLUME
    requires i < |head + inits + tail|
    ensures |(head + inits + tail)[i].name| >= 5 && (head + inits + tail)[i].name[..5] == "casc-"
  {
    FixedDiffer();
    var name := (head + inits + tail)[i].name;
    assert |name| >= 6 && name[..5] == name[..6][..5];
  }

  lemma HeadTailDistinct(head: seq<Volume>, inits: seq<Volume>, tail: seq<Volume>)
    requires |head| <= 2 && |head| >= 1 && head[0].name == CASC_VOLUME && (|head| == 2 ==> head[1].name == CASC_DEFAULT_VOLUME)
    requires forall k | 0 <= k < |inits| :: |inits[k].name| >= 6 && inits[k].name[..6] == "casc-i"
    requires |tail| <= 1 && (|tail| == 1 ==> tail[0].name == CASC_SECRET_VOLUME)
    ensures Distinct(head + inits + tail) <==> Distinct(inits)
  {
    FixedDiffer();
    DistinctConcat(head, inits);
    DistinctConcat(head + inits, tail);
  }

  /** The five volumes that are always there differ, and none is named like one for configuration as code. */
  lemma FixedDistinct(fixed: seq<Volume>)
    requires |fixed| == 5
    requires fixed[0].name == HOME_VOLUME && fixed[1].name == SCRIPTS_VOLUME && fixed[2].name == INIT_VOLUME
    requires fixed[3].name == PLUGINS_VOLUME && fixed[4].name == CREDENTIALS_VOLUME
    ensures Distinct(fixed)
    ensures forall i | 0 <= i < 5 :: fixed[i].name != "" && fixed[i].name[0] != 'c'
  {
    FixedDiffer();
    assert PLUGINS_VOLUME[0] == PLUGINS_VOLUME[..2][0] == 'b';
  }

  lemma BaseDistinct(jenkins: string, casc: Option<Configuration>)
    ensures Distinct(BaseVolumes(jenkins, casc)) <==>
            casc.None? || !casc.value.enabled || DistinctStrings(casc.value.configurations)
  {
    var fixed, cascs := BaseVolumes(jenkins, casc)[..5], CascVolumes(casc);
    assert BaseVolumes(jenkins, casc) == fixed + cascs;
    CascDistinct(casc);
    FixedDistinct(fixed);
    DistinctConcat(fixed, cascs);
    forall j | 0 <= j < |cascs| ensures !Validation.Names(fixed, cascs[j].name) {
      assert cascs[j].name[0] == cascs[j].name[..5][0] == 'c';
    }
  }

  lemma BackupApart(jenkins: string, casc: Option<Configuration>)
    ensures !Validation.Names(BaseVolumes(jenkins, casc), BACKUP_VOLUME)
    ensures !Validation.Names(BaseVolumes(jenkins, casc), HELPER_VOLUME)
    ensures Distinct(BackupVolumes(jenkins, true))
  {
    FixedDiffer();
    CascDistinct(casc);
    var base := BaseVolumes(jenkins, casc);
    forall i | 0 <= i < |base| ensures base[i].name != BACKUP_VOLUME && base[i].name != HELPER_VOLUME {
      if i >= 5 {
        assert base[i] == CascVolumes(casc)[i - 5];
        assert base[i].name[0] == base[i].name[..5][0] == 'c';
        assert BACKUP_VOLUME[0] == BACKUP_VOLUME[..4][0] == 'b';
      }
    }
  }

  /**
   * Whether volume names are unique, which validation does not promise: of an accepted spec they are if and only
   * if the configurations are named once each, the user's volumes are, and with backups none of the user's
   * volumes takes a name of the backup.
   */
  lemma {:induction false} UniqueNamesIff(jenkins: string, v: SpecValue, e: Defaulting.Environment,
                       required: seq<Plugins.Plugin>, o: Validation.Oracle)
    requires Defaulting.Defaulted(v, e).Ok?
    requires var s := Defaulting.Defaulted(v, e).value;
             s.master.Some? && s.master.value.containers != [] &&
             Validation.Accepted(jenkins, s.master.value, s.rest, required, o)
    ensures var s := Defaulting.Defaulted(v, e).value;
            Distinct(NewJenkinsDeployment(jenkins, v, s).volumes) <==>
              && (s.rest.casc.value.enabled ==> DistinctStrings(s.rest.casc.value.configurations))
              && Distinct(s.master.value.volumes)
              && (v.rest.backupEnabled ==>
                    !Validation.Names(s.master.value.volumes, BACKUP_VOLUME) &&
                    !Validation.Names(s.master.value.volumes, HELPER_VOLUME))
  {
    DefaultedShape(v, e);
    var s := Defaulting.Defaulted(v, e).value;
    var base, own := BaseVolumes(jenkins, s.rest.casc), s.master.value.volumes;
    BaseDistinct(jenkins, s.rest.casc);
    DistinctConcat(base, own);
    DistinctConcat(base + own, BackupVolumes(jenkins, v.rest.backupEnabled));
    BackupApart(jenkins, s.rest.casc);
    NamesWiden(base, own, BACKUP_VOLUME);
    NamesWiden(base, own, HELPER_VOLUME);
    var backup := BackupVolumes(jenkins, v.rest.backupEnabled);
    assert v.rest.backupEnabled ==> backup[0].name == BACKUP_VOLUME && backup[1].name == HELPER_VOLUME && |backup| == 2;
  }

  /** A spec with nothing but a master container and two volumes of one name. */
  function TwoOfOneName(): SpecValue
  {
    var c := Container(Defaulting.MASTER_CONTAINER, "jenkins/jenkins:lts", "Always", Unset, [], [], [], None, None);
    SpecValue(Some(MasterValue([c], [Volume("data", EmptyDir), Volume("data", EmptyDir)], [])),
              Rest("", false, ZERO_SERVICE, ZERO_SERVICE, None, None, false))
  }

  /** "data" is no name of a base volume. */
  lemma DataIsFree(jenkins: string)
    ensures !Validation.Names(BaseVolumes(jenkins, Some(Configuration(true, true, "", [], true))), "data")
  {
    FixedDiffer();
    var casc := Some(Configuration(true, true, "", [], true));
    CascDistinct(casc);
    var base := BaseVolumes(jenkins, casc);
    forall i | 0 <= i < |base| ensures base[i].name != "data" {
      if i < 5 {
        assert base[i].name[0] != 'd' by {
          assert PLUGINS_VOLUME[0] == PLUGINS_VOLUME[..2][0] == 'b';
        }
      } else {
        assert base[i] == CascVolumes(casc)[i - 5];
        assert base[i].name[0] == base[i].name[..5][0] == 'c';
      }
    }
  }

  /** It is accepted, whatever the Jenkins is called, and its deployment has two volumes of one name. */
  lemma DuplicateNamesAccepted(jenkins: string, e: Defaulting.Environment, required: seq<Plugins.Plugin>, o: Validation.Oracle)
    requires Validation.PluginsFine(required, e.basePlugins, o)
    requires o.imageMatches("jenkins/jenkins:lts") && o.lookup(Validation.ConfigMaps, Validation.DEFAULT_CONFIG_MAP).Found?
    ensures var v := TwoOfOneName();
            Defaulting.Defaulted(v, e).Ok? &&
            var s := Defaulting.Defaulted(v, e).value;
            && s.master.Some? && s.master.value.containers != []
            && Validation.Accepted(jenkins, s.master.value, s.rest, required, o)
            && !Distinct(NewJenkinsDeployment(jenkins, v, s).volumes)
  {
    hide BaseVolumes, Validation.FlagsSet, Validation.PluginsFine;
    var v := TwoOfOneName();
    var c := v.master.value.containers[0];
    TwoOfOneNameDefaulted(e);
    var s := Defaulting.Defaulted(v, e).value;
    DataIsFree(jenkins);
    Validation.DefaultedHasFlags(c, c.image);
    var base := BaseVolumes(jenkins, s.rest.casc);
    var own := s.master.value.volumes;
    NotReserved(base, own);
    SecondClash(base, own, BackupVolumes(jenkins, false));
  }

  lemma TwoOfOneNameDefaulted(e: Defaulting.Environment)
    ensures var v := TwoOfOneName(); var c := v.master.value.containers[0];
            Defaulting.Defaulted(v, e) ==
            Ok(SpecValue(Some(MasterValue([Defaulting.MasterDefaulted(c, c.image)], v.master.value.volumes, e.basePlugins)),
                         Defaulting.RestDefaulted(v.rest, e)))
  {
    var v := TwoOfOneName();
    var c := v.master.value.containers[0];
    Defaulting.Assembled(v, e, c, c.image,
      MasterValue([Defaulting.MasterDefaulted(c, c.image)], v.master.value.volumes, e.basePlugins));
  }

  lemma NotReserved(base: seq<Volume>, own: seq<Volume>)
    requires !Validation.Names(base, "data") && forall i | 0 <= i < |own| :: own[i].name == "data"
    ensures Validation.NothingReserved(base, own)
  {
  }

  lemma SecondClash(a: seq<Volume>, own: seq<Volume>, b: seq<Volume>)
    requires |own| >= 2 && own[0].name == own[1].name
    ensures !Distinct(a + own + b)
  {
    var all := a + own + b;
    assert all[|a|] == own[0] && all[|a| + 1] == own[1];
  }
}
