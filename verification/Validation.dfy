/** Validation of a calculated spec. */
module Validation {
  import opened Common
  import opened Strings
  import opened Specs
  import Defaulting
  import JenkinsOptions
  import Plugins
  import Pods

  datatype Kind = ConfigMaps | Secrets | Claims

  datatype Reply = Found | NotFound | Failed

  /** What validation asks the API server, and the pattern checks. */
  datatype Oracle = Oracle(
    lookup: (Kind, string) -> Reply, createFails: bool, imageMatches: string -> bool, urlMatches: string -> bool)

  datatype Message =
    | ReservedVolume(name: string)
    | ObjectNotFound(kind: Kind, name: string)
    | ImageNotSet | InvalidImage | PullPolicyNotSet
    | MountPathNotSet(name: string)
    | VolumeNotFound(name: string)
    | PluginProblem(complaint: Plugins.Complaint)
    | MissingFlag(flag: string)
    | SecretWithoutConfigurations
    | EmptyConfigurationName(index: nat)

  predicate Names(volumes: seq<Volume>, name: string)
  {
    exists i | 0 <= i < |volumes| :: volumes[i].name == name
  }

  /** No user volume takes the name of a base volume. */
  predicate NothingReserved(base: seq<Volume>, volumes: seq<Volume>)
  {
    forall i | 0 <= i < |volumes| :: !Names(base, volumes[i].name)
  }

  /** The message is about one of the first `n` user volumes, whose name is that of a base volume. */
  predicate Reserves(m: Message, base: seq<Volume>, volumes: seq<Volume>, n: nat)
    requires n <= |volumes|
  {
    exists i | 0 <= i < n :: Names(base, volumes[i].name) && m == ReservedVolume(volumes[i].name)
  }

  method ValidateReservedVolumes(base: seq<Volume>, volumes: seq<Volume>) returns (messages: seq<Message>)
    ensures messages == [] <==> NothingReserved(base, volumes)
    ensures forall m :: m in messages <==> Reserves(m, base, volumes, |volumes|)
    ensures forall m | m in messages :: m.ReservedVolume?
  {
    messages := [];
    for b := 0 to |base|
      invariant forall m :: m in messages <==> Reserves(m, base[..b], volumes, |volumes|)
    {
      ghost var before := messages;
      for v := 0 to |volumes|
        invariant forall m :: m in messages <==> m in before || Reserves(m, [base[b]], volumes, v)
      {
        OneName(base[b], volumes[v].name);
        if base[b].name == volumes[v].name {
          messages := messages + [ReservedVolume(volumes[v].name)];
        }
      }
      assert base[..b + 1] == base[..b] + [base[b]];
      forall m ensures Reserves(m, base[..b + 1], volumes, |volumes|) <==>
                       Reserves(m, base[..b], volumes, |volumes|) || Reserves(m, [base[b]], volumes, |volumes|)
      {
        ReservesSplit(m, base[..b], base[b], volumes);
      }
    }
    assert base[..|base|] == base;
    if messages != [] {
      assert messages[0] in messages;
    }
    forall i | 0 <= i < |volumes| && Names(base, volumes[i].name) ensures messages != [] {
      assert Reserves(ReservedVolume(volumes[i].name), base, volumes, |volumes|);
    }
  }

  lemma OneName(v: Volume, name: string)
    ensures Names([v], name) <==> v.name == name
  {
    assert [v][0] == v;
  }

  lemma ReservesSplit(m: Message, base: seq<Volume>, last: Volume, volumes: seq<Volume>)
    ensures Reserves(m, base + [last], volumes, |volumes|) <==>
            Reserves(m, base, volumes, |volumes|) || Reserves(m, [last], volumes, |volumes|)
  {
    forall name ensures Names(base + [last], name) <==> Names(base, name) || Names([last], name) {
      OneName(last, name);
      if Names(base, name) {
        var i :| 0 <= i < |base| && base[i].name == name;
        assert (base + [last])[i] == base[i];
      }
      assert (base + [last])[|base|] == last;
    }
  }

  /** The objects behind a volume, if it needs one. */
  function Backing(v: Volume): Option<(Kind, string)>
  {
    match v.source
    case ConfigMap(name, optional) => if optional then None else Some((ConfigMaps, name))
    case Secret(name, optional) => if optional then None else Some((Secrets, name))
    case Claim(name) => Some((Claims, name))
    case _ => None
  }

  predicate Backed(v: Volume, o: Oracle)
  {
    Backing(v).Some? ==> o.lookup(Backing(v).value.0, Backing(v).value.1).Found?
  }

  /** What each kind of volume needs: a ConfigMap or a Secret unless it is optional, a claim always, the others nothing. */
  lemma BackedMeans(name: string, source: string, optional: bool, o: Oracle)
    ensures Backed(Volume(name, ConfigMap(source, optional)), o) <==> optional || o.lookup(ConfigMaps, source).Found?
    ensures Backed(Volume(name, Secret(source, optional)), o) <==> optional || o.lookup(Secrets, source).Found?
    ensures Backed(Volume(name, Claim(source)), o) <==> o.lookup(Claims, source).Found?
    ensures Backed(Volume(name, EmptyDir), o) && Backed(Volume(name, Other), o)
  {
  }

  predicate AnswerIs(v: Volume, o: Oracle, reply: Reply)
  {
    Backing(v).Some? && o.lookup(Backing(v).value.0, Backing(v).value.1) == reply
  }

  predicate NotFoundFor(m: Message, volumes: seq<Volume>, o: Oracle)
  {
    exists v | v in volumes ::
      AnswerIs(v, o, NotFound) && m == ObjectNotFound(Backing(v).value.0, Backing(v).value.1)
  }

  method ValidateVolumes(volumes: seq<Volume>, o: Oracle) returns (r: Result<seq<Message>, ()>)
    ensures r == Ok([]) <==> forall v | v in volumes :: Backed(v, o)
    ensures r.Err? <==> exists v | v in volumes :: AnswerIs(v, o, Failed)
    ensures r.Ok? ==> forall m :: m in r.value <==> NotFoundFor(m, volumes, o)
    ensures r.Ok? ==> forall m | m in r.value :: m.ObjectNotFound?
  {
    var messages: seq<Message> := [];
    for i := 0 to |volumes|
      invariant messages == [] <==> forall k | 0 <= k < i :: Backed(volumes[k], o)
      invariant forall k | 0 <= k < i :: !AnswerIs(volumes[k], o, Failed)
      invariant forall m :: m in messages <==> NotFoundFor(m, volumes[..i], o)
    {
      assert volumes[..i + 1] == volumes[..i] + [volumes[i]];
      var needed := Backing(volumes[i]);
      if needed.Some? {
        var reply := o.lookup(needed.value.0, needed.value.1);
        if reply.NotFound? {
          messages := messages + [ObjectNotFound(needed.value.0, needed.value.1)];
        } else if reply.Failed? {
          assert volumes[i] in volumes && AnswerIs(volumes[i], o, Failed);
          return Err(());
        }
      }
    }
    assert volumes[..|volumes|] == volumes;
    r := Ok(messages);
  }

  predicate MountsFound(mounts: seq<Mount>, volumes: seq<Volume>)
  {
    forall m | m in mounts :: m.path != "" && Names(volumes, m.name)
  }

  /** The message is about one of the mounts: it has no path, or names no volume. */
  predicate Blames(m: Message, mounts: seq<Mount>, all: seq<Volume>)
  {
    exists mount | mount in mounts ::
      (mount.path == "" && m == MountPathNotSet(mount.name)) || (!Names(all, mount.name) && m == VolumeNotFound(mount.name))
  }

  method ValidateContainerVolumeMounts(mounts: seq<Mount>, all: seq<Volume>) returns (messages: seq<Message>)
    ensures messages == [] <==> MountsFound(mounts, all)
    ensures forall m :: m in messages <==> Blames(m, mounts, all)
  {
    messages := [];
    for i := 0 to |mounts|
      invariant forall m :: m in messages <==> Blames(m, mounts[..i], all)
      invariant messages == [] <==> forall k | 0 <= k < i :: mounts[k].path != "" && Names(all, mounts[k].name)
    {
      assert mounts[..i + 1] == mounts[..i] + [mounts[i]];
      if mounts[i].path == "" {
        messages := messages + [MountPathNotSet(mounts[i].name)];
      }
      var found := false;
      for j := 0 to |all|
        invariant found <==> exists k | 0 <= k < j :: all[k].name == mounts[i].name
      {
        if mounts[i].name == all[j].name {
          found := true;
        }
      }
      assert found <==> Names(all, mounts[i].name);
      if !found {
        messages := messages + [VolumeNotFound(mounts[i].name)];
      }
    }
    assert mounts[..|mounts|] == mounts;
  }

  predicate ContainerFine(c: Container, all: seq<Volume>, o: Oracle)
  {
    c.image != "" && o.imageMatches(c.image) && c.pullPolicy != "" && MountsFound(c.mounts, all)
  }

  /** A message about a container that is not about its mounts. */
  predicate OnContainer(m: Message)
  {
    m.ImageNotSet? || m.InvalidImage? || m.PullPolicyNotSet?
  }

  method ValidateContainer(c: Container, all: seq<Volume>, o: Oracle) returns (messages: seq<Message>)
    ensures messages == [] <==> ContainerFine(c, all, o)
    ensures ImageNotSet in messages <==> c.image == ""
    ensures InvalidImage in messages <==> !o.imageMatches(c.image)
    ensures PullPolicyNotSet in messages <==> c.pullPolicy == ""
    ensures forall m | m in messages && !OnContainer(m) :: Blames(m, c.mounts, all)
    ensures forall m | Blames(m, c.mounts, all) :: m in messages
    ensures forall m | m in messages :: OnContainer(m) || m.MountPathNotSet? || m.VolumeNotFound?
  {
    messages := [];
    if c.image == "" {
      messages := messages + [ImageNotSet];
    }
    if !o.imageMatches(c.image) {
      messages := messages + [InvalidImage];
    }
    if c.pullPolicy == "" {
      messages := messages + [PullPolicyNotSet];
    }
    var mounts := ValidateContainerVolumeMounts(c.mounts, all);
    messages := messages + mounts;
  }

  /** The value of the last variable of that name, or nothing. */
  function LastValue(env: seq<EnvVar>, name: string): string
  {
    if env == [] then ""
    else if env[|env| - 1].name == name then env[|env| - 1].value
    else LastValue(env[..|env| - 1], name)
  }

  /** It is the last: whatever comes before it does not matter, and nothing after it has the name. */
  lemma {:induction false} LastIsLast(before: seq<EnvVar>, name: string, value: string, after: seq<EnvVar>)
    requires forall i | 0 <= i < |after| :: after[i].name != name
    ensures LastValue(before + [JenkinsOptions.EnvVar(name, value)] + after, name) == value
    ensures LastValue(after, name) == ""
    decreases |after|
  {
    var env := before + [JenkinsOptions.EnvVar(name, value)] + after;
    if after != [] {
      assert env[..|env| - 1] == before + [JenkinsOptions.EnvVar(name, value)] + after[..|after| - 1];
      LastIsLast(before, name, value, after[..|after| - 1]);
    } else {
      assert env[|env| - 1].name == name;
    }
  }

  predicate FlagsSet(env: seq<EnvVar>)
  {
    var flags := Split(LastValue(env, Defaulting.JAVA_OPTS), ' ');
    "-Djenkins.install.runSetupWizard=false" in flags && "-Djava.awt.headless=true" in flags
  }

  method LastJavaOpts(env: seq<EnvVar>) returns (javaOpts: string)
    ensures javaOpts == LastValue(env, Defaulting.JAVA_OPTS)
  {
    javaOpts := "";
    for i := 0 to |env|
      invariant javaOpts == LastValue(env[..i], Defaulting.JAVA_OPTS)
    {
      assert env[..i + 1][..i] == env[..i];
      if env[i].name == Defaulting.JAVA_OPTS {
        javaOpts := env[i].value;
      }
    }
    assert env[..|env|] == env;
  }

  method MarkFlags(flags: seq<string>, needed: map<string, bool>) returns (required: map<string, bool>)
    requires forall f | f in needed :: !needed[f]
    ensures required.Keys == needed.Keys && forall f | f in required :: required[f] <==> f in flags
  {
    required := needed;
    for i := 0 to |flags|
      invariant required.Keys == needed.Keys
      invariant forall f | f in required :: required[f] <==> f in flags[..i]
    {
      assert flags[..i + 1] == flags[..i] + [flags[i]];
      if flags[i] in required {
        required := required[flags[i] := true];
      }
    }
    assert flags[..|flags|] == flags;
  }

  method ReportFlags(required: map<string, bool>) returns (messages: seq<Message>)
    ensures messages == [] <==> forall f | f in required :: required[f]
    ensures forall f :: MissingFlag(f) in messages <==> f in required && !required[f]
    ensures forall m | m in messages :: m.MissingFlag?
  {
    messages := [];
    var todo := required.Keys;
    while todo != {}
      invariant todo <= required.Keys
      invariant messages == [] <==> forall f | f in required.Keys - todo :: required[f]
      invariant forall f :: MissingFlag(f) in messages <==> f in required.Keys - todo && !required[f]
      invariant forall m | m in messages :: m.MissingFlag?
      decreases |todo|
    {
      var flag :| flag in todo;
      todo := todo - {flag};
      if !required[flag] {
        messages := messages + [MissingFlag(flag)];
      }
    }
  }

  method ValidateJenkinsMasterPodEnvs(env: seq<EnvVar>) returns (messages: seq<Message>)
    ensures messages == [] <==> FlagsSet(env)
    ensures forall m | m in messages :: m.MissingFlag?
    ensures FlagsReported(messages, env)
  {
    var javaOpts := LastJavaOpts(env);
    var required := MarkFlags(Split(javaOpts, ' '), map[Defaulting.NO_WIZARD := false, Defaulting.HEADLESS := false]);
    assert required.Keys == {Defaulting.NO_WIZARD, Defaulting.HEADLESS};
    messages := ReportFlags(required);
  }

  predicate ConfigMapFine(name: string, o: Oracle)
  {
    name != "" && o.lookup(ConfigMaps, name).Found?
  }

  predicate ConfigurationFine(casc: Option<Configuration>, o: Oracle)
  {
    casc.None? ||
    (&& (casc.value.secret != "" ==> casc.value.configurations != [] && o.lookup(Secrets, casc.value.secret).Found?)
     && (forall cm | cm in casc.value.configurations :: ConfigMapFine(cm, o))
     && (casc.value.defaultConfig ==>
           o.lookup(ConfigMaps, DEFAULT_CONFIG_MAP).Found? ||
           (o.lookup(ConfigMaps, DEFAULT_CONFIG_MAP).NotFound? && !o.createFails)))
  }

  const DEFAULT_CONFIG_MAP := "jenkins-default-configuration"

  /** A read that is not answered with the object, or a create that fails, stops the validation. */
  predicate ConfigurationStops(casc: Option<Configuration>, o: Oracle)
  {
    casc.Some? &&
    (|| (casc.value.secret != "" && !o.lookup(Secrets, casc.value.secret).Found?)
     || (exists cm | cm in casc.value.configurations :: cm != "" && !o.lookup(ConfigMaps, cm).Found?)
     || (casc.value.defaultConfig &&
           (o.lookup(ConfigMaps, DEFAULT_CONFIG_MAP).Failed? ||
            (o.lookup(ConfigMaps, DEFAULT_CONFIG_MAP).NotFound? && o.createFails))))
  }

  /**
   * The validation stops if and only if a named object cannot be read, or the default ConfigMap neither read nor
   * created; and it finds nothing wrong if and only if it does not stop, no name is empty and no secret stands alone.
   */
  lemma StopsIff(c: Configuration, o: Oracle)
    ensures ConfigurationStops(Some(c), o) <==>
              || (exists kind, name :: !o.lookup(kind, name).Found? && name != "" &&
                    ((kind == Secrets && name == c.secret) || (kind == ConfigMaps && name in c.configurations)))
              || (c.defaultConfig && o.lookup(ConfigMaps, "jenkins-default-configuration").Failed?)
              || (c.defaultConfig && o.lookup(ConfigMaps, "jenkins-default-configuration").NotFound? && o.createFails)
    ensures ConfigurationFine(Some(c), o) <==>
              !ConfigurationStops(Some(c), o) && "" !in c.configurations && (c.secret != "" ==> c.configurations != [])
    ensures ConfigurationFine(None, o) && !ConfigurationStops(None, o)
  {
    if c.secret != "" && !o.lookup(Secrets, c.secret).Found? {
    } else if cm :| cm in c.configurations && cm != "" && !o.lookup(ConfigMaps, cm).Found? {
    }
  }

  /** A default ConfigMap that is not there is created on the way. */
  method ValidateConfiguration(casc: Option<Configuration>, o: Oracle) returns (r: Result<seq<Message>, ()>, created: bool)
    ensures r == Ok([]) <==> ConfigurationFine(casc, o)
    ensures r.Err? <==> ConfigurationStops(casc, o)
    ensures r.Ok? ==> ConfigurationReported(r.value, casc)
    ensures r.Ok? ==> forall m | m in r.value :: m.SecretWithoutConfigurations? || m.EmptyConfigurationName?
    ensures created <==> r.Ok? && casc.Some? && casc.value.defaultConfig && o.lookup(ConfigMaps, DEFAULT_CONFIG_MAP).NotFound?
  {
    var messages: seq<Message> := [];
    created := false;
    if casc.None? {
      return Ok(messages), false;
    }
    var c := casc.value;
    if c.secret != "" && |c.configurations| == 0 {
      messages := messages + [SecretWithoutConfigurations];
    }
    if c.secret != "" && !o.lookup(Secrets, c.secret).Found? {
      return Err(()), false;
    }
    for i := 0 to |c.configurations|
      invariant messages == [] <==>
                  (c.secret != "" ==> c.configurations != []) &&
                  forall k | 0 <= k < i :: ConfigMapFine(c.configurations[k], o)
      invariant forall k | 0 <= k < i :: c.configurations[k] == "" || o.lookup(ConfigMaps, c.configurations[k]).Found?
      invariant SecretWithoutConfigurations in messages <==> c.secret != "" && c.configurations == []
      invariant forall k: nat :: EmptyConfigurationName(k) in messages <==> k < i && c.configurations[k] == ""
      invariant forall m | m in messages :: m.SecretWithoutConfigurations? || m.EmptyConfigurationName?
    {
      if c.configurations[i] == "" {
        messages := messages + [EmptyConfigurationName(i)];
        continue;
      }
      if !o.lookup(ConfigMaps, c.configurations[i]).Found? {
        assert c.configurations[i] in c.configurations;
        return Err(()), false;
      }
    }
    if c.defaultConfig {
      var reply := o.lookup(ConfigMaps, DEFAULT_CONFIG_MAP);
      if reply.Failed? || (reply.NotFound? && o.createFails) {
        return Err(()), false;
      }
      created := reply.NotFound?;
    }
    r := Ok(messages);
  }

  predicate PluginsFine(required: seq<Plugins.Plugin>, plugins: seq<Plugins.Plugin>, o: Oracle)
  {
    && (forall p | p in plugins :: Plugins.Valid(p.name, p.version, p.downloadURL, o.urlMatches))
    && (forall a, b | a in plugins && b in plugins && a.name == b.name :: a.version == b.version)
    && (forall r | r in required :: Plugins.Named(plugins, r.name))
  }

  /** What an accepted spec satisfies. */
  predicate Accepted(jenkins: string, master: MasterValue, rest: Rest, required: seq<Plugins.Plugin>, o: Oracle)
    requires master.containers != []
  {
    var base := Pods.BaseVolumes(jenkins, rest.casc);
    && NothingReserved(base, master.volumes)
    && (forall v | v in master.volumes :: Backed(v, o))
    && (forall c | c in master.containers :: ContainerFine(c, base + master.volumes, o))
    && PluginsFine(required, master.basePlugins, o)
    && FlagsSet(master.containers[0].env)
    && ConfigurationFine(rest.casc, o)
  }

  method ValidateContainers(containers: seq<Container>, all: seq<Volume>, o: Oracle) returns (messages: seq<Message>)
    ensures messages == [] <==> forall c | c in containers :: ContainerFine(c, all, o)
    ensures ContainersReported(messages, containers, all, o)
    ensures forall m | m in messages :: OnContainer(m) || m.MountPathNotSet? || m.VolumeNotFound?
  {
    hide Blames, ContainerFine;
    messages := [];
    for i := 0 to |containers|
      invariant messages == [] <==> forall k | 0 <= k < i :: ContainerFine(containers[k], all, o)
      invariant ImageNotSet in messages <==> exists k | 0 <= k < i :: containers[k].image == ""
      invariant InvalidImage in messages <==> exists k | 0 <= k < i :: !o.imageMatches(containers[k].image)
      invariant PullPolicyNotSet in messages <==> exists k | 0 <= k < i :: containers[k].pullPolicy == ""
      invariant forall m | m in messages :: OnContainer(m) || m.MountPathNotSet? || m.VolumeNotFound?
      invariant forall m | !OnContainer(m) :: m in messages <==> exists k | 0 <= k < i :: Blames(m, containers[k].mounts, all)
    {
      var more := ValidateContainer(containers[i], all, o);
      messages := messages + more;
    }
  }

  function PluginMessages(complaints: seq<Plugins.Complaint>): (r: seq<Message>)
    ensures |r| == |complaints|
    ensures forall i | 0 <= i < |r| :: r[i] == PluginProblem(complaints[i])
  {
    seq(|complaints|, i requires 0 <= i < |complaints| => PluginProblem(complaints[i]))
  }

  lemma PluginMessagesExact(complaints: seq<Plugins.Complaint>)
    ensures forall c :: PluginProblem(c) in PluginMessages(complaints) <==> c in complaints
    ensures forall m | m in PluginMessages(complaints) :: m.PluginProblem?
  {
    forall c | c in complaints ensures PluginProblem(c) in PluginMessages(complaints) {
      var i :| 0 <= i < |complaints| && complaints[i] == c;
      assert PluginMessages(complaints)[i] == PluginProblem(c);
    }
  }

  /** The plugin check, with its complaints as messages. */
  method ValidatePlugins(required: seq<Plugins.Plugin>, plugins: seq<Plugins.Plugin>, o: Oracle) returns (messages: seq<Message>)
    ensures messages == [] <==> PluginsFine(required, plugins, o)
    ensures PluginsReported(messages, required, plugins, o)
    ensures forall m | m in messages :: m.PluginProblem?
  {
    hide PluginMessages, Plugins.NameMatches, Plugins.VersionMatches, Plugins.Lacks;
    var complaints := Plugins.ValidatePlugins(required, plugins, o.urlMatches);
    PluginMessagesExact(complaints);
    messages := PluginMessages(complaints);
  }

  /** The messages about volumes are those with a reason. */
  ghost predicate VolumesReported(ms: seq<Message>, base: seq<Volume>, volumes: seq<Volume>, o: Oracle)
  {
    && (forall name :: ReservedVolume(name) in ms <==> Reserves(ReservedVolume(name), base, volumes, |volumes|))
    && (forall kind, name :: ObjectNotFound(kind, name) in ms <==> NotFoundFor(ObjectNotFound(kind, name), volumes, o))
  }

  ghost predicate ContainersReported(ms: seq<Message>, containers: seq<Container>, all: seq<Volume>, o: Oracle)
  {
    && (ImageNotSet in ms <==> exists c | c in containers :: c.image == "")
    && (InvalidImage in ms <==> exists c | c in containers :: !o.imageMatches(c.image))
    && (PullPolicyNotSet in ms <==> exists c | c in containers :: c.pullPolicy == "")
    && (forall m: Message | m.MountPathNotSet? || m.VolumeNotFound? ::
          m in ms <==> exists c | c in containers :: Blames(m, c.mounts, all))
  }

  ghost predicate PluginsReported(ms: seq<Message>, required: seq<Plugins.Plugin>, plugins: seq<Plugins.Plugin>, o: Oracle)
  {
    && (forall p :: PluginProblem(Plugins.InvalidPlugin(p)) in ms <==>
          p in plugins && !Plugins.Valid(p.name, p.version, p.downloadURL, o.urlMatches))
    && (forall name :: PluginProblem(Plugins.MissingPlugin(name)) in ms <==>
          Plugins.Lacks(Plugins.MissingPlugin(name), required, plugins))
  }

  ghost predicate FlagsReported(ms: seq<Message>, env: seq<EnvVar>)
  {
    forall f :: MissingFlag(f) in ms <==>
      f in {"-Djenkins.install.runSetupWizard=false", "-Djava.awt.headless=true"} &&
      f !in Split(LastValue(env, "JAVA_OPTS"), ' ')
  }

  ghost predicate ConfigurationReported(ms: seq<Message>, casc: Option<Configuration>)
  {
    && (SecretWithoutConfigurations in ms <==> casc.Some? && casc.value.secret != "" && casc.value.configurations == [])
    && (forall i: nat :: EmptyConfigurationName(i) in ms <==>
          casc.Some? && i < |casc.value.configurations| && casc.value.configurations[i] == "")
  }

  /** Which of the six checks a message comes from. */
  lemma Gathered(reserved: seq<Message>, volumes: seq<Message>, containers: seq<Message>, plugins: seq<Message>,
                 flags: seq<Message>, configuration: seq<Message>)
    requires forall m | m in reserved :: m.ReservedVolume?
    requires forall m | m in volumes :: m.ObjectNotFound?
    requires forall m | m in containers :: OnContainer(m) || m.MountPathNotSet? || m.VolumeNotFound?
    requires forall m | m in plugins :: m.PluginProblem?
    requires forall m | m in flags :: m.MissingFlag?
    requires forall m | m in configuration :: m.SecretWithoutConfigurations? || m.EmptyConfigurationName?
    ensures var all := reserved + volumes + containers + plugins + flags + configuration;
            && (all == [] <==>
                  reserved == [] && volumes == [] && containers == [] && plugins == [] && flags == [] && configuration == [])
            && (forall m: Message | m.ReservedVolume? :: m in all <==> m in reserved)
            && (forall m: Message | m.ObjectNotFound? :: m in all <==> m in volumes)
            && (forall m: Message | OnContainer(m) || m.MountPathNotSet? || m.VolumeNotFound? :: m in all <==> m in containers)
            && (forall m: Message | m.PluginProblem? :: m in all <==> m in plugins)
            && (forall m: Message | m.MissingFlag? :: m in all <==> m in flags)
            && (forall m: Message | m.SecretWithoutConfigurations? || m.EmptyConfigurationName? :: m in all <==> m in configuration)
  {
  }

  /** What each check reports by itself is what all of them together report. */
  lemma AllReported(
      jenkins: string, master: MasterValue, rest: Rest, required: seq<Plugins.Plugin>, o: Oracle,
      reserved: seq<Message>, volumes: seq<Message>, containers: seq<Message>, plugins: seq<Message>,
      flags: seq<Message>, configuration: seq<Message>, ms: seq<Message>)
    requires master.containers != []
    requires var base := Pods.BaseVolumes(jenkins, rest.casc);
             && (forall m :: m in reserved <==> Reserves(m, base, master.volumes, |master.volumes|))
             && (forall m :: m in volumes <==> NotFoundFor(m, master.volumes, o))
             && ContainersReported(containers, master.containers, base + master.volumes, o)
    requires PluginsReported(plugins, required, master.basePlugins, o)
    requires FlagsReported(flags, master.containers[0].env)
    requires ConfigurationReported(configuration, rest.casc)
    requires && (forall m: Message | m.ReservedVolume? :: m in ms <==> m in reserved)
             && (forall m: Message | m.ObjectNotFound? :: m in ms <==> m in volumes)
             && (forall m: Message | OnContainer(m) || m.MountPathNotSet? || m.VolumeNotFound? :: m in ms <==> m in containers)
             && (forall m: Message | m.PluginProblem? :: m in ms <==> m in plugins)
             && (forall m: Message | m.MissingFlag? :: m in ms <==> m in flags)
             && (forall m: Message | m.SecretWithoutConfigurations? || m.EmptyConfigurationName? :: m in ms <==> m in configuration)
    ensures var all := Pods.BaseVolumes(jenkins, rest.casc) + master.volumes;
            && VolumesReported(ms, Pods.BaseVolumes(jenkins, rest.casc), master.volumes, o)
            && ContainersReported(ms, master.containers, all, o)
            && PluginsReported(ms, required, master.basePlugins, o)
            && FlagsReported(ms, master.containers[0].env)
            && ConfigurationReported(ms, rest.casc)
  {
    hide Reserves, NotFoundFor, Blames, LastValue, Split, Plugins.Valid, Plugins.Lacks, Pods.BaseVolumes;
  }

  /**
   * No messages and no error exactly for the specs that satisfy every check; and every message of every check is
   * there exactly when its own reason is.
   */
  method Validate(jenkins: string, master: MasterValue, rest: Rest, required: seq<Plugins.Plugin>, o: Oracle)
    returns (r: Result<seq<Message>, ()>)
    requires master.containers != []
    ensures r == Ok([]) <==> Accepted(jenkins, master, rest, required, o)
    ensures r.Err? <==> (exists v | v in master.volumes :: AnswerIs(v, o, Failed)) || ConfigurationStops(rest.casc, o)
    ensures r.Ok? ==> var all := Pods.BaseVolumes(jenkins, rest.casc) + master.volumes;
              && VolumesReported(r.value, Pods.BaseVolumes(jenkins, rest.casc), master.volumes, o)
              && ContainersReported(r.value, master.containers, all, o)
              && PluginsReported(r.value, required, master.basePlugins, o)
              && FlagsReported(r.value, master.containers[0].env)
              && ConfigurationReported(r.value, rest.casc)
  {
    hide Names, NothingReserved, Reserves, Backed, NotFoundFor, AnswerIs, ContainerFine, FlagsSet, ConfigurationFine,
      ConfigurationStops, PluginsFine, Pods.BaseVolumes, VolumesReported, ContainersReported, PluginsReported, FlagsReported,
      ConfigurationReported;
    var base := Pods.GetJenkinsMasterPodBaseVolumes(jenkins, rest.casc);
    var messages := ValidateReservedVolumes(base, master.volumes);
    ghost var reserved := messages;
    var volumes := ValidateVolumes(master.volumes, o);
    if volumes.Err? {
      return Err(());
    }
    messages := messages + volumes.value;
    var containers := ValidateContainers(master.containers, base + master.volumes, o);
    messages := messages + containers;
    var plugins := ValidatePlugins(required, master.basePlugins, o);
    messages := messages + plugins;
    var flags := ValidateJenkinsMasterPodEnvs(master.containers[0].env);
    messages := messages + flags;
    var configuration, _ := ValidateConfiguration(rest.casc, o);
    if configuration.Err? {
      return Err(());
    }
    messages := messages + configuration.value;
    Gathered(reserved, volumes.value, containers, plugins, flags, configuration.value);
    AllReported(jenkins, master, rest, required, o, reserved, volumes.value, containers, plugins, flags, configuration.value, messages);
    r := Ok(messages);
  }

  /** A flag that stands between two separators is found. */
  lemma FlagFound(a: string, flag: string, b: string)
    requires ' ' !in flag
    ensures flag in Split(a + " " + flag + " " + b, ' ')
  {
    SplitConcat(a, flag + " " + b, ' ');
    SplitConcat(flag, b, ' ');
    PieceIsWhole(flag, ' ');
    assert a + " " + flag + " " + b == a + [' '] + (flag + [' '] + b);
    assert Split(flag, ' ')[0] == flag;
  }

  lemma NoSpaces()
    ensures ' ' !in Defaulting.NO_WIZARD && ' ' !in Defaulting.HEADLESS
  {
  }

  lemma DefaultFlags()
    ensures Defaulting.NO_WIZARD in Split(Defaulting.JAVA_OPTS_DEFAULT, ' ')
    ensures Defaulting.HEADLESS in Split(Defaulting.JAVA_OPTS_DEFAULT, ' ')
  {
    NoSpaces();
    BothFound(Defaulting.JAVA_OPTS_OPENING, Defaulting.NO_WIZARD, Defaulting.HEADLESS, Defaulting.JAVA_OPTS_CLOSING);
  }

  lemma BothFound(a: string, f: string, g: string, b: string)
    requires ' ' !in f && ' ' !in g
    ensures f in Split(a + " " + f + " " + g + " " + b, ' ') && g in Split(a + " " + f + " " + g + " " + b, ' ')
  {
    FlagFound(a, f, g + " " + b);
    assert a + " " + f + " " + (g + " " + b) == a + " " + f + " " + g + " " + b;
    FlagFound(a + " " + f, g, b);
  }

  /** A spec whose master container does not set JAVA_OPTS has the required flags once it has been defaulted. */
  lemma DefaultedHasFlags(c: Container, image: string)
    requires !Defaulting.IsSet(c.env, Defaulting.JAVA_OPTS)
    ensures FlagsSet(Defaulting.MasterDefaulted(c, image).env)
  {
    DefaultFlags();
    var one := c.env + [JenkinsOptions.EnvVar(Defaulting.JAVA_OPTS, Defaulting.JAVA_OPTS_DEFAULT)];
    assert LastValue(one, Defaulting.JAVA_OPTS) == Defaulting.JAVA_OPTS_DEFAULT;
    var two := Defaulting.MasterDefaulted(c, image).env;
    assert Defaulting.JAVA_OPTS != Defaulting.TRUST_CERTS by {
      assert |Defaulting.JAVA_OPTS| != |Defaulting.TRUST_CERTS|;
    }
    assert two == one || two[..|two| - 1] == one;
  }
}
