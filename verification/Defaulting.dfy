/** Defaulting of a spec: what the calculated spec is, and the in-place computation that produces it. */
module Defaulting {
  import opened Common
  import opened Specs
  import BuildHistory
  import JenkinsOptions
  import Plugins
  import RbacNames
  import Services

  const MASTER_CONTAINER := "jenkins"
  const JAVA_OPTS := "JAVA_OPTS"
  const NO_WIZARD := "-Djenkins.install.runSetupWizard=false"
  const HEADLESS := "-Djava.awt.headless=true"
  const JAVA_OPTS_OPENING := "-XX:+UnlockExperimentalVMOptions -XX:MaxRAMFraction=1"
  const JAVA_OPTS_CLOSING :=
    "-Dhudson.security.csrf.DefaultCrumbIssuer.EXCLUDE_SESSION_ID=true -Dcasc.reload.token=$(POD_NAME)"
  const JAVA_OPTS_DEFAULT := JAVA_OPTS_OPENING + " " + NO_WIZARD + " " + HEADLESS + " " + JAVA_OPTS_CLOSING
  const TRUST_CERTS := "KUBERNETES_TRUST_CERTIFICATES"

  datatype ImageObject = ImageObject(status: BuildHistory.ImageStatus, registry: string, name: string)

  /** What defaulting reads besides the spec. */
  datatype Environment = Environment(
    defaultImage: string, images: string -> Option<ImageObject>, editRole: Option<RbacNames.RoleRef>,
    useNodePort: bool, basePlugins: seq<Plugins.Plugin>)

  /** IndexOutOfRange stands for a panic. */
  datatype Failure = WrongFirstContainer | ImageNotFound | IndexOutOfRange

  predicate IsSet(env: seq<EnvVar>, name: string)
  {
    exists i | 0 <= i < |env| :: env[i].name == name
  }

  function WithEnv(env: seq<EnvVar>, name: string, value: string): seq<EnvVar>
  {
    if IsSet(env, name) then env else env + [JenkinsOptions.EnvVar(name, value)]
  }

  /** The master container that defaulting starts from. */
  function Requested(v: SpecValue, e: Environment): Result<Container, Failure>
  {
    if v.master.None? || v.master.value.containers == [] then
      Ok(Container(MASTER_CONTAINER, e.defaultImage, "", Unset, [], [], [], None, None))
    else if v.master.value.containers[0].name != MASTER_CONTAINER then Err(WrongFirstContainer)
    else Ok(v.master.value.containers[0])
  }

  /** The image: the requested one, or the default, or the last build of the referenced JenkinsImage. */
  function Image(requested: string, imageRef: string, e: Environment): Result<string, Failure>
  {
    var own := if requested == "" then e.defaultImage else requested;
    if imageRef == "" then Ok(own)
    else match e.images(imageRef)
         case None => Err(ImageNotFound)
         case Some(image) =>
           if !image.status.phase.Successful? then Ok(own)
           else if image.status.builds == [] then Err(IndexOutOfRange)
           else Ok(image.registry + "/" + image.name + "@" + image.status.builds[|image.status.builds| - 1].image)
  }

  const READINESS := Probe("login", "http", 30, 0, 0)
  const LIVENESS := Probe("login", "http", 80, 5, 12)

  function MasterDefaulted(c: Container, image: string): Container
  {
    c.(image := image, pullPolicy := "Always",
       readiness := if c.readiness.None? then Some(READINESS) else c.readiness,
       liveness := if c.liveness.None? then Some(LIVENESS) else c.liveness,
       env := WithEnv(WithEnv(c.env, JAVA_OPTS, JAVA_OPTS_DEFAULT), TRUST_CERTS, "true"),
       resources := if c.resources.Unset? then Requirements("1", "500Mi", "1500m", "3Gi") else c.resources)
  }

  function SidecarDefaulted(c: Container): Container
  {
    c.(pullPolicy := if c.pullPolicy == "" then "Always" else c.pullPolicy,
       resources := if c.resources.Unset? then Requirements("50m", "50Mi", "100m", "100Mi") else c.resources)
  }

  function SidecarsDefaulted(cs: seq<Container>): (r: seq<Container>)
    ensures |r| == |cs|
    ensures forall i | 0 <= i < |cs| :: r[i] == SidecarDefaulted(cs[i])
  {
    if cs == [] then [] else [SidecarDefaulted(cs[0])] + SidecarsDefaulted(cs[1..])
  }

  function ServiceOf(kind: string, port: int): ServiceSpec
  {
    ServiceSpec(Services.Config(map[], map[], kind, port, 0, "", []), false)
  }

  function RestDefaulted(r: Rest, e: Environment): Rest
  {
    r.(service := if r.service == ZERO_SERVICE then ServiceOf(if e.useNodePort then "NodePort" else "ClusterIP", 8080) else r.service,
       jnlpService := if r.jnlpService == ZERO_SERVICE then ServiceOf("ClusterIP", 50000) else r.jnlpService,
       casc := if r.casc.None? then Some(Configuration(true, true, "", [], true)) else r.casc,
       roles := if r.roles.None? && e.editRole.Some? then Some([e.editRole.value]) else r.roles)
  }

  function PluginsDefaulted(plugins: seq<Plugins.Plugin>, e: Environment): seq<Plugins.Plugin>
  {
    if plugins == [] then e.basePlugins else plugins
  }

  /** The containers beside the master container. */
  function MastersSidecars(v: SpecValue): seq<Container>
  {
    if v.master.None? || v.master.value.containers == [] then [] else v.master.value.containers[1..]
  }

  /** The calculated spec. */
  function Defaulted(v: SpecValue, e: Environment): Result<SpecValue, Failure>
  {
    match Requested(v, e)
    case Err(f) => Err(f)
    case Ok(c) =>
      if v.master.Some? && v.master.value.containers == [] then Err(IndexOutOfRange)
      else
        match Image(c.image, v.rest.imageRef, e)
        case Err(f) => Err(f)
        case Ok(image) =>
          var master :=
            match v.master
            case None => MasterValue([MasterDefaulted(c, image)], [], e.basePlugins)
            case Some(m) =>
              MasterValue([MasterDefaulted(c, image)] + SidecarsDefaulted(MastersSidecars(v)), m.volumes,
                          PluginsDefaulted(m.basePlugins, e));
          Ok(SpecValue(Some(master), RestDefaulted(v.rest, e)))
  }

  /** The master before anything is filled in. */
  function StartingMaster(v: SpecValue, c: Container): MasterValue
  {
    match v.master
    case None => MasterValue([c], [], [])
    case Some(m) => m
  }

  lemma Assembled(v: SpecValue, e: Environment, c: Container, image: string, master: MasterValue)
    requires Requested(v, e) == Ok(c) && Image(c.image, v.rest.imageRef, e) == Ok(image)
    requires StartingMaster(v, c).containers != []
    requires master.containers == [MasterDefaulted(c, image)] + SidecarsDefaulted(StartingMaster(v, c).containers[1..])
    requires master.volumes == StartingMaster(v, c).volumes
    requires master.basePlugins == PluginsDefaulted(StartingMaster(v, c).basePlugins, e)
    ensures Defaulted(v, e) == Ok(SpecValue(Some(master), RestDefaulted(v.rest, e)))
  {
    assert [MasterDefaulted(c, image)] + [] == [MasterDefaulted(c, image)];
  }

  lemma EnvTwice(env: seq<EnvVar>, a: string, x: string, b: string, y: string)
    ensures var once := WithEnv(WithEnv(env, a, x), b, y); WithEnv(WithEnv(once, a, x), b, y) == once
  {
    var one := WithEnv(env, a, x);
    assert IsSet(one, a) by {
      if !IsSet(env, a) {
        assert one[|env|].name == a;
      }
    }
    var once := WithEnv(one, b, y);
    assert IsSet(once, a) by {
      var i :| 0 <= i < |one| && one[i].name == a;
      assert once[i].name == a;
    }
    assert IsSet(once, b) by {
      if !IsSet(one, b) {
        assert once[|one|].name == b;
      }
    }
  }

  lemma MasterTwice(c: Container, image: string)
    ensures MasterDefaulted(MasterDefaulted(c, image), image) == MasterDefaulted(c, image)
  {
    EnvTwice(c.env, JAVA_OPTS, JAVA_OPTS_DEFAULT, TRUST_CERTS, "true");
  }

  lemma SidecarsTwice(cs: seq<Container>)
    ensures SidecarsDefaulted(SidecarsDefaulted(cs)) == SidecarsDefaulted(cs)
  {
  }

  /** The image does not change either. */
  lemma ImageTwice(requested: string, imageRef: string, e: Environment)
    requires Image(requested, imageRef, e).Ok?
    ensures Image(Image(requested, imageRef, e).value, imageRef, e) == Image(requested, imageRef, e)
  {
  }

  lemma RestTwice(r: Rest, e: Environment)
    ensures RestDefaulted(RestDefaulted(r, e), e) == RestDefaulted(r, e)
  {
  }

  /** In a fixed environment, defaulting what has been defaulted changes nothing. */
  lemma {:induction false} Idempotent(v: SpecValue, e: Environment)
    requires Defaulted(v, e).Ok?
    ensures Defaulted(Defaulted(v, e).value, e) == Defaulted(v, e)
  {
    var c := Requested(v, e).value;
    var image := Image(c.image, v.rest.imageRef, e).value;
    var d := Defaulted(v, e).value;
    var once, side := MasterDefaulted(c, image), SidecarsDefaulted(MastersSidecars(v));
    assert d.master.value.containers == [once] + side;
    ImageTwice(c.image, v.rest.imageRef, e);
    MasterTwice(c, image);
    SidecarsTwice(MastersSidecars(v));
    RestTwice(v.rest, e);
    assert d.rest.imageRef == v.rest.imageRef && d.master.value.containers[1..] == side;
    Assembled(d, e, once, image, d.master.value);
  }

  predicate Extends(env: seq<EnvVar>, env': seq<EnvVar>)
  {
    env <= env' && forall i | |env| <= i < |env'| :: !IsSet(env, env'[i].name)
  }

  /** What may differ between a requested container and the calculated one: only what was not set. */
  predicate FilledIn(c: Container, d: Container)
  {
    && d.name == c.name && d.command == c.command && d.mounts == c.mounts
    && Extends(c.env, d.env)
    && (c.resources.Unset? || d.resources == c.resources)
    && (c.liveness.None? || d.liveness == c.liveness)
    && (c.readiness.None? || d.readiness == c.readiness)
  }

  /** Nothing that defaulting is about is missing. */
  predicate Filled(c: Container)
  {
    c.pullPolicy != "" && !c.resources.Unset?
  }

  lemma EnvExtended(env: seq<EnvVar>, a: string, x: string, b: string, y: string)
    requires a != b
    ensures var r := WithEnv(WithEnv(env, a, x), b, y); Extends(env, r) && IsSet(r, a) && IsSet(r, b)
  {
    var one := WithEnv(env, a, x);
    var r := WithEnv(one, b, y);
    assert IsSet(one, a) by {
      assert !IsSet(env, a) ==> one[|env|].name == a;
    }
    assert IsSet(r, a) by {
      var i :| 0 <= i < |one| && one[i].name == a;
      assert r[i].name == a;
    }
    assert IsSet(r, b) by {
      assert !IsSet(one, b) ==> r[|one|].name == b;
    }
    if IsSet(env, b) {
      var k :| 0 <= k < |env| && env[k].name == b;
      assert one[k].name == b && IsSet(one, b);
    }
  }

  /** What the master of the spec asks for, if it is there. */
  function RequestedContainers(v: SpecValue): seq<Container>
  {
    if v.master.None? then [] else v.master.value.containers
  }

  lemma MasterFills(c: Container, image: string)
    ensures var d := MasterDefaulted(c, image);
            FilledIn(c, d) && Filled(d) && d.liveness.Some? && d.readiness.Some? && IsSet(d.env, JAVA_OPTS) && IsSet(d.env, TRUST_CERTS)
  {
    assert JAVA_OPTS != TRUST_CERTS by {
      assert |JAVA_OPTS| != |TRUST_CERTS|;
    }
    EnvExtended(c.env, JAVA_OPTS, JAVA_OPTS_DEFAULT, TRUST_CERTS, "true");
  }

  lemma SidecarFills(c: Container)
    ensures var d := SidecarDefaulted(c);
            FilledIn(c, d) && Filled(d) && d.image == c.image && (c.pullPolicy == "" || d.pullPolicy == c.pullPolicy)
  {
  }

  /** The parts of the spec beside the master: kept where set, set where not. */
  predicate RestFilled(r: Rest, s: Rest)
  {
    && (r.service == ZERO_SERVICE || s.service == r.service) && s.service != ZERO_SERVICE
    && (r.jnlpService == ZERO_SERVICE || s.jnlpService == r.jnlpService) && s.jnlpService != ZERO_SERVICE
    && (r.roles.None? || s.roles == r.roles)
    && (r.casc.None? || s.casc == r.casc) && s.casc.Some?
    && s.backupEnabled == r.backupEnabled && s.imageRef == r.imageRef
    && s.forceBasePluginsInstall == r.forceBasePluginsInstall
  }

  lemma RestFills(r: Rest, e: Environment)
    ensures RestFilled(r, RestDefaulted(r, e))
  {
  }

  /** The calculated containers, one by one. */
  lemma CalculatedContainers(v: SpecValue, e: Environment)
    requires Defaulted(v, e).Ok?
    ensures var cs, ds := RequestedContainers(v), Defaulted(v, e).value.master.value.containers;
            && |ds| == (if cs == [] then 1 else |cs|)
            && ds[0] == MasterDefaulted(Requested(v, e).value, Image(Requested(v, e).value.image, v.rest.imageRef, e).value)
            && (cs != [] ==> Requested(v, e).value == cs[0])
            && (cs == [] ==> Requested(v, e).value.image == e.defaultImage)
            && Requested(v, e).value.name == MASTER_CONTAINER
            && (forall i | 1 <= i < |cs| :: ds[i] == SidecarDefaulted(cs[i]))
  {
    hide MasterDefaulted, SidecarDefaulted, RestDefaulted, Image;
    var cs, side := RequestedContainers(v), MastersSidecars(v);
    forall i | 1 <= i < |cs| ensures SidecarsDefaulted(side)[i - 1] == SidecarDefaulted(cs[i]) {
      assert side[i - 1] == cs[i];
    }
  }

  /**
   * Defaulting only fills gaps, and fills them all: containers keep their number, order and everything they set
   * (the master's image and pull policy apart), user volumes, plugins, services, roles, configuration and flags
   * stay as requested where they were set, and afterwards every container has a pull policy and resources, and
   * the master its two probes and its two variables.
   */
  lemma FillsExactlyTheGaps(v: SpecValue, e: Environment)
    requires Defaulted(v, e).Ok?
    ensures var s := Defaulted(v, e).value; var cs, ds := RequestedContainers(v), s.master.value.containers;
            && |ds| == (if cs == [] then 1 else |cs|)
            && (forall i | 0 <= i < |cs| :: FilledIn(cs[i], ds[i]))
            && (forall i | 1 <= i < |cs| :: ds[i].image == cs[i].image && (cs[i].pullPolicy == "" || ds[i].pullPolicy == cs[i].pullPolicy))
            && (forall i | 0 <= i < |ds| :: Filled(ds[i]))
            && ds[0].name == MASTER_CONTAINER && ds[0].pullPolicy == "Always"
            && ds[0].liveness.Some? && ds[0].readiness.Some? && IsSet(ds[0].env, JAVA_OPTS) && IsSet(ds[0].env, TRUST_CERTS)
            && (v.rest.imageRef == "" ==> ds[0].image == if cs == [] || cs[0].image == "" then e.defaultImage else cs[0].image)
    ensures var s := Defaulted(v, e).value;
            && (v.master.Some? ==> s.master.value.volumes == v.master.value.volumes)
            && (v.master.Some? && v.master.value.basePlugins != [] ==> s.master.value.basePlugins == v.master.value.basePlugins)
            && RestFilled(v.rest, s.rest)
  {
    hide RestDefaulted, RestFilled, FilledIn, Filled, IsSet, SidecarDefaulted, WithEnv;
    RestFills(v.rest, e);
    CalculatedContainers(v, e);
    var c := Requested(v, e).value;
    MasterFills(c, Image(c.image, v.rest.imageRef, e).value);
    var cs, ds := RequestedContainers(v), Defaulted(v, e).value.master.value.containers;
    forall i | 1 <= i < |cs|
      ensures FilledIn(cs[i], ds[i]) && Filled(ds[i]) && ds[i].image == cs[i].image
      ensures cs[i].pullPolicy == "" || ds[i].pullPolicy == cs[i].pullPolicy
    {
      SidecarFills(cs[i]);
    }
  }

  /** Exactly when defaulting panics: a master without containers, or a successful image without builds. */
  lemma {:induction false} PanicsIff(v: SpecValue, e: Environment)
    ensures Defaulted(v, e) == Err(IndexOutOfRange) <==>
              || (v.master.Some? && v.master.value.containers == [])
              || (Requested(v, e).Ok? && v.rest.imageRef != "" && e.images(v.rest.imageRef).Some? &&
                  var status := e.images(v.rest.imageRef).value.status; status.phase.Successful? && status.builds == [])
  {
  }

  /** Exactly when defaulting refuses a spec, and what it then says. */
  lemma {:induction false} RefusedIff(v: SpecValue, e: Environment)
    ensures Defaulted(v, e) == Err(WrongFirstContainer) <==>
              v.master.Some? && v.master.value.containers != [] && v.master.value.containers[0].name != "jenkins"
    ensures Defaulted(v, e) == Err(ImageNotFound) <==>
              && (v.master.Some? ==> v.master.value.containers != [] && v.master.value.containers[0].name == "jenkins")
              && v.rest.imageRef != "" && e.images(v.rest.imageRef).None?
  {
  }

  /** A referenced image that is not successful yet is left aside. */
  lemma {:induction false} PendingImageIsLeftAside(v: SpecValue, e: Environment, image: ImageObject)
    requires Defaulted(v, e).Ok? && e.images(v.rest.imageRef) == Some(image) && !image.status.phase.Successful?
    ensures Defaulted(v.(rest := v.rest.(imageRef := "")), e).Ok?
    ensures Defaulted(v, e).value.master == Defaulted(v.(rest := v.rest.(imageRef := "")), e).value.master
  {
  }

  /** A referenced image that is successful is deployed by its last build, whatever image the container asks for. */
  lemma LastBuildIsDeployed(v: SpecValue, e: Environment, image: ImageObject, front: seq<BuildHistory.Build>, last: BuildHistory.Build)
    requires Defaulted(v, e).Ok? && v.rest.imageRef != "" && e.images(v.rest.imageRef) == Some(image)
    requires image.status == BuildHistory.ImageStatus(BuildHistory.Successful, front + [last])
    ensures Defaulted(v, e).value.master.value.containers[0].image == image.registry + "/" + image.name + "@" + last.image
  {
  }

  /**
   * From goroutine to deployment: once a goroutine has persisted the build it read off its pod, and until the next
   * version is written, defaulting a spec that refers to the image deploys that very build.
   */
  lemma {:induction false} RecordedBuildIsDeployed(
      s: BuildHistory.System, id: nat, message: string, md5Sum: string, v: SpecValue, e: Environment, image: ImageObject)
    requires BuildHistory.At(s, id, BuildHistory.Waiting) && s.processes[id].pod.containers == [Some(message)]
    requires var wait := BuildHistory.WaitEnds(id, true, md5Sum);
             BuildHistory.Enabled(s, wait) && BuildHistory.Enabled(BuildHistory.Apply(s, wait), BuildHistory.WriteApplied(id))
    requires Defaulted(v, e).Ok? && v.rest.imageRef != "" && e.images(v.rest.imageRef) == Some(image)
    requires var s' := BuildHistory.Apply(BuildHistory.Apply(s, BuildHistory.WaitEnds(id, true, md5Sum)), BuildHistory.WriteApplied(id));
             image.status == s'.history[|s'.history| - 1]
    ensures Defaulted(v, e).value.master.value.containers[0].image ==
            image.registry + "/" + image.name + "@" + BuildHistory.Trim(message)
  {
    var p := s.processes[id];
    BuildHistory.AfterWaitExact(p.status, p.pod, true, md5Sum);
    LastBuildIsDeployed(v, e, image, p.status.builds, BuildHistory.Build(BuildHistory.Trim(message), BuildHistory.Trim(md5Sum)));
  }

  /** A bare master container and a bare sidecar, and nothing else. */
  function Bare(sidecar: string, image: string): SpecValue
  {
    SpecValue(Some(MasterValue([Container("jenkins", "", "", Unset, [], [], [], None, None),
                                Container(sidecar, image, "", Unset, [], [], [], None, None)], [], [])),
              Rest("", false, ZERO_SERVICE, ZERO_SERVICE, None, None, false))
  }

  /** Every default there is, in figures. */
  lemma {:induction false} AllDefaults(sidecar: string, image: string, e: Environment)
    ensures Defaulted(Bare(sidecar, image), e).Ok?
    ensures var s := Defaulted(Bare(sidecar, image), e).value;
            && s.master.value == MasterValue([
                 Container("jenkins", e.defaultImage, "Always", Requirements("1", "500Mi", "1500m", "3Gi"), [],
                           [JenkinsOptions.EnvVar("JAVA_OPTS",
                              "-XX:+UnlockExperimentalVMOptions -XX:MaxRAMFraction=1" + " " +
                              "-Djenkins.install.runSetupWizard=false" + " " + "-Djava.awt.headless=true" + " " +
                              "-Dhudson.security.csrf.DefaultCrumbIssuer.EXCLUDE_SESSION_ID=true -Dcasc.reload.token=$(POD_NAME)"),
                            JenkinsOptions.EnvVar("KUBERNETES_TRUST_CERTIFICATES", "true")], [],
                           Some(Probe("login", "http", 80, 5, 12)), Some(Probe("login", "http", 30, 0, 0))),
                 Container(sidecar, image, "Always", Requirements("50m", "50Mi", "100m", "100Mi"), [], [], [], None, None)],
                 [], e.basePlugins)
            && s.rest == Rest("", false,
                 ServiceSpec(Services.Config(map[], map[], if e.useNodePort then "NodePort" else "ClusterIP", 8080, 0, "", []), false),
                 ServiceSpec(Services.Config(map[], map[], "ClusterIP", 50000, 0, "", []), false),
                 if e.editRole.Some? then Some([e.editRole.value]) else None,
                 Some(Configuration(true, true, "", [], true)), false)
  {
    var v := Bare(sidecar, image);
    var c := v.master.value.containers[0];
    BareEnv();
    assert v.master.value.containers[1..] == [v.master.value.containers[1]];
    var master := MasterValue([MasterDefaulted(c, e.defaultImage), SidecarDefaulted(v.master.value.containers[1])], [], e.basePlugins);
    OneSidecar(v.master.value.containers[1]);
    Assembled(v, e, c, e.defaultImage, master);
  }

  lemma OneSidecar(c: Container)
    ensures SidecarsDefaulted([c]) == [SidecarDefaulted(c)]
  {
  }

  lemma BareEnv()
    ensures WithEnv(WithEnv([], JAVA_OPTS, JAVA_OPTS_DEFAULT), TRUST_CERTS, "true") ==
            [JenkinsOptions.EnvVar("JAVA_OPTS", JAVA_OPTS_DEFAULT), JenkinsOptions.EnvVar("KUBERNETES_TRUST_CERTIFICATES", "true")]
  {
    assert |JAVA_OPTS| != |TRUST_CERTS|;
    var one := WithEnv([], JAVA_OPTS, JAVA_OPTS_DEFAULT);
    assert one == [JenkinsOptions.EnvVar("JAVA_OPTS", JAVA_OPTS_DEFAULT)];
    assert !IsSet(one, TRUST_CERTS);
  }

  /** Every image status comes from a run of the JenkinsImage controller. */
  ghost predicate FromHistory(e: Environment, s: BuildHistory.System)
  {
    forall ref | e.images(ref).Some? :: e.images(ref).value.status in s.history
  }

  /** With the image controller's own statuses the last build is always there: only an empty master panics. */
  lemma LastBuildInRange(v: SpecValue, e: Environment, s: BuildHistory.System, actions: seq<BuildHistory.Action>, s': BuildHistory.System)
    requires BuildHistory.Initial(s) && BuildHistory.Leads(s, actions, s') && FromHistory(e, s')
    ensures Defaulted(v, e) == Err(IndexOutOfRange) <==> v.master.Some? && v.master.value.containers == []
  {
    BuildHistory.BuildsOverEveryRun(s, actions, s');
    PanicsIff(v, e);
    if e.images(v.rest.imageRef).Some? {
      var status := e.images(v.rest.imageRef).value.status;
      assert status in s'.history;
    }
  }

  class MasterObject {
    var containers: array<Container>
    var volumes: seq<Volume>
    var basePlugins: seq<Plugins.Plugin>

    constructor (containers: array<Container>, volumes: seq<Volume>, basePlugins: seq<Plugins.Plugin>)
      ensures this.containers == containers && this.volumes == volumes && this.basePlugins == basePlugins
    {
      this.containers := containers;
      this.volumes := volumes;
      this.basePlugins := basePlugins;
    }

    function Value(): MasterValue
      reads this, containers
    {
      MasterValue(containers[..], volumes, basePlugins)
    }

    method DeepCopy() returns (m: MasterObject)
      ensures fresh(m) && fresh(m.containers) && m.Value() == Value()
    {
      var cs := new Container[containers.Length](i requires 0 <= i < containers.Length reads this, containers => containers[i]);
      assert cs[..] == containers[..];
      m := new MasterObject(cs, volumes, basePlugins);
    }
  }

  class SpecObject {
    var master: MasterObject?
    var rest: Rest

    constructor (master: MasterObject?, rest: Rest)
      ensures this.master == master && this.rest == rest
    {
      this.master := master;
      this.rest := rest;
    }

    function Value(): SpecValue
      reads this, master, if master != null then {master.containers} else {}
    {
      SpecValue(if master == null then None else Some(master.Value()), rest)
    }

    method DeepCopy() returns (s: SpecObject)
      ensures fresh(s) && s.Value() == Value()
      ensures s.master != null ==> fresh(s.master) && fresh(s.master.containers)
    {
      var m: MasterObject? := null;
      if master != null {
        m := master.DeepCopy();
      }
      s := new SpecObject(m, rest);
    }
  }

  /** The custom resource: the requested spec, and the calculated one in its status. */
  class Jenkins {
    const spec: SpecObject
    var statusSpec: SpecObject?

    constructor (spec: SpecObject)
      ensures this.spec == spec && statusSpec == null
    {
      this.spec := spec;
      statusSpec := null;
    }
  }

  class Defaulter {
    const jenkins: Jenkins
    const environment: Environment

    constructor (jenkins: Jenkins, environment: Environment)
      ensures this.jenkins == jenkins && this.environment == environment
    {
      this.jenkins := jenkins;
      this.environment := environment;
    }

    method GetJenkinsMasterContainer(spec: SpecObject) returns (r: Result<Container, Failure>)
      ensures r == Requested(spec.Value(), environment)
    {
      if spec.master == null || spec.master.containers.Length == 0 {
        return Ok(Container(MASTER_CONTAINER, environment.defaultImage, "", Unset, [], [], [], None, None));
      }
      if spec.master.containers[0].name != MASTER_CONTAINER {
        return Err(WrongFirstContainer);
      }
      return Ok(spec.master.containers[0]);
    }

    /** A copy of the master; the container goes into the original, not into the copy. */
    method GetCalculatedJenkinsMaster(spec: SpecObject, container: Container) returns (r: Result<MasterObject, Failure>)
      modifies if spec.master != null then {spec.master.containers} else {}
      ensures r.Err? <==> old(spec.master != null && spec.master.containers.Length == 0)
      ensures r.Err? ==> r.error == IndexOutOfRange
      ensures r.Ok? ==>
                fresh(r.value) && fresh(r.value.containers) &&
                r.value.Value() == match old(spec.Value()).master
                                   case None => MasterValue([container], [], [])
                                   case Some(m) => m
    {
      if spec.master == null {
        var cs := new Container[1](_ => container);
        assert cs[..] == [container];
        var m := new MasterObject(cs, [], []);
        return Ok(m);
      }
      var copy := spec.master.DeepCopy();
      if spec.master.containers.Length == 0 {
        return Err(IndexOutOfRange);
      }
      spec.master.containers[0] := container;
      r := Ok(copy);
    }

    method MasterImage(requested: string) returns (r: Result<string, Failure>)
      ensures r == Image(requested, jenkins.spec.rest.imageRef, environment)
    {
      var image := requested;
      if image == "" {
        image := environment.defaultImage;
      }
      var imageRef := jenkins.spec.rest.imageRef;
      if imageRef != "" {
        var found := environment.images(imageRef);
        if found.None? {
          return Err(ImageNotFound);
        }
        if found.value.status.phase.Successful? {
          var builds := found.value.status.builds;
          if |builds| == 0 {
            return Err(IndexOutOfRange);
          }
          image := found.value.registry + "/" + found.value.name + "@" + builds[|builds| - 1].image;
        }
      }
      r := Ok(image);
    }

    method IsEnvVarNotSet(env: seq<EnvVar>, name: string) returns (r: bool)
      ensures r <==> !IsSet(env, name)
    {
      for i := 0 to |env|
        invariant forall k | 0 <= k < i :: env[k].name != name
      {
        if env[i].name == name {
          return false;
        }
      }
      r := true;
    }

    method SetEnvVarIfNotSet(c: Container, name: string, value: string) returns (c': Container)
      ensures c' == c.(env := WithEnv(c.env, name, value))
    {
      c' := c;
      var unset := IsEnvVarNotSet(c.env, name);
      if unset {
        c' := c.(env := c.env + [JenkinsOptions.EnvVar(name, value)]);
      }
    }

    method SetDefaultsForMaster(c: Container, image: string) returns (r: Container)
      ensures r == MasterDefaulted(c, image)
    {
      r := c.(image := image, pullPolicy := "Always");
      if r.readiness.None? {
        r := r.(readiness := Some(READINESS));
      }
      if r.liveness.None? {
        r := r.(liveness := Some(LIVENESS));
      }
      r := SetEnvVarIfNotSet(r, JAVA_OPTS, JAVA_OPTS_DEFAULT);
      r := SetEnvVarIfNotSet(r, TRUST_CERTS, "true");
      if r.resources.Unset? {
        r := r.(resources := Requirements("1", "500Mi", "1500m", "3Gi"));
      }
    }

    /** Works on the container reached through the status of the resource. */
    method SetDefaultsForContainer(index: nat) returns (changed: bool)
      requires jenkins.statusSpec != null && jenkins.statusSpec.master != null
      requires index < jenkins.statusSpec.master.containers.Length
      modifies jenkins.statusSpec.master.containers
      ensures var cs := jenkins.statusSpec.master.containers;
              cs[..] == old(cs[..])[index := SidecarDefaulted(old(cs[index]))]
      ensures changed <==> jenkins.statusSpec.master.containers[index] != old(jenkins.statusSpec.master.containers[index])
    {
      changed := false;
      var cs := jenkins.statusSpec.master.containers;
      if cs[index].pullPolicy == "" {
        changed := true;
        cs[index] := cs[index].(pullPolicy := "Always");
      }
      if cs[index].resources.Unset? {
        changed := true;
        cs[index] := cs[index].(resources := Requirements("50m", "50Mi", "100m", "100Mi"));
      }
    }

    /** All containers but the first. */
    method SetDefaultsForSidecars(spec: SpecObject)
      requires jenkins.statusSpec == spec && spec.master != null && spec.master.containers.Length >= 1
      modifies spec.master.containers
      ensures var cs := spec.master.containers;
              cs[..] == [old(cs[0])] + SidecarsDefaulted(old(cs[1..]))
    {
      hide SidecarDefaulted;
      var cs := spec.master.containers;
      ghost var before := cs[..];
      for i := 1 to cs.Length
        invariant cs[0] == before[0]
        invariant forall k | 1 <= k < i :: cs[k] == SidecarDefaulted(before[k])
        invariant forall k | i <= k < cs.Length :: cs[k] == before[k]
      {
        var _ := SetDefaultsForContainer(i);
        assert forall k | 0 <= k < cs.Length && k != i :: cs[k] == cs[..][k];
      }
      assert before[1..] == old(cs[1..]);
    }

    /** The calculated containers: the master container in front of the sidecars, in a list of their own. */
    method PutMasterFirst(master: MasterObject, container: Container)
      requires master.containers.Length >= 1
      modifies master`containers
      ensures fresh(master.containers) && master.containers[..] == [container] + old(master.containers[1..])
    {
      var cs := new Container[master.containers.Length](i requires 0 <= i < master.containers.Length
          reads master, master.containers => if i == 0 then container else master.containers[i]);
      assert cs[..] == [container] + master.containers[1..];
      master.containers := cs;
    }

    method SetServices(spec: SpecObject, requested: ServiceSpec)
      requires spec.rest.service == requested
      modifies spec`rest
      ensures spec.rest ==
              var r := RestDefaulted(old(spec.rest), environment);
              old(spec.rest).(service := r.service, jnlpService := r.jnlpService)
    {
      if requested == ZERO_SERVICE {
        var kind := "ClusterIP";
        if environment.useNodePort {
          kind := "NodePort";
        }
        spec.rest := spec.rest.(service := ServiceOf(kind, 8080));
      }
      if spec.rest.jnlpService == ZERO_SERVICE {
        spec.rest := spec.rest.(jnlpService := ServiceOf("ClusterIP", 50000));
      }
    }

    method SetConfigurationAndRoles(spec: SpecObject, requested: Option<seq<RbacNames.RoleRef>>)
      requires spec.rest.roles == requested
      modifies spec`rest
      ensures spec.rest ==
              var r := RestDefaulted(old(spec.rest), environment);
              old(spec.rest).(casc := r.casc, roles := r.roles)
    {
      if spec.rest.casc.None? {
        spec.rest := spec.rest.(casc := Some(Configuration(true, true, "", [], true)));
      }
      var roles := requested;
      if roles.None? && environment.editRole.Some? {
        roles := Some([environment.editRole.value]);
      }
      spec.rest := spec.rest.(roles := roles);
    }

    /** Fills in everything but the master container, and puts that one in. */
    method Complete(spec: SpecObject, container: Container)
      requires jenkins.statusSpec == spec && spec.master != null && spec.master.containers.Length >= 1
      requires spec.rest == jenkins.spec.rest && spec != jenkins.spec
      modifies spec`rest, spec.master, spec.master.containers
      ensures spec.master == old(spec.master) && fresh(spec.master.containers)
      ensures spec.rest == RestDefaulted(old(spec.rest), environment)
      ensures spec.master.Value() ==
              MasterValue([container] + SidecarsDefaulted(old(spec.master.containers[1..])), old(spec.master.volumes),
                          PluginsDefaulted(old(spec.master.basePlugins), environment))
    {
      if |spec.master.basePlugins| == 0 {
        spec.master.basePlugins := environment.basePlugins;
      }
      SetServices(spec, jenkins.spec.rest.service);
      ghost var sidecars := SidecarsDefaulted(spec.master.containers[1..]);
      if spec.master.containers.Length > 1 {
        SetDefaultsForSidecars(spec);
      }
      assert spec.master.containers[1..] == sidecars;
      PutMasterFirst(spec.master, container);
      SetConfigurationAndRoles(spec, jenkins.spec.rest.roles);
    }

    /**
     * The calculated spec, in objects of its own that the status now refers to. The requested spec keeps its
     * objects and their contents.
     */
    method GetCalculatedSpec() returns (r: Result<SpecObject, Failure>)
      modifies jenkins`statusSpec
      ensures r.Err? <==> Defaulted(old(jenkins.spec.Value()), environment).Err?
      ensures r.Err? ==> Defaulted(old(jenkins.spec.Value()), environment).error == r.error
      ensures r.Ok? ==>
                && jenkins.statusSpec == r.value && fresh(r.value)
                && r.value.master != null && fresh(r.value.master) && fresh(r.value.master.containers)
                && Defaulted(old(jenkins.spec.Value()), environment) == Ok(r.value.Value())
    {
      ghost var v := jenkins.spec.Value();
      var spec := jenkins.spec.DeepCopy();
      jenkins.statusSpec := spec;
      var requested := GetJenkinsMasterContainer(spec);
      if requested.Err? {
        return Err(requested.error);
      }
      var calculated := GetCalculatedJenkinsMaster(spec, requested.value);
      if calculated.Err? {
        return Err(calculated.error);
      }
      spec.master := calculated.value;
      ghost var m := spec.master.Value();
      assert m == StartingMaster(v, requested.value);
      var image := MasterImage(spec.master.containers[0].image);
      if image.Err? {
        return Err(image.error);
      }
      var container := SetDefaultsForMaster(requested.value, image.value);
      assert m.containers[1..] == spec.master.containers[1..];
      Complete(spec, container);
      Assembled(v, environment, requested.value, image.value, spec.master.Value());
      r := Ok(spec);
    }

    /**
     * The comparison is with the object just stored, so the branch that would store it again, update the resource
     * and ask for another round is never taken.
     */
    method SetDefaults() returns (requeue: bool, err: bool)
      modifies jenkins`statusSpec
      ensures !requeue
      ensures err <==> Defaulted(old(jenkins.spec.Value()), environment).Err?
      ensures !err ==>
                jenkins.statusSpec != null &&
                Defaulted(old(jenkins.spec.Value()), environment) == Ok(jenkins.statusSpec.Value())
    {
      var calculated := GetCalculatedSpec();
      if calculated.Err? {
        return false, true;
      }
      if jenkins.statusSpec == null || jenkins.statusSpec.Value() != calculated.value.Value() {
        assert false;
      }
      return false, false;
    }
  }
}
