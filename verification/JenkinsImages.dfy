/** The JenkinsImage reconciler: ConfigMap, then builder pod, then a goroutine that records the build. */
module JenkinsImages {
  import opened Common
  import opened BuildHistory
  import BuilderPods

  datatype Image = Image(namespace: string, name: string)

  datatype Key = Key(namespace: string, name: string)

  /** ConfigMaps by the content of their Dockerfile, and builder pods by their status. */
  datatype Objects = Objects(configMaps: map<Key, string>, pods: map<Key, PodStatus>)

  function ConfigMapKey(image: Image): Key
  {
    Key(image.namespace, BuilderPods.DockerfileConfigMapName(image.name))
  }

  function PodKey(image: Image): Key
  {
    Key(image.namespace, BuilderPods.BuilderPodName(image.name))
  }

  /** What an undisturbed reconcile makes of the objects. */
  function Advance(o: Objects, image: Image, dockerfile: string): Objects
  {
    if ConfigMapKey(image) !in o.configMaps then o.(configMaps := o.configMaps[ConfigMapKey(image) := dockerfile])
    else if PodKey(image) !in o.pods then o.(pods := o.pods[PodKey(image) := PodStatus([])])
    else o
  }

  datatype Reply = Found | NotFound | Failed

  /** What the goroutine is given: the image as read, at its version, and the pod as read. */
  datatype Goroutine = Goroutine(at: nat, status: ImageStatus, pod: PodStatus)

  /** The API server as this controller uses it. Any call may fail, and then has no effect. */
  class Server {
    var objects: Objects
    var history: seq<ImageStatus>
    var calls: nat
    const failing: nat -> bool

    constructor (objects: Objects, history: seq<ImageStatus>, failing: nat -> bool)
      ensures this.objects == objects && this.history == history && this.failing == failing && calls == 0
    {
      this.objects := objects;
      this.history := history;
      this.failing := failing;
      calls := 0;
    }

    method GetImage() returns (r: Reply, at: nat, status: ImageStatus)
      modifies this`calls
      ensures calls == old(calls) + 1
      ensures r == if failing(old(calls)) then Failed else if history == [] then NotFound else Found
      ensures r.Found? ==> at == |history| - 1 && status == history[at]
    {
      r, at, status := Failed, 0, ImageStatus(Unset, []);
      if !failing(calls) {
        if history == [] {
          r := NotFound;
        } else {
          r, at, status := Found, |history| - 1, history[|history| - 1];
        }
      }
      calls := calls + 1;
    }

    method GetConfigMap(key: Key) returns (r: Reply, content: string)
      modifies this`calls
      ensures calls == old(calls) + 1
      ensures r == if failing(old(calls)) then Failed else if key in objects.configMaps then Found else NotFound
      ensures content == if r.Found? then objects.configMaps[key] else ""
    {
      r := if failing(calls) then Failed else if key in objects.configMaps then Found else NotFound;
      content := if r.Found? then objects.configMaps[key] else "";
      calls := calls + 1;
    }

    method GetPod(key: Key) returns (r: Reply, pod: PodStatus)
      modifies this`calls
      ensures calls == old(calls) + 1
      ensures r == if failing(old(calls)) then Failed else if key in objects.pods then Found else NotFound
      ensures pod == if r.Found? then objects.pods[key] else PodStatus([])
    {
      r := if failing(calls) then Failed else if key in objects.pods then Found else NotFound;
      pod := if r.Found? then objects.pods[key] else PodStatus([]);
      calls := calls + 1;
    }

    method CreateConfigMap(key: Key, content: string) returns (err: bool)
      modifies this`calls, this`objects
      ensures calls == old(calls) + 1
      ensures err == (failing(old(calls)) || key in old(objects).configMaps)
      ensures objects == if err then old(objects) else old(objects).(configMaps := old(objects).configMaps[key := content])
    {
      err := failing(calls) || key in objects.configMaps;
      if !err {
        objects := objects.(configMaps := objects.configMaps[key := content]);
      }
      calls := calls + 1;
    }

    method CreatePod(key: Key) returns (err: bool)
      modifies this`calls, this`objects
      ensures calls == old(calls) + 1
      ensures err == (failing(old(calls)) || key in old(objects).pods)
      ensures objects == if err then old(objects) else old(objects).(pods := old(objects).pods[key := PodStatus([])])
    {
      err := failing(calls) || key in objects.pods;
      if !err {
        objects := objects.(pods := objects.pods[key := PodStatus([])]);
      }
      calls := calls + 1;
    }

    /** Refused unless the writer holds the latest version. */
    method UpdateStatus(at: nat, status: ImageStatus) returns (err: bool)
      modifies this`calls, this`history
      ensures calls == old(calls) + 1
      ensures err == (failing(old(calls)) || at + 1 != |old(history)|)
      ensures history == if err then old(history) else old(history) + [status]
    {
      err := failing(calls) || at + 1 != |history|;
      if !err {
        history := history + [status];
      }
      calls := calls + 1;
    }
  }

  method Contains(s: seq<Build>, e: Build) returns (r: bool)
    ensures r <==> e in s
  {
    for i := 0 to |s|
      invariant e !in s[..i]
    {
      assert s[..i + 1] == s[..i] + [s[i]];
      if s[i] == e {
        return true;
      }
    }
    assert s[..|s|] == s;
    r := false;
  }

  /** The key under which the controller looks for the Dockerfile it built: the image's name serves as namespace. */
  function ChecksumKey(image: Image): Key
  {
    Key(image.name, BuilderPods.DockerfileConfigMapName(image.name))
  }

  /** The content whose checksum is recorded with a build. */
  function ChecksumContent(o: Objects, image: Image): string
  {
    if ChecksumKey(image) in o.configMaps then Trim(o.configMaps[ChecksumKey(image)]) else ""
  }

  /** The recorded checksum is that of the image's own Dockerfile. */
  predicate ChecksumFits(o: Objects, image: Image)
    requires ConfigMapKey(image) in o.configMaps
  {
    ChecksumContent(o, image) == Trim(o.configMaps[ConfigMapKey(image)])
  }

  /**
   * Where no namespace other than the image's own holds a ConfigMap of that name, the recorded checksum is that
   * of the Dockerfile if and only if the image is called like its namespace.
   */
  lemma ChecksumFitsIff(o: Objects, image: Image)
    requires ConfigMapKey(image) in o.configMaps && Trim(o.configMaps[ConfigMapKey(image)]) != ""
    requires forall k | k in o.configMaps && k.name == ConfigMapKey(image).name :: k.namespace == image.namespace
    ensures ChecksumFits(o, image) <==> image.name == image.namespace
  {
    assert ChecksumKey(image) in o.configMaps ==> ChecksumKey(image).namespace == image.namespace;
  }

  /**
   * What the builder pod mounts as its Dockerfile directory is a volume, the only one of that name, over the very
   * ConfigMap that the reconcile creates; and the two objects are named after the image.
   */
  lemma DockerfileIsMounted(image: Image, push: Option<string>, later: Option<string>)
    ensures ConfigMapKey(image) == Key(image.namespace, image.name + "-dockerfile")
    ensures PodKey(image) == Key(image.namespace, image.name + "-builder")
    ensures exists i, j ::
              && 0 <= i < |BuilderPods.Mounts(image.name, later)| && 0 <= j < |BuilderPods.Volumes(image.name, push)|
              && BuilderPods.Mounts(image.name, later)[i].path == "/dockerfile"
              && BuilderPods.Volumes(image.name, push)[j] ==
                 BuilderPods.Volume(BuilderPods.Mounts(image.name, later)[i].name, BuilderPods.ConfigMap(ConfigMapKey(image).name))
              && forall k | 0 <= k < |BuilderPods.Volumes(image.name, push)| && k != j ::
                   BuilderPods.Volumes(image.name, push)[k].name != BuilderPods.Mounts(image.name, later)[i].name
  {
    BuilderPods.SuffixesDiffer(image.name);
    assert BuilderPods.Mounts(image.name, later)[1].path == "/dockerfile";
    assert BuilderPods.Volumes(image.name, push)[1].name == BuilderPods.Mounts(image.name, later)[1].name;
  }

  /** For every image not called like its namespace: objects under which the recorded checksum is of nothing. */
  lemma ChecksumOfNothing(image: Image, dockerfile: string) returns (o: Objects)
    requires image.name != image.namespace && Trim(dockerfile) != ""
    ensures o == Advance(Objects(map[], map[]), image, dockerfile)
    ensures ConfigMapKey(image) in o.configMaps && !ChecksumFits(o, image) && ChecksumContent(o, image) == ""
  {
    o := Advance(Objects(map[], map[]), image, dockerfile);
    assert o.configMaps == map[ConfigMapKey(image) := dockerfile];
  }

  /** The objects and the history as the only reconcile under way sees them. */
  function View(o: Objects, history: seq<ImageStatus>, image: Image, p: Process): System
  {
    var pod := if PodKey(image) in o.pods then Some(o.pods[PodKey(image)]) else None;
    System(history, ConfigMapKey(image) in o.configMaps, pod, if pod.Some? then {pod.value} else {}, [p])
  }

  /** A step of that reconcile: it reads what is there, unless it stands at a read that fails. */
  predicate Fresh(s: System, a: Action, failed: set<Pc>)
    requires Enabled(s, a)
  {
    match a
    case ReadImage(id, v) => id == 0 && v + 1 == |s.history|
    case ReadFails(id) => id == 0 && s.processes[0].pc in failed
    case SeesConfigMap(id, found) => id == 0 && found == s.configMap
    case CreatesConfigMap(id, _) => id == 0
    case SeesPod(id, status) => id == 0 && status == s.pod
    case CreatesPod(id, _) => id == 0
    case _ => false
  }

  ghost predicate FreshRun(s: System, actions: seq<Action>, s': System, failed: set<Pc>)
    decreases actions
  {
    if actions == [] then s == s'
    else Enabled(s, actions[0]) && Fresh(s, actions[0], failed) && FreshRun(Apply(s, actions[0]), actions[1..], s', failed)
  }

  /** Fresh steps lead from the one state to the other. */
  ghost predicate Conducts(s: System, s': System, failed: set<Pc>)
  {
    exists actions :: FreshRun(s, actions, s', failed)
  }

  lemma {:induction false} FreshRunSnoc(s: System, actions: seq<Action>, mid: System, a: Action, failed: set<Pc>)
    requires FreshRun(s, actions, mid, failed) && Enabled(mid, a) && Fresh(mid, a, failed)
    ensures FreshRun(s, actions + [a], Apply(mid, a), failed)
    decreases actions
  {
    hide Apply, Enabled, Fresh;
    if actions == [] {
      assert [a][1..] == [] && [] + [a] == [a];
      assert FreshRun(Apply(s, a), [], Apply(mid, a), failed);
    } else {
      FreshRunSnoc(Apply(s, actions[0]), actions[1..], mid, a, failed);
      assert (actions + [a])[1..] == actions[1..] + [a];
    }
  }

  lemma ConductsStep(s: System, mid: System, a: Action, failed: set<Pc>)
    requires Conducts(s, mid, failed) && Enabled(mid, a) && Fresh(mid, a, failed)
    ensures Conducts(s, Apply(mid, a), failed)
  {
    var actions :| FreshRun(s, actions, mid, failed);
    FreshRunSnoc(s, actions, mid, a, failed);
  }

  /** Fresh steps are steps of the machine, so everything proved about its runs holds of them. */
  lemma {:induction false} ConductsLeads(s: System, s': System, failed: set<Pc>)
    requires Conducts(s, s', failed)
    ensures exists actions :: Leads(s, actions, s')
  {
    var actions :| FreshRun(s, actions, s', failed);
    FreshRunLeads(s, actions, s', failed);
  }

  lemma {:induction false} FreshRunLeads(s: System, actions: seq<Action>, s': System, failed: set<Pc>)
    requires FreshRun(s, actions, s', failed)
    ensures Leads(s, actions, s')
    decreases actions
  {
    if actions != [] {
      FreshRunLeads(Apply(s, actions[0]), actions[1..], s', failed);
    }
  }

  function Starting(history: seq<ImageStatus>): Process
    requires history != []
  {
    Process(Start, 0, history[0], PodStatus([]))
  }

  /** The image has been read, or could not be. */
  lemma ImageAnswered(o: Objects, h: seq<ImageStatus>, image: Image, failed: set<Pc>)
    requires h != []
    ensures var s := View(o, h, image, Starting(h));
            && (Start in failed ==> Conducts(s, View(o, h, image, Starting(h).(pc := End)), failed))
            && Conducts(s, View(o, h, image, Process(LookConfigMap, |h| - 1, h[|h| - 1], PodStatus([]))), failed)
  {
    var s := View(o, h, image, Starting(h));
    assert FreshRun(s, [], s, failed);
    if Start in failed {
      ConductsStep(s, s, ReadFails(0), failed);
      assert Apply(s, ReadFails(0)) == View(o, h, image, Starting(h).(pc := End));
    }
    ConductsStep(s, s, ReadImage(0, |h| - 1), failed);
    assert Apply(s, ReadImage(0, |h| - 1)) == View(o, h, image, Process(LookConfigMap, |h| - 1, h[|h| - 1], PodStatus([])));
  }

  /** The ConfigMap has been read; it was there or could not be read, or it was not and has been created, or not. */
  lemma ConfigMapAnswered(
      s: System, o: Objects, h: seq<ImageStatus>, image: Image, p: Process, dockerfile: string, failed: set<Pc>)
    requires h != [] && p.pc == LookConfigMap && Conducts(s, View(o, h, image, p), failed)
    ensures ConfigMapKey(image) in o.configMaps || LookConfigMap in failed ==>
              Conducts(s, View(o, h, image, p.(pc := LookPod)), failed)
    ensures ConfigMapKey(image) !in o.configMaps ==>
              var o' := o.(configMaps := o.configMaps[ConfigMapKey(image) := dockerfile]);
              && Conducts(s, View(o, h, image, p.(pc := End)), failed)
              && Conducts(s, View(o', h, image, p.(pc := End)), failed)
  {
    hide Conducts;
    var v := View(o, h, image, p);
    if LookConfigMap in failed {
      ConductsStep(s, v, ReadFails(0), failed);
      assert Apply(v, ReadFails(0)) == View(o, h, image, p.(pc := LookPod));
    }
    ConductsStep(s, v, SeesConfigMap(0, v.configMap), failed);
    if v.configMap {
      assert Apply(v, SeesConfigMap(0, true)) == View(o, h, image, p.(pc := LookPod));
    } else {
      var w := View(o, h, image, p.(pc := CreateConfigMap));
      assert Apply(v, SeesConfigMap(0, false)) == w;
      ConductsStep(s, w, CreatesConfigMap(0, false), failed);
      ConductsStep(s, w, CreatesConfigMap(0, true), failed);
      assert Apply(w, CreatesConfigMap(0, false)) == View(o, h, image, p.(pc := End));
      var o' := o.(configMaps := o.configMaps[ConfigMapKey(image) := dockerfile]);
      assert Apply(w, CreatesConfigMap(0, true)) == View(o', h, image, p.(pc := End));
    }
  }

  /** The pod has been read; it was there, or could not be read, or it was not and has been created, or not. */
  lemma PodAnswered(s: System, o: Objects, h: seq<ImageStatus>, image: Image, p: Process, failed: set<Pc>)
    requires h != [] && p.pc == LookPod && Conducts(s, View(o, h, image, p), failed)
    ensures LookPod in failed ==> Conducts(s, View(o, h, image, p.(pc := Waiting, pod := PodStatus([]))), failed)
    ensures PodKey(image) in o.pods ==>
              Conducts(s, View(o, h, image, p.(pc := Waiting, pod := o.pods[PodKey(image)])), failed)
    ensures PodKey(image) !in o.pods ==>
              var o' := o.(pods := o.pods[PodKey(image) := PodStatus([])]);
              && Conducts(s, View(o, h, image, p.(pc := End)), failed)
              && Conducts(s, View(o', h, image, p.(pc := End)), failed)
  {
    hide Conducts;
    var v := View(o, h, image, p);
    if LookPod in failed {
      ConductsStep(s, v, ReadFails(0), failed);
      assert Apply(v, ReadFails(0)) == View(o, h, image, p.(pc := Waiting, pod := PodStatus([])));
    }
    ConductsStep(s, v, SeesPod(0, v.pod), failed);
    if PodKey(image) in o.pods {
      assert Apply(v, SeesPod(0, v.pod)) == View(o, h, image, p.(pc := Waiting, pod := o.pods[PodKey(image)]));
    } else {
      var w := View(o, h, image, p.(pc := CreatePod));
      assert Apply(v, SeesPod(0, v.pod)) == w;
      ConductsStep(s, w, CreatesPod(0, false), failed);
      ConductsStep(s, w, CreatesPod(0, true), failed);
      assert Apply(w, CreatesPod(0, false)) == View(o, h, image, p.(pc := End));
      var o' := o.(pods := o.pods[PodKey(image) := PodStatus([])]);
      assert Apply(w, CreatesPod(0, true)) == View(o', h, image, p.(pc := End));
    }
  }

  class JenkinsImageReconciler {
    const server: Server
    const image: Image
    const dockerfile: string
    const md5: string -> string

    constructor (server: Server, image: Image, dockerfile: string, md5: string -> string)
      ensures this.server == server && this.image == image && this.dockerfile == dockerfile && this.md5 == md5
    {
      this.server := server;
      this.image := image;
      this.dockerfile := dockerfile;
      this.md5 := md5;
    }

    /** None of the calls of this reconcile failed. */
    ghost predicate Undisturbed(from: nat)
      reads server
    {
      forall k | from <= k < server.calls :: !server.failing(k)
    }

    /** The places whose read, made in this order from this call on, fails. */
    function FailedReads(from: nat): set<Pc>
    {
      (if server.failing(from) then {Start} else {}) + (if server.failing(from + 1) then {LookConfigMap} else {}) +
      if server.failing(from + 2) then {LookPod} else {}
    }

    /**
     * One reconcile. Undisturbed, it makes exactly one step towards both objects; disturbed, at most that, except
     * that a failed ConfigMap read is passed over. A goroutine is started only when nothing was created, with the
     * pod as it was read.
     */
    method Reconcile() returns (err: bool, goroutine: Option<Goroutine>)
      modifies server`calls, server`objects
      ensures server.history != [] && Undisturbed(old(server.calls)) ==>
                !err && server.objects == Advance(old(server.objects), image, dockerfile)
      ensures server.objects == old(server.objects) || server.objects == Advance(old(server.objects), image, dockerfile) ||
              (server.failing(old(server.calls) + 1) &&
               server.objects == old(server.objects).(pods := old(server.objects).pods[PodKey(image) := PodStatus([])]))
      ensures PodKey(image) in server.objects.pods && PodKey(image) !in old(server.objects).pods ==>
                ConfigMapKey(image) in old(server.objects).configMaps || server.failing(old(server.calls) + 1)
      ensures PodKey(image) in server.objects.pods && PodKey(image) !in old(server.objects).pods &&
              ConfigMapKey(image) !in old(server.objects).configMaps <==>
                && server.history != [] && !server.failing(old(server.calls)) && server.failing(old(server.calls) + 1)
                && ConfigMapKey(image) !in old(server.objects).configMaps && PodKey(image) !in old(server.objects).pods
                && !server.failing(old(server.calls) + 2) && !server.failing(old(server.calls) + 3)
      ensures ConfigMapKey(image) in server.objects.configMaps && ConfigMapKey(image) !in old(server.objects).configMaps ==>
                server.objects.configMaps[ConfigMapKey(image)] == dockerfile
      ensures err <==>
                || server.failing(old(server.calls))
                || (server.history != [] && ConfigMapKey(image) !in old(server.objects).configMaps &&
                    !server.failing(old(server.calls) + 1) && server.failing(old(server.calls) + 2))
                || (server.history != [] && PodKey(image) !in old(server.objects).pods &&
                    (ConfigMapKey(image) in old(server.objects).configMaps || server.failing(old(server.calls) + 1)) &&
                    !server.failing(old(server.calls) + 2) && server.failing(old(server.calls) + 3))
      ensures goroutine.Some? <==>
                && server.history != [] && !server.failing(old(server.calls))
                && (ConfigMapKey(image) in old(server.objects).configMaps || server.failing(old(server.calls) + 1))
                && (PodKey(image) in old(server.objects).pods || server.failing(old(server.calls) + 2))
      ensures goroutine.Some? ==>
                && !err && server.objects == old(server.objects)
                && goroutine.value.at < |server.history| && goroutine.value.status == server.history[goroutine.value.at]
                && goroutine.value.pod == if PodKey(image) in server.objects.pods && !server.failing(old(server.calls) + 2)
                                          then server.objects.pods[PodKey(image)] else PodStatus([])
      ensures server.history != [] ==>
                exists p ::
                  && Conducts(View(old(server.objects), server.history, image, Starting(server.history)),
                              View(server.objects, server.history, image, p), FailedReads(old(server.calls)))
                  && if goroutine.Some? then p == Process(Waiting, goroutine.value.at, goroutine.value.status, goroutine.value.pod)
                     else p.pc == End
    {
      hide Conducts, View;
      goroutine := None;
      ghost var o, h, failed := server.objects, server.history, FailedReads(server.calls);
      var r, at, status := server.GetImage();
      if h != [] {
        ImageAnswered(o, h, image, failed);
      }
      if !r.Found? {
        return r.Failed?, None;
      }
      ghost var s, p := View(o, h, image, Starting(h)), Process(LookConfigMap, at, status, PodStatus([]));
      var content;
      r, content := server.GetConfigMap(ConfigMapKey(image));
      ConfigMapAnswered(s, o, h, image, p, dockerfile, failed);
      if r.NotFound? {
        err := server.CreateConfigMap(ConfigMapKey(image), dockerfile);
        return err, None;
      }
      var pod;
      r, pod := server.GetPod(PodKey(image));
      PodAnswered(s, o, h, image, p.(pc := LookPod), failed);
      if r.NotFound? {
        err := server.CreatePod(PodKey(image));
        return err, None;
      }
      return false, Some(Goroutine(at, status, pod));
    }

    method GetDockerfileContent() returns (content: string)
      modifies server`calls
      ensures server.calls == old(server.calls) + 1
      ensures content == if server.failing(old(server.calls)) then "" else ChecksumContent(server.objects, image)
    {
      var r;
      r, content := server.GetConfigMap(ChecksumKey(image));
      content := if r.Found? then Trim(content) else "";
    }

    /** The goroutine, once its wait for the pod has ended. It writes what AfterWait says, if it is still current. */
    method UpdateStatusWhenPodIsCompleted(g: Goroutine, completed: bool)
      modifies server`calls, server`history
      ensures var content := if server.failing(old(server.calls)) then "" else ChecksumContent(server.objects, image);
              var next := AfterWait(g.status, g.pod, completed, md5(content));
              server.history ==
              if next.Some? && g.at + 1 == |old(server.history)| && !server.failing(old(server.calls) + 1)
              then old(server.history) + [next.value] else old(server.history)
    {
      if completed && |g.pod.containers| == 1 {
        var terminated := g.pod.containers[0];
        if terminated.Some? {
          var builtImage := Trim(terminated.value);
          var content := GetDockerfileContent();
          var build := Build(builtImage, Trim(md5(content)));
          var known := Contains(g.status.builds, build);
          if !known {
            var _ := server.UpdateStatus(g.at, ImageStatus(Successful, g.status.builds + [build]));
          }
        }
      }
    }
  }
}
