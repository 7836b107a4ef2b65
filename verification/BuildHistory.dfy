/**
 * The JenkinsImage controller under races: any number of reconciles of one image, each of which may leave behind
 * a goroutine holding its own snapshots of the image and of the builder pod, over a versioned store.
 */
module BuildHistory {
  import opened Common

  datatype Build = Build(image: string, md5Sum: string)

  datatype Phase = Unset | Pending | Successful

  datatype ImageStatus = ImageStatus(phase: Phase, builds: seq<Build>)

  /** The container statuses of the builder pod: for each container its termination message, once terminated. */
  datatype PodStatus = PodStatus(containers: seq<Option<string>>)

  /** `strings.Trim` with the cut set of the controller: bar, newline and space. */
  function TrimLeft(s: string): string
  {
    if s != [] && s[0] in "|\n " then TrimLeft(s[1..]) else s
  }

  function TrimRight(s: string): string
  {
    if s != [] && s[|s| - 1] in "|\n " then TrimRight(s[..|s| - 1]) else s
  }

  function Trim(s: string): string
  {
    TrimRight(TrimLeft(s))
  }

  /** The message of the only container, if it has terminated. */
  function Message(pod: PodStatus): Option<string>
  {
    if |pod.containers| == 1 then pod.containers[0] else None
  }

  /** What the goroutine writes once its wait is over: nothing, or the snapshot with one more build. */
  function AfterWait(status: ImageStatus, pod: PodStatus, completed: bool, md5Sum: string): Option<ImageStatus>
  {
    if !completed || Message(pod).None? then None
    else
      var build := Build(Trim(Message(pod).value), Trim(md5Sum));
      if build in status.builds then None else Some(ImageStatus(Successful, status.builds + [build]))
  }

  datatype Pc = Start | LookConfigMap | CreateConfigMap | LookPod | CreatePod | Waiting | Writing | End

  /** A reconcile and its goroutine: the version `at` it read, and its snapshots. */
  datatype Process = Process(pc: Pc, at: nat, status: ImageStatus, pod: PodStatus)

  /** `seen` holds every status the builder pod has had. */
  datatype System = System(
    history: seq<ImageStatus>, configMap: bool, pod: Option<PodStatus>, seen: set<PodStatus>, processes: seq<Process>)

  datatype Action =
    | Spawn
    | Crash(id: nat)
    | ReadImage(id: nat, version: nat)
    | ReadFails(id: nat)
    | SeesConfigMap(id: nat, found: bool)
    | CreatesConfigMap(id: nat, ok: bool)
    | SeesPod(id: nat, status: Option<PodStatus>)
    | CreatesPod(id: nat, ok: bool)
    | PodChanges(pod: PodStatus)
    | WaitEnds(id: nat, completed: bool, md5Sum: string)
    | WriteApplied(id: nat)
    | WriteRefused(id: nat)
    | Touch

  predicate At(s: System, id: nat, pc: Pc)
  {
    id < |s.processes| && s.processes[id].pc == pc
  }

  /** Reads may be stale: an object that exists may be reported missing, and the pod with any status it has had. */
  predicate Enabled(s: System, a: Action)
  {
    |s.history| > 0 &&
    match a
    case Spawn => true
    case Crash(id) => id < |s.processes|
    case ReadImage(id, v) => At(s, id, Start) && v < |s.history|
    case ReadFails(id) => At(s, id, Start) || At(s, id, LookConfigMap) || At(s, id, LookPod)
    case SeesConfigMap(id, found) => At(s, id, LookConfigMap) && (found ==> s.configMap)
    case CreatesConfigMap(id, ok) => At(s, id, CreateConfigMap) && (ok ==> !s.configMap)
    case SeesPod(id, status) => At(s, id, LookPod) && (status.Some? ==> status.value in s.seen)
    case CreatesPod(id, ok) => At(s, id, CreatePod) && (ok ==> s.pod.None?)
    case PodChanges(pod) => s.pod.Some?
    case WaitEnds(id, _, _) => At(s, id, Waiting)
    case WriteApplied(id) => At(s, id, Writing) && s.processes[id].at == |s.history| - 1
    case WriteRefused(id) => At(s, id, Writing)
    case Touch => true
  }

  function Put(s: System, id: nat, p: Process): System
    requires id < |s.processes|
  {
    s.(processes := s.processes[id := p])
  }

  /** A failed read of the ConfigMap or of the pod is passed over as if the object had been found. */
  function ReadFailed(p: Process): Process
  {
    match p.pc
    case LookConfigMap => p.(pc := LookPod)
    case LookPod => p.(pc := Waiting, pod := PodStatus([]))
    case _ => p.(pc := End)
  }

  function WaitEnded(p: Process, completed: bool, md5Sum: string): Process
  {
    match AfterWait(p.status, p.pod, completed, md5Sum)
    case None => p.(pc := End)
    case Some(status) => p.(pc := Writing, status := status)
  }

  function Apply(s: System, a: Action): System
    requires Enabled(s, a)
  {
    match a
    case Spawn => s.(processes := s.processes + [Process(Start, 0, s.history[0], PodStatus([]))])
    case Crash(id) => Put(s, id, s.processes[id].(pc := End))
    case ReadImage(id, v) => Put(s, id, s.processes[id].(pc := LookConfigMap, at := v, status := s.history[v]))
    case ReadFails(id) => Put(s, id, ReadFailed(s.processes[id]))
    case SeesConfigMap(id, found) => Put(s, id, s.processes[id].(pc := if found then LookPod else CreateConfigMap))
    case CreatesConfigMap(id, ok) => Put(s, id, s.processes[id].(pc := End)).(configMap := s.configMap || ok)
    case SeesPod(id, status) =>
      Put(s, id, if status.Some? then s.processes[id].(pc := Waiting, pod := status.value) else s.processes[id].(pc := CreatePod))
    case CreatesPod(id, ok) =>
      var t := Put(s, id, s.processes[id].(pc := End));
      if ok then t.(pod := Some(PodStatus([])), seen := s.seen + {PodStatus([])}) else t
    case PodChanges(pod) => s.(pod := Some(pod), seen := s.seen + {pod})
    case WaitEnds(id, completed, md5Sum) => Put(s, id, WaitEnded(s.processes[id], completed, md5Sum))
    case WriteApplied(id) =>
      Put(s, id, s.processes[id].(pc := End)).(history := s.history + [s.processes[id].status])
    case WriteRefused(id) => Put(s, id, s.processes[id].(pc := End))
    case Touch => s.(history := s.history + [s.history[|s.history| - 1]])
  }

  /** The image has just been created. */
  predicate Initial(s: System)
  {
    && |s.history| == 1 && s.history[0].builds == [] && !s.history[0].phase.Successful?
    && !s.configMap && s.pod.None? && s.seen == {} && s.processes == []
  }

  predicate Leads(s: System, actions: seq<Action>, s': System)
    decreases actions
  {
    if actions == [] then s == s'
    else Enabled(s, actions[0]) && Leads(Apply(s, actions[0]), actions[1..], s')
  }

  predicate NoDuplicates(builds: seq<Build>)
  {
    forall i, j | 0 <= i < j < |builds| :: builds[i] != builds[j]
  }

  /** The build was read off a builder pod that had terminated. */
  predicate ReadOff(b: Build, seen: set<PodStatus>)
  {
    exists pod | pod in seen :: Message(pod).Some? && b.image == Trim(Message(pod).value)
  }

  predicate StatusInv(status: ImageStatus, seen: set<PodStatus>)
  {
    && NoDuplicates(status.builds)
    && (status.phase.Successful? <==> status.builds != [])
    && (forall b | b in status.builds :: ReadOff(b, seen))
  }

  predicate HistoryInv(h: seq<ImageStatus>, seen: set<PodStatus>)
  {
    && |h| > 0
    && (forall i | 0 <= i < |h| :: StatusInv(h[i], seen))
    && (forall i, j | 0 <= i < j < |h| :: h[i].builds <= h[j].builds)
  }

  predicate ProcessInv(h: seq<ImageStatus>, seen: set<PodStatus>, p: Process)
  {
    && p.at < |h|
    && StatusInv(p.status, seen)
    && h[p.at].builds <= p.status.builds
    && (p.pc.Waiting? ==> p.pod in seen || p.pod == PodStatus([]))
  }

  predicate Inv(s: System)
  {
    HistoryInv(s.history, s.seen) && forall i | 0 <= i < |s.processes| :: ProcessInv(s.history, s.seen, s.processes[i])
  }

  /**
   * When a build is recorded, and how: the wait has succeeded, the snapshot of the pod has exactly one container,
   * terminated with a message, and the build named by that message is new; then the phase says success and the build
   * is the last one.
   */
  lemma {:induction false} AfterWaitExact(status: ImageStatus, pod: PodStatus, completed: bool, md5Sum: string)
    ensures var r := AfterWait(status, pod, completed, md5Sum);
            && (r.Some? <==> completed && exists message: string ::
                  pod.containers == [Some(message)] && Build(Trim(message), Trim(md5Sum)) !in status.builds)
            && (forall message: string | r.Some? && pod.containers == [Some(message)] ::
                  r.value.phase == Successful && r.value.builds == status.builds + [Build(Trim(message), Trim(md5Sum))])
  {
    if |pod.containers| == 1 && pod.containers[0].Some? {
      var message := pod.containers[0].value;
      assert pod.containers == [Some(message)];
    }
  }

  predicate CutSet(s: string)
  {
    forall c | c in s :: c == '|' || c == '\n' || c == ' '
  }

  lemma {:induction false} TrimLeftExact(s: string) returns (cut: string)
    ensures CutSet(cut) && s == cut + TrimLeft(s)
    ensures TrimLeft(s) != "" ==> !CutSet([TrimLeft(s)[0]])
    decreases |s|
  {
    if s != [] && s[0] in "|\n " {
      var rest := TrimLeftExact(s[1..]);
      cut := [s[0]] + rest;
      assert s == [s[0]] + s[1..];
    } else {
      cut := [];
      if s != [] {
        assert s[0] in [s[0]];
      }
    }
  }

  lemma {:induction false} TrimRightExact(s: string) returns (cut: string)
    ensures CutSet(cut) && s == TrimRight(s) + cut
    ensures TrimRight(s) != "" ==> !CutSet([TrimRight(s)[|TrimRight(s)| - 1]])
    decreases |s|
  {
    if s != [] && s[|s| - 1] in "|\n " {
      var rest := TrimRightExact(s[..|s| - 1]);
      cut := rest + [s[|s| - 1]];
      assert s == s[..|s| - 1] + [s[|s| - 1]];
    } else {
      cut := [];
      if s != [] {
        assert s[|s| - 1] in [s[|s| - 1]];
      }
    }
  }

  /** Trimming takes off bars, newlines and spaces at both ends, all of them and nothing else. */
  lemma {:induction false} TrimExact(s: string) returns (left: string, right: string)
    ensures CutSet(left) && CutSet(right) && s == left + Trim(s) + right
    ensures Trim(s) != "" ==> !CutSet([Trim(s)[0]]) && !CutSet([Trim(s)[|Trim(s)| - 1]])
  {
    left := TrimLeftExact(s);
    right := TrimRightExact(TrimLeft(s));
    if Trim(s) != "" {
      assert Trim(s)[0] == TrimLeft(s)[0];
    }
  }

  /** Recording a build keeps what is there, adds one that is new, and says success. */
  lemma AfterWaitAppends(status: ImageStatus, pod: PodStatus, completed: bool, md5Sum: string, seen: set<PodStatus>)
    requires StatusInv(status, seen) && (pod in seen || pod == PodStatus([]))
    ensures var r := AfterWait(status, pod, completed, md5Sum);
            r.Some? ==>
              && StatusInv(r.value, seen) && r.value.phase == Successful
              && status.builds < r.value.builds && |r.value.builds| == |status.builds| + 1
  {
    var r := AfterWait(status, pod, completed, md5Sum);
    if r.Some? {
      assert ReadOff(Build(Trim(Message(pod).value), Trim(md5Sum)), seen);
    }
  }

  lemma SeenGrows(status: ImageStatus, seen: set<PodStatus>, pod: PodStatus)
    requires StatusInv(status, seen)
    ensures StatusInv(status, seen + {pod})
  {
    forall b | b in status.builds ensures ReadOff(b, seen + {pod}) {
      assert ReadOff(b, seen);
    }
  }

  lemma PodChangeKeeps(s: System, pod: PodStatus)
    requires Inv(s)
    ensures HistoryInv(s.history, s.seen + {pod})
    ensures forall i | 0 <= i < |s.processes| :: ProcessInv(s.history, s.seen + {pod}, s.processes[i])
  {
    forall i | 0 <= i < |s.history| ensures StatusInv(s.history[i], s.seen + {pod}) {
      SeenGrows(s.history[i], s.seen, pod);
    }
    forall i | 0 <= i < |s.processes| ensures ProcessInv(s.history, s.seen + {pod}, s.processes[i]) {
      SeenGrows(s.processes[i].status, s.seen, pod);
    }
  }

  lemma PrefixTransitive<T>(a: seq<T>, b: seq<T>, c: seq<T>)
    requires a <= b && b <= c
    ensures a <= c
  {
  }

  lemma HistoryGrows(h: seq<ImageStatus>, seen: set<PodStatus>, status: ImageStatus)
    requires HistoryInv(h, seen) && StatusInv(status, seen) && h[|h| - 1].builds <= status.builds
    ensures HistoryInv(h + [status], seen)
  {
    var g := h + [status];
    forall i, j | 0 <= i < j < |g| ensures g[i].builds <= g[j].builds {
      if j == |h| && i < |h| - 1 {
        PrefixTransitive(h[i].builds, h[|h| - 1].builds, status.builds);
      }
    }
  }

  lemma PutKeeps(s: System, id: nat, p: Process)
    requires Inv(s) && id < |s.processes| && ProcessInv(s.history, s.seen, p)
    ensures Inv(Put(s, id, p))
  {
  }

  lemma AppendKeeps(s: System, status: ImageStatus)
    requires Inv(s) && StatusInv(status, s.seen) && s.history[|s.history| - 1].builds <= status.builds
    ensures Inv(s.(history := s.history + [status]))
  {
    HistoryGrows(s.history, s.seen, status);
    forall i | 0 <= i < |s.processes| ensures ProcessInv(s.history + [status], s.seen, s.processes[i]) {
      assert (s.history + [status])[s.processes[i].at] == s.history[s.processes[i].at];
    }
  }

  lemma PodStepKeeps(s: System, pod: PodStatus)
    requires Inv(s)
    ensures Inv(s.(pod := Some(pod), seen := s.seen + {pod}))
  {
    PodChangeKeeps(s, pod);
  }

  /** A process that moves on without a new version or status. */
  lemma MoveKeeps(s: System, id: nat, p: Process)
    requires Inv(s) && id < |s.processes| && p.at == s.processes[id].at && p.status == s.processes[id].status
    requires p.pc.Waiting? ==> p.pod in s.seen || p.pod == PodStatus([])
    ensures Inv(Put(s, id, p))
  {
    hide StatusInv, HistoryInv;
    PutKeeps(s, id, p);
  }

  lemma ReadKeeps(s: System, id: nat, v: nat)
    requires Inv(s) && id < |s.processes| && v < |s.history|
    ensures Inv(Put(s, id, s.processes[id].(pc := LookConfigMap, at := v, status := s.history[v])))
  {
    PutKeeps(s, id, s.processes[id].(pc := LookConfigMap, at := v, status := s.history[v]));
  }

  lemma SpawnKeeps(s: System)
    requires Inv(s)
    ensures Inv(s.(processes := s.processes + [Process(Start, 0, s.history[0], PodStatus([]))]))
  {
    assert ProcessInv(s.history, s.seen, Process(Start, 0, s.history[0], PodStatus([])));
  }

  lemma CreatePodKeeps(s: System, id: nat, ok: bool)
    requires Inv(s) && At(s, id, CreatePod)
    ensures var t := Put(s, id, s.processes[id].(pc := End));
            Inv(t) && Inv(t.(pod := Some(PodStatus([])), seen := s.seen + {PodStatus([])}))
  {
    hide StatusInv, HistoryInv, ProcessInv;
    MoveKeeps(s, id, s.processes[id].(pc := End));
    PodStepKeeps(Put(s, id, s.processes[id].(pc := End)), PodStatus([]));
  }

  lemma ConfigMapKeeps(s: System, configMap: bool)
    requires Inv(s)
    ensures Inv(s.(configMap := configMap))
  {
  }

  /** Every enabled step keeps the invariant. */
  lemma {:induction false} StepKeepsInv(s: System, a: Action)
    requires Inv(s) && Enabled(s, a)
    ensures Inv(Apply(s, a)) && s.history <= Apply(s, a).history
  {
    hide Inv, WaitEnded;
    match a
    case Spawn => SpawnKeeps(s);
    case Crash(id) => MoveKeeps(s, id, s.processes[id].(pc := End));
    case ReadImage(id, v) => ReadKeeps(s, id, v);
    case ReadFails(id) => MoveKeeps(s, id, ReadFailed(s.processes[id]));
    case SeesConfigMap(id, found) => MoveKeeps(s, id, s.processes[id].(pc := if found then LookPod else CreateConfigMap));
    case CreatesConfigMap(id, ok) =>
      MoveKeeps(s, id, s.processes[id].(pc := End));
      ConfigMapKeeps(Put(s, id, s.processes[id].(pc := End)), s.configMap || ok);
    case SeesPod(id, status) =>
      MoveKeeps(s, id, if status.Some? then s.processes[id].(pc := Waiting, pod := status.value)
                       else s.processes[id].(pc := CreatePod));
    case CreatesPod(id, ok) => CreatePodKeeps(s, id, ok);
    case PodChanges(pod) => PodStepKeeps(s, pod);
    case WaitEnds(id, completed, md5Sum) => WaitKeeps(s, id, completed, md5Sum);
    case WriteApplied(id) => WriteKeeps(s, id);
    case WriteRefused(id) => MoveKeeps(s, id, s.processes[id].(pc := End));
    case Touch => TouchKeeps(s);
  }

  lemma TouchKeeps(s: System)
    requires Inv(s)
    ensures |s.history| > 0 && Inv(s.(history := s.history + [s.history[|s.history| - 1]]))
  {
    AppendKeeps(s, s.history[|s.history| - 1]);
  }

  lemma WaitKeeps(s: System, id: nat, completed: bool, md5Sum: string)
    requires Inv(s) && At(s, id, Waiting)
    ensures Inv(Put(s, id, WaitEnded(s.processes[id], completed, md5Sum)))
  {
    var p := s.processes[id];
    AfterWaitAppends(p.status, p.pod, completed, md5Sum, s.seen);
    if AfterWait(p.status, p.pod, completed, md5Sum).Some? {
      PrefixTransitive(s.history[p.at].builds, p.status.builds, AfterWait(p.status, p.pod, completed, md5Sum).value.builds);
    }
    PutKeeps(s, id, WaitEnded(p, completed, md5Sum));
  }

  lemma WriteKeeps(s: System, id: nat)
    requires Inv(s) && At(s, id, Writing) && s.processes[id].at == |s.history| - 1
    ensures Inv(Put(s, id, s.processes[id].(pc := End)).(history := s.history + [s.processes[id].status]))
  {
    PutKeeps(s, id, s.processes[id].(pc := End));
    AppendKeeps(Put(s, id, s.processes[id].(pc := End)), s.processes[id].status);
  }

  lemma {:induction false} RunKeepsInv(s: System, actions: seq<Action>, s': System)
    requires Inv(s) && Leads(s, actions, s')
    ensures Inv(s') && s.history <= s'.history
    decreases actions
  {
    if actions != [] {
      StepKeepsInv(s, actions[0]);
      RunKeepsInv(Apply(s, actions[0]), actions[1..], s');
    }
  }

  /**
   * Over every interleaving the persisted builds are only ever appended to and never repeat; each was read off a
   * builder pod that had terminated; and success is never on record without a build, so a reader of any version,
   * however stale, finds a last build where it looks for one; nor is there ever a build without success on record.
   */
  lemma {:induction false} BuildsOverEveryRun(s: System, actions: seq<Action>, s': System)
    requires Initial(s) && Leads(s, actions, s')
    ensures forall i, j | 0 <= i <= j < |s'.history| :: s'.history[i].builds <= s'.history[j].builds
    ensures forall i | 0 <= i < |s'.history| :: NoDuplicates(s'.history[i].builds)
    ensures forall i, b | 0 <= i < |s'.history| && b in s'.history[i].builds :: ReadOff(b, s'.seen)
    ensures forall i | 0 <= i < |s'.history| :: s'.history[i].phase.Successful? <==> s'.history[i].builds != []
  {
    RunKeepsInv(s, actions, s');
  }
}
