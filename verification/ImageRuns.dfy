/**
 * Whole runs of the JenkinsImage controller: which goroutines can still record a build, when a builder pod stands
 * without its ConfigMap, and how the two objects come into being whatever else interleaves.
 */
module ImageRuns {
  import opened Common
  import opened BuildHistory

  /** Process `id` holds version `at` for good, and will write nothing unless it is allowed to. */
  predicate Holding(s: System, id: nat, at: nat)
  {
    id < |s.processes| && s.processes[id].at == at && at < |s.history| &&
    (s.processes[id].pc.Waiting? || s.processes[id].pc.Writing? || s.processes[id].pc.End?)
  }

  /** The goroutine cannot record a build: it has ended, or its snapshots are of no use. */
  predicate Spent(s: System, id: nat)
  {
    Holding(s, id, if id < |s.processes| then s.processes[id].at else 0) &&
    var p := s.processes[id];
    p.pc.End? || p.at + 1 < |s.history| || (p.pc.Waiting? && Message(p.pod).None?)
  }

  lemma StepSpent(s: System, a: Action, id: nat)
    requires Spent(s, id) && Enabled(s, a)
    ensures Spent(Apply(s, a), id) && a != WriteApplied(id)
  {
  }

  lemma {:induction false} StaysSpent(s: System, actions: seq<Action>, s': System, id: nat)
    requires Spent(s, id) && Leads(s, actions, s')
    ensures WriteApplied(id) !in actions
    decreases actions
  {
    if actions != [] {
      StepSpent(s, actions[0], id);
      StaysSpent(Apply(s, actions[0]), actions[1..], s', id);
      assert actions == [actions[0]] + actions[1..];
    }
  }

  /** Some continuation has this goroutine persist a version. */
  ghost predicate CanRecord(s: System, id: nat)
  {
    exists actions, s' :: Leads(s, actions, s') && WriteApplied(id) in actions
  }

  function Longest(builds: seq<Build>): nat
  {
    if builds == [] then 0
    else
      var rest, n := Longest(builds[..|builds| - 1]), |builds[|builds| - 1].md5Sum|;
      if n > rest then n else rest
  }

  lemma {:induction false} LongestBounds(builds: seq<Build>)
    ensures forall b | b in builds :: |b.md5Sum| <= Longest(builds)
  {
    if builds != [] {
      var front, last := builds[..|builds| - 1], builds[|builds| - 1];
      LongestBounds(front);
      assert builds == front + [last];
    }
  }

  /** A checksum no build of the list has. */
  lemma NewSum(builds: seq<Build>) returns (md5Sum: string)
    ensures forall image :: Build(image, Trim(md5Sum)) !in builds
  {
    var n := Longest(builds) + 1;
    md5Sum := seq(n, _ => 'a');
    assert Trim(md5Sum) == md5Sum;
    LongestBounds(builds);
  }

  lemma TwoSteps(s: System, a: Action, b: Action)
    requires Enabled(s, a) && Enabled(Apply(s, a), b)
    ensures Leads(s, [a, b], Apply(Apply(s, a), b))
  {
    assert [a, b][1..] == [b] && [b][1..] == [];
  }

  /**
   * Which waiting goroutines can still record a build: exactly those whose pod snapshot had terminated when it was
   * taken, before the wait, and whose image snapshot is still the latest version. What the pod becomes while the
   * goroutine waits does not matter.
   */
  lemma {:induction false} CanRecordIff(s: System, id: nat)
    requires At(s, id, Waiting) && s.processes[id].at < |s.history|
    ensures CanRecord(s, id) <==> Message(s.processes[id].pod).Some? && s.processes[id].at + 1 == |s.history|
  {
    var p := s.processes[id];
    if Message(p.pod).Some? && p.at + 1 == |s.history| {
      var md5Sum := NewSum(p.status.builds);
      var wait := WaitEnds(id, true, md5Sum);
      assert Apply(s, wait).processes[id].pc.Writing?;
      TwoSteps(s, wait, WriteApplied(id));
      assert WriteApplied(id) in [wait, WriteApplied(id)];
    } else {
      forall actions, s' | Leads(s, actions, s') ensures WriteApplied(id) !in actions {
        StaysSpent(s, actions, s', id);
      }
    }
  }

  /** No read of a ConfigMap has failed otherwise than by not finding it. */
  predicate OnlyNotFound(s: System, actions: seq<Action>, s': System)
    requires Leads(s, actions, s')
    decreases actions
  {
    actions == [] ||
    (!(actions[0].ReadFails? && At(s, actions[0].id, LookConfigMap)) &&
     OnlyNotFound(Apply(s, actions[0]), actions[1..], s'))
  }

  predicate PodNeeds(s: System)
  {
    && (s.pod.Some? ==> s.configMap)
    && forall i | 0 <= i < |s.processes| :: s.processes[i].pc.LookPod? || s.processes[i].pc.CreatePod? ==> s.configMap
  }

  /** As long as the ConfigMap reads fail only by not finding it, a builder pod exists only beside its ConfigMap. */
  lemma {:induction false} PodNeedsConfigMap(s: System, actions: seq<Action>, s': System)
    requires PodNeeds(s) && Leads(s, actions, s') && OnlyNotFound(s, actions, s')
    ensures PodNeeds(s')
    decreases actions
  {
    if actions != [] {
      PodNeedsConfigMap(Apply(s, actions[0]), actions[1..], s');
    }
  }

  /** One failed read is enough for a pod without its ConfigMap. */
  lemma PodWithoutConfigMap(s: System) returns (actions: seq<Action>, s': System)
    requires Initial(s)
    ensures Leads(s, actions, s') && s'.pod.Some? && !s'.configMap
  {
    actions := [Spawn, ReadImage(0, 0), ReadFails(0), SeesPod(0, None), CreatesPod(0, true)];
    var s1 := Apply(s, Spawn);
    var s2 := Apply(s1, ReadImage(0, 0));
    var s3 := Apply(s2, ReadFails(0));
    var s4 := Apply(s3, SeesPod(0, None));
    s' := Apply(s4, CreatesPod(0, true));
    assert actions[1..][1..][1..][1..] == [CreatesPod(0, true)];
    assert Leads(s4, [CreatesPod(0, true)], s') by {
      assert [CreatesPod(0, true)][1..] == [];
    }
    assert actions[1..][1..][1..] == [SeesPod(0, None), CreatesPod(0, true)];
    assert Leads(s3, actions[1..][1..][1..], s');
    assert actions[1..][1..][0] == ReadFails(0) && actions[1..][0] == ReadImage(0, 0);
    assert Leads(s2, actions[1..][1..], s');
    assert Leads(s1, actions[1..], s');
  }

  /** Somewhere on the way the ConfigMap read of reconcile `id` failed otherwise than by not finding it. */
  predicate BlindRead(s: System, actions: seq<Action>, s': System, id: nat)
    requires Leads(s, actions, s')
    decreases actions
  {
    actions != [] &&
    ((actions[0] == ReadFails(id) && At(s, id, LookConfigMap)) || BlindRead(Apply(s, actions[0]), actions[1..], s', id))
  }

  /** Reconcile `id` is past its ConfigMap read and has not been told that the ConfigMap is missing. */
  predicate Past(s: System, id: nat)
  {
    At(s, id, LookPod) || At(s, id, CreatePod)
  }

  lemma PastStep(s: System, a: Action, id: nat)
    requires Enabled(s, a) && !s.configMap && !Past(s, id) && Past(Apply(s, a), id)
    ensures a == ReadFails(id) && At(s, id, LookConfigMap)
  {
  }

  lemma ConfigMapStep(s: System, a: Action)
    requires Enabled(s, a)
    ensures Apply(s, a).configMap <==> s.configMap || (a.CreatesConfigMap? && a.ok)
  {
  }

  /** Without a ConfigMap only a failed read leads past it. */
  lemma {:induction false} PastMeansBlind(s: System, actions: seq<Action>, s': System, id: nat)
    requires Leads(s, actions, s') && !s'.configMap && !Past(s, id) && Past(s', id)
    ensures BlindRead(s, actions, s', id)
    decreases actions
  {
    hide Apply, Enabled, Past;
    if actions != [] {
      ConfigMapKept(Apply(s, actions[0]), actions[1..], s');
      ConfigMapStep(s, actions[0]);
      if Past(Apply(s, actions[0]), id) {
        PastStep(s, actions[0], id);
      } else {
        PastMeansBlind(Apply(s, actions[0]), actions[1..], s', id);
      }
    }
  }

  lemma {:induction false} ConfigMapKept(s: System, actions: seq<Action>, s': System)
    requires Leads(s, actions, s')
    ensures s.configMap ==> s'.configMap
    ensures !s'.configMap ==> forall a | a in actions :: !(a.CreatesConfigMap? && a.ok)
    ensures s'.configMap && !s.configMap ==> exists id :: CreatesConfigMap(id, true) in actions
    ensures s.pod.Some? ==> s'.pod.Some?
    decreases actions
  {
    hide Enabled;
    if actions != [] {
      ConfigMapStep(s, actions[0]);
      ConfigMapKept(Apply(s, actions[0]), actions[1..], s');
      assert actions == [actions[0]] + actions[1..];
    }
  }

  /**
   * When a reconcile creates the builder pod beside no ConfigMap, over every run from the start: exactly when its
   * own ConfigMap read failed otherwise than by not finding it and nobody has created the ConfigMap yet.
   */
  lemma {:induction false} PodAloneIff(s: System, front: seq<Action>, mid: System, id: nat)
    requires Initial(s) && Leads(s, front, mid) && Enabled(mid, CreatesPod(id, true))
    ensures !mid.configMap <==>
            BlindRead(s, front, mid, id) && forall k :: CreatesConfigMap(k, true) !in front
  {
    ConfigMapKept(s, front, mid);
    if !mid.configMap {
      PastMeansBlind(s, front, mid, id);
    }
  }

  /** The reconcile is through with both objects. */
  predicate Through(s: System, id: nat)
  {
    At(s, id, Waiting) || At(s, id, Writing) || At(s, id, End)
  }

  /** An action of reconcile `id`, if it is one, is undisturbed: its reads are fresh and its calls do not fail for nothing. */
  predicate Undisturbed(s: System, a: Action, id: nat)
  {
    match a
    case Crash(k) => k != id
    case ReadFails(k) => k != id
    case SeesConfigMap(k, found) => k != id || found == s.configMap
    case CreatesConfigMap(k, ok) => k != id || ok == !s.configMap
    case SeesPod(k, status) => k != id || status.Some? == s.pod.Some?
    case CreatesPod(k, ok) => k != id || ok == s.pod.None?
    case _ => true
  }

  predicate UndisturbedRun(s: System, actions: seq<Action>, s': System, id: nat)
    requires Leads(s, actions, s')
    decreases actions
  {
    actions == [] || (Undisturbed(s, actions[0], id) && UndisturbedRun(Apply(s, actions[0]), actions[1..], s', id))
  }

  /** How far reconcile `id` has brought the objects; `had` says whether the ConfigMap was there when it started. */
  predicate Progress(s: System, id: nat, had: bool)
  {
    && (had ==> s.configMap)
    && (id < |s.processes| ==>
          match s.processes[id].pc
          case Start | LookConfigMap => true
          case CreateConfigMap => !had
          case LookPod | CreatePod => s.configMap
          case _ => s.configMap && (had ==> s.pod.Some?))
  }

  lemma ProgressStep(s: System, a: Action, id: nat, had: bool)
    requires Enabled(s, a) && Progress(s, id, had) && Undisturbed(s, a, id)
    ensures Progress(Apply(s, a), id, had)
  {
  }

  lemma {:induction false} ProgressRun(s: System, actions: seq<Action>, s': System, id: nat, had: bool)
    requires Leads(s, actions, s') && Progress(s, id, had) && UndisturbedRun(s, actions, s', id)
    ensures Progress(s', id, had)
    decreases actions
  {
    hide Apply, Enabled, Progress, Undisturbed;
    if actions != [] {
      ProgressStep(s, actions[0], id, had);
      ProgressRun(Apply(s, actions[0]), actions[1..], s', id, had);
    }
  }

  /** How many of the two objects are missing. */
  function Missing(s: System): nat
  {
    (if s.configMap then 0 else 1) + (if s.pod.None? then 1 else 0)
  }

  /** Reconcile `id` has yet to be started or to read anything. */
  predicate Ahead(s: System, id: nat)
  {
    id >= |s.processes| || s.processes[id].pc.Start?
  }

  /** One undisturbed reconcile leaves fewer objects missing, or none; the ConfigMap comes first. */
  lemma {:induction false} OneReconcile(s: System, actions: seq<Action>, s': System, id: nat)
    requires Leads(s, actions, s') && Ahead(s, id) && Through(s', id) && UndisturbedRun(s, actions, s', id)
    ensures s'.configMap && (s.configMap ==> s'.pod.Some?)
    ensures Missing(s') == 0 || Missing(s') < Missing(s)
  {
    ProgressRun(s, actions, s', id, s.configMap);
    ConfigMapKept(s, actions, s');
  }

  /**
   * Convergence. From any state, after two undisturbed reconciles one after the other, with whatever else
   * interleaves, both objects are there; nothing that was there has gone.
   */
  lemma {:induction false} Convergence(
      s: System, first: seq<Action>, mid: System, second: seq<Action>, s': System, i: nat, j: nat)
    requires Leads(s, first, mid) && Ahead(s, i) && Through(mid, i) && UndisturbedRun(s, first, mid, i)
    requires Leads(mid, second, s') && Ahead(mid, j) && Through(s', j) && UndisturbedRun(mid, second, s', j)
    ensures Missing(s') == 0
  {
    OneReconcile(s, first, mid, i);
    OneReconcile(mid, second, s', j);
  }
}
