/**
 * Any number of reconciles of one Jenkins over a versioned store, with stale reads, crashes, refused updates and
 * updates applied without being acknowledged: what the persisted conditions can be, and what they can mean.
 */
module JenkinsConditions {
  import opened Common
  import opened Conditions
  import opened JenkinsMachine
  import opened JenkinsStages

  /** `settled` is the writer's own work, if it ended without an error. */
  datatype Version = Version(conditions: seq<Condition>, settled: Option<Work>)

  /** `at` is the resource version held; `work` is how this reconcile's work ended, once it has. */
  datatype Process = Process(local: Local, at: nat, work: Option<Work>)

  datatype System = System(history: seq<Version>, processes: seq<Process>)

  datatype Action =
    | Spawn
    | Crash(id: nat)
    | ReadObject(id: nat, version: nat)
    | Answer(id: nat, response: Response)
    | WriteApplied(id: nat)
    | WriteAppliedUnacknowledged(id: nat)
    | WriteRefused(id: nat)
    | Touch

  function RequestOf(s: System, id: nat): Option<Request>
    requires id < |s.processes|
  {
    Ask(s.processes[id].local)
  }

  predicate Writing(s: System, id: nat)
  {
    id < |s.processes| && RequestOf(s, id).Some? && RequestOf(s, id).value.WriteStatus?
  }

  predicate Enabled(s: System, a: Action)
    requires |s.history| > 0
  {
    match a
    case Spawn => true
    case Crash(id) => id < |s.processes|
    case ReadObject(id, v) => id < |s.processes| && RequestOf(s, id) == Some(GetJenkins) && v < |s.history|
    case Answer(id, r) =>
      id < |s.processes| && RequestOf(s, id).Some? && !RequestOf(s, id).value.WriteStatus? &&
      Fits(RequestOf(s, id).value, r) && !r.Found?
    case WriteApplied(id) => Writing(s, id) && s.processes[id].at == |s.history| - 1
    case WriteAppliedUnacknowledged(id) => Writing(s, id) && s.processes[id].at == |s.history| - 1
    case WriteRefused(id) => Writing(s, id)
    case Touch => true
  }

  function Told(p: Process, r: Response): Process
  {
    p.(local := Tell(p.local, r), work := if r.Worked? then Some(r.work) else p.work)
  }

  function Apply(s: System, a: Action): System
    requires |s.history| > 0 && Enabled(s, a)
  {
    match a
    case Spawn => s.(processes := s.processes + [Process(Local(Start, []), 0, None)])
    case Crash(id) => s.(processes := s.processes[id := s.processes[id].(local := s.processes[id].local.(pc := End(true)))])
    case ReadObject(id, v) =>
      s.(processes := s.processes[id := Told(s.processes[id], Found(s.history[v].conditions)).(at := v)])
    case Answer(id, r) => s.(processes := s.processes[id := Told(s.processes[id], r)])
    case WriteApplied(id) =>
      s.(history := s.history + [Written(s.processes[id])],
         processes := s.processes[id := Told(s.processes[id], Done).(at := |s.history|)])
    case WriteAppliedUnacknowledged(id) =>
      s.(history := s.history + [Written(s.processes[id])],
         processes := s.processes[id := Told(s.processes[id], Failed)])
    case WriteRefused(id) => s.(processes := s.processes[id := Told(s.processes[id], Failed)])
    case Touch => s.(history := s.history + [s.history[|s.history| - 1]])
  }

  function Written(p: Process): Version
  {
    Version(p.local.conditions, p.work)
  }

  /** The object exists and nobody has looked at it. */
  predicate Initial(s: System)
  {
    |s.history| == 1 && s.history[0] == Version([], None) && s.processes == []
  }

  predicate Leads(s: System, actions: seq<Action>, s': System)
    requires |s.history| > 0
    decreases actions
  {
    if actions == [] then s == s'
    else Enabled(s, actions[0]) && Leads(Apply(s, actions[0]), actions[1..], s')
  }

  predicate HistoryInv(h: seq<Version>)
  {
    && |h| > 0
    && (forall i | 0 <= i < |h| :: Shaped(h[i].conditions))
    && (forall i, j | 0 <= i < j < |h| :: Rank(h[i].conditions) <= Rank(h[j].conditions))
  }

  predicate ProcessInv(h: seq<Version>, p: Process)
    requires HistoryInv(h)
  {
    && p.at < |h|
    && match p.local.pc
       case WriteInitial => p.work.None? && h[p.at].conditions == [] && p.local.conditions == Started(False)
       case Reload(first) => first == p.work.None? && p.work != Some(Errored)
       case WriteReloaded(first) => first == p.work.None? && p.work != Some(Errored) && p.local.conditions == Finished(False)
       case Working => p.work.None? && p.local.conditions == h[p.at].conditions && h[p.at].conditions != []
       case WriteDegraded =>
         p.work == Some(Errored) && h[p.at].conditions != [] && p.local.conditions == SetDegraded(h[p.at].conditions)
       case WriteCompleted => p.work.Some? && p.work != Some(Errored) && p.local.conditions == Finished(False)
       case Start => p.work.None?
       case End(_) => true
  }

  predicate Inv(s: System)
  {
    HistoryInv(s.history) && forall i | 0 <= i < |s.processes| :: ProcessInv(s.history, s.processes[i])
  }

  lemma ToldKeeps(h: seq<Version>, p: Process, r: Response)
    requires HistoryInv(h) && ProcessInv(h, p) && Ask(p.local).Some? && Fits(Ask(p.local).value, r)
    requires !r.Found? && !(Ask(p.local).value.WriteStatus? && r.Done?)
    ensures ProcessInv(h, Told(p, r))
  {
    hide SetDegraded, SetCompleted, SetInitial;
    if p.local.pc.Working? {
      CompletedConditions(p.local.conditions);
      DegradedConditions(p.local.conditions);
    }
  }

  lemma ReadKeeps(h: seq<Version>, p: Process, v: nat)
    requires HistoryInv(h) && ProcessInv(h, p) && Ask(p.local) == Some(GetJenkins) && v < |h|
    ensures ProcessInv(h, Told(p, Found(h[v].conditions)).(at := v))
  {
    hide SetCompleted, SetInitial, SetDegraded;
    InitialConditions();
    CompletedConditions(h[v].conditions);
  }

  /** What a reconcile is about to write is shaped and no step back from the version it holds. */
  lemma WritesForward(h: seq<Version>, p: Process)
    requires HistoryInv(h) && ProcessInv(h, p) && Ask(p.local).Some? && Ask(p.local).value.WriteStatus?
    ensures Shaped(p.local.conditions) && p.local.conditions != []
    ensures Rank(h[p.at].conditions) <= Rank(p.local.conditions)
  {
    if p.local.pc.WriteDegraded? {
      DegradedConditions(h[p.at].conditions);
    }
  }

  lemma AppendKeeps(h: seq<Version>, v: Version, p: Process)
    requires HistoryInv(h) && HistoryInv(h + [v]) && ProcessInv(h, p)
    ensures ProcessInv(h + [v], p)
  {
  }

  lemma HistoryGrows(h: seq<Version>, p: Process)
    requires HistoryInv(h) && ProcessInv(h, p) && Ask(p.local).Some? && Ask(p.local).value.WriteStatus?
    requires p.at == |h| - 1
    ensures HistoryInv(h + [Written(p)])
  {
    hide ProcessInv, Ask, Rank, Shaped;
    WritesForward(h, p);
    var g := h + [Written(p)];
    forall i, j | 0 <= i < j < |g| ensures Rank(g[i].conditions) <= Rank(g[j].conditions) {
      assert i <= |h| - 1;
      assert j < |h| ==> g[j] == h[j];
    }
  }

  lemma AcknowledgedKeeps(h: seq<Version>, p: Process)
    requires HistoryInv(h) && ProcessInv(h, p) && Ask(p.local).Some? && Ask(p.local).value.WriteStatus?
    requires HistoryInv(h + [Written(p)])
    ensures ProcessInv(h + [Written(p)], Told(p, Done).(at := |h|))
  {
    WritesForward(h, p);
  }

  /** What becomes of the writer. */
  function Answered(p: Process, acknowledged: bool, at: nat): Process
  {
    if acknowledged then Told(p, Done).(at := at) else Told(p, Failed)
  }

  lemma WriteKeeps(h: seq<Version>, ps: seq<Process>, id: nat, acknowledged: bool)
    requires HistoryInv(h) && id < |ps| && forall i | 0 <= i < |ps| :: ProcessInv(h, ps[i])
    requires Ask(ps[id].local).Some? && Ask(ps[id].local).value.WriteStatus? && ps[id].at == |h| - 1
    ensures Inv(System(h + [Written(ps[id])], ps[id := Answered(ps[id], acknowledged, |h|)]))
  {
    var g, qs := h + [Written(ps[id])], ps[id := Answered(ps[id], acknowledged, |h|)];
    HistoryGrows(h, ps[id]);
    forall i | 0 <= i < |ps| ensures ProcessInv(g, qs[i]) {
      AppendKeeps(h, Written(ps[id]), ps[i]);
      if i == id {
        if acknowledged {
          AcknowledgedKeeps(h, ps[id]);
        } else {
          ToldKeeps(g, ps[id], Failed);
        }
      }
    }
  }

  /** Every enabled step keeps the invariant. */
  lemma {:induction false} StepKeepsInv(s: System, a: Action)
    requires Inv(s) && Enabled(s, a)
    ensures Inv(Apply(s, a)) && s.history <= Apply(s, a).history
  {
    match a
    case ReadObject(id, v) => ReadKeeps(s.history, s.processes[id], v);
    case Answer(id, r) => ToldKeeps(s.history, s.processes[id], r);
    case WriteRefused(id) => ToldKeeps(s.history, s.processes[id], Failed);
    case WriteApplied(id) => WriteKeeps(s.history, s.processes, id, true);
    case WriteAppliedUnacknowledged(id) => WriteKeeps(s.history, s.processes, id, false);
    case Touch =>
      var h := Apply(s, a).history;
      assert HistoryInv(h);
      forall i | 0 <= i < |s.processes| ensures ProcessInv(h, s.processes[i]) {
        AppendKeeps(s.history, h[|s.history|], s.processes[i]);
      }
    case _ =>
  }

  lemma {:induction false} RunKeepsInv(s: System, actions: seq<Action>, s': System)
    requires Inv(s) && Leads(s, actions, s')
    ensures Inv(s') && s.history <= s'.history
    decreases actions
  {
    if actions != [] {
      StepKeepsInv(s, actions[0]);
      RunKeepsInv(Apply(s, actions[0]), actions[1..], s');
    }
  }

  /**
   * In every persisted version with conditions there is exactly one entry of each of the five kinds and no other,
   * the four stage conditions are those of the start or those of the end together, and the end, once persisted,
   * is never taken back.
   */
  lemma {:induction false} PersistedConditions(s: System, actions: seq<Action>, s': System, i: nat)
    requires Initial(s) && Leads(s, actions, s') && i < |s'.history| && s'.history[i].conditions != []
    ensures var cs := s'.history[i].conditions;
            && (IsStarted(cs) || IsFinished(cs))
            && (forall kind :: Count(cs, kind) ==
                  if kind in {ReconciliationComplete, Conditions.Available, Progressing, Degraded, Upgradeable} then 1 else 0)
            && ((StatusOf(cs, ReconciliationComplete) == Some(Unknown) && StatusOf(cs, Conditions.Available) == Some(False) &&
                 StatusOf(cs, Progressing) == Some(True) && StatusOf(cs, Upgradeable) == Some(Unknown)) ||
                (StatusOf(cs, ReconciliationComplete) == Some(True) && StatusOf(cs, Conditions.Available) == Some(True) &&
                 StatusOf(cs, Progressing) == Some(False) && StatusOf(cs, Upgradeable) == Some(True)))
            && (forall j | i <= j < |s'.history| ::
                  s'.history[j].conditions != [] && (IsFinished(cs) ==> IsFinished(s'.history[j].conditions)))
  {
    RunKeepsInv(s, actions, s');
    StageStatuses(s'.history[i].conditions);
    forall kind
      ensures Count(s'.history[i].conditions, kind) ==
              if kind in {ReconciliationComplete, Conditions.Available, Progressing, Degraded, Upgradeable} then 1 else 0
    {
      ShapedCounts(s'.history[i].conditions, kind);
    }
  }
}
