/**
 * What completion on record is worth. The reconcile records ReconciliationComplete=True and Available=True after its
 * work whenever that work returned no error, and in one case before it; only one of the ways to get there means that
 * the Jenkins was reconciled.
 */
module JenkinsCompletion {
  import opened Common
  import opened Conditions
  import opened JenkinsMachine
  import opened JenkinsStages
  import opened JenkinsConditions

  /** The writer's own work had succeeded when it wrote this version. */
  predicate Earned(v: Version)
  {
    v.settled == Some(Succeeded)
  }

  /** The action persists a version, acknowledged or not. */
  predicate Persists(a: Action)
  {
    a.WriteApplied? || a.WriteAppliedUnacknowledged?
  }

  function Latest(s: System): Version
    requires |s.history| > 0
  {
    s.history[|s.history| - 1]
  }

  /** The action puts completion on record where it was not. */
  predicate NewlyFinishes(s: System, a: Action)
    requires |s.history| > 0 && Enabled(s, a)
  {
    Persists(a) && !IsFinished(Latest(s).conditions) && IsFinished(Latest(Apply(s, a)).conditions)
  }

  /** At the second attempt at the very first update, which sets the final conditions instead of the first ones. */
  predicate Retrying(p: Process)
  {
    p.local.pc == Reload(true) || p.local.pc == WriteReloaded(true)
  }

  /**
   * When completion is recorded before any work of the writer: exactly when the write, acknowledged or not, is the
   * second attempt at its first update.
   */
  lemma {:induction false} PrematureIff(s: System, a: Action)
    requires Inv(s) && Enabled(s, a) && Persists(a)
    ensures var v := Latest(Apply(s, a));
            v.settled.None? && IsFinished(v.conditions) <==> s.processes[a.id].local.pc == WriteReloaded(true)
  {
    hide SetDegraded, SetCompleted, SetInitial, Tell;
    WritesForward(s.history, s.processes[a.id]);
  }

  /** Where a reconcile that newly records completion stands. */
  lemma NewlyFinishesAt(s: System, a: Action)
    requires Inv(s) && Enabled(s, a) && NewlyFinishes(s, a)
    ensures var p := s.processes[a.id];
            && Latest(Apply(s, a)) == Written(p)
            && (Retrying(p) <==> p.work.None?)
            && (p.work.Some? ==> p.work != Some(Errored))
            && !p.local.pc.End?
  {
    hide SetDegraded, SetCompleted, SetInitial, Tell;
    var p := s.processes[a.id];
    if p.local.pc.WriteDegraded? {
      DegradedConditions(s.history[p.at].conditions);
    }
  }

  /** The action makes the first update of its reconcile fail. */
  predicate FirstUpdateFails(s: System, a: Action)
    requires |s.history| > 0 && Enabled(s, a)
  {
    (a.WriteRefused? || a.WriteAppliedUnacknowledged?) && s.processes[a.id].local.pc.WriteInitial?
  }

  /** Somewhere on the way the first update of reconcile `id` failed. */
  predicate FirstUpdateFailed(s: System, actions: seq<Action>, s': System, id: nat)
    requires |s.history| > 0 && Leads(s, actions, s')
    decreases actions
  {
    actions != [] &&
    ((FirstUpdateFails(s, actions[0]) && actions[0].id == id) ||
     FirstUpdateFailed(Apply(s, actions[0]), actions[1..], s', id))
  }

  predicate IsRetrying(s: System, id: nat)
  {
    id < |s.processes| && Retrying(s.processes[id])
  }

  lemma BecomesRetrying(s: System, a: Action, id: nat)
    requires |s.history| > 0 && Enabled(s, a) && !IsRetrying(s, id) && IsRetrying(Apply(s, a), id)
    ensures FirstUpdateFails(s, a) && a.id == id
  {
    hide SetDegraded, SetCompleted, SetInitial;
  }

  /** A reconcile gets to the second attempt only by the failure of the first. */
  lemma {:induction false} RetryingFailed(s: System, actions: seq<Action>, s': System, id: nat)
    requires |s.history| > 0 && Leads(s, actions, s') && !IsRetrying(s, id) && IsRetrying(s', id)
    ensures FirstUpdateFailed(s, actions, s', id)
    decreases actions
  {
    hide IsRetrying, Apply, Enabled;
    if actions != [] {
      var t := Apply(s, actions[0]);
      GrowsOnly(s, actions[0]);
      if IsRetrying(t, id) {
        BecomesRetrying(s, actions[0], id);
      } else {
        RetryingFailed(t, actions[1..], s', id);
      }
    }
  }

  lemma GrowsOnly(s: System, a: Action)
    requires |s.history| > 0 && Enabled(s, a)
    ensures |Apply(s, a).history| > 0 && |s.processes| <= |Apply(s, a).processes|
  {
  }

  /** After its first update failed, a reconcile is still at the second attempt, or over, or completion is on record. */
  predicate AfterFailure(s: System, id: nat)
  {
    id < |s.processes| && |s.history| > 0 &&
    (Retrying(s.processes[id]) || s.processes[id].local.pc.End? || IsFinished(Latest(s).conditions))
  }

  lemma AfterFailureStep(s: System, a: Action, id: nat)
    requires Inv(s) && Enabled(s, a) && (AfterFailure(s, id) || (FirstUpdateFails(s, a) && a.id == id))
    ensures AfterFailure(Apply(s, a), id)
  {
    hide SetDegraded, SetCompleted, SetInitial, Inv, IsFinished, Tell, Ask;
    InvHistory(s);
    if IsFinished(Latest(s).conditions) {
      FinishedStays(s, a);
    } else if a.Spawn? || a.Touch? || a.id != id {
    } else if !a.Crash? {
      var r := AnswerBy(s, a);
      RetryMoves(s.processes[id].local, r);
      RetriedWriteFinishes(s, id);
    }
  }

  /** The answer a process gets by an action of its own. */
  function AnswerBy(s: System, a: Action): Response
    requires |s.history| > 0 && Enabled(s, a) && !a.Spawn? && !a.Crash? && !a.Touch?
  {
    match a
    case ReadObject(id, v) => Found(s.history[v].conditions)
    case Answer(_, r) => r
    case WriteApplied(_) => Done
    case _ => Failed
  }

  lemma RetryMoves(l: Local, r: Response)
    requires Ask(l).Some? && Fits(Ask(l).value, r)
    requires l.pc == Reload(true) || l.pc == WriteReloaded(true) || l.pc.End? || (l.pc.WriteInitial? && r.Failed?)
    ensures var l' := Tell(l, r);
            l'.pc == Reload(true) || l'.pc == WriteReloaded(true) || l'.pc.End? || (l.pc == WriteReloaded(true) && r.Done?)
    ensures Ask(l).value.WriteStatus? || !r.Done?
  {
    hide SetDegraded, SetCompleted, SetInitial;
  }

  lemma FinishedStays(s: System, a: Action)
    requires Inv(s) && Enabled(s, a) && IsFinished(Latest(s).conditions)
    ensures |Apply(s, a).history| > 0 && IsFinished(Latest(Apply(s, a)).conditions)
  {
    StepKeepsInv(s, a);
    var h := Apply(s, a).history;
    assert h[|s.history| - 1] == Latest(s);
    assert Rank(h[|s.history| - 1].conditions) == 2;
  }

  lemma RetriedWriteFinishes(s: System, id: nat)
    requires Inv(s) && id < |s.processes|
    ensures s.processes[id].local.pc == WriteReloaded(true) ==> IsFinished(s.processes[id].local.conditions)
  {
  }

  lemma {:induction false} FailedStays(s: System, actions: seq<Action>, s': System, id: nat)
    requires Inv(s) && Leads(s, actions, s') && (AfterFailure(s, id) || FirstUpdateFailed(s, actions, s', id))
    ensures AfterFailure(s', id)
    decreases actions
  {
    hide AfterFailure, Apply, Enabled, Inv;
    if actions != [] {
      StepKeepsInv(s, actions[0]);
      InvHistory(s);
      if AfterFailure(s, id) || (FirstUpdateFails(s, actions[0]) && actions[0].id == id) {
        AfterFailureStep(s, actions[0], id);
      }
      FailedStays(Apply(s, actions[0]), actions[1..], s', id);
    }
  }

  lemma InvHistory(s: System)
    requires Inv(s)
    ensures |s.history| > 0
  {
  }

  function WorkOf(s: System, id: nat): Option<Work>
  {
    if id < |s.processes| then s.processes[id].work else None
  }

  lemma WorkStep(s: System, a: Action, id: nat)
    requires Inv(s) && Enabled(s, a)
    ensures WorkOf(Apply(s, a), id) ==
            if a.Answer? && a.id == id && a.response.Worked? then Some(a.response.work) else WorkOf(s, id)
    ensures a.Answer? && a.id == id && a.response.Worked? ==> WorkOf(s, id) == None
  {
    hide SetDegraded, SetCompleted, SetInitial;
  }

  /** How the work of a reconcile ended is what it was answered, once. */
  lemma {:induction false} WorkIsAnswered(s: System, actions: seq<Action>, s': System, id: nat, w: Work)
    requires Inv(s) && Leads(s, actions, s')
    ensures WorkOf(s', id) == Some(w) <==> WorkOf(s, id) == Some(w) || Answer(id, Worked(w)) in actions
    ensures WorkOf(s, id).Some? ==> WorkOf(s', id) == WorkOf(s, id)
    decreases actions
  {
    hide WorkOf, Apply, Enabled, Inv;
    if actions != [] {
      InvHistory(s);
      StepKeepsInv(s, actions[0]);
      WorkStep(s, actions[0], id);
      WorkIsAnswered(Apply(s, actions[0]), actions[1..], s', id, w);
      assert actions == [actions[0]] + actions[1..];
    }
  }

  /** What can be said of the run of a reconcile so far: its first update failed, or its work was not done. */
  predicate Misled(s: System, front: seq<Action>, mid: System, id: nat)
    requires |s.history| > 0 && Leads(s, front, mid)
  {
    || FirstUpdateFailed(s, front, mid, id)
    || Answer(id, Worked(Rejected)) in front
    || Answer(id, Worked(Postponed)) in front
  }

  /**
   * When newly recorded completion is right. Over every run from the start: the reconcile that puts completion on
   * record where it was not has succeeded in its work if and only if its first update did not fail and its work was
   * neither rejected by the validation nor postponed.
   */
  lemma {:induction false} CompletionIsRightIff(s: System, front: seq<Action>, mid: System, a: Action)
    requires Initial(s) && Leads(s, front, mid) && |mid.history| > 0 && Enabled(mid, a) && NewlyFinishes(mid, a)
    ensures Earned(Latest(Apply(mid, a))) <==> !Misled(s, front, mid, a.id)
    ensures Earned(Latest(Apply(mid, a))) <==> Answer(a.id, Worked(Succeeded)) in front
  {
    hide Apply, Enabled, Inv, FirstUpdateFailed;
    InitialInv(s);
    RunKeepsInv(s, front, mid);
    NewlyFinishesAt(mid, a);
    NewWriter(mid, a);
    var id, p := a.id, mid.processes[a.id];
    WorkIsAnswered(s, front, mid, id, Succeeded);
    WorkIsAnswered(s, front, mid, id, Rejected);
    WorkIsAnswered(s, front, mid, id, Postponed);
    WorkIsAnswered(s, front, mid, id, Errored);
    if Retrying(p) {
      RetryingFailed(s, front, mid, id);
    }
    if FirstUpdateFailed(s, front, mid, id) {
      FailedStays(s, front, mid, id);
      assert Retrying(p);
    }
    FourOutcomes(p.work);
    assert WorkOf(s, id) == None && WorkOf(mid, id) == p.work;
  }

  lemma InitialInv(s: System)
    requires Initial(s)
    ensures Inv(s)
  {
  }

  lemma NewWriter(s: System, a: Action)
    requires |s.history| > 0 && Enabled(s, a) && NewlyFinishes(s, a)
    ensures a.id < |s.processes| && !IsFinished(Latest(s).conditions)
  {
  }

  /** Nothing of the run misleads: no first update fails, and no work is rejected or postponed. */
  predicate NothingMisleads(s: System, actions: seq<Action>, s': System)
    requires |s.history| > 0 && Leads(s, actions, s')
    decreases actions
  {
    actions == [] ||
    (&& !FirstUpdateFails(s, actions[0])
     && !(actions[0].Answer? && (actions[0].response == Worked(Rejected) || actions[0].response == Worked(Postponed)))
     && NothingMisleads(Apply(s, actions[0]), actions[1..], s'))
  }

  /** On the way to completion as it should be. */
  predicate OnCourse(p: Process)
  {
    !Retrying(p) && p.work != Some(Rejected) && p.work != Some(Postponed)
  }

  predicate BackedAt(h: seq<Version>, j: nat)
    requires j < |h|
  {
    exists k | 0 <= k <= j :: Earned(h[k])
  }

  predicate Backed(s: System)
  {
    && (forall i | 0 <= i < |s.processes| :: OnCourse(s.processes[i]))
    && (forall j | 0 <= j < |s.history| :: IsFinished(s.history[j].conditions) ==> BackedAt(s.history, j))
  }

  lemma WrittenIsBacked(h: seq<Version>, p: Process)
    requires HistoryInv(h) && ProcessInv(h, p) && p.at == |h| - 1 && OnCourse(p)
    requires Ask(p.local).Some? && Ask(p.local).value.WriteStatus?
    ensures IsFinished(p.local.conditions) ==> Earned(Written(p)) || IsFinished(h[|h| - 1].conditions)
  {
    hide SetDegraded, SetCompleted, SetInitial;
    FourOutcomes(p.work);
    if p.local.pc.WriteDegraded? {
      DegradedConditions(h[p.at].conditions);
    } else {
      assert p.local.pc.WriteInitial? || p.local.pc.WriteReloaded? || p.local.pc.WriteCompleted?;
    }
  }

  lemma FourOutcomes(work: Option<Work>)
    ensures work.None? || work == Some(Succeeded) || work == Some(Rejected) || work == Some(Postponed) || work == Some(Errored)
  {
    match work
    case None =>
    case Some(w) =>
      match w {
        case Succeeded => assert work == Some(Succeeded);
        case Rejected => assert work == Some(Rejected);
        case Postponed => assert work == Some(Postponed);
        case Errored => assert work == Some(Errored);
      }
  }

  lemma BackedAppend(h: seq<Version>, v: Version)
    requires |h| > 0 && forall j | 0 <= j < |h| :: IsFinished(h[j].conditions) ==> BackedAt(h, j)
    requires IsFinished(v.conditions) ==> Earned(v) || IsFinished(h[|h| - 1].conditions)
    ensures forall j | 0 <= j < |h + [v]| :: IsFinished((h + [v])[j].conditions) ==> BackedAt(h + [v], j)
  {
    var g := h + [v];
    forall j | 0 <= j < |g| && IsFinished(g[j].conditions) ensures BackedAt(g, j) {
      if j < |h| {
        var k :| 0 <= k <= j && Earned(h[k]);
        assert Earned(g[k]);
      } else if Earned(v) {
        assert Earned(g[j]);
      } else {
        assert BackedAt(h, |h| - 1);
        var k :| 0 <= k < |h| && Earned(h[k]);
        assert Earned(g[k]);
      }
    }
  }

  lemma StaysOnCourse(p: Process, r: Response)
    requires OnCourse(p) && (p.local.pc.WriteInitial? ==> r.Done?) && r != Worked(Rejected) && r != Worked(Postponed)
    ensures OnCourse(Told(p, r))
  {
    hide SetDegraded, SetCompleted, SetInitial;
  }

  lemma StepOnCourse(s: System, a: Action)
    requires Inv(s) && Enabled(s, a) && !FirstUpdateFails(s, a)
    requires !(a.Answer? && (a.response == Worked(Rejected) || a.response == Worked(Postponed)))
    requires forall i | 0 <= i < |s.processes| :: OnCourse(s.processes[i])
    ensures forall i | 0 <= i < |Apply(s, a).processes| :: OnCourse(Apply(s, a).processes[i])
  {
    hide Tell, Inv;
    match a
    case ReadObject(id, v) => StaysOnCourse(s.processes[id], Found(s.history[v].conditions));
    case Answer(id, r) => StaysOnCourse(s.processes[id], r);
    case WriteApplied(id) => StaysOnCourse(s.processes[id], Done);
    case WriteAppliedUnacknowledged(id) => StaysOnCourse(s.processes[id], Failed);
    case WriteRefused(id) => StaysOnCourse(s.processes[id], Failed);
    case _ =>
  }

  lemma StepBacked(s: System, a: Action)
    requires Inv(s) && Backed(s) && Enabled(s, a)
    ensures forall j | 0 <= j < |Apply(s, a).history| ::
              IsFinished(Apply(s, a).history[j].conditions) ==> BackedAt(Apply(s, a).history, j)
  {
    hide ProcessInv, IsFinished, Earned, Tell, Shaped, Rank;
    if Persists(a) {
      WrittenIsBacked(s.history, s.processes[a.id]);
      BackedAppend(s.history, Written(s.processes[a.id]));
    } else if a.Touch? {
      BackedAppend(s.history, s.history[|s.history| - 1]);
    }
  }

  lemma {:induction false} RunKeepsBacked(s: System, actions: seq<Action>, s': System)
    requires Inv(s) && Backed(s) && Leads(s, actions, s') && NothingMisleads(s, actions, s')
    ensures Backed(s')
    decreases actions
  {
    hide Apply, Enabled, Inv, FirstUpdateFails;
    if actions != [] {
      InvHistory(s);
      StepKeepsInv(s, actions[0]);
      StepOnCourse(s, actions[0]);
      StepBacked(s, actions[0]);
      RunKeepsBacked(Apply(s, actions[0]), actions[1..], s');
    }
  }

  /**
   * Over whole runs: as long as no first update fails and no work is rejected or postponed, completion is on record
   * only once some reconcile's work has succeeded.
   */
  lemma {:induction false} CompletionIsEarned(s: System, actions: seq<Action>, s': System, i: nat)
    requires Initial(s) && Leads(s, actions, s') && NothingMisleads(s, actions, s')
    requires i < |s'.history| && IsFinished(s'.history[i].conditions)
    ensures exists k | 0 <= k <= i :: Earned(s'.history[k])
  {
    RunKeepsBacked(s, actions, s');
    assert BackedAt(s'.history, i);
  }

  lemma {:induction false} Then(s: System, front: seq<Action>, mid: System, a: Action, next: System)
    requires |s.history| > 0 && Leads(s, front, mid) && |mid.history| > 0 && Joined(mid, a, next)
    ensures Leads(s, front + [a], next)
    decreases front
  {
    if front == [] {
      assert (front + [a])[1..] == [];
    } else {
      Then(Apply(s, front[0]), front[1..], mid, a, next);
      assert (front + [a])[1..] == front[1..] + [a];
    }
  }

  /** A history and the one reconcile there is. */
  function Alone(h: seq<Version>, pc: Pc, conditions: seq<Condition>, work: Option<Work>): System
    requires |h| > 0
  {
    System(h, [Process(Local(pc, conditions), |h| - 1, work)])
  }

  predicate Joined(s: System, a: Action, s': System)
    requires |s.history| > 0
  {
    Enabled(s, a) && Apply(s, a) == s'
  }

  lemma AloneReads(h: seq<Version>, pc: Pc, cs: seq<Condition>)
    requires |h| == 1 && h[0].conditions == [] && (pc.Start? || pc.Reload?)
    ensures Joined(Alone(h, pc, cs, None), ReadObject(0, 0),
                   if pc.Start? then Alone(h, WriteInitial, Started(False), None)
                   else Alone(h, WriteReloaded(pc.first), Finished(False), None))
  {
    hide SetCompleted, SetInitial;
    InitialConditions();
    CompletedFromNothing();
  }

  lemma AloneRefused(h: seq<Version>, cs: seq<Condition>)
    requires |h| > 0
    ensures Joined(Alone(h, WriteInitial, cs, None), WriteRefused(0), Alone(h, Reload(true), cs, None))
  {
  }

  /** What an acknowledged write leads to. */
  function AfterWrite(pc: Pc): Pc
  {
    match pc
    case WriteInitial => Working
    case WriteReloaded(first) => if first then Working else End(false)
    case _ => End(false)
  }

  lemma AloneWrites(h: seq<Version>, pc: Pc, cs: seq<Condition>, work: Option<Work>)
    requires |h| > 0 && (pc.WriteInitial? || pc.WriteReloaded? || pc.WriteCompleted?)
    ensures Joined(Alone(h, pc, cs, work), WriteApplied(0), Alone(h + [Version(cs, work)], AfterWrite(pc), cs, work))
  {
    hide SetCompleted, SetInitial, SetDegraded;
  }

  lemma AloneWorks(h: seq<Version>, cs: seq<Condition>, work: Work)
    requires |h| > 0 && !work.Errored? && Shaped(cs)
    ensures Joined(Alone(h, Working, cs, None), Answer(0, Worked(work)), Alone(h, WriteCompleted, Finished(False), Some(work)))
  {
    hide SetCompleted, SetInitial, SetDegraded, Shaped;
    CompletedConditions(cs);
  }

  lemma AloneSpawned(s: System) returns (front: seq<Action>)
    requires Initial(s)
    ensures front == [] + [Spawn] + [ReadObject(0, 0)]
    ensures Leads(s, front, Alone(s.history, WriteInitial, Started(False), None))
  {
    var h := s.history;
    assert Joined(s, Spawn, Alone(h, Start, [], None));
    Then(s, [], s, Spawn, Alone(h, Start, [], None));
    AloneReads(h, Start, []);
    Then(s, [] + [Spawn], Alone(h, Start, [], None), ReadObject(0, 0), Alone(h, WriteInitial, Started(False), None));
    front := [] + [Spawn] + [ReadObject(0, 0)];
  }

  /** One refused first update is enough to record completion before anything was done. */
  lemma CompletedBeforeAnyWork(s: System) returns (actions: seq<Action>, s': System)
    requires Initial(s)
    ensures Leads(s, actions, s') && |s'.history| == 2 && s'.history[1].conditions == Finished(False)
    ensures forall i | 0 <= i < |s'.processes| :: s'.processes[i].work.None?
  {
    hide Joined, Leads;
    var h := s.history;
    actions := AloneSpawned(s);
    AloneRefused(h, Started(False));
    Then(s, actions, Alone(h, WriteInitial, Started(False), None), WriteRefused(0), Alone(h, Reload(true), Started(False), None));
    actions := actions + [WriteRefused(0)];
    AloneReads(h, Reload(true), Started(False));
    Then(s, actions, Alone(h, Reload(true), Started(False), None), ReadObject(0, 0), Alone(h, WriteReloaded(true), Finished(False), None));
    actions := actions + [ReadObject(0, 0)];
    AloneWrites(h, WriteReloaded(true), Finished(False), None);
    s' := Alone(h + [Version(Finished(False), None)], Working, Finished(False), None);
    Then(s, actions, Alone(h, WriteReloaded(true), Finished(False), None), WriteApplied(0), s');
    actions := actions + [WriteApplied(0)];
  }

  /**
   * So is work that the validation rejected, or that was postponed: a run without any failure that ends with
   * completion on record and nobody having succeeded.
   */
  lemma UndoneWorkRecordedAsCompleted(s: System, work: Work) returns (actions: seq<Action>, s': System)
    requires Initial(s) && (work.Rejected? || work.Postponed?)
    ensures Leads(s, actions, s') && actions == [Spawn, ReadObject(0, 0), WriteApplied(0), Answer(0, Worked(work)), WriteApplied(0)]
    ensures |s'.history| == 3 && s'.history[2].conditions == Finished(False)
    ensures forall v | v in s'.history :: !Earned(v)
    ensures |s'.processes| == 1 && s'.processes[0].local.pc == End(false) && s'.processes[0].work == Some(work)
  {
    hide Joined, Leads;
    var h, first := s.history, Version(Started(False), None);
    actions := AloneSpawned(s);
    AloneWrites(h, WriteInitial, Started(False), None);
    Then(s, actions, Alone(h, WriteInitial, Started(False), None), WriteApplied(0), Alone(h + [first], Working, Started(False), None));
    actions := actions + [WriteApplied(0)];
    AloneWorks(h + [first], Started(False), work);
    Then(s, actions, Alone(h + [first], Working, Started(False), None), Answer(0, Worked(work)),
         Alone(h + [first], WriteCompleted, Finished(False), Some(work)));
    actions := actions + [Answer(0, Worked(work))];
    AloneWrites(h + [first], WriteCompleted, Finished(False), Some(work));
    s' := Alone(h + [first] + [Version(Finished(False), Some(work))], End(false), Finished(False), Some(work));
    Then(s, actions, Alone(h + [first], WriteCompleted, Finished(False), Some(work)), WriteApplied(0), s');
    actions := actions + [WriteApplied(0)];
  }
}
