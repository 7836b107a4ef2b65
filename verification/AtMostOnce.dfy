/**
 * Any number of reconciles of one Backup (or one Restore) over a versioned store. A resource version is an
 * index into the history, so a stale read returns an older entry and an update is applied only when it
 * carries the latest index. Reconciles interleave freely and may crash between any two steps.
 */
module AtMostOnce {
  import opened Common
  import opened Conditions
  import opened Protocol
  import opened Runs
  import BackupMachine
  import RestoreMachine

  /** One persisted version of the object, and the reconcile that wrote it. */
  datatype Version = Version(conditions: seq<Condition>, writer: Option<nat>)

  /** `at` is the resource version the reconcile holds; `claim` is the version its acknowledged claim created. */
  datatype Process = Process(local: Local, at: nat, claim: Option<nat>)

  /** `executed` records which process ran each command, in order. */
  datatype System = System(history: seq<Version>, processes: seq<Process>, executed: seq<nat>)

  datatype Action =
    | Spawn(local: Local)
    | Crash(id: nat)
    | ReadObject(id: nat, version: nat, ref: string)
    | Answer(id: nat, response: Response)
    | WriteApplied(id: nat)
    | WriteAppliedUnacknowledged(id: nat)
    | WriteRefused(id: nat)
    | Touch

  predicate Valid(s: System)
  {
    |s.history| > 0 && forall i | 0 <= i < |s.processes| :: s.processes[i].at < |s.history|
  }

  function Latest(s: System): nat
    requires |s.history| > 0
  {
    |s.history| - 1
  }

  function RequestOf(s: System, id: nat): Option<Request>
    requires id < |s.processes|
  {
    Ask(s.processes[id].local)
  }

  predicate Writing(s: System, id: nat)
  {
    id < |s.processes| && RequestOf(s, id).Some? && RequestOf(s, id).value.WriteStatus?
  }

  predicate Enabled(s: System, a: Action)
    requires |s.history| > 0
  {
    match a
    case Spawn(l) => l.pc == Start
    case Crash(id) => id < |s.processes|
    case ReadObject(id, v, _) => id < |s.processes| && RequestOf(s, id) == Some(GetObject) && v < |s.history|
    case Answer(id, r) =>
      && id < |s.processes| && RequestOf(s, id).Some?
      && !RequestOf(s, id).value.WriteStatus?
      && Fits(RequestOf(s, id).value, r)
      && (RequestOf(s, id).value.GetObject? ==> !r.Found?)
    case WriteApplied(id) => Writing(s, id) && s.processes[id].at == Latest(s)
    case WriteAppliedUnacknowledged(id) => Writing(s, id) && s.processes[id].at == Latest(s)
    case WriteRefused(id) => Writing(s, id)
    case Touch => true
  }

  function Told(p: Process, r: Response): Process
  {
    p.(local := Tell(p.local, r))
  }

  function Apply(s: System, a: Action): System
    requires |s.history| > 0 && Enabled(s, a)
  {
    match a
    case Spawn(l) => s.(processes := s.processes + [Process(l, 0, None)])
    case Crash(id) => s.(processes := s.processes[id := s.processes[id].(local := s.processes[id].local.(pc := End(true)))])
    case ReadObject(id, v, ref) =>
      s.(processes := s.processes[id := Told(s.processes[id], Found(s.history[v].conditions, ref)).(at := v)])
    case Answer(id, r) =>
      s.(processes := s.processes[id := Told(s.processes[id], r)],
         executed := if RequestOf(s, id).value.Exec? then s.executed + [id] else s.executed)
    case WriteApplied(id) =>
      var p := s.processes[id];
      s.(history := s.history + [Version(RequestOf(s, id).value.conditions, Some(id))],
         processes := s.processes[id := Told(p, Done).(
           at := |s.history|, claim := if p.local.pc.Claim? then Some(|s.history|) else p.claim)])
    case WriteAppliedUnacknowledged(id) =>
      s.(history := s.history + [Version(RequestOf(s, id).value.conditions, Some(id))],
         processes := s.processes[id := Told(s.processes[id], Failed)])
    case WriteRefused(id) => s.(processes := s.processes[id := Told(s.processes[id], Failed)])
    case Touch => s.(history := s.history + [Version(s.history[Latest(s)].conditions, None)])
  }

  /** The store holds one version and no reconcile has started. */
  predicate Initial(s: System)
  {
    |s.history| == 1 && s.processes == [] && s.executed == []
  }

  /** `s'` is reached from `s` by the actions, in order. */
  predicate Leads(s: System, actions: seq<Action>, s': System)
    requires |s.history| > 0
    decreases actions
  {
    if actions == [] then s == s'
    else Enabled(s, actions[0]) && Leads(Apply(s, actions[0]), actions[1..], s')
  }

  /** Once the object has conditions it keeps some for ever. */
  predicate Sticky(h: seq<Version>)
  {
    forall i, j | 0 <= i < j < |h| :: h[i].conditions != [] ==> h[j].conditions != []
  }

  /** The claim recorded by process `id` turned a version without conditions into one with conditions. */
  predicate ClaimHolds(h: seq<Version>, id: nat, c: nat)
  {
    0 < c < |h| && h[c].writer == Some(id) && h[c].conditions != [] && h[c - 1].conditions == []
  }

  predicate ProcessInv(h: seq<Version>, id: nat, p: Process)
  {
    && p.at < |h|
    && (Undecided(p.local.pc) ==> h[p.at].conditions == [])
    && (Claimed(p.local.pc) ==> p.claim.Some?)
    && (p.claim.Some? ==> ClaimHolds(h, id, p.claim.value))
    && HasConditionsToWrite(p.local)
  }

  predicate Inv(s: System)
  {
    && |s.history| > 0
    && Sticky(s.history)
    && (forall i | 0 <= i < |s.processes| :: ProcessInv(s.history, i, s.processes[i]))
    && (forall k | 0 <= k < |s.executed| :: s.executed[k] < |s.processes| && s.processes[s.executed[k]].claim.Some?)
  }

  /** What a reconcile's position says about the request it issues. */
  lemma AskFacts(l: Local)
    requires Ask(l).Some?
    ensures Ask(l).value.GetObject? ==> l.pc.Start?
    ensures Ask(l).value.Exec? ==> Claimed(l.pc)
    ensures Ask(l).value.WriteStatus? ==>
              Ask(l).value.conditions == l.conditions && (l.pc.Refuse? || l.pc.Claim? || Claimed(l.pc))
  {
  }

  predicate Progress(l: Local, r: Response, l': Local)
  {
    && !l'.pc.Start?
    && (Undecided(l'.pc) ==> Undecided(l.pc) || (l.pc.Start? && r.Found? && r.conditions == []))
    && (Undecided(l'.pc) ==> !(l.pc.Refuse? || l.pc.Claim? || Claimed(l.pc)))
    && (Claimed(l'.pc) ==> Claimed(l.pc) || (l.pc.Claim? && r.Done?))
    && (l'.pc.Refuse? || l'.pc.Claim? || Claimed(l'.pc) ==> l'.conditions != [])
  }

  predicate HasConditionsToWrite(l: Local)
  {
    l.pc.Refuse? || l.pc.Claim? || Claimed(l.pc) ==> l.conditions != []
  }

  lemma BackupProgress(l: Local, r: Response)
    requires BackupMachine.Ask(l).Some? && Fits(BackupMachine.Ask(l).value, r) && HasConditionsToWrite(l)
    ensures Progress(l, r, BackupMachine.Tell(l, r))
  {
  }

  lemma RestoreProgress(l: Local, r: Response)
    requires RestoreMachine.Ask(l).Some? && Fits(RestoreMachine.Ask(l).value, r) && HasConditionsToWrite(l)
    ensures Progress(l, r, RestoreMachine.Tell(l, r))
  {
  }

  /** What one exchange does to a reconcile, whichever controller runs it. */
  lemma TellFacts(l: Local, r: Response)
    requires Ask(l).Some? && Fits(Ask(l).value, r) && HasConditionsToWrite(l)
    ensures Progress(l, r, Tell(l, r))
  {
    if l.role == Backing {
      BackupProgress(l, r);
    } else {
      RestoreProgress(l, r);
    }
  }

  lemma AppendKeepsProcesses(h: seq<Version>, v: Version, id: nat, p: Process)
    requires ProcessInv(h, id, p)
    ensures ProcessInv(h + [v], id, p)
  {
  }

  lemma InitialInv(s: System)
    requires Initial(s)
    ensures Inv(s)
  {
  }

  /** Every enabled step keeps the invariant. */
  lemma {:induction false} StepKeepsInv(s: System, a: Action)
    requires Inv(s) && Enabled(s, a)
    ensures Inv(Apply(s, a))
    ensures |s.processes| <= |Apply(s, a).processes|
    ensures s.history <= Apply(s, a).history
  {
    hide Tell;
    var s' := Apply(s, a);
    match a
    case Spawn(l) =>
    case Crash(id) =>
    case ReadObject(id, v, ref) =>
      AskFacts(s.processes[id].local);
      TellFacts(s.processes[id].local, Found(s.history[v].conditions, ref));
    case Answer(id, r) =>
      AskFacts(s.processes[id].local);
      TellFacts(s.processes[id].local, r);
    case WriteApplied(id) => WriteKeepsInv(s, id, Done);
    case WriteAppliedUnacknowledged(id) => WriteKeepsInv(s, id, Failed);
    case WriteRefused(id) =>
      AskFacts(s.processes[id].local);
      TellFacts(s.processes[id].local, Failed);
    case Touch =>
      forall i | 0 <= i < |s.processes| ensures ProcessInv(s'.history, i, s.processes[i]) {
        AppendKeepsProcesses(s.history, s'.history[|s.history|], i, s.processes[i]);
      }
  }

  lemma WriteKeepsInv(s: System, id: nat, r: Response)
    requires Inv(s) && (r.Done? || r.Failed?)
    requires Enabled(s, if r.Done? then WriteApplied(id) else WriteAppliedUnacknowledged(id))
    ensures Inv(Apply(s, if r.Done? then WriteApplied(id) else WriteAppliedUnacknowledged(id)))
  {
    var s' := Apply(s, if r.Done? then WriteApplied(id) else WriteAppliedUnacknowledged(id));
    AskFacts(s.processes[id].local);
    TellFacts(s.processes[id].local, r);
    forall i | 0 <= i < |s.processes| && i != id ensures ProcessInv(s'.history, i, s'.processes[i]) {
      AppendKeepsProcesses(s.history, s'.history[|s.history|], i, s.processes[i]);
    }
    AppendKeepsProcesses(s.history, s'.history[|s.history|], id, s.processes[id].(local := s.processes[id].local.(pc := End(true))));
  }

  lemma {:induction false} RunKeepsInv(s: System, actions: seq<Action>, s': System)
    requires Inv(s) && Leads(s, actions, s')
    ensures Inv(s')
    decreases actions
  {
    if actions != [] {
      StepKeepsInv(s, actions[0]);
      RunKeepsInv(Apply(s, actions[0]), actions[1..], s');
    }
  }

  /** Two claims of a sticky history are the same claim. */
  lemma ClaimIsUnique(h: seq<Version>, i: nat, c: nat, j: nat, d: nat)
    requires Sticky(h) && ClaimHolds(h, i, c) && ClaimHolds(h, j, d)
    ensures i == j && c == d
  {
  }

  /**
   * At most one reconcile ever issues commands: over every interleaving, with stale reads, crashes,
   * refused writes and writes applied without being acknowledged.
   */
  lemma AtMostOneExecutor(s: System, actions: seq<Action>, s': System)
    requires Initial(s) && Leads(s, actions, s')
    ensures forall i, j | 0 <= i < |s'.executed| && 0 <= j < |s'.executed| :: s'.executed[i] == s'.executed[j]
  {
    InitialInv(s);
    RunKeepsInv(s, actions, s');
    forall i, j | 0 <= i < |s'.executed| && 0 <= j < |s'.executed|
      ensures s'.executed[i] == s'.executed[j]
    {
      var p, q := s'.executed[i], s'.executed[j];
      ClaimIsUnique(s'.history, p, s'.processes[p].claim.value, q, s'.processes[q].claim.value);
    }
  }

  /** Process `id` has ended, and from the versions and commands on it had no more part in anything. */
  predicate SilentSince(s: System, id: nat, version: nat, command: nat)
  {
    && id < |s.processes| && s.processes[id].local.pc.End?
    && (forall k | version <= k < |s.history| :: s.history[k].writer != Some(id))
    && (forall k | command <= k < |s.executed| :: s.executed[k] != id)
  }

  lemma {:induction false} StaysSilent(s: System, id: nat, version: nat, command: nat, actions: seq<Action>, s': System)
    requires Inv(s) && SilentSince(s, id, version, command) && Leads(s, actions, s')
    ensures SilentSince(s', id, version, command)
    decreases actions
  {
    if actions != [] {
      StepKeepsInv(s, actions[0]);
      SilentStep(s, id, version, command, actions[0]);
      StaysSilent(Apply(s, actions[0]), id, version, command, actions[1..], s');
    }
  }

  lemma SilentStep(s: System, id: nat, version: nat, command: nat, a: Action)
    requires Inv(s) && SilentSince(s, id, version, command) && Enabled(s, a)
    ensures SilentSince(Apply(s, a), id, version, command)
  {
    hide Tell, Inv;
    EndedAsksNothing(s.processes[id].local);
  }

  lemma EndedAsksNothing(l: Local)
    requires l.pc.End?
    ensures Ask(l) == None
  {
  }

  /**
   * A persisted condition blocks: a reconcile that reads a version with conditions ends without an error, and
   * whatever happens afterwards it writes no version and issues no command.
   */
  lemma PersistedConditionBlocks(s: System, id: nat, version: nat, ref: string, actions: seq<Action>, s': System)
    requires Inv(s) && Enabled(s, ReadObject(id, version, ref)) && s.history[version].conditions != []
    requires Leads(Apply(s, ReadObject(id, version, ref)), actions, s')
    ensures Apply(s, ReadObject(id, version, ref)).processes[id].local.pc == End(false)
    ensures SilentSince(s', id, |s.history|, |s.executed|)
  {
    AskFacts(s.processes[id].local);
    TellFacts(s.processes[id].local, Found(s.history[version].conditions, ref));
    StepKeepsInv(s, ReadObject(id, version, ref));
    StaysSilent(Apply(s, ReadObject(id, version, ref)), id, |s.history|, |s.executed|, actions, s');
  }

  /** Whether this reconcile can still issue a command: at once, or after one write it can still get through. */
  predicate MayCommand(s: System, p: Process)
    requires |s.history| > 0
  {
    (Ask(p.local).Some? && Ask(p.local).value.Exec?) || (p.at == Latest(s) && OneWriteAway(p.local))
  }

  /** An acknowledged write takes this reconcile to a command. */
  predicate OneWriteAway(l: Local)
  {
    if l.role == Backing then l.pc.QuietWrite? || ((l.pc.PartFailed? || l.pc.CopiesDone?) && l.config.quietDown)
    else (l.pc.PartFailed? || l.pc.CopiesDone?) && l.config.restart
  }

  /** The object has conditions, and none of the reconciles under way will issue a command. */
  predicate Over(s: System)
    requires |s.history| > 0
  {
    s.history[Latest(s)].conditions != [] &&
    forall i | 0 <= i < |s.processes| :: !MayCommand(s, s.processes[i])
  }

  /** No continuation whatever issues another command. */
  ghost predicate NeverAgain(s: System)
    requires |s.history| > 0
  {
    forall actions, s' | Leads(s, actions, s') :: s'.executed == s.executed
  }

  /** What an answer can do towards a command. */
  lemma TowardsCommand(l: Local, r: Response)
    requires Ask(l).Some? && Fits(Ask(l).value, r)
    ensures var l' := Tell(l, r);
            (Ask(l').Some? && Ask(l').value.Exec?) || OneWriteAway(l') ==>
              (Ask(l).value.Exec? || ((OneWriteAway(l) || l.pc.Claim?) && r.Done?))
    ensures OneWriteAway(l) || l.pc.Claim? ==> Ask(l).value.WriteStatus?
  {
    if l.role == Backing {
      BackupTowards(l, r);
    } else {
      RestoreTowards(l, r);
    }
  }

  lemma BackupTowards(l: Local, r: Response)
    requires l.role == Backing && Ask(l).Some? && Fits(Ask(l).value, r)
    ensures var l' := BackupMachine.Tell(l, r);
            (Ask(l').Some? && Ask(l').value.Exec?) || OneWriteAway(l') ==>
              (Ask(l).value.Exec? || ((OneWriteAway(l) || l.pc.Claim?) && r.Done?))
  {
  }

  lemma RestoreTowards(l: Local, r: Response)
    requires l.role == Restoring && Ask(l).Some? && Fits(Ask(l).value, r)
    ensures var l' := RestoreMachine.Tell(l, r);
            (Ask(l').Some? && Ask(l').value.Exec?) || OneWriteAway(l') ==>
              (Ask(l).value.Exec? || ((OneWriteAway(l) || l.pc.Claim?) && r.Done?))
  {
  }

  /** A claim cannot get through any more, because it was made for a version without conditions. */
  lemma ClaimTooLate(s: System, id: nat)
    requires Inv(s) && id < |s.processes| && s.processes[id].at == Latest(s) && s.history[Latest(s)].conditions != []
    ensures !s.processes[id].local.pc.Claim?
  {
  }

  lemma LatestKept(s: System, a: Action)
    requires Inv(s) && s.history[Latest(s)].conditions != [] && Enabled(s, a)
    ensures Inv(Apply(s, a)) && Apply(s, a).history[Latest(Apply(s, a))].conditions != []
  {
    hide Tell, Ask, ProcessInv, Fits;
    StepKeepsInv(s, a);
  }

  /** Whoever could not issue a command still cannot when others move on. */
  lemma OthersStay(s: System, s': System, p: Process)
    requires |s.history| > 0 && s.history <= s'.history && p.at < |s.history| && !MayCommand(s, p)
    ensures !MayCommand(s', p)
  {
  }

  /** The answer a process gets by an action of its own. */
  function AnswerBy(s: System, a: Action): Response
    requires |s.history| > 0 && Enabled(s, a) && !a.Spawn? && !a.Crash? && !a.Touch?
  {
    match a
    case ReadObject(id, v, ref) => Found(s.history[v].conditions, ref)
    case Answer(_, r) => r
    case WriteApplied(_) => Done
    case _ => Failed
  }

  /** The mover itself: not being able to issue a command, it does not become able to. */
  lemma MoverStays(s: System, a: Action)
    requires Inv(s) && s.history[Latest(s)].conditions != [] && Enabled(s, a) && !a.Spawn? && !a.Crash? && !a.Touch?
    requires a.id < |s.processes| && !MayCommand(s, s.processes[a.id])
    ensures !MayCommand(Apply(s, a), Apply(s, a).processes[a.id])
  {
    hide Tell, Inv, Sticky, ProcessInv, OneWriteAway;
    var p, r := s.processes[a.id], AnswerBy(s, a);
    TowardsCommand(p.local, r);
    if p.at == Latest(s) {
      ClaimTooLate(s, a.id);
    }
  }

  lemma ProcessesBounded(s: System)
    requires Inv(s)
    ensures forall i | 0 <= i < |s.processes| :: s.processes[i].at < |s.history|
  {
  }

  lemma StaysOver(s: System, a: Action)
    requires Inv(s) && Over(s) && Enabled(s, a)
    ensures Over(Apply(s, a)) && Apply(s, a).executed == s.executed
  {
    hide Tell, Ask, Fits, MayCommand, Inv;
    var s' := Apply(s, a);
    LatestKept(s, a);
    StepKeepsInv(s, a);
    ProcessesBounded(s);
    if !a.Spawn? && !a.Crash? && !a.Touch? {
      MoverStays(s, a);
      NothingExecuted(s, a);
    }
    forall i | 0 <= i < |s'.processes| ensures !MayCommand(s', s'.processes[i]) {
      if a.Spawn? && i == |s.processes| {
        FreshCannot(s', s'.processes[i]);
      } else if a.Crash? && i == a.id {
        FreshCannot(s', s'.processes[i]);
      } else if a.Spawn? || a.Touch? || i != a.id {
        OthersStay(s, s', s.processes[i]);
      }
    }
  }

  lemma FreshCannot(s: System, p: Process)
    requires |s.history| > 0 && (p.local.pc.Start? || p.local.pc.End?)
    ensures !MayCommand(s, p)
  {
  }

  lemma NothingExecuted(s: System, a: Action)
    requires |s.history| > 0 && Enabled(s, a) && !a.Spawn? && !a.Crash? && !a.Touch?
    requires a.id < |s.processes| && !MayCommand(s, s.processes[a.id])
    ensures Apply(s, a).executed == s.executed
  {
  }

  lemma {:induction false} OverMeansNever(s: System, actions: seq<Action>, s': System)
    requires Inv(s) && Over(s) && Leads(s, actions, s')
    ensures s'.executed == s.executed
    decreases actions
  {
    if actions != [] {
      StepKeepsInv(s, actions[0]);
      StaysOver(s, actions[0]);
      OverMeansNever(Apply(s, actions[0]), actions[1..], s');
    }
  }

  lemma {:induction false} Then(s: System, front: seq<Action>, mid: System, a: Action)
    requires |s.history| > 0 && Leads(s, front, mid) && |mid.history| > 0 && Enabled(mid, a)
    ensures Leads(s, front + [a], Apply(mid, a))
    decreases front
  {
    hide Enabled, Apply;
    if front == [] {
      assert (front + [a])[1..] == [];
    } else {
      HistoryStays(s, front[0]);
      Then(Apply(s, front[0]), front[1..], mid, a);
      assert (front + [a])[1..] == front[1..] + [a];
    }
  }

  lemma HistoryStays(s: System, a: Action)
    requires |s.history| > 0 && Enabled(s, a)
    ensures |Apply(s, a).history| > 0
  {
  }

  /** One more step on the way: the process gets an answer to a read. */
  lemma Reads(s: System, front: seq<Action>, mid: System, id: nat, r: Response) returns (front': seq<Action>, mid': System)
    requires |s.history| > 0 && Leads(s, front, mid) && |mid.history| > 0 && id < |mid.processes|
    requires var q := Ask(mid.processes[id].local);
             q.Some? && !q.value.WriteStatus? && !q.value.Exec? && Fits(q.value, r) && !q.value.GetObject?
    ensures Leads(s, front', mid')
    ensures mid' == mid.(processes := mid.processes[id := Told(mid.processes[id], r)])
  {
    hide Leads, Ask, Tell, Fits;
    Then(s, front, mid, Answer(id, r));
    front', mid' := front + [Answer(id, r)], Apply(mid, Answer(id, r));
  }

  /** A new reconcile, of either controller, can always be brought before its claim. */
  lemma ReachClaim(s: System, role: Role, c: BackupConfig) returns (front: seq<Action>, mid: System)
    requires Inv(s) && s.history[Latest(s)].conditions == []
    ensures Leads(s, front, mid) && mid.history == s.history && mid.executed == s.executed
    ensures |mid.processes| == |s.processes| + 1 && mid.processes[..|s.processes|] == s.processes
    ensures var p := mid.processes[|s.processes|];
            p.at == Latest(s) && p.claim == None && p.local.role == role && p.local.pc == Claim && p.local.config == c
  {
    hide Leads, Inv;
    front, mid := SpawnAndRead(s, role, c);
    var id := |s.processes|;
    if role == Restoring {
      front, mid := Reads(s, front, mid, id, Found([], ""));
    }
    front, mid := Reads(s, front, mid, id, FoundConfig(c));
    front, mid := LookUps(s, front, mid, id);
  }

  /** With the configuration read, three more answers lead to the claim. */
  lemma LookUps(s: System, front: seq<Action>, mid: System, id: nat) returns (front': seq<Action>, mid': System)
    requires |s.history| > 0 && Leads(s, front, mid) && |mid.history| > 0 && id < |mid.processes|
    requires mid.processes[id].local.pc == FetchJenkins
    ensures Leads(s, front', mid')
    ensures exists conditions :: mid' == mid.(processes := mid.processes[id :=
              mid.processes[id].(local := mid.processes[id].local.(pc := Claim, conditions := conditions))])
  {
    hide Leads, Set;
    front', mid' := Reads(s, front, mid, id, Done);
    front', mid' := Reads(s, front', mid', id, Done);
    front', mid' := Reads(s, front', mid', id, Done);
    var l, l' := mid.processes[id].local, mid'.processes[id].local;
    assert l' == l.(pc := Claim, conditions := l'.conditions);
    assert mid' == mid.(processes := mid.processes[id := mid.processes[id].(local := l.(pc := Claim, conditions := l'.conditions))]);
  }

  lemma SpawnAndRead(s: System, role: Role, c: BackupConfig) returns (front: seq<Action>, mid: System)
    requires |s.history| > 0 && s.history[Latest(s)].conditions == []
    ensures Leads(s, front, mid) && mid.history == s.history && mid.executed == s.executed
    ensures |mid.processes| == |s.processes| + 1 && mid.processes[..|s.processes|] == s.processes
    ensures mid.processes[|s.processes|] ==
            Process(Tell(Fresh(role, "", c), Found([], "")), Latest(s), None)
  {
    hide Leads, Tell;
    var id, v, l := |s.processes|, Latest(s), Fresh(role, "", c);
    NoSteps(s);
    Then(s, [], s, Spawn(l));
    mid := Apply(s, Spawn(l));
    Then(s, [] + [Spawn(l)], mid, ReadObject(id, v, ""));
    front := [] + [Spawn(l)] + [ReadObject(id, v, "")];
    mid := Apply(mid, ReadObject(id, v, ""));
  }

  lemma NoSteps(s: System)
    requires |s.history| > 0
    ensures Leads(s, [], s)
  {
  }

  /** A reconcile that is asking for a command gets it executed. */
  lemma Executes(s: System, front: seq<Action>, mid: System, id: nat) returns (front': seq<Action>, mid': System)
    requires |s.history| > 0 && Leads(s, front, mid) && |mid.history| > 0 && id < |mid.processes|
    requires Ask(mid.processes[id].local).Some? && Ask(mid.processes[id].local).value.Exec?
    ensures Leads(s, front', mid') && mid'.executed == mid.executed + [id]
  {
    hide Leads, Ask, Tell;
    Then(s, front, mid, Answer(id, Done));
    front', mid' := front + [Answer(id, Done)], Apply(mid, Answer(id, Done));
  }

  /** So does one that is a write away from it, holding the latest version. */
  lemma WritesThenExecutes(s: System, front: seq<Action>, mid: System, id: nat) returns (front': seq<Action>, mid': System)
    requires |s.history| > 0 && Leads(s, front, mid) && |mid.history| > 0 && id < |mid.processes|
    requires var p := mid.processes[id]; var q := Tell(p.local, Done);
             p.at == Latest(mid) && Ask(p.local).Some? && Ask(p.local).value.WriteStatus? && Ask(q).Some? && Ask(q).value.Exec?
    ensures Leads(s, front', mid') && mid'.executed == mid.executed + [id]
  {
    hide Leads, Ask, Tell;
    Then(s, front, mid, WriteApplied(id));
    front', mid' := Executes(s, front + [WriteApplied(id)], Apply(mid, WriteApplied(id)), id);
  }

  lemma OneWriteThenCommand(l: Local)
    requires OneWriteAway(l)
    ensures Ask(l).Some? && Ask(l).value.WriteStatus?
    ensures Ask(Tell(l, Done)).Some? && Ask(Tell(l, Done)).value.Exec?
  {
  }

  /** A configuration under which the first thing after the claim is a command. */
  function Busy(): BackupConfig
  {
    BackupConfig("", false, Options(true, false, false), false, false)
  }

  lemma ClaimThenCommand(l: Local)
    requires l.pc == Claim && l.config == Busy()
    ensures Ask(l).Some? && Ask(l).value.WriteStatus?
    ensures Ask(Tell(l, Done)).Some? && Ask(Tell(l, Done)).value.Exec?
  {
    assert Plan(Busy().options) == [Xml];
  }

  /** As long as it is not over, some continuation issues another command; of either controller while nothing is persisted. */
  lemma AnotherCommand(s: System, role: Role) returns (actions: seq<Action>, s': System)
    requires Inv(s) && !Over(s)
    ensures Leads(s, actions, s') && |s'.executed| == |s.executed| + 1
  {
    hide Leads, Inv, Ask, Tell, OneWriteAway;
    if s.history[Latest(s)].conditions == [] {
      var front, mid := ReachClaim(s, role, Busy());
      ClaimThenCommand(mid.processes[|s.processes|].local);
      actions, s' := WritesThenExecutes(s, front, mid, |s.processes|);
    } else {
      NoSteps(s);
      var i :| 0 <= i < |s.processes| && MayCommand(s, s.processes[i]);
      if Ask(s.processes[i].local).Some? && Ask(s.processes[i].local).value.Exec? {
        actions, s' := Executes(s, [], s, i);
      } else {
        OneWriteThenCommand(s.processes[i].local);
        actions, s' := WritesThenExecutes(s, [], s, i);
      }
    }
  }

  /**
   * Exactly when an object is never worked on again: it has conditions, and no reconcile under way is at a command
   * or, holding the latest version, one write away from one.
   */
  lemma {:induction false} NeverAgainIff(s: System)
    requires Inv(s)
    ensures NeverAgain(s) <==> Over(s)
  {
    hide Over, Leads, Sticky, ProcessInv;
    if Over(s) {
      forall actions, s' | Leads(s, actions, s') ensures s'.executed == s.executed {
        OverMeansNever(s, actions, s');
      }
    } else {
      var actions, s' := AnotherCommand(s, Backing);
      assert Leads(s, actions, s') && s'.executed != s.executed;
    }
  }

  /**
   * The reverse side of at-most-once. Once conditions are persisted, by an acknowledged claim, by one that was
   * applied without acknowledgement or by a refusal, and no reconcile that claimed is still under way, no
   * continuation issues another command.
   */
  lemma NoRetryAfterCrash(s: System, actions: seq<Action>, s': System)
    requires Inv(s) && s.history[Latest(s)].conditions != [] && Leads(s, actions, s')
    requires forall i | 0 <= i < |s.processes| :: !Claimed(s.processes[i].local.pc)
    ensures s'.executed == s.executed
  {
    hide Inv, Leads;
    forall i | 0 <= i < |s.processes| ensures !MayCommand(s, s.processes[i]) {
      UnclaimedCannot(s, s.processes[i]);
    }
    OverMeansNever(s, actions, s');
  }

  lemma UnclaimedCannot(s: System, p: Process)
    requires |s.history| > 0 && !Claimed(p.local.pc)
    ensures !MayCommand(s, p)
  {
    if Ask(p.local).Some? {
      AskFacts(p.local);
    }
  }

  /**
   * A run from the start that claims the object and dies with nothing done: by a crash after the claim, or by a
   * claim that was applied without being acknowledged. Nothing will ever be done.
   */
  lemma ClaimedAndNothingDone(s: System, role: Role, c: BackupConfig, crash: bool) returns (actions: seq<Action>, s': System)
    requires Initial(s) && s.history[0].conditions == []
    ensures Leads(s, actions, s') && s'.executed == []
    ensures |s'.history| > 0 && s'.history[Latest(s')].conditions != [] && NeverAgain(s')
  {
    hide Leads, Tell;
    InitialInv(s);
    var front, mid := ReachClaim(s, role, c);
    RunKeepsInv(s, front, mid);
    ClaimAsks(mid, 0);
    if crash {
      Then(s, front, mid, WriteApplied(0));
      var claimed := Apply(mid, WriteApplied(0));
      Then(s, front + [WriteApplied(0)], claimed, Crash(0));
      actions, s' := front + [WriteApplied(0)] + [Crash(0)], Apply(claimed, Crash(0));
    } else {
      Then(s, front, mid, WriteAppliedUnacknowledged(0));
      UnacknowledgedClaimEnds(mid.processes[0].local);
      actions, s' := front + [WriteAppliedUnacknowledged(0)], Apply(mid, WriteAppliedUnacknowledged(0));
    }
    DeadAndOver(s, actions, s');
  }

  lemma ClaimAsks(s: System, id: nat)
    requires Inv(s) && id < |s.processes| && s.processes[id].local.pc == Claim
    ensures var l := s.processes[id].local; l.conditions != [] && Ask(l) == Some(WriteStatus(l.conditions))
  {
  }

  lemma UnacknowledgedClaimEnds(l: Local)
    requires l.pc == Claim
    ensures Tell(l, Failed).pc == End(true)
  {
  }

  lemma DeadAndOver(s: System, actions: seq<Action>, s': System)
    requires Initial(s) && Leads(s, actions, s') && |s'.history| == 2 && |s'.processes| == 1
    requires s'.processes[0].local.pc.End? && s'.history[1].conditions != []
    ensures NeverAgain(s')
  {
    hide Leads, Tell, Ask;
    InitialInv(s);
    RunKeepsInv(s, actions, s');
    FreshCannot(s', s'.processes[0]);
    NeverAgainIff(s');
  }
}
