/**
 * What a run of either controller says about itself: every condition repeats what its own request was answered,
 * everything that needs a record is recorded at once, and the error returned is that of the last answer.
 */
module Records {
  import opened Common
  import opened Conditions
  import opened Protocol
  import opened Runs
  import opened Lookups
  import BackupMachine
  import RestoreMachine

  /** The request whose outcome a condition repeats. */
  function About(role: Role, kind: Kind): Option<Request>
  {
    match kind
    case BackupInitialized => if role == Backing then Some(InitClient) else None
    case QuietDownStarted => if role == Backing then Some(Exec(QuietDown)) else None
    case QuietDownCancelled => if role == Backing then Some(Exec(CancelQuietDown)) else None
    case RestoreInitialized => if role == Restoring then Some(InitClient) else None
    case RestartStarted => if role == Restoring then Some(Exec(Restart)) else None
    case SafeRestartStarted => if role == Restoring then Some(Exec(SafeRestart)) else None
    case _ => None
  }

  /** How the last request of that kind was answered, if there was one. */
  function Answered(log: seq<Exchange>, q: Request): Option<Status>
  {
    if log == [] then None
    else if log[|log| - 1].request == q then Some(if log[|log| - 1].response.Done? then True else False)
    else Answered(log[..|log| - 1], q)
  }

  predicate Truthful(l: Local, log: seq<Exchange>)
  {
    forall kind | About(l.role, kind).Some? :: StatusOf(l.conditions, kind) == Answered(log, About(l.role, kind).value)
  }

  lemma AnsweredSnoc(log: seq<Exchange>, e: Exchange, q: Request)
    ensures Answered(log + [e], q) ==
            if e.request == q then Some(if e.response.Done? then True else False) else Answered(log, q)
  {
    assert (log + [e])[..|log|] == log;
  }

  /** Which status a step sets: that of its own request and of no other, apart from the verdict on the copies. */
  lemma BackupNotes(l: Local, r: Response, kind: Kind)
    requires l.role == Backing && BackupMachine.Ask(l).Some? && Fits(BackupMachine.Ask(l).value, r)
    requires About(Backing, kind).Some? && (l.pc.Start? ==> l.conditions == [])
    ensures StatusOf(BackupMachine.Tell(l, r).conditions, kind) ==
            if BackupMachine.Ask(l) == About(Backing, kind) then Some(if r.Done? then True else False)
            else StatusOf(l.conditions, kind)
  {
    hide Set, StatusOf, Plan;
    forall k: Kind, status: Status
      ensures StatusOf(Set(l.conditions, Condition(k, status)), kind) ==
              if kind == k then Some(status) else StatusOf(l.conditions, kind)
    {
      SetLookup(l.conditions, Condition(k, status), kind);
    }
  }

  lemma RestoreNotes(l: Local, r: Response, kind: Kind)
    requires l.role == Restoring && RestoreMachine.Ask(l).Some? && Fits(RestoreMachine.Ask(l).value, r)
    requires About(Restoring, kind).Some? && (l.pc.Start? ==> l.conditions == [])
    ensures StatusOf(RestoreMachine.Tell(l, r).conditions, kind) ==
            if RestoreMachine.Ask(l) == About(Restoring, kind) then Some(if r.Done? then True else False)
            else StatusOf(l.conditions, kind)
  {
    hide Set, StatusOf, Plan;
    forall k: Kind, status: Status
      ensures StatusOf(Set(l.conditions, Condition(k, status)), kind) ==
              if kind == k then Some(status) else StatusOf(l.conditions, kind)
    {
      SetLookup(l.conditions, Condition(k, status), kind);
    }
  }

  lemma StepTruthful(l: Local, log: seq<Exchange>, e: Exchange)
    requires Truthful(l, log) && Ask(l) == Some(e.request) && Fits(e.request, e.response)
    requires l.pc.Start? ==> l.conditions == []
    ensures Truthful(Tell(l, e.response), log + [e])
  {
    hide BackupMachine.Tell, RestoreMachine.Tell, BackupMachine.Ask, RestoreMachine.Ask, Fits, About, Answered, StatusOf;
    RoleKept(l, e.response);
    forall kind | About(l.role, kind).Some?
      ensures StatusOf(Tell(l, e.response).conditions, kind) == Answered(log + [e], About(l.role, kind).value)
    {
      AnsweredSnoc(log, e, About(l.role, kind).value);
      if l.role == Backing {
        BackupNotes(l, e.response, kind);
      } else {
        RestoreNotes(l, e.response, kind);
      }
    }
  }

  /**
   * Over every run of either controller: what it records about preparing the client, about quiet-down and its
   * cancellation, and about the restart is exactly how that request was answered, and nothing before it was made.
   */
  lemma {:induction false} ConditionsAreTruthful(l: Local, log: seq<Exchange>)
    requires l.pc == Start && l.conditions == [] && Run(l, log).Some?
    ensures Truthful(Run(l, log).value, log) && Run(l, log).value.role == l.role
    ensures Run(l, log).value.pc.Start? ==> Run(l, log).value.conditions == []
    decreases |log|
  {
    if log != [] {
      hide Truthful, Run, Tell, Ask;
      var front, last := log[..|log| - 1], log[|log| - 1];
      assert log == front + [last];
      RunExtends(l, front, last);
      ConditionsAreTruthful(l, front);
      RoleKept(Run(l, front).value, last.response);
      StepTruthful(Run(l, front).value, front, last);
      NeverBackToStart(Run(l, front).value, last.response);
    } else {
      NothingRecorded(l);
    }
  }

  lemma NothingRecorded(l: Local)
    requires l.conditions == []
    ensures Truthful(l, [])
  {
  }

  lemma NeverBackToStart(l: Local, r: Response)
    requires Ask(l).Some?
    ensures !Tell(l, r).pc.Start?
  {
  }

  lemma StepError(l: Local, r: Response)
    requires Ask(l).Some? && Fits(Ask(l).value, r)
    ensures Tell(l, r).pc.End? ==> Tell(l, r).pc.err == r.Failed?
  {
    hide Set, Plan;
  }

  /**
   * What a reconcile of either controller returns: an error if and only if the last answer it got was a failure. So
   * a failed read is retried, and an object that is gone or has conditions is not.
   */
  lemma {:induction false} ErrorIsTheLastAnswer(l: Local, log: seq<Exchange>)
    requires l.pc == Start && Run(l, log).Some? && Run(l, log).value.pc.End?
    ensures log != [] && Run(l, log).value.pc.err == log[|log| - 1].response.Failed?
  {
    if log != [] {
      hide Run, Tell, Ask;
      var front, last := log[..|log| - 1], log[|log| - 1];
      assert log == front + [last];
      RunExtends(l, front, last);
      StepError(Run(l, front).value, last.response);
    }
  }

  predicate IsLast(o: Options, part: Part)
  {
    Plan(o) != [] && part == Plan(o)[|Plan(o)| - 1]
  }

  /** What has to be put on record before anything else: the client, a failed command, the last copy, any script. */
  predicate NeedsRecord(o: Options, e: Exchange)
  {
    match e.request
    case InitClient => true
    case Exec(c) =>
      !e.response.Done? ||
      (match c
       case MakeDirectory(_) => false
       case Save(_, part) => IsLast(o, part)
       case Load(_, part) => IsLast(o, part)
       case _ => true)
    case _ => false
  }

  predicate RecordsFollow(role: Role, log: seq<Exchange>)
    requires ConfigRead(role, log)
  {
    forall i | 0 <= i < |log| - 1 && NeedsRecord(ConfigOf(role, log).options, log[i]) :: log[i + 1].request.WriteStatus?
  }

  /** The next request is a write of the conditions held. */
  predicate WritesNext(l: Local)
  {
    Ask(l) == Some(WriteStatus(l.conditions))
  }

  lemma StepRecords(l: Local, e: Exchange)
    requires Ask(l) == Some(e.request) && Fits(e.request, e.response) && NeedsRecord(l.config.options, e)
    ensures WritesNext(Tell(l, e.response))
  {
    hide Set;
    if l.pc.Copy? {
      var plan := Plan(l.config.options);
      PlanExact(l.config.options);
      assert plan[l.pc.i] == plan[|plan| - 1] ==> l.pc.i == |plan| - 1;
    }
  }

  lemma KnowsConfig(l: Local, own: string, log: seq<Exchange>)
    requires Knows(l, own, log) && Ask(l).Some? && (Ask(l).value.InitClient? || Ask(l).value.Exec?)
    ensures ConfigRead(l.role, log) && l.config == ConfigOf(l.role, log)
  {
    hide Executed, Plan;
  }

  lemma ReadAlready(role: Role, front: seq<Exchange>, last: Exchange)
    requires ConfigRead(role, front + [last]) && |front| > ConfigAt(role)
    ensures ConfigRead(role, front)
  {
    var log := front + [last];
    assert forall i | 0 <= i < |front| :: log[i] == front[i];
  }

  /** Before the configuration is read there is nothing to record. */
  lemma NothingYet(role: Role, own: string, front: seq<Exchange>, last: Exchange)
    requires RightLog(role, own, front + [last]) && ConfigRead(role, front + [last]) && !ConfigRead(role, front)
    ensures RecordsFollow(role, front + [last])
  {
    var log, k := front + [last], ConfigAt(role);
    if |front| > k {
      ReadAlready(role, front, last);
    }
    forall i | 0 <= i < |front| ensures !log[i].request.InitClient? && !log[i].request.Exec? {
      assert RightAt(role, own, log, i);
      assert log[i] == front[i];
    }
  }

  lemma FollowsGrows(role: Role, front: seq<Exchange>, last: Exchange)
    requires ConfigRead(role, front) && RecordsFollow(role, front)
    requires front != [] && NeedsRecord(ConfigOf(role, front).options, front[|front| - 1]) ==> last.request.WriteStatus?
    ensures ConfigRead(role, front + [last]) && RecordsFollow(role, front + [last])
  {
    hide ConfigRead, ConfigOf, NeedsRecord;
    Stable(role, front, last);
  }

  lemma RecordedStep(m: Local, own: string, front: seq<Exchange>, last: Exchange)
    requires Knows(m, own, front) && RightLog(m.role, own, front + [last])
    requires Ask(m) == Some(last.request) && Fits(last.request, last.response)
    requires ConfigRead(m.role, front) ==> RecordsFollow(m.role, front)
    requires ConfigRead(m.role, front) && NeedsRecord(ConfigOf(m.role, front).options, front[|front| - 1]) ==> WritesNext(m)
    ensures ConfigRead(m.role, front + [last]) ==> RecordsFollow(m.role, front + [last])
    ensures ConfigRead(m.role, front + [last]) && NeedsRecord(ConfigOf(m.role, front + [last]).options, last) ==>
              WritesNext(Tell(m, last.response))
  {
    hide Knows, RightLog, Tell, Ask, ConfigRead, ConfigOf, RecordsFollow;
    Stable(m.role, front, last);
    if last.request.InitClient? || last.request.Exec? {
      KnowsConfig(m, own, front);
      if NeedsRecord(m.config.options, last) {
        StepRecords(m, last);
      }
    }
    if ConfigRead(m.role, front) {
      FollowsGrows(m.role, front, last);
    } else if ConfigRead(m.role, front + [last]) {
      NothingYet(m.role, own, front, last);
    }
  }

  /**
   * Over every run of either controller: how preparing the client went, every failed command, every script and the
   * last of the copies are put on record before anything else is asked for, and a run is never over before that.
   */
  lemma {:induction false} EverythingIsRecorded(l: Local, log: seq<Exchange>)
    requires l.pc == Start && Run(l, log).Some?
    ensures ConfigRead(l.role, log) ==> RecordsFollow(l.role, log)
    ensures ConfigRead(l.role, log) && NeedsRecord(ConfigOf(l.role, log).options, log[|log| - 1]) ==>
              WritesNext(Run(l, log).value) && !Run(l, log).value.pc.End?
    decreases |log|
  {
    if log != [] {
      hide Knows, Run, RightLog, Tell, Ask, ConfigRead, ConfigOf, RecordsFollow, NeedsRecord;
      var front, last := log[..|log| - 1], log[|log| - 1];
      assert log == front + [last];
      RunExtends(l, front, last);
      EverythingIsRecorded(l, front);
      EverythingIsLookedUpRight(l, front);
      EverythingIsLookedUpRight(l, log);
      RecordedStep(Run(l, front).value, l.name, front, last);
      RecordsMeansMore(Run(l, log).value);
    }
  }

  lemma RecordsMeansMore(l: Local)
    ensures WritesNext(l) ==> !l.pc.End?
  {
  }
}
