/** What every run of the Restore reconcile issues and records, whatever the cluster answers. */
module RestoreTraces {
  import opened Common
  import opened Conditions
  import opened Protocol
  import opened Runs
  import RestoreMachine

  datatype Result = CopyFailed(i: nat) | Loaded

  datatype Ledger = Ledger(result: Result, restarted: bool)

  predicate ResultFits(config: BackupConfig, r: Result)
  {
    r.CopyFailed? ==> r.i < |Plan(config.options)|
  }

  /** The first `n` copies, all successful. */
  function Loads(plan: seq<Part>, name: string, n: nat): (r: seq<Outcome>)
    requires n <= |plan|
    ensures |r| == n
  {
    if n == 0 then [] else Loads(plan, name, n - 1) + [Outcome(Load(name, plan[n - 1]), true)]
  }

  /** The copies up to and including the first failure. */
  function Body(config: BackupConfig, name: string, r: Result): seq<Outcome>
    requires ResultFits(config, r)
  {
    match r
    case CopyFailed(i) => Loads(Plan(config.options), name, i) + [Outcome(Load(name, Plan(config.options)[i]), false)]
    case Loaded => Loads(Plan(config.options), name, |Plan(config.options)|)
  }

  function Closing(config: BackupConfig, g: Ledger): seq<Outcome>
  {
    if config.restart then [Outcome(if config.safe then SafeRestart else Restart, g.restarted)] else []
  }

  /** What RestoreCompleted must say after the copies: nothing was asked, all succeeded, or one failed. */
  function Verdict(config: BackupConfig, r: Result): Option<Status>
  {
    if Plan(config.options) == [] then None else if r.Loaded? then Some(True) else Some(False)
  }

  predicate NoRestartYet(cs: seq<Condition>)
  {
    StatusOf(cs, RestartStarted) == None && StatusOf(cs, SafeRestartStarted) == None
  }

  predicate OneRestartKind(cs: seq<Condition>)
  {
    StatusOf(cs, RestartStarted) == None || StatusOf(cs, SafeRestartStarted) == None
  }

  /** Conditions written when `before` had been executed tell the truth about the copies. */
  predicate HonestWrite(config: BackupConfig, name: string, before: seq<Outcome>, cs: seq<Condition>)
  {
    && OneRestartKind(cs)
    && match StatusOf(cs, RestoreCompleted)
       case None => true
       case Some(True) => Plan(config.options) != [] && Body(config, name, Loaded) <= before
       case Some(False) => exists i | 0 <= i < |Plan(config.options)| :: Body(config, name, CopyFailed(i)) <= before
       case Some(Unknown) => false
  }

  predicate Honest(config: BackupConfig, name: string, log: seq<Exchange>)
  {
    forall i | 0 <= i < |log| && log[i].request.WriteStatus? ::
      HonestWrite(config, name, Executed(log[..i]), log[i].request.conditions)
  }

  predicate NothingWritten(log: seq<Exchange>)
  {
    forall i | 0 <= i < |log| :: !log[i].request.WriteStatus?
  }

  /** What has been executed, and what the next write would record, when a run stands at `l`. */
  predicate Stands(l: Local, log: seq<Exchange>, g: Ledger)
  {
    var x, c := Executed(log), l.config;
    ResultFits(c, g.result) &&
    match l.pc
    case Copy(i) =>
      i < |Plan(c.options)| && x == Loads(Plan(c.options), l.name, i) &&
      StatusOf(l.conditions, RestoreCompleted) == None && NoRestartYet(l.conditions)
    case PartFailed => g.result.CopyFailed? && AfterCopies(l, x, g)
    case CopiesDone => g.result.Loaded? && AfterCopies(l, x, g)
    case SafeRestarting => c.restart && c.safe && AfterCopies(l, x, g)
    case Restarting => c.restart && !c.safe && AfterCopies(l, x, g)
    case RestartFailed => AfterRestart(l, x, g)
    case Finish => AfterRestart(l, x, g)
    case End(err) =>
      x <= Body(c, l.name, g.result) + Closing(c, g) &&
      (x != [] && err == false ==>
         x == Body(c, l.name, g.result) + Closing(c, g) && |log| > 0 && log[|log| - 1].request.WriteStatus? &&
         log[|log| - 1].response.Done? &&
         StatusOf(log[|log| - 1].request.conditions, RestoreCompleted) == Verdict(c, g.result))
    case _ => x == [] && NothingWritten(log) && StatusOf(l.conditions, RestoreCompleted) == None && NoRestartYet(l.conditions)
  }

  predicate AfterCopies(l: Local, x: seq<Outcome>, g: Ledger)
  {
    && ResultFits(l.config, g.result)
    && x == Body(l.config, l.name, g.result)
    && StatusOf(l.conditions, RestoreCompleted) == Verdict(l.config, g.result)
    && NoRestartYet(l.conditions)
  }

  predicate AfterRestart(l: Local, x: seq<Outcome>, g: Ledger)
  {
    && ResultFits(l.config, g.result)
    && x == Body(l.config, l.name, g.result) + Closing(l.config, g)
    && StatusOf(l.conditions, RestoreCompleted) == Verdict(l.config, g.result)
    && OneRestartKind(l.conditions)
  }

  /** One exchange of a Restore that stands at `l`. */
  predicate Continues(l: Local, e: Exchange)
  {
    l.role == Restoring && Ask(l) == Some(e.request) && Fits(e.request, e.response)
  }

  lemma SetKeepsOthers(cs: seq<Condition>, c: Condition)
    ensures StatusOf(Set(cs, c), RestoreCompleted) == if c.kind == RestoreCompleted then Some(c.status) else StatusOf(cs, RestoreCompleted)
    ensures StatusOf(Set(cs, c), RestartStarted) == if c.kind == RestartStarted then Some(c.status) else StatusOf(cs, RestartStarted)
    ensures StatusOf(Set(cs, c), SafeRestartStarted) == if c.kind == SafeRestartStarted then Some(c.status) else StatusOf(cs, SafeRestartStarted)
  {
    SetLookup(cs, c, RestoreCompleted);
    SetLookup(cs, c, RestartStarted);
    SetLookup(cs, c, SafeRestartStarted);
  }

  lemma RestartPhase(l: Local, log: seq<Exchange>, g: Ledger)
    requires AfterCopies(l, Executed(log), g)
    ensures Stands(RestoreMachine.ToRestart(l), log, g)
  {
    if !l.config.restart {
      assert Body(l.config, l.name, g.result) + [] == Body(l.config, l.name, g.result);
    }
  }

  lemma CopyStep(l: Local, log: seq<Exchange>, e: Exchange, g: Ledger) returns (g': Ledger)
    requires Stands(l, log, g) && Continues(l, e) && l.pc.Copy?
    ensures Stands(Tell(l, e.response), log + [e], g')
  {
    hide Executed, StatusOf, Set;
    var ok, i := e.response.Done?, l.pc.i;
    ExecutedSnoc(log, e);
    SetKeepsOthers(l.conditions, Condition(RestoreCompleted, if ok then True else False));
    g' := g.(result := if ok then Loaded else CopyFailed(i));
  }

  lemma RestartStep(l: Local, log: seq<Exchange>, e: Exchange, g: Ledger) returns (g': Ledger)
    requires Stands(l, log, g) && Continues(l, e) && (l.pc.SafeRestarting? || l.pc.Restarting?)
    ensures Stands(Tell(l, e.response), log + [e], g')
  {
    var ok := e.response.Done?;
    ExecutedSnoc(log, e);
    SetKeepsOthers(l.conditions, Condition(if l.pc.Restarting? then RestartStarted else SafeRestartStarted, if ok then True else False));
    g' := g.(restarted := ok);
  }

  lemma ClaimStep(l: Local, log: seq<Exchange>, e: Exchange, g: Ledger) returns (g': Ledger)
    requires Stands(l, log, g) && Continues(l, e) && (l.pc.Claim? || l.pc.Refuse?)
    ensures Stands(Tell(l, e.response), log + [e], g')
  {
    ExecutedSnoc(log, e);
    g' := g.(result := Loaded);
    if l.pc.Claim? && Plan(l.config.options) == [] {
      RestartPhase(l, log + [e], g');
    }
  }

  lemma OutcomeStep(l: Local, log: seq<Exchange>, e: Exchange, g: Ledger)
    requires Stands(l, log, g) && Continues(l, e) && (l.pc.PartFailed? || l.pc.CopiesDone?)
    ensures Stands(Tell(l, e.response), log + [e], g)
  {
    ExecutedSnoc(log, e);
    RestartPhase(l, log + [e], g);
  }

  lemma ClosingStep(l: Local, log: seq<Exchange>, e: Exchange, g: Ledger)
    requires Stands(l, log, g) && Continues(l, e) && (l.pc.RestartFailed? || l.pc.Finish?)
    ensures Stands(Tell(l, e.response), log + [e], g)
  {
    ExecutedSnoc(log, e);
  }

  lemma WriteStep(l: Local, log: seq<Exchange>, e: Exchange, g: Ledger) returns (g': Ledger)
    requires Stands(l, log, g) && Continues(l, e) && e.request.WriteStatus?
    ensures Stands(Tell(l, e.response), log + [e], g')
  {
    g' := g;
    if l.pc.Claim? || l.pc.Refuse? {
      g' := ClaimStep(l, log, e, g);
    } else if l.pc.PartFailed? || l.pc.CopiesDone? {
      OutcomeStep(l, log, e, g);
    } else {
      ClosingStep(l, log, e, g);
    }
  }

  lemma ReadStep(l: Local, log: seq<Exchange>, e: Exchange, g: Ledger) returns (g': Ledger)
    requires Stands(l, log, g) && Continues(l, e) && !e.request.WriteStatus? && !e.request.Exec?
    ensures Stands(Tell(l, e.response), log + [e], g')
  {
    g' := g.(result := Loaded);
    ExecutedSnoc(log, e);
    SetKeepsOthers(l.conditions, Condition(RestoreInitialized, if e.response.Done? then True else False));
  }

  lemma StepStands(l: Local, log: seq<Exchange>, e: Exchange, g: Ledger) returns (g': Ledger)
    requires Stands(l, log, g) && Continues(l, e)
    ensures Stands(Tell(l, e.response), log + [e], g')
  {
    if l.pc.Copy? {
      g' := CopyStep(l, log, e, g);
    } else if e.request.Exec? {
      g' := RestartStep(l, log, e, g);
    } else if e.request.WriteStatus? {
      g' := WriteStep(l, log, e, g);
    } else {
      g' := ReadStep(l, log, e, g);
    }
  }

  /** What the next write would record is honest. */
  lemma StandingHonest(l: Local, log: seq<Exchange>, g: Ledger, e: Exchange)
    requires Stands(l, log, g) && Continues(l, e) && e.request.WriteStatus?
    ensures HonestWrite(l.config, l.name, Executed(log), e.request.conditions)
  {
    if !l.pc.Refuse? && !l.pc.Claim? {
      var b := Body(l.config, l.name, g.result);
      assert b <= Executed(log);
      if g.result.CopyFailed? {
        assert ResultFits(l.config, CopyFailed(g.result.i));
      }
    }
  }

  /** Nothing but the first reads changes the configuration or the name, and nothing is written before them. */
  lemma SettledAfterReads(l: Local, log: seq<Exchange>, g: Ledger, e: Exchange)
    requires Stands(l, log, g) && Continues(l, e)
    ensures var l' := Tell(l, e.response);
            (l'.config == l.config && l'.name == l.name) || NothingWritten(log)
  {
  }

  lemma WriteKeepsConfig(l: Local, e: Exchange)
    requires Continues(l, e) && e.request.WriteStatus?
    ensures Tell(l, e.response).config == l.config && Tell(l, e.response).name == l.name
  {
  }

  lemma PrefixSnoc(log: seq<Exchange>, e: Exchange, i: nat)
    requires i <= |log|
    ensures (log + [e])[..i] == log[..i] && (i < |log| ==> (log + [e])[i] == log[i]) && (log + [e])[|log|] == e
    ensures log[..|log|] == log
  {
  }

  lemma HonestStep(l: Local, log: seq<Exchange>, g: Ledger, e: Exchange)
    requires Stands(l, log, g) && Continues(l, e) && Honest(l.config, l.name, log)
    ensures Honest(Tell(l, e.response).config, Tell(l, e.response).name, log + [e])
  {
    hide Stands, Continues, Run, Executed, HonestWrite, Tell;
    SettledAfterReads(l, log, g, e);
    var l' := Tell(l, e.response);
    forall i | 0 <= i < |log + [e]| && (log + [e])[i].request.WriteStatus?
      ensures HonestWrite(l'.config, l'.name, Executed((log + [e])[..i]), (log + [e])[i].request.conditions)
    {
      PrefixSnoc(log, e, i);
      if i == |log| {
        StandingHonest(l, log, g, e);
        WriteKeepsConfig(l, e);
      }
    }
  }

  lemma {:induction false} RunStands(l: Local, log: seq<Exchange>) returns (g: Ledger)
    requires l.role == Restoring && l.pc == Start && l.conditions == [] && Run(l, log).Some?
    ensures Run(l, log).value.role == Restoring
    ensures Stands(Run(l, log).value, log, g)
    ensures Honest(Run(l, log).value.config, Run(l, log).value.name, log)
    decreases |log|
  {
    if log == [] {
      g := Ledger(Loaded, false);
    } else {
      hide Stands, Run, Honest, Tell, Ask;
      var front, last := log[..|log| - 1], log[|log| - 1];
      assert log == front + [last];
      RunExtends(l, front, last);
      g := RunStands(l, front);
      var m := Run(l, front).value;
      assert Continues(m, last);
      HonestStep(m, front, g, last);
      RoleKept(m, last.response);
      g := StepStands(m, front, last, g);
    }
  }

  /**
   * Restore status is honest. In every run, each status write that says RestoreCompleted=True comes after every
   * selected copy succeeded and at least one was selected; each that says False comes after a failed copy;
   * no write carries both kinds of restart; and the commands are the copies up to the first failure, then at
   * most one restart.
   */
  lemma {:induction false} RestoreHonest(l: Local, log: seq<Exchange>) returns (g: Ledger)
    requires l.role == Restoring && l.pc == Start && l.conditions == [] && Run(l, log).Some?
    ensures var m := Run(l, log).value;
            && Honest(m.config, m.name, log)
            && ResultFits(m.config, g.result)
            && Executed(log) <= Body(m.config, m.name, g.result) + Closing(m.config, g)
  {
    g := RunStands(l, log);
    var m := Run(l, log).value;
    var x := Executed(log);
    if m.pc.Copy? {
      g := g.(result := CopyFailed(m.pc.i));
    }
    var full := Body(m.config, m.name, g.result) + Closing(m.config, g);
    if Claimed(m.pc) {
      assert full[..|x|] == x;
    }
  }

  /** A run that issued commands and ended without an error has persisted exactly the right verdict. */
  lemma {:induction false} FinalRecordIsRight(l: Local, log: seq<Exchange>) returns (g: Ledger)
    requires l.role == Restoring && l.pc == Start && l.conditions == [] && Run(l, log).Some?
    requires Run(l, log).value.pc == End(false) && Executed(log) != []
    ensures var m := Run(l, log).value;
            && ResultFits(m.config, g.result)
            && Executed(log) == Body(m.config, m.name, g.result) + Closing(m.config, g)
            && log[|log| - 1].request.WriteStatus? && log[|log| - 1].response.Done?
            && StatusOf(log[|log| - 1].request.conditions, RestoreCompleted) == Verdict(m.config, g.result)
  {
    g := RunStands(l, log);
  }
}
