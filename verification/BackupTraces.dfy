/** What every run of the Backup reconcile issues and records, whatever the cluster answers. */
module BackupTraces {
  import opened Common
  import opened Conditions
  import opened Protocol
  import opened Runs

  /** How the directory and copy commands of one run went. */
  datatype Result = NoDirectory | CopyFailed(i: nat) | Saved

  /** What a run has seen so far: outcomes of quiet-down, copying and cancelling, and where a failure was written. */
  datatype Ledger = Ledger(quiet: bool, result: Result, cancel: bool, noted: nat)

  predicate ResultFits(config: BackupConfig, r: Result)
  {
    r.CopyFailed? ==> r.i < |Plan(config.options)|
  }

  /** The first `n` copies, all successful. */
  function Saves(plan: seq<Part>, name: string, n: nat): (r: seq<Outcome>)
    requires n <= |plan|
    ensures |r| == n
  {
    if n == 0 then [] else Saves(plan, name, n - 1) + [Outcome(Save(name, plan[n - 1]), true)]
  }

  function Opening(config: BackupConfig, g: Ledger): seq<Outcome>
  {
    if config.quietDown then [Outcome(QuietDown, g.quiet)] else []
  }

  /** mkdir, then the copies up to and including the first failure. */
  function Body(config: BackupConfig, name: string, r: Result): seq<Outcome>
    requires ResultFits(config, r)
  {
    match r
    case NoDirectory => [Outcome(MakeDirectory(name), false)]
    case CopyFailed(i) =>
      [Outcome(MakeDirectory(name), true)] + Saves(Plan(config.options), name, i) + [Outcome(Save(name, Plan(config.options)[i]), false)]
    case Saved => [Outcome(MakeDirectory(name), true)] + Saves(Plan(config.options), name, |Plan(config.options)|)
  }

  function Closing(config: BackupConfig, g: Ledger): seq<Outcome>
  {
    if config.quietDown then [Outcome(CancelQuietDown, g.cancel)] else []
  }

  /** The whole command trace of an undisturbed run. */
  function Bracket(config: BackupConfig, name: string, g: Ledger): seq<Outcome>
    requires ResultFits(config, g.result)
  {
    Opening(config, g) + Body(config, name, g.result) + Closing(config, g)
  }

  /** The log wrote BackupCompleted=False at position `g.noted` if the copying failed. */
  predicate FailureWritten(log: seq<Exchange>, g: Ledger)
  {
    g.result.Saved? ||
    (g.noted < |log| && log[g.noted].request.WriteStatus? &&
     StatusOf(log[g.noted].request.conditions, BackupCompleted) == Some(False))
  }

  /** The commands a run has issued when it stands at `l`. */
  predicate Stands(l: Local, log: seq<Exchange>, g: Ledger)
  {
    var x, c := Executed(log), l.config;
    ResultFits(c, g.result) &&
    match l.pc
    case Quiet => x == [] && c.quietDown
    case QuietWrite => c.quietDown && x == Opening(c, g)
    case MkDir => x == Opening(c, g)
    case Copy(i) =>
      i < |Plan(c.options)| && x == Opening(c, g) + ([Outcome(MakeDirectory(l.name), true)] + Saves(Plan(c.options), l.name, i))
    case PartFailed =>
      !g.result.Saved? && x == Opening(c, g) + Body(c, l.name, g.result) &&
      StatusOf(l.conditions, BackupCompleted) == Some(False)
    case CopiesDone => g.result.Saved? && x == Opening(c, g) + Body(c, l.name, g.result)
    case Cancel => c.quietDown && x == Opening(c, g) + Body(c, l.name, g.result) && FailureWritten(log, g)
    case CancelWrite => c.quietDown && x == Bracket(c, l.name, g) && FailureWritten(log, g)
    case Finish =>
      x == Bracket(c, l.name, g) && FailureWritten(log, g) && StatusOf(l.conditions, BackupCompleted) == Some(True)
    case End(err) => Ended(l, log, g)
    case _ => x == []
  }

  /** The last exchange is an acknowledged write whose conditions say BackupCompleted=True. */
  predicate RecordsSuccess(log: seq<Exchange>)
  {
    |log| > 0 && log[|log| - 1].request.WriteStatus? && log[|log| - 1].response.Done? &&
    StatusOf(log[|log| - 1].request.conditions, BackupCompleted) == Some(True)
  }

  predicate Ended(l: Local, log: seq<Exchange>, g: Ledger)
  {
    var x := Executed(log);
    ResultFits(l.config, g.result) &&
    x <= Bracket(l.config, l.name, g) &&
    (x != [] && AllWritesAcknowledged(log) ==> x == Bracket(l.config, l.name, g)) &&
    (x != [] && l.pc == End(false) ==>
       x == Bracket(l.config, l.name, g) && RecordsSuccess(log) && FailureWritten(log[..|log| - 1], g))
  }

  lemma FailureStaysWritten(log: seq<Exchange>, e: Exchange, g: Ledger)
    requires FailureWritten(log, g)
    ensures FailureWritten(log + [e], g)
  {
  }

  lemma UnacknowledgedWrite(log: seq<Exchange>, e: Exchange)
    requires e.request.WriteStatus? && !e.response.Done?
    ensures !AllWritesAcknowledged(log + [e])
  {
    assert (log + [e])[|log|] == e;
  }

  /** One exchange of a Backup that stands at `l`. */
  predicate Continues(l: Local, e: Exchange)
  {
    l.role == Backing && Ask(l) == Some(e.request) && Fits(e.request, e.response)
  }

  /** The copying has failed: whatever is noted next, the failed body is the whole body. */
  lemma BodyFailed(l: Local, log: seq<Exchange>, g: Ledger)
    requires ResultFits(l.config, g.result) && !g.result.Saved?
    requires Executed(log) == Opening(l.config, g) + Body(l.config, l.name, g.result)
    ensures Stands(BackupMachine.Note(l, BackupCompleted, false).(pc := PartFailed), log, g)
  {
    SetLookup(l.conditions, Condition(BackupCompleted, False), BackupCompleted);
  }

  lemma BodySaved(l: Local, log: seq<Exchange>, g: Ledger)
    requires g.result.Saved?
    requires Executed(log) == Opening(l.config, g) + Body(l.config, l.name, g.result)
    ensures Stands(BackupMachine.ToCancel(l), log, g)
    ensures Stands(l.(pc := CopiesDone), log, g)
  {
    SetLookup(l.conditions, Condition(BackupCompleted, True), BackupCompleted);
  }

  lemma MkDirStep(l: Local, log: seq<Exchange>, e: Exchange, g: Ledger) returns (g': Ledger)
    requires Stands(l, log, g) && Continues(l, e) && l.pc.MkDir?
    ensures Stands(Tell(l, e.response), log + [e], g')
  {
    var ok, c := e.response.Done?, l.config;
    ExecutedSnoc(log, e);
    var made := [Outcome(MakeDirectory(l.name), ok)];
    assert made + [] == made;
    g' := g.(result := if ok then Saved else NoDirectory);
    if !ok {
      BodyFailed(l, log + [e], g');
    } else if Plan(c.options) == [] {
      BodySaved(l, log + [e], g');
    } else {
      assert Saves(Plan(c.options), l.name, 0) == [];
    }
  }

  lemma CopyStep(l: Local, log: seq<Exchange>, e: Exchange, g: Ledger) returns (g': Ledger)
    requires Stands(l, log, g) && Continues(l, e) && l.pc.Copy?
    ensures Stands(Tell(l, e.response), log + [e], g')
  {
    var ok, c, i := e.response.Done?, l.config, l.pc.i;
    ExecutedSnoc(log, e);
    var o := Outcome(Save(l.name, Plan(c.options)[i]), ok);
    var made := [Outcome(MakeDirectory(l.name), true)];
    var saves := Saves(Plan(c.options), l.name, i);
    assert Executed(log + [e]) == Opening(c, g) + (made + saves) + [o];
    assert Opening(c, g) + (made + saves) + [o] == Opening(c, g) + (made + (saves + [o]));
    assert made + (saves + [o]) == made + saves + [o];
    g' := g.(result := if ok then Saved else CopyFailed(i));
    if !ok {
      BodyFailed(l, log + [e], g');
    } else if i + 1 == |Plan(c.options)| {
      BodySaved(l, log + [e], g');
    }
  }

  lemma BracketStep(l: Local, log: seq<Exchange>, e: Exchange, g: Ledger) returns (g': Ledger)
    requires Stands(l, log, g) && Continues(l, e) && (l.pc.Quiet? || l.pc.Cancel?)
    ensures Stands(Tell(l, e.response), log + [e], g')
  {
    ExecutedSnoc(log, e);
    if l.pc.Quiet? {
      g' := g.(quiet := e.response.Done?);
    } else {
      g' := g.(cancel := e.response.Done?);
      FailureStaysWritten(log, e, g);
    }
  }

  lemma CommandStep(l: Local, log: seq<Exchange>, e: Exchange, g: Ledger) returns (g': Ledger)
    requires Stands(l, log, g) && Continues(l, e) && e.request.Exec?
    ensures Stands(Tell(l, e.response), log + [e], g')
  {
    if l.pc.MkDir? {
      g' := MkDirStep(l, log, e, g);
    } else if l.pc.Copy? {
      g' := CopyStep(l, log, e, g);
    } else {
      g' := BracketStep(l, log, e, g);
    }
  }

  lemma WriteStep(l: Local, log: seq<Exchange>, e: Exchange, g: Ledger) returns (g': Ledger)
    requires Stands(l, log, g) && Continues(l, e) && e.request.WriteStatus?
    ensures Stands(Tell(l, e.response), log + [e], g')
  {
    g' := g;
    ExecutedSnoc(log, e);
    var ok, c := e.response.Done?, l.config;
    SetLookup(l.conditions, Condition(BackupCompleted, True), BackupCompleted);
    if !ok {
      UnacknowledgedWrite(log, e);
      if l.pc.QuietWrite? {
        g' := g.(result := Saved);
      }
    } else if l.pc.PartFailed? {
      g' := g.(noted := |log|);
      assert (log + [e])[|log|] == e;
    } else if l.pc.Finish? {
      assert (log + [e])[..|log|] == log;
    } else if !l.pc.Refuse? && !l.pc.Claim? && !l.pc.QuietWrite? {
      FailureStaysWritten(log, e, g);
    }
  }

  lemma StepStands(l: Local, log: seq<Exchange>, e: Exchange, g: Ledger) returns (g': Ledger)
    requires Stands(l, log, g) && Continues(l, e)
    ensures Stands(Tell(l, e.response), log + [e], g')
  {
    if e.request.Exec? {
      g' := CommandStep(l, log, e, g);
    } else if e.request.WriteStatus? {
      g' := WriteStep(l, log, e, g);
    } else {
      g' := g.(result := Saved);
      ExecutedSnoc(log, e);
    }
  }

  lemma {:induction false} RunStands(l: Local, log: seq<Exchange>) returns (g: Ledger)
    requires l.role == Backing && l.pc == Start && Run(l, log).Some?
    ensures Run(l, log).value.role == Backing
    ensures Stands(Run(l, log).value, log, g)
    decreases |log|
  {
    if log == [] {
      g := Ledger(false, Saved, false, 0);
    } else {
      hide Stands, Run, Tell, Ask;
      var front, last := log[..|log| - 1], log[|log| - 1];
      assert log == front + [last];
      RunExtends(l, front, last);
      g := RunStands(l, front);
      RoleKept(Run(l, front).value, last.response);
      g := StepStands(Run(l, front).value, front, last, g);
    }
  }

  /** Wherever a run stands, its commands so far are a prefix of a whole bracket. */
  lemma StandsInBracket(m: Local, log: seq<Exchange>, g: Ledger) returns (g': Ledger)
    requires Stands(m, log, g)
    ensures ResultFits(m.config, g'.result) && Executed(log) <= Bracket(m.config, m.name, g')
    ensures m.pc.End? && AllWritesAcknowledged(log) && Executed(log) != [] ==> Executed(log) == Bracket(m.config, m.name, g')
  {
    hide Executed, StatusOf, Plan, AllWritesAcknowledged;
    g' := g;
    var x := Executed(log);
    match m.pc
    case QuietWrite | MkDir =>
      assert Bracket(m.config, m.name, g)[..|x|] == x;
    case Copy(i) =>
      g' := g.(result := CopyFailed(i));
      CopyInBracket(m.config, m.name, g', i);
    case PartFailed | CopiesDone | Cancel =>
      assert Bracket(m.config, m.name, g)[..|x|] == x;
    case _ =>
  }

  lemma CopyInBracket(c: BackupConfig, name: string, g: Ledger, i: nat)
    requires i < |Plan(c.options)| && g.result == CopyFailed(i)
    ensures Opening(c, g) + ([Outcome(MakeDirectory(name), true)] + Saves(Plan(c.options), name, i)) <= Bracket(c, name, g)
  {
    hide Plan;
    var x := Opening(c, g) + ([Outcome(MakeDirectory(name), true)] + Saves(Plan(c.options), name, i));
    assert Bracket(c, name, g)[..|x|] == x;
  }

  /**
   * Quiet-down bracket. In every run the commands issued so far are a prefix of
   * quietDown? mkdir cp* cancelQuietDown?, with both optional commands or neither; a run that has ended after
   * issuing commands, all its status writes acknowledged, issued the whole of it whichever command failed.
   */
  lemma {:induction false} QuietDownBracket(l: Local, log: seq<Exchange>) returns (g: Ledger)
    requires l.role == Backing && l.pc == Start && Run(l, log).Some?
    ensures var m := Run(l, log).value;
            && ResultFits(m.config, g.result)
            && Executed(log) <= Bracket(m.config, m.name, g)
            && (m.pc.End? && AllWritesAcknowledged(log) && Executed(log) != [] ==>
                  Executed(log) == Bracket(m.config, m.name, g))
  {
    hide Run, Stands, Executed, AllWritesAcknowledged, Bracket;
    g := RunStands(l, log);
    g := StandsInBracket(Run(l, log).value, log, g);
  }

  predicate EverythingCopied(log: seq<Exchange>)
  {
    forall o | o in Executed(log) :: (o.command.MakeDirectory? || o.command.Save?) ==> o.ok
  }

  lemma {:induction false} SavesSucceed(plan: seq<Part>, name: string, n: nat)
    requires n <= |plan|
    ensures forall o | o in Saves(plan, name, n) :: o.ok
  {
    if n > 0 {
      SavesSucceed(plan, name, n - 1);
    }
  }

  /**
   * The recorded outcome of a Backup. A run that issued commands and ended without an error has persisted
   * BackupCompleted=True as its last write, and that record is right if and only if mkdir and every copy
   * succeeded. When they did not, BackupCompleted=False had been written earlier and is overwritten.
   */
  lemma {:induction false} RecordedSuccessIsRightIff(l: Local, log: seq<Exchange>) returns (g: Ledger)
    requires l.role == Backing && l.pc == Start && Run(l, log).Some?
    requires Run(l, log).value.pc == End(false) && Executed(log) != []
    ensures RecordsSuccess(log)
    ensures var m := Run(l, log).value;
            && ResultFits(m.config, g.result)
            && Executed(log) == Bracket(m.config, m.name, g)
    ensures EverythingCopied(log) <==> g.result.Saved?
    ensures !EverythingCopied(log) ==>
              g.noted < |log| - 1 && log[g.noted].request.WriteStatus? &&
              StatusOf(log[g.noted].request.conditions, BackupCompleted) == Some(False)
  {
    hide Run, Executed, StatusOf;
    g := RunStands(l, log);
    var m := Run(l, log).value;
    var x := Executed(log);
    match g.result
    case NoDirectory =>
      assert Outcome(MakeDirectory(m.name), false) in Body(m.config, m.name, g.result);
      assert Outcome(MakeDirectory(m.name), false) in x;
    case CopyFailed(i) =>
      var o := Outcome(Save(m.name, Plan(m.config.options)[i]), false);
      assert o in Body(m.config, m.name, g.result);
      assert o in x;
    case Saved =>
      SavesSucceed(Plan(m.config.options), m.name, |Plan(m.config.options)|);
  }

  /** A Backup whose mkdir fails: nothing is copied, and success is recorded. */
  lemma FailedBackupRecordedAsCompleted(name: string, c: BackupConfig) returns (l: Local, log: seq<Exchange>)
    requires !c.quietDown
    ensures l == Fresh(Backing, name, c)
    ensures Run(l, log).Some? && Run(l, log).value.pc == End(false)
    ensures RecordsSuccess(log) && Executed(log) == [Outcome(MakeDirectory(name), false)]
  {
    l := Fresh(Backing, name, c);
    var setup := ReachClaim(l, c);
    var m := Run(l, setup).value;
    log := FailMkDir(l, setup, m);
  }

  lemma FailMkDir(l: Local, setup: seq<Exchange>, m: Local) returns (log: seq<Exchange>)
    requires Run(l, setup) == Some(m) && Executed(setup) == []
    requires m.role == Backing && m.pc == Claim && !m.config.quietDown
    ensures Run(l, log).Some? && Run(l, log).value.pc == End(false)
    ensures RecordsSuccess(log) && Executed(log) == [Outcome(MakeDirectory(m.name), false)]
  {
    var claimed := m.(pc := MkDir);
    log := setup + [Exchange(WriteStatus(m.conditions), Done)];
    RunSnoc(l, setup, Exchange(WriteStatus(m.conditions), Done));
    assert Run(l, log) == Some(claimed);
    var mkdir := Exchange(Exec(MakeDirectory(m.name)), Failed);
    RunSnoc(l, log, mkdir);
    log := log + [mkdir];
    log := OverwriteFailure(l, log, BackupMachine.Note(claimed, BackupCompleted, false).(pc := PartFailed));
  }

  lemma OneMore(l: Local, log: seq<Exchange>, m: Local, e: Exchange, next: Local)
    requires Run(l, log) == Some(m) && Ask(m) == Some(e.request) && Fits(e.request, e.response) && Tell(m, e.response) == next
    requires !e.request.Exec?
    ensures Run(l, log + [e]) == Some(next) && Executed(log + [e]) == Executed(log)
  {
    RunSnoc(l, log, e);
    assert Executed(log) + [] == Executed(log);
  }

  /** Once a failure has been noted, two acknowledged writes end the run with success on record. */
  lemma OverwriteFailure(l: Local, log: seq<Exchange>, m: Local) returns (log': seq<Exchange>)
    requires Run(l, log) == Some(m) && m.role == Backing && m.pc == PartFailed && !m.config.quietDown
    ensures Run(l, log').Some? && Run(l, log').value.pc == End(false)
    ensures RecordsSuccess(log') && Executed(log') == Executed(log)
  {
    hide Run, Executed;
    var note := Exchange(WriteStatus(m.conditions), Done);
    var completed := BackupMachine.ToFinish(m);
    OneMore(l, log, m, note, completed);
    var finish := Exchange(WriteStatus(completed.conditions), Done);
    OneMore(l, log + [note], completed, finish, completed.(pc := End(false)));
    SetLookup(m.conditions, Condition(BackupCompleted, True), BackupCompleted);
    log' := log + [note] + [finish];
  }

  /** Every lookup succeeds on an object without conditions. */
  lemma ReachClaim(l: Local, c: BackupConfig) returns (log: seq<Exchange>)
    requires l.role == Backing && l.pc == Start
    ensures Run(l, log) ==
            Some(l.(pc := Claim, ref := "", config := c, conditions := [Condition(BackupInitialized, True)]))
    ensures Executed(log) == []
  {
    hide Run, Executed;
    var m0 := l.(pc := FetchConfig, ref := "", conditions := []);
    var m1 := m0.(pc := FetchJenkins, config := c);
    var m2 := m1.(pc := FetchPod);
    var m3 := m2.(pc := Connect);
    log := [] + [Exchange(GetObject, Found([], ""))];
    NothingYet(l);
    OneMore(l, [], l, log[0], m0);
    OneMore(l, log, m0, Exchange(GetConfig(DEFAULT_CONFIG_NAME), FoundConfig(c)), m1);
    log := log + [Exchange(GetConfig(DEFAULT_CONFIG_NAME), FoundConfig(c))];
    OneMore(l, log, m1, Exchange(GetJenkins(c.jenkinsRef), Done), m2);
    log := log + [Exchange(GetJenkins(c.jenkinsRef), Done)];
    OneMore(l, log, m2, Exchange(GetPod, Done), m3);
    log := log + [Exchange(GetPod, Done)];
    OneMore(l, log, m3, Exchange(InitClient, Done), BackupMachine.Note(m3, BackupInitialized, true).(pc := Claim));
    log := log + [Exchange(InitClient, Done)];
  }

  lemma NothingYet(l: Local)
    ensures Run(l, []) == Some(l) && Executed([]) == []
  {
  }
}
