/**
 * Whom a run of either controller asks about: every object is looked up by the name the previous one gave, and
 * commands concern the right directory and the selected parts.
 */
module Lookups {
  import opened Common
  import opened Conditions
  import opened Protocol
  import opened Runs
  import BackupMachine
  import RestoreMachine

  predicate ObjectRead(log: seq<Exchange>)
  {
    |log| > 0 && log[0].request == GetObject && log[0].response.Found?
  }

  /** A Restore reads the Backup it refers to. */
  predicate BackupRead(log: seq<Exchange>)
  {
    ObjectRead(log) && |log| > 1 && log[1].request == GetBackup(log[0].response.ref) && log[1].response.Found?
  }

  /** The Backup itself, or the one the Restore refers to, has been read. */
  predicate SubjectRead(role: Role, log: seq<Exchange>)
  {
    if role == Backing then ObjectRead(log) else BackupRead(log)
  }

  /** The position of the configuration's exchange. */
  function ConfigAt(role: Role): nat
  {
    if role == Backing then 1 else 2
  }

  /** The name to look the configuration up by: the reference of the Backup, or "default" if it has none. */
  predicate NamesConfig(role: Role, log: seq<Exchange>, name: string)
  {
    SubjectRead(role, log) &&
    var ref := log[ConfigAt(role) - 1].response.ref;
    (ref == "" ==> name == "default") && (ref != "" ==> name == ref)
  }

  predicate ConfigRead(role: Role, log: seq<Exchange>)
  {
    var k := ConfigAt(role);
    |log| > k && log[k].request.GetConfig? && NamesConfig(role, log, log[k].request.name) && log[k].response.FoundConfig?
  }

  function ConfigOf(role: Role, log: seq<Exchange>): BackupConfig
    requires ConfigRead(role, log)
  {
    log[ConfigAt(role)].response.config
  }

  /** The Jenkins has been found. */
  predicate JenkinsFound(role: Role, log: seq<Exchange>)
  {
    var k := ConfigAt(role);
    ConfigRead(role, log) && |log| > k + 1 && log[k + 1].request.GetJenkins? && log[k + 1].response.Done?
  }

  /** Its pod has been found. */
  predicate PodFound(role: Role, log: seq<Exchange>)
  {
    var k := ConfigAt(role);
    JenkinsFound(role, log) && |log| > k + 2 && log[k + 2].request == GetPod && log[k + 2].response.Done?
  }

  /** The exec client is ready, and the object claimed by an acknowledged write. */
  predicate ClaimedBy(role: Role, log: seq<Exchange>)
  {
    var k := ConfigAt(role);
    && PodFound(role, log) && |log| > k + 4
    && log[k + 3] == Exchange(InitClient, Done) && log[k + 4].request.WriteStatus? && log[k + 4].response.Done?
  }

  predicate Wanted(o: Options, part: Part)
  {
    match part
    case Xml => o.config
    case Jobs => o.jobs
    case Plugins => o.plugins
  }

  /** The parts visited are the wanted ones, each once, in the order config, jobs, plugins. */
  lemma PlanExact(o: Options)
    ensures forall part :: part in Plan(o) <==> Wanted(o, part)
    ensures forall i, j | 0 <= i < j < |Plan(o)| ::
              Plan(o)[i] != Plan(o)[j] && !Plan(o)[i].Plugins? && !Plan(o)[j].Xml?
  {
    var c := if o.config then [Xml] else [];
    var j := if o.jobs then [Jobs] else [];
    var p := if o.plugins then [Plugins] else [];
    assert Plan(o) == c + j + p;
    assert Xml in c + j + p <==> o.config;
    assert Jobs in c + j + p <==> o.jobs;
    assert Plugins in c + j + p <==> o.plugins;
  }

  /** A command is one the configuration calls for, on the directory of the right backup. */
  predicate RightCommand(role: Role, own: string, log: seq<Exchange>, c: Command)
    requires ConfigRead(role, log)
  {
    var config := ConfigOf(role, log);
    match c
    case QuietDown => role == Backing && config.quietDown
    case CancelQuietDown => role == Backing && config.quietDown
    case MakeDirectory(name) => role == Backing && name == own
    case Save(name, part) => role == Backing && name == own && Wanted(config.options, part)
    case Load(name, part) => role == Restoring && name == log[0].response.ref && Wanted(config.options, part)
    case Restart => role == Restoring && config.restart && !config.safe
    case SafeRestart => role == Restoring && config.restart && config.safe
  }

  /** Exchange `i` asks for what it should. */
  predicate RightAt(role: Role, own: string, log: seq<Exchange>, i: nat)
    requires i < |log|
  {
    match log[i].request
    case GetObject => i == 0
    case GetBackup(name) => role == Restoring && i == 1 && ObjectRead(log) && name == log[0].response.ref
    case GetConfig(name) => i == ConfigAt(role) && NamesConfig(role, log, name)
    case GetJenkins(name) => i == ConfigAt(role) + 1 && ConfigRead(role, log) && name == ConfigOf(role, log).jenkinsRef
    case GetPod => i == ConfigAt(role) + 2 && JenkinsFound(role, log)
    case InitClient => i == ConfigAt(role) + 3 && PodFound(role, log)
    case WriteStatus(_) => i > ConfigAt(role) + 3 && PodFound(role, log) && log[ConfigAt(role) + 3].request == InitClient
    case Exec(c) => i > ConfigAt(role) + 4 && ClaimedBy(role, log) && RightCommand(role, own, log, c)
  }

  predicate RightLog(role: Role, own: string, log: seq<Exchange>)
  {
    forall i | 0 <= i < |log| :: RightAt(role, own, log, i)
  }

  /** The configuration and the directory a run works with are the ones it read. */
  predicate Settled(l: Local, own: string, log: seq<Exchange>)
  {
    && ConfigRead(l.role, log) && l.config == ConfigOf(l.role, log)
    && l.name == if l.role == Backing then own else log[0].response.ref
  }

  /** What a run knows when it stands at `l`. */
  predicate Knows(l: Local, own: string, log: seq<Exchange>)
  {
    match l.pc
    case Start => log == [] && l.name == own
    case FetchBackup => l.role == Restoring && |log| == 1 && ObjectRead(log) && l.ref == log[0].response.ref
    case FetchConfig =>
      && |log| == ConfigAt(l.role) && SubjectRead(l.role, log) && l.ref == log[|log| - 1].response.ref
      && l.name == if l.role == Backing then own else log[0].response.ref
    case FetchJenkins => |log| == ConfigAt(l.role) + 1 && Settled(l, own, log)
    case FetchPod => |log| == ConfigAt(l.role) + 2 && Settled(l, own, log) && JenkinsFound(l.role, log)
    case Connect => |log| == ConfigAt(l.role) + 3 && Settled(l, own, log) && PodFound(l.role, log)
    case Refuse | Claim =>
      && |log| == ConfigAt(l.role) + 4 && Settled(l, own, log) && PodFound(l.role, log)
      && log[ConfigAt(l.role) + 3] == Exchange(InitClient, if l.pc.Claim? then Done else Failed)
    case End(_) => Executed(log) != [] ==> Settled(l, own, log)
    case _ => Working(l, own, log)
  }

  /** Past the claim, at a place the configuration allows. */
  predicate Working(l: Local, own: string, log: seq<Exchange>)
  {
    && Settled(l, own, log) && ClaimedBy(l.role, log) && Allowed(l)
  }

  predicate Allowed(l: Local)
  {
    && (l.pc.Copy? ==> l.pc.i < |Plan(l.config.options)|)
    && (l.pc.Quiet? || l.pc.QuietWrite? || l.pc.Cancel? || l.pc.CancelWrite? ==> l.role == Backing && l.config.quietDown)
    && (l.pc.SafeRestarting? ==> l.role == Restoring && l.config.restart && l.config.safe)
    && (l.pc.Restarting? ==> l.role == Restoring && l.config.restart && !l.config.safe)
  }

  lemma Stable(role: Role, log: seq<Exchange>, e: Exchange)
    ensures ObjectRead(log) ==> ObjectRead(log + [e])
    ensures SubjectRead(role, log) ==> SubjectRead(role, log + [e])
    ensures forall name | NamesConfig(role, log, name) :: NamesConfig(role, log + [e], name)
    ensures ConfigRead(role, log) ==> ConfigRead(role, log + [e]) && ConfigOf(role, log + [e]) == ConfigOf(role, log)
    ensures JenkinsFound(role, log) ==> JenkinsFound(role, log + [e])
    ensures PodFound(role, log) ==> PodFound(role, log + [e])
    ensures ClaimedBy(role, log) ==> ClaimedBy(role, log + [e])
    ensures forall i | 0 <= i < |log| :: (log + [e])[i] == log[i]
  {
  }

  lemma RightStays(role: Role, own: string, log: seq<Exchange>, e: Exchange)
    requires RightLog(role, own, log)
    ensures forall i | 0 <= i < |log| :: RightAt(role, own, log + [e], i)
  {
    hide ConfigRead, NamesConfig, ObjectRead, JenkinsFound, ClaimedBy;
    Stable(role, log, e);
    forall i | 0 <= i < |log| ensures RightAt(role, own, log + [e], i) {
      assert (log + [e])[i] == log[i];
      assert RightAt(role, own, log, i);
    }
  }

  /** What is asked next is right. */
  lemma AsksRight(l: Local, own: string, log: seq<Exchange>, e: Exchange)
    requires Knows(l, own, log) && Ask(l) == Some(e.request)
    ensures RightAt(l.role, own, log + [e], |log|)
  {
    hide Executed, Plan;
    Stable(l.role, log, e);
    PlanExact(l.config.options);
    assert (log + [e])[|log|] == e;
    if l.pc.Copy? {
      assert Plan(l.config.options)[l.pc.i] in Plan(l.config.options);
    }
  }

  lemma SettledStays(l: Local, own: string, log: seq<Exchange>, e: Exchange, l': Local)
    requires Settled(l, own, log) && l'.role == l.role && l'.config == l.config && l'.name == l.name
    ensures Settled(l', own, log + [e])
  {
    hide ConfigRead;
    Stable(l.role, log, e);
    assert l.role == Restoring ==> |log| > 0 by {
      assert ConfigRead(l.role, log);
      LongEnough(l.role, log);
    }
  }

  lemma LongEnough(role: Role, log: seq<Exchange>)
    requires ConfigRead(role, log)
    ensures |log| > ConfigAt(role)
  {
  }

  /** Everything before the first command can be asked for. */
  predicate Early(pc: Pc)
  {
    pc.Start? || pc.FetchBackup? || pc.FetchConfig? || pc.FetchJenkins? || pc.FetchPod? || pc.Connect? || pc.Refuse? || pc.Claim?
  }

  lemma ReadStep(l: Local, own: string, log: seq<Exchange>, e: Exchange)
    requires Knows(l, own, log) && Ask(l) == Some(e.request) && Fits(e.request, e.response)
    requires l.pc.Start? || l.pc.FetchBackup? || l.pc.FetchConfig?
    requires Executed(log + [e]) == []
    ensures Knows(Tell(l, e.response), own, log + [e])
  {
    hide Executed;
  }

  lemma FindStep(l: Local, own: string, log: seq<Exchange>, e: Exchange)
    requires Knows(l, own, log) && Ask(l) == Some(e.request) && Fits(e.request, e.response)
    requires l.pc.FetchJenkins? || l.pc.FetchPod? || l.pc.Connect?
    requires Executed(log + [e]) == []
    ensures Knows(Tell(l, e.response), own, log + [e])
  {
    hide Executed, ConfigRead, Set;
    Stable(l.role, log, e);
    LongEnough(l.role, log);
    SettledStays(l, own, log, e, Tell(l, e.response));
  }

  lemma ClaimStep(l: Local, own: string, log: seq<Exchange>, e: Exchange)
    requires Knows(l, own, log) && Ask(l) == Some(e.request) && Fits(e.request, e.response)
    requires l.pc.Refuse? || l.pc.Claim?
    requires Executed(log + [e]) == []
    ensures Knows(Tell(l, e.response), own, log + [e])
  {
    hide Executed, ConfigRead, JenkinsFound, Plan;
    Stable(l.role, log, e);
    SettledStays(l, own, log, e, Tell(l, e.response));
  }

  /** What never changes again, and where each step can lead. */
  lemma BackupLateStep(l: Local, r: Response)
    requires l.role == Backing && BackupMachine.Ask(l).Some? && Fits(BackupMachine.Ask(l).value, r)
    requires !Early(l.pc) && Allowed(l)
    ensures var l' := BackupMachine.Tell(l, r);
            && l'.role == l.role && l'.config == l.config && l'.name == l.name && !Early(l'.pc) && Allowed(l')
  {
    hide Plan, Set;
  }

  lemma RestoreLateStep(l: Local, r: Response)
    requires l.role == Restoring && RestoreMachine.Ask(l).Some? && Fits(RestoreMachine.Ask(l).value, r)
    requires !Early(l.pc) && Allowed(l)
    ensures var l' := RestoreMachine.Tell(l, r);
            && l'.role == l.role && l'.config == l.config && l'.name == l.name && !Early(l'.pc) && Allowed(l')
  {
    hide Plan, Set;
  }

  lemma LateStep(l: Local, own: string, log: seq<Exchange>, e: Exchange)
    requires Knows(l, own, log) && Ask(l) == Some(e.request) && Fits(e.request, e.response) && !Early(l.pc)
    ensures Knows(Tell(l, e.response), own, log + [e])
  {
    hide BackupMachine.Tell, RestoreMachine.Tell, ConfigRead, ClaimedBy, Executed, Plan, Settled;
    if l.role == Backing {
      BackupLateStep(l, e.response);
    } else {
      RestoreLateStep(l, e.response);
    }
    assert Working(l, own, log);
    Stable(l.role, log, e);
    SettledStays(l, own, log, e, Tell(l, e.response));
  }

  lemma {:induction false} NoCommands(log: seq<Exchange>)
    requires forall i | 0 <= i < |log| :: !log[i].request.Exec?
    ensures Executed(log) == []
    decreases |log|
  {
    if log != [] {
      NoCommands(log[..|log| - 1]);
    }
  }

  lemma ShortWhileEarly(l: Local, own: string, log: seq<Exchange>)
    requires Knows(l, own, log) && Early(l.pc)
    ensures |log| <= ConfigAt(l.role) + 4
  {
  }

  lemma EarlyExecutesNothing(l: Local, own: string, log: seq<Exchange>, e: Exchange)
    requires Knows(l, own, log) && Early(l.pc) && RightLog(l.role, own, log) && !e.request.Exec?
    ensures Executed(log + [e]) == []
  {
    hide Executed, Knows;
    ShortWhileEarly(l, own, log);
    forall i | 0 <= i < |log| ensures !log[i].request.Exec? {
      assert RightAt(l.role, own, log, i);
    }
    NoCommands(log);
    ExecutedSnoc(log, e);
  }

  lemma EarlyAsks(l: Local)
    requires Early(l.pc) && Ask(l).Some?
    ensures !Ask(l).value.Exec?
  {
  }

  lemma StepKnows(l: Local, own: string, log: seq<Exchange>, e: Exchange)
    requires Knows(l, own, log) && RightLog(l.role, own, log)
    requires Ask(l) == Some(e.request) && Fits(e.request, e.response)
    ensures Knows(Tell(l, e.response), own, log + [e]) && RightLog(l.role, own, log + [e])
  {
    hide Knows, Tell, Ask, Fits, RightAt, Executed;
    AsksRight(l, own, log, e);
    RightStays(l.role, own, log, e);
    if Early(l.pc) {
      EarlyAsks(l);
      EarlyExecutesNothing(l, own, log, e);
      if l.pc.Start? || l.pc.FetchBackup? || l.pc.FetchConfig? {
        ReadStep(l, own, log, e);
      } else if l.pc.Refuse? || l.pc.Claim? {
        ClaimStep(l, own, log, e);
      } else {
        FindStep(l, own, log, e);
      }
    } else {
      LateStep(l, own, log, e);
    }
  }

  /**
   * Over every run of either controller, whatever the answers: the Backup is looked up by the name the Restore
   * gives, the configuration by the name the Backup gives or as "default", the Jenkins by the name the configuration
   * gives; nothing is prepared before Jenkins and its pod have been found, and no command issued before the client
   * is ready and the claim acknowledged; mkdir and the copies of a Backup concern its own directory, those of a
   * Restore the directory of the Backup it refers to, and only wanted parts; and no script is run that the
   * configuration does not call for.
   */
  lemma {:induction false} EverythingIsLookedUpRight(l: Local, log: seq<Exchange>)
    requires l.pc == Start && Run(l, log).Some?
    ensures RightLog(l.role, l.name, log)
    ensures Knows(Run(l, log).value, l.name, log) && Run(l, log).value.role == l.role
    decreases |log|
  {
    if log != [] {
      hide Knows, Run, RightLog, Tell, Ask;
      var front, last := log[..|log| - 1], log[|log| - 1];
      assert log == front + [last];
      RunExtends(l, front, last);
      EverythingIsLookedUpRight(l, front);
      RoleKept(Run(l, front).value, last.response);
      StepKnows(Run(l, front).value, l.name, front, last);
    }
  }

  /** A Restore that issued any command works on the backup its object refers to, with the configuration it read. */
  lemma {:induction false} RestoresTheReferredBackup(l: Local, log: seq<Exchange>)
    requires l.role == Restoring && l.pc == Start && Run(l, log).Some? && Executed(log) != []
    requires Run(l, log).value.pc.End?
    ensures BackupRead(log) && Run(l, log).value.name == log[0].response.ref
    ensures ConfigRead(Restoring, log) && Run(l, log).value.config == ConfigOf(Restoring, log)
  {
    EverythingIsLookedUpRight(l, log);
  }
}
