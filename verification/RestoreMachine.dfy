/** The Restore reconcile as a machine: the next request, and what each answer makes of it. */
module RestoreMachine {
  import opened Common
  import opened Conditions
  import opened Protocol

  function Ask(l: Local): Option<Request>
  {
    match l.pc
    case Start => Some(GetObject)
    case FetchBackup => Some(GetBackup(l.ref))
    case FetchConfig => Some(GetConfig(ConfigName(l.ref)))
    case FetchJenkins => Some(GetJenkins(l.config.jenkinsRef))
    case FetchPod => Some(GetPod)
    case Connect => Some(InitClient)
    case Copy(i) => if i < |Plan(l.config.options)| then Some(Exec(Load(l.name, Plan(l.config.options)[i]))) else None
    case SafeRestarting => Some(Exec(SafeRestart))
    case Restarting => Some(Exec(Restart))
    case Refuse | Claim | PartFailed | CopiesDone | RestartFailed | Finish => Some(WriteStatus(l.conditions))
    case _ => None
  }

  function Note(l: Local, kind: Kind, ok: bool): Local
  {
    l.(conditions := Set(l.conditions, Condition(kind, if ok then True else False)))
  }

  function ToRestart(l: Local): Local
  {
    l.(pc := if l.config.restart && l.config.safe then SafeRestarting
             else if l.config.restart then Restarting
             else Finish)
  }

  function Tell(l: Local, r: Response): Local
  {
    var ok := r.Done?;
    match l.pc
    case Start =>
      if r.Found? && r.conditions == [] then l.(pc := FetchBackup, ref := r.ref, conditions := [])
      else l.(pc := End(r.Failed?))
    case FetchBackup =>
      if r.Found? then l.(pc := FetchConfig, name := l.ref, ref := r.ref) else l.(pc := End(r.Failed?))
    case FetchConfig =>
      if r.FoundConfig? then l.(pc := FetchJenkins, config := r.config) else l.(pc := End(r.Failed?))
    case FetchJenkins => if ok then l.(pc := FetchPod) else l.(pc := End(r.Failed?))
    case FetchPod => if ok then l.(pc := Connect) else l.(pc := End(true))
    case Connect => Note(l, RestoreInitialized, ok).(pc := if ok then Claim else Refuse)
    case Refuse => l.(pc := End(!ok))
    case Claim =>
      if !ok then l.(pc := End(true))
      else if Plan(l.config.options) == [] then ToRestart(l)
      else l.(pc := Copy(0))
    case Copy(i) =>
      if !ok then Note(l, RestoreCompleted, false).(pc := PartFailed)
      else if i + 1 < |Plan(l.config.options)| then l.(pc := Copy(i + 1))
      else Note(l, RestoreCompleted, true).(pc := CopiesDone)
    case PartFailed => if ok then ToRestart(l) else l.(pc := End(true))
    case CopiesDone => if ok then ToRestart(l) else l.(pc := End(true))
    case SafeRestarting => Note(l, SafeRestartStarted, ok).(pc := if ok then Finish else RestartFailed)
    case Restarting => Note(l, RestartStarted, ok).(pc := if ok then Finish else RestartFailed)
    case RestartFailed => l.(pc := if ok then Finish else End(true))
    case Finish => l.(pc := End(!ok))
    case _ => l.(pc := End(true))
  }
}
