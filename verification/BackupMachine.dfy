/** The Backup reconcile as a machine: the next request, and what each answer makes of it. */
module BackupMachine {
  import opened Common
  import opened Conditions
  import opened Protocol

  function Ask(l: Local): Option<Request>
  {
    match l.pc
    case Start => Some(GetObject)
    case FetchConfig => Some(GetConfig(ConfigName(l.ref)))
    case FetchJenkins => Some(GetJenkins(l.config.jenkinsRef))
    case FetchPod => Some(GetPod)
    case Connect => Some(InitClient)
    case Quiet => Some(Exec(QuietDown))
    case MkDir => Some(Exec(MakeDirectory(l.name)))
    case Copy(i) => if i < |Plan(l.config.options)| then Some(Exec(Save(l.name, Plan(l.config.options)[i]))) else None
    case Cancel => Some(Exec(CancelQuietDown))
    case Refuse | Claim | QuietWrite | PartFailed | CopiesDone | CancelWrite | Finish => Some(WriteStatus(l.conditions))
    case _ => None
  }

  function Note(l: Local, kind: Kind, ok: bool): Local
  {
    l.(conditions := Set(l.conditions, Condition(kind, if ok then True else False)))
  }

  function ToFinish(l: Local): Local
  {
    Note(l, BackupCompleted, true).(pc := Finish)
  }

  function ToCancel(l: Local): Local
  {
    if l.config.quietDown then l.(pc := Cancel) else ToFinish(l)
  }

  function Tell(l: Local, r: Response): Local
  {
    var ok := r.Done?;
    match l.pc
    case Start =>
      if r.Found? && r.conditions == [] then l.(pc := FetchConfig, ref := r.ref, conditions := [])
      else l.(pc := End(r.Failed?))
    case FetchConfig =>
      if r.FoundConfig? then l.(pc := FetchJenkins, config := r.config) else l.(pc := End(r.Failed?))
    case FetchJenkins => if ok then l.(pc := FetchPod) else l.(pc := End(r.Failed?))
    case FetchPod => if ok then l.(pc := Connect) else l.(pc := End(true))
    case Connect => Note(l, BackupInitialized, ok).(pc := if ok then Claim else Refuse)
    case Refuse => l.(pc := End(!ok))
    case Claim => if ok then l.(pc := if l.config.quietDown then Quiet else MkDir) else l.(pc := End(true))
    case Quiet => Note(l, QuietDownStarted, ok).(pc := QuietWrite)
    case QuietWrite => if ok then l.(pc := MkDir) else l.(pc := End(true))
    case MkDir =>
      if !ok then Note(l, BackupCompleted, false).(pc := PartFailed)
      else if Plan(l.config.options) == [] then ToCancel(l)
      else l.(pc := Copy(0))
    case Copy(i) =>
      if !ok then Note(l, BackupCompleted, false).(pc := PartFailed)
      else if i + 1 < |Plan(l.config.options)| then l.(pc := Copy(i + 1))
      else l.(pc := CopiesDone)
    case PartFailed => if ok then ToCancel(l) else l.(pc := End(true))
    case CopiesDone => if ok then ToCancel(l) else l.(pc := End(true))
    case Cancel => Note(l, QuietDownCancelled, ok).(pc := CancelWrite)
    case CancelWrite => if ok then ToFinish(l) else l.(pc := End(true))
    case Finish => l.(pc := End(!ok))
    case _ => l.(pc := End(true))
  }
}
