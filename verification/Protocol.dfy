/** Vocabulary of the Backup and Restore controllers: what they ask of the cluster and what it answers. */
module Protocol {
  import opened Conditions

  datatype Options = Options(config: bool, jobs: bool, plugins: bool)

  datatype BackupConfig = BackupConfig(
    jenkinsRef: string, quietDown: bool, options: Options, restart: bool, safe: bool)

  const DEFAULT_CONFIG_NAME := "default"

  /** The three sub-locations `*.xml`, `jobs` and `plugins`. */
  datatype Part = Xml | Jobs | Plugins

  /** The sub-locations selected by the options, in the order both controllers visit them. */
  function Plan(o: Options): (r: seq<Part>)
  {
    (if o.config then [Xml] else []) + (if o.jobs then [Jobs] else []) + (if o.plugins then [Plugins] else [])
  }

  datatype Command =
    | QuietDown | CancelQuietDown | Restart | SafeRestart
    | MakeDirectory(backup: string)
    | Save(backup: string, part: Part)
    | Load(backup: string, part: Part)

  datatype Request =
    | GetObject
    | GetBackup(name: string)
    | GetConfig(name: string)
    | GetJenkins(name: string)
    | GetPod
    | InitClient
    | WriteStatus(conditions: seq<Condition>)
    | Exec(command: Command)

  /** `ref` is `spec.configRef` of a Backup or `spec.backupRef` of a Restore. */
  datatype Response =
    | Missing
    | Failed
    | Done
    | Found(conditions: seq<Condition>, ref: string)
    | FoundConfig(config: BackupConfig)

  /** The answers a request can get. */
  predicate Fits(q: Request, r: Response)
  {
    match q
    case GetObject => r.Missing? || r.Failed? || r.Found?
    case GetBackup(_) => r.Missing? || r.Failed? || r.Found?
    case GetConfig(_) => r.Missing? || r.Failed? || r.FoundConfig?
    case GetJenkins(_) => r.Missing? || r.Failed? || r.Done?
    case _ => r.Failed? || r.Done?
  }

  datatype Exchange = Exchange(request: Request, response: Response)

  function ConfigName(ref: string): string
  {
    if ref != "" then ref else DEFAULT_CONFIG_NAME
  }

  datatype Role = Backing | Restoring

  /** Where a reconcile stands. Every value but End issues exactly one request. */
  datatype Pc =
    | Start | FetchBackup | FetchConfig | FetchJenkins | FetchPod | Connect
    | Refuse | Claim
    | Quiet | QuietWrite | MkDir | Copy(i: nat) | PartFailed | CopiesDone | Cancel | CancelWrite
    | SafeRestarting | Restarting | RestartFailed
    | Finish | End(err: bool)

  /** `name` names the backup directory; `ref` is the reference read from the object. */
  datatype Local = Local(
    role: Role, pc: Pc, name: string, ref: string, config: BackupConfig, conditions: seq<Condition>)

  function Fresh(role: Role, name: string, config: BackupConfig): Local
  {
    Local(role, Start, name, "", config, [])
  }

  /** Whether the claim write has been acknowledged. */
  predicate Claimed(pc: Pc)
  {
    !(pc.Start? || pc.FetchBackup? || pc.FetchConfig? || pc.FetchJenkins? || pc.FetchPod? ||
      pc.Connect? || pc.Refuse? || pc.Claim? || pc.End?)
  }

  /** Whether the object has been read and found without conditions, and nothing has been claimed yet. */
  predicate Undecided(pc: Pc)
  {
    pc.FetchBackup? || pc.FetchConfig? || pc.FetchJenkins? || pc.FetchPod? || pc.Connect? || pc.Refuse? || pc.Claim?
  }
}
