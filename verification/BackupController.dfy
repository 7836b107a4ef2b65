/** The Backup reconciler, step by step, proved to follow the Backup machine. */
module BackupController {
  import opened Common
  import opened Conditions
  import opened Protocol
  import opened Runs
  import opened Clusters

  class BackupReconciler {
    const cluster: Cluster
    const name: string
    var conditions: seq<Condition>

    constructor (cluster: Cluster, name: string)
      ensures this.cluster == cluster && this.name == name && conditions == []
    {
      this.cluster := cluster;
      this.name := name;
      conditions := [];
    }

    /** The machine of this reconcile stands at `pc` with the conditions held in memory. */
    ghost predicate At(pc: Pc)
      reads this, cluster
    {
      && cluster.Valid()
      && cluster.machine.role == Backing && cluster.machine.name == name
      && cluster.machine.pc == pc && cluster.machine.conditions == conditions
    }

    method SetCondition(kind: Kind, ok: bool)
      modifies this`conditions
      ensures conditions == Set(old(conditions), Condition(kind, if ok then True else False))
    {
      conditions := Set(conditions, Condition(kind, if ok then True else False));
    }

    method UpdateStatus() returns (err: bool)
      requires cluster.Valid() && Ask(cluster.machine) == Some(WriteStatus(conditions))
      modifies cluster
      ensures cluster.Valid()
      ensures cluster.machine == Tell(old(cluster.machine), if err then Failed else Done)
    {
      var r := cluster.Send(WriteStatus(conditions));
      err := r.Failed?;
    }

    method MakeRequest(command: Command) returns (err: bool)
      requires cluster.Valid() && Ask(cluster.machine) == Some(Exec(command))
      modifies cluster
      ensures cluster.Valid()
      ensures cluster.machine == Tell(old(cluster.machine), if err then Failed else Done)
    {
      var r := cluster.Send(Exec(command));
      err := r.Failed?;
    }

    method PerformJenkinsQuietDown() returns (err: bool)
      requires At(Quiet)
      modifies this`conditions, cluster
      ensures At(if err then End(true) else MkDir)
      ensures cluster.machine.config == old(cluster.machine.config)
    {
      var failed := MakeRequest(QuietDown);
      if failed {
        SetCondition(QuietDownStarted, false);
        err := UpdateStatus();
        return;
      }
      SetCondition(QuietDownStarted, true);
      err := UpdateStatus();
    }

    method PerformJenkinsCancelQuietDown() returns (err: bool)
      requires At(Cancel)
      modifies this`conditions, cluster
      ensures err ==> At(End(true))
      ensures !err ==> Completing()
      ensures cluster.machine.config == old(cluster.machine.config)
    {
      var failed := MakeRequest(CancelQuietDown);
      if failed {
        SetCondition(QuietDownCancelled, false);
        err := UpdateStatus();
        return;
      }
      SetCondition(QuietDownCancelled, true);
      err := UpdateStatus();
    }

    /** The machine is about to write the final condition; in memory it has not been set yet. */
    ghost predicate Completing()
      reads this, cluster
    {
      && cluster.Valid()
      && cluster.machine.role == Backing && cluster.machine.name == name && cluster.machine.pc == Finish
      && cluster.machine.conditions == Set(conditions, Condition(BackupCompleted, True))
    }

    method PerformJenkinsBackup(config: BackupConfig) returns (err: bool)
      requires At(MkDir) && cluster.machine.config == config
      modifies this`conditions, cluster
      ensures err ==> At(End(true))
      ensures !err ==> if config.quietDown then At(Cancel) else Completing()
      ensures cluster.machine.config == config
    {
      hide Run, Set, Plan;
      var failed := MakeRequest(MakeDirectory(name));
      if failed {
        SetCondition(BackupCompleted, false);
        err := UpdateStatus();
        return;
      }
      var parts := SelectedParts(config.options);
      if |parts| > 0 {
        for i := 0 to |parts|
          invariant cluster.machine.config == config
          invariant At(if i < |parts| then Copy(i) else CopiesDone)
        {
          failed := MakeRequest(Save(name, parts[i]));
          if failed {
            SetCondition(BackupCompleted, false);
            err := UpdateStatus();
            return;
          }
        }
        err := UpdateStatus();
        return;
      }
      err := false;
    }

    /** The reads of one reconcile, up to the exec client. Without a configuration the reconcile is over. */
    method Fetch() returns (found: Option<BackupConfig>, err: bool)
      requires cluster.Valid() && conditions == []
      requires cluster.machine.role == Backing && cluster.machine.name == name
      requires cluster.machine.pc == Start
      modifies this`conditions, cluster
      ensures cluster.Valid()
      ensures found.None? ==> cluster.machine.pc == End(err)
      ensures found.Some? ==> At(Connect) && cluster.machine.config == found.value
    {
      found := None;
      var instance := cluster.Send(GetObject);
      if !instance.Found? {
        return None, instance.Failed?;
      }
      conditions := instance.conditions;
      if |conditions| > 0 {
        return None, false;
      }
      var configName := DEFAULT_CONFIG_NAME;
      if instance.ref != "" {
        configName := instance.ref;
      }
      var config := cluster.Send(GetConfig(configName));
      if !config.FoundConfig? {
        return None, config.Failed?;
      }
      var jenkins := cluster.Send(GetJenkins(config.config.jenkinsRef));
      if !jenkins.Done? {
        return None, jenkins.Failed?;
      }
      var pod := cluster.Send(GetPod);
      if pod.Failed? {
        return None, true;
      }
      return Some(config.config), false;
    }

    /** Prepares the exec client and claims the Backup by its first condition. */
    method Claim() returns (claimed: bool, err: bool)
      requires At(Connect)
      modifies this`conditions, cluster
      ensures cluster.machine.config == old(cluster.machine.config)
      ensures claimed ==> At(if cluster.machine.config.quietDown then Quiet else MkDir)
      ensures !claimed ==> At(End(err))
    {
      var client := cluster.Send(InitClient);
      if client.Failed? {
        SetCondition(BackupInitialized, false);
        err := UpdateStatus();
        return false, err;
      }
      SetCondition(BackupInitialized, true);
      err := UpdateStatus();
      claimed := !err;
    }

    /** Everything after the claim. */
    method Work(config: BackupConfig) returns (err: bool)
      requires At(if config.quietDown then Quiet else MkDir) && cluster.machine.config == config
      modifies this`conditions, cluster
      ensures cluster.Valid() && cluster.machine.pc == End(err)
    {
      hide Set, Run;
      if config.quietDown {
        err := PerformJenkinsQuietDown();
        if err {
          return;
        }
      }
      err := PerformJenkinsBackup(config);
      if err {
        return;
      }
      if config.quietDown {
        err := PerformJenkinsCancelQuietDown();
        if err {
          return;
        }
      }
      SetCondition(BackupCompleted, true);
      err := UpdateStatus();
    }

    /** One reconcile. The whole log is a run of the Backup machine, ended with the returned error. */
    method Reconcile() returns (err: bool)
      requires cluster.Valid() && cluster.log == [] && conditions == []
      requires cluster.machine.role == Backing && cluster.machine.name == name
      requires cluster.machine.pc == Start
      modifies this`conditions, cluster
      ensures cluster.Valid() && cluster.machine.pc == End(err)
      ensures Run(cluster.start, cluster.log) == Some(cluster.machine)
    {
      hide Set;
      var found, fetchErr := Fetch();
      if found.None? {
        return fetchErr;
      }
      var config := found.value;
      var claimed, claimErr := Claim();
      if !claimed {
        return claimErr;
      }
      err := Work(config);
    }
  }
}
