/** The Restore reconciler, step by step, proved to follow the Restore machine. */
module RestoreController {
  import opened Common
  import opened Conditions
  import opened Protocol
  import opened Runs
  import opened Clusters

  class RestoreReconciler {
    const cluster: Cluster
    var conditions: seq<Condition>

    constructor (cluster: Cluster)
      ensures this.cluster == cluster && conditions == []
    {
      this.cluster := cluster;
      conditions := [];
    }

    /** The machine of this reconcile stands at `pc` with the conditions held in memory. */
    ghost predicate At(pc: Pc, config: BackupConfig)
      reads this, cluster
    {
      && cluster.Valid()
      && cluster.machine.role == Restoring && cluster.machine.config == config
      && cluster.machine.pc == pc && cluster.machine.conditions == conditions
    }

    method SetCondition(kind: Kind, ok: bool)
      modifies this`conditions
      ensures conditions == Set(old(conditions), Condition(kind, if ok then True else False))
    {
      conditions := Set(conditions, Condition(kind, if ok then True else False));
    }

    method UpdateStatus() returns (err: bool)
      requires cluster.Valid() && Ask(cluster.machine) == Some(WriteStatus(conditions))
      modifies cluster
      ensures cluster.Valid()
      ensures cluster.machine == Tell(old(cluster.machine), if err then Failed else Done)
    {
      var r := cluster.Send(WriteStatus(conditions));
      err := r.Failed?;
    }

    method MakeRequest(command: Command) returns (err: bool)
      requires cluster.Valid() && Ask(cluster.machine) == Some(Exec(command))
      modifies cluster
      ensures cluster.Valid()
      ensures cluster.machine == Tell(old(cluster.machine), if err then Failed else Done)
    {
      var r := cluster.Send(Exec(command));
      err := r.Failed?;
    }

    method PerformJenkinsRestart(ghost config: BackupConfig) returns (err: bool)
      requires At(Restarting, config)
      modifies this`conditions, cluster
      ensures At(if err then End(true) else Finish, config)
    {
      var failed := MakeRequest(Restart);
      if failed {
        SetCondition(RestartStarted, false);
        err := UpdateStatus();
        return;
      }
      SetCondition(RestartStarted, true);
      err := false;
    }

    method PerformJenkinsSafeRestart(ghost config: BackupConfig) returns (err: bool)
      requires At(SafeRestarting, config)
      modifies this`conditions, cluster
      ensures At(if err then End(true) else Finish, config)
    {
      var failed := MakeRequest(SafeRestart);
      if failed {
        SetCondition(SafeRestartStarted, false);
        err := UpdateStatus();
        return;
      }
      SetCondition(SafeRestartStarted, true);
      err := false;
    }

    /** Where the machine stands once the copies are over. */
    ghost function AfterCopies(config: BackupConfig): Pc
    {
      if config.restart && config.safe then SafeRestarting else if config.restart then Restarting else Finish
    }

    method PerformJenkinsRestore(backup: string, config: BackupConfig) returns (err: bool)
      requires At(if Plan(config.options) == [] then AfterCopies(config) else Copy(0), config)
      requires cluster.machine.name == backup
      modifies this`conditions, cluster
      ensures At(if err then End(true) else AfterCopies(config), config)
    {
      hide Run, Set, Plan;
      var parts := SelectedParts(config.options);
      if |parts| > 0 {
        for i := 0 to |parts|
          invariant cluster.machine.name == backup
          invariant if i < |parts| then At(Copy(i), config) else LastCopyDone(config)
        {
          var failed := MakeRequest(Load(backup, parts[i]));
          if failed {
            SetCondition(RestoreCompleted, false);
            err := UpdateStatus();
            return;
          }
        }
        SetCondition(RestoreCompleted, true);
        err := UpdateStatus();
        return;
      }
      err := false;
    }

    /** The machine is about to write RestoreCompleted=True; in memory it has not been set yet. */
    ghost predicate LastCopyDone(config: BackupConfig)
      reads this, cluster
    {
      && cluster.Valid()
      && cluster.machine.role == Restoring && cluster.machine.config == config && cluster.machine.pc == CopiesDone
      && cluster.machine.conditions == Set(conditions, Condition(RestoreCompleted, True))
    }

    /** The reads of one reconcile, up to the exec client. Without a configuration the reconcile is over. */
    method Fetch() returns (found: Option<(string, BackupConfig)>, err: bool)
      requires cluster.Valid() && conditions == []
      requires cluster.machine.role == Restoring && cluster.machine.pc == Start
      modifies this`conditions, cluster
      ensures cluster.Valid()
      ensures found.None? ==> cluster.machine.pc == End(err)
      ensures found.Some? ==> At(Connect, found.value.1) && cluster.machine.name == found.value.0
    {
      found := None;
      var instance := cluster.Send(GetObject);
      if !instance.Found? {
        return None, instance.Failed?;
      }
      conditions := instance.conditions;
      if |conditions| > 0 {
        return None, false;
      }
      var backup := cluster.Send(GetBackup(instance.ref));
      if !backup.Found? {
        return None, backup.Failed?;
      }
      var configName := DEFAULT_CONFIG_NAME;
      if backup.ref != "" {
        configName := backup.ref;
      }
      var config := cluster.Send(GetConfig(configName));
      if !config.FoundConfig? {
        return None, config.Failed?;
      }
      var jenkins := cluster.Send(GetJenkins(config.config.jenkinsRef));
      if !jenkins.Done? {
        return None, jenkins.Failed?;
      }
      var pod := cluster.Send(GetPod);
      if pod.Failed? {
        return None, true;
      }
      return Some((instance.ref, config.config)), false;
    }

    /** Prepares the exec client and claims the Restore by its first condition. */
    method Claim(ghost config: BackupConfig) returns (claimed: bool, err: bool)
      requires At(Connect, config)
      modifies this`conditions, cluster
      ensures cluster.machine.name == old(cluster.machine.name)
      ensures claimed ==> At(if Plan(config.options) == [] then AfterCopies(config) else Copy(0), config)
      ensures !claimed ==> At(End(err), config)
    {
      var client := cluster.Send(InitClient);
      if client.Failed? {
        SetCondition(RestoreInitialized, false);
        err := UpdateStatus();
        return false, err;
      }
      SetCondition(RestoreInitialized, true);
      err := UpdateStatus();
      claimed := !err;
    }

    /** The restart, if one is configured, and the last write. */
    method RestartAndRecord(config: BackupConfig) returns (err: bool)
      requires At(AfterCopies(config), config)
      modifies this`conditions, cluster
      ensures cluster.Valid() && cluster.machine.pc == End(err)
    {
      hide Set, Run;
      if config.restart && config.safe {
        err := PerformJenkinsSafeRestart(config);
        if err {
          return;
        }
      } else if config.restart {
        err := PerformJenkinsRestart(config);
        if err {
          return;
        }
      }
      err := UpdateStatus();
    }

    /** One reconcile. The whole log is a run of the Restore machine, ended with the returned error. */
    method Reconcile() returns (err: bool)
      requires cluster.Valid() && cluster.log == [] && conditions == []
      requires cluster.machine.role == Restoring && cluster.machine.pc == Start
      modifies this`conditions, cluster
      ensures cluster.Valid() && cluster.machine.pc == End(err)
      ensures Run(cluster.start, cluster.log) == Some(cluster.machine)
    {
      hide Set;
      var found, fetchErr := Fetch();
      if found.None? {
        return fetchErr;
      }
      var backup, config := found.value.0, found.value.1;
      var claimed, claimErr := Claim(config);
      if !claimed {
        return claimErr;
      }
      err := PerformJenkinsRestore(backup, config);
      if err {
        return;
      }
      err := RestartAndRecord(config);
    }
  }
}
