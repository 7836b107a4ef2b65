/** The Jenkins reconciler's handling of its status, step by step, proved to follow the machine. */
module JenkinsController {
  import opened Common
  import opened Conditions
  import opened JenkinsMachine
  import opened JenkinsStages

  /** The API server and the reconciliation proper, with answers that are fixed but arbitrary. */
  class Server {
    const answers: nat -> Response
    var log: seq<Exchange>
    ghost var machine: Local

    ghost predicate Valid()
      reads this
    {
      Run(Local(Start, []), log) == Some(machine)
    }

    constructor (answers: nat -> Response)
      ensures Valid() && log == [] && machine == Local(Start, []) && this.answers == answers
    {
      this.answers := answers;
      log := [];
      machine := Local(Start, []);
    }

    method Send(q: Request) returns (r: Response)
      requires Valid() && Ask(machine) == Some(q)
      modifies this
      ensures Valid() && Fits(q, r)
      ensures log == old(log) + [Exchange(q, r)]
      ensures machine == Tell(old(machine), r)
    {
      r := answers(|log|);
      if !Fits(q, r) {
        r := if q.DoWork? then Worked(Errored) else Failed;
      }
      RunSnoc(Local(Start, []), log, Exchange(q, r));
      log := log + [Exchange(q, r)];
      machine := Tell(machine, r);
    }
  }

  class JenkinsReconciler {
    const server: Server
    var conditions: seq<Condition>

    constructor (server: Server)
      ensures this.server == server && conditions == []
    {
      this.server := server;
      conditions := [];
    }

    ghost predicate At(pc: Pc)
      reads this, server
    {
      server.Valid() && server.machine == Local(pc, conditions)
    }

    method SetStatusCondition(kind: Kind, status: Status)
      modifies this`conditions
      ensures conditions == Set(old(conditions), Condition(kind, status))
    {
      conditions := Set(conditions, Condition(kind, status));
    }

    /** The five final statuses, whatever was there; what the operator itself had there becomes exactly the final list. */
    method SetStatusConditions()
      modifies this`conditions
      ensures conditions == SetAll(old(conditions), Finished(False))
      ensures Shaped(old(conditions)) ==> conditions == Finished(False)
      ensures forall kind :: StatusOf(conditions, kind) ==
                if StatusOf(Finished(False), kind).Some? then StatusOf(Finished(False), kind) else StatusOf(old(conditions), kind)
    {
      hide Set, SetAll, Shaped, StatusOf;
      ghost var before := conditions;
      SetStatusCondition(ReconciliationComplete, True);
      SetStatusCondition(Conditions.Available, True);
      SetStatusCondition(Progressing, False);
      SetStatusCondition(Degraded, False);
      SetStatusCondition(Upgradeable, True);
      SetAllFive(before, Finished(False));
      if Shaped(before) {
        CompletedConditions(before);
      }
      forall kind ensures StatusOf(conditions, kind) ==
                if StatusOf(Finished(False), kind).Some? then StatusOf(Finished(False), kind) else StatusOf(before, kind)
      {
        SetAllLookup(before, Finished(False), kind);
      }
    }

    /** The five first statuses, whatever was there; on an object without conditions exactly the first list. */
    method SetInitialConditions()
      modifies this`conditions
      ensures conditions == SetAll(old(conditions), Started(False))
      ensures old(conditions) == [] ==> conditions == Started(False)
      ensures forall kind :: StatusOf(conditions, kind) ==
                if StatusOf(Started(False), kind).Some? then StatusOf(Started(False), kind) else StatusOf(old(conditions), kind)
    {
      hide Set, SetAll, StatusOf;
      ghost var before := conditions;
      SetStatusCondition(ReconciliationComplete, Unknown);
      SetStatusCondition(Conditions.Available, False);
      SetStatusCondition(Progressing, True);
      SetStatusCondition(Degraded, False);
      SetStatusCondition(Upgradeable, Unknown);
      SetAllFive(before, Started(False));
      InitialConditions();
      forall kind ensures StatusOf(conditions, kind) ==
                if StatusOf(Started(False), kind).Some? then StatusOf(Started(False), kind) else StatusOf(before, kind)
      {
        SetAllLookup(before, Started(False), kind);
      }
    }

    /** Writes the status; if that fails, rereads the object and writes the final conditions instead. */
    method UpdateJenkinsStatus(ghost first: bool) returns (err: bool)
      requires At(if first then WriteInitial else WriteCompleted)
      modifies this`conditions, server
      ensures err ==> server.Valid() && server.machine.pc == End(true)
      ensures !err ==> At(if first then Working else End(false))
    {
      hide Set, Run;
      var r := server.Send(WriteStatus(conditions));
      if r.Failed? {
        r := server.Send(GetJenkins);
        if !r.Found? {
          return true;
        }
        conditions := r.conditions;
        SetStatusConditions();
        r := server.Send(WriteStatus(conditions));
        return r.Failed?;
      }
      err := false;
    }

    /** Reads the object and gives it its first conditions. Unless `going`, the reconcile is over. */
    method Begin() returns (going: bool, err: bool)
      requires server.Valid() && server.machine.pc == Start
      modifies this`conditions, server
      ensures going ==> At(Working)
      ensures !going ==> server.Valid() && server.machine.pc == End(err)
    {
      var r := server.Send(GetJenkins);
      if !r.Found? {
        return false, r.Failed?;
      }
      conditions := r.conditions;
      if conditions == [] {
        SetInitialConditions();
        err := UpdateJenkinsStatus(true);
        return !err, err;
      }
      return true, false;
    }

    /** The work and what is recorded of it. */
    method Conclude() returns (err: bool)
      requires At(Working)
      modifies this`conditions, server
      ensures server.Valid() && server.machine.pc == End(err)
    {
      var r := server.Send(DoWork);
      if r.work.Errored? {
        SetStatusCondition(Degraded, True);
        r := server.Send(WriteStatus(conditions));
        return r.Failed?;
      }
      SetStatusConditions();
      err := UpdateJenkinsStatus(false);
    }

    /** One reconcile. The whole log is a run of the machine, ended with the returned error. */
    method Reconcile() returns (err: bool)
      requires server.Valid() && server.log == [] && conditions == []
      modifies this`conditions, server
      ensures server.Valid() && server.machine.pc == End(err)
      ensures Run(Local(Start, []), server.log) == Some(server.machine)
    {
      assert server.machine == Local(Start, []);
      var going;
      going, err := Begin();
      if going {
        err := Conclude();
      }
    }
  }
}
