/** The Jenkins reconcile as a machine over its status conditions. */
module JenkinsMachine {
  import opened Common
  import opened Conditions

  /** How the reconciliation proper ended. Only Errored comes back as an error; the others are reported as success. */
  datatype Work = Succeeded | Rejected | Postponed | Errored

  datatype Request = GetJenkins | WriteStatus(conditions: seq<Condition>) | DoWork

  datatype Response = Missing | Failed | Done | Found(conditions: seq<Condition>) | Worked(work: Work)

  predicate Fits(q: Request, r: Response)
  {
    match q
    case GetJenkins => r.Missing? || r.Failed? || r.Found?
    case WriteStatus(_) => r.Failed? || r.Done?
    case DoWork => r.Worked?
  }

  /** `first` tells the update before the work from the one after it. */
  datatype Pc =
    | Start | WriteInitial | Reload(first: bool) | WriteReloaded(first: bool)
    | Working | WriteDegraded | WriteCompleted | End(err: bool)

  datatype Local = Local(pc: Pc, conditions: seq<Condition>)

  /** The five conditions, ReconciliationComplete, Available, Progressing and Upgradeable as at the start. */
  function Started(degraded: Status): seq<Condition>
  {
    [Condition(ReconciliationComplete, Unknown), Condition(Available, False), Condition(Progressing, True),
     Condition(Degraded, degraded), Condition(Upgradeable, Unknown)]
  }

  /** The five conditions, the same four as at the end. */
  function Finished(degraded: Status): seq<Condition>
  {
    [Condition(ReconciliationComplete, True), Condition(Available, True), Condition(Progressing, False),
     Condition(Degraded, degraded), Condition(Upgradeable, True)]
  }

  /** Sets one condition after the other. */
  function SetAll(cs: seq<Condition>, news: seq<Condition>): seq<Condition>
    decreases |news|
  {
    if news == [] then cs else SetAll(Set(cs, news[0]), news[1..])
  }

  function SetInitial(cs: seq<Condition>): seq<Condition>
  {
    SetAll(cs, Started(False))
  }

  function SetCompleted(cs: seq<Condition>): seq<Condition>
  {
    SetAll(cs, Finished(False))
  }

  function SetDegraded(cs: seq<Condition>): seq<Condition>
  {
    Set(cs, Condition(Degraded, True))
  }

  function Ask(l: Local): Option<Request>
  {
    match l.pc
    case Start | Reload(_) => Some(GetJenkins)
    case WriteInitial | WriteReloaded(_) | WriteDegraded | WriteCompleted => Some(WriteStatus(l.conditions))
    case Working => Some(DoWork)
    case End(_) => None
  }

  /** After an update that went through: on to the work, or done. */
  function Updated(l: Local, first: bool): Local
  {
    l.(pc := if first then Working else End(false))
  }

  function Tell(l: Local, r: Response): Local
  {
    match l.pc
    case Start =>
      if r.Found? then
        if r.conditions == [] then Local(WriteInitial, SetInitial([])) else Local(Working, r.conditions)
      else l.(pc := End(r.Failed?))
    case WriteInitial => if r.Done? then Updated(l, true) else l.(pc := Reload(true))
    case Reload(first) => if r.Found? then Local(WriteReloaded(first), SetCompleted(r.conditions)) else l.(pc := End(true))
    case WriteReloaded(first) => if r.Done? then Updated(l, first) else l.(pc := End(true))
    case Working =>
      if r.Worked? && !r.work.Errored? then Local(WriteCompleted, SetCompleted(l.conditions))
      else Local(WriteDegraded, SetDegraded(l.conditions))
    case WriteDegraded => l.(pc := End(!r.Done?))
    case WriteCompleted => if r.Done? then Updated(l, false) else l.(pc := Reload(false))
    case End(_) => l
  }

  datatype Exchange = Exchange(request: Request, response: Response)

  /** The state reached from `l` if the log is one the machine produces. */
  function Run(l: Local, log: seq<Exchange>): Option<Local>
  {
    if log == [] then Some(l)
    else
      var last := log[|log| - 1];
      match Run(l, log[..|log| - 1])
      case None => None
      case Some(m) =>
        if Ask(m) == Some(last.request) && Fits(last.request, last.response) then Some(Tell(m, last.response)) else None
  }

  lemma RunSnoc(l: Local, log: seq<Exchange>, e: Exchange)
    requires Run(l, log).Some?
    requires Ask(Run(l, log).value) == Some(e.request) && Fits(e.request, e.response)
    ensures Run(l, log + [e]) == Some(Tell(Run(l, log).value, e.response))
  {
    assert (log + [e])[..|log|] == log;
  }

  predicate WorkFailed(log: seq<Exchange>)
  {
    Exchange(DoWork, Worked(Errored)) in log
  }

  /** The last write, acknowledged or not, says Degraded. */
  predicate EndsDegraded(log: seq<Exchange>, err: bool)
  {
    |log| > 0 && var e := log[|log| - 1];
    e.request.WriteStatus? && StatusOf(e.request.conditions, Degraded) == Some(True) && e.response.Done? == !err
  }

  predicate FailureInv(m: Local, log: seq<Exchange>)
  {
    match m.pc
    case WriteDegraded => WorkFailed(log) && StatusOf(m.conditions, Degraded) == Some(True)
    case End(err) => WorkFailed(log) ==> EndsDegraded(log, err)
    case _ => !WorkFailed(log)
  }

  lemma {:induction false} RunFailure(log: seq<Exchange>)
    requires Run(Local(Start, []), log).Some?
    ensures FailureInv(Run(Local(Start, []), log).value, log)
    decreases |log|
  {
    if log != [] {
      var front, last := log[..|log| - 1], log[|log| - 1];
      assert log == front + [last];
      RunFailure(front);
      var m := Run(Local(Start, []), front).value;
      FailureStep(m, front, last);
    }
  }

  lemma FailureStep(m: Local, log: seq<Exchange>, e: Exchange)
    requires FailureInv(m, log) && Ask(m) == Some(e.request) && Fits(e.request, e.response)
    ensures FailureInv(Tell(m, e.response), log + [e])
  {
    if m.pc.Working? {
      SetLookup(m.conditions, Condition(Degraded, True), Degraded);
      assert (log + [e])[|log|] == e;
    } else {
      assert WorkFailed(log + [e]) <==> WorkFailed(log);
    }
  }

  /**
   * What a reconcile returns after its work has failed: not that error but the outcome of writing Degraded=True,
   * so the request is retried if and only if the failure could not be recorded.
   */
  lemma RetriedIffNotRecorded(log: seq<Exchange>)
    requires Run(Local(Start, []), log).Some? && Run(Local(Start, []), log).value.pc.End? && WorkFailed(log)
    ensures EndsDegraded(log, Run(Local(Start, []), log).value.pc.err)
  {
    RunFailure(log);
  }

  /** A run whose work fails and that ends without an error: nobody will retry it. */
  lemma FailureNotRetried(cs: seq<Condition>) returns (log: seq<Exchange>)
    requires cs != []
    ensures WorkFailed(log) && Run(Local(Start, []), log) == Some(Local(End(false), SetDegraded(cs)))
  {
    var l := Local(Start, []);
    log := [] + [Exchange(GetJenkins, Found(cs))];
    RunSnoc(l, [], Exchange(GetJenkins, Found(cs)));
    RunSnoc(l, log, Exchange(DoWork, Worked(Errored)));
    log := log + [Exchange(DoWork, Worked(Errored))];
    assert log[1] == Exchange(DoWork, Worked(Errored));
    var write := Exchange(WriteStatus(SetDegraded(cs)), Done);
    RunSnoc(l, log, write);
    log := log + [write];
    assert log[1] == Exchange(DoWork, Worked(Errored));
  }

  /**
   * What a reconcile returns: an error if and only if the last answer it got was a failure, or the object had gone
   * when it was read a second time. A failed first read is retried, an object that is gone at first is not.
   */
  lemma {:induction false} ErrorIsTheLastAnswer(log: seq<Exchange>)
    requires Run(Local(Start, []), log).Some? && Run(Local(Start, []), log).value.pc.End?
    ensures log != []
    ensures var last := log[|log| - 1].response;
            Run(Local(Start, []), log).value.pc.err == (last.Failed? || (last.Missing? && |log| > 1))
  {
    if log != [] {
      var front := log[..|log| - 1];
      OnlyStartIsFirst(front);
      StepError(Run(Local(Start, []), front).value, log[|log| - 1].response);
    }
  }

  lemma {:induction false} OnlyStartIsFirst(log: seq<Exchange>)
    requires Run(Local(Start, []), log).Some?
    ensures Run(Local(Start, []), log).value.pc.Start? <==> log == []
    decreases |log|
  {
    if log != [] {
      var front := log[..|log| - 1];
      OnlyStartIsFirst(front);
      StepError(Run(Local(Start, []), front).value, log[|log| - 1].response);
    }
  }

  lemma StepError(m: Local, r: Response)
    requires Ask(m).Some? && Fits(Ask(m).value, r)
    ensures var m' := Tell(m, r);
            !m'.pc.Start? && (m'.pc.End? ==> m'.pc.err == (r.Failed? || (r.Missing? && !m.pc.Start?)))
  {
    hide SetInitial, SetCompleted, SetDegraded;
  }
}
