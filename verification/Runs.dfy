/** Runs of a reconcile: a log of exchanges with the cluster that the machine would have produced. */
module Runs {
  import opened Common
  import opened Conditions
  import opened Protocol
  import BackupMachine
  import RestoreMachine

  function Ask(l: Local): Option<Request>
  {
    if l.role == Backing then BackupMachine.Ask(l) else RestoreMachine.Ask(l)
  }

  function Tell(l: Local, r: Response): Local
  {
    if l.role == Backing then BackupMachine.Tell(l, r) else RestoreMachine.Tell(l, r)
  }

  /** The state reached from `l` if the log is one its machine produces. */
  function Run(l: Local, log: seq<Exchange>): Option<Local>
    decreases log
  {
    if log == [] then Some(l)
    else if Ask(l) == Some(log[0].request) && Fits(log[0].request, log[0].response)
    then Run(Tell(l, log[0].response), log[1..])
    else None
  }

  /** A run continued by a run is a run. */
  lemma {:induction false} RunAppend(l: Local, a: seq<Exchange>, b: seq<Exchange>)
    requires Run(l, a).Some?
    ensures Run(l, a + b) == Run(Run(l, a).value, b)
    decreases a
  {
    if a == [] {
      assert a + b == b;
    } else {
      assert (a + b)[1..] == a[1..] + b;
      RunAppend(Tell(l, a[0].response), a[1..], b);
    }
  }

  /** Every proper prefix of a run is a run. */
  lemma {:induction false} RunSplit(l: Local, a: seq<Exchange>, b: seq<Exchange>)
    requires Run(l, a + b).Some?
    ensures Run(l, a).Some? && Run(Run(l, a).value, b) == Run(l, a + b)
    decreases a
  {
    if a == [] {
      assert a + b == b;
    } else {
      assert (a + b)[1..] == a[1..] + b;
      RunSplit(Tell(l, a[0].response), a[1..], b);
    }
  }

  datatype Outcome = Outcome(command: Command, ok: bool)

  /** The commands of a log with their outcomes, in order. */
  function Executed(log: seq<Exchange>): seq<Outcome>
  {
    if log == [] then []
    else Executed(log[..|log| - 1]) + ExecutedBy(log[|log| - 1])
  }

  function ExecutedBy(e: Exchange): seq<Outcome>
  {
    if e.request.Exec? then [Outcome(e.request.command, e.response.Done?)] else []
  }

  predicate AllWritesAcknowledged(log: seq<Exchange>)
  {
    forall i | 0 <= i < |log| :: log[i].request.WriteStatus? ==> log[i].response.Done?
  }

  lemma ExecutedSnoc(log: seq<Exchange>, e: Exchange)
    ensures Executed(log + [e]) == Executed(log) + ExecutedBy(e)
  {
    assert (log + [e])[..|log|] == log;
  }

  /** A run extended by the exchange its machine asks for. */
  lemma RunSnoc(l: Local, log: seq<Exchange>, e: Exchange)
    requires Run(l, log).Some?
    requires Ask(Run(l, log).value) == Some(e.request) && Fits(e.request, e.response)
    ensures Run(l, log + [e]) == Some(Tell(Run(l, log).value, e.response))
    ensures Executed(log + [e]) == Executed(log) + ExecutedBy(e)
  {
    var m := Run(l, log).value;
    RunAppend(l, log, [e]);
    assert [e][1..] == [];
    assert Run(Tell(m, e.response), []) == Some(Tell(m, e.response));
    ExecutedSnoc(log, e);
  }

  /** The last exchange of a run is one its machine asks for after the others. */
  lemma RunExtends(l: Local, front: seq<Exchange>, last: Exchange)
    requires Run(l, front + [last]).Some?
    ensures Run(l, front).Some? && Ask(Run(l, front).value) == Some(last.request) && Fits(last.request, last.response)
    ensures Run(l, front + [last]) == Some(Tell(Run(l, front).value, last.response))
  {
    RunSplit(l, front, [last]);
    var m := Run(l, front).value;
    assert Run(m, [last]).Some?;
    assert Run(Tell(m, last.response), []) == Some(Tell(m, last.response));
  }

  lemma RoleKept(l: Local, r: Response)
    ensures Tell(l, r).role == l.role
  {
  }
}
