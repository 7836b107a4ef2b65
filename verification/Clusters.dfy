/**
 * The cluster as one reconcile sees it: every request is answered by an environment that is fixed but arbitrary,
 * and logged. A request may be sent only if it is the one the reconcile's machine asks for, so a log held by a
 * valid cluster is a run of that machine.
 */
module Clusters {
  import opened Common
  import opened Conditions
  import opened Protocol
  import opened Runs

  /** Both controllers collect the sub-locations to copy in the same way. */
  method SelectedParts(options: Options) returns (parts: seq<Part>)
    ensures parts == Plan(options)
  {
    parts := [];
    if options.config {
      parts := parts + [Xml];
    }
    if options.jobs {
      parts := parts + [Jobs];
    }
    if options.plugins {
      parts := parts + [Plugins];
    }
  }

  class Cluster {
    const answers: nat -> Response
    ghost const start: Local
    var log: seq<Exchange>
    ghost var machine: Local

    ghost predicate Valid()
      reads this
    {
      Run(start, log) == Some(machine)
    }

    constructor (answers: nat -> Response, ghost start: Local)
      ensures Valid() && log == [] && machine == this.start == start && this.answers == answers
    {
      this.answers := answers;
      this.start := start;
      log := [];
      machine := start;
    }

    method Send(q: Request) returns (r: Response)
      requires Valid() && Ask(machine) == Some(q)
      modifies this
      ensures Valid() && Fits(q, r)
      ensures log == old(log) + [Exchange(q, r)]
      ensures machine == Tell(old(machine), r)
    {
      r := answers(|log|);
      if !Fits(q, r) {
        r := Failed;
      }
      RunSnoc(start, log, Exchange(q, r));
      log := log + [Exchange(q, r)];
      machine := Tell(machine, r);
    }
  }
}
