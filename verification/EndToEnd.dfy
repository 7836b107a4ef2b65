/** A Backup run and a later Restore run, from recorded conditions down to the contents of the volumes. */
module EndToEnd {
  import opened Common
  import opened Conditions
  import opened Protocol
  import opened Runs
  import opened FileSystem
  import opened Archive
  import opened RoundTrip
  import opened Isolation
  import BackupTraces
  import RestoreTraces
  import Lookups

  /** A Backup run in which everything was copied leaves exactly the volume of a successful Backup. */
  lemma {:induction false} BackupRunArchives(l: Local, log: seq<Exchange>, fs: Volume)
    requires l.role == Backing && l.pc == Start && Run(l, log).Some?
    requires Run(l, log).value.pc == End(false) && Executed(log) != [] && BackupTraces.EverythingCopied(log)
    requires Mounted(fs) && Replay(fs, Executed(log)).Some?
    ensures Replay(fs, Executed(log)) == Backup(fs, l.name, Run(l, log).value.config.options)
  {
    hide Run, Replay, Backup, Executed;
    var g := BackupTraces.RecordedSuccessIsRightIff(l, log);
    BackupOrderly(l, log);
    var c := Run(l, log).value.config;
    var plan := Plan(c.options);
    var body := [Outcome(MakeDirectory(l.name), true)] + BackupTraces.Saves(plan, l.name, |plan|);
    Bracketed(fs, BackupTraces.Opening(c, g), body, BackupTraces.Closing(c, g));
    BodyArchives(fs, l.name, c.options);
  }

  lemma BodyArchives(fs: Volume, name: string, options: Options)
    requires Mounted(fs)
    requires Replay(fs, [Outcome(MakeDirectory(name), true)] + BackupTraces.Saves(Plan(options), name, |Plan(options)|)).Some?
    ensures Replay(fs, [Outcome(MakeDirectory(name), true)] + BackupTraces.Saves(Plan(options), name, |Plan(options)|)) ==
            Backup(fs, name, options)
  {
    hide Replay, SaveAll;
    var plan := Plan(options);
    ReplayAppend(fs, [Outcome(MakeDirectory(name), true)], BackupTraces.Saves(plan, name, |plan|));
    ReplayMade(fs, name, true);
    var d := BackupDirectory(name);
    assert d[..|d| - 1] == POOL;
    ReplaySaves(fs[d := Directory], plan, name, |plan|);
    assert plan[..|plan|] == plan;
  }

  lemma ReplayLoad(v: Volume, x: seq<Outcome>, name: string, parts: seq<Part>, part: Part)
    requires Replay(v, x + [Outcome(Load(name, part), true)]).Some?
    requires LoadAll(v, name, parts) == Replay(v, x)
    ensures LoadAll(v, name, parts + [part]) == Replay(v, x + [Outcome(Load(name, part), true)])
  {
    ReplaySnoc(v, x, Outcome(Load(name, part), true));
    LoadAllStep(v, name, parts, part);
  }

  lemma {:induction false} ReplayLoads(v: Volume, plan: seq<Part>, name: string, n: nat)
    requires n <= |plan| && Replay(v, RestoreTraces.Loads(plan, name, n)).Some?
    ensures LoadAll(v, name, plan[..n]) == Replay(v, RestoreTraces.Loads(plan, name, n))
  {
    if n > 0 {
      LoadsSnoc(plan, name, n);
      ReplaySnoc(v, RestoreTraces.Loads(plan, name, n - 1), Outcome(Load(name, plan[n - 1]), true));
      ReplayLoads(v, plan, name, n - 1);
      ReplayLoadsStep(v, plan, name, n);
    }
  }

  lemma LoadsSnoc(plan: seq<Part>, name: string, n: nat)
    requires 0 < n <= |plan|
    ensures RestoreTraces.Loads(plan, name, n) == RestoreTraces.Loads(plan, name, n - 1) + [Outcome(Load(name, plan[n - 1]), true)]
    ensures plan[..n] == plan[..n - 1] + [plan[n - 1]]
  {
  }

  lemma ReplayLoadsStep(v: Volume, plan: seq<Part>, name: string, n: nat)
    requires 0 < n <= |plan| && Replay(v, RestoreTraces.Loads(plan, name, n)).Some?
    requires LoadAll(v, name, plan[..n - 1]) == Replay(v, RestoreTraces.Loads(plan, name, n - 1))
    ensures LoadAll(v, name, plan[..n]) == Replay(v, RestoreTraces.Loads(plan, name, n))
  {
    hide *;
    LoadsSnoc(plan, name, n);
    ReplayLoad(v, RestoreTraces.Loads(plan, name, n - 1), name, plan[..n - 1], plan[n - 1]);
  }

  /** After a failed copy nothing more is copied. */
  lemma {:induction false} LoadAllStuck(v: Volume, name: string, parts: seq<Part>, n: nat)
    requires n <= |parts| && LoadAll(v, name, parts[..n]).None?
    ensures LoadAll(v, name, parts).None?
    decreases |parts|
  {
    if n < |parts| {
      var front := parts[..|parts| - 1];
      assert front[..n] == parts[..n];
      LoadAllStuck(v, name, front, n);
    } else {
      assert parts[..n] == parts;
    }
  }

  lemma AllLoaded(v: Volume, plan: seq<Part>, name: string)
    requires Replay(v, RestoreTraces.Loads(plan, name, |plan|)).Some?
    ensures LoadAll(v, name, plan) == Replay(v, RestoreTraces.Loads(plan, name, |plan|))
  {
    ReplayLoads(v, plan, name, |plan|);
    assert plan[..|plan|] == plan;
  }

  lemma FailedLoad(v: Volume, x: seq<Outcome>, name: string, parts: seq<Part>, part: Part)
    requires Replay(v, x + [Outcome(Load(name, part), false)]).Some?
    requires LoadAll(v, name, parts) == Replay(v, x)
    ensures LoadAll(v, name, parts + [part]).None?
  {
    ReplaySnoc(v, x, Outcome(Load(name, part), false));
    LoadAllStep(v, name, parts, part);
  }

  lemma StoppedAt(v: Volume, plan: seq<Part>, name: string, i: nat)
    requires i < |plan|
    requires Replay(v, RestoreTraces.Loads(plan, name, i) + [Outcome(Load(name, plan[i]), false)]).Some?
    ensures LoadAll(v, name, plan).None?
  {
    hide *;
    LoadAllUpTo(v, plan, name, i);
    assert plan[..i + 1] == plan[..i] + [plan[i]];
    LoadAllStuck(v, name, plan, i + 1);
  }

  lemma LoadAllUpTo(v: Volume, plan: seq<Part>, name: string, i: nat)
    requires i < |plan|
    requires Replay(v, RestoreTraces.Loads(plan, name, i) + [Outcome(Load(name, plan[i]), false)]).Some?
    ensures LoadAll(v, name, plan[..i] + [plan[i]]).None?
  {
    hide *;
    var loads := RestoreTraces.Loads(plan, name, i);
    ReplaySnoc(v, loads, Outcome(Load(name, plan[i]), false));
    ReplayLoads(v, plan, name, i);
    FailedLoad(v, loads, name, plan[..i], plan[i]);
  }

  lemma BodyLoads(v: Volume, c: BackupConfig, name: string, r: RestoreTraces.Result)
    requires RestoreTraces.ResultFits(c, r) && Replay(v, RestoreTraces.Body(c, name, r)).Some?
    ensures r.Loaded? <==> LoadAll(v, name, Plan(c.options)).Some?
    ensures r.Loaded? ==> Replay(v, RestoreTraces.Body(c, name, r)) == LoadAll(v, name, Plan(c.options))
  {
    match r
    case Loaded => AllLoaded(v, Plan(c.options), name);
    case CopyFailed(i) => StoppedAt(v, Plan(c.options), name, i);
  }

  /** What the last write of a Restore run says about the copies. */
  function Recorded(log: seq<Exchange>): Option<Status>
  {
    if |log| > 0 && log[|log| - 1].request.WriteStatus? && log[|log| - 1].response.Done?
    then StatusOf(log[|log| - 1].request.conditions, RestoreCompleted) else None
  }

  /** A Restore run records success exactly when its copies are possible, and then leaves exactly their result. */
  lemma {:induction false} RestoreRunLoads(l: Local, log: seq<Exchange>, v: Volume)
    requires l.role == Restoring && l.pc == Start && l.conditions == [] && Run(l, log).Some?
    requires Run(l, log).value.pc == End(false) && Executed(log) != []
    requires Replay(v, Executed(log)).Some?
    ensures var m := Run(l, log).value; var r := LoadAll(v, m.name, Plan(m.config.options));
            && (Recorded(log) == Some(True) <==> Plan(m.config.options) != [] && r.Some?)
            && (r.Some? ==> Replay(v, Executed(log)) == r)
  {
    hide Run, Replay, LoadAll, RestoreTraces.Body;
    var g := RestoreTraces.FinalRecordIsRight(l, log);
    var m := Run(l, log).value;
    var body, closing := RestoreTraces.Body(m.config, m.name, g.result), RestoreTraces.Closing(m.config, g);
    assert [] + body + closing == body + closing;
    Bracketed(v, [], body, closing);
    BodyLoads(v, m.config, m.name, g.result);
  }

  /**
   * From record to contents. A Backup run copied everything; since then Jenkins home may have changed but not the
   * backup directory; the directories restored into still exist. A later Restore run, whose object refers to that
   * Backup, and that issued commands and ended without an error, has RestoreCompleted=True on record if and only if
   * something was selected, saved, not empty, and clashes with nothing; and when it is on record, every selected path
   * holds what it held when the backup was taken and every other path is unchanged.
   */
  lemma {:induction false} RecordedRestoreRestores(
      b: Local, backup: seq<Exchange>, before: Volume, r: Local, restore: seq<Exchange>, later: Volume)
    requires b.role == Backing && b.pc == Start && Run(b, backup).Some?
    requires Run(b, backup).value.pc == End(false) && Executed(backup) != [] && BackupTraces.EverythingCopied(backup)
    requires Tree(before) && Mounted(before) && Replay(before, Executed(backup)).Some?
    requires SameBelow(Replay(before, Executed(backup)).value, later, BackupDirectory(b.name))
    requires r.role == Restoring && r.pc == Start && r.conditions == [] && Run(r, restore).Some?
    requires Run(r, restore).value.pc == End(false) && Executed(restore) != []
    requires restore[0].response.Found? && restore[0].response.ref == b.name
    requires TargetsExist(later, Plan(Run(r, restore).value.config.options))
    requires Replay(later, Executed(restore)).Some?
    ensures var saved, wanted := Plan(Run(b, backup).value.config.options), Plan(Run(r, restore).value.config.options);
            && (Recorded(restore) == Some(True) <==> wanted != [] && RestorePossible(later, before, saved, wanted))
            && (Recorded(restore) == Some(True) ==>
                  var after := Replay(later, Executed(restore)).value;
                  && (forall q | q in before && Selected(before, wanted, q) :: q in after && after[q] == before[q])
                  && (forall p | !(p in before && Selected(before, wanted, p)) ::
                        (p in after <==> p in later) && (p in after ==> after[p] == later[p])))
  {
    Lookups.RestoresTheReferredBackup(r, restore);
    BackupRunArchives(b, backup, before);
    RestoreRunLoads(r, restore, later);
    RoundTripExact(before, b.name, Run(b, backup).value.config.options, later, Run(r, restore).value.config.options);
  }
}
