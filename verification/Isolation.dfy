/** What whole runs of the two controllers do to the volumes, partial copies of failed commands included. */
module Isolation {
  import opened Common
  import opened Conditions
  import opened Protocol
  import opened Runs
  import opened FileSystem
  import opened Archive
  import opened RoundTrip
  import BackupTraces
  import Lookups
  import RestoreTraces

  /** The volumes agree outside `d`. */
  ghost predicate SameOutside(a: Volume, b: Volume, d: Path)
  {
    forall p: Path | !(d <= p) :: (p in a <==> p in b) && (p in a ==> a[p] == b[p])
  }

  /** What a command that failed may have left behind. */
  ghost predicate Partial(fs: Volume, c: Command, fs': Volume)
  {
    match c
    case MakeDirectory(name) => fs' == fs || MakeDir(fs, BackupDirectory(name)) == Some(fs')
    case Save(name, part) => SameOutside(fs, fs', BackupDirectory(name))
    case Load(name, part) => SameOutside(fs, fs', LoadTarget(part))
    case _ => fs' == fs
  }

  ghost predicate Effect(fs: Volume, o: Outcome, fs': Volume)
  {
    if o.ok then Perform(fs, o.command) == Some(fs') else Partial(fs, o.command, fs')
  }

  /** The commands, with these outcomes, can take the volume from `fs` to `fs'`. */
  ghost predicate Traces(fs: Volume, x: seq<Outcome>, fs': Volume)
    decreases |x|, 1
  {
    if x == [] then fs == fs' else exists mid :: Via(fs, x, mid, fs')
  }

  /** `mid` is the volume before the last command. */
  ghost predicate Via(fs: Volume, x: seq<Outcome>, mid: Volume, fs': Volume)
    requires x != []
    decreases |x|, 0
  {
    Traces(fs, x[..|x| - 1], mid) && Effect(mid, x[|x| - 1], fs')
  }

  lemma CpFrame(fs: Volume, dir: Path, names: set<string>, dest: Path)
    requires Cp(fs, dir, names, dest).Some?
    ensures SameOutside(fs, Cp(fs, dir, names, dest).value, dest)
  {
    forall p | !(dest <= p)
      ensures var r := Cp(fs, dir, names, dest).value; (p in fs <==> p in r) && (p in r ==> r[p] == fs[p])
    {
      GraftAt(fs, dir, names, dest, p);
      if Single(names) {
        TransplantAt(fs, dir + [Only(names)], dest, p);
      }
    }
  }

  /** The part of the volume a command may touch. */
  function Area(c: Command): Path
  {
    match c
    case MakeDirectory(name) => BackupDirectory(name)
    case Save(name, _) => BackupDirectory(name)
    case _ => HOME
  }

  lemma EffectFrame(fs: Volume, o: Outcome, fs': Volume)
    requires Effect(fs, o, fs')
    ensures SameOutside(fs, fs', Area(o.command))
  {
    match o.command
    case Save(name, part) =>
      if o.ok {
        CpFrame(fs, HOME, SaveNames(fs, part), BackupDirectory(name));
      }
    case Load(name, part) =>
      if o.ok {
        CpFrame(fs, LoadSource(name, part), LoadNames(fs, name, part), LoadTarget(part));
      }
      forall p: Path | !(HOME <= p)
        ensures (p in fs <==> p in fs') && (p in fs ==> fs[p] == fs'[p])
      {
        TargetInHome(part, p);
      }
    case _ =>
  }

  /** The next command of a Backup: it concerns one directory, and is a copy only if mkdir succeeded. */
  predicate InOrder(before: seq<Outcome>, o: Outcome, name: string)
  {
    match o.command
    case MakeDirectory(n) => n == name
    case Save(n, _) => n == name && Outcome(MakeDirectory(name), true) in before
    case Load(_, _) => false
    case _ => true
  }

  predicate Orderly(x: seq<Outcome>, name: string)
  {
    x == [] || (Orderly(x[..|x| - 1], name) && InOrder(x[..|x| - 1], x[|x| - 1], name))
  }

  /** The command a Backup issues next is in order. */
  lemma NextInOrder(m: Local, log: seq<Exchange>, g: BackupTraces.Ledger, e: Exchange)
    requires BackupTraces.Stands(m, log, g) && BackupTraces.Continues(m, e) && e.request.Exec?
    ensures InOrder(Executed(log), Outcome(e.request.command, e.response.Done?), m.name)
  {
    if m.pc.Copy? {
      var made := [Outcome(MakeDirectory(m.name), true)];
      assert made[0] in made + BackupTraces.Saves(Plan(m.config.options), m.name, m.pc.i);
    }
  }

  lemma NameKept(m: Local, r: Response)
    requires m.role == Backing
    ensures Tell(m, r).name == m.name && Tell(m, r).role == Backing
  {
  }

  /** The commands of every Backup run are in order. */
  lemma {:induction false} BackupOrderly(l: Local, log: seq<Exchange>)
    requires l.role == Backing && l.pc == Start && Run(l, log).Some?
    ensures Orderly(Executed(log), l.name)
    ensures Run(l, log).value.name == l.name && Run(l, log).value.role == Backing
    decreases |log|
  {
    if log != [] {
      var front, last := log[..|log| - 1], log[|log| - 1];
      assert log == front + [last];
      RunSplit(l, front, [last]);
      BackupOrderly(l, front);
      var m := Run(l, front).value;
      assert Run(m, [last]).Some?;
      RunSnoc(l, front, last);
      NameKept(m, last.response);
      if last.request.Exec? {
        var g := BackupTraces.RunStands(l, front);
        NextInOrder(m, front, g, last);
        OrderlySnoc(Executed(front), ExecutedBy(last)[0], l.name);
      } else {
        assert Executed(front) + [] == Executed(front);
      }
    }
  }

  lemma OrderlySnoc(x: seq<Outcome>, o: Outcome, name: string)
    requires Orderly(x, name) && InOrder(x, o, name)
    ensures Orderly(x + [o], name)
  {
    assert (x + [o])[..|x|] == x;
  }

  lemma {:induction false} OrderlyFrame(fs: Volume, x: seq<Outcome>, fs': Volume, name: string)
    requires Traces(fs, x, fs') && Orderly(x, name)
    ensures SameOutside(fs, fs', BackupDirectory(name))
    ensures BackupDirectory(name) in fs ==> fs' == fs && Outcome(MakeDirectory(name), true) !in x
    decreases |x|
  {
    if x != [] {
      var front, o := x[..|x| - 1], x[|x| - 1];
      assert x == front + [o];
      var mid :| Via(fs, x, mid, fs');
      OrderlyFrame(fs, front, mid, name);
      if o.command.Save? || o.command.MakeDirectory? {
        EffectFrame(mid, o, fs');
      }
    }
  }

  /**
   * A Backup run, whatever fails in it, touches nothing outside its own directory: not Jenkins home, not any
   * other backup. If the directory already exists it touches nothing at all.
   */
  lemma {:induction false} BackupIsolated(l: Local, log: seq<Exchange>, fs: Volume, fs': Volume)
    requires l.role == Backing && l.pc == Start && Run(l, log).Some?
    requires Traces(fs, Executed(log), fs')
    ensures SameOutside(fs, fs', BackupDirectory(l.name))
    ensures BackupDirectory(l.name) in fs ==> fs' == fs
  {
    BackupOrderly(l, log);
    OrderlyFrame(fs, Executed(log), fs', l.name);
  }

  lemma {:induction false} ExecutedWas(log: seq<Exchange>, o: Outcome)
    requires o in Executed(log)
    ensures exists i | 0 <= i < |log| :: log[i].request == Exec(o.command)
    decreases |log|
  {
    var front, last := log[..|log| - 1], log[|log| - 1];
    if o in Executed(front) {
      ExecutedWas(front, o);
      var i :| 0 <= i < |front| && front[i].request == Exec(o.command);
      assert log[i].request == Exec(o.command);
    } else {
      assert o in ExecutedBy(last);
      assert log[|log| - 1].request == Exec(o.command);
    }
  }

  /** A Restore issues no backup command. */
  lemma {:induction false} RestoreOnlyLoads(l: Local, log: seq<Exchange>)
    requires l.role == Restoring && l.pc == Start && Run(l, log).Some?
    ensures forall o | o in Executed(log) :: !o.command.Save? && !o.command.MakeDirectory?
  {
    hide Run, Executed;
    Lookups.EverythingIsLookedUpRight(l, log);
    forall o | o in Executed(log) ensures !o.command.Save? && !o.command.MakeDirectory? {
      ExecutedWas(log, o);
      var i :| 0 <= i < |log| && log[i].request == Exec(o.command);
      assert Lookups.RightAt(Restoring, l.name, log, i);
    }
  }

  lemma {:induction false} HomeOnly(fs: Volume, x: seq<Outcome>, fs': Volume)
    requires Traces(fs, x, fs') && forall o | o in x :: !o.command.Save? && !o.command.MakeDirectory?
    ensures SameOutside(fs, fs', HOME)
    decreases |x|
  {
    if x != [] {
      var front, o := x[..|x| - 1], x[|x| - 1];
      assert x == front + [o];
      var mid :| Via(fs, x, mid, fs');
      HomeOnly(fs, front, mid);
      EffectFrame(mid, o, fs');
    }
  }

  /** A Restore run, whatever fails in it, touches nothing outside Jenkins home. */
  lemma {:induction false} RestoreIsolated(l: Local, log: seq<Exchange>, fs: Volume, fs': Volume)
    requires l.role == Restoring && l.pc == Start && Run(l, log).Some?
    requires Traces(fs, Executed(log), fs')
    ensures SameOutside(fs, fs', HOME)
  {
    RestoreOnlyLoads(l, log);
    HomeOnly(fs, Executed(log), fs');
  }

  /** One Backup or Restore run takes the volume from `fs` to `fs'`. */
  ghost predicate Job(fs: Volume, fs': Volume)
  {
    exists l: Local, log :: l.pc == Start && Run(l, log).Some? && Traces(fs, Executed(log), fs')
  }

  ghost predicate Jobs(vs: seq<Volume>)
  {
    forall i | 0 < i < |vs| :: Job(vs[i - 1], vs[i])
  }

  lemma JobKeepsBackup(fs: Volume, fs': Volume, name: string)
    requires Job(fs, fs') && BackupDirectory(name) in fs
    ensures SameBelow(fs, fs', BackupDirectory(name))
  {
    var l: Local, log :| l.pc == Start && Run(l, log).Some? && Traces(fs, Executed(log), fs');
    var d := BackupDirectory(name);
    if l.role == Backing {
      BackupIsolated(l, log, fs, fs');
      if l.name != name {
        forall p: Path | d <= p
          ensures (p in fs <==> p in fs') && (p in fs ==> fs[p] == fs'[p])
        {
          assert p[1] == d[1] == name;
          assert BackupDirectory(l.name)[1] == l.name;
        }
      }
    } else {
      RestoreIsolated(l, log, fs, fs');
      forall p: Path | d <= p
        ensures (p in fs <==> p in fs') && (p in fs ==> fs[p] == fs'[p])
      {
        PoolApart(name, p);
      }
    }
  }

  /** Over any sequence of Backups and Restores, a backup directory that exists keeps its whole content for ever. */
  lemma {:induction false} BackupsAreImmutable(vs: seq<Volume>, i: nat, j: nat, name: string)
    requires Jobs(vs) && i <= j < |vs| && BackupDirectory(name) in vs[i]
    ensures BackupDirectory(name) in vs[j] && SameBelow(vs[i], vs[j], BackupDirectory(name))
    decreases j
  {
    if i < j {
      BackupsAreImmutable(vs, i, j - 1, name);
      assert Job(vs[j - 1], vs[j]);
      JobKeepsBackup(vs[j - 1], vs[j], name);
    }
  }

  /** The command works on the volumes; the others are scripts that talk to Jenkins and may fail at any time. */
  predicate OnVolumes(c: Command)
  {
    c.MakeDirectory? || c.Save? || c.Load?
  }

  /** The commands on the volumes fail exactly when the volumes make them fail. */
  function Replay(fs: Volume, x: seq<Outcome>): Option<Volume>
  {
    if x == [] then Some(fs)
    else match Replay(fs, x[..|x| - 1])
         case None => None
         case Some(mid) =>
           var o, r := x[|x| - 1], Perform(mid, x[|x| - 1].command);
           if OnVolumes(o.command) && o.ok != r.Some? then None else if o.ok then r else Some(mid)
  }

  lemma {:induction false} ReplayAppend(fs: Volume, x: seq<Outcome>, y: seq<Outcome>)
    requires Replay(fs, x + y).Some?
    ensures Replay(fs, x).Some? && Replay(fs, x + y) == Replay(Replay(fs, x).value, y)
    decreases |y|
  {
    if y == [] {
      assert x + y == x;
    } else {
      assert (x + y)[..|x + y| - 1] == x + y[..|y| - 1];
      ReplayAppend(fs, x, y[..|y| - 1]);
    }
  }

  lemma ReplaySnoc(fs: Volume, x: seq<Outcome>, o: Outcome)
    requires Replay(fs, x + [o]).Some?
    ensures Replay(fs, x).Some?
    ensures OnVolumes(o.command) ==> (o.ok <==> Perform(Replay(fs, x).value, o.command).Some?)
    ensures Replay(fs, x + [o]) == if o.ok then Perform(Replay(fs, x).value, o.command) else Replay(fs, x)
  {
    assert (x + [o])[..|x + [o]| - 1] == x;
  }

  lemma SaveAllSnoc(fs: Volume, name: string, parts: seq<Part>, part: Part)
    ensures SaveAll(fs, name, parts + [part]) ==
            if SaveAll(fs, name, parts).None? then None else SavePart(SaveAll(fs, name, parts).value, name, part)
  {
    assert (parts + [part])[..|parts + [part]| - 1] == parts;
  }

  lemma ScriptLeaves(fs: Volume, x: seq<Outcome>, o: Outcome)
    requires !OnVolumes(o.command) && Replay(fs, x + [o]).Some?
    ensures Replay(fs, x + [o]) == Replay(fs, x)
  {
    ReplaySnoc(fs, x, o);
  }

  predicate AtMostOneScript(x: seq<Outcome>)
  {
    x == [] || (|x| == 1 && !OnVolumes(x[0].command))
  }

  lemma ScriptAfter(fs: Volume, x: seq<Outcome>, closing: seq<Outcome>)
    requires AtMostOneScript(closing) && Replay(fs, x + closing).Some?
    ensures Replay(fs, x + closing) == Replay(fs, x)
  {
    if closing == [] {
      assert x + closing == x;
    } else {
      assert closing == [closing[0]];
      ScriptLeaves(fs, x, closing[0]);
    }
  }

  /** Scripts before and after change nothing. */
  lemma Bracketed(fs: Volume, opening: seq<Outcome>, body: seq<Outcome>, closing: seq<Outcome>)
    requires AtMostOneScript(opening) && AtMostOneScript(closing)
    requires Replay(fs, opening + body + closing).Some?
    ensures Replay(fs, opening + body + closing) == Replay(fs, body)
  {
    ScriptAfter(fs, opening + body, closing);
    ReplayAppend(fs, opening, body);
    assert [] + opening == opening;
    ScriptAfter(fs, [], opening);
  }

  lemma {:induction false} ReplaySaves(fs: Volume, plan: seq<Part>, name: string, n: nat)
    requires n <= |plan| && Replay(fs, BackupTraces.Saves(plan, name, n)).Some?
    ensures SaveAll(fs, name, plan[..n]) == Replay(fs, BackupTraces.Saves(plan, name, n))
  {
    if n > 0 {
      SavesSnoc(plan, name, n);
      ReplaySnoc(fs, BackupTraces.Saves(plan, name, n - 1), Outcome(Save(name, plan[n - 1]), true));
      ReplaySaves(fs, plan, name, n - 1);
      ReplaySavesStep(fs, plan, name, n);
    }
  }

  lemma SavesSnoc(plan: seq<Part>, name: string, n: nat)
    requires 0 < n <= |plan|
    ensures BackupTraces.Saves(plan, name, n) == BackupTraces.Saves(plan, name, n - 1) + [Outcome(Save(name, plan[n - 1]), true)]
    ensures plan[..n] == plan[..n - 1] + [plan[n - 1]]
  {
  }

  lemma ReplaySavesStep(fs: Volume, plan: seq<Part>, name: string, n: nat)
    requires 0 < n <= |plan| && Replay(fs, BackupTraces.Saves(plan, name, n)).Some?
    requires SaveAll(fs, name, plan[..n - 1]) == Replay(fs, BackupTraces.Saves(plan, name, n - 1))
    ensures SaveAll(fs, name, plan[..n]) == Replay(fs, BackupTraces.Saves(plan, name, n))
  {
    hide *;
    SavesSnoc(plan, name, n);
    ReplaySave(fs, BackupTraces.Saves(plan, name, n - 1), name, plan[..n - 1], plan[n - 1]);
  }

  lemma ReplaySave(fs: Volume, x: seq<Outcome>, name: string, parts: seq<Part>, part: Part)
    requires Replay(fs, x + [Outcome(Save(name, part), true)]).Some?
    requires SaveAll(fs, name, parts) == Replay(fs, x)
    ensures SaveAll(fs, name, parts + [part]) == Replay(fs, x + [Outcome(Save(name, part), true)])
  {
    ReplaySnoc(fs, x, Outcome(Save(name, part), true));
    SaveAllSnoc(fs, name, parts, part);
  }

  lemma ReplayMade(fs: Volume, name: string, ok: bool)
    requires Mounted(fs) && Replay(fs, [Outcome(MakeDirectory(name), ok)]).Some?
    ensures ok <==> BackupDirectory(name) !in fs
    ensures ok ==> Replay(fs, [Outcome(MakeDirectory(name), ok)]).value == fs[BackupDirectory(name) := Directory]
  {
    var o := Outcome(MakeDirectory(name), ok);
    assert [] + [o] == [o];
    ReplaySnoc(fs, [], o);
    var d := BackupDirectory(name);
    assert d[..|d| - 1] == POOL;
  }

  lemma SavesDecided(fs: Volume, plan: seq<Part>, name: string, n: nat)
    requires Tree(fs) && BackupDirectory(name) !in fs && n <= |plan|
    requires Replay(fs[BackupDirectory(name) := Directory], BackupTraces.Saves(plan, name, n)).Some?
    ensures forall part | part in plan[..n] :: Savable(fs, part)
    ensures Replay(fs[BackupDirectory(name) := Directory], BackupTraces.Saves(plan, name, n)).value ==
            SavedVolume(fs, name, plan[..n])
  {
    ReplaySaves(fs[BackupDirectory(name) := Directory], plan, name, n);
    SaveAllExact(fs, name, plan[..n]);
  }

  /** A body that the volume explains ran to the end exactly when the Backup was possible. */
  lemma BodyDecided(fs: Volume, config: BackupConfig, name: string, r: BackupTraces.Result)
    requires Tree(fs) && Mounted(fs) && BackupTraces.ResultFits(config, r)
    requires Replay(fs, BackupTraces.Body(config, name, r)).Some?
    ensures r.Saved? <==> BackupPossible(fs, name, config.options)
  {
    var plan := Plan(config.options);
    match r
    case NoDirectory => ReplayMade(fs, name, false);
    case CopyFailed(i) =>
      var made, saves := [Outcome(MakeDirectory(name), true)], BackupTraces.Saves(plan, name, i);
      var last := Outcome(Save(name, plan[i]), false);
      ReplaySnoc(fs, made + saves, last);
      ReplayAppend(fs, made, saves);
      ReplayMade(fs, name, true);
      SavesDecided(fs, plan, name, i);
      SaveStep(fs, name, plan[..i], plan[i]);
      assert plan[i] in plan;
    case Saved =>
      var made, saves := [Outcome(MakeDirectory(name), true)], BackupTraces.Saves(plan, name, |plan|);
      ReplayAppend(fs, made, saves);
      ReplayMade(fs, name, true);
      SavesDecided(fs, plan, name, |plan|);
      assert plan[..|plan|] == plan;
  }

  lemma BracketDecided(fs: Volume, c: BackupConfig, name: string, g: BackupTraces.Ledger)
    requires Tree(fs) && Mounted(fs) && BackupTraces.ResultFits(c, g.result)
    requires Replay(fs, BackupTraces.Bracket(c, name, g)).Some?
    ensures g.result.Saved? <==> BackupPossible(fs, name, c.options)
  {
    Bracketed(fs, BackupTraces.Opening(c, g), BackupTraces.Body(c, name, g.result), BackupTraces.Closing(c, g));
    BodyDecided(fs, c, name, g.result);
  }

  /**
   * When a recorded success is right. A Backup that issued commands and ended without an error records
   * BackupCompleted=True; if its commands failed only because of the volume, the record is right if and only if,
   * when it started, its directory did not exist and every selected part had something to copy.
   */
  lemma {:induction false} RecordedSuccessIsRightIffPossible(l: Local, log: seq<Exchange>, fs: Volume)
    requires l.role == Backing && l.pc == Start && Run(l, log).Some?
    requires Run(l, log).value.pc == End(false) && Executed(log) != []
    requires Tree(fs) && Mounted(fs) && Replay(fs, Executed(log)).Some?
    ensures BackupTraces.RecordsSuccess(log)
    ensures BackupTraces.EverythingCopied(log) <==> BackupPossible(fs, l.name, Run(l, log).value.config.options)
  {
    var g := BackupTraces.RecordedSuccessIsRightIff(l, log);
    BackupOrderly(l, log);
    var c := Run(l, log).value.config;
    BracketDecided(fs, c, l.name, g);
  }

  /**
   * A Backup whose directory exists already. On every such volume its mkdir is bound to fail: there is a run that
   * the volume explains, that copies nothing and leaves everything as it is, and that records success.
   */
  lemma ExistingDirectoryRecordedAsCompleted(fs: Volume, name: string, c: BackupConfig)
    returns (l: Local, log: seq<Exchange>)
    requires BackupDirectory(name) in fs && !c.quietDown
    ensures l == Fresh(Backing, name, c) && Run(l, log).Some? && Run(l, log).value.pc == End(false)
    ensures Replay(fs, Executed(log)) == Some(fs)
    ensures BackupTraces.RecordsSuccess(log) && !BackupTraces.EverythingCopied(log)
  {
    l, log := BackupTraces.FailedBackupRecordedAsCompleted(name, c);
    var o := Outcome(MakeDirectory(name), false);
    assert Executed(log)[0] == o && o in Executed(log);
    assert [o][..0] == [];
    assert Replay(fs, [o][..0]) == Some(fs);
  }
}
