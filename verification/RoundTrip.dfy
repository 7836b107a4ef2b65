/** What a Restore makes of a backup: the round trip, exactly, and where it breaks. */
module RoundTrip {
  import opened Common
  import opened Protocol
  import opened FileSystem
  import opened Archive

  /** Below the backup directory `b` and `a` are the same. */
  ghost predicate SameBelow(a: Volume, b: Volume, d: Path)
  {
    forall p: Path | d <= p :: (p in a <==> p in b) && (p in a ==> a[p] == b[p])
  }

  /** The backup directory of `v` holds exactly what a Backup of `fs` with these parts left there. */
  ghost predicate Holds(v: Volume, fs: Volume, name: string, parts: seq<Part>)
  {
    var d, g := BackupDirectory(name), Graft(fs, HOME, AllNames(fs, parts), BackupDirectory(name));
    IsDirectory(v, d) &&
    forall p: Path | d <= p && p != d :: (p in v <==> p in g) && (p in v ==> v[p] == g[p])
  }

  /** The entries of the target that a Restore of the part brings back: top-level dotfiles are not among them. */
  function RestoreNames(fs: Volume, part: Part): set<string>
  {
    if part.Xml? then StarXml(fs, HOME) else Star(fs, LoadTarget(part))
  }

  /** The files and directories of `fs` that a Restore of the part brings back. */
  function Recovered(fs: Volume, part: Part): Volume
  {
    map q | q in fs && Under(LoadTarget(part), RestoreNames(fs, part), q) :: fs[q]
  }

  function RecoveredAll(fs: Volume, parts: seq<Part>): Volume
  {
    if parts == [] then map[] else RecoveredAll(fs, parts[..|parts| - 1]) + Recovered(fs, parts[|parts| - 1])
  }

  predicate Selected(fs: Volume, parts: seq<Part>, q: Path)
  {
    exists part | part in parts :: Under(LoadTarget(part), RestoreNames(fs, part), q)
  }

  lemma PartNames()
    ensures !EndsInXml("jobs") && !EndsInXml("plugins") && "jobs" != "plugins"
    ensures !Hidden("jobs") && !Hidden("plugins")
  {
    var j, p := "jobs", "plugins";
    assert j[|j| - 4..] == "jobs";
    assert "jobs"[0] != ".xml"[0];
    assert p[|p| - 4..] == "gins";
    assert "gins"[0] != ".xml"[0];
    assert |j| != |p|;
  }

  lemma {:induction false} AllNamesAre(fs: Volume, parts: seq<Part>, n: string)
    ensures n in AllNames(fs, parts) <==> exists part | part in parts :: n in SaveNames(fs, part)
  {
    if parts != [] {
      var front, last := parts[..|parts| - 1], parts[|parts| - 1];
      assert parts == front + [last];
      AllNamesAre(fs, front, n);
    }
  }

  /** An entry of home of the given name is in the archive exactly when it was saved. */
  lemma HeldChild(v: Volume, fs: Volume, name: string, parts: seq<Part>, t: Path)
    requires Holds(v, fs, name, parts) && |t| > 0
    ensures BackupDirectory(name) + t in v <==> t[0] in AllNames(fs, parts) && HOME + t in fs
    ensures BackupDirectory(name) + t in v ==> v[BackupDirectory(name) + t] == fs[HOME + t]
  {
    var d := BackupDirectory(name);
    var p := d + t;
    GraftAt(fs, HOME, AllNames(fs, parts), d, p);
    assert p[|d|..] == t;
    assert p[|d|] == t[0];
    assert d <= p && p != d;
  }

  lemma XmlNamesHeld(v: Volume, fs: Volume, name: string, parts: seq<Part>)
    requires Holds(v, fs, name, parts)
    ensures LoadNames(v, name, Xml) == if Xml in parts then StarXml(fs, HOME) else {}
  {
    PartNames();
    var d := BackupDirectory(name);
    forall n
      ensures n in LoadNames(v, name, Xml) <==> Xml in parts && n in StarXml(fs, HOME)
    {
      ChildIff(v, d, n);
      ChildIff(fs, HOME, n);
      HeldChild(v, fs, name, parts, [n]);
      AllNamesAre(fs, parts, n);
      if EndsInXml(n) {
        assert forall part | part in parts :: n in SaveNames(fs, part) ==> part.Xml?;
      }
    }
  }

  lemma DirectorySaved(fs: Volume, parts: seq<Part>, part: Part)
    requires !part.Xml?
    ensures PartName(part) in AllNames(fs, parts) <==> part in parts
  {
    PartNames();
    AllNamesAre(fs, parts, PartName(part));
    assert part in parts ==> PartName(part) in SaveNames(fs, part);
    forall q | q in parts && PartName(part) in SaveNames(fs, q) ensures q == part {
    }
  }

  lemma DirectoryEntryHeld(v: Volume, fs: Volume, name: string, parts: seq<Part>, part: Part, n: string)
    requires Holds(v, fs, name, parts) && !part.Xml?
    ensures LoadSource(name, part) + [n] in v <==> part in parts && LoadTarget(part) + [n] in fs
  {
    var t := [PartName(part)] + [n];
    HeldChild(v, fs, name, parts, t);
    assert BackupDirectory(name) + t == LoadSource(name, part) + [n];
    assert HOME + t == LoadTarget(part) + [n];
    DirectorySaved(fs, parts, part);
  }

  lemma DirectoryNamesHeld(v: Volume, fs: Volume, name: string, parts: seq<Part>, part: Part)
    requires Holds(v, fs, name, parts) && !part.Xml?
    ensures LoadNames(v, name, part) == if part in parts then Star(fs, LoadTarget(part)) else {}
  {
    var s := LoadSource(name, part);
    forall n
      ensures n in Star(v, s) <==> part in parts && n in Star(fs, LoadTarget(part))
    {
      ChildIff(v, s, n);
      ChildIff(fs, LoadTarget(part), n);
      DirectoryEntryHeld(v, fs, name, parts, part, n);
    }
  }

  /** A part that was not saved matches nothing; a saved one matches what is visible in the original. */
  lemma NamesHeld(v: Volume, fs: Volume, name: string, parts: seq<Part>, part: Part)
    requires Holds(v, fs, name, parts)
    ensures LoadNames(v, name, part) == if part in parts then RestoreNames(fs, part) else {}
  {
    if part.Xml? {
      XmlNamesHeld(v, fs, name, parts);
    } else {
      DirectoryNamesHeld(v, fs, name, parts, part);
    }
  }

  lemma GraftBackAt(v: Volume, fs: Volume, name: string, parts: seq<Part>, part: Part, q: Path)
    requires Holds(v, fs, name, parts) && part in parts
    ensures var g := Graft(v, LoadSource(name, part), RestoreNames(fs, part), LoadTarget(part));
            (q in g <==> q in Recovered(fs, part)) && (q in g ==> g[q] == fs[q])
  {
    var s, t, names := LoadSource(name, part), LoadTarget(part), RestoreNames(fs, part);
    GraftAt(v, s, names, t, q);
    if Under(t, names, q) {
      var tail := TailOf(name, part, q);
      TailSelected(fs, parts, part, name, q);
      HeldChild(v, fs, name, parts, tail);
    }
  }

  /** What follows Jenkins home in the path of a restored entry follows the backup directory in the archive. */
  function TailOf(name: string, part: Part, q: Path): (tail: Path)
    requires LoadTarget(part) <= q && |q| > |LoadTarget(part)|
    ensures tail != [] && HOME + tail == q && BackupDirectory(name) + tail == Reroot(LoadTarget(part), LoadSource(name, part), q)
    ensures tail[0] == if part.Xml? then q[|HOME|] else PartName(part)
  {
    var tail := q[|HOME|..];
    assert HOME <= LoadTarget(part);
    assert HOME + tail == q;
    assert part.Xml? || (q[|HOME|] == LoadTarget(part)[|HOME|] && q[|LoadTarget(part)|..] == tail[1..]);
    assert part.Xml? || tail == [PartName(part)] + tail[1..];
    tail
  }

  lemma TailSelected(fs: Volume, parts: seq<Part>, part: Part, name: string, q: Path)
    requires part in parts && Under(LoadTarget(part), RestoreNames(fs, part), q)
    ensures TailOf(name, part, q)[0] in AllNames(fs, parts)
  {
    var first := TailOf(name, part, q)[0];
    AllNamesAre(fs, parts, first);
    assert first in SaveNames(fs, part);
  }

  /** The operands of a restoring copy are all there. */
  lemma LoadOperands(v: Volume, name: string, part: Part, n: string)
    requires n in LoadNames(v, name, part)
    ensures LoadSource(name, part) + [n] in v
  {
    ChildIff(v, LoadSource(name, part), n);
  }

  lemma GraftBack(v: Volume, fs: Volume, name: string, parts: seq<Part>, part: Part)
    requires Holds(v, fs, name, parts) && part in parts
    ensures Graft(v, LoadSource(name, part), RestoreNames(fs, part), LoadTarget(part)) == Recovered(fs, part)
  {
    var g, r := Graft(v, LoadSource(name, part), RestoreNames(fs, part), LoadTarget(part)), Recovered(fs, part);
    forall q ensures (q in g <==> q in r) && (q in g ==> g[q] == r[q]) {
      GraftBackAt(v, fs, name, parts, part, q);
    }
    assert g == r;
  }

  /** `cp` into an existing directory, all operands present. */
  lemma CpInto(v: Volume, dir: Path, names: set<string>, dest: Path)
    requires IsDirectory(v, dest) && forall n | n in names :: dir + [n] in v
    ensures var g := Graft(v, dir, names, dest);
            Cp(v, dir, names, dest) == if names == {} || Clash(v, g) then None else Some(v + g)
  {
  }

  /** Restoring one saved part into an existing directory. */
  lemma {:induction false} LoadExact(v: Volume, fs: Volume, name: string, parts: seq<Part>, part: Part)
    requires Holds(v, fs, name, parts) && IsDirectory(v, LoadTarget(part))
    ensures LoadPart(v, name, part) ==
            if part in parts && RestoreNames(fs, part) != {} && !Clash(v, Recovered(fs, part))
            then Some(v + Recovered(fs, part)) else None
  {
    NamesHeld(v, fs, name, parts, part);
    forall n | n in LoadNames(v, name, part) ensures LoadSource(name, part) + [n] in v {
      LoadOperands(v, name, part, n);
    }
    CpInto(v, LoadSource(name, part), LoadNames(v, name, part), LoadTarget(part));
    if part in parts {
      GraftBack(v, fs, name, parts, part);
    }
  }

  /** The copies of a Restore, in order, stopping at the first failure. */
  function LoadAll(v: Volume, name: string, parts: seq<Part>): Option<Volume>
  {
    if parts == [] then Some(v)
    else match LoadAll(v, name, parts[..|parts| - 1])
         case None => None
         case Some(s) => LoadPart(s, name, parts[|parts| - 1])
  }

  /** What can be checked before a Restore starts: every part was saved, is not empty, and clashes with nothing. */
  predicate RestorePossible(v: Volume, fs: Volume, saved: seq<Part>, parts: seq<Part>)
  {
    forall part | part in parts ::
      part in saved && RestoreNames(fs, part) != {} && !Clash(v, Recovered(fs, part))
  }

  predicate TargetsExist(v: Volume, parts: seq<Part>)
  {
    forall part | part in parts :: IsDirectory(v, LoadTarget(part))
  }

  lemma {:induction false} RecoveredAllAt(fs: Volume, parts: seq<Part>, q: Path)
    ensures q in RecoveredAll(fs, parts) <==> q in fs && Selected(fs, parts, q)
    ensures q in RecoveredAll(fs, parts) ==> RecoveredAll(fs, parts)[q] == fs[q] && HOME <= q && q != HOME
  {
    if parts != [] {
      var front, last := parts[..|parts| - 1], parts[|parts| - 1];
      assert parts == front + [last];
      RecoveredAllAt(fs, front, q);
      if q in Recovered(fs, last) {
        assert LoadTarget(last) <= q && HOME <= LoadTarget(last);
      }
    }
  }

  /** Bringing parts back never replaces the directories `jobs` and `plugins` themselves. */
  lemma TargetsKept(fs: Volume, parts: seq<Part>, part: Part)
    ensures LoadTarget(part) !in RecoveredAll(fs, parts)
  {
    PartNames();
    RecoveredAllAt(fs, parts, LoadTarget(part));
  }

  lemma HoldsKept(v: Volume, fs: Volume, name: string, saved: seq<Part>, parts: seq<Part>)
    requires Holds(v, fs, name, saved)
    ensures Holds(v + RecoveredAll(fs, parts), fs, name, saved)
  {
    var d := BackupDirectory(name);
    forall p | d <= p ensures p !in RecoveredAll(fs, parts) {
      RecoveredAllAt(fs, parts, p);
      PoolApart(name, p);
    }
  }

  /** A later part clashes with the partly restored volume exactly when it clashed before. */
  lemma ClashKept(v: Volume, fs: Volume, parts: seq<Part>, part: Part)
    requires forall q | q in parts :: !Clash(v, Recovered(fs, q))
    ensures Clash(v + RecoveredAll(fs, parts), Recovered(fs, part)) <==> Clash(v, Recovered(fs, part))
  {
    var w, g := v + RecoveredAll(fs, parts), Recovered(fs, part);
    forall p | p in g
      ensures (p in w && g[p].Directory? != w[p].Directory?) <==> (p in v && g[p].Directory? != v[p].Directory?)
    {
      RecoveredAllAt(fs, parts, p);
      if p in RecoveredAll(fs, parts) {
        var q :| q in parts && Under(LoadTarget(q), RestoreNames(fs, q), p);
        assert p in Recovered(fs, q) && Recovered(fs, q)[p] == fs[p];
      }
    }
  }

  lemma RecoveredAllSnoc(fs: Volume, front: seq<Part>, last: Part)
    ensures RecoveredAll(fs, front + [last]) == RecoveredAll(fs, front) + Recovered(fs, last)
  {
    assert (front + [last])[..|front + [last]| - 1] == front;
  }

  lemma RecoveredGrows(v: Volume, fs: Volume, front: seq<Part>, last: Part)
    ensures v + RecoveredAll(fs, front) + Recovered(fs, last) == v + RecoveredAll(fs, front + [last])
  {
    RecoveredAllSnoc(fs, front, last);
    MergeAssociates(v, RecoveredAll(fs, front), Recovered(fs, last));
  }

  lemma LoadOneMore(v: Volume, fs: Volume, name: string, saved: seq<Part>, front: seq<Part>, last: Part)
    requires Holds(v, fs, name, saved) && IsDirectory(v, LoadTarget(last))
    requires RestorePossible(v, fs, saved, front)
    ensures LoadPart(v + RecoveredAll(fs, front), name, last) ==
            if RestorePossible(v, fs, saved, [last]) then Some(v + RecoveredAll(fs, front + [last])) else None
  {
    var w := v + RecoveredAll(fs, front);
    HoldsKept(v, fs, name, saved, front);
    TargetsKept(fs, front, last);
    LoadExact(w, fs, name, saved, last);
    ClashKept(v, fs, front, last);
    RecoveredGrows(v, fs, front, last);
  }

  lemma LoadAllStep(v: Volume, name: string, front: seq<Part>, last: Part)
    ensures LoadAll(v, name, front + [last]) ==
            if LoadAll(v, name, front).None? then None else LoadPart(LoadAll(v, name, front).value, name, last)
  {
    hide LoadPart;
    assert (front + [last])[..|front + [last]| - 1] == front;
  }

  lemma {:induction false} LoadAllExact(v: Volume, fs: Volume, name: string, saved: seq<Part>, parts: seq<Part>)
    requires Holds(v, fs, name, saved) && TargetsExist(v, parts)
    ensures LoadAll(v, name, parts) ==
            if RestorePossible(v, fs, saved, parts) then Some(v + RecoveredAll(fs, parts)) else None
    decreases |parts|
  {
    if parts == [] {
      assert v + map[] == v;
    } else {
      hide LoadAll, LoadPart, RecoveredAll, RestorePossible, Holds, Recovered;
      var front, last := parts[..|parts| - 1], parts[|parts| - 1];
      assert parts == front + [last];
      LoadAllExact(v, fs, name, saved, front);
      LoadAllStep(v, name, front, last);
      PossibleGrows(v, fs, saved, front, last);
      if RestorePossible(v, fs, saved, front) {
        LoadOneMore(v, fs, name, saved, front, last);
      }
    }
  }

  lemma PossibleGrows(v: Volume, fs: Volume, saved: seq<Part>, front: seq<Part>, last: Part)
    ensures RestorePossible(v, fs, saved, front + [last]) <==>
            RestorePossible(v, fs, saved, front) && RestorePossible(v, fs, saved, [last])
  {
    var parts := front + [last];
    assert last in [last] && last in parts && forall part | part in front :: part in parts;
  }

  lemma BackupHolds(fs: Volume, name: string, options: Options)
    requires Tree(fs) && Mounted(fs) && Backup(fs, name, options).Some?
    ensures Holds(Backup(fs, name, options).value, fs, name, Plan(options))
  {
    BackupExact(fs, name, options);
    var s, d := SavedVolume(fs, name, Plan(options)), BackupDirectory(name);
    var g := Graft(fs, HOME, AllNames(fs, Plan(options)), d);
    SavedVolumeAt(fs, name, Plan(options), d);
    forall p: Path | d <= p && p != d
      ensures (p in s <==> p in g) && (p in s ==> s[p] == g[p])
    {
      SavedVolumeAt(fs, name, Plan(options), p);
    }
  }

  /**
   * The round trip. A Backup of `before` succeeded; since then anything may have happened to Jenkins home, but
   * not to the backup directory; the directories restored into still exist. The Restore succeeds if and only if
   * every requested part was saved, has a visible entry, and clashes with nothing. After it every selected path
   * holds what it held when the backup was taken, at its original place, and every other path is unchanged.
   */
  lemma {:induction false} RoundTripExact(before: Volume, name: string, saved: Options, later: Volume, options: Options)
    requires Tree(before) && Mounted(before) && Backup(before, name, saved).Some?
    requires SameBelow(Backup(before, name, saved).value, later, BackupDirectory(name))
    requires TargetsExist(later, Plan(options))
    ensures var r := LoadAll(later, name, Plan(options));
            && (r.Some? <==> RestorePossible(later, before, Plan(saved), Plan(options)))
            && (r.Some? ==>
                  && (forall q | q in before && Selected(before, Plan(options), q) ::
                        q in r.value && r.value[q] == before[q])
                  && (forall p | !(p in before && Selected(before, Plan(options), p)) ::
                        (p in r.value <==> p in later) && (p in r.value ==> r.value[p] == later[p])))
  {
    BackupHolds(before, name, saved);
    assert Holds(later, before, name, Plan(saved));
    LoadAllExact(later, before, name, Plan(saved), Plan(options));
    forall p
      ensures p in RecoveredAll(before, Plan(options)) <==> p in before && Selected(before, Plan(options), p)
      ensures p in RecoveredAll(before, Plan(options)) ==> RecoveredAll(before, Plan(options))[p] == before[p]
    {
      RecoveredAllAt(before, Plan(options), p);
    }
  }

  lemma StillPossible(v: Volume, fs: Volume, saved: seq<Part>, parts: seq<Part>)
    requires TargetsExist(v, parts) && RestorePossible(v, fs, saved, parts)
    ensures var once := v + RecoveredAll(fs, parts);
            TargetsExist(once, parts) && RestorePossible(once, fs, saved, parts)
  {
    forall part | part in parts
      ensures var once := v + RecoveredAll(fs, parts);
              IsDirectory(once, LoadTarget(part)) && !Clash(once, Recovered(fs, part))
    {
      TargetsKept(fs, parts, part);
      ClashKept(v, fs, parts, part);
    }
  }

  /** Repeating a successful Restore of the same backup succeeds and changes nothing. */
  lemma {:induction false} RestoreTwice(before: Volume, name: string, saved: Options, later: Volume, options: Options)
    requires Tree(before) && Mounted(before) && Backup(before, name, saved).Some?
    requires SameBelow(Backup(before, name, saved).value, later, BackupDirectory(name))
    requires TargetsExist(later, Plan(options)) && LoadAll(later, name, Plan(options)).Some?
    ensures var once := LoadAll(later, name, Plan(options)).value;
            LoadAll(once, name, Plan(options)) == Some(once)
  {
    BackupHolds(before, name, saved);
    LoadTwice(later, before, name, Plan(saved), Plan(options));
  }

  lemma LoadTwice(v: Volume, fs: Volume, name: string, saved: seq<Part>, parts: seq<Part>)
    requires Holds(v, fs, name, saved) && TargetsExist(v, parts) && LoadAll(v, name, parts).Some?
    ensures LoadAll(LoadAll(v, name, parts).value, name, parts) == LoadAll(v, name, parts)
  {
    LoadAllExact(v, fs, name, saved, parts);
    var once := v + RecoveredAll(fs, parts);
    HoldsKept(v, fs, name, saved, parts);
    StillPossible(v, fs, saved, parts);
    LoadAllExact(once, fs, name, saved, parts);
    assert once + RecoveredAll(fs, parts) == once;
  }

  /** Every selected file of the part is back in its place. */
  predicate FilesBack(v: Volume, fs: Volume, part: Part)
  {
    forall q | q in Recovered(fs, part) :: fs[q].File? ==> q in v && v[q] == fs[q]
  }

  lemma {:induction false} NothingUnder(fs: Volume, d: Path, p: Path)
    requires Tree(fs) && !IsDirectory(fs, d) && d <= p && p != d
    ensures p !in fs
    decreases |p|
  {
    var up := p[..|p| - 1];
    if up != d {
      NothingUnder(fs, d, up);
    }
  }

  lemma {:induction false} Longest(ps: set<Path>) returns (q: Path)
    requires ps != {}
    ensures q in ps && forall p | p in ps :: |p| <= |q|
    decreases |ps|
  {
    q :| q in ps;
    if ps != {q} {
      var r := Longest(ps - {q});
      if |r| > |q| {
        q := r;
      }
    }
  }

  /** A file found where a misplaced copy should have put it came from one level deeper in the archive. */
  lemma DeeperInArchive(v: Volume, name: string, part: Part, n: string, q: Path)
    requires !part.Xml? && Tree(v) && !IsDirectory(v, LoadTarget(part))
    requires LoadTarget(part) <= q && q != LoadTarget(part)
    requires q in v + Transplant(v, LoadSource(name, part) + [n], LoadTarget(part))
    ensures var p := LoadSource(name, part) + [n] + q[|LoadTarget(part)|..];
            p in v && (v + Transplant(v, LoadSource(name, part) + [n], LoadTarget(part)))[q] == v[p]
  {
    TransplantAt(v, LoadSource(name, part) + [n], LoadTarget(part), q);
    NothingUnder(v, LoadTarget(part), q);
  }

  /** What the archive holds one level deeper was there in the original too. */
  lemma DeeperInOriginal(v: Volume, fs: Volume, name: string, parts: seq<Part>, part: Part, n: string, tail: Path)
    requires Holds(v, fs, name, parts) && !part.Xml? && RestoreNames(fs, part) == {n}
    requires LoadSource(name, part) + [n] + tail in v
    ensures LoadTarget(part) + [n] + tail in Recovered(fs, part)
    ensures v[LoadSource(name, part) + [n] + tail] == fs[LoadTarget(part) + [n] + tail]
  {
    var t := [PartName(part), n] + tail;
    PathsLineUp(name, part, n, tail);
    HeldChild(v, fs, name, parts, t);
  }

  lemma PathsLineUp(name: string, part: Part, n: string, tail: Path)
    requires !part.Xml?
    ensures var t := [PartName(part), n] + tail; var p := LoadTarget(part) + [n] + tail;
            && BackupDirectory(name) + t == LoadSource(name, part) + [n] + tail
            && HOME + t == p && LoadTarget(part) <= p && |p| > |LoadTarget(part)| && p[|LoadTarget(part)|] == n
  {
    var t, p := [PartName(part), n] + tail, LoadTarget(part) + [n] + tail;
    assert BackupDirectory(name) + t == BackupDirectory(name) + [PartName(part)] + [n] + tail;
    assert HOME + t == HOME + [PartName(part)] + [n] + tail == p;
  }

  /** A file copied one level too high has its own name one level deeper in the archive. */
  lemma MisplacedFile(v: Volume, fs: Volume, name: string, parts: seq<Part>, part: Part, n: string, q: Path)
    requires Holds(v, fs, name, parts) && !part.Xml? && Tree(v)
    requires !IsDirectory(v, LoadTarget(part)) && RestoreNames(fs, part) == {n}
    requires q in Recovered(fs, part) && fs[q].File?
    requires var w := v + Transplant(v, LoadSource(name, part) + [n], LoadTarget(part)); q in w && w[q] == fs[q]
    ensures exists p :: p in Recovered(fs, part) && fs[p].File? && |p| == |q| + 1
  {
    var t := LoadTarget(part);
    DeeperInArchive(v, name, part, n, q);
    DeeperInOriginal(v, fs, name, parts, part, n, q[|t|..]);
    var p := t + [n] + q[|t|..];
    assert p in Recovered(fs, part) && fs[p].File? && |p| == |q| + 1;
  }

  /** `cp` to something that is not a directory succeeds only for a single operand. */
  lemma CpOnto(v: Volume, dir: Path, names: set<string>, dest: Path)
    requires !IsDirectory(v, dest) && Cp(v, dir, names, dest).Some?
    ensures exists n :: names == {n} && Cp(v, dir, names, dest).value == v + Transplant(v, dir + [n], dest)
  {
    assert names == {Only(names)};
  }

  /**
   * Restoring `jobs` or `plugins` puts every file back if and only if the directory still exists in home: when it
   * is gone, a copy that succeeds leaves the only entry one level too high.
   */
  lemma {:induction false} FilesBackIffTargetExists(v: Volume, fs: Volume, name: string, parts: seq<Part>, part: Part)
    requires Holds(v, fs, name, parts) && !part.Xml? && Tree(v)
    requires LoadPart(v, name, part).Some?
    requires exists q :: q in Recovered(fs, part) && fs[q].File?
    ensures FilesBack(LoadPart(v, name, part).value, fs, part) <==> IsDirectory(v, LoadTarget(part))
  {
    var w := LoadPart(v, name, part).value;
    if IsDirectory(v, LoadTarget(part)) {
      LoadExact(v, fs, name, parts, part);
    } else {
      NamesHeld(v, fs, name, parts, part);
      CpOnto(v, LoadSource(name, part), LoadNames(v, name, part), LoadTarget(part));
      var n :| LoadNames(v, name, part) == {n} && w == v + Transplant(v, LoadSource(name, part) + [n], LoadTarget(part));
      var files := set q | q in Recovered(fs, part) && fs[q].File?;
      var some :| some in Recovered(fs, part) && fs[some].File?;
      assert some in files;
      var q := Longest(files);
      assert forall p | p in Recovered(fs, part) && fs[p].File? :: p in files && |p| <= |q|;
      if q in w && w[q] == fs[q] {
        MisplacedFile(v, fs, name, parts, part, n, q);
      }
    }
  }

  /** A successful Backup leaves a tree. */
  lemma SavedTree(fs: Volume, name: string, parts: seq<Part>)
    requires Tree(fs) && Mounted(fs) && BackupDirectory(name) !in fs
    ensures Tree(SavedVolume(fs, name, parts))
  {
    var s := SavedVolume(fs, name, parts);
    forall p: Path | p in s && |p| > 0 ensures IsDirectory(s, p[..|p| - 1]) {
      SavedParent(fs, name, parts, p);
    }
  }

  lemma SavedParent(fs: Volume, name: string, parts: seq<Part>, p: Path)
    requires Tree(fs) && Mounted(fs) && BackupDirectory(name) !in fs
    requires p in SavedVolume(fs, name, parts) && |p| > 0
    ensures IsDirectory(SavedVolume(fs, name, parts), p[..|p| - 1])
  {
    hide SavedVolume, Graft, AllNames;
    var d, up := BackupDirectory(name), p[..|p| - 1];
    SavedVolumeAt(fs, name, parts, p);
    SavedVolumeAt(fs, name, parts, up);
    PrefixUp(d, p);
    if p == d {
      assert up == POOL && !(d <= POOL);
    } else if d <= p {
      if up != d {
        GraftParent(fs, AllNames(fs, parts), d, p);
      }
    }
  }

  lemma PrefixUp(d: Path, p: Path)
    requires |p| > 0
    ensures d <= p[..|p| - 1] ==> d <= p
    ensures d <= p && d != p ==> d <= p[..|p| - 1]
  {
  }

  lemma GraftParent(fs: Volume, names: set<string>, d: Path, p: Path)
    requires Tree(fs) && p in Graft(fs, HOME, names, d) && |p| > |d| + 1
    ensures IsDirectory(Graft(fs, HOME, names, d), p[..|p| - 1])
  {
    hide Graft;
    var up := p[..|p| - 1];
    GraftAt(fs, HOME, names, d, p);
    GraftAt(fs, HOME, names, d, up);
    assert Reroot(d, HOME, up) == Reroot(d, HOME, p)[..|Reroot(d, HOME, p)| - 1];
  }

  lemma TargetInHome(part: Part, p: Path)
    ensures LoadTarget(part) <= p ==> HOME <= p
  {
    assert HOME <= LoadTarget(part);
  }

  /** The volume without the directory a part is restored into. */
  function Without(v: Volume, part: Part): Volume
  {
    map p | p in v && !(LoadTarget(part) <= p) :: v[p]
  }

  lemma WithoutTree(v: Volume, part: Part)
    requires Tree(v)
    ensures Tree(Without(v, part))
  {
    var w := Without(v, part);
    forall p: Path | p in w && |p| > 0 ensures IsDirectory(w, p[..|p| - 1]) {
      assert IsDirectory(v, p[..|p| - 1]);
      PrefixUp(LoadTarget(part), p);
    }
  }

  /** Losing the directory in home does not touch the archive. */
  lemma WithoutHolds(v: Volume, fs: Volume, name: string, parts: seq<Part>, part: Part)
    requires Holds(v, fs, name, parts)
    ensures Holds(Without(v, part), fs, name, parts)
  {
    forall p: Path | BackupDirectory(name) <= p
      ensures (p in Without(v, part) <==> p in v) && (p in v ==> Without(v, part)[p] == v[p])
    {
      PoolApart(name, p);
      TargetInHome(part, p);
    }
  }

  /** `cp` of the only operand to a path that does not exist, in a directory that does. */
  lemma CpToNew(v: Volume, dir: Path, n: string, dest: Path)
    requires dir + [n] in v && |dest| > 0 && dest !in v && IsDirectory(v, dest[..|dest| - 1])
    ensures Cp(v, dir, {n}, dest).Some?
  {
    assert Single({n});
  }

  lemma LoadsWithout(v: Volume, fs: Volume, name: string, parts: seq<Part>, part: Part, n: string)
    requires Holds(v, fs, name, parts) && part in parts && !part.Xml? && IsDirectory(v, HOME)
    requires RestoreNames(fs, part) == {n}
    ensures LoadPart(Without(v, part), name, part).Some?
  {
    var w := Without(v, part);
    WithoutHolds(v, fs, name, parts, part);
    NamesHeld(w, fs, name, parts, part);
    LoadOperands(w, name, part, n);
    assert LoadTarget(part)[..|LoadTarget(part)| - 1] == HOME;
    CpToNew(w, LoadSource(name, part), n, LoadTarget(part));
  }

  /**
   * The false side of the equivalence, for every volume: when the saved directory had exactly one visible entry,
   * with a file in it, and is gone from home at the time of the Restore, the copy succeeds and files are not back.
   */
  lemma {:induction false} MisplacedWhenGone(fs: Volume, name: string, options: Options, part: Part, n: string)
    requires Tree(fs) && Mounted(fs) && Backup(fs, name, options).Some?
    requires !part.Xml? && part in Plan(options) && RestoreNames(fs, part) == {n}
    requires exists q :: q in Recovered(fs, part) && fs[q].File?
    ensures var later := Without(Backup(fs, name, options).value, part);
            LoadPart(later, name, part).Some? && !FilesBack(LoadPart(later, name, part).value, fs, part)
  {
    hide Holds, LoadPart, FilesBack, Recovered, RestoreNames, Backup, SavedVolume;
    BackupExact(fs, name, options);
    var s := Backup(fs, name, options).value;
    BackupHolds(fs, name, options);
    SavedTree(fs, name, Plan(options));
    HomeStays(fs, name, Plan(options));
    LoadsWithout(s, fs, name, Plan(options), part, n);
    WithoutHolds(s, fs, name, Plan(options), part);
    WithoutTree(s, part);
    FilesBackIffTargetExists(Without(s, part), fs, name, Plan(options), part);
  }

  lemma HomeStays(fs: Volume, name: string, parts: seq<Part>)
    requires Tree(fs) && Mounted(fs) && BackupDirectory(name) !in fs
    ensures IsDirectory(SavedVolume(fs, name, parts), HOME)
  {
    SavedVolumeAt(fs, name, parts, HOME);
    assert HOME[0] != POOL[0];
    assert BackupDirectory(name)[0] == POOL[0];
  }

  const JOBS: Path := HOME + ["jobs"]

  /** A Jenkins home with one file below `jobs`, and an empty backup volume. */
  function OneJob(): Volume
  {
    map[[] := Directory, ["var"] := Directory, ["var", "lib"] := Directory, HOME := Directory, POOL := Directory,
        JOBS := Directory, JOBS + ["build"] := File("steps")]
  }

  lemma OneJobTree()
    ensures Tree(OneJob()) && Mounted(OneJob())
  {
    var fs := OneJob();
    forall p: Path | p in fs && |p| > 0 ensures IsDirectory(fs, p[..|p| - 1]) {
      if |p| == 1 {
        assert p[..0] == [];
      } else if |p| == 2 {
        assert p[..1] == ["var"];
      } else if |p| == 3 {
        assert p[..2] == ["var", "lib"];
      } else if |p| == 4 {
        assert p[..3] == HOME;
      } else {
        assert p[..4] == JOBS;
      }
    }
  }

  lemma OneJobNames()
    ensures Star(OneJob(), JOBS) == {"build"}
  {
    var fs := OneJob();
    assert (JOBS + ["build"])[|JOBS|] == "build" && JOBS <= JOBS + ["build"];
    assert JOBS + ["build"] in fs;
    assert "build" in Children(fs, JOBS);
    forall n | n in Children(fs, JOBS) ensures n == "build" {
      var p :| p in fs && |p| == |JOBS| + 1 && JOBS <= p && p[|JOBS|] == n;
      assert p == JOBS + ["build"];
    }
  }

  /** One such volume: the Restore of the only job succeeds and the job is not back. */
  lemma OneJobMisplaced(name: string)
    ensures var options := Options(false, true, false); var b := Backup(OneJob(), name, options);
            b.Some? && var r := LoadPart(Without(b.value, Jobs), name, Jobs);
            r.Some? && !FilesBack(r.value, OneJob(), Jobs)
  {
    hide Cp, Tree, Recovered, FilesBack, LoadPart, Without, Backup;
    var fs, options := OneJob(), Options(false, true, false);
    OneJobTree();
    OneJobNames();
    BackupExact(fs, name, options);
    OneJobPossible(name);
    OneJobRecovered();
    MisplacedWhenGone(fs, name, options, Jobs, "build");
  }

  lemma OneJobPossible(name: string)
    ensures BackupPossible(OneJob(), name, Options(false, true, false))
    ensures Jobs in Plan(Options(false, true, false)) && RestoreNames(OneJob(), Jobs) == {"build"}
  {
    OneJobNames();
    assert Plan(Options(false, true, false)) == [Jobs];
    assert HOME + [PartName(Jobs)] == JOBS;
    assert BackupDirectory(name)[0] == "jenkins-backups";
    assert |BackupDirectory(name)| == 2;
  }

  lemma OneJobRecovered()
    ensures exists q :: q in Recovered(OneJob(), Jobs) && OneJob()[q].File?
  {
    OneJobNames();
    var q := JOBS + ["build"];
    assert Under(LoadTarget(Jobs), RestoreNames(OneJob(), Jobs), q);
    assert q in Recovered(OneJob(), Jobs) && OneJob()[q].File?;
  }
}
