/** What a Backup leaves in its directory, and exactly when it succeeds. */
module Archive {
  import opened Common
  import opened Protocol
  import opened FileSystem

  /** Nothing lies in both volumes. */
  lemma Apart(p: Path)
    requires HOME <= p
    ensures !(POOL <= p)
  {
    assert p[0] == HOME[0];
    assert HOME[0] != POOL[0];
  }

  lemma PoolApart(name: string, p: Path)
    requires BackupDirectory(name) <= p
    ensures !(HOME <= p) && POOL <= p
  {
    assert p[0] == BackupDirectory(name)[0] == POOL[0];
    assert POOL <= p;
    if HOME <= p {
      Apart(p);
    }
  }

  /** Below a path that does not exist there is nothing. */
  lemma {:induction false} NothingBelow(fs: Volume, d: Path, p: Path)
    requires Tree(fs) && d !in fs && d <= p
    ensures p !in fs
    decreases |p|
  {
    if p != d {
      NothingBelow(fs, d, p[..|p| - 1]);
    }
  }

  /** The two volumes agree on Jenkins home. */
  ghost predicate SameHome(a: Volume, b: Volume)
  {
    forall p: Path | HOME <= p :: (p in a <==> p in b) && (p in a ==> a[p] == b[p])
  }

  lemma SameHomeSaves(a: Volume, b: Volume, part: Part, names: set<string>, dest: Path)
    requires SameHome(a, b)
    ensures SaveNames(a, part) == SaveNames(b, part)
    ensures Graft(a, HOME, names, dest) == Graft(b, HOME, names, dest)
    ensures forall n :: HOME + [n] in a <==> HOME + [n] in b
  {
    SameHomeChildren(a, b);
    SameHomeChildren(b, a);
    var g, h := Graft(a, HOME, names, dest), Graft(b, HOME, names, dest);
    forall p
      ensures (p in g <==> p in h) && (p in g ==> g[p] == h[p])
    {
      GraftAt(a, HOME, names, dest, p);
      GraftAt(b, HOME, names, dest, p);
      if Under(dest, names, p) {
        assert HOME <= Reroot(dest, HOME, p);
      }
    }
    assert g == h;
  }

  lemma SameHomeChildren(a: Volume, b: Volume)
    requires SameHome(a, b)
    ensures Children(a, HOME) <= Children(b, HOME)
  {
    forall n | n in Children(a, HOME) ensures n in Children(b, HOME) {
      var p :| p in a && |p| == |HOME| + 1 && HOME <= p && p[|HOME|] == n;
      assert p in b;
    }
  }

  /** The entries of home selected by the parts. */
  function AllNames(fs: Volume, parts: seq<Part>): set<string>
  {
    if parts == [] then {} else AllNames(fs, parts[..|parts| - 1]) + SaveNames(fs, parts[|parts| - 1])
  }

  /** The volume after the parts have been saved below the new directory. */
  function SavedVolume(fs: Volume, name: string, parts: seq<Part>): Volume
  {
    fs[BackupDirectory(name) := Directory] + Graft(fs, HOME, AllNames(fs, parts), BackupDirectory(name))
  }

  /** There is something to copy for the part. */
  predicate Savable(fs: Volume, part: Part)
  {
    if part.Xml? then StarXml(fs, HOME) != {} else HOME + [PartName(part)] in fs
  }

  lemma SavedVolumeAt(fs: Volume, name: string, parts: seq<Part>, p: Path)
    requires Tree(fs) && BackupDirectory(name) !in fs
    ensures var s := SavedVolume(fs, name, parts); var d := BackupDirectory(name);
            var g := Graft(fs, HOME, AllNames(fs, parts), d);
            && (!(d <= p) ==> (p in s <==> p in fs) && (p in s ==> s[p] == fs[p]))
            && (d <= p && p != d ==> (p in s <==> p in g) && (p in s ==> s[p] == g[p]))
            && d in s && s[d] == Directory
  {
    var d := BackupDirectory(name);
    GraftAt(fs, HOME, AllNames(fs, parts), d, p);
    GraftAt(fs, HOME, AllNames(fs, parts), d, d);
    if d <= p {
      NothingBelow(fs, d, p);
    }
  }

  lemma SavedHome(fs: Volume, name: string, parts: seq<Part>)
    requires Tree(fs) && BackupDirectory(name) !in fs
    ensures SameHome(SavedVolume(fs, name, parts), fs)
  {
    forall p: Path | HOME <= p
      ensures var s := SavedVolume(fs, name, parts); (p in s <==> p in fs) && (p in s ==> s[p] == fs[p])
    {
      SavedVolumeAt(fs, name, parts, p);
      if BackupDirectory(name) <= p {
        PoolApart(name, p);
      }
    }
  }

  lemma SaveNoClash(fs: Volume, name: string, parts: seq<Part>, names: set<string>)
    requires Tree(fs) && BackupDirectory(name) !in fs
    ensures var d := BackupDirectory(name); !Clash(SavedVolume(fs, name, parts), Graft(fs, HOME, names, d))
  {
    var d := BackupDirectory(name);
    var s, h := SavedVolume(fs, name, parts), Graft(fs, HOME, names, d);
    forall p | p in h && p in s ensures h[p] == s[p] {
      SavedVolumeAt(fs, name, parts, p);
      GraftAt(fs, HOME, names, d, p);
      GraftAt(fs, HOME, AllNames(fs, parts), d, p);
    }
  }

  lemma NamesExist(fs: Volume, dir: Path, n: string)
    requires n in Children(fs, dir)
    ensures dir + [n] in fs
  {
    var p :| p in fs && |p| == |dir| + 1 && dir <= p && p[|dir|] == n;
    assert p == dir + [n];
  }

  lemma GraftsJoin(fs: Volume, a: set<string>, b: set<string>, d: Path)
    ensures Graft(fs, HOME, a, d) + Graft(fs, HOME, b, d) == Graft(fs, HOME, a + b, d)
  {
    var l, r := Graft(fs, HOME, a, d) + Graft(fs, HOME, b, d), Graft(fs, HOME, a + b, d);
    forall p
      ensures (p in l <==> p in r) && (p in l ==> l[p] == r[p])
    {
      GraftAt(fs, HOME, a, d, p);
      GraftAt(fs, HOME, b, d, p);
      GraftAt(fs, HOME, a + b, d, p);
    }
    assert l == r;
  }

  lemma AllNamesSnoc(fs: Volume, parts: seq<Part>, part: Part)
    ensures AllNames(fs, parts + [part]) == AllNames(fs, parts) + SaveNames(fs, part)
  {
    assert (parts + [part])[..|parts + [part]| - 1] == parts;
  }

  lemma MergeAssociates(a: Volume, b: Volume, c: Volume)
    ensures a + b + c == a + (b + c)
  {
  }

  lemma SavedVolumeGrows(fs: Volume, name: string, parts: seq<Part>, part: Part)
    ensures SavedVolume(fs, name, parts) + Graft(fs, HOME, SaveNames(fs, part), BackupDirectory(name)) ==
            SavedVolume(fs, name, parts + [part])
  {
    var d, earlier, names := BackupDirectory(name), AllNames(fs, parts), SaveNames(fs, part);
    AllNamesSnoc(fs, parts, part);
    GraftsJoin(fs, earlier, names, d);
    MergeAssociates(fs[d := Directory], Graft(fs, HOME, earlier, d), Graft(fs, HOME, names, d));
  }

  /** Whether the operands of the copy exist. */
  lemma OperandsExist(fs: Volume, s: Volume, part: Part)
    requires SameHome(s, fs)
    ensures SaveNames(s, part) == SaveNames(fs, part)
    ensures (SaveNames(fs, part) == {} || exists n | n in SaveNames(fs, part) :: HOME + [n] !in s) <==>
            !Savable(fs, part)
  {
    SameHomeSaves(s, fs, part, {}, POOL);
    if part.Xml? {
      forall n | n in SaveNames(fs, part) ensures HOME + [n] in s {
        NamesExist(fs, HOME, n);
      }
    } else {
      assert PartName(part) in SaveNames(fs, part);
    }
  }

  /** `cp` into an existing directory where nothing clashes. */
  lemma CpAdds(s: Volume, names: set<string>, dest: Path)
    requires IsDirectory(s, dest) && !Clash(s, Graft(s, HOME, names, dest))
    ensures Cp(s, HOME, names, dest) ==
            if names == {} || exists n | n in names :: HOME + [n] !in s then None
            else Some(s + Graft(s, HOME, names, dest))
  {
  }

  /** Saving one more part succeeds exactly when there is something to copy, and adds exactly that. */
  lemma {:induction false} SaveStep(fs: Volume, name: string, parts: seq<Part>, part: Part)
    requires Tree(fs) && BackupDirectory(name) !in fs
    ensures var r := SavePart(SavedVolume(fs, name, parts), name, part);
            && (r.Some? <==> Savable(fs, part))
            && (r.Some? ==> r.value == SavedVolume(fs, name, parts + [part]))
  {
    SavedHome(fs, name, parts);
    SavedVolumeAt(fs, name, parts, BackupDirectory(name));
    SaveNoClash(fs, name, parts, SaveNames(fs, part));
    SavedVolumeGrows(fs, name, parts, part);
    SaveOne(fs, SavedVolume(fs, name, parts), BackupDirectory(name), part);
  }

  /** Saving a part into a volume with the same home. */
  lemma SaveOne(fs: Volume, s: Volume, d: Path, part: Part)
    requires SameHome(s, fs) && IsDirectory(s, d) && !Clash(s, Graft(fs, HOME, SaveNames(fs, part), d))
    ensures Cp(s, HOME, SaveNames(s, part), d) ==
            if Savable(fs, part) then Some(s + Graft(fs, HOME, SaveNames(fs, part), d)) else None
  {
    OperandsExist(fs, s, part);
    SameHomeSaves(s, fs, part, SaveNames(fs, part), d);
    CpAdds(s, SaveNames(fs, part), d);
  }

  /** The copies of a Backup, in order, stopping at the first failure. */
  function SaveAll(fs: Volume, name: string, parts: seq<Part>): Option<Volume>
  {
    if parts == [] then Some(fs)
    else match SaveAll(fs, name, parts[..|parts| - 1])
         case None => None
         case Some(s) => SavePart(s, name, parts[|parts| - 1])
  }

  /** mkdir and the copies of one Backup. */
  function Backup(fs: Volume, name: string, options: Options): Option<Volume>
  {
    match MakeDir(fs, BackupDirectory(name))
    case None => None
    case Some(s) => SaveAll(s, name, Plan(options))
  }

  /** What can be checked before a Backup starts. */
  predicate BackupPossible(fs: Volume, name: string, options: Options)
  {
    BackupDirectory(name) !in fs && forall part | part in Plan(options) :: Savable(fs, part)
  }

  lemma {:induction false} SaveAllExact(fs: Volume, name: string, parts: seq<Part>)
    requires Tree(fs) && BackupDirectory(name) !in fs
    ensures var r := SaveAll(fs[BackupDirectory(name) := Directory], name, parts);
            && (r.Some? <==> forall part | part in parts :: Savable(fs, part))
            && (r.Some? ==> r.value == SavedVolume(fs, name, parts))
    decreases |parts|
  {
    var d := BackupDirectory(name);
    if parts == [] {
      assert Graft(fs, HOME, {}, d) == map[] by {
        forall p ensures p !in Graft(fs, HOME, {}, d) {
          GraftAt(fs, HOME, {}, d, p);
        }
      }
      assert fs[d := Directory] + map[] == fs[d := Directory];
    } else {
      var front, last := parts[..|parts| - 1], parts[|parts| - 1];
      assert parts == front + [last];
      SaveAllExact(fs, name, front);
      SaveStep(fs, name, front, last);
    }
  }

  /**
   * A Backup succeeds if and only if its directory does not exist yet and every selected part has something to
   * copy; then the volume is the old one with exactly the selected entries of home below the new directory.
   */
  lemma {:induction false} BackupExact(fs: Volume, name: string, options: Options)
    requires Tree(fs) && Mounted(fs)
    ensures Backup(fs, name, options).Some? <==> BackupPossible(fs, name, options)
    ensures Backup(fs, name, options).Some? ==>
              Backup(fs, name, options).value == SavedVolume(fs, name, Plan(options))
  {
    var d := BackupDirectory(name);
    assert d[..|d| - 1] == POOL;
    if d !in fs {
      SaveAllExact(fs, name, Plan(options));
    }
  }
}
