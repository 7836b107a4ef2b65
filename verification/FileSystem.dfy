/**
 * The two volumes of the backup sidecar, and what mkdir, cp -r and pathname expansion do to them
 * (POSIX.1-2017, XCU sections 2.13.3, mkdir and cp).
 */
module FileSystem {
  import opened Common
  import opened Protocol

  /** A path below the root, component by component. */
  type Path = seq<string>

  datatype Node = Directory | File(content: string)

  type Volume = map<Path, Node>

  const HOME: Path := ["var", "lib", "jenkins"]
  const POOL: Path := ["jenkins-backups"]

  function BackupDirectory(name: string): Path
  {
    POOL + [name]
  }

  predicate IsDirectory(fs: Volume, p: Path)
  {
    p in fs && fs[p].Directory?
  }

  /** Every path but the root lies in a directory. */
  ghost predicate Tree(fs: Volume)
  {
    forall p: Path | p in fs && |p| > 0 :: IsDirectory(fs, p[..|p| - 1])
  }

  /** Both volumes are mounted. */
  predicate Mounted(fs: Volume)
  {
    IsDirectory(fs, HOME) && IsDirectory(fs, POOL)
  }

  predicate Hidden(name: string)
  {
    |name| > 0 && name[0] == '.'
  }

  predicate EndsInXml(name: string)
  {
    |name| >= 4 && name[|name| - 4..] == ".xml"
  }

  function Children(fs: Volume, dir: Path): set<string>
  {
    set p | p in fs && |p| == |dir| + 1 && dir <= p :: p[|dir|]
  }

  // Expansion of the pattern * in `dir`: a leading period is never matched.
  function Star(fs: Volume, dir: Path): set<string>
  {
    set n | n in Children(fs, dir) && !Hidden(n)
  }

  // Expansion of the pattern *.xml in `dir`.
  function StarXml(fs: Volume, dir: Path): set<string>
  {
    set n | n in Children(fs, dir) && !Hidden(n) && EndsInXml(n)
  }

  lemma ChildIff(v: Volume, dir: Path, n: string)
    ensures n in Children(v, dir) <==> dir + [n] in v
  {
    if n in Children(v, dir) {
      var p :| p in v && |p| == |dir| + 1 && dir <= p && p[|dir|] == n;
      assert p == dir + [n];
    }
    if dir + [n] in v {
      assert (dir + [n])[|dir|] == n && dir <= dir + [n];
    }
  }

  /** The pattern * expands to exactly the entries whose names do not start with a period. */
  lemma StarMatches(fs: Volume, dir: Path, n: string)
    ensures n in Star(fs, dir) <==> dir + [n] in fs && (n == "" || n[0] != '.')
  {
    ChildIff(fs, dir, n);
  }

  /** The pattern *.xml expands to exactly the entries called something, not starting with a period, then ".xml". */
  lemma StarXmlMatches(fs: Volume, dir: Path, n: string)
    ensures n in StarXml(fs, dir) <==>
            dir + [n] in fs && exists stem: string :: stem != "" && stem[0] != '.' && n == stem + ".xml"
  {
    ChildIff(fs, dir, n);
    if n in StarXml(fs, dir) {
      var stem := n[..|n| - 4];
      assert n == stem + ".xml" && ".xml"[0] == '.';
      assert stem != "" && stem[0] == n[0];
    }
    forall stem: string | stem != "" && stem[0] != '.' && n == stem + ".xml"
      ensures EndsInXml(n) && !Hidden(n)
    {
      assert n[|n| - 4..] == ".xml";
    }
  }

  /** `p` is one of the named entries of `dir` or lies below one. */
  predicate Under(dir: Path, names: set<string>, p: Path)
  {
    |p| > |dir| && dir <= p && p[|dir|] in names
  }

  /** The path `q` below `from`, moved below `to`. */
  function Reroot(from: Path, to: Path, q: Path): Path
    requires |from| <= |q|
  {
    to + q[|from|..]
  }

  /** What copying the named entries of `dir` into the existing directory `dest` writes. */
  function Graft(fs: Volume, dir: Path, names: set<string>, dest: Path): Volume
  {
    map p | p in (set q | q in fs && Under(dir, names, q) :: Reroot(dir, dest, q)) &&
            |dest| <= |p| && Reroot(dest, dir, p) in fs :: fs[Reroot(dest, dir, p)]
  }

  /** What copying the tree at `root` to the new path `dest` writes. */
  function Transplant(fs: Volume, root: Path, dest: Path): Volume
  {
    map p | p in (set q | q in fs && root <= q :: Reroot(root, dest, q)) &&
            |dest| <= |p| && Reroot(dest, root, p) in fs :: fs[Reroot(dest, root, p)]
  }

  lemma RerootBack(from: Path, to: Path, q: Path)
    requires from <= q
    ensures to <= Reroot(from, to, q) && Reroot(to, from, Reroot(from, to, q)) == q
    ensures |Reroot(from, to, q)| - |to| == |q| - |from|
    ensures |q| > |from| ==> Reroot(from, to, q)[|to|] == q[|from|]
  {
    assert from + q[|from|..] == q;
    assert Reroot(from, to, q)[|to|..] == q[|from|..];
  }

  /** A graft holds exactly the moved entries. */
  lemma GraftAt(fs: Volume, dir: Path, names: set<string>, dest: Path, p: Path)
    ensures p in Graft(fs, dir, names, dest) <==> Under(dest, names, p) && Reroot(dest, dir, p) in fs
    ensures p in Graft(fs, dir, names, dest) ==> Graft(fs, dir, names, dest)[p] == fs[Reroot(dest, dir, p)]
  {
    if p in Graft(fs, dir, names, dest) {
      var q :| q in fs && Under(dir, names, q) && p == Reroot(dir, dest, q);
      RerootBack(dir, dest, q);
    }
    if Under(dest, names, p) {
      RerootBack(dest, dir, p);
    }
  }

  lemma TransplantAt(fs: Volume, root: Path, dest: Path, p: Path)
    ensures p in Transplant(fs, root, dest) <==> dest <= p && Reroot(dest, root, p) in fs
    ensures p in Transplant(fs, root, dest) ==> Transplant(fs, root, dest)[p] == fs[Reroot(dest, root, p)]
  {
    if p in Transplant(fs, root, dest) {
      var q :| q in fs && root <= q && p == Reroot(root, dest, q);
      RerootBack(root, dest, q);
    }
    if dest <= p {
      RerootBack(dest, root, p);
    }
  }

  /** A directory would replace a file, or a file a directory. */
  predicate Clash(fs: Volume, g: Volume)
  {
    exists p | p in g && p in fs :: g[p].Directory? != fs[p].Directory?
  }

  /** `cp -r dir/n1 ... dir/nk dest`, with no operand matched when `names` is empty. */
  function Cp(fs: Volume, dir: Path, names: set<string>, dest: Path): Option<Volume>
  {
    if names == {} || (exists n | n in names :: dir + [n] !in fs) then None
    else if IsDirectory(fs, dest) then
      var g := Graft(fs, dir, names, dest);
      if Clash(fs, g) then None else Some(fs + g)
    else if |dest| == 0 || !Single(names) then None
    else if dest in fs then
      if exists n | n in names :: IsDirectory(fs, dir + [n]) then None
      else Some(fs + Transplant(fs, dir + [Only(names)], dest))
    else if !IsDirectory(fs, dest[..|dest| - 1]) then None
    else Some(fs + Transplant(fs, dir + [Only(names)], dest))
  }

  /** `cp -r` of one entry onto a file: a file replaces its content and nothing else changes, a directory cannot. */
  lemma CpOntoFile(fs: Volume, dir: Path, n: string, dest: Path)
    requires dir + [n] in fs && dest in fs && fs[dest].File? && |dest| > 0
    requires fs[dir + [n]].File? ==> forall q | q in fs && dir + [n] <= q :: q == dir + [n]
    ensures Cp(fs, dir, {n}, dest) == if fs[dir + [n]].Directory? then None else Some(fs[dest := fs[dir + [n]]])
  {
    assert Single({n}) && Only({n}) == n;
    var root := dir + [n];
    if fs[root].File? {
      var t := Transplant(fs, root, dest);
      forall p: Path
        ensures p in t <==> p == dest
      {
        TransplantAt(fs, root, dest, p);
        if dest <= p {
          RerootBack(dest, root, p);
        }
        assert Reroot(dest, root, dest) == root;
        if p in t {
          assert Reroot(dest, root, p) == root;
          assert |p| == |dest|;
          assert p == dest;
        }
      }
      TransplantAt(fs, root, dest, dest);
      assert Reroot(dest, root, dest) == root;
      assert fs + t == fs[dest := fs[root]];
    }
  }

  predicate Single(names: set<string>)
  {
    exists n | n in names :: names == {n}
  }

  function Only(names: set<string>): (n: string)
    requires Single(names)
    ensures names == {n}
  {
    var n :| n in names && names == {n};
    n
  }

  /** `mkdir p`. */
  function MakeDir(fs: Volume, p: Path): Option<Volume>
  {
    if |p| == 0 || p in fs || !IsDirectory(fs, p[..|p| - 1]) then None else Some(fs[p := Directory])
  }

  function PartName(part: Part): string
    requires !part.Xml?
  {
    if part.Jobs? then "jobs" else "plugins"
  }

  /** The entries of Jenkins home that a Backup copies for a part. */
  function SaveNames(fs: Volume, part: Part): set<string>
  {
    if part.Xml? then StarXml(fs, HOME) else {PartName(part)}
  }

  function SavePart(fs: Volume, name: string, part: Part): Option<Volume>
  {
    Cp(fs, HOME, SaveNames(fs, part), BackupDirectory(name))
  }

  /** A Restore copies the entries of this directory ... */
  function LoadSource(name: string, part: Part): Path
  {
    if part.Xml? then BackupDirectory(name) else BackupDirectory(name) + [PartName(part)]
  }

  /** ... into this one. */
  function LoadTarget(part: Part): Path
  {
    if part.Xml? then HOME else HOME + [PartName(part)]
  }

  function LoadNames(fs: Volume, name: string, part: Part): set<string>
  {
    if part.Xml? then StarXml(fs, LoadSource(name, part)) else Star(fs, LoadSource(name, part))
  }

  function LoadPart(fs: Volume, name: string, part: Part): Option<Volume>
  {
    Cp(fs, LoadSource(name, part), LoadNames(fs, name, part), LoadTarget(part))
  }

  /** What a successful command does. The four scripts talk to Jenkins over HTTP and leave the volumes alone. */
  function Perform(fs: Volume, c: Command): Option<Volume>
  {
    match c
    case MakeDirectory(name) => MakeDir(fs, BackupDirectory(name))
    case Save(name, part) => SavePart(fs, name, part)
    case Load(name, part) => LoadPart(fs, name, part)
    case _ => Some(fs)
  }
}
