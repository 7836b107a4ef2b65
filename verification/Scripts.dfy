/**
 * The command lines sent to the backup container, as text, and what the shell of that container makes of them
 * (POSIX.1-2017, XCU sections 2.6.5 and 2.13.3).
 */
module Scripts {
  import opened Common
  import opened Protocol
  import opened FileSystem
  import opened Strings
  import JenkinsOptions
  import Pods
  import Specs

  const HOME_PATH := "/var/lib/jenkins"
  const POOL_PATH := "/jenkins-backups"
  const HELPERS_PATH := "/jenkins-operator-scripts"

  /** The sub-location of a part, as both controllers spell it. */
  function SubLocation(part: Part): string
  {
    match part
    case Xml => "*.xml"
    case Jobs => "jobs"
    case Plugins => "plugins"
  }

  /** The words of a command line. */
  function Words(c: Command): seq<string>
  {
    match c
    case QuietDown => ["sh", HELPERS_PATH + "/quietdown.sh"]
    case CancelQuietDown => ["sh", HELPERS_PATH + "/cancelquietdown.sh"]
    case Restart => ["sh", HELPERS_PATH + "/restart.sh"]
    case SafeRestart => ["sh", HELPERS_PATH + "/saferestart.sh"]
    case MakeDirectory(name) => ["mkdir", POOL_PATH + "/" + name + "/"]
    case Save(name, part) => ["cp", "-r", HOME_PATH + "/" + SubLocation(part), POOL_PATH + "/" + name + "/"]
    case Load(name, part) =>
      if part.Xml? then ["cp", "-r", POOL_PATH + "/" + name + "/" + "*.xml", HOME_PATH + "/"]
      else ["cp", "-r", POOL_PATH + "/" + name + "/" + SubLocation(part) + "/*", HOME_PATH + "/" + SubLocation(part)]
  }

  function Script(c: Command): string
  {
    Join(Words(c), ' ')
  }

  /** The scripts the init container writes, by path, and the action each posts to Jenkins. */
  const HELPERS: map<string, string> := map[
    HELPERS_PATH + "/quietdown.sh" := "quietDown", HELPERS_PATH + "/cancelquietdown.sh" := "cancelQuietDown",
    HELPERS_PATH + "/restart.sh" := "restart", HELPERS_PATH + "/saferestart.sh" := "safeRestart"]

  function NonEmpty(parts: seq<string>): seq<string>
  {
    if parts == [] then []
    else (if parts[0] == "" then [] else [parts[0]]) + NonEmpty(parts[1..])
  }

  /** The components of a path: slashes at either end do not matter. */
  function Components(word: string): Path
  {
    NonEmpty(Split(word, '/'))
  }

  /** Pathname expansion of the last component. */
  function Expansion(fs: Volume, dir: Path, pattern: string): set<string>
  {
    if pattern == "*" then Star(fs, dir) else if pattern == "*.xml" then StarXml(fs, dir) else {pattern}
  }

  /** What a command line does: something to the volumes, or a request to Jenkins. */
  datatype Meaning = OnVolumes(result: Option<Volume>) | Post(action: string) | NotFound

  function Interpret(fs: Volume, script: string): Meaning
  {
    var w := Split(script, ' ');
    if |w| == 2 && w[0] == "sh" then
      if w[1] in HELPERS then Post(HELPERS[w[1]]) else NotFound
    else if |w| == 2 && w[0] == "mkdir" then OnVolumes(MakeDir(fs, Components(w[1])))
    else if |w| == 4 && w[0] == "cp" && w[1] == "-r" && Components(w[2]) != [] then
      var from := Components(w[2]);
      var dir := from[..|from| - 1];
      OnVolumes(Cp(fs, dir, Expansion(fs, dir, from[|from| - 1]), Components(w[3])))
    else NotFound
  }

  /** What the API server lets an object be called: lower case letters, digits, dashes and dots, a letter or digit first. */
  predicate ObjectName(name: string)
  {
    name != "" && name[0] != '-' && name[0] != '.' &&
    forall c | c in name :: 'a' <= c <= 'z' || '0' <= c <= '9' || c == '-' || c == '.'
  }

  lemma {:induction false} NonEmptyConcat(a: seq<string>, b: seq<string>)
    ensures NonEmpty(a + b) == NonEmpty(a) + NonEmpty(b)
    decreases |a|
  {
    if a == [] {
      assert a + b == b;
    } else {
      assert (a + b)[1..] == a[1..] + b;
      NonEmptyConcat(a[1..], b);
    }
  }

  lemma ComponentsConcat(a: string, b: string)
    ensures Components(a + "/" + b) == Components(a) + Components(b)
  {
    SplitConcat(a, b, '/');
    NonEmptyConcat(Split(a, '/'), Split(b, '/'));
  }

  lemma OneComponent(word: string)
    requires '/' !in word
    ensures Components(word) == if word == "" then [] else [word]
  {
    PieceIsWhole(word, '/');
    assert [word][1..] == [];
    assert NonEmpty([word]) == if word == "" then [] else [word];
  }

  /** A path with one component more. */
  lemma OneMore(path: string, word: string)
    requires '/' !in word && word != ""
    ensures Components(path + "/" + word) == Components(path) + [word]
  {
    OneComponent(word);
    ComponentsConcat(path, word);
  }

  lemma HomeParts()
    ensures Components(HOME_PATH) == HOME
  {
    hide Components;
    OneComponent("");
    OneMore("", "var");
    OneMore("/var", "lib");
    OneMore("/var/lib", "jenkins");
    assert "" + "/" + "var" == "/var" && "/var" + "/" + "lib" == "/var/lib" && "/var/lib" + "/" + "jenkins" == HOME_PATH;
  }

  lemma PoolParts()
    ensures Components(POOL_PATH) == POOL
  {
    hide Components;
    OneComponent("");
    OneMore("", "jenkins-backups");
    assert "" + "/" + "jenkins-backups" == POOL_PATH;
  }

  /** The two volumes by their paths. */
  lemma VolumePaths()
    ensures Components(HOME_PATH) == HOME && Components(POOL_PATH) == POOL
  {
    hide *;
    HomeParts();
    PoolParts();
  }

  lemma BackupPath(name: string)
    requires ObjectName(name)
    ensures Components(POOL_PATH + "/" + name) == BackupDirectory(name)
    ensures Components(POOL_PATH + "/" + name + "/") == BackupDirectory(name)
  {
    hide Components;
    VolumePaths();
    OneComponent(name);
    OneComponent("");
    ComponentsConcat(POOL_PATH, name);
    ComponentsConcat(POOL_PATH + "/" + name, "");
    assert POOL_PATH + "/" + name + "/" + "" == POOL_PATH + "/" + name + "/";
  }

  lemma HomePath(word: string)
    requires '/' !in word
    ensures Components(HOME_PATH + "/" + word) == if word == "" then HOME else HOME + [word]
  {
    VolumePaths();
    OneComponent(word);
    ComponentsConcat(HOME_PATH, word);
  }

  lemma LoadPath(name: string, part: Part)
    requires ObjectName(name)
    ensures Components(POOL_PATH + "/" + name + "/" + "*.xml") == BackupDirectory(name) + ["*.xml"]
    ensures Components(POOL_PATH + "/" + name + "/" + SubLocation(part) + "/*") ==
            BackupDirectory(name) + [SubLocation(part), "*"]
  {
    hide Components, BackupDirectory;
    BackupPath(name);
    var p := POOL_PATH + "/" + name;
    OneComponent("*.xml");
    OneComponent(SubLocation(part));
    OneComponent("*");
    ComponentsConcat(p, "*.xml");
    ComponentsConcat(p, SubLocation(part));
    ComponentsConcat(p + "/" + SubLocation(part), "*");
    assert p + "/" + SubLocation(part) + "/" + "*" == p + "/" + SubLocation(part) + "/*";
  }

  predicate NamesAnObject(c: Command)
  {
    match c
    case MakeDirectory(name) => ObjectName(name)
    case Save(name, _) => ObjectName(name)
    case Load(name, _) => ObjectName(name)
    case _ => true
  }

  /** The word has no space. */
  predicate Whole(word: string)
  {
    ' ' !in word
  }

  lemma WholeConcat(a: string, b: string)
    ensures Whole(a + b) <==> Whole(a) && Whole(b)
  {
  }

  lemma WholeConstants()
    ensures Whole("sh") && Whole("mkdir") && Whole("cp") && Whole("-r") && Whole("/") && Whole("/*") && Whole("*.xml")
    ensures Whole(HOME_PATH) && Whole(POOL_PATH) && Whole(HELPERS_PATH)
    ensures forall part :: Whole(SubLocation(part))
  {
  }

  lemma WholeHelpers()
    ensures forall c: Command | c.QuietDown? || c.CancelQuietDown? || c.Restart? || c.SafeRestart? :: Whole(Words(c)[1])
  {
  }

  lemma WholeName(name: string)
    requires ObjectName(name)
    ensures Whole(name)
  {
    assert forall c | c in name :: c != ' ';
  }

  lemma NoSpaces(c: Command)
    requires NamesAnObject(c)
    ensures forall w | w in Words(c) :: ' ' !in w
  {
    hide Whole, SubLocation, ObjectName;
    WholeConstants();
    WholeHelpers();
    forall a: string, b: string ensures Whole(a + b) <==> Whole(a) && Whole(b) {
      WholeConcat(a, b);
    }
    match c {
      case MakeDirectory(name) => WholeName(name);
      case Save(name, _) => WholeName(name);
      case Load(name, _) => WholeName(name);
      case _ =>
    }
    assert forall w | w in Words(c) :: Whole(w);
    AllWhole(Words(c));
  }

  lemma AllWhole(words: seq<string>)
    requires forall w | w in words :: Whole(w)
    ensures forall w | w in words :: ' ' !in w
  {
  }

  lemma SplitsIntoWords(c: Command)
    requires NamesAnObject(c)
    ensures Split(Script(c), ' ') == Words(c)
  {
    NoSpaces(c);
    SplitOfJoin(Words(c), ' ');
  }

  lemma HelpersFound()
    ensures HELPERS[HELPERS_PATH + "/quietdown.sh"] == "quietDown"
    ensures HELPERS[HELPERS_PATH + "/cancelquietdown.sh"] == "cancelQuietDown"
    ensures HELPERS[HELPERS_PATH + "/restart.sh"] == "restart"
    ensures HELPERS[HELPERS_PATH + "/saferestart.sh"] == "safeRestart"
  {
    var n := |HELPERS_PATH|;
    assert |HELPERS_PATH + "/quietdown.sh"| == n + 13 && |HELPERS_PATH + "/cancelquietdown.sh"| == n + 19;
    assert |HELPERS_PATH + "/restart.sh"| == n + 11 && |HELPERS_PATH + "/saferestart.sh"| == n + 15;
  }

  lemma LoadSays(fs: Volume, name: string, part: Part)
    requires ObjectName(name)
    ensures var w := Words(Load(name, part)); var from := Components(w[2]);
            from != [] && from[..|from| - 1] == LoadSource(name, part) && Components(w[3]) == LoadTarget(part) &&
            Expansion(fs, from[..|from| - 1], from[|from| - 1]) == LoadNames(fs, name, part)
  {
    hide Components, StarXml, Star;
    LoadPath(name, part);
    if part.Xml? {
      HomePath("");
      assert HOME_PATH + "/" + "" == HOME_PATH + "/";
      var from := BackupDirectory(name) + ["*.xml"];
      assert from[..|from| - 1] == BackupDirectory(name);
    } else {
      HomePath(SubLocation(part));
      var from := BackupDirectory(name) + [SubLocation(part), "*"];
      assert from[..|from| - 1] == BackupDirectory(name) + [SubLocation(part)];
    }
  }

  /**
   * The text says what is meant: for every volume and every name an object can have, the shell makes of each command
   * line exactly what the command stands for, and each of the four scripts is one the init container writes, posting
   * the action of its command.
   */
  lemma {:induction false} ScriptsSayWhatIsMeant(fs: Volume, c: Command)
    requires NamesAnObject(c)
    ensures Interpret(fs, Script(c)) ==
            match c
            case QuietDown => Post("quietDown")
            case CancelQuietDown => Post("cancelQuietDown")
            case Restart => Post("restart")
            case SafeRestart => Post("safeRestart")
            case _ => OnVolumes(Perform(fs, c))
  {
    hide Components, Split, Join, Cp, BackupDirectory, StarXml, Star;
    SplitsIntoWords(c);
    match c
    case MakeDirectory(name) => BackupPath(name);
    case Save(name, part) =>
      BackupPath(name);
      HomePath(SubLocation(part));
    case Load(name, part) => LoadSays(fs, name, part);
    case _ => HelpersFound();
  }

  /** Where the backup container sees Jenkins home, if anywhere. */
  predicate SeesHomeAt(master: Specs.MasterValue, p: Path)
    requires master.containers != []
  {
    exists m | m in Pods.BackupSidecar(master).mounts :: m.name == "jenkins-home" && Components(m.path) == p
  }

  /**
   * Both containers of the backup mount the scripts where the command lines look for them, and the running one mounts
   * the pool where they write; but the paths of Jenkins home are fixed in the command lines and taken from the spec in
   * the mounts, so a Backup copies from Jenkins home if and only if JENKINS_HOME is not set or names the fixed path.
   */
  lemma HomeIsSeenIff(master: Specs.MasterValue, image: string)
    requires master.containers != []
    ensures Specs.Mount("helper-scripts", HELPERS_PATH) in Pods.BackupSidecar(master).mounts
    ensures Specs.Mount("helper-scripts", HELPERS_PATH) in Pods.BackupInit(image).mounts
    ensures Specs.Mount("backup-pool", POOL_PATH) in Pods.BackupSidecar(master).mounts
    ensures var own := JenkinsOptions.FirstValue(master.containers[0].env, "JENKINS_HOME");
            SeesHomeAt(master, HOME) <==> own.None? || Components(own.value) == HOME
  {
    hide Components;
    VolumePaths();
    var ms := Pods.BackupSidecar(master).mounts;
    assert ms[0] == Specs.Mount("backup-pool", POOL_PATH) && ms[1] == Specs.Mount("helper-scripts", HELPERS_PATH);
    assert ms[2] == Specs.Mount("jenkins-home", Pods.HomePath(master));
    assert Pods.BackupInit(image).mounts[1] == Specs.Mount("helper-scripts", HELPERS_PATH);
    assert |"backup-pool"| != |"jenkins-home"| && |"helper-scripts"| != |"jenkins-home"|;
  }
}
