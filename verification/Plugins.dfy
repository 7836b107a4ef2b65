/** Plugin names and versions, and the check that all requirements of one plugin agree. */
module Plugins {
  import opened Common

  datatype Plugin = Plugin(name: string, version: string, downloadURL: string)

  function String(p: Plugin): string
  {
    p.name + ":" + p.version
  }

  predicate Alphanumeric(c: char)
  {
    '0' <= c <= '9' || 'a' <= c <= 'z' || 'A' <= c <= 'Z'
  }

  const DIGITS := "0123456789"
  const LOWER := "abcdefghijklmnopqrstuvwxyz"
  const UPPER := "ABCDEFGHIJKLMNOPQRSTUVWXYZ"

  lemma DigitsExact(c: char)
    ensures c in DIGITS <==> '0' <= c <= '9'
  {
    if '0' <= c <= '9' {
      assert DIGITS[c as int - '0' as int] == c;
    }
  }

  lemma LowerExact(c: char)
    ensures c in LOWER <==> 'a' <= c <= 'z'
  {
    if 'a' <= c <= 'z' {
      assert LOWER[c as int - 'a' as int] == c;
    }
  }

  lemma UpperExact(c: char)
    ensures c in UPPER <==> 'A' <= c <= 'Z'
  {
    if 'A' <= c <= 'Z' {
      assert UPPER[c as int - 'A' as int] == c;
    }
  }

  lemma AlphanumericExact(c: char)
    ensures Alphanumeric(c) <==> c in DIGITS || c in LOWER || c in UPPER
  {
    DigitsExact(c);
    LowerExact(c);
    UpperExact(c);
  }

  predicate NameMatches(s: string)
  {
    s != [] && forall i | 0 <= i < |s| :: Alphanumeric(s[i]) || s[i] == '-' || s[i] == '_'
  }

  predicate VersionMatches(s: string)
  {
    s != [] && forall i | 0 <= i < |s| ::
      Alphanumeric(s[i]) || s[i] == '+' || s[i] == '\\' || s[i] == '.' || s[i] == '-'
  }

  /** The two patterns, character by character: names take dash and underscore, versions plus, backslash, dot and dash. */
  lemma PatternsExact(s: string)
    ensures NameMatches(s) <==> s != "" && forall c | c in s :: c in DIGITS || c in LOWER || c in UPPER || c in "-_"
    ensures VersionMatches(s) <==> s != "" && forall c | c in s :: c in DIGITS || c in LOWER || c in UPPER || c in "+\\.-"
  {
    forall c: char ensures Alphanumeric(c) <==> c in DIGITS || c in LOWER || c in UPPER {
      AlphanumericExact(c);
    }
    assert forall i | 0 <= i < |s| :: s[i] in s;
    assert forall c: char :: c in "-_" <==> c == "-_"[0] || c == "-_"[1];
    assert forall c: char :: c in "+\\.-" <==> c == "+\\.-"[0] || c == "+\\.-"[1] || c == "+\\.-"[2] || c == "+\\.-"[3];
  }

  /** `urlMatches` is the download URL pattern. */
  predicate Valid(name: string, version: string, downloadURL: string, urlMatches: string -> bool)
  {
    NameMatches(name) && VersionMatches(version) && (|downloadURL| > 0 ==> urlMatches(downloadURL))
  }

  function NewPlugin(name: string, version: string, downloadURL: string, urlMatches: string -> bool): Option<Plugin>
  {
    if Valid(name, version, downloadURL, urlMatches) then Some(Plugin(name, version, downloadURL)) else None
  }

  /** The part before the first colon and the part after it. */
  function SplitAtColon(s: string): Option<(string, string)>
  {
    if s == [] then None
    else if s[0] == ':' then Some(("", s[1..]))
    else match SplitAtColon(s[1..])
         case None => None
         case Some(parts) => Some(([s[0]] + parts.0, parts.1))
  }

  /** Parses "name:version". */
  function New(s: string): Option<Plugin>
  {
    match SplitAtColon(s)
    case None => None
    case Some(parts) =>
      if NameMatches(parts.0) && VersionMatches(parts.1) then Some(Plugin(parts.0, parts.1, "")) else None
  }

  lemma {:induction false} SplitSound(s: string)
    ensures SplitAtColon(s).Some? ==> s == SplitAtColon(s).value.0 + ":" + SplitAtColon(s).value.1
    ensures SplitAtColon(s).None? ==> ':' !in s
  {
    if s != [] && s[0] != ':' {
      SplitSound(s[1..]);
      assert s == [s[0]] + s[1..];
    }
  }

  lemma {:induction false} SplitComplete(name: string, version: string)
    requires ':' !in name
    ensures SplitAtColon(name + ":" + version) == Some((name, version))
  {
    var s := name + ":" + version;
    if name == [] {
      assert s[1..] == version;
    } else {
      assert s[1..] == name[1..] + ":" + version;
      SplitComplete(name[1..], version);
      assert [name[0]] + name[1..] == name;
    }
  }

  /** Exactly the strings "name:version" with a valid name and version are accepted, and printing gives them back. */
  lemma NewThenString(s: string)
    ensures New(s).Some? <==>
              exists name, version :: s == name + ":" + version && NameMatches(name) && VersionMatches(version)
    ensures New(s).Some? ==> String(New(s).value) == s
  {
    SplitSound(s);
    forall name, version | s == name + ":" + version && NameMatches(name) && VersionMatches(version)
      ensures New(s).Some?
    {
      SplitComplete(name, version);
    }
    if New(s).Some? {
      var parts := SplitAtColon(s).value;
      assert s == parts.0 + ":" + parts.1;
    }
  }

  /** New recovers name and version of every valid plugin from its string. */
  lemma StringThenNew(p: Plugin, urlMatches: string -> bool)
    requires Valid(p.name, p.version, p.downloadURL, urlMatches)
    ensures New(String(p)) == Some(Plugin(p.name, p.version, ""))
  {
    SplitComplete(p.name, p.version);
  }

  /** One requirement of a plugin: the version asked for, and the root plugin that asks. */
  datatype Requirement = Requirement(version: string, root: string)

  /** A requirement together with the plugin it is about. */
  datatype Demand = Demand(name: string, requirement: Requirement)

  datatype Message = Message(name: string, first: Requirement, second: Requirement)

  type Dependencies = map<Plugin, seq<Plugin>>

  function DemandOf(p: Plugin, root: Plugin): Demand
  {
    Demand(p.name, Requirement(p.version, String(root)))
  }

  function DependencyDemands(root: Plugin, plugins: seq<Plugin>): multiset<Demand>
  {
    if plugins == [] then multiset{}
    else DependencyDemands(root, plugins[..|plugins| - 1]) + multiset{DemandOf(plugins[|plugins| - 1], root)}
  }

  /** A root plugin demands itself and its dependencies. */
  function RootDemands(root: Plugin, plugins: seq<Plugin>): multiset<Demand>
  {
    multiset{DemandOf(root, root)} + DependencyDemands(root, plugins)
  }

  ghost function MapDemands(m: Dependencies, roots: set<Plugin>): multiset<Demand>
    requires roots <= m.Keys
  {
    if roots == {} then multiset{}
    else
      var root :| root in roots;
      RootDemands(root, m[root]) + MapDemands(m, roots - {root})
  }

  /** All demands of a list of maps, as a multiset. */
  ghost function Demands(values: seq<Dependencies>): multiset<Demand>
  {
    if values == [] then multiset{}
    else Demands(values[..|values| - 1]) + MapDemands(values[|values| - 1], values[|values| - 1].Keys)
  }

  /** The order in which a map is traversed does not matter. */
  lemma {:induction false} MapDemandsAny(m: Dependencies, roots: set<Plugin>, root: Plugin)
    requires roots <= m.Keys && root in roots
    ensures MapDemands(m, roots) == RootDemands(root, m[root]) + MapDemands(m, roots - {root})
    decreases |roots|
  {
    var first :| first in roots && MapDemands(m, roots) == RootDemands(first, m[first]) + MapDemands(m, roots - {first});
    if first != root {
      MapDemandsAny(m, roots - {first}, root);
      MapDemandsAny(m, roots - {root}, first);
      assert roots - {first} - {root} == roots - {root} - {first};
    }
  }

  /** The plugin is the root itself or one of its dependencies. */
  predicate AskedBy(m: Dependencies, root: Plugin, p: Plugin)
  {
    root in m && (p == root || p in m[root])
  }

  /** What is demanded on behalf of a root: that plugin, in that version, by the root's name and version. */
  predicate DemandedFor(m: Dependencies, root: Plugin, p: Plugin, q: Demand)
  {
    AskedBy(m, root, p) && q == Demand(p.name, Requirement(p.version, root.name + ":" + root.version))
  }

  lemma {:induction false} DependencyDemandsIff(root: Plugin, plugins: seq<Plugin>, q: Demand)
    ensures q in DependencyDemands(root, plugins) <==> exists p :: p in plugins && q == DemandOf(p, root)
  {
    if plugins != [] {
      var front, last := plugins[..|plugins| - 1], plugins[|plugins| - 1];
      DependencyDemandsIff(root, front, q);
      assert plugins == front + [last];
    }
  }

  lemma RootDemandsIff(m: Dependencies, root: Plugin, q: Demand)
    requires root in m
    ensures q in RootDemands(root, m[root]) <==> exists p :: DemandedFor(m, root, p, q)
  {
    DependencyDemandsIff(root, m[root], q);
    if q == DemandOf(root, root) {
      assert DemandedFor(m, root, root, q);
    }
    forall p | p in m[root] && q == DemandOf(p, root) ensures DemandedFor(m, root, p, q) {
    }
  }

  lemma {:induction false} MapDemandsIff(m: Dependencies, roots: set<Plugin>, q: Demand)
    requires roots <= m.Keys
    ensures q in MapDemands(m, roots) <==> exists root, p :: root in roots && DemandedFor(m, root, p, q)
    decreases |roots|
  {
    if roots != {} {
      var root :| root in roots && MapDemands(m, roots) == RootDemands(root, m[root]) + MapDemands(m, roots - {root});
      RootDemandsIff(m, root, q);
      MapDemandsIff(m, roots - {root}, q);
    }
  }

  /** What is demanded: every root and every dependency of every map, each on behalf of its root, and nothing else. */
  lemma {:induction false} DemandsIff(values: seq<Dependencies>, q: Demand)
    ensures q in Demands(values) <==> exists m, root, p :: m in values && DemandedFor(m, root, p, q)
  {
    if values != [] {
      var front, last := values[..|values| - 1], values[|values| - 1];
      assert values == front + [last];
      DemandsIff(front, q);
      MapDemandsIff(last, last.Keys, q);
      forall m, root, p | m in values && DemandedFor(m, root, p, q)
        ensures m in front || (root in last.Keys && DemandedFor(last, root, p, q))
      {
      }
    }
  }

  /** The conflicts of one requirement with each of a list. */
  function Row(name: string, first: Requirement, versions: seq<Requirement>): seq<Message>
  {
    if versions == [] then []
    else
      var second := versions[|versions| - 1];
      Row(name, first, versions[..|versions| - 1]) +
      (if first.version != second.version then [Message(name, first, second)] else [])
  }

  function Pairs(name: string, firsts: seq<Requirement>, versions: seq<Requirement>): seq<Message>
  {
    if firsts == [] then []
    else Pairs(name, firsts[..|firsts| - 1], versions) + Row(name, firsts[|firsts| - 1], versions)
  }

  lemma {:induction false} RowCount(name: string, first: Requirement, versions: seq<Requirement>, msg: Message)
    ensures multiset(Row(name, first, versions))[msg] ==
            if msg.name == name && msg.first == first && first.version != msg.second.version
            then multiset(versions)[msg.second] else 0
  {
    if versions != [] {
      var front, last := versions[..|versions| - 1], versions[|versions| - 1];
      RowCount(name, first, front, msg);
      assert versions == front + [last];
      CountSnoc(front, last, msg.second);
      if first.version != last.version {
        CountSnoc(Row(name, first, front), Message(name, first, last), msg);
      } else {
        assert Row(name, first, front) + [] == Row(name, first, front);
      }
    }
  }

  lemma Distribute(x: nat, y: nat, k: nat)
    ensures (x + y) * k == x * k + y * k
  {
  }

  lemma {:induction false} PairsCount(name: string, firsts: seq<Requirement>, versions: seq<Requirement>, msg: Message)
    ensures multiset(Pairs(name, firsts, versions))[msg] ==
            PairCount(name, firsts, versions, msg)
  {
    if firsts == [] {
      assert PairCount(name, [], versions, msg) == 0;
    } else {
      hide Pairs, Row, PairCount;
      var front, last := firsts[..|firsts| - 1], firsts[|firsts| - 1];
      assert firsts == front + [last];
      PairsCount(name, front, versions, msg);
      PairsSnoc(name, front, last, versions, msg);
      PairCountSnoc(name, front, last, versions, msg);
    }
  }

  lemma CountSnoc<T>(s: seq<T>, last: T, x: T)
    ensures multiset(s + [last])[x] == multiset(s)[x] + if last == x then 1 else 0
  {
    assert multiset(s + [last]) == multiset(s) + multiset{last};
  }

  lemma CountConcat<T>(s: seq<T>, t: seq<T>, x: T)
    ensures multiset(s + t)[x] == multiset(s)[x] + multiset(t)[x]
  {
    assert multiset(s + t) == multiset(s) + multiset(t);
  }

  /** How often a message is expected among the ordered pairs of two lists. */
  function PairCount(name: string, firsts: seq<Requirement>, versions: seq<Requirement>, msg: Message): nat
  {
    if msg.name == name && msg.first.version != msg.second.version
    then multiset(firsts)[msg.first] * multiset(versions)[msg.second] else 0
  }

  lemma PairCountSnoc(name: string, front: seq<Requirement>, last: Requirement, versions: seq<Requirement>, msg: Message)
    ensures PairCount(name, front + [last], versions, msg) ==
            PairCount(name, front, versions, msg) + multiset(Row(name, last, versions))[msg]
  {
    RowCount(name, last, versions, msg);
    CountSnoc(front, last, msg.first);
    var here := if last == msg.first then 1 else 0;
    Distribute(multiset(front)[msg.first], here, multiset(versions)[msg.second]);
  }

  lemma PairsSnoc(name: string, front: seq<Requirement>, last: Requirement, versions: seq<Requirement>, msg: Message)
    ensures multiset(Pairs(name, front + [last], versions))[msg] ==
            multiset(Pairs(name, front, versions))[msg] + multiset(Row(name, last, versions))[msg]
  {
    assert (front + [last])[..|front + [last]| - 1] == front;
    CountConcat(Pairs(name, front, versions), Row(name, last, versions), msg);
  }

  /** Exactly one message for each ordered pair of demands of one plugin that disagree, counted with multiplicity. */
  ghost predicate ExactlyConflicts(messages: multiset<Message>, d: multiset<Demand>)
  {
    forall msg: Message :: messages[msg] ==
      if msg.first.version != msg.second.version
      then d[Demand(msg.name, msg.first)] * d[Demand(msg.name, msg.second)] else 0
  }

  /** Any two demands of the same plugin agree on the version. */
  ghost predicate Compatible(d: multiset<Demand>)
  {
    forall a, b | a in d && b in d && a.name == b.name :: a.requirement.version == b.requirement.version
  }

  /** Sound and complete: there is a message if and only if two demands of one plugin disagree. */
  lemma NoMessagesIffCompatible(messages: seq<Message>, d: multiset<Demand>)
    requires ExactlyConflicts(multiset(messages), d)
    ensures messages == [] <==> Compatible(d)
  {
    if messages != [] {
      var msg := messages[0];
      assert msg in multiset(messages);
      assert d[Demand(msg.name, msg.first)] * d[Demand(msg.name, msg.second)] > 0;
      PositiveFactors(d[Demand(msg.name, msg.first)], d[Demand(msg.name, msg.second)]);
      assert Demand(msg.name, msg.first) in d && Demand(msg.name, msg.second) in d;
    } else {
      forall a, b | a in d && b in d && a.name == b.name
        ensures a.requirement.version == b.requirement.version
      {
        var msg := Message(a.name, a.requirement, b.requirement);
        assert multiset(messages)[msg] == 0;
        if a.requirement.version != b.requirement.version {
          assert Demand(msg.name, msg.first) == a && Demand(msg.name, msg.second) == b;
          PositiveProduct(d[a], d[b]);
        }
      }
    }
  }

  lemma PositiveFactors(x: nat, y: nat)
    requires x * y > 0
    ensures x > 0 && y > 0
  {
  }

  lemma PositiveProduct(x: nat, y: nat)
    requires x > 0 && y > 0
    ensures x * y > 0
  {
  }

  /** The table holds the demands, grouped by plugin name. */
  ghost predicate Groups(all: map<string, seq<Requirement>>, d: multiset<Demand>)
  {
    forall q: Demand :: d[q] == if q.name in all then multiset(all[q.name])[q.requirement] else 0
  }

  function Insert(all: map<string, seq<Requirement>>, q: Demand): map<string, seq<Requirement>>
  {
    all[q.name := (if q.name in all then all[q.name] else []) + [q.requirement]]
  }

  lemma InsertGroups(all: map<string, seq<Requirement>>, d: multiset<Demand>, q: Demand)
    requires Groups(all, d)
    ensures Groups(Insert(all, q), d + multiset{q})
  {
    var versions := if q.name in all then all[q.name] else [];
    assert multiset(versions + [q.requirement]) == multiset(versions) + multiset{q.requirement};
  }

  lemma SumAssociates(a: multiset<Demand>, b: multiset<Demand>, c: multiset<Demand>)
    ensures a + (b + c) == a + b + c
  {
  }

  lemma RootDemandsGrow(root: Plugin, plugins: seq<Plugin>, i: nat)
    requires i < |plugins|
    ensures RootDemands(root, plugins[..i + 1]) == RootDemands(root, plugins[..i]) + multiset{DemandOf(plugins[i], root)}
  {
    assert plugins[..i + 1][..i] == plugins[..i];
    SumAssociates(multiset{DemandOf(root, root)}, DependencyDemands(root, plugins[..i]), multiset{DemandOf(plugins[i], root)});
  }

  method CollectRoot(all: map<string, seq<Requirement>>, root: Plugin, plugins: seq<Plugin>, ghost d: multiset<Demand>)
    returns (all': map<string, seq<Requirement>>)
    requires Groups(all, d)
    ensures Groups(all', d + RootDemands(root, plugins))
  {
    all' := Insert(all, DemandOf(root, root));
    InsertGroups(all, d, DemandOf(root, root));
    assert RootDemands(root, plugins[..0]) == multiset{DemandOf(root, root)};
    for i := 0 to |plugins|
      invariant Groups(all', d + RootDemands(root, plugins[..i]))
    {
      RootDemandsGrow(root, plugins, i);
      SumAssociates(d, RootDemands(root, plugins[..i]), multiset{DemandOf(plugins[i], root)});
      InsertGroups(all', d + RootDemands(root, plugins[..i]), DemandOf(plugins[i], root));
      all' := Insert(all', DemandOf(plugins[i], root));
    }
    assert plugins[..|plugins|] == plugins;
  }

  method CollectMap(all: map<string, seq<Requirement>>, value: Dependencies, ghost d: multiset<Demand>)
    returns (all': map<string, seq<Requirement>>)
    requires Groups(all, d)
    ensures Groups(all', d + MapDemands(value, value.Keys))
  {
    all' := all;
    var todo := value.Keys;
    ghost var sofar := d;
    while todo != {}
      invariant todo <= value.Keys
      invariant Groups(all', sofar)
      invariant sofar + MapDemands(value, todo) == d + MapDemands(value, value.Keys)
      decreases |todo|
    {
      var root :| root in todo;
      MapDemandsAny(value, todo, root);
      SumAssociates(sofar, RootDemands(root, value[root]), MapDemands(value, todo - {root}));
      all' := CollectRoot(all', root, value[root], sofar);
      sofar := sofar + RootDemands(root, value[root]);
      todo := todo - {root};
    }
    assert sofar + multiset{} == sofar;
  }

  method Conflicts(name: string, versions: seq<Requirement>) returns (messages: seq<Message>)
    ensures messages == Pairs(name, versions, versions)
  {
    messages := [];
    for i := 0 to |versions|
      invariant messages == Pairs(name, versions[..i], versions)
    {
      ghost var before := messages;
      for j := 0 to |versions|
        invariant messages == before + Row(name, versions[i], versions[..j])
      {
        assert versions[..j + 1][..j] == versions[..j];
        if versions[i].version != versions[j].version {
          messages := messages + [Message(name, versions[i], versions[j])];
        }
      }
      assert versions[..|versions|] == versions;
      assert versions[..i + 1][..i] == versions[..i];
    }
    assert versions[..|versions|] == versions;
  }

  /** No requirement conflicts with itself. */
  lemma SingleHasNoConflict(name: string, versions: seq<Requirement>)
    requires |versions| == 1
    ensures Pairs(name, versions, versions) == []
  {
    assert versions[..0] == [];
    assert Pairs(name, versions[..0], versions) == [] && Row(name, versions[0], versions[..0]) == [];
  }

  /** The messages are those of the groups whose names are done. */
  ghost predicate Counted(messages: multiset<Message>, all: map<string, seq<Requirement>>, done: set<string>)
  {
    forall msg: Message ::
      messages[msg] == if msg.name in done && msg.name in all then PairCount(msg.name, all[msg.name], all[msg.name], msg) else 0
  }

  lemma CountOneMore(messages: seq<Message>, all: map<string, seq<Requirement>>, done: set<string>, name: string)
    requires Counted(multiset(messages), all, done) && name in all && name !in done
    ensures Counted(multiset(messages + Pairs(name, all[name], all[name])), all, done + {name})
  {
    var more := Pairs(name, all[name], all[name]);
    assert multiset(messages + more) == multiset(messages) + multiset(more);
    forall msg: Message
      ensures multiset(messages + more)[msg] ==
              if msg.name in done + {name} && msg.name in all then PairCount(msg.name, all[msg.name], all[msg.name], msg) else 0
    {
      PairsCount(name, all[name], all[name], msg);
    }
  }

  method AllConflicts(all: map<string, seq<Requirement>>) returns (messages: seq<Message>)
    ensures Counted(multiset(messages), all, all.Keys)
  {
    messages := [];
    var todo := all.Keys;
    while todo != {}
      invariant todo <= all.Keys
      invariant Counted(multiset(messages), all, all.Keys - todo)
      decreases |todo|
    {
      var name :| name in todo;
      CountOneMore(messages, all, all.Keys - todo, name);
      assert all.Keys - todo + {name} == all.Keys - (todo - {name});
      todo := todo - {name};
      if |all[name]| == 1 {
        SingleHasNoConflict(name, all[name]);
        assert messages + [] == messages;
        continue;
      }
      var more := Conflicts(name, all[name]);
      messages := messages + more;
    }
    assert all.Keys - {} == all.Keys;
  }

  /** All demands of any number of maps, traversed in any order. */
  method VerifyDependencies(values: seq<Dependencies>) returns (messages: seq<Message>)
    ensures ExactlyConflicts(multiset(messages), Demands(values))
    ensures messages == [] <==> Compatible(Demands(values))
  {
    var all: map<string, seq<Requirement>> := map[];
    for i := 0 to |values|
      invariant Groups(all, Demands(values[..i]))
    {
      assert values[..i + 1][..i] == values[..i];
      all := CollectMap(all, values[i], Demands(values[..i]));
    }
    assert values[..|values|] == values;
    messages := AllConflicts(all);
    GroupedConflicts(messages, all, Demands(values));
    NoMessagesIffCompatible(messages, Demands(values));
  }

  lemma GroupedConflicts(messages: seq<Message>, all: map<string, seq<Requirement>>, d: multiset<Demand>)
    requires Groups(all, d) && Counted(multiset(messages), all, all.Keys)
    ensures ExactlyConflicts(multiset(messages), d)
  {
    forall msg: Message
      ensures multiset(messages)[msg] ==
              if msg.first.version != msg.second.version
              then d[Demand(msg.name, msg.first)] * d[Demand(msg.name, msg.second)] else 0
    {
      var a, b := Demand(msg.name, msg.first), Demand(msg.name, msg.second);
      assert d[a] == if msg.name in all then multiset(all[msg.name])[msg.first] else 0;
      assert d[b] == if msg.name in all then multiset(all[msg.name])[msg.second] else 0;
    }
  }

  /** A complaint about the plugins of a spec. */
  datatype Complaint = InvalidPlugin(plugin: Plugin) | Conflict(message: Message) | MissingPlugin(name: string)

  predicate NoneDepends(m: Dependencies)
  {
    forall root | root in m :: m[root] == []
  }

  lemma {:induction false} RootsDemanded(m: Dependencies, roots: set<Plugin>, q: Demand)
    requires roots <= m.Keys && NoneDepends(m)
    ensures q in MapDemands(m, roots) <==> exists root :: root in roots && q == DemandOf(root, root)
    decreases |roots|
  {
    if roots != {} {
      var root :| root in roots && MapDemands(m, roots) == RootDemands(root, m[root]) + MapDemands(m, roots - {root});
      RootsDemanded(m, roots - {root}, q);
      assert RootDemands(root, []) == multiset{DemandOf(root, root)};
    }
  }

  /** No two plugins of one name ask for different versions. */
  predicate Agree(ps: set<Plugin>)
  {
    forall a, b | a in ps && b in ps && a.name == b.name :: a.version == b.version
  }

  /** Without dependencies, compatible requirements are plugins that agree. */
  lemma CompatibleIffAgree(m: Dependencies)
    requires NoneDepends(m)
    ensures Compatible(Demands([m])) <==> Agree(m.Keys)
  {
    var d := Demands([m]);
    assert [m][..0] == [];
    assert Demands([m][..0]) == multiset{};
    assert d == multiset{} + MapDemands(m, m.Keys);
    forall q: Demand ensures q in d <==> exists root :: root in m.Keys && q == DemandOf(root, root) {
      RootsDemanded(m, m.Keys, q);
    }
    if Compatible(d) {
      forall a, b | a in m.Keys && b in m.Keys && a.name == b.name ensures a.version == b.version {
        assert DemandOf(a, a) in d && DemandOf(b, b) in d;
      }
    }
  }

  function Conflicting(messages: seq<Message>): (r: seq<Complaint>)
    ensures |r| == |messages|
    ensures forall i | 0 <= i < |r| :: r[i] == Conflict(messages[i])
  {
    seq(|messages|, i requires 0 <= i < |messages| => Conflict(messages[i]))
  }

  predicate Named(base: seq<Plugin>, name: string)
  {
    exists b :: b in base && b.name == name
  }

  /** The message is about a required plugin that is not named. */
  predicate Lacks(m: Complaint, required: seq<Plugin>, base: seq<Plugin>)
  {
    exists r | r in required :: !Named(base, r.name) && m == MissingPlugin(r.name)
  }

  method VerifyBasePlugins(required: seq<Plugin>, base: seq<Plugin>) returns (messages: seq<Complaint>)
    ensures messages == [] <==> forall r | r in required :: Named(base, r.name)
    ensures forall m :: m in messages <==> Lacks(m, required, base)
    ensures forall m | m in messages :: m.MissingPlugin?
  {
    messages := [];
    for i := 0 to |required|
      invariant forall m :: m in messages <==> Lacks(m, required[..i], base)
      invariant messages == [] <==> forall k | 0 <= k < i :: Named(base, required[k].name)
    {
      assert required[..i + 1] == required[..i] + [required[i]];
      var found := false;
      for j := 0 to |base|
        invariant !found && forall k | 0 <= k < j :: base[k].name != required[i].name
      {
        if required[i].name == base[j].name {
          found := true;
          break;
        }
      }
      assert found <==> Named(base, required[i].name);
      if !found {
        messages := messages + [MissingPlugin(required[i].name)];
      }
    }
    assert required[..|required|] == required;
  }

  /** The valid plugins of a list, by value: the keys of the map handed to the conflict check. */
  function ValidOnes(base: seq<Plugin>, urlMatches: string -> bool): set<Plugin>
  {
    set p | p in base && Valid(p.name, p.version, p.downloadURL, urlMatches)
  }

  lemma ValidOnesAre(base: seq<Plugin>, urlMatches: string -> bool)
    ensures forall p :: p in ValidOnes(base, urlMatches) <==> p in base && Valid(p.name, p.version, p.downloadURL, urlMatches)
    ensures base == [] ==> ValidOnes(base, urlMatches) == {}
  {
  }

  lemma ValidOnesSnoc(base: seq<Plugin>, last: Plugin, urlMatches: string -> bool)
    ensures ValidOnes(base + [last], urlMatches) ==
            ValidOnes(base, urlMatches) + if Valid(last.name, last.version, last.downloadURL, urlMatches) then {last} else {}
  {
  }

  /** Which of the three checks a complaint comes from. */
  lemma Gathered(invalid: seq<Complaint>, conflicts: seq<Message>, missing: seq<Complaint>)
    requires (forall m | m in invalid :: m.InvalidPlugin?) && (forall m | m in missing :: m.MissingPlugin?)
    ensures var all := invalid + Conflicting(conflicts) + missing;
            && (all == [] <==> invalid == [] && conflicts == [] && missing == [])
            && (forall p :: InvalidPlugin(p) in all <==> InvalidPlugin(p) in invalid)
            && (forall name :: MissingPlugin(name) in all <==> MissingPlugin(name) in missing)
  {
  }

  /**
   * A spec's plugins pass without a message if and only if each is well formed, no two of one name differ in
   * version, and every required plugin is named.
   */
  method ValidatePlugins(required: seq<Plugin>, base: seq<Plugin>, urlMatches: string -> bool)
    returns (messages: seq<Complaint>)
    ensures messages == [] <==>
              && (forall p | p in base :: Valid(p.name, p.version, p.downloadURL, urlMatches))
              && (forall a, b | a in base && b in base && a.name == b.name :: a.version == b.version)
              && (forall r | r in required :: Named(base, r.name))
    ensures forall p :: InvalidPlugin(p) in messages <==>
              p in base && !(NameMatches(p.name) && VersionMatches(p.version) && (p.downloadURL == "" || urlMatches(p.downloadURL)))
    ensures forall name :: MissingPlugin(name) in messages <==> Lacks(MissingPlugin(name), required, base)
  {
    hide ValidOnes, NameMatches, VersionMatches, Conflicting, Lacks, Named, Demands, Compatible, ExactlyConflicts;
    messages := [];
    ValidOnesAre([], urlMatches);
    var all: Dependencies := map[];
    for i := 0 to |base|
      invariant NoneDepends(all) && all.Keys == ValidOnes(base[..i], urlMatches)
      invariant messages == [] <==> forall k | 0 <= k < i :: Valid(base[k].name, base[k].version, base[k].downloadURL, urlMatches)
      invariant forall m | m in messages :: m.InvalidPlugin?
      invariant forall p :: InvalidPlugin(p) in messages <==>
                  p in base[..i] && !Valid(p.name, p.version, p.downloadURL, urlMatches)
    {
      ValidOnesSnoc(base[..i], base[i], urlMatches);
      assert base[..i + 1] == base[..i] + [base[i]];
      var plugin := NewPlugin(base[i].name, base[i].version, base[i].downloadURL, urlMatches);
      if plugin.None? {
        messages := messages + [InvalidPlugin(base[i])];
      }
      if plugin.Some? {
        all := all[plugin.value := []];
      }
    }
    assert base[..|base|] == base;
    var conflicts := VerifyDependencies([all]);
    CompatibleIffAgree(all);
    ValidOnesAre(base, urlMatches);
    assert messages == [] ==> forall p | p in base :: p in all.Keys;
    ghost var invalid := messages;
    messages := messages + Conflicting(conflicts);
    var missing := VerifyBasePlugins(required, base);
    messages := messages + missing;
    Gathered(invalid, conflicts, missing);
  }
}
