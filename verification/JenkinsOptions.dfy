/** Parsing of the JENKINS_OPTS environment variable. */
module JenkinsOptions {
  import opened Common
  import opened Strings

  datatype EnvVar = EnvVar(name: string, value: string)

  const JENKINS_OPTS := "JENKINS_OPTS"

  /** The parser indexes past the end of a token without an equals sign. */
  datatype Failure = IndexOutOfRange

  /** `strings.ReplaceAll(s, "--", "")`. */
  function RemoveDashes(s: string): string
  {
    if |s| >= 2 && s[0] == '-' && s[1] == '-' then RemoveDashes(s[2..])
    else if s == [] then []
    else [s[0]] + RemoveDashes(s[1..])
  }

  predicate NoDoubleDash(s: string)
  {
    forall i | 0 <= i < |s| - 1 :: !(s[i] == '-' && s[i + 1] == '-')
  }

  function Key(token: string): string
  {
    RemoveDashes(Split(token, '=')[0])
  }

  function Value(token: string): string
    requires '=' in token
  {
    JoinOfSplit(token, '=');
    Split(token, '=')[1]
  }

  predicate AllAssign(tokens: seq<string>)
  {
    forall t | t in tokens :: '=' in t
  }

  /** The options of a list of assignments; of two with one key the last one counts. */
  function OptionsOf(tokens: seq<string>): map<string, string>
    requires AllAssign(tokens)
  {
    if tokens == [] then map[]
    else OptionsOf(tokens[..|tokens| - 1])[Key(tokens[|tokens| - 1]) := Value(tokens[|tokens| - 1])]
  }

  /** The value of the first variable of that name. */
  function FirstValue(envs: seq<EnvVar>, name: string): Option<string>
  {
    if envs == [] then None
    else if envs[0].name == name then Some(envs[0].value)
    else FirstValue(envs[1..], name)
  }

  /** It is the first: whatever comes after it does not matter, and nothing before it has the name. */
  lemma {:induction false} FirstIsFirst(before: seq<EnvVar>, name: string, value: string, after: seq<EnvVar>)
    requires forall i | 0 <= i < |before| :: before[i].name != name
    ensures FirstValue(before + [EnvVar(name, value)] + after, name) == Some(value)
    ensures FirstValue(before, name) == None
    decreases |before|
  {
    var envs := before + [EnvVar(name, value)] + after;
    if before != [] {
      assert envs[1..] == before[1..] + [EnvVar(name, value)] + after;
      FirstIsFirst(before[1..], name, value, after);
    }
  }

  /** What the parser returns: no options, the options, or a panic. */
  function Parsed(value: string): Result<Option<map<string, string>>, Failure>
  {
    if value == "" then Ok(None)
    else if AllAssign(Split(value, ' ')) then Ok(Some(OptionsOf(Split(value, ' '))))
    else Err(IndexOutOfRange)
  }

  method GetJenkinsOpts(envs: seq<EnvVar>) returns (r: Result<Option<map<string, string>>, Failure>)
    ensures r == match FirstValue(envs, "JENKINS_OPTS")
                 case None => Ok(None)
                 case Some(value) => Parsed(value)
  {
    assert envs[0..] == envs;
    for k := 0 to |envs|
      invariant FirstValue(envs, JENKINS_OPTS) == FirstValue(envs[k..], JENKINS_OPTS)
    {
      assert envs[k..][1..] == envs[k + 1..];
      if envs[k].name == JENKINS_OPTS {
        r := ParseOpts(envs[k].value);
        return;
      }
    }
    r := Ok(None);
  }

  method ParseOpts(value: string) returns (r: Result<Option<map<string, string>>, Failure>)
    ensures r == Parsed(value)
  {
    hide Split, RemoveDashes, Join;
    if value == "" {
      return Ok(None);
    }
    var tokens := Split(value, ' ');
    var opts: map<string, string> := map[];
    for i := 0 to |tokens|
      invariant AllAssign(tokens[..i]) && opts == OptionsOf(tokens[..i])
    {
      var opt := Split(tokens[i], '=');
      JoinOfSplit(tokens[i], '=');
      if |opt| < 2 {
        assert tokens[i] in tokens;
        return Err(IndexOutOfRange);
      }
      assert tokens[..i + 1][..i] == tokens[..i];
      opts := opts[RemoveDashes(opt[0]) := opt[1]];
    }
    assert tokens[..|tokens|] == tokens;
    r := Ok(Some(opts));
  }

  /** Every key has the value of its last assignment, and there are no other keys. */
  lemma {:induction false} LastWins(tokens: seq<string>, key: string)
    requires AllAssign(tokens)
    ensures key in OptionsOf(tokens) <==> exists t :: t in tokens && Key(t) == key
    ensures key in OptionsOf(tokens) ==>
              exists i :: 0 <= i < |tokens| && Key(tokens[i]) == key && OptionsOf(tokens)[key] == Value(tokens[i]) &&
                          forall j | i < j < |tokens| :: Key(tokens[j]) != key
  {
    if tokens != [] {
      var front, last := tokens[..|tokens| - 1], tokens[|tokens| - 1];
      assert tokens == front + [last];
      LastWins(front, key);
      if Key(last) == key {
        assert tokens[|tokens| - 1] == last;
      } else if key in OptionsOf(front) {
        var i :| 0 <= i < |front| && Key(front[i]) == key && OptionsOf(front)[key] == Value(front[i]) &&
                 forall j | i < j < |front| :: Key(front[j]) != key;
        assert tokens[i] == front[i];
        forall j | i < j < |tokens| ensures Key(tokens[j]) != key {
          assert j < |front| ==> tokens[j] == front[j];
        }
      }
    }
  }

  /** A key and a value that can be printed: no double dash in the key, no separator in either. */
  predicate Printable(key: string, value: string)
  {
    NoDoubleDash(key) && '=' !in key && ' ' !in key && '=' !in value && ' ' !in value
  }

  function Token(key: string, value: string): string
  {
    "--" + key + "=" + value
  }

  lemma {:induction false} DashesKept(s: string)
    requires NoDoubleDash(s)
    ensures RemoveDashes(s) == s
  {
    if s != [] {
      assert NoDoubleDash(s[1..]) by {
        forall i | 0 <= i < |s[1..]| - 1 ensures !(s[1..][i] == '-' && s[1..][i + 1] == '-') {
          assert s[1..][i] == s[i + 1] && s[1..][i + 1] == s[i + 2];
        }
      }
      DashesKept(s[1..]);
      assert [s[0]] + s[1..] == s;
    }
  }

  /** Taking double dashes out goes from left to right: the first one goes, and so on with what follows it. */
  lemma {:induction false} FirstDashesGo(a: string, b: string)
    requires NoDoubleDash(a) && (a == "" || a[|a| - 1] != '-')
    ensures RemoveDashes(a + "--" + b) == a + RemoveDashes(b)
    decreases |a|
  {
    var s := a + "--" + b;
    if a == "" {
      assert s[2..] == b;
    } else {
      assert s[1..] == a[1..] + "--" + b;
      assert s[0] == '-' ==> |a| > 1 && s[1] == a[1];
      assert NoDoubleDash(a[1..]) by {
        forall i | 0 <= i < |a[1..]| - 1 ensures !(a[1..][i] == '-' && a[1..][i + 1] == '-') {
          assert a[1..][i] == a[i + 1] && a[1..][i + 1] == a[i + 2];
        }
      }
      FirstDashesGo(a[1..], b);
      assert [a[0]] + a[1..] == a;
    }
  }

  /** An assignment gives the key without its double dashes the value up to the next equals sign, if there is one. */
  lemma AssignmentParses(key: string, value: string, rest: string)
    requires '=' !in key && '=' !in value && (rest == "" || rest[0] == '=')
    ensures var t := key + "=" + value + rest; '=' in t && Key(t) == RemoveDashes(key) && Value(t) == value
  {
    var t := key + "=" + value + rest;
    assert t == key + ['='] + (value + rest);
    assert t[|key|] == '=';
    SplitFirst(key, value + rest, '=');
    if rest == "" {
      assert value + rest == value;
      PieceIsWhole(value, '=');
    } else {
      assert value + rest == value + ['='] + rest[1..];
      SplitFirst(value, rest[1..], '=');
    }
  }

  lemma TokenParses(key: string, value: string)
    requires Printable(key, value)
    ensures var t := Token(key, value); '=' in t && ' ' !in t && Key(t) == key && Value(t) == value
  {
    var t, name := Token(key, value), "--" + key;
    assert t == name + ['='] + value;
    assert t[|name|] == '=';
    SplitFirst(name, value, '=');
    PieceIsWhole(value, '=');
    assert Split(t, '=') == [name, value];
    assert name[2..] == key;
    DashesKept(key);
  }

  /** The tokens of a map whose keys are listed in any order. */
  function Tokens(m: map<string, string>, keys: seq<string>): (r: seq<string>)
    requires forall k | k in keys :: k in m
    ensures |r| == |keys|
  {
    if keys == [] then [] else Tokens(m, keys[..|keys| - 1]) + [Token(keys[|keys| - 1], m[keys[|keys| - 1]])]
  }

  lemma {:induction false} TokensParse(m: map<string, string>, keys: seq<string>)
    requires forall k | k in keys :: k in m && Printable(k, m[k])
    ensures AllAssign(Tokens(m, keys)) && forall t | t in Tokens(m, keys) :: ' ' !in t
    ensures OptionsOf(Tokens(m, keys)) == map k | k in keys :: m[k]
  {
    if keys != [] {
      var front, last := keys[..|keys| - 1], keys[|keys| - 1];
      assert keys == front + [last];
      TokensParse(m, front);
      TokenParses(last, m[last]);
      var ts := Tokens(m, keys);
      assert ts[..|ts| - 1] == Tokens(m, front);
    }
  }

  /** Printing a map of options, its keys in any order, and parsing it gives the map back; the empty map comes back as none. */
  lemma PrintThenParse(m: map<string, string>, keys: seq<string>)
    requires (forall k | k in m :: Printable(k, m[k])) && forall k :: k in keys <==> k in m
    ensures Parsed(Join(Tokens(m, keys), ' ')) == Ok(if m == map[] then None else Some(m))
  {
    if keys == [] {
      assert m == map[];
    } else {
      TokensParse(m, keys);
      var ts := Tokens(m, keys);
      SplitOfJoin(ts, ' ');
      assert keys[0] in m;
      assert ts[0] in ts && '=' in ts[0];
      assert Join(ts, ' ') != "" by {
        PieceIsWhole("", ' ');
        assert Split("", ' ') == [""];
      }
      assert (map k | k in keys :: m[k]) == m;
    }
  }

  /** Two spaces in a row are enough for a panic, whatever stands around them. */
  lemma DoubleSpacePanics(before: string, after: string)
    ensures Parsed(before + "  " + after) == Err(IndexOutOfRange)
  {
    var value := before + "  " + after;
    assert value == before + [' '] + ("" + [' '] + after);
    SplitConcat(before, "" + [' '] + after, ' ');
    SplitConcat("", after, ' ');
    PieceIsWhole("", ' ');
    var tokens := Split(value, ' ');
    assert tokens[|Split(before, ' ')|] == "";
    assert "" in tokens;
  }
}
