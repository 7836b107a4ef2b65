/** The two stages of the Jenkins conditions, and what the three ways of setting them make of each. */
module JenkinsStages {
  import opened Common
  import opened Conditions
  import opened JenkinsMachine

  predicate IsStarted(cs: seq<Condition>)
  {
    cs == Started(True) || cs == Started(False)
  }

  predicate IsFinished(cs: seq<Condition>)
  {
    cs == Finished(True) || cs == Finished(False)
  }

  predicate Shaped(cs: seq<Condition>)
  {
    cs == [] || IsStarted(cs) || IsFinished(cs)
  }

  /** How far a condition list has come. */
  function Rank(cs: seq<Condition>): nat
  {
    if cs == [] then 0 else if IsFinished(cs) then 2 else 1
  }

  lemma SetThere(a: seq<Condition>, replaced: Condition, b: seq<Condition>, c: Condition)
    requires replaced.kind == c.kind && forall i | 0 <= i < |a| :: a[i].kind != c.kind
    ensures Set(a + [replaced] + b, c) == a + [c] + b
    decreases |a|
  {
    var s := a + [replaced] + b;
    if a == [] {
      assert s[1..] == b;
    } else {
      assert s[1..] == a[1..] + [replaced] + b;
      SetThere(a[1..], replaced, b, c);
      assert a == [a[0]] + a[1..];
    }
  }

  /** Setting one of five conditions replaces it where it stands. */
  lemma SetOne(cs: seq<Condition>, i: nat, c: Condition)
    requires i < |cs| && cs[i].kind == c.kind && forall k | 0 <= k < i :: cs[k].kind != c.kind
    ensures Set(cs, c) == cs[i := c]
  {
    SetThere(cs[..i], cs[i], cs[i + 1..], c);
    assert cs == cs[..i] + [cs[i]] + cs[i + 1..];
    assert cs[i := c] == cs[..i] + [c] + cs[i + 1..];
  }

  lemma SetNew(cs: seq<Condition>, c: Condition)
    requires forall k | 0 <= k < |cs| :: cs[k].kind != c.kind
    ensures Set(cs, c) == cs + [c]
    decreases |cs|
  {
    if cs != [] {
      SetNew(cs[1..], c);
    }
  }

  lemma SetAllFive(cs: seq<Condition>, news: seq<Condition>)
    requires |news| == 5
    ensures SetAll(cs, news) == Set(Set(Set(Set(Set(cs, news[0]), news[1]), news[2]), news[3]), news[4])
  {
    hide Set;
    var c1 := Set(cs, news[0]);
    var c2 := Set(c1, news[1]);
    var c3 := Set(c2, news[2]);
    var c4 := Set(c3, news[3]);
    assert news[1..][1..] == news[2..] && news[2..][1..] == news[3..] && news[3..][1..] == news[4..];
    assert SetAll(c1, news[1..]) == SetAll(c2, news[2..]);
    assert SetAll(c3, news[3..]) == SetAll(c4, news[4..]);
    assert news[4..][1..] == [];
    assert SetAll(c4, news[4..]) == Set(c4, news[4]);
  }

  /** Conditions of five different types, set on an object without any, are all there is. */
  lemma SetAllFresh(news: seq<Condition>)
    requires FiveKinds(news)
    ensures SetAll([], news) == news
  {
    hide SetAll, Set;
    SetAllFive([], news);
    FreshStep(news, 0);
    FreshStep(news, 1);
    FreshStep(news, 2);
    FreshStep(news, 3);
    FreshStep(news, 4);
    assert news[..0] == [] && news[..5] == news;
  }

  lemma FreshStep(news: seq<Condition>, i: nat)
    requires FiveKinds(news) && i < 5
    ensures Set(news[..i], news[i]) == news[..i + 1]
  {
    SetNew(news[..i], news[i]);
    assert news[..i + 1] == news[..i] + [news[i]];
  }

  lemma InitialConditions()
    ensures SetInitial([]) == Started(False)
  {
    SetAllFresh(Started(False));
  }

  lemma CompletedFromNothing()
    ensures SetCompleted([]) == Finished(False)
  {
    SetAllFresh(Finished(False));
  }

  predicate FiveKinds(cs: seq<Condition>)
  {
    |cs| == 5 && cs[0].kind == ReconciliationComplete && cs[1].kind == Conditions.Available &&
    cs[2].kind == Progressing && cs[3].kind == Degraded && cs[4].kind == Upgradeable
  }

  lemma CompletedFromFive(cs: seq<Condition>)
    requires FiveKinds(cs)
    ensures SetCompleted(cs) == Finished(False)
  {
    hide SetAll, Set;
    var target := Finished(False);
    SetAllFive(cs, target);
    var c0 := cs[0 := target[0]];
    var c1 := c0[1 := target[1]];
    var c2 := c1[2 := target[2]];
    var c3 := c2[3 := target[3]];
    SetOne(cs, 0, target[0]);
    SetOne(c0, 1, target[1]);
    SetOne(c1, 2, target[2]);
    SetOne(c2, 3, target[3]);
    SetOne(c3, 4, target[4]);
    assert c3[4 := target[4]] == target;
  }

  /** Completing always gives the same five conditions, whatever stage was read. */
  lemma CompletedConditions(cs: seq<Condition>)
    requires Shaped(cs)
    ensures SetCompleted(cs) == Finished(False)
  {
    if cs == [] {
      CompletedFromNothing();
    } else {
      CompletedFromFive(cs);
    }
  }

  /** A failure changes Degraded and nothing else. */
  lemma DegradedConditions(cs: seq<Condition>)
    requires Shaped(cs) && cs != []
    ensures SetDegraded(cs) == if IsFinished(cs) then Finished(True) else Started(True)
  {
    SetOne(cs, 3, Condition(Degraded, True));
    assert cs[3 := Condition(Degraded, True)] == if IsFinished(cs) then Finished(True) else Started(True);
  }

  lemma ShapedCounts(cs: seq<Condition>, kind: Kind)
    requires FiveKinds(cs)
    ensures Count(cs, kind) ==
            if kind in {ReconciliationComplete, Conditions.Available, Progressing, Degraded, Upgradeable} then 1 else 0
  {
    assert cs[1..][1..] == cs[2..] && cs[2..][1..] == cs[3..] && cs[3..][1..] == cs[4..] && cs[4..][1..] == cs[5..] == [];
    assert Count(cs[5..], kind) == 0;
    assert Count(cs[4..], kind) == (if kind == Upgradeable then 1 else 0);
    assert Count(cs[3..], kind) == (if kind == Degraded then 1 else 0) + Count(cs[4..], kind);
    assert Count(cs[2..], kind) == (if kind == Progressing then 1 else 0) + Count(cs[3..], kind);
    assert Count(cs[1..], kind) == (if kind == Conditions.Available then 1 else 0) + Count(cs[2..], kind);
  }

  /** Whatever was there, the types that are set have the last status set for them and the others keep theirs. */
  lemma {:induction false} SetAllLookup(cs: seq<Condition>, news: seq<Condition>, kind: Kind)
    requires forall i, j | 0 <= i < j < |news| :: news[i].kind != news[j].kind
    ensures StatusOf(SetAll(cs, news), kind) ==
            if StatusOf(news, kind).Some? then StatusOf(news, kind) else StatusOf(cs, kind)
    decreases |news|
  {
    if news != [] {
      SetLookup(cs, news[0], kind);
      SetAllLookup(Set(cs, news[0]), news[1..], kind);
      if news[0].kind == kind {
        NotThere(news[1..], kind);
      }
    }
  }

  lemma {:induction false} NotThere(cs: seq<Condition>, kind: Kind)
    requires forall i | 0 <= i < |cs| :: cs[i].kind != kind
    ensures StatusOf(cs, kind) == None
    decreases |cs|
  {
    if cs != [] {
      NotThere(cs[1..], kind);
    }
  }

  /** What the two stages say. */
  lemma StageStatuses(cs: seq<Condition>)
    requires IsStarted(cs) || IsFinished(cs)
    ensures IsStarted(cs) ==>
              && StatusOf(cs, ReconciliationComplete) == Some(Unknown) && StatusOf(cs, Conditions.Available) == Some(False)
              && StatusOf(cs, Progressing) == Some(True) && StatusOf(cs, Upgradeable) == Some(Unknown)
    ensures IsFinished(cs) ==>
              && StatusOf(cs, ReconciliationComplete) == Some(True) && StatusOf(cs, Conditions.Available) == Some(True)
              && StatusOf(cs, Progressing) == Some(False) && StatusOf(cs, Upgradeable) == Some(True)
  {
    EntryStatus(cs, 0);
    EntryStatus(cs, 1);
    EntryStatus(cs, 2);
    EntryStatus(cs, 4);
  }

  lemma {:induction false} EntryStatus(cs: seq<Condition>, i: nat)
    requires i < |cs| && forall k | 0 <= k < i :: cs[k].kind != cs[i].kind
    ensures StatusOf(cs, cs[i].kind) == Some(cs[i].status)
    decreases i
  {
    if i > 0 {
      EntryStatus(cs[1..], i - 1);
    }
  }
}
