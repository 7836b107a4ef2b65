/** Status conditions of the custom resources, and the update every controller makes to them. */
module Conditions {
  import opened Common

  datatype Kind =
    | BackupInitialized | QuietDownStarted | BackupCompleted | QuietDownCancelled
    | RestoreInitialized | RestoreCompleted | RestartStarted | SafeRestartStarted
    | ReconciliationComplete | Available | Progressing | Degraded | Upgradeable

  datatype Status = True | False | Unknown

  datatype Condition = Condition(kind: Kind, status: Status)

  /** Replaces the first condition of the same kind in place, or appends a new one. */
  function Set(cs: seq<Condition>, c: Condition): (r: seq<Condition>)
    ensures r != []
  {
    if cs == [] then [c]
    else if cs[0].kind == c.kind then [c] + cs[1..]
    else [cs[0]] + Set(cs[1..], c)
  }

  function StatusOf(cs: seq<Condition>, kind: Kind): Option<Status>
  {
    if cs == [] then None
    else if cs[0].kind == kind then Some(cs[0].status)
    else StatusOf(cs[1..], kind)
  }

  /** How many entries carry the given kind. */
  function Count(cs: seq<Condition>, kind: Kind): nat
  {
    if cs == [] then 0
    else (if cs[0].kind == kind then 1 else 0) + Count(cs[1..], kind)
  }

  lemma {:induction false} SetLookup(cs: seq<Condition>, c: Condition, kind: Kind)
    ensures StatusOf(Set(cs, c), kind) == if kind == c.kind then Some(c.status) else StatusOf(cs, kind)
  {
    if cs == [] {
    } else if cs[0].kind == c.kind {
      assert ([c] + cs[1..])[1..] == cs[1..];
    } else {
      var r := Set(cs[1..], c);
      assert ([cs[0]] + r)[1..] == r;
      SetLookup(cs[1..], c, kind);
    }
  }

  /** Set never duplicates a kind, and never loses one. */
  lemma {:induction false} SetCount(cs: seq<Condition>, c: Condition, kind: Kind)
    ensures Count(Set(cs, c), kind) ==
            if kind == c.kind && Count(cs, kind) == 0 then 1 else Count(cs, kind)
  {
    if cs == [] {
    } else if cs[0].kind == c.kind {
      assert ([c] + cs[1..])[1..] == cs[1..];
    } else {
      var r := Set(cs[1..], c);
      assert ([cs[0]] + r)[1..] == r;
      SetCount(cs[1..], c, kind);
    }
  }
}
